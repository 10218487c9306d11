/**
 * The post-build step that registers the WebRtcScheme activatable class in a
 * UWP package manifest (Editor/PostUWPBuild.cs). Locating, reading and writing
 * the manifest file are not modelled: the manifest comes in as its list of
 * lines and what would be written goes out as an optional list of lines.
 */
module Manifest {
  import opened Optional

  /** The build target handed to the post-process hook. */
  datatype BuildTarget = WSAPlayer | OtherTarget(name: string)

  /** The text whose presence marks a manifest that is already patched. */
  const Marker: string := "WebRtcScheme.dll"

  /** The eight lines inserted before the manifest's last line, in order. */
  const ExtensionBlock: seq<string> := [
    "  <Extensions>",
    "    <Extension Category=\"windows.activatableClass.inProcessServer\">",
    "      <InProcessServer>",
    "        <Path>WebRtcScheme.dll</Path>",
    "        <ActivatableClass ActivatableClassId=\"WebRtcScheme.SchemeHandler\" ThreadingModel=\"both\" />",
    "      </InProcessServer>",
    "    </Extension>",
    "  </Extensions>"
  ]

  /** t occurs in s starting at offset i. */
  predicate OccursAt(s: string, t: string, i: int)
  {
    0 <= i <= |s| - |t| && s[i..i + |t|] == t
  }

  /** `s.Contains(t)`: t occurs in s at some offset. */
  predicate Contains(s: string, t: string)
  {
    exists i :: 0 <= i <= |s| - |t| && OccursAt(s, t, i)
  }

  /** `lines.Any(x => x.Contains(Marker))`. */
  predicate HasMarker(lines: seq<string>)
  {
    exists k :: 0 <= k < |lines| && Contains(lines[k], Marker)
  }

  /**
   * The manifest after the patch: unchanged when some line already carries the
   * marker, otherwise the extension block is inserted just before the last line.
   * `lines.Last()` throws on an empty list, hence the precondition.
   */
  function Patch(lines: seq<string>): (r: seq<string>)
    requires |lines| > 0
    ensures HasMarker(lines) ==> r == lines
    ensures !HasMarker(lines) ==>
      && |r| == |lines| + 8
      && r[..|lines| - 1] == lines[..|lines| - 1]
      && r[|lines| - 1..|lines| + 7] == ExtensionBlock
      && r[|r| - 1] == lines[|lines| - 1]
  {
    if HasMarker(lines) then lines
    else lines[..|lines| - 1] + ExtensionBlock + [lines[|lines| - 1]]
  }

  /** The fourth block line is the `<Path>` element naming the scheme handler DLL. */
  lemma BlockCarriesMarker()
    ensures Contains(ExtensionBlock[3], Marker)
  {
    var line := ExtensionBlock[3];
    var head, tail := "        <Path>", "</Path>";
    assert line == head + Marker + tail;
    assert (head + Marker + tail)[|head|..|head| + |Marker|] == Marker;
    assert OccursAt(line, Marker, |head|);
  }

  /** Whatever the input, a patched manifest carries the marker. */
  lemma PatchedHasMarker(lines: seq<string>)
    requires |lines| > 0
    ensures HasMarker(Patch(lines))
  {
    if !HasMarker(lines) {
      var r := Patch(lines);
      BlockCarriesMarker();
      assert r[|lines| - 1..|lines| + 7][3] == r[|lines| + 2];
      assert Contains(r[|lines| + 2], Marker);
    }
  }

  /** Running the post-build step twice patches the manifest once. */
  lemma PatchIdempotent(lines: seq<string>)
    requires |lines| > 0
    ensures Patch(Patch(lines)) == Patch(lines)
  {
    PatchedHasMarker(lines);
  }

  /**
   * `OnPostprocessBuild`: returns the lines written back to the manifest, or
   * None when nothing is written. The list is edited as the source does: the
   * last line is taken off, the block appended line by line, the last line put back.
   */
  method OnPostprocessBuild(target: BuildTarget, manifest: seq<string>) returns (written: Option<seq<string>>)
    requires target == WSAPlayer ==> |manifest| > 0
    ensures target != WSAPlayer ==> written == None
    ensures target == WSAPlayer && HasMarker(manifest) ==> written == None
    ensures target == WSAPlayer && !HasMarker(manifest) ==> written == Some(Patch(manifest))
  {
    if target != WSAPlayer {
      return None;
    }
    var lines := manifest;
    if HasMarker(lines) {
      written := None;
    } else {
      var last := lines[|lines| - 1];
      lines := lines[..|lines| - 1];
      lines := lines + ["  <Extensions>"];
      lines := lines + ["    <Extension Category=\"windows.activatableClass.inProcessServer\">"];
      lines := lines + ["      <InProcessServer>"];
      lines := lines + ["        <Path>WebRtcScheme.dll</Path>"];
      lines := lines + ["        <ActivatableClass ActivatableClassId=\"WebRtcScheme.SchemeHandler\" ThreadingModel=\"both\" />"];
      lines := lines + ["      </InProcessServer>"];
      lines := lines + ["    </Extension>"];
      lines := lines + ["  </Extensions>"];
      lines := lines + [last];
      assert lines == manifest[..|manifest| - 1] + ExtensionBlock + [last];
      written := Some(lines);
    }
  }
}
