/**
 * The selection rules `Initialize` and `LoadSettings` (ControlScript.cs) apply
 * at startup: which audio codecs are offered, the order of the video codecs,
 * which codec, camera and capture resolution are picked, and the settings with
 * their built-in defaults. Device and codec enumeration, the capture
 * capabilities query and the settings store are outside the model: their
 * answers come in as parameters.
 */
module Startup {
  import opened Optional

  datatype CodecInfo = CodecInfo(name: string, clockRate: int, preferredPayloadType: int)
  datatype MediaDevice = MediaDevice(id: string, name: string)
  datatype CaptureCapability = CaptureCapability(width: int, height: int, resolutionDescription: string)
  datatype IceServerType = Stun | Turn
  datatype IceServer = IceServer(url: string, kind: IceServerType)

  // ---------------------------------------------------------------------------
  // Audio codecs

  /** The number a string of decimal digits denotes. */
  function DecimalValue(s: string): int
  {
    if s == [] then 0 else DecimalValue(s[..|s| - 1]) * 10 + (s[|s| - 1] as int - '0' as int)
  }

  /** The number a decimal string with an optional leading minus sign denotes. */
  function SignedDecimalValue(s: string): int
  {
    if |s| > 0 && s[0] == '-' then -DecimalValue(s[1..]) else DecimalValue(s)
  }

  /** Decimal digits of a natural number, as C# prints an int: digits only, no leading zero. */
  function NatToString(n: nat): (s: string)
    ensures |s| >= 1 && forall k :: 0 <= k < |s| ==> '0' <= s[k] <= '9'
    ensures s[0] == '0' <==> n == 0
    decreases n
  {
    var digit := ('0' as int + n % 10) as char;
    if n < 10 then [digit]
    else
      var front := NatToString(n / 10);
      assert (front + [digit])[0] == front[0];
      front + [digit]
  }

  /** `ToString()` of an int: a minus sign before the digits of a negative number. */
  function IntToString(n: int): string
  {
    if n < 0 then "-" + NatToString(-n) else NatToString(n)
  }

  /** Reading back the printed digits gives the number printed. */
  lemma {:induction false} NatToStringValue(n: nat)
    ensures DecimalValue(NatToString(n)) == n
    decreases n
  {
    if n >= 10 {
      var s := NatToString(n);
      assert s[..|s| - 1] == NatToString(n / 10);
      NatToStringValue(n / 10);
    }
  }

  /** Reading back the printed form of any int, sign included, gives that int. */
  lemma IntToStringValue(n: int)
    ensures SignedDecimalValue(IntToString(n)) == n
  {
    if n < 0 {
      assert ("-" + NatToString(-n))[1..] == NatToString(-n);
      NatToStringValue(-n);
    } else {
      NatToStringValue(n);
    }
  }

  /** Codec variants that carry no real audio and are not offered. */
  const IncompatibleAudioCodecs: seq<string> := ["CN32000", "CN16000", "CN8000", "red8000", "telephone-event8000"]

  /** `Name + ClockRate`, the key looked up in the incompatible list. */
  function AudioKey(c: CodecInfo): string
  {
    c.name + IntToString(c.clockRate)
  }

  /** The key is the codec name followed by the decimal text of its clock rate. */
  lemma AudioKeySpec(c: CodecInfo)
    ensures |AudioKey(c)| > |c.name| && AudioKey(c)[..|c.name|] == c.name
    ensures SignedDecimalValue(AudioKey(c)[|c.name|..]) == c.clockRate
  {
    assert AudioKey(c)[|c.name|..] == IntToString(c.clockRate);
    IntToStringValue(c.clockRate);
  }

  predicate IsCompatibleAudio(c: CodecInfo)
  {
    AudioKey(c) !in IncompatibleAudioCodecs
  }

  /** The audio codecs kept, in their original order. */
  function KeepCompatible(codecs: seq<CodecInfo>): (r: seq<CodecInfo>)
    ensures |r| <= |codecs|
    ensures forall c :: c in r <==> c in codecs && IsCompatibleAudio(c)
    decreases |codecs|
  {
    if codecs == [] then []
    else
      var init, last := codecs[..|codecs| - 1], codecs[|codecs| - 1];
      assert codecs == init + [last];
      if IsCompatibleAudio(last) then KeepCompatible(init) + [last] else KeepCompatible(init)
  }

  /** Filtering a list is filtering its parts: the kept codecs stay in input order. */
  lemma {:induction false} KeepCompatibleAppend(a: seq<CodecInfo>, b: seq<CodecInfo>)
    ensures KeepCompatible(a + b) == KeepCompatible(a) + KeepCompatible(b)
    decreases |b|
  {
    if b == [] {
      assert a + b == a;
    } else {
      var init, last := b[..|b| - 1], b[|b| - 1];
      assert (a + b)[..|a + b| - 1] == a + init && (a + b)[|a + b| - 1] == last;
      KeepCompatibleAppend(a, init);
    }
  }

  lemma DecimalOf8000()
    ensures NatToString(8000) == "8000"
  {
    assert NatToString(8) == "8";
    assert NatToString(80) == "80";
    assert NatToString(800) == "800";
  }

  lemma DecimalOf16000()
    ensures NatToString(16000) == "16000"
  {
    assert NatToString(1) == "1";
    assert NatToString(16) == "16";
    assert NatToString(160) == "160";
    assert NatToString(1600) == "1600";
  }

  lemma DecimalOf32000()
    ensures NatToString(32000) == "32000"
  {
    assert NatToString(3) == "3";
    assert NatToString(32) == "32";
    assert NatToString(320) == "320";
    assert NatToString(3200) == "3200";
  }

  /** The three comfort-noise variants are dropped whatever their payload type. */
  lemma ComfortNoiseDropped(p: int)
    ensures !IsCompatibleAudio(CodecInfo("CN", 32000, p))
    ensures !IsCompatibleAudio(CodecInfo("CN", 16000, p))
    ensures !IsCompatibleAudio(CodecInfo("CN", 8000, p))
  {
    DecimalOf32000();
    assert AudioKey(CodecInfo("CN", 32000, p)) == IncompatibleAudioCodecs[0];
    DecimalOf16000();
    assert AudioKey(CodecInfo("CN", 16000, p)) == IncompatibleAudioCodecs[1];
    DecimalOf8000();
    assert AudioKey(CodecInfo("CN", 8000, p)) == IncompatibleAudioCodecs[2];
  }

  /** Redundant audio and DTMF events at 8000 Hz are dropped whatever their payload type. */
  lemma RedAndTelephoneEventDropped(p: int)
    ensures !IsCompatibleAudio(CodecInfo("red", 8000, p))
    ensures !IsCompatibleAudio(CodecInfo("telephone-event", 8000, p))
  {
    DecimalOf8000();
    assert AudioKey(CodecInfo("red", 8000, p)) == IncompatibleAudioCodecs[3];
    assert AudioKey(CodecInfo("telephone-event", 8000, p)) == IncompatibleAudioCodecs[4];
  }

  /** The `foreach` that fills `AudioCodecs`. */
  method FilterAudioCodecs(audioCodecList: seq<CodecInfo>) returns (audioCodecs: seq<CodecInfo>)
    ensures audioCodecs == KeepCompatible(audioCodecList)
  {
    audioCodecs := [];
    for i := 0 to |audioCodecList|
      invariant audioCodecs == KeepCompatible(audioCodecList[..i])
    {
      var audioCodec := audioCodecList[i];
      assert audioCodecList[..i + 1][..i] == audioCodecList[..i];
      if AudioKey(audioCodec) !in IncompatibleAudioCodecs {
        audioCodecs := audioCodecs + [audioCodec];
      }
    }
    assert audioCodecList[..|audioCodecList|] == audioCodecList;
  }

  // ---------------------------------------------------------------------------
  // Video codec order

  /** The key of the `OrderBy`: VP8 first, then VP9, then H264, then the rest. */
  function Rank(name: string): (r: nat)
    ensures r == 1 || r == 2 || r == 3 || r == 99
  {
    if name == "VP8" then 1
    else if name == "VP9" then 2
    else if name == "H264" then 3
    else 99
  }

  /** VP8, VP9 and H264 take ranks 1, 2 and 3, each exactly for that name; every other name ranks 99. */
  lemma RankSpec(name: string)
    ensures Rank(name) == 1 <==> name == "VP8"
    ensures Rank(name) == 2 <==> name == "VP9"
    ensures Rank(name) == 3 <==> name == "H264"
    ensures Rank(name) == 99 <==> name != "VP8" && name != "VP9" && name != "H264"
  {
  }

  /** The codecs of one rank, in input order. */
  function WithRank(s: seq<CodecInfo>, k: nat): seq<CodecInfo>
    decreases |s|
  {
    if s == [] then []
    else (if Rank(s[0].name) == k then [s[0]] else []) + WithRank(s[1..], k)
  }

  /** A rank class holds only codecs of the list that have that rank. */
  lemma {:induction false} WithRankMembers(s: seq<CodecInfo>, k: nat)
    ensures forall c :: c in WithRank(s, k) ==> c in s && Rank(c.name) == k
    decreases |s|
  {
    if s != [] {
      WithRankMembers(s[1..], k);
    }
  }

  /**
   * `OrderBy` on the rank. LINQ's `OrderBy` is a stable sort, and as the key
   * has four values, a stable sort equals the four rank classes laid end to end.
   */
  function OrderByRank(s: seq<CodecInfo>): seq<CodecInfo>
  {
    WithRank(s, 1) + WithRank(s, 2) + WithRank(s, 3) + WithRank(s, 99)
  }

  predicate SortedByRank(s: seq<CodecInfo>)
  {
    forall i, j :: 0 <= i < j < |s| ==> Rank(s[i].name) <= Rank(s[j].name)
  }

  lemma ConcatSorted(a: seq<CodecInfo>, b: seq<CodecInfo>)
    requires SortedByRank(a) && SortedByRank(b)
    requires forall x, y :: x in a && y in b ==> Rank(x.name) <= Rank(y.name)
    ensures SortedByRank(a + b)
  {
    forall i, j | 0 <= i < j < |a + b|
      ensures Rank((a + b)[i].name) <= Rank((a + b)[j].name)
    {
      if j >= |a| && i < |a| {
        assert (a + b)[i] in a && (a + b)[j] in b;
      } else if i >= |a| {
        assert (a + b)[i] == b[i - |a|] && (a + b)[j] == b[j - |a|];
      }
    }
  }

  /** The reordered list is sorted by rank. */
  lemma OrderByRankSorted(s: seq<CodecInfo>)
    ensures SortedByRank(OrderByRank(s))
  {
    var w1, w2, w3, w99 := WithRank(s, 1), WithRank(s, 2), WithRank(s, 3), WithRank(s, 99);
    assert SortedByRank(w1) && SortedByRank(w2) && SortedByRank(w3) && SortedByRank(w99) by {
      forall k: nat | k == 1 || k == 2 || k == 3 || k == 99 ensures SortedByRank(WithRank(s, k)) {
        var w := WithRank(s, k);
        WithRankMembers(s, k);
        forall i, j | 0 <= i < j < |w| ensures Rank(w[i].name) <= Rank(w[j].name) {
          assert w[i] in w && w[j] in w;
        }
      }
    }
    WithRankMembers(s, 1);
    WithRankMembers(s, 2);
    WithRankMembers(s, 3);
    WithRankMembers(s, 99);
    ConcatSorted(w1, w2);
    ConcatSorted(w1 + w2, w3);
    ConcatSorted(w1 + w2 + w3, w99);
  }

  /** Nothing is lost or duplicated by the reordering. */
  lemma OrderByRankPermutation(s: seq<CodecInfo>)
    ensures multiset(OrderByRank(s)) == multiset(s)
  {
    forall c | true
      ensures multiset(OrderByRank(s))[c] == multiset(s)[c]
    {
      WithRankCount(s, 1, c);
      WithRankCount(s, 2, c);
      WithRankCount(s, 3, c);
      WithRankCount(s, 99, c);
    }
  }

  /** A rank class holds every codec of its rank as often as the list does, and no other codec. */
  lemma {:induction false} WithRankCount(s: seq<CodecInfo>, k: nat, c: CodecInfo)
    ensures multiset(WithRank(s, k))[c] == if Rank(c.name) == k then multiset(s)[c] else 0
    decreases |s|
  {
    if s != [] {
      WithRankCount(s[1..], k, c);
      assert s == [s[0]] + s[1..];
    }
  }

  lemma {:induction false} WithRankAppend(a: seq<CodecInfo>, b: seq<CodecInfo>, k: nat)
    ensures WithRank(a + b, k) == WithRank(a, k) + WithRank(b, k)
    decreases |a|
  {
    if a == [] {
      assert a + b == b;
    } else {
      assert (a + b)[0] == a[0] && (a + b)[1..] == a[1..] + b;
      WithRankAppend(a[1..], b, k);
    }
  }

  lemma {:induction false} WithRankOfWithRank(s: seq<CodecInfo>, j: nat, k: nat)
    ensures WithRank(WithRank(s, j), k) == if j == k then WithRank(s, k) else []
    decreases |s|
  {
    if s != [] {
      WithRankOfWithRank(s[1..], j, k);
      var head := if Rank(s[0].name) == j then [s[0]] else [];
      WithRankAppend(head, WithRank(s[1..], j), k);
    }
  }

  /** The reordering is stable: codecs of equal rank keep their relative order. */
  lemma OrderByRankStable(s: seq<CodecInfo>, k: nat)
    ensures WithRank(OrderByRank(s), k) == WithRank(s, k)
  {
    var w1, w2, w3, w99 := WithRank(s, 1), WithRank(s, 2), WithRank(s, 3), WithRank(s, 99);
    WithRankAppend(w1 + w2 + w3, w99, k);
    WithRankAppend(w1 + w2, w3, k);
    WithRankAppend(w1, w2, k);
    WithRankOfWithRank(s, 1, k);
    WithRankOfWithRank(s, 2, k);
    WithRankOfWithRank(s, 3, k);
    WithRankOfWithRank(s, 99, k);
    if k != 1 && k != 2 && k != 3 && k != 99 {
      NoCodecOfOtherRank(s, k);
    }
  }

  lemma {:induction false} NoCodecOfOtherRank(s: seq<CodecInfo>, k: nat)
    requires k != 1 && k != 2 && k != 3 && k != 99
    ensures WithRank(s, k) == []
    decreases |s|
  {
    if s != [] {
      NoCodecOfOtherRank(s[1..], k);
    }
  }

  // ---------------------------------------------------------------------------
  // Codec choice

  /** Position of the first codec whose payload type is `id`, -1 for none. */
  function FirstWithPayload(codecs: seq<CodecInfo>, id: int): (r: int)
    ensures -1 <= r < |codecs|
    ensures r == -1 <==> forall k :: 0 <= k < |codecs| ==> codecs[k].preferredPayloadType != id
    ensures r >= 0 ==> codecs[r].preferredPayloadType == id && forall k :: 0 <= k < r ==> codecs[k].preferredPayloadType != id
    decreases |codecs|
  {
    if codecs == [] then -1
    else if codecs[0].preferredPayloadType == id then 0
    else
      var r := FirstWithPayload(codecs[1..], id);
      if r == -1 then -1 else r + 1
  }

  /**
   * The codec the startup code selects: the first one carrying the saved
   * payload type, else the first one; none when the list is empty.
   */
  function PreferredCodec(codecs: seq<CodecInfo>, savedId: Option<int>): (r: Option<CodecInfo>)
    ensures r.None? <==> codecs == []
    ensures r.Some? ==> r.value in codecs
    ensures savedId.Some? && (exists k :: 0 <= k < |codecs| && codecs[k].preferredPayloadType == savedId.value) ==>
      exists k :: 0 <= k < |codecs| && r == Some(codecs[k]) && codecs[k].preferredPayloadType == savedId.value &&
        forall j :: 0 <= j < k ==> codecs[j].preferredPayloadType != savedId.value
    ensures codecs != [] && (savedId.None? || forall k :: 0 <= k < |codecs| ==> codecs[k].preferredPayloadType != savedId.value) ==>
      r == Some(codecs[0])
  {
    if codecs == [] then None
    else if savedId.Some? && FirstWithPayload(codecs, savedId.value) >= 0 then
      Some(codecs[FirstWithPayload(codecs, savedId.value)])
    else Some(codecs[0])
  }

  /** The `foreach ... break` search for the saved codec, then the fallback. */
  method SelectCodec(codecs: seq<CodecInfo>, savedId: Option<int>) returns (selected: Option<CodecInfo>)
    ensures selected == PreferredCodec(codecs, savedId)
  {
    selected := None;
    if |codecs| > 0 {
      if savedId.Some? {
        var id := savedId.value;
        var i := 0;
        while i < |codecs|
          invariant 0 <= i <= |codecs|
          invariant selected == None
          invariant forall j :: 0 <= j < i ==> codecs[j].preferredPayloadType != id
        {
          if codecs[i].preferredPayloadType == id {
            selected := Some(codecs[i]);
            break;
          }
          i := i + 1;
        }
      }
      if selected == None {
        selected := Some(codecs[0]);
      }
    }
  }

  /**
   * The codec setup run on the UI thread: filter the audio codecs, lay out the
   * reordered video codecs, and pick one of each. The saved audio id goes
   * through `Convert.ToByte`, which throws outside 0..255, but only once some
   * compatible audio codec remains.
   */
  method LoadCodecs(audioCodecList: seq<CodecInfo>, videoCodecList: seq<CodecInfo>,
                    savedAudioId: Option<int>, savedVideoId: Option<int>)
    returns (audioCodecs: seq<CodecInfo>, videoCodecs: seq<CodecInfo>,
             selectedAudio: Option<CodecInfo>, selectedVideo: Option<CodecInfo>)
    requires savedAudioId.Some? && KeepCompatible(audioCodecList) != [] ==> 0 <= savedAudioId.value < 256
    ensures audioCodecs == KeepCompatible(audioCodecList)
    ensures videoCodecs == OrderByRank(videoCodecList)
    ensures selectedAudio == PreferredCodec(audioCodecs, savedAudioId)
    ensures selectedVideo == PreferredCodec(videoCodecs, savedVideoId)
  {
    audioCodecs := FilterAudioCodecs(audioCodecList);
    selectedAudio := SelectCodec(audioCodecs, savedAudioId);
    videoCodecs := OrderByRank(videoCodecList);
    selectedVideo := SelectCodec(videoCodecs, savedVideoId);
  }

  // ---------------------------------------------------------------------------
  // Camera choice

  /** Position of the last device with the given id, -1 for none. */
  function LastWithId(devices: seq<MediaDevice>, id: string): (r: int)
    ensures -1 <= r < |devices|
    ensures r == -1 <==> forall k :: 0 <= k < |devices| ==> devices[k].id != id
    ensures r >= 0 ==> devices[r].id == id && forall k :: r < k < |devices| ==> devices[k].id != id
    decreases |devices|
  {
    if devices == [] then -1
    else if devices[|devices| - 1].id == id then |devices| - 1
    else LastWithId(devices[..|devices| - 1], id)
  }

  /**
   * The camera the startup code selects. Its loop has no `break`, so when
   * several devices carry the saved id the last of them wins; with no match
   * the first device is taken.
   */
  function PreferredCamera(devices: seq<MediaDevice>, savedId: Option<string>): (r: Option<MediaDevice>)
    ensures r.None? <==> devices == []
    ensures r.Some? ==> r.value in devices
    ensures savedId.Some? && (exists k :: 0 <= k < |devices| && devices[k].id == savedId.value) ==>
      exists k :: 0 <= k < |devices| && r == Some(devices[k]) && devices[k].id == savedId.value &&
        forall j :: k < j < |devices| ==> devices[j].id != savedId.value
    ensures devices != [] && (savedId.None? || forall k :: 0 <= k < |devices| ==> devices[k].id != savedId.value) ==>
      r == Some(devices[0])
  {
    if devices == [] then None
    else if savedId.Some? && LastWithId(devices, savedId.value) >= 0 then
      Some(devices[LastWithId(devices, savedId.value)])
    else Some(devices[0])
  }

  /** The loop over the capture devices that fills `Cameras` and picks one. */
  method SelectCamera(devices: seq<MediaDevice>, savedId: Option<string>)
    returns (cameras: seq<MediaDevice>, selected: Option<MediaDevice>)
    ensures cameras == devices
    ensures selected == PreferredCamera(devices, savedId)
  {
    cameras := [];
    selected := None;
    for i := 0 to |devices|
      invariant cameras == devices[..i]
      invariant selected == if savedId.Some? && LastWithId(devices[..i], savedId.value) >= 0
                            then Some(devices[LastWithId(devices[..i], savedId.value)]) else None
    {
      var device := devices[i];
      assert devices[..i + 1][..i] == devices[..i];
      if savedId.Some? && savedId.value == device.id {
        selected := Some(device);
      }
      cameras := cameras + [device];
    }
    assert devices[..|devices|] == devices;
    if selected == None && |cameras| > 0 {
      selected := Some(cameras[0]);
    }
  }

  // ---------------------------------------------------------------------------
  // Capture resolution

  function Descriptions(s: seq<CaptureCapability>): set<string>
  {
    set c | c in s :: c.resolutionDescription
  }

  /** Position of the first capability with the given description, -1 for none. */
  function FirstWithDescription(s: seq<CaptureCapability>, d: string): (r: int)
    ensures -1 <= r < |s|
    ensures r == -1 <==> forall k :: 0 <= k < |s| ==> s[k].resolutionDescription != d
    ensures r >= 0 ==> s[r].resolutionDescription == d && forall k :: 0 <= k < r ==> s[k].resolutionDescription != d
    decreases |s|
  {
    if s == [] then -1
    else
      var k := FirstWithDescription(s[..|s| - 1], d);
      if k >= 0 then k
      else if s[|s| - 1].resolutionDescription == d then |s| - 1
      else -1
  }

  /**
   * `GroupBy(ResolutionDescription).Select(grp => grp.First())`: one
   * capability per description, the first one offered (see
   * `UniqueByDescriptionFirsts` for which one and in what order).
   */
  function UniqueByDescription(s: seq<CaptureCapability>): (r: seq<CaptureCapability>)
    ensures |r| <= |s| && (r == [] <==> s == [])
    ensures s != [] ==> r[0] == s[0]
    ensures forall c :: c in r ==> c in s
    ensures Descriptions(r) == Descriptions(s)
    ensures forall i, j :: 0 <= i < j < |r| ==> r[i].resolutionDescription != r[j].resolutionDescription
    decreases |s|
  {
    if s == [] then []
    else
      var init, last := s[..|s| - 1], s[|s| - 1];
      assert s == init + [last];
      var u := UniqueByDescription(init);
      if last.resolutionDescription in Descriptions(init) then
        DescriptionsSnoc(init, last);
        u
      else
        DescriptionsSnoc(init, last);
        DescriptionsSnoc(u, last);
        assert forall c :: c in u ==> c.resolutionDescription in Descriptions(u);
        u + [last]
  }

  /**
   * `r` takes from `s` the first capability of each description it holds, in
   * the order in which those descriptions first appear in `s`.
   */
  predicate FirstsInOrder(s: seq<CaptureCapability>, r: seq<CaptureCapability>)
  {
    && (forall i :: 0 <= i < |r| ==> 0 <= FirstWithDescription(s, r[i].resolutionDescription))
    && (forall i :: 0 <= i < |r| ==> s[FirstWithDescription(s, r[i].resolutionDescription)] == r[i])
    && (forall i, j :: 0 <= i < j < |r| ==>
          FirstWithDescription(s, r[i].resolutionDescription) < FirstWithDescription(s, r[j].resolutionDescription))
  }

  /**
   * Each kept capability is the first one offered with its description, and
   * the kept ones follow the order in which their descriptions first appear.
   */
  lemma {:induction false} UniqueByDescriptionFirsts(s: seq<CaptureCapability>)
    ensures FirstsInOrder(s, UniqueByDescription(s))
    decreases |s|
  {
    if s != [] {
      var init, last := s[..|s| - 1], s[|s| - 1];
      assert s == init + [last];
      UniqueByDescriptionFirsts(init);
      FirstsInOrderSnoc(init, last, UniqueByDescription(init));
    }
  }

  /** One more offered capability: the kept ones stay firsts, and a new description joins at the end. */
  lemma FirstsInOrderSnoc(init: seq<CaptureCapability>, last: CaptureCapability, u: seq<CaptureCapability>)
    requires FirstsInOrder(init, u)
    ensures FirstsInOrder(init + [last], u)
    ensures last.resolutionDescription !in Descriptions(init) ==> FirstsInOrder(init + [last], u + [last])
  {
    SnocKeepsFirstPositions(init, last, u);
    if last.resolutionDescription !in Descriptions(init) {
      NewDescriptionPosition(init, last, u);
      NewDescriptionOrder(init, last, u);
    }
  }

  /** A capability with a new description is the first of it, at the end. */
  lemma NewDescriptionPosition(init: seq<CaptureCapability>, last: CaptureCapability, u: seq<CaptureCapability>)
    requires forall i :: 0 <= i < |u| ==> 0 <= FirstWithDescription(init, u[i].resolutionDescription)
    requires forall i :: 0 <= i < |u| ==> init[FirstWithDescription(init, u[i].resolutionDescription)] == u[i]
    requires last.resolutionDescription !in Descriptions(init)
    ensures forall i :: 0 <= i < |u + [last]| ==>
      0 <= FirstWithDescription(init + [last], (u + [last])[i].resolutionDescription)
    ensures forall i :: 0 <= i < |u + [last]| ==>
      (init + [last])[FirstWithDescription(init + [last], (u + [last])[i].resolutionDescription)] == (u + [last])[i]
  {
    SnocKeepsFirstPositions(init, last, u);
    FirstWithDescriptionSnoc(init, last, last.resolutionDescription);
    FirstWithDescriptionAbsent(init, last.resolutionDescription);
    var s, r := init + [last], u + [last];
    forall i | 0 <= i < |r|
      ensures 0 <= FirstWithDescription(s, r[i].resolutionDescription)
      ensures s[FirstWithDescription(s, r[i].resolutionDescription)] == r[i]
    {
      if i < |u| {
        assert r[i] == u[i];
      }
    }
  }

  /** A new description comes after every description seen before it. */
  lemma NewDescriptionOrder(init: seq<CaptureCapability>, last: CaptureCapability, u: seq<CaptureCapability>)
    requires forall i :: 0 <= i < |u| ==> 0 <= FirstWithDescription(init, u[i].resolutionDescription)
    requires forall i, j :: 0 <= i < j < |u| ==>
      FirstWithDescription(init, u[i].resolutionDescription) < FirstWithDescription(init, u[j].resolutionDescription)
    requires last.resolutionDescription !in Descriptions(init)
    ensures forall i, j :: 0 <= i < j < |u + [last]| ==>
      FirstWithDescription(init + [last], (u + [last])[i].resolutionDescription) <
      FirstWithDescription(init + [last], (u + [last])[j].resolutionDescription)
  {
    SnocKeepsFirstPositions(init, last, u);
    FirstWithDescriptionSnoc(init, last, last.resolutionDescription);
    FirstWithDescriptionAbsent(init, last.resolutionDescription);
    var s, r := init + [last], u + [last];
    forall i, j | 0 <= i < j < |r|
      ensures FirstWithDescription(s, r[i].resolutionDescription) < FirstWithDescription(s, r[j].resolutionDescription)
    {
      assert r[i] == u[i];
      if j < |u| {
        assert r[j] == u[j];
      }
    }
  }

  lemma SnocKeepsFirstPositions(init: seq<CaptureCapability>, last: CaptureCapability, u: seq<CaptureCapability>)
    requires forall i :: 0 <= i < |u| ==> 0 <= FirstWithDescription(init, u[i].resolutionDescription)
    ensures forall i :: 0 <= i < |u| ==>
      FirstWithDescription(init + [last], u[i].resolutionDescription) == FirstWithDescription(init, u[i].resolutionDescription)
  {
    forall i | 0 <= i < |u|
      ensures FirstWithDescription(init + [last], u[i].resolutionDescription) == FirstWithDescription(init, u[i].resolutionDescription)
    {
      FirstWithDescriptionSnoc(init, last, u[i].resolutionDescription);
    }
  }

  lemma FirstWithDescriptionSnoc(s: seq<CaptureCapability>, x: CaptureCapability, d: string)
    ensures FirstWithDescription(s + [x], d) ==
      if FirstWithDescription(s, d) >= 0 then FirstWithDescription(s, d)
      else if x.resolutionDescription == d then |s| else -1
  {
    assert (s + [x])[..|s|] == s;
  }

  lemma FirstWithDescriptionAbsent(s: seq<CaptureCapability>, d: string)
    requires d !in Descriptions(s)
    ensures FirstWithDescription(s, d) == -1
  {
    assert forall k :: 0 <= k < |s| ==> s[k] in s;
  }

  lemma DescriptionsSnoc(s: seq<CaptureCapability>, x: CaptureCapability)
    ensures Descriptions(s + [x]) == Descriptions(s) + {x.resolutionDescription}
  {
    var l, r := Descriptions(s + [x]), Descriptions(s) + {x.resolutionDescription};
    forall d | d in l ensures d in r {
      var c :| c in s + [x] && c.resolutionDescription == d;
      if c != x { assert c in s; }
    }
    forall d | d in r ensures d in l {
      if d != x.resolutionDescription {
        var c :| c in s && c.resolutionDescription == d;
        assert c in s + [x];
      } else {
        assert x in s + [x];
      }
    }
  }

  predicate IsPreferredResolution(c: CaptureCapability)
  {
    c.width == 896 && c.height == 504
  }

  /** Position of the last 896x504 capability, -1 for none. */
  function LastPreferred(s: seq<CaptureCapability>): (r: int)
    ensures -1 <= r < |s|
    ensures r == -1 <==> forall k :: 0 <= k < |s| ==> !IsPreferredResolution(s[k])
    ensures r >= 0 ==> IsPreferredResolution(s[r]) && forall k :: r < k < |s| ==> !IsPreferredResolution(s[k])
    decreases |s|
  {
    if s == [] then -1
    else if IsPreferredResolution(s[|s| - 1]) then |s| - 1
    else LastPreferred(s[..|s| - 1])
  }

  /** The capture profile chosen: the 896x504 one if offered, else the first offered. */
  function DefaultResolution(resolutions: seq<CaptureCapability>): (r: Option<CaptureCapability>)
    ensures r.None? <==> resolutions == []
    ensures r.Some? ==> r.value in resolutions
    ensures var u := UniqueByDescription(resolutions);
      (exists k :: 0 <= k < |u| && IsPreferredResolution(u[k])) ==>
        exists k :: 0 <= k < |u| && r == Some(u[k]) && IsPreferredResolution(u[k]) &&
          forall j :: k < j < |u| ==> !IsPreferredResolution(u[j])
    ensures var u := UniqueByDescription(resolutions);
      resolutions != [] && (forall k :: 0 <= k < |u| ==> !IsPreferredResolution(u[k])) ==>
        r == Some(resolutions[0])
  {
    var u := UniqueByDescription(resolutions);
    if u == [] then None
    else if LastPreferred(u) >= 0 then Some(u[LastPreferred(u)])
    else Some(u[0])
  }

  /** The loop over the unique capabilities that picks the default profile. */
  method SelectDefaultResolution(resolutions: seq<CaptureCapability>) returns (profile: Option<CaptureCapability>)
    ensures profile == DefaultResolution(resolutions)
  {
    var uniqueRes := UniqueByDescription(resolutions);
    profile := None;
    for i := 0 to |uniqueRes|
      invariant profile == if i == 0 then None
                           else if LastPreferred(uniqueRes[..i]) >= 0 then Some(uniqueRes[LastPreferred(uniqueRes[..i])])
                           else Some(uniqueRes[0])
    {
      var resolution := uniqueRes[i];
      assert uniqueRes[..i + 1][..i] == uniqueRes[..i];
      if profile == None {
        profile := Some(resolution);
      }
      if resolution.width == 896 && resolution.height == 504 {
        profile := Some(resolution);
      }
    }
    assert uniqueRes[..|uniqueRes|] == uniqueRes;
  }

  // ---------------------------------------------------------------------------
  // Settings

  /** How the stored ICE server XML deserialised. */
  datatype IceListDecode = Decoded(servers: seq<IceServer>) | Malformed

  /** What the local settings store holds; None for an absent key. */
  datatype StoredSettings = StoredSettings(
    peerCcServerIp: Option<string>,
    peerCcServerPort: Option<int>,
    traceServerIp: Option<string>,
    traceServerPort: Option<string>,
    iceServerList: Option<IceListDecode>,
    ntpServer: Option<string>)

  /** The configuration `LoadSettings` arrives at. */
  datatype Config = Config(
    traceServerIp: string,
    traceServerPort: string,
    peerCcServerIp: string,
    peerCcPort: int,
    ntpServer: string,
    iceServers: seq<IceServer>)

  /** The built-in ICE servers: Google's five public STUN servers. */
  const DefaultIceServers: seq<IceServer> := [
    IceServer("stun.l.google.com:19302", Stun),
    IceServer("stun1.l.google.com:19302", Stun),
    IceServer("stun2.l.google.com:19302", Stun),
    IceServer("stun3.l.google.com:19302", Stun),
    IceServer("stun4.l.google.com:19302", Stun)
  ]

  /**
   * `LoadSettings`: each stored value overrides its default; an absent or
   * malformed ICE list falls back to the built-in one, never to an empty list;
   * an empty stored NTP server is ignored.
   */
  method LoadSettings(stored: StoredSettings) returns (config: Config)
    ensures config.traceServerIp == (if stored.traceServerIp.Some? then stored.traceServerIp.value else "192.168.11.132")
    ensures config.traceServerPort == (if stored.traceServerPort.Some? then stored.traceServerPort.value else "55000")
    ensures config.peerCcServerIp == (if stored.peerCcServerIp.Some? then stored.peerCcServerIp.value else "192.168.11.132")
    ensures config.peerCcPort == (if stored.peerCcServerPort.Some? then stored.peerCcServerPort.value else 8888)
    ensures config.ntpServer ==
      (if stored.ntpServer.Some? && stored.ntpServer.value != "" then stored.ntpServer.value else "time.windows.com")
    ensures stored.iceServerList.Some? && stored.iceServerList.value.Decoded? ==>
      config.iceServers == stored.iceServerList.value.servers
    ensures !(stored.iceServerList.Some? && stored.iceServerList.value.Decoded?) ==>
      && |config.iceServers| == 5
      && (forall k :: 0 <= k < 5 ==> config.iceServers[k].kind == Stun)
      && config.iceServers == DefaultIceServers
  {
    var configTraceServerIp := "192.168.11.132";
    var configTraceServerPort := "55000";
    var peerCcServerIp := "192.168.11.132";
    var ntpServerAddress := "time.windows.com";
    var peerCcPortInt := 8888;

    if stored.peerCcServerIp.Some? {
      peerCcServerIp := stored.peerCcServerIp.value;
    }
    if stored.peerCcServerPort.Some? {
      peerCcPortInt := stored.peerCcServerPort.value;
    }
    var configIceServers: seq<IceServer> := [];
    if stored.traceServerIp.Some? {
      configTraceServerIp := stored.traceServerIp.value;
    }
    if stored.traceServerPort.Some? {
      configTraceServerPort := stored.traceServerPort.value;
    }
    var useDefaultIceServers := true;
    if stored.iceServerList.Some? {
      match stored.iceServerList.value {
        case Decoded(servers) =>
          configIceServers := servers;
          useDefaultIceServers := false;
        case Malformed =>
      }
    }
    if useDefaultIceServers {
      configIceServers := [];
      configIceServers := configIceServers + [IceServer("stun.l.google.com:19302", Stun)];
      configIceServers := configIceServers + [IceServer("stun1.l.google.com:19302", Stun)];
      configIceServers := configIceServers + [IceServer("stun2.l.google.com:19302", Stun)];
      configIceServers := configIceServers + [IceServer("stun3.l.google.com:19302", Stun)];
      configIceServers := configIceServers + [IceServer("stun4.l.google.com:19302", Stun)];
    }
    if stored.ntpServer.Some? && stored.ntpServer.value != "" {
      ntpServerAddress := stored.ntpServer.value;
    }
    config := Config(configTraceServerIp, configTraceServerPort, peerCcServerIp, peerCcPortInt,
                     ntpServerAddress, configIceServers);
  }
}
