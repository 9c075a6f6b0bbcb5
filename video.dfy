/** The per-video metadata and result cache of `video.py`: the status
    lattice, the cache-file key, the lazily memoised attributes kept in the
    `meta` dict, the string normalisers behind them, and the load-merge-save
    protocol of the `_data` result record.

    The decode backend (cv2), the probes (pydub and ffprobe subprocesses)
    and the JSON decoding of their output are oracle values collected in a
    `Source`; the pickle files are a map from path to stored record held by
    a `PickleStore` object. */
module VideoCache {
  import opened Common
  import opened Text

  // ---------------------------------------------------------------------
  // Status lattice

  const Initiated := 0
  const MetaCollected := 1
  const Processed := 2
  const Postprocessed := 3
  const Errored := 10
  const Defective := 11

  /** `max(METACOLLECTED, status)`: the status `save_meta` leaves behind. */
  function RaisedStatus(status: int): (s: int)
    ensures s >= MetaCollected && s >= status
    ensures s == status || s == MetaCollected
  {
    if status < MetaCollected then MetaCollected else status
  }

  /** Saving metadata moves a fresh video to METACOLLECTED and never lowers
      a later or terminal status; saving again changes nothing more. */
  lemma StatusLattice(status: int)
    ensures RaisedStatus(Initiated) == MetaCollected
    ensures RaisedStatus(Processed) == Processed
    ensures RaisedStatus(Postprocessed) == Postprocessed
    ensures RaisedStatus(Errored) == Errored
    ensures RaisedStatus(Defective) == Defective
    ensures RaisedStatus(RaisedStatus(status)) == RaisedStatus(status)
    ensures status >= MetaCollected ==> RaisedStatus(status) == status
  {
  }

  // ---------------------------------------------------------------------
  // Cache key

  /** The cache-file stem of a video: `path` with every occurrence of the
      root removed (the root defaults to `dirname(path)` when `root_dir` is
      None or empty), its first character dropped, and '/' replaced by '.'. */
  function CacheKey(path: string, rootDir: string): (key: string)
    ensures '/' !in key
  {
    var root := if rootDir == "" then Dirname(path) else rootDir;
    var rel := RemoveAll(path, root);
    ReplaceChar(if rel == [] then [] else rel[1..], '/', '.')
  }

  function MetaPath(cacheDir: string, path: string, rootDir: string): string {
    JoinPath(cacheDir, CacheKey(path, rootDir) + ".meta")
  }

  function DataPath(cacheDir: string, path: string, rootDir: string): string {
    JoinPath(cacheDir, CacheKey(path, rootDir) + ".data")
  }

  lemma {:induction false} ReplaceAbsent(s: string, a: char, b: char)
    requires a !in s
    ensures ReplaceChar(s, a, b) == s
  {
    var r := ReplaceChar(s, a, b);
    assert forall k :: 0 <= k < |s| ==> r[k] == s[k];
  }

  /** A video below its root gets the path relative to the root, with '/'
      turned into '.', provided the root does not occur again further on. */
  lemma {:induction false} CacheKeyBelowRoot(root: string, rel: string)
    requires root != []
    requires !Contains("/" + rel, root)
    ensures CacheKey(root + "/" + rel, root) == ReplaceChar(rel, '/', '.')
  {
    var path := root + "/" + rel;
    assert path[..|root|] == root;
    assert path[|root|..] == "/" + rel;
    RemoveAllAbsent("/" + rel, root);
    assert RemoveAll(path, root) == "/" + rel;
    assert ("/" + rel)[1..] == rel;
  }

  lemma {:induction false} MissingCharNotContained(s: string, sub: string, k: nat)
    requires k < |sub| && sub[k] !in s
    ensures !Contains(s, sub)
    decreases |s|
  {
    if |s| >= |sub| {
      assert s[k] in s;
      MissingCharNotContained(s[1..], sub, k);
    }
  }

  /** A bare file name has an empty dirname, so nothing is removed and the
      key loses the first letter of the name. */
  lemma {:induction false} CacheKeyOfBareName(name: string)
    requires name != [] && '/' !in name
    ensures CacheKey(name, "") == name[1..]
  {
    assert RFind(name, '/') == -1;
    assert Dirname(name) == [];
    ReplaceAbsent(name[1..], '/', '.');
  }

  /** Distinct videos can share a cache file: two bare names that differ in
      their first letter only (`a.mp4` and `b.mp4` both give `.mp4`). */
  lemma {:induction false} BareNamesCollide(n1: string, n2: string)
    requires n1 != [] && n2 != [] && '/' !in n1 && '/' !in n2
    requires n1[1..] == n2[1..]
    ensures CacheKey(n1, "") == CacheKey(n2, "")
  {
    CacheKeyOfBareName(n1);
    CacheKeyOfBareName(n2);
  }

  /** Distinct videos can share a cache file: `dir/name` below the root and
      a sibling `dir.name` give the same key. */
  lemma {:induction false} NestedAndDottedCollide(root: string, dir: string, name: string)
    requires root != [] && '/' !in dir && '/' !in name
    requires !Contains("/" + (dir + "/" + name), root) && !Contains("/" + (dir + "." + name), root)
    ensures CacheKey(root + "/" + (dir + "/" + name), root) == CacheKey(root + "/" + (dir + "." + name), root)
  {
    CacheKeyBelowRoot(root, dir + "/" + name);
    CacheKeyBelowRoot(root, dir + "." + name);
    ReplaceAbsent(dir + "." + name, '/', '.');
    var r := ReplaceChar(dir + "/" + name, '/', '.');
    assert r == dir + "." + name by {
      assert forall k :: 0 <= k < |r| ==> r[k] == (dir + "." + name)[k] by {
        forall k | 0 <= k < |r|
          ensures r[k] == (dir + "." + name)[k]
        {
          if k < |dir| {
            assert (dir + "/" + name)[k] == dir[k];
          } else if k > |dir| {
            assert (dir + "/" + name)[k] == name[k - |dir| - 1];
          }
        }
      }
    }
  }

  // ---------------------------------------------------------------------
  // Oracle inputs and the metadata record

  /** The 'TAG' entry of the dict pydub's `mediainfo` returns; None when the
      dict has no such entry. */
  datatype MediaInfo = MediaInfo(tag: Option<map<string, string>>)

  /** One entry of ffprobe's `packets` list; `ptsTime` is None when the entry
      has no `pts_time` or `float()` rejects it. */
  datatype Packet = Packet(streamIndex: int, ptsTime: Option<real>)

  /** Everything the decode backend and the probes report about one file. */
  datatype Source = Source(
    capFps: real,                    // CAP_PROP_FPS
    capFrameCount: real,             // CAP_PROP_FRAME_COUNT
    capWidth: real,                  // CAP_PROP_FRAME_WIDTH
    capHeight: real,                 // CAP_PROP_FRAME_HEIGHT
    mediaInfo: MediaInfo,            // mediainfo(path)
    avgFrameRate: Option<string>,    // streams[0].avg_frame_rate; None when decoding or lookup raises
    packets: Option<seq<Packet>>,    // the packets list; None when decoding or lookup raises
    rotateOut: string,               // the rotate probe's output, decoded
    rotateJson: Option<int>)         // int(json.loads(out)); None when that raises

  /** The `meta` dict: one slot per attribute, None when absent or None. */
  datatype Meta = Meta(
    fps: Option<real>,
    frameNum: Option<int>,
    duration: Option<real>,
    width: Option<real>,
    height: Option<real>,
    isGopro: Option<bool>,
    isVariableFps: Option<bool>,
    rotation: Option<int>,
    mediaInfo: Option<MediaInfo>,
    datetime: Option<string>,
    framesTimecodes: Option<seq<real>>)

  const EmptyMeta := Meta(None, None, None, None, None, None, None, None, None, None, None)

  /** `int(x)` on a float: truncation toward zero. */
  function Trunc(x: real): (n: int)
    ensures x >= 0.0 ==> n as real <= x < n as real + 1.0
    ensures x < 0.0 ==> n as real - 1.0 < x <= n as real
  {
    if x >= 0.0 then x.Floor else -((-x).Floor)
  }

  // ---------------------------------------------------------------------
  // Normalisers

  /** `frame_num / fps if fps > 0 else 0`. */
  function DurationOf(frameNum: int, fps: real): (d: real)
    ensures fps > 0.0 ==> d * fps == frameNum as real
    ensures fps <= 0.0 ==> d == 0.0
    ensures frameNum >= 0 ==> d >= 0.0
  {
    if fps > 0.0 then frameNum as real / fps else 0.0
  }

  /** The rotation probe: empty output means 0; otherwise the decoded
      integer, with anything but 90, 180 or 270 normalised to 0. A decoding
      failure escapes. */
  function RotationOf(out: string, decoded: Option<int>): (r: Result<int>)
    ensures r.Ok? ==> r.value in {0, 90, 180, 270}
    ensures out == "" ==> r == Ok(0)
    ensures out != "" ==> (r.Ok? <==> decoded.Some?)
    ensures out != "" && decoded.Some? && decoded.value in {90, 180, 270} ==> r == Ok(decoded.value)
    ensures out != "" && decoded.Some? && decoded.value !in {90, 180, 270} ==> r == Ok(0)
  {
    if out == "" then Ok(0)
    else match decoded
      case None => Err(Undecodable)
      case Some(d) => Ok(if d == 90 || d == 180 || d == 270 then d else 0)
  }

  /** The variable-frame-rate test on `avg_frame_rate`: the integer after
      the last '/' is neither 1 nor 1001; `int()` failing escapes. */
  function VariableFpsOf(rate: string): (r: Result<bool>)
  {
    match ParseInt(Last(Split(rate, '/')))
      case Err(e) => Err(e)
      case Ok(den) => Ok(den != 1 && den != 1001)
  }

  /** A rate written `num/den` is variable exactly when `den` is not 1 or 1001. */
  lemma {:induction false} VariableFpsOfFraction(num: string, den: nat)
    ensures VariableFpsOf(num + "/" + ShowNat(den)) == Ok(den != 1 && den != 1001)
  {
    var d := ShowNat(den);
    assert '/' !in d by {
      assert AllDigits(d);
    }
    LastPieceAfterSeparator(num, d, '/');
    ParseShowNat(den);
  }

  /** A rate with no '/' is its own denominator: it is variable unless it is
      1 or 1001. */
  lemma VariableFpsOfBareRate(n: nat)
    ensures VariableFpsOf(ShowNat(n)) == Ok(n != 1 && n != 1001)
  {
    var d := ShowNat(n);
    assert '/' !in d by {
      assert AllDigits(d);
    }
    SplitFree(d, '/');
    ParseShowNat(n);
  }

  /** The common NTSC and integer rates are constant; a rate with no '/' is
      its own last piece, so `25` counts as variable; a rate with a trailing
      '/' raises. */
  lemma VariableFpsExamples()
    ensures VariableFpsOf("30000/1001") == Ok(false)
    ensures VariableFpsOf("25/1") == Ok(false)
    ensures VariableFpsOf("90000/3001") == Ok(true)
    ensures VariableFpsOf("25") == Ok(true)
    ensures VariableFpsOf("25/") == Err(NotAnInteger)
  {
    VariableFpsOfBareRate(25);
    assert ShowNat(25) == "25";
    VariableFpsOfFraction("30000", 1001);
    assert ShowNat(1001) == "1001";
    assert "30000" + "/" + "1001" == "30000/1001";
    VariableFpsOfFraction("25", 1);
    assert "25" + "/" + ShowNat(1) == "25/1";
    VariableFpsOfFraction("90000", 3001);
    assert ShowNat(3001) == "3001";
    assert "90000" + "/" + "3001" == "90000/3001";
    LastPieceAfterSeparator("25", "", '/');
    assert "25" + "/" + "" == "25/";
  }

  /** `'gopro' in tag['encoder'].lower()`, or None when the lookup fails:
      unknown is kept apart from false. */
  function GoproOf(info: MediaInfo): (g: Option<bool>)
    ensures g.None? <==> info.tag.None? || "encoder" !in info.tag.value
    ensures g.Some? ==> (g.value <==> Contains(Lower(info.tag.value["encoder"]), "gopro"))
  {
    match info.tag
      case None => None
      case Some(tag) =>
        if "encoder" in tag then Some(Contains(Lower(tag["encoder"]), "gopro")) else None
  }

  const DatetimeLength := 19
  const DefaultDatetime := "1970:01:01 00:00:00"

  /** `s.replace('-', ':').replace('T', ' ')`. */
  function Normalised(s: string): (r: string)
    ensures |r| == |s| && '-' !in r && 'T' !in r
  {
    ReplaceChar(ReplaceChar(s, '-', ':'), 'T', ' ')
  }

  /** The probe inside `datetime`: the first 19 characters of the
      creation time, normalised, with the separate `date` tag prefixed when
      the time alone is not 19 characters long; anything but 19 characters
      is a `ValueError`. */
  function ProbeDatetime(info: MediaInfo): (r: Result<string>)
    ensures r.Ok? ==> |r.value| == DatetimeLength
  {
    if info.tag.None? || "creation_time" !in info.tag.value then Err(KeyMissing)
    else
      var tag := info.tag.value;
      var dt := Normalised(Take(tag["creation_time"], DatetimeLength));
      var dt' := if "date" in tag && |dt| != DatetimeLength
        then ReplaceChar(tag["date"], '-', ':') + " " + dt
        else dt;
      if |dt'| != DatetimeLength then Err(BadValue) else Ok(dt')
  }

  /** `datetime`: the probed value, or the epoch default when the probe fails. */
  function DatetimeOf(info: MediaInfo): (dt: string)
    ensures |dt| == DatetimeLength
    ensures '-' !in dt
  {
    match ProbeDatetime(info)
      case Ok(d) => d
      case Err(_) => DefaultDatetime
  }

  /** A creation time of at least 19 characters is cut to 19 and normalised;
      a missing tag gives the default. */
  lemma DatetimeMeaning(info: MediaInfo)
    ensures info.tag.None? || "creation_time" !in info.tag.value ==> DatetimeOf(info) == DefaultDatetime
    ensures info.tag.Some? && "creation_time" in info.tag.value && |info.tag.value["creation_time"]| >= DatetimeLength
      ==> DatetimeOf(info) == Normalised(info.tag.value["creation_time"][..DatetimeLength])
  {
  }

  /** A short time with a `date` tag that makes up 19 characters gets the
      date, with '-' turned into ':', in front of it. */
  lemma {:induction false} DatetimeWithDate(date: string, time: string)
    requires |time| < DatetimeLength
    requires |date| + 1 + |time| == DatetimeLength
    ensures DatetimeOf(MediaInfo(Some(map["creation_time" := time, "date" := date])))
      == ReplaceChar(date, '-', ':') + " " + Normalised(time)
  {
    var tag := map["creation_time" := time, "date" := date];
    assert Take(tag["creation_time"], DatetimeLength) == time;
  }

  /** An ISO creation time becomes the `YYYY:MM:DD HH:MM:SS` form. */
  lemma DatetimeExample()
    ensures DatetimeOf(MediaInfo(Some(map["creation_time" := "2019-05-04T10:11:12.000000Z"])))
      == "2019:05:04 10:11:12"
  {
    var ct := "2019-05-04T10:11:12.000000Z";
    DatetimeMeaning(MediaInfo(Some(map["creation_time" := ct])));
    assert ct[..DatetimeLength] == "2019-05-04T10:11:12";
    var once := ReplaceChar("2019-05-04T10:11:12", '-', ':');
    assert once == "2019:05:04T10:11:12";
    assert ReplaceChar(once, 'T', ' ') == "2019:05:04 10:11:12";
  }

  /** The `pts_time` of the packets of stream 0, in order; a stream-0 packet
      without a usable time raises. */
  function FramesTimecodesOf(packets: seq<Packet>): (r: Result<seq<real>>)
    ensures r.Ok? ==> |r.value| == Stream0Count(packets)
    decreases |packets|
  {
    if packets == [] then Ok([])
    else
      var rest := FramesTimecodesOf(packets[1..]);
      if packets[0].streamIndex != 0 then rest
      else if packets[0].ptsTime.None? then Err(Undecodable)
      else match rest
        case Err(e) => Err(e)
        case Ok(ts) => Ok([packets[0].ptsTime.value] + ts)
  }

  function Stream0Count(packets: seq<Packet>): nat
    decreases |packets|
  {
    if packets == [] then 0
    else (if packets[0].streamIndex == 0 then 1 else 0) + Stream0Count(packets[1..])
  }

  /** The filter works piecewise: the timecodes of two packet lists one after
      the other are those of the first followed by those of the second. */
  lemma {:induction false} FramesTimecodesAppend(a: seq<Packet>, b: seq<Packet>)
    ensures FramesTimecodesOf(a + b) ==
      match (FramesTimecodesOf(a), FramesTimecodesOf(b))
        case (Ok(x), Ok(y)) => Ok(x + y)
        case (Err(e), _) => Err(e)
        case (_, Err(e)) => Err(e)
    decreases |a|
  {
    if a != [] {
      assert (a + b)[1..] == a[1..] + b;
      assert (a + b)[0] == a[0];
      FramesTimecodesAppend(a[1..], b);
      match (FramesTimecodesOf(a[1..]), FramesTimecodesOf(b))
        case (Ok(x), Ok(y)) =>
          if a[0].streamIndex == 0 && a[0].ptsTime.Some? {
            assert [a[0].ptsTime.value] + (x + y) == ([a[0].ptsTime.value] + x) + y;
          }
        case (Err(e), _) =>
        case (_, Err(e)) =>
    } else {
      assert a + b == b;
      match FramesTimecodesOf(b)
        case Ok(y) => assert [] + y == y;
        case Err(_) =>
    }
  }

  /** Packets of other streams are dropped, and a single stream-0 packet
      contributes its time. */
  lemma FramesTimecodesSingle(p: Packet)
    ensures p.streamIndex != 0 ==> FramesTimecodesOf([p]) == Ok([])
    ensures p.streamIndex == 0 && p.ptsTime.Some? ==> FramesTimecodesOf([p]) == Ok([p.ptsTime.value])
    ensures p.streamIndex == 0 && p.ptsTime.None? ==> FramesTimecodesOf([p]).Err?
  {
    assert [p][1..] == [];
    if p.ptsTime.Some? {
      assert [p.ptsTime.value] + [] == [p.ptsTime.value];
    }
  }

  // ---------------------------------------------------------------------
  // Lazy attributes, one step function per property
  //
  // Each takes the `meta` record before the access and gives the record
  // after it with the property's value. A property reads its source only
  // when its slot is None and stores what it read.

  function MediaInfoStep(m: Meta, src: Source): (Meta, MediaInfo) {
    if m.mediaInfo.Some? then (m, m.mediaInfo.value)
    else (m.(mediaInfo := Some(src.mediaInfo)), src.mediaInfo)
  }

  function FpsStep(m: Meta, hasCap: bool, src: Source): (Meta, Result<real>) {
    if m.fps.Some? then (m, Ok(m.fps.value))
    else if !hasCap then (m, Err(NoCapture))
    else (m.(fps := Some(src.capFps)), Ok(src.capFps))
  }

  function FrameNumStep(m: Meta, hasCap: bool, src: Source): (Meta, Result<int>) {
    if m.frameNum.Some? then (m, Ok(m.frameNum.value))
    else if !hasCap then (m, Err(NoCapture))
    else (m.(frameNum := Some(Trunc(src.capFrameCount))), Ok(Trunc(src.capFrameCount)))
  }

  function WidthStep(m: Meta, hasCap: bool, src: Source): (Meta, Result<real>) {
    if m.width.Some? then (m, Ok(m.width.value))
    else if !hasCap then (m, Err(NoCapture))
    else (m.(width := Some(src.capWidth)), Ok(src.capWidth))
  }

  function HeightStep(m: Meta, hasCap: bool, src: Source): (Meta, Result<real>) {
    if m.height.Some? then (m, Ok(m.height.value))
    else if !hasCap then (m, Err(NoCapture))
    else (m.(height := Some(src.capHeight)), Ok(src.capHeight))
  }

  /** `duration` is not memoised itself: it reads `fps`, then `frame_num`
      only when `fps > 0`. */
  function DurationStep(m: Meta, hasCap: bool, src: Source): (Meta, Result<real>) {
    var (m1, fps) := FpsStep(m, hasCap, src);
    if fps.Err? then (m1, Err(fps.error))
    else if fps.value > 0.0 then
      var (m2, n) := FrameNumStep(m1, hasCap, src);
      if n.Err? then (m2, Err(n.error)) else (m2, Ok(DurationOf(n.value, fps.value)))
    else (m1, Ok(0.0))
  }

  function IsGoproStep(m: Meta, src: Source): (Meta, Option<bool>) {
    if m.isGopro.Some? then (m, m.isGopro)
    else
      var (m1, info) := MediaInfoStep(m, src);
      var g := GoproOf(info);
      (m1.(isGopro := g), g)
  }

  function IsVariableFpsStep(m: Meta, src: Source): (Meta, Result<bool>) {
    if m.isVariableFps.Some? then (m, Ok(m.isVariableFps.value))
    else match src.avgFrameRate
      case None => (m, Err(Undecodable))
      case Some(rate) =>
        match VariableFpsOf(rate)
          case Err(e) => (m, Err(e))
          case Ok(v) => (m.(isVariableFps := Some(v)), Ok(v))
  }

  function FramesTimecodesStep(m: Meta, src: Source): (Meta, Result<seq<real>>) {
    if m.framesTimecodes.Some? then (m, Ok(m.framesTimecodes.value))
    else match src.packets
      case None => (m, Err(Undecodable))
      case Some(ps) =>
        match FramesTimecodesOf(ps)
          case Err(e) => (m, Err(e))
          case Ok(ts) => (m.(framesTimecodes := Some(ts)), Ok(ts))
  }

  function RotationStep(m: Meta, src: Source): (Meta, Result<int>) {
    if m.rotation.Some? then (m, Ok(m.rotation.value))
    else match RotationOf(src.rotateOut, src.rotateJson)
      case Err(e) => (m, Err(e))
      case Ok(r) => (m.(rotation := Some(r)), Ok(r))
  }

  function DatetimeStep(m: Meta, src: Source): (Meta, string) {
    if m.datetime.Some? then (m, m.datetime.value)
    else
      var (m1, info) := MediaInfoStep(m, src);
      var dt := DatetimeOf(info);
      (m1.(datetime := Some(dt)), dt)
  }

  /** Memoisation of the capture properties: once a property has produced a
      value, the next access gives the same value, leaves `meta` alone and
      consults no source (any other capture state and readings give the
      same answer). */
  lemma MemoisedCapture(m: Meta, hasCap: bool, src: Source, hasCap': bool, src': Source)
    ensures var (m1, r) := FpsStep(m, hasCap, src); r.Ok? ==> FpsStep(m1, hasCap', src') == (m1, r)
    ensures var (m1, r) := FrameNumStep(m, hasCap, src); r.Ok? ==> FrameNumStep(m1, hasCap', src') == (m1, r)
    ensures var (m1, r) := WidthStep(m, hasCap, src); r.Ok? ==> WidthStep(m1, hasCap', src') == (m1, r)
    ensures var (m1, r) := HeightStep(m, hasCap, src); r.Ok? ==> HeightStep(m1, hasCap', src') == (m1, r)
  {
  }

  /** Memoisation of the probed properties, in the same sense; `is_gopro`
      is memoised only once it is known. */
  lemma MemoisedProbes(m: Meta, src: Source, src': Source)
    ensures var (m1, r) := MediaInfoStep(m, src); MediaInfoStep(m1, src') == (m1, r)
    ensures var (m1, r) := IsGoproStep(m, src); r.Some? ==> IsGoproStep(m1, src') == (m1, r)
    ensures var (m1, r) := IsVariableFpsStep(m, src); r.Ok? ==> IsVariableFpsStep(m1, src') == (m1, r)
    ensures var (m1, r) := FramesTimecodesStep(m, src); r.Ok? ==> FramesTimecodesStep(m1, src') == (m1, r)
    ensures var (m1, r) := RotationStep(m, src); r.Ok? ==> RotationStep(m1, src') == (m1, r)
    ensures var (m1, r) := DatetimeStep(m, src); DatetimeStep(m1, src') == (m1, r)
  {
  }

  /** An unknown gopro flag is stored as None, so the next access probes the
      encoder tag again (through the now memoised mediainfo). */
  lemma GoproUnknownIsRecomputed(m: Meta, src: Source, src': Source)
    requires m.isGopro.None?
    requires IsGoproStep(m, src).1.None?
    ensures var m1 := IsGoproStep(m, src).0;
      m1.isGopro.None? && IsGoproStep(m1, src').1 == GoproOf(m1.mediaInfo.value)
  {
  }

  /** A fresh capture: DEFECTIVE is decided by `fps < min_fps`, and only
      when that is false by `duration < min_duration`; the second test is
      skipped when the first holds, so `frame_num` is then not read. */
  function OpenCheck(src: Source, minFps: real, minDuration: real): (Meta, bool) {
    var (m1, fps) := FpsStep(EmptyMeta, true, src);
    if fps.Ok? && fps.value < minFps then (m1, true)
    else
      var (m2, d) := DurationStep(m1, true, src);
      (m2, d.Ok? && d.value < minDuration)
  }

  /** A fresh instance is DEFECTIVE exactly when its fps or its duration is
      below the minimum. */
  lemma {:induction false} DefectiveIff(src: Source, minFps: real, minDuration: real)
    ensures OpenCheck(src, minFps, minDuration).1 <==>
      src.capFps < minFps || DurationOf(Trunc(src.capFrameCount), src.capFps) < minDuration
    ensures OpenCheck(src, minFps, minDuration).0.fps == Some(src.capFps)
  {
    var m1 := EmptyMeta.(fps := Some(src.capFps));
    assert FpsStep(EmptyMeta, true, src) == (m1, Ok(src.capFps));
    if src.capFps > 0.0 {
      assert FrameNumStep(m1, true, src).1 == Ok(Trunc(src.capFrameCount));
    }
  }

  // ---------------------------------------------------------------------
  // save_meta as a function of the record

  /** The capture attributes of `save_meta`'s update dict, in its order. */
  datatype CaptureAttrs = CaptureAttrs(fps: real, frameNum: int, duration: real, width: real, height: real)

  /** The probed attributes of `save_meta`'s update dict, in its order. */
  datatype ProbeAttrs = ProbeAttrs(isGopro: Option<bool>, isVariableFps: bool, rotation: int,
                                   mediaInfo: MediaInfo, datetime: string)

  /** Reads `fps`, `frame_num`, `duration`, `width` and `height`; the first
      failing read aborts with the slots filled so far. */
  function CaptureStep(m: Meta, hasCap: bool, src: Source): (Meta, Result<CaptureAttrs>) {
    var (m1, fps) := FpsStep(m, hasCap, src);
    if fps.Err? then (m1, Err(fps.error)) else
    var (m2, n) := FrameNumStep(m1, hasCap, src);
    if n.Err? then (m2, Err(n.error)) else
    var (m3, dur) := DurationStep(m2, hasCap, src);
    if dur.Err? then (m3, Err(dur.error)) else
    var (m4, w) := WidthStep(m3, hasCap, src);
    if w.Err? then (m4, Err(w.error)) else
    var (m5, h) := HeightStep(m4, hasCap, src);
    if h.Err? then (m5, Err(h.error))
    else (m5, Ok(CaptureAttrs(fps.value, n.value, dur.value, w.value, h.value)))
  }

  /** Reads `is_gopro`, `is_variable_fps`, `rotation`, `mediainfo` and
      `datetime`; only the variable-fps and rotation probes can fail. */
  function ProbesStep(m: Meta, src: Source): (Meta, Result<ProbeAttrs>) {
    var (m1, g) := IsGoproStep(m, src);
    var (m2, v) := IsVariableFpsStep(m1, src);
    if v.Err? then (m2, Err(v.error)) else
    var (m3, rot) := RotationStep(m2, src);
    if rot.Err? then (m3, Err(rot.error)) else
    var (m4, info) := MediaInfoStep(m3, src);
    var (m5, dt) := DatetimeStep(m4, src);
    (m5, Ok(ProbeAttrs(g, v.value, rot.value, info, dt)))
  }

  /** What `save_meta` does to `meta` before it writes the file: it reads
      every attribute in the order of the update dict (each read memoises),
      stores them all with the computed duration, and adds the frame
      timecodes when the video has a variable frame rate. The first failing
      read aborts with the slots filled so far. */
  function CollectMeta(m: Meta, hasCap: bool, src: Source): (Meta, Outcome) {
    var (m1, c) := CaptureStep(m, hasCap, src);
    if c.Err? then (m1, Failed(c.error)) else
    var (m2, p) := ProbesStep(m1, src);
    if p.Err? then (m2, Failed(p.error)) else
    var m3 := m2.(fps := Some(c.value.fps), frameNum := Some(c.value.frameNum),
      duration := Some(c.value.duration), width := Some(c.value.width), height := Some(c.value.height),
      isGopro := p.value.isGopro, isVariableFps := Some(p.value.isVariableFps),
      rotation := Some(p.value.rotation), mediaInfo := Some(p.value.mediaInfo),
      datetime := Some(p.value.datetime));
    if !p.value.isVariableFps then (m3, Done)
    else
      var (m4, tc) := FramesTimecodesStep(m3, src);
      if tc.Err? then (m4, Failed(tc.error))
      else (m4.(framesTimecodes := Some(tc.value)), Done)
  }

  /** The capture reads give the memoised values, keep values already in the
      record, compute the duration from the frame count and fps, and touch
      no probe slot. */
  lemma {:induction false} CaptureStepFacts(m: Meta, hasCap: bool, src: Source)
    requires CaptureStep(m, hasCap, src).1.Ok?
    ensures var (m', c) := CaptureStep(m, hasCap, src);
      && c.value.duration == DurationOf(c.value.frameNum, c.value.fps)
      && (m.fps.Some? ==> c.value.fps == m.fps.value)
      && (m.frameNum.Some? ==> c.value.frameNum == m.frameNum.value)
      && (m.width.Some? ==> c.value.width == m.width.value)
      && (m.height.Some? ==> c.value.height == m.height.value)
      && m'.rotation == m.rotation && m'.datetime == m.datetime && m'.isVariableFps == m.isVariableFps
      && m'.framesTimecodes == m.framesTimecodes
  {
    var (m1, fps) := FpsStep(m, hasCap, src);
    var (m2, n) := FrameNumStep(m1, hasCap, src);
    assert m2.fps == Some(fps.value) && m2.frameNum == Some(n.value);
  }

  /** The probe reads keep values already in the record and touch no
      capture slot. */
  lemma {:induction false} ProbesStepFacts(m: Meta, src: Source)
    requires ProbesStep(m, src).1.Ok?
    ensures var (m', p) := ProbesStep(m, src);
      && (m.rotation.Some? ==> p.value.rotation == m.rotation.value)
      && (m.datetime.Some? ==> p.value.datetime == m.datetime.value)
      && (m.isVariableFps.Some? ==> p.value.isVariableFps == m.isVariableFps.value)
      && (m.mediaInfo.Some? ==> p.value.mediaInfo == m.mediaInfo.value)
      && m'.framesTimecodes == m.framesTimecodes
  {
  }

  /** After a successful collection every slot is filled, except the gopro
      flag when unknown and the timecodes when the frame rate is constant;
      the duration agrees with the stored frame count and fps; values that
      were already in the record are kept. */
  lemma {:induction false} CollectMetaFills(m: Meta, hasCap: bool, src: Source)
    requires CollectMeta(m, hasCap, src).1 == Done
    ensures var m' := CollectMeta(m, hasCap, src).0;
      && m'.fps.Some? && m'.frameNum.Some? && m'.width.Some? && m'.height.Some?
      && m'.isVariableFps.Some? && m'.rotation.Some? && m'.mediaInfo.Some? && m'.datetime.Some?
      && m'.duration == Some(DurationOf(m'.frameNum.value, m'.fps.value))
      && (m'.isVariableFps.value ==> m'.framesTimecodes.Some?)
      && (m.fps.Some? ==> m'.fps == m.fps)
      && (m.frameNum.Some? ==> m'.frameNum == m.frameNum)
      && (m.rotation.Some? ==> m'.rotation == m.rotation)
      && (m.datetime.Some? ==> m'.datetime == m.datetime)
  {
    var (m1, c) := CaptureStep(m, hasCap, src);
    CaptureStepFacts(m, hasCap, src);
    ProbesStepFacts(m1, src);
  }

  // ---------------------------------------------------------------------
  // The result record

  /** An opaque result value kept under a key of `_data`; lists are the ones
      `update_data(..., 'last')` appends to. */
  datatype Value = Atom(id: int) | ListOf(items: seq<Value>)

  /** A pickle file: `[meta, status]`, a `_data` dict, or anything that does
      not unpickle to either. */
  datatype Stored = MetaRecord(meta: Meta, status: int) | DataRecord(data: map<string, Value>) | Unreadable

  /** `dict.get(key)`. */
  function Lookup(d: map<string, Value>, key: string): Option<Value> {
    if key in d then Some(d[key]) else None
  }

  /** The in-memory part of `update_data`: 'last' appends to the list under
      `key`, creating an empty one first; 'full' replaces the value. */
  function Updated(d: map<string, Value>, key: string, v: Value, addType: string): (r: Result<map<string, Value>>)
    requires addType == "last" || addType == "full"
  {
    if addType == "full" then Ok(d[key := v])
    else
      var cur := if key in d then d[key] else ListOf([]);
      if cur.ListOf? then Ok(d[key := ListOf(cur.items + [v])]) else Err(NotAList)
  }

  /** 'last' grows the list under the key by exactly the new value at its end,
      fails only on a non-list, and leaves every other key alone; 'full'
      stores the value. */
  lemma UpdatedMeaning(d: map<string, Value>, key: string, v: Value, addType: string)
    requires addType == "last" || addType == "full"
    ensures Updated(d, key, v, addType).Ok? ==>
      var d' := Updated(d, key, v, addType).value;
      d'.Keys == d.Keys + {key} && forall k :: k in d && k != key ==> d'[k] == d[k]
    ensures addType == "full" ==> Updated(d, key, v, addType) == Ok(d[key := v])
    ensures addType == "last" && key !in d ==> Updated(d, key, v, addType) == Ok(d[key := ListOf([v])])
    ensures addType == "last" && key in d ==>
      (Updated(d, key, v, addType).Ok? <==> d[key].ListOf?)
    ensures addType == "last" && key in d && d[key].ListOf? ==>
      var items := Updated(d, key, v, addType).value[key].items;
      |items| == |d[key].items| + 1 && items[..|d[key].items|] == d[key].items && items[|items| - 1] == v
  {
    if addType == "last" && key in d && d[key].ListOf? {
      var items := d[key].items + [v];
      assert items[..|d[key].items|] == d[key].items;
    } else if addType == "last" && key !in d {
      assert [] + [v] == [v];
    }
  }

  /** The `_data` part of a video: the pickle files, the `cached` flag and
      the in-memory dict. */
  datatype DataState = DataState(files: map<string, Stored>, cached: bool, data: map<string, Value>)

  /** `load_data`: a missing file changes nothing; a stored dict replaces
      `_data` and clears `cached`; anything else raises. */
  function LoadDataSpec(s: DataState, path: string): (r: Result<DataState>)
    ensures r.Ok? ==> r.value.files == s.files
  {
    if path !in s.files then Ok(s)
    else match s.files[path]
      case DataRecord(d) => Ok(s.(data := d, cached := false))
      case _ => Err(Unpicklable)
  }

  /** The `data` property: it loads only while `cached` is set. */
  function DataSpec(s: DataState, path: string): (r: Result<DataState>) {
    if s.cached then LoadDataSpec(s, path) else Ok(s)
  }

  /** `save_data`: write `_data`, clear it, and mark the video cached. */
  function SaveDataSpec(s: DataState, path: string): (r: DataState) {
    DataState(s.files[path := DataRecord(s.data)], true, map[])
  }

  /** `update_data(key, value, add_type, save)`: an assert on `add_type`, an
      early `True` for a None value, then the load-merge-save sequence. */
  function UpdateDataSpec(s: DataState, path: string, key: string, value: Option<Value>, addType: string, save: bool)
    : (r: (DataState, Result<Option<bool>>))
  {
    if addType != "last" && addType != "full" then (s, Err(AssertionFailed))
    else if value.None? then (s, Ok(Some(true)))
    else
      var loaded := if save && path in s.files then LoadDataSpec(s, path) else Ok(s);
      if loaded.Err? then (s, Err(loaded.error))
      else
        var s1 := loaded.value;
        match Updated(s1.data, key, value.value, addType)
          case Err(e) => (s1, Err(e))
          case Ok(d) =>
            var s2 := s1.(data := d);
            (if save then SaveDataSpec(s2, path) else s2, Ok(None))
  }

  /** Reading `data` is stable: a second read gives the same dict and state. */
  lemma DataReadStable(s: DataState, path: string)
    requires DataSpec(s, path).Ok?
    ensures DataSpec(DataSpec(s, path).value, path) == DataSpec(s, path)
  {
  }

  /** A saving update round-trips: the record on disk is the stored record
      (or the in-memory dict when there was none) with the update applied,
      memory is cleared, and the next read of `data` returns that record. */
  lemma {:induction false} UpdateThenRead(s: DataState, path: string, key: string, v: Value, addType: string)
    requires addType == "last" || addType == "full"
    requires UpdateDataSpec(s, path, key, Some(v), addType, true).1 == Ok(None)
    ensures var base := if path in s.files then s.files[path].data else s.data;
      var s' := UpdateDataSpec(s, path, key, Some(v), addType, true).0;
      && (path in s.files ==> s.files[path].DataRecord?)
      && Updated(base, key, v, addType).Ok?
      && s' == DataState(s.files[path := DataRecord(Updated(base, key, v, addType).value)], true, map[])
      && DataSpec(s', path) == Ok(DataState(s'.files, false, Updated(base, key, v, addType).value))
  {
  }

  /** A None value returns True and changes nothing; a bad `add_type` fails
      the assert before anything happens. */
  lemma UpdateDataEarlyExits(s: DataState, path: string, key: string, value: Option<Value>, addType: string, save: bool)
    ensures addType != "last" && addType != "full" ==>
      UpdateDataSpec(s, path, key, value, addType, save) == (s, Err(AssertionFailed))
    ensures (addType == "last" || addType == "full") && value.None? ==>
      UpdateDataSpec(s, path, key, value, addType, save) == (s, Ok(Some(true)))
    ensures (addType == "last" || addType == "full") && value.Some? ==>
      UpdateDataSpec(s, path, key, value, addType, save).1 != Ok(Some(true))
  {
  }

  /** `get_data`'s return shape: a single key gives the bare value, any
      other number of keys the list. */
  datatype Lookups = One(value: Option<Value>) | Many(values: seq<Option<Value>>)

  /** `[d.get(k) for k in keys]`. */
  function LookupAll(d: map<string, Value>, keys: seq<string>): (r: seq<Option<Value>>)
    ensures |r| == |keys|
    ensures forall i :: 0 <= i < |keys| ==> r[i] == Lookup(d, keys[i])
  {
    seq(|keys|, i requires 0 <= i < |keys| => Lookup(d, keys[i]))
  }

  /** Looking up a list of keys in two parts gives the two parts' results
      one after the other. */
  lemma LookupAllAppend(d: map<string, Value>, a: seq<string>, b: seq<string>)
    ensures LookupAll(d, a + b) == LookupAll(d, a) + LookupAll(d, b)
  {
  }

  function Shape(values: seq<Option<Value>>, count: nat): Lookups
    requires count == |values|
  {
    if count == 1 then One(values[0]) else Many(values)
  }

  // ---------------------------------------------------------------------
  // The stateful objects

  /** The directory of pickle files, shared by every video. */
  class PickleStore {
    var files: map<string, Stored>

    constructor (files: map<string, Stored>)
      ensures this.files == files
    {
      this.files := files;
    }
  }

  class Video {
    const path: string
    const minFps: real
    const minDuration: real
    const storeMetaPath: string
    const storeDataPath: string
    const source: Source
    const store: PickleStore
    var cached: bool
    var meta: Meta
    var data: map<string, Value>   // `_data`
    var status: int
    var hasCap: bool               // `self.cap` exists

    /** The fields a lazy property does not touch. */
    twostate predicate OnlyMetaChanged()
      reads this
    {
      cached == old(cached) && data == old(data) && status == old(status) && hasCap == old(hasCap)
    }

    ghost function DataOf(): DataState
      reads this, store
    {
      DataState(store.files, cached, data)
    }

    /** `__init__`: derive the cache paths; a cached video whose meta file is
        missing or unreadable falls back to a fresh capture, which marks it
        DEFECTIVE when its fps or duration is below the minimum. */
    constructor (path: string, cached: bool, cacheDir: string, rootDir: string,
                 minFps: real, minDuration: real, source: Source, store: PickleStore)
      ensures this.path == path && this.minFps == minFps && this.minDuration == minDuration
      ensures this.source == source && this.store == store
      ensures storeMetaPath == MetaPath(cacheDir, path, rootDir)
      ensures storeDataPath == DataPath(cacheDir, path, rootDir)
      ensures data == map[]
      ensures this.cached <==>
        cached && storeMetaPath in store.files && store.files[storeMetaPath].MetaRecord?
      ensures this.cached ==>
        meta == store.files[storeMetaPath].meta && status == store.files[storeMetaPath].status && !hasCap
      ensures !this.cached ==>
        hasCap && meta == OpenCheck(source, minFps, minDuration).0
        && status == (if OpenCheck(source, minFps, minDuration).1 then Defective else Initiated)
    {
      this.path := path;
      this.minFps := minFps;
      this.minDuration := minDuration;
      this.source := source;
      this.store := store;
      this.cached := cached;
      storeMetaPath := MetaPath(cacheDir, path, rootDir);
      storeDataPath := DataPath(cacheDir, path, rootDir);
      meta := EmptyMeta;
      data := map[];
      status := Initiated;
      hasCap := false;
      new;
      if this.cached && storeMetaPath !in store.files {
        this.cached := false;
      }
      if this.cached {
        var loaded := LoadMetaAndStatus();
        this.cached := loaded == Ok(true);
      }
      if !this.cached {
        hasCap := true;
        var fps := Fps();
        var defective := fps.Ok? && fps.value < minFps;
        if !defective {
          var d := Duration();
          defective := d.Ok? && d.value < minDuration;
        }
        if defective {
          status := Defective;
        }
      }
    }

    method MediaInfo() returns (info: MediaInfo)
      modifies this
      ensures (meta, info) == MediaInfoStep(old(meta), source)
      ensures OnlyMetaChanged()
    {
      if meta.mediaInfo.None? {
        meta := meta.(mediaInfo := Some(source.mediaInfo));
      }
      info := meta.mediaInfo.value;
    }

    method Fps() returns (r: Result<real>)
      modifies this
      ensures (meta, r) == FpsStep(old(meta), hasCap, source)
      ensures OnlyMetaChanged()
    {
      if meta.fps.None? {
        if !hasCap {
          return Err(NoCapture);
        }
        meta := meta.(fps := Some(source.capFps));
      }
      r := Ok(meta.fps.value);
    }

    method FrameNum() returns (r: Result<int>)
      modifies this
      ensures (meta, r) == FrameNumStep(old(meta), hasCap, source)
      ensures OnlyMetaChanged()
    {
      if meta.frameNum.None? {
        if !hasCap {
          return Err(NoCapture);
        }
        meta := meta.(frameNum := Some(Trunc(source.capFrameCount)));
      }
      r := Ok(meta.frameNum.value);
    }

    method Duration() returns (r: Result<real>)
      modifies this
      ensures (meta, r) == DurationStep(old(meta), hasCap, source)
      ensures OnlyMetaChanged()
    {
      var fps := Fps();
      if fps.Err? {
        return Err(fps.error);
      }
      if fps.value > 0.0 {
        var n := FrameNum();
        if n.Err? {
          return Err(n.error);
        }
        var fps' := Fps();
        r := Ok(DurationOf(n.value, fps'.value));
      } else {
        r := Ok(0.0);
      }
    }

    method Width() returns (r: Result<real>)
      modifies this
      ensures (meta, r) == WidthStep(old(meta), hasCap, source)
      ensures OnlyMetaChanged()
    {
      if meta.width.None? {
        if !hasCap {
          return Err(NoCapture);
        }
        meta := meta.(width := Some(source.capWidth));
      }
      r := Ok(meta.width.value);
    }

    method Height() returns (r: Result<real>)
      modifies this
      ensures (meta, r) == HeightStep(old(meta), hasCap, source)
      ensures OnlyMetaChanged()
    {
      if meta.height.None? {
        if !hasCap {
          return Err(NoCapture);
        }
        meta := meta.(height := Some(source.capHeight));
      }
      r := Ok(meta.height.value);
    }

    method IsGopro() returns (g: Option<bool>)
      modifies this
      ensures (meta, g) == IsGoproStep(old(meta), source)
      ensures OnlyMetaChanged()
    {
      if meta.isGopro.None? {
        var info := MediaInfo();
        meta := meta.(isGopro := GoproOf(info));
      }
      g := meta.isGopro;
    }

    method IsVariableFps() returns (r: Result<bool>)
      modifies this
      ensures (meta, r) == IsVariableFpsStep(old(meta), source)
      ensures OnlyMetaChanged()
    {
      if meta.isVariableFps.None? {
        if source.avgFrameRate.None? {
          return Err(Undecodable);
        }
        var v := VariableFpsOf(source.avgFrameRate.value);
        if v.Err? {
          return Err(v.error);
        }
        meta := meta.(isVariableFps := Some(v.value));
      }
      r := Ok(meta.isVariableFps.value);
    }

    method FramesTimecodes() returns (r: Result<seq<real>>)
      modifies this
      ensures (meta, r) == FramesTimecodesStep(old(meta), source)
      ensures OnlyMetaChanged()
    {
      if meta.framesTimecodes.None? {
        if source.packets.None? {
          return Err(Undecodable);
        }
        var ts := FramesTimecodesOf(source.packets.value);
        if ts.Err? {
          return Err(ts.error);
        }
        meta := meta.(framesTimecodes := Some(ts.value));
      }
      r := Ok(meta.framesTimecodes.value);
    }

    method Rotation() returns (r: Result<int>)
      modifies this
      ensures (meta, r) == RotationStep(old(meta), source)
      ensures OnlyMetaChanged()
    {
      if meta.rotation.None? {
        var rot := RotationOf(source.rotateOut, source.rotateJson);
        if rot.Err? {
          return Err(rot.error);
        }
        meta := meta.(rotation := Some(rot.value));
      }
      r := Ok(meta.rotation.value);
    }

    method Datetime() returns (dt: string)
      modifies this
      ensures (meta, dt) == DatetimeStep(old(meta), source)
      ensures OnlyMetaChanged()
    {
      if meta.datetime.None? {
        var info := MediaInfo();
        meta := meta.(datetime := Some(DatetimeOf(info)));
      }
      dt := meta.datetime.value;
    }

    /** The capture half of `save_meta`'s update dict. */
    method ReadCapture() returns (r: Result<CaptureAttrs>)
      modifies this
      ensures (meta, r) == CaptureStep(old(meta), hasCap, source)
      ensures OnlyMetaChanged()
    {
      var fps := Fps();
      if fps.Err? { return Err(fps.error); }
      var n := FrameNum();
      if n.Err? { return Err(n.error); }
      var dur := Duration();
      if dur.Err? { return Err(dur.error); }
      var w := Width();
      if w.Err? { return Err(w.error); }
      var h := Height();
      if h.Err? { return Err(h.error); }
      r := Ok(CaptureAttrs(fps.value, n.value, dur.value, w.value, h.value));
    }

    /** The probe half of `save_meta`'s update dict. */
    method ReadProbes() returns (r: Result<ProbeAttrs>)
      modifies this
      ensures (meta, r) == ProbesStep(old(meta), source)
      ensures OnlyMetaChanged()
    {
      var g := IsGopro();
      var v := IsVariableFps();
      if v.Err? { return Err(v.error); }
      var rot := Rotation();
      if rot.Err? { return Err(rot.error); }
      var info := MediaInfo();
      var dt := Datetime();
      r := Ok(ProbeAttrs(g, v.value, rot.value, info, dt));
    }

    /** `save_meta`: collect every attribute, write `[meta, status]`, drop
        the capture, then raise the status to at least METACOLLECTED. */
    method SaveMeta() returns (r: Outcome)
      modifies this, store
      ensures (meta, r) == CollectMeta(old(meta), old(hasCap), source)
      ensures cached == old(cached) && data == old(data)
      ensures r == Done ==>
        && store.files == old(store.files)[storeMetaPath := MetaRecord(meta, old(status))]
        && status == RaisedStatus(old(status))
        && !hasCap
      ensures r != Done ==> store.files == old(store.files) && status == old(status) && hasCap == old(hasCap)
    {
      var c := ReadCapture();
      if c.Err? { return Failed(c.error); }
      var p := ReadProbes();
      if p.Err? { return Failed(p.error); }
      meta := meta.(fps := Some(c.value.fps), frameNum := Some(c.value.frameNum),
        duration := Some(c.value.duration), width := Some(c.value.width), height := Some(c.value.height),
        isGopro := p.value.isGopro, isVariableFps := Some(p.value.isVariableFps),
        rotation := Some(p.value.rotation), mediaInfo := Some(p.value.mediaInfo),
        datetime := Some(p.value.datetime));
      var variable := IsVariableFps();
      if variable.Ok? && variable.value {
        var tc := FramesTimecodes();
        if tc.Err? { return Failed(tc.error); }
        meta := meta.(framesTimecodes := Some(tc.value));
      }
      store.files := store.files[storeMetaPath := MetaRecord(meta, status)];
      hasCap := false;
      status := RaisedStatus(status);
      r := Done;
    }

    /** `set_status(s, save)`: set the status, and with `save` persist it
        through `save_meta`, which leaves at least METACOLLECTED. */
    method SetStatus(s: int, save: bool) returns (r: Outcome)
      modifies this, store
      ensures !save ==> r == Done && status == s && meta == old(meta) && store.files == old(store.files)
      ensures save ==> (meta, r) == CollectMeta(old(meta), old(hasCap), source)
      ensures save && r == Done ==>
        && status == RaisedStatus(s)
        && store.files == old(store.files)[storeMetaPath := MetaRecord(meta, s)]
      ensures save && r != Done ==> status == s && store.files == old(store.files)
      ensures cached == old(cached) && data == old(data)
    {
      status := s;
      if save {
        r := SaveMeta();
      } else {
        r := Done;
      }
    }

    /** `load_meta_and_status`: the meta file must exist; a record that
        unpickles to `[meta, status]` replaces both and gives True, anything
        else gives False and changes nothing. */
    method LoadMetaAndStatus() returns (r: Result<bool>)
      modifies this
      ensures storeMetaPath !in store.files ==> r == Err(AssertionFailed)
      ensures storeMetaPath in store.files ==> (r == Ok(true) <==> store.files[storeMetaPath].MetaRecord?)
      ensures storeMetaPath in store.files ==> r.Ok?
      ensures r == Ok(true) ==>
        meta == store.files[storeMetaPath].meta && status == store.files[storeMetaPath].status
      ensures r != Ok(true) ==> meta == old(meta) && status == old(status)
      ensures cached == old(cached) && data == old(data) && hasCap == old(hasCap)
    {
      if storeMetaPath !in store.files {
        return Err(AssertionFailed);
      }
      match store.files[storeMetaPath]
      case MetaRecord(m, s) =>
        meta, status := m, s;
        r := Ok(true);
      case _ =>
        r := Ok(false);
    }

    method SaveData()
      modifies this, store
      ensures DataOf() == SaveDataSpec(old(DataOf()), storeDataPath)
      ensures meta == old(meta) && status == old(status) && hasCap == old(hasCap)
    {
      store.files := store.files[storeDataPath := DataRecord(data)];
      data := map[];
      cached := true;
    }

    method LoadData() returns (r: Outcome)
      modifies this
      ensures LoadDataSpec(old(DataOf()), storeDataPath).Ok? ==>
        r == Done && DataOf() == LoadDataSpec(old(DataOf()), storeDataPath).value
      ensures LoadDataSpec(old(DataOf()), storeDataPath).Err? ==>
        r == Failed(LoadDataSpec(old(DataOf()), storeDataPath).error) && DataOf() == old(DataOf())
      ensures meta == old(meta) && status == old(status) && hasCap == old(hasCap)
    {
      if storeDataPath !in store.files {
        return Done;
      }
      match store.files[storeDataPath]
      case DataRecord(d) =>
        data := d;
        cached := false;
        r := Done;
      case _ =>
        r := Failed(Unpicklable);
    }

    /** The `data` property. */
    method Data() returns (r: Result<map<string, Value>>)
      modifies this
      ensures DataSpec(old(DataOf()), storeDataPath).Ok? ==>
        DataOf() == DataSpec(old(DataOf()), storeDataPath).value && r == Ok(data)
      ensures DataSpec(old(DataOf()), storeDataPath).Err? ==>
        DataOf() == old(DataOf()) && r == Err(DataSpec(old(DataOf()), storeDataPath).error)
      ensures meta == old(meta) && status == old(status) && hasCap == old(hasCap)
    {
      if cached {
        var loaded := LoadData();
        if loaded.Failed? {
          return Err(loaded.error);
        }
      }
      r := Ok(data);
    }

    method UpdateData(key: string, value: Option<Value>, addType: string, save: bool)
      returns (r: Result<Option<bool>>)
      modifies this, store
      ensures (DataOf(), r) == UpdateDataSpec(old(DataOf()), storeDataPath, key, value, addType, save)
      ensures meta == old(meta) && status == old(status) && hasCap == old(hasCap)
    {
      if addType != "last" && addType != "full" {
        return Err(AssertionFailed);
      }
      if value.None? {
        return Ok(Some(true));
      }
      if save && storeDataPath in store.files {
        var loaded := LoadData();
        if loaded.Failed? {
          return Err(loaded.error);
        }
      }
      var updated := Updated(data, key, value.value, addType);
      if updated.Err? {
        return Err(updated.error);
      }
      data := updated.value;
      if save {
        SaveData();
      }
      r := Ok(None);
    }

    /** `get_data(keys)`: every key is looked up in `data`, read afresh each
        time; a failing read becomes `RuntimeError`. */
    method GetData(keys: seq<string>) returns (r: Result<Lookups>)
      modifies this
      ensures keys == [] ==> r == Ok(Many([])) && DataOf() == old(DataOf())
      ensures keys != [] && DataSpec(old(DataOf()), storeDataPath).Err? ==>
        r == Err(Runtime) && DataOf() == old(DataOf())
      ensures keys != [] && DataSpec(old(DataOf()), storeDataPath).Ok? ==>
        && DataOf() == DataSpec(old(DataOf()), storeDataPath).value
        && r == Ok(Shape(LookupAll(data, keys), |keys|))
      ensures meta == old(meta) && status == old(status) && hasCap == old(hasCap)
    {
      ghost var after := DataSpec(DataOf(), storeDataPath);
      var result: seq<Option<Value>> := [];
      var i := 0;
      while i < |keys|
        invariant 0 <= i <= |keys|
        invariant |result| == i
        invariant i == 0 ==> DataOf() == old(DataOf())
        invariant i > 0 ==> after.Ok? && DataOf() == after.value
        invariant i > 0 ==> result == LookupAll(data, keys[..i])
        invariant meta == old(meta) && status == old(status) && hasCap == old(hasCap)
      {
        if i > 0 {
          DataReadStable(old(DataOf()), storeDataPath);
        }
        var d := Data();
        if d.Err? {
          return Err(Runtime);
        }
        result := result + [Lookup(d.value, keys[i])];
        LookupAllAppend(d.value, keys[..i], [keys[i]]);
        assert keys[..i + 1] == keys[..i] + [keys[i]];
        i := i + 1;
      }
      assert keys[..i] == keys;
      r := Ok(Shape(result, |keys|));
    }
  }
}
