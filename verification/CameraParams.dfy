/**
 The camera wrapper's parameter maps: the seed, sanitizing, the map sent to the
 vendor library, and the cache that must agree with it.
 */
module CameraParams {
  import opened Wrappers

  /** Keys by the framework's names; keys it does not name by their text. */
  datatype Key =
    | PreviewSize | PreviewFormat | PreviewFrameRate | PreviewFpsRange | PreviewFrameRateMode
    | PictureSize | PictureFormat | JpegQuality | JpegThumbnailWidth | JpegThumbnailHeight | JpegThumbnailQuality
    | Rotation | FocusMode | WhiteBalance | Effect | Antibanding | Denoise | RedeyeReduction
    | Zoom | MaxZoom | ZoomRatios | ZoomSupported
    | VideoSize | VideoFrameFormat | VideoHighFrameRate
    | SupportedPreviewSizes | SupportedPreviewFormats | SupportedPreviewFrameRates | SupportedPreviewFpsRange
    | SupportedPreviewFrameRateModes | SupportedPictureSizes | SupportedPictureFormats
    | SupportedFocusModes | SupportedWhiteBalance | SupportedEffects | SupportedDenoise
    | SupportedRedeyeReduction | SupportedVideoHighFrameRateModes | SupportedHfrSizes
    | Text(name: string)

  type Params = map<Key, string>

  /** What the framework decides: which values set() takes, and the size a text reads as. */
  datatype Framework = Framework(accepts: string -> bool, size: string -> Option<(int, int)>)

  predicate Sane(fw: Framework) {
    && fw.size("480x320") == Some((480, 320))
    && fw.size("640x480") == Some((640, 480))
  }

  function Get(p: Params, k: Key): Option<string> {
    if k in p then Some(p[k]) else None
  }

  function Seed(): Params {
    map[
    PreviewSize := "640x480", PreviewFrameRate := "15", PreviewFormat := "yuv420sp",
    PictureSize := "1600x1200", PictureFormat := "jpeg", JpegQuality := "100",
    JpegThumbnailWidth := "512", JpegThumbnailHeight := "384", JpegThumbnailQuality := "90",
    FocusMode := "auto", WhiteBalance := "auto", Effect := "none", Rotation := "0",
    SupportedPreviewSizes := "640x480,480x320,352x288,240x160,176x144",
    SupportedPictureSizes := "1600x1200,640x480,512x384,320x240",
    SupportedPreviewFrameRates := "15", PreviewFpsRange := "5000,31000", SupportedPreviewFpsRange := "(5000,31000)",
    SupportedPictureFormats := "jpeg", SupportedPreviewFormats := "yuv420sp",
    SupportedWhiteBalance := "auto", SupportedEffects := "none", SupportedFocusModes := "auto",
    VideoSize := "352x288", VideoFrameFormat := "yuv420sp",
    VideoHighFrameRate := "off", SupportedVideoHighFrameRateModes := "off", SupportedHfrSizes := "352x288",
    Denoise := "denoise-off", SupportedDenoise := "denoise-off",
    RedeyeReduction := "disable", SupportedRedeyeReduction := "disable",
    Text("supported-video-sizes") := "352x288,320x240,176x144",
    Text("preferred-preview-size-for-video") := "352x288"]
  }

  /** The keys sanitizing keeps, in the order they are copied. */
  function Kept(): seq<Key> {
    [
    PreviewSize, SupportedPreviewSizes, PreviewFormat, SupportedPreviewFormats, PreviewFrameRate,
    SupportedPreviewFrameRates, PreviewFpsRange, SupportedPreviewFpsRange, PreviewFrameRateMode,
    SupportedPreviewFrameRateModes, PictureSize, SupportedPictureSizes, PictureFormat, SupportedPictureFormats,
    JpegThumbnailWidth, JpegThumbnailHeight, JpegThumbnailQuality, JpegQuality, Rotation, FocusMode,
    SupportedFocusModes, WhiteBalance, SupportedWhiteBalance, Antibanding, Zoom, MaxZoom, ZoomRatios,
    ZoomSupported, VideoSize, VideoFrameFormat, Text("supported-video-sizes"), Text("preferred-preview-size-for-video")]
  }

  const HINT := Text("recording-hint")

  predicate IsDelegatable(k: Key) {
    k in {PreviewSize, PictureSize, PreviewFormat, PictureFormat, JpegQuality, Rotation, VideoSize, VideoFrameFormat, HINT}
  }

  /** The candidates for the sent map, some of which are not delegatable. */
  function CandidateKeys(): seq<Key> {
    [
    PreviewSize, PictureSize, PreviewFormat, PictureFormat, JpegQuality, Rotation, WhiteBalance, FocusMode,
    VideoSize, VideoFrameFormat, HINT]
  }

  /** The application keys the vendor library gets to see. */
  const EIGHT: set<Key> := {
    PreviewSize, PictureSize, PreviewFormat, PictureFormat, JpegQuality, Rotation, VideoSize, VideoFrameFormat}

  // ---------------------------------------------------------------- specification

  /** A copied value is present, not empty, and taken by set(). */
  predicate Copies(fw: Framework, src: Params, k: Key) {
    k in src && src[k] != "" && fw.accepts(src[k])
  }

  function CopyOne(fw: Framework, dst: Params, src: Params, k: Key): Params {
    if Copies(fw, src, k) then dst[k := src[k]] else dst
  }

  function CopyAll(fw: Framework, dst: Params, src: Params, keys: seq<Key>): Params
    decreases |keys|
  {
    if keys == [] then dst
    else CopyOne(fw, CopyAll(fw, dst, src, keys[..|keys| - 1]), src, keys[|keys| - 1])
  }

  function Sanitized(fw: Framework, raw: Params): Params {
    CopyAll(fw, Seed(), raw, Kept())
  }

  /** The copied keys from src, the rest from dst. */
  ghost predicate IsOverlay(fw: Framework, r: Params, dst: Params, src: Params, keys: set<Key>) {
    forall k :: Get(r, k) == if k in keys && Copies(fw, src, k) then Some(src[k]) else Get(dst, k)
  }

  lemma {:induction false} CopyAllIsOverlay(fw: Framework, dst: Params, src: Params, keys: seq<Key>)
    ensures IsOverlay(fw, CopyAll(fw, dst, src, keys), dst, src, set k | k in keys)
    decreases |keys|
  {
    if keys != [] {
      var front := keys[..|keys| - 1];
      CopyAllIsOverlay(fw, dst, src, front);
      assert keys == front + [keys[|keys| - 1]];
      assert forall k :: k in keys <==> k in front || k == keys[|keys| - 1];
    }
  }

  lemma SameLookups(p: Params, q: Params)
    requires forall k :: Get(p, k) == Get(q, k)
    ensures p == q
  {
    assert forall k :: k in p <==> k in q by {
      forall k ensures k in p <==> k in q { assert Get(p, k) == Get(q, k); }
    }
    forall k | k in p ensures p[k] == q[k] { assert Get(p, k) == Get(q, k); }
  }

  /** Sanitizing twice is sanitizing once, for every parameter map. */
  lemma SanitizeIsIdempotent(fw: Framework, raw: Params)
    ensures Sanitized(fw, Sanitized(fw, raw)) == Sanitized(fw, raw)
  {
    var once := Sanitized(fw, raw);
    var twice := Sanitized(fw, once);
    var keys := set k | k in Kept();
    CopyAllIsOverlay(fw, Seed(), raw, Kept());
    CopyAllIsOverlay(fw, Seed(), once, Kept());
    hide CopyAll, Seed, Kept;
    forall k
      ensures Get(twice, k) == Get(once, k)
    {
      assert Get(once, k) == if k in keys && Copies(fw, raw, k) then Some(raw[k]) else Get(Seed(), k);
      assert Get(twice, k) == if k in keys && Copies(fw, once, k) then Some(once[k]) else Get(Seed(), k);
    }
    SameLookups(twice, once);
  }

  /** Copying skips the candidates that are not delegatable. */
  function CopyDelegatable(fw: Framework, dst: Params, src: Params, keys: seq<Key>): Params
    decreases |keys|
  {
    if keys == [] then dst
    else
      var front := CopyDelegatable(fw, dst, src, keys[..|keys| - 1]);
      var k := keys[|keys| - 1];
      if IsDelegatable(k) then CopyOne(fw, front, src, k) else front
  }

  function Built(fw: Framework, safe: Params): Params {
    CopyDelegatable(fw, Seed(), safe, CandidateKeys())
  }

  lemma {:induction false} CopyDelegatableIsOverlay(fw: Framework, dst: Params, src: Params, keys: seq<Key>)
    ensures IsOverlay(fw, CopyDelegatable(fw, dst, src, keys), dst, src, set k | k in keys && IsDelegatable(k))
    decreases |keys|
  {
    if keys != [] {
      var front := keys[..|keys| - 1];
      CopyDelegatableIsOverlay(fw, dst, src, front);
      assert keys == front + [keys[|keys| - 1]];
      assert forall k :: k in keys <==> k in front || k == keys[|keys| - 1];
    }
  }

  function WithDefault(p: Params, k: Key, v: string): Params {
    if k in p then p else p[k := v]
  }

  /** What an application left out. */
  function Patched(p: Params): Params {
    WithDefault(WithDefault(WithDefault(WithDefault(p,
      PreviewSize, "480x320"), PictureSize, "640x480"), PreviewFormat, "yuv420sp"), PictureFormat, "jpeg")
  }

  /** The preview size the vendor library rejects. */
  predicate Is432(fw: Framework, p: Params) {
    PreviewSize in p && fw.size(p[PreviewSize]) == Some((432, 320))
  }

  function Remapped(fw: Framework, p: Params): Params {
    if Is432(fw, p) then p[PreviewSize := "480x320"] else p
  }

  /** The cache, and the map last sent to the vendor library. */
  datatype State = State(good: Option<Params>, sent: Option<Params>)

  function Set(fw: Framework, s: State, p: Params, delegate: bool): State {
    var safe := Sanitized(fw, Patched(p));
    if !delegate then s.(good := Some(safe))
    else
      var delegated := Built(fw, safe);
      State(Some(if Is432(fw, delegated) then safe[PreviewSize := "480x320"] else safe), Some(Remapped(fw, delegated)))
  }

  function GetCached(s: State): (State, Params) {
    if s.good.Some? then (s, s.good.value) else (s.(good := Some(Seed())), Seed())
  }

  // -------------------------------------------------------------------- lookups

  lemma SeedHasTheEight(k: Key)
    requires k in EIGHT
    ensures k in Seed() && Seed()[k] != ""
    ensures Seed()[PreviewSize] == "640x480"
  {
    hide Kept;
  }

  lemma SeedHasNoHint()
    ensures HINT !in Seed() && HINT !in Kept()
  {
  }

  /** The keys the framework names that sanitizing does not take from an application. */
  const DROPPED: set<Key> := {
    Effect, Denoise, RedeyeReduction, VideoHighFrameRate, SupportedEffects, SupportedDenoise,
    SupportedRedeyeReduction, SupportedVideoHighFrameRateModes, SupportedHfrSizes}

  predicate Keepable(k: Key) {
    k !in DROPPED && (k.Text? ==> k.name in {"supported-video-sizes", "preferred-preview-size-for-video"})
  }

  /** Where a key is among those kept. */
  function PlaceOf(k: Key): nat {
    match k
    case PreviewSize => 0 case SupportedPreviewSizes => 1 case PreviewFormat => 2 case SupportedPreviewFormats => 3
    case PreviewFrameRate => 4 case SupportedPreviewFrameRates => 5 case PreviewFpsRange => 6
    case SupportedPreviewFpsRange => 7 case PreviewFrameRateMode => 8 case SupportedPreviewFrameRateModes => 9
    case PictureSize => 10 case SupportedPictureSizes => 11 case PictureFormat => 12 case SupportedPictureFormats => 13
    case JpegThumbnailWidth => 14 case JpegThumbnailHeight => 15 case JpegThumbnailQuality => 16 case JpegQuality => 17
    case Rotation => 18 case FocusMode => 19 case SupportedFocusModes => 20 case WhiteBalance => 21
    case SupportedWhiteBalance => 22 case Antibanding => 23 case Zoom => 24 case MaxZoom => 25 case ZoomRatios => 26
    case ZoomSupported => 27 case VideoSize => 28 case VideoFrameFormat => 29
    case Text(name) => if name == "supported-video-sizes" then 30 else 31
    case _ => 32
  }

  lemma FirstAreKept(k: Key)
    requires Keepable(k) && PlaceOf(k) < 11
    ensures Kept()[PlaceOf(k)] == k
  {
    hide Seed;
  }

  lemma NextAreKept(k: Key)
    requires Keepable(k) && 11 <= PlaceOf(k) < 22
    ensures Kept()[PlaceOf(k)] == k
  {
    hide Seed;
  }

  lemma LastAreKept(k: Key)
    requires Keepable(k) && 22 <= PlaceOf(k)
    ensures PlaceOf(k) < |Kept()| && Kept()[PlaceOf(k)] == k
  {
    hide Seed;
  }

  lemma KeepableIsKept(k: Key)
    requires Keepable(k)
    ensures PlaceOf(k) < |Kept()| && Kept()[PlaceOf(k)] == k
  {
    assert |Kept()| == 32;
    if PlaceOf(k) < 11 {
      FirstAreKept(k);
    } else if PlaceOf(k) < 22 {
      NextAreKept(k);
    } else {
      LastAreKept(k);
    }
    hide *;
  }

  lemma EightAreKeepable(k: Key)
    requires k in EIGHT
    ensures Keepable(k)
  {
    hide Seed, Kept;
  }

  lemma TheEightAreKept(k: Key)
    requires k in EIGHT
    ensures k in Kept()
  {
    hide *;
    EightAreKeepable(k);
    KeepableIsKept(k);
  }

  lemma Delegatable(k: Key)
    ensures IsDelegatable(k) <==> k in EIGHT || k == HINT
  {
  }

  lemma AmongCandidates(k: Key)
    requires k in EIGHT || k == HINT
    ensures k in CandidateKeys()
  {
    hide Seed, Kept, IsDelegatable;
    var keys := CandidateKeys();
    assert keys[0] == PreviewSize && keys[1] == PictureSize && keys[2] == PreviewFormat;
    assert keys[3] == PictureFormat && keys[4] == JpegQuality && keys[5] == Rotation;
    assert keys[8] == VideoSize && keys[9] == VideoFrameFormat && keys[10] == HINT;
  }

  lemma Candidates(k: Key)
    ensures k in CandidateKeys() && IsDelegatable(k) <==> k in EIGHT || k == HINT
  {
    hide CandidateKeys;
    Delegatable(k);
    if k in EIGHT || k == HINT {
      AmongCandidates(k);
    }
    hide IsDelegatable;
  }

  /** A key of the eight in a sanitized map: the application's value or the seed's. */
  lemma SafeLookup(fw: Framework, raw: Params, k: Key)
    requires k in EIGHT
    ensures Get(Sanitized(fw, raw), k) == Some(if Copies(fw, raw, k) then raw[k] else Seed()[k])
    ensures HINT !in Sanitized(fw, raw)
  {
    CopyAllIsOverlay(fw, Seed(), raw, Kept());
    SeedHasTheEight(k);
    SeedHasNoHint();
    TheEightAreKept(k);
    hide CopyAll, Seed, Kept;
    var safe := Sanitized(fw, raw);
    assert Get(safe, k) == Some(if Copies(fw, raw, k) then raw[k] else Seed()[k]);
    assert Get(safe, HINT) == Get(Seed(), HINT);
  }

  /** What sanitizing took is taken again; what it left is the seed's. */
  lemma SafeCopies(fw: Framework, raw: Params, k: Key)
    requires k in EIGHT
    ensures var safe := Sanitized(fw, raw);
            k in safe && (Copies(fw, safe, k) || Get(Seed(), k) == Some(safe[k]))
  {
    hide Sanitized, Seed;
    SafeLookup(fw, raw, k);
    SeedHasTheEight(k);
  }

  lemma HintIsNotCopied(fw: Framework, raw: Params)
    ensures !Copies(fw, Sanitized(fw, raw), HINT)
  {
    hide Sanitized, Seed;
    SafeLookup(fw, raw, PreviewSize);
  }

  /** The built map: the eight keys as sanitized, everything else as seeded. */
  lemma BuiltLookup(fw: Framework, raw: Params, k: Key)
    ensures var safe := Sanitized(fw, raw);
            Get(Built(fw, safe), k) == if k in EIGHT then Get(safe, k) else Get(Seed(), k)
  {
    hide CopyDelegatable, Sanitized, Seed, Kept, CandidateKeys, IsDelegatable;
    var safe := Sanitized(fw, raw);
    CopyDelegatableIsOverlay(fw, Seed(), safe, CandidateKeys());
    Candidates(k);
    SeedHasNoHint();
    var keys := set j | j in CandidateKeys() && IsDelegatable(j);
    assert k in keys <==> k in EIGHT || k == HINT;
    assert Get(Built(fw, safe), k) == if k in keys && Copies(fw, safe, k) then Some(safe[k]) else Get(Seed(), k);
    if k in EIGHT {
      SafeCopies(fw, raw, k);
    } else if k == HINT {
      HintIsNotCopied(fw, raw);
    }
  }

  lemma KeptIsKeepable(i: nat)
    requires i < |Kept()|
    ensures Keepable(Kept()[i])
  {
  }

  /** A sanitized map has an application's accepted value exactly for the keepable keys,
      and the seed for the others. */
  lemma CacheKeeps(fw: Framework, raw: Params, k: Key)
    ensures Get(Sanitized(fw, raw), k)
            == if Keepable(k) && k in raw && raw[k] != "" && fw.accepts(raw[k]) then Some(raw[k]) else Get(Seed(), k)
  {
    CopyAllIsOverlay(fw, Seed(), raw, Kept());
    hide CopyAll, Seed, Kept, Keepable;
    var keys := set j | j in Kept();
    assert k in Kept() <==> Keepable(k) by {
      if k in Kept() {
        var i :| 0 <= i < |Kept()| && Kept()[i] == k;
        KeptIsKeepable(i);
      }
      if Keepable(k) { KeepableIsKept(k); }
    }
    assert Get(Sanitized(fw, raw), k) == if k in keys && Copies(fw, raw, k) then Some(raw[k]) else Get(Seed(), k);
  }

  lemma PatchedLookup(p: Params, k: Key)
    ensures Get(Patched(p), k)
            == if k in p then Some(p[k])
               else match k
                    case PreviewSize => Some("480x320")
                    case PictureSize => Some("640x480")
                    case PreviewFormat => Some("yuv420sp")
                    case PictureFormat => Some("jpeg")
                    case _ => None
  {
  }

  // ---------------------------------------------------------------- main results

  /** Cache and sent map agree on all eight keys. */
  predicate Agree(good: Params, sent: Params) {
    forall k :: k in EIGHT ==> k in good && k in sent && good[k] == sent[k]
  }

  /** After every delegated call the cache agrees with the sent map on all eight
      keys, and neither holds a 432x320 preview. */
  lemma DelegatedAgrees(fw: Framework, s: State, p: Params)
    requires Sane(fw)
    ensures var t := Set(fw, s, p, true);
            && t.good.Some? && t.sent.Some? && Agree(t.good.value, t.sent.value)
            && !Is432(fw, t.good.value) && !Is432(fw, t.sent.value)
  {
    var raw := Patched(p);
    var safe := Sanitized(fw, raw);
    var built := Built(fw, safe);
    forall k | k in EIGHT
      ensures k in safe && k in built && safe[k] == built[k]
    {
      SafeLookup(fw, raw, k);
      BuiltLookup(fw, raw, k);
    }
    hide Sanitized, Built, Patched, Seed;
  }

  /** A 432x320 preview ends up in the cache if and only if the application asks
      for it, in a form set() takes, on a call that is not delegated. */
  lemma CacheHolds432Exactly(fw: Framework, s: State, p: Params, delegate: bool)
    requires Sane(fw)
    ensures var t := Set(fw, s, p, delegate);
            t.good.Some? && Is432(fw, t.good.value)
            <==> !delegate && Copies(fw, p, PreviewSize) && fw.size(p[PreviewSize]) == Some((432, 320))
  {
    if delegate {
      DelegatedAgrees(fw, s, p);
      hide Set;
    } else {
      PatchedLookup(p, PreviewSize);
      SafeLookup(fw, Patched(p), PreviewSize);
      SeedHasTheEight(PreviewSize);
      hide Sanitized, Patched, Seed;
    }
  }

  function Sent(fw: Framework, p: Params): Params {
    Remapped(fw, Built(fw, Sanitized(fw, Patched(p))))
  }

  lemma BuiltOf(fw: Framework, p: Params, k: Key)
    ensures var raw := Patched(p);
            Get(Built(fw, Sanitized(fw, raw)), k)
            == if k !in EIGHT then Get(Seed(), k) else Some(if Copies(fw, raw, k) then raw[k] else Seed()[k])
  {
    BuiltLookup(fw, Patched(p), k);
    if k in EIGHT {
      SafeLookup(fw, Patched(p), k);
    }
    hide Built, Sanitized, Patched, Seed;
  }

  /** The map sent depends on the eight keys alone ... */
  lemma SentDependsOnTheEight(fw: Framework, p: Params, q: Params)
    requires forall k :: k in EIGHT ==> Get(p, k) == Get(q, k)
    ensures Sent(fw, p) == Sent(fw, q)
  {
    var bp, bq := Built(fw, Sanitized(fw, Patched(p))), Built(fw, Sanitized(fw, Patched(q)));
    forall k
      ensures Get(bp, k) == Get(bq, k)
    {
      BuiltOf(fw, p, k);
      BuiltOf(fw, q, k);
      PatchedLookup(p, k);
      PatchedLookup(q, k);
      hide Built, Sanitized, Patched, Seed;
      if k in EIGHT {
        assert Get(p, k) == Get(q, k);
        assert Get(Patched(p), k) == Get(Patched(q), k);
      }
    }
    SameLookups(bp, bq);
  }

  /** ... and on each of them. */
  lemma EachOfTheEightMatters(fw: Framework, p: Params, k: Key, v: string, w: string)
    requires k in EIGHT && v != w && v != "" && w != "" && fw.accepts(v) && fw.accepts(w)
    requires fw.size(v) != Some((432, 320)) && fw.size(w) != Some((432, 320))
    ensures Sent(fw, p[k := v]) != Sent(fw, p[k := w])
  {
    PatchedLookup(p[k := v], k);
    PatchedLookup(p[k := w], k);
    BuiltOf(fw, p[k := v], k);
    BuiltOf(fw, p[k := w], k);
    hide Built, Sanitized, Patched, Seed;
    assert p[k := v][k] == v && p[k := w][k] == w;
    var bv, bw := Built(fw, Sanitized(fw, Patched(p[k := v]))), Built(fw, Sanitized(fw, Patched(p[k := w])));
    assert Get(bv, k) == Some(v) && Get(bw, k) == Some(w);
    assert k == PreviewSize ==> !Is432(fw, bv) && !Is432(fw, bw);
    assert Get(Remapped(fw, bv), k) == Some(v) && Get(Remapped(fw, bw), k) == Some(w);
  }

  // ------------------------------------------------------------------------- runs

  datatype Call = CallSet(p: Params, delegate: bool) | CallGet

  function Step(fw: Framework, s: State, c: Call): State {
    match c
    case CallSet(p, delegate) => Set(fw, s, p, delegate)
    case CallGet => GetCached(s).0
  }

  function Run(fw: Framework, s: State, cs: seq<Call>): State
    decreases |cs|
  {
    if cs == [] then s else Run(fw, Step(fw, s, cs[0]), cs[1..])
  }

  /** Whether the last set among the calls, or before them, was delegated. */
  predicate LastDelegated(cs: seq<Call>, before: bool)
    decreases |cs|
  {
    if cs == [] then before else LastDelegated(cs[1..], if cs[0].CallSet? then cs[0].delegate else before)
  }

  predicate Consistent(fw: Framework, s: State) {
    s.good.Some? && s.sent.Some? && Agree(s.good.value, s.sent.value) && !Is432(fw, s.good.value)
  }

  /** On every run a sent map never holds a 432x320 preview, and while the last set
      was delegated the cache is the one that agrees with what was sent. */
  lemma {:induction false} RunIsConsistent(fw: Framework, s: State, cs: seq<Call>, before: bool)
    requires Sane(fw)
    requires s.sent.Some? ==> !Is432(fw, s.sent.value)
    requires before ==> Consistent(fw, s)
    ensures var t := Run(fw, s, cs);
            && (t.sent.Some? ==> !Is432(fw, t.sent.value))
            && (LastDelegated(cs, before) ==> Consistent(fw, t))
    decreases |cs|
  {
    if cs != [] {
      var c := cs[0];
      if c.CallSet? && c.delegate {
        DelegatedAgrees(fw, s, c.p);
      }
      hide Agree, Is432, Sanitized, Built, Patched;
      RunIsConsistent(fw, Step(fw, s, c), cs[1..], if c.CallSet? then c.delegate else before);
    }
  }
}
