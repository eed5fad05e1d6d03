/** What holds of the routing machine on every run. */
module RoutingProofs {
  import opened AudioSystem
  import opened Routing
  import opened Wrappers

  // -------------------------------------------------------------- hypotheses

  /** Every request on one channel succeeds. */
  ghost predicate AllSucceed(o: Oracle, c: Channel) {
    forall n :: o(c, n)
  }

  function PlainEndpoints(ep: Endpoints): set<int> {
    {ep.handset, ep.speaker, ep.bt, ep.headset, ep.sadcHandset, ep.sadcSpeaker,
     ep.ttyHeadset, ep.ttyHco, ep.ttyVco, ep.carkit}
  }

  function FmEndpoints(ep: Endpoints): set<int> {
    {ep.fmSpeaker, ep.fmHeadset, ep.fmAnalogSpeaker, ep.fmAnalogHeadset}
  }

  /** The FM endpoints exist and are not used for anything else. */
  ghost predicate FmDistinct(cfg: Config) {
    forall d | IsFm(cfg, d) :: d >= 0 && d != cfg.ep.current && d !in PlainEndpoints(cfg.ep)
  }

  /** No endpoint a route may choose is the pseudo endpoint CURRENT. */
  predicate CurrentDistinct(cfg: Config) {
    forall d | d in PlainEndpoints(cfg.ep) + FmEndpoints(cfg.ep) :: d != -1 ==> d != cfg.ep.current
  }

  /** Every endpoint the HAL looks up exists. The car kit is never looked up. */
  predicate AllPresent(cfg: Config) {
    && cfg.ep.handset >= 0 && cfg.ep.speaker >= 0 && cfg.ep.bt >= 0 && cfg.ep.headset >= 0
    && cfg.ep.sadcHandset >= 0 && cfg.ep.sadcSpeaker >= 0
    && cfg.ep.ttyHeadset >= 0 && cfg.ep.ttyHco >= 0 && cfg.ep.ttyVco >= 0
  }

  /** The outputs do not name a car kit there is no endpoint for. */
  predicate CarKitOk(outs: set<OutDevice>, cfg: Config) {
    BtScoCarkit in outs ==> cfg.ep.carkit >= 0
  }

  // -------------------------------------------------------------------- pins

  function PutRegs(regs: Regs, ws: seq<(int, int)>): Regs
    decreases |ws|
  {
    if ws == [] then regs else PutRegs(regs[ws[0].0 := ws[0].1], ws[1..])
  }

  lemma {:induction false} WriteRegsDone(regs: Regs, n: nat, o: Oracle, ws: seq<(int, int)>)
    ensures var r := WriteRegs(regs, n, o, ws);
            (r.ok ==> r.part == PutRegs(regs, ws)) && (AllSucceed(o, I2c) ==> r.ok)
    decreases |ws|
  {
    if ws != [] && o(I2c, n) {
      WriteRegsDone(regs[ws[0].0 := ws[0].1], n + 1, o, ws[1..]);
    }
  }

  lemma {:induction false} WriteRegsKeeps(regs: Regs, n: nat, o: Oracle, ws: seq<(int, int)>, r: int)
    requires forall i | 0 <= i < |ws| :: ws[i].0 != r
    ensures var t := WriteRegs(regs, n, o, ws).part;
            (r in t <==> r in regs) && (r in t ==> t[r] == regs[r])
    decreases |ws|
  {
    if ws != [] && o(I2c, n) {
      WriteRegsKeeps(regs[ws[0].0 := ws[0].1], n + 1, o, ws[1..], r);
    }
  }

  lemma {:induction false} PutRegsKeeps(regs: Regs, ws: seq<(int, int)>, r: int)
    requires r in regs && forall i | 0 <= i < |ws| :: ws[i].0 != r
    ensures var t := PutRegs(regs, ws); r in t && t[r] == regs[r]
    decreases |ws|
  {
    if ws != [] { PutRegsKeeps(regs[ws[0].0 := ws[0].1], ws[1..], r); }
  }

  lemma {:induction false} PutRegsGet(regs: Regs, ws: seq<(int, int)>, i: nat)
    requires i < |ws| && forall j | i < j < |ws| :: ws[j].0 != ws[i].0
    ensures var t := PutRegs(regs, ws); ws[i].0 in t && t[ws[i].0] == ws[i].1
    decreases |ws|
  {
    if i == 0 { PutRegsKeeps(regs[ws[0].0 := ws[0].1], ws[1..], ws[0].0); }
    else { PutRegsGet(regs[ws[0].0 := ws[0].1], ws[1..], i - 1); }
  }

  lemma PutPinWrites(regs: Regs, fmMode: bool)
    ensures var r := PutRegs(regs, PinWrites(fmMode)); if fmMode then PinsFm(r) else PinsBt(r)
  {
    hide PutRegs;
    var ws := PinWrites(fmMode);
    forall r | r in BT_PINS
      ensures var t := PutRegs(regs, ws); r in t && t[r] == ws[0].1
    {
      PutRegsGet(regs, ws, r - 0x88);
    }
    forall r | r in FM_PINS
      ensures var t := PutRegs(regs, ws); r in t && t[r] == ws[4].1
    {
      PutRegsGet(regs, ws, r - 0x8e + 4);
    }
  }

  /** A pin switch that reports success leaves exactly one group active, the other
      tristated, whatever happened on the bus before. */
  lemma PinSwitchCompletes(regs: Regs, n: nat, o: Oracle, fmMode: bool)
    ensures var r := OnBus(regs, n, o, PinWrites(fmMode));
            && (r.ok ==> if fmMode then PinsFm(r.part) && !PinsBt(r.part)
                         else PinsBt(r.part) && !PinsFm(r.part))
            && (AllSucceed(o, I2c) ==> r.ok)
  {
    WriteRegsDone(regs, n + 1, o, PinWrites(fmMode));
    PutPinWrites(regs, fmMode);
    assert 0x88 in BT_PINS;
  }

  /** The codec path registers are no pin registers. */
  lemma PathKeepsPins(regs: Regs, n: nat, o: Oracle)
    ensures PinsFm(regs) ==> PinsFm(OnBus(regs, n, o, PATH_WRITES).part)
  {
    if PinsFm(regs) {
      var u := OnBus(regs, n, o, PATH_WRITES).part;
      forall r | r in BT_PINS + FM_PINS
        ensures r in u && u[r] == regs[r]
      {
        WriteRegsKeeps(regs, n + 1, o, PATH_WRITES, r);
        assert r in regs;
      }
      assert forall r | r in BT_PINS :: r in BT_PINS + FM_PINS;
      assert forall r | r in FM_PINS :: r in BT_PINS + FM_PINS;
    }
  }

  lemma RouteFrame(s: Hal, o: Oracle, cfg: Config, dev: int)
    ensures var t := Route(s, o, cfg, dev).0;
            t == s.(fmPrev := s.fm, sound := t.sound, regs := t.regs, tick := t.tick)
  {
    hide OnBus, RouteRpc, IsFm, EarMute;
  }

  /** Where a route leaves the pins when the register writes succeed. */
  lemma RouteMovesPins(s: Hal, o: Oracle, cfg: Config, dev: int)
    requires AllSucceed(o, I2c)
    ensures var t := Route(s, o, cfg, dev).0;
            var intoFm := s.fm && IsFm(cfg, dev) && dev != s.cur;
            var outOfFm := !s.fm && IsFm(cfg, s.cur) && !IsFm(cfg, dev);
            && (intoFm ==> PinsFm(t.regs))
            && (outOfFm ==> PinsBt(t.regs) && !PinsFm(t.regs))
            && (!intoFm && !outOfFm ==> t.regs == s.regs)
  {
    hide OnBus, PinsFm, PinsBt, PinWrites, IsFm;
    if s.fm {
      var n := RouteRpc(s.sound, s.tick, o, cfg, dev, false, false).tick;
      PinSwitchCompletes(s.regs, n, o, true);
      var switched := OnBus(s.regs, n, o, PinWrites(true));
      PathKeepsPins(switched.part, switched.tick, o);
    } else {
      PinSwitchCompletes(s.regs, s.tick, o, false);
    }
  }

  /** Where a route that reports success leaves the sound path; it does so whenever
      the requests to the sound endpoint succeed. */
  lemma RouteSetsSound(s: Hal, o: Oracle, cfg: Config, dev: int)
    ensures AllSucceed(o, Rpc) ==> Route(s, o, cfg, dev).1
    ensures var (t, ok) := Route(s, o, cfg, dev);
            ok ==> t.sound
                   == if dev == -1 then s.sound
                      else Sound(if dev == cfg.ep.current then s.sound.dev else dev,
                                 EarMute(s, cfg, dev), !s.fm && s.micMute)
  {
    hide OnBus, PinsFm, PinWrites, IsFm;
  }

  // ----------------------------------------------------------- post-processing

  lemma {:induction false} SendFiltersEffect(coef: map<Filter, nat>, n: nat, o: Oracle, fs: seq<Filter>, mask: bv16, id: nat)
    ensures var r := SendFilters(coef, n, o, fs, mask, id);
            && (r.ok ==> forall i | 0 <= i < |fs| && Has(mask, fs[i]) :: fs[i] in r.part && r.part[fs[i]] == id)
            && (AllSucceed(o, Pcm) ==> r.ok)
            && (forall f | f in coef && coef[f] == id :: f in r.part && r.part[f] == id)
    decreases |fs|
  {
    hide Has;
    if fs != [] {
      if !Has(mask, fs[0]) {
        SendFiltersEffect(coef, n, o, fs[1..], mask, id);
      } else if o(Pcm, n) {
        SendFiltersEffect(coef[fs[0] := id], n + 1, o, fs[1..], mask, id);
        assert fs[0] in coef[fs[0] := id];
      }
    }
  }

  lemma MaskOfMeans(fs: set<Filter>, f: Filter)
    ensures Has(MaskOf(fs), f) <==> f in fs
  {
  }

  lemma EnableMaskMeans(cfg: Config, mask: bv16, id: nat, f: Filter)
    ensures Has(EnableMask(cfg, mask, id), f) <==> Wanted(cfg, mask, id, f)
  {
    MaskOfMeans((set g | g in {Filter.Adrc, Filter.Eq, RxIir, Mbadrc} && Wanted(cfg, mask, id, g)), f);
  }

  /** Every enabled filter was wanted for the device and route mask of the last enable. */
  ghost predicate DspAllowed(d: Dsp, cfg: Config) {
    forall f | Has(d.mask, f) :: Wanted(cfg, d.forMask, d.forDevice, f)
  }

  /** Every enabled filter carries the coefficients of that device. */
  ghost predicate DspMatches(d: Dsp) {
    forall f | Has(d.mask, f) :: f in d.coef && d.coef[f] == d.forDevice
  }

  predicate DspExclusive(d: Dsp) {
    !(Has(d.mask, Filter.Adrc) && Has(d.mask, Mbadrc))
  }

  lemma NoFilters()
    ensures forall f :: !Has(0, f)
  {
  }

  /** The order of requests covers every filter. */
  lemma AllSent(coef: map<Filter, nat>, n: nat, o: Oracle, mask: bv16, id: nat)
    ensures var r := SendFilters(coef, n, o, SEND_ORDER, mask, id);
            && (r.ok ==> forall f | Has(mask, f) :: f in r.part && r.part[f] == id)
            && (AllSucceed(o, Pcm) ==> r.ok)
  {
    hide Has, SendFilters;
    SendFiltersEffect(coef, n, o, SEND_ORDER, mask, id);
    var r := SendFilters(coef, n, o, SEND_ORDER, mask, id);
    if r.ok {
      forall f | Has(mask, f) ensures f in r.part && r.part[f] == id {
        var i := match f case Mbadrc => 0 case Adrc => 1 case Eq => 2 case RxIir => 3;
        assert SEND_ORDER[i] == f;
      }
    }
  }

  lemma MultiBandWins(cfg: Config, mask: bv16, id: nat)
    ensures !(Wanted(cfg, mask, id, Filter.Adrc) && Wanted(cfg, mask, id, Mbadrc))
  {
  }

  /** Switching post-processing, for every oracle and when its own requests succeed. */
  lemma PostProcEffect(d: Dsp, n: nat, o: Oracle, cfg: Config, cur: int, route: bv16, on: bool)
    ensures var r := PostProcOf(d, n, o, cfg, cur, route, on).part;
            && (!cfg.parsed ==> r == d)
            && (DspExclusive(d) ==> DspExclusive(r))
            && (DspAllowed(d, cfg) ==> DspAllowed(r, cfg))
            && (AllSucceed(o, Pcm) && DspMatches(d) ==> DspMatches(r))
  {
    hide EnableMask, Wanted, SendFilters, Has, TableOf;
    NoFilters();
    var id := TableOf(cfg, cur);
    if cfg.parsed && id >= 0 && on {
      var mask := EnableMask(cfg, route, id);
      AllSent(d.coef, n + 1, o, mask, id);
      forall f ensures Has(mask, f) <==> Wanted(cfg, route, id, f) { EnableMaskMeans(cfg, route, id, f); }
      MultiBandWins(cfg, route, id);
    }
  }

  /** When its requests succeed, the DSP runs exactly the wanted filters, or none. */
  lemma PostProcExact(d: Dsp, n: nat, o: Oracle, cfg: Config, cur: int, route: bv16, on: bool, f: Filter)
    requires AllSucceed(o, Pcm) && cfg.parsed && TableOf(cfg, cur) >= 0
    ensures var r := PostProcOf(d, n, o, cfg, cur, route, on).part;
            Has(r.mask, f) <==> on && Wanted(cfg, route, TableOf(cfg, cur), f)
  {
    hide EnableMask, Wanted, SendFilters, Has, TableOf;
    NoFilters();
    var id := TableOf(cfg, cur);
    var mask := EnableMask(cfg, route, id);
    AllSent(d.coef, n + 1, o, mask, id);
    EnableMaskMeans(cfg, route, id, f);
  }

  // ------------------------------------------------- invariants of every run

  /** Opens minus closes of the session node is 1 while the descriptor is valid, else 0. */
  predicate Balanced(f: FmLink) {
    f.opens == f.closes + if f.valid then 1 else 0
  }

  lemma SessionBalanced(f: FmLink, n: nat, o: Oracle, on: bool)
    requires Balanced(f)
    ensures Balanced(Session(f, n, o, on).part)
  {
  }

  /** What holds for every pattern of failing calls: the cached device is the
      active one or forgotten, sessions are balanced, masks are in range, the two
      compressors exclude each other, only filters that route and flags allowed are
      on, and none without a parsed file. */
  ghost predicate Always(s: Hal, cfg: Config) {
    && (s.cur == -1 || s.cur == s.act)
    && Balanced(s.link)
    && s.mask & ALL_FILTERS == s.mask
    && DspExclusive(s.dsp)
    && DspAllowed(s.dsp, cfg)
    && (!cfg.parsed ==> s.dsp.mask == 0)
  }

  /** The driver plays where the HAL thinks it does. */
  predicate SoundAgrees(s: Hal) {
    s.act != -1 ==> s.sound.dev == s.act
  }

  /** While nothing plays every filter is off. */
  predicate IdleOff(s: Hal) {
    !s.playback ==> s.dsp.mask == 0
  }

  /** Exactly the filters are on that a route mask asks for and the flags of a device
      allow, the plain compressor only where the multi-band one is not taken. */
  ghost predicate FiltersFor(on: bv16, cfg: Config, mask: bv16, id: nat) {
    forall f ::
      Has(on, f) <==> Has(mask, f) && cfg.flags(id, f) && (f.Adrc? ==> !(Has(mask, Mbadrc) && cfg.flags(id, Mbadrc)))
  }

  /** The active endpoint has coefficient tables in a file that parsed. */
  predicate HasTables(s: Hal, cfg: Config) {
    cfg.parsed && TableOf(cfg, s.act) >= 0
  }

  /** While something plays on an endpoint with tables its filters are on, and no other. */
  ghost predicate PlaysFilters(s: Hal, cfg: Config) {
    && (s.cur == -1 || s.cur == s.act)
    && (s.playback && HasTables(s, cfg) ==> FiltersFor(s.dsp.mask, cfg, s.mask, TableOf(cfg, s.act)))
  }

  /** The pins are with FM whenever the cached device is an FM endpoint. */
  ghost predicate PinsFollow(s: Hal, cfg: Config) {
    IsFm(cfg, s.cur) ==> PinsFm(s.regs)
  }

  /** An FM endpoint is cached only while FM is on. */
  predicate FmOnlyOnFm(s: Hal, cfg: Config) {
    IsFm(cfg, s.cur) ==> s.fm
  }

  /** A route taken while playing leaves on exactly the filters of its endpoint. */
  lemma RouteSwitchesFilters(s: Hal, o: Oracle, cfg: Config, dev: int, mask: bv16)
    requires AllSucceed(o, Pcm) && cfg.parsed && s.playback
    requires dev != -1 && (dev != s.cur || s.fm != s.fmPrev) && TableOf(cfg, dev) >= 0
    ensures var t := Adopt(s, o, cfg, dev, mask).0;
            t.playback && t.cur == t.act == dev && t.mask == mask && FiltersFor(t.dsp.mask, cfg, mask, TableOf(cfg, dev))
  {
    hide PostProcOf, OnBus, RouteRpc, IsFm, EarMute, Has, TableOf;
    var t := Route(s, o, cfg, dev).0;
    var u := PostProc(t, o, cfg, false).0;
    forall f
      ensures Has(PostProcOf(u.dsp, u.tick, o, cfg, dev, mask, true).part.mask, f) <==> Wanted(cfg, mask, TableOf(cfg, dev), f)
    {
      PostProcExact(u.dsp, u.tick, o, cfg, dev, mask, true, f);
    }
  }

  lemma SwitchingOff(s: Hal, o: Oracle, cfg: Config)
    requires AllSucceed(o, Pcm)
    ensures PostProcOf(s.dsp, s.tick, o, cfg, s.cur, s.mask, false).part.mask
            == if cfg.parsed && TableOf(cfg, s.cur) >= 0 then 0 else s.dsp.mask
  {
    hide TableOf;
  }

  lemma NoTablesNoChange(d: Dsp, n: nat, o: Oracle, cfg: Config, cur: int, route: bv16)
    requires TableOf(cfg, cur) < 0
    ensures PostProcOf(d, n, o, cfg, cur, route, true).part == d
  {
    hide TableOf;
  }

  /** One that goes to an endpoint without tables from one with tables leaves none on. */
  lemma RouteSwitchesOff(s: Hal, o: Oracle, cfg: Config, dev: int, mask: bv16)
    requires AllSucceed(o, Pcm) && cfg.parsed && s.playback
    requires dev != -1 && dev != s.cur && TableOf(cfg, s.cur) >= 0 && TableOf(cfg, dev) < 0
    ensures Adopt(s, o, cfg, dev, mask).0.dsp.mask == 0
  {
    hide PostProcOf, OnBus, RouteRpc, IsFm, EarMute, TableOf;
    var t := Route(s, o, cfg, dev).0;
    SwitchingOff(t, o, cfg);
    var u := PostProc(t, o, cfg, false).0;
    NoTablesNoChange(u.dsp, u.tick, o, cfg, dev, mask);
  }

  lemma AdoptPlays(s: Hal, o: Oracle, cfg: Config, dev: int, mask: bv16)
    requires AllSucceed(o, Pcm) && PlaysFilters(s, cfg)
    ensures PlaysFilters(Adopt(s, o, cfg, dev, mask).0, cfg)
  {
    hide PostProcOf, Route, FiltersFor, TableOf;
    RouteFrame(s, o, cfg, dev);
    if s.playback && cfg.parsed && dev != -1 && (dev != s.cur || s.fm != s.fmPrev) && TableOf(cfg, dev) >= 0 {
      RouteSwitchesFilters(s, o, cfg, dev, mask);
    }
  }

  /** The two FM endpoints of the path the HAL is set to. */
  function FmPair(cfg: Config): set<int> {
    if cfg.analog then {cfg.ep.fmAnalogSpeaker, cfg.ep.fmAnalogHeadset} else {cfg.ep.fmSpeaker, cfg.ep.fmHeadset}
  }

  /** A cached FM endpoint is one of the path in use. */
  predicate OnFmPath(s: Hal, cfg: Config) {
    IsFm(cfg, s.cur) ==> s.cur in FmPair(cfg)
  }

  /** The first option that applies, or the last resort. */
  lemma {:induction false} FirstOfIs<T>(options: seq<(bool, T)>, last: T, i: nat)
    requires i <= |options| && forall j | 0 <= j < i :: !options[j].0
    requires i < |options| ==> options[i].0
    ensures FirstOf(options, last) == if i < |options| then options[i].1 else last
    decreases |options|
  {
    if i > 0 { FirstOfIs(options[1..], last, i - 1); }
  }

  lemma {:induction false} FirstOfIndex<T>(options: seq<(bool, T)>, last: T) returns (i: nat)
    ensures i <= |options| && (forall j | 0 <= j < i :: !options[j].0) && (i < |options| ==> options[i].0)
    ensures FirstOf(options, last) == if i < |options| then options[i].1 else last
    decreases |options|
  {
    if options == [] || options[0].0 { i := 0; }
    else {
      i := FirstOfIndex(options[1..], last);
      i := i + 1;
    }
  }

  predicate InRange(m: bv16) {
    m & ALL_FILTERS == m
  }

  lemma KnownMasks(s: Hal)
    ensures InRange(0) && InRange(ALL_FILTERS) && InRange(EQ_AND_IIR) && InRange(HeadsetMask(s.headsetProp))
  {
  }

  lemma InputMaskInRange(s: Hal, cfg: Config, ins: set<InDevice>)
    ensures InRange(PreferredInput(s, cfg, ins).1)
  {
    KnownMasks(s);
    var i := FirstOfIndex(InputOptions(s, cfg, ins), (cfg.ep.handset, 0));
    hide InRange, HeadsetMask, FirstOf;
  }

  lemma OutputMaskInRange(s: Hal, before: bv16)
    requires InRange(before)
    ensures InRange(OutputMask(s, before))
  {
    KnownMasks(s);
    var i := FirstOfIndex(MaskOptions(s, before), ALL_FILTERS);
    hide InRange, HeadsetMask, FirstOf;
  }

  lemma MasksInRange(s: Hal, cfg: Config, ins: set<InDevice>)
    ensures Choose(s, cfg, ins).1 & ALL_FILTERS == Choose(s, cfg, ins).1
  {
    KnownMasks(s);
    InputMaskInRange(s, cfg, ins);
    var (_, before) := PreferredInput(s, cfg, ins);
    OutputMaskInRange(s, before);
    hide HeadsetMask, PreferredInput, OutputMask, PreferredOutput;
  }

  lemma AdoptKeepsAlways(s: Hal, o: Oracle, cfg: Config, dev: int, mask: bv16)
    requires Always(s, cfg) && mask & ALL_FILTERS == mask
    ensures Always(Adopt(s, o, cfg, dev, mask).0, cfg)
  {
    hide PostProcOf, OnBus, RouteRpc, DspExclusive, DspAllowed, IsFm, EarMute, DspMatches;
    var t := Route(s, o, cfg, dev).0;
    PostProcEffect(t.dsp, t.tick, o, cfg, t.cur, t.mask, false);
    var u := if t.playback then PostProc(t, o, cfg, false).0 else t;
    PostProcEffect(u.dsp, u.tick, o, cfg, dev, mask, true);
  }

  lemma AdoptKeepsSound(s: Hal, o: Oracle, cfg: Config, dev: int, mask: bv16)
    requires AllSucceed(o, Rpc) && CurrentDistinct(cfg) && SoundAgrees(s)
    requires dev == -1 || dev in PlainEndpoints(cfg.ep) + FmEndpoints(cfg.ep)
    ensures SoundAgrees(Adopt(s, o, cfg, dev, mask).0)
  {
    hide PostProcOf, OnBus, RouteRpc, IsFm, EarMute, AllSucceed, PlainEndpoints, FmEndpoints;
    RouteSetsSound(s, o, cfg, dev);
  }

  lemma AdoptKeepsCoefficients(s: Hal, o: Oracle, cfg: Config, dev: int, mask: bv16)
    requires AllSucceed(o, Pcm) && DspMatches(s.dsp)
    ensures DspMatches(Adopt(s, o, cfg, dev, mask).0.dsp)
  {
    hide PostProcOf, OnBus, RouteRpc, IsFm, EarMute, DspMatches, AllSucceed;
    var t := Route(s, o, cfg, dev).0;
    PostProcEffect(t.dsp, t.tick, o, cfg, t.cur, t.mask, false);
    var u := if t.playback then PostProc(t, o, cfg, false).0 else t;
    PostProcEffect(u.dsp, u.tick, o, cfg, dev, mask, true);
  }

  lemma AdoptKeepsIdle(s: Hal, o: Oracle, cfg: Config, dev: int, mask: bv16)
    requires IdleOff(s)
    ensures IdleOff(Adopt(s, o, cfg, dev, mask).0)
  {
    hide PostProcOf, OnBus, RouteRpc, IsFm, EarMute;
  }

  lemma InputChoice(s: Hal, cfg: Config, ins: set<InDevice>)
    ensures var d := PreferredInput(s, cfg, ins).0;
            (ins == {} ==> d == -1) && (ins != {} ==> d in {cfg.ep.bt, cfg.ep.headset, cfg.ep.speaker, cfg.ep.handset})
  {
    hide FirstOf;
    var i := FirstOfIndex(InputOptions(s, cfg, ins), (cfg.ep.handset, 0));
  }

  lemma OutputChoice(s: Hal, cfg: Config)
    ensures var d := PreferredOutput(s, cfg);
            && (if s.fm then d in FmEndpoints(cfg.ep) && d in FmPair(cfg) && IsFm(cfg, d) else d in PlainEndpoints(cfg.ep))
            && (AllPresent(cfg) && CarKitOk(s.outs, cfg) && !s.fm ==> d >= 0)
  {
    hide FirstOf;
    var options := OutputOptions(s, cfg);
    var i := FirstOfIndex(options, cfg.ep.handset);
    assert s.fm ==> options[1].0;
    assert s.fm ==> i < 2;
    assert !s.fm ==> !options[0].0 && !options[1].0;
    assert !s.fm && i == 6 ==> options[6].0;
  }

  /** A route goes to a looked-up endpoint or nowhere. */
  lemma ChoiceIsEndpoint(s: Hal, cfg: Config, ins: set<InDevice>)
    ensures var dev := Choose(s, cfg, ins).0;
            dev == -1 || dev in PlainEndpoints(cfg.ep) + FmEndpoints(cfg.ep)
  {
    hide PreferredOutput, PreferredInput;
    OutputChoice(s, cfg);
    InputChoice(s, cfg, ins);
    hide FmEndpoints;
  }

  /** The endpoint of an output or input route is FM exactly when FM is on and the
      outputs decide. */
  lemma ChoiceIsFm(s: Hal, cfg: Config, ins: set<InDevice>)
    requires FmDistinct(cfg)
    ensures var dev := Choose(s, cfg, ins).0;
            && (IsFm(cfg, dev) ==> s.fm && dev in FmPair(cfg))
            && (ins == {} && s.fm ==> IsFm(cfg, dev))
            && (AllPresent(cfg) && CarKitOk(s.outs, cfg) ==> dev != -1)
  {
    hide PreferredOutput, PreferredInput, FmPair;
    OutputChoice(s, cfg);
    InputChoice(s, cfg, ins);
  }

  // -------------------------------------------------- one call, then all runs

  /** The invariants above, each with the hypothesis it needs. */
  datatype Which =
    | Unconditional | SoundPath | Coefficients | Idle | Playing | FmPath | Pins | PinsAndOutputs | PinsAndFm

  ghost predicate Holds(w: Which, s: Hal, cfg: Config) {
    match w
    case Unconditional => Always(s, cfg)
    case SoundPath => SoundAgrees(s)
    case Coefficients => DspMatches(s.dsp)
    case Idle => IdleOff(s)
    case Playing => PlaysFilters(s, cfg)
    case FmPath => OnFmPath(s, cfg)
    case Pins => PinsFollow(s, cfg)
    case PinsAndOutputs => PinsFollow(s, cfg) && CarKitOk(s.outs, cfg)
    case PinsAndFm => PinsFollow(s, cfg) && FmOnlyOnFm(s, cfg) && CarKitOk(s.outs, cfg)
  }

  predicate AboutPins(w: Which) {
    w.Pins? || w.PinsAndOutputs? || w.PinsAndFm?
  }

  ghost predicate Hypothesis(w: Which, o: Oracle, cfg: Config) {
    && (w.SoundPath? ==> AllSucceed(o, Rpc) && CurrentDistinct(cfg))
    && (w.Coefficients? || w.Idle? || w.Playing? ==> AllSucceed(o, Pcm))
    && (AboutPins(w) ==> AllSucceed(o, I2c))
    && (w.FmPath? || AboutPins(w) ==> FmDistinct(cfg))
    && (w.PinsAndFm? ==> AllPresent(cfg))
  }

  predicate OpOk(op: Op, cfg: Config) {
    op.OpOpenOutput? || op.OpRouteOutput? ==> CarKitOk(op.outs, cfg)
  }

  function WithoutFm(w: Which): Which {
    if w.PinsAndFm? then PinsAndOutputs else w
  }

  lemma AdoptSetsCur(s: Hal, o: Oracle, cfg: Config, dev: int, mask: bv16)
    ensures Adopt(s, o, cfg, dev, mask).0.cur in {s.cur, dev}
  {
    hide Route, PostProcOf;
  }

  lemma AdoptMovesPins(s: Hal, o: Oracle, cfg: Config, dev: int, mask: bv16)
    requires AllSucceed(o, I2c) && FmDistinct(cfg) && PinsFollow(s, cfg) && (IsFm(cfg, dev) ==> s.fm)
    ensures PinsFollow(Adopt(s, o, cfg, dev, mask).0, cfg)
    ensures dev != -1 ==> FmOnlyOnFm(Adopt(s, o, cfg, dev, mask).0, cfg)
    ensures Adopt(s, o, cfg, dev, mask).0.fm == s.fm && Adopt(s, o, cfg, dev, mask).0.outs == s.outs
  {
    hide PostProcOf, OnBus, RouteRpc, PinsBt, PinsFm, EarMute, IsFm;
    RouteMovesPins(s, o, cfg, dev);
  }

  lemma AdoptKeeps(w: Which, s: Hal, o: Oracle, cfg: Config, dev: int, mask: bv16)
    requires Hypothesis(w, o, cfg) && Holds(WithoutFm(w), s, cfg) && mask & ALL_FILTERS == mask
    requires w.SoundPath? ==> dev == -1 || dev in PlainEndpoints(cfg.ep) + FmEndpoints(cfg.ep)
    requires w.FmPath? && IsFm(cfg, dev) ==> dev in FmPair(cfg)
    requires w.PinsAndFm? ==> dev != -1
    requires AboutPins(w) ==> (IsFm(cfg, dev) ==> s.fm)
    ensures Holds(w, Adopt(s, o, cfg, dev, mask).0, cfg)
  {
    hide Always, SoundAgrees, PinsFollow, FmOnlyOnFm, Adopt, IsFm, PlainEndpoints, FmEndpoints, CurrentDistinct;
    match w {
      case Unconditional => AdoptKeepsAlways(s, o, cfg, dev, mask);
      case SoundPath => AdoptKeepsSound(s, o, cfg, dev, mask);
      case Coefficients => AdoptKeepsCoefficients(s, o, cfg, dev, mask);
      case Idle => AdoptKeepsIdle(s, o, cfg, dev, mask);
      case Playing => AdoptPlays(s, o, cfg, dev, mask);
      case FmPath => AdoptSetsCur(s, o, cfg, dev, mask);
      case _ => AdoptMovesPins(s, o, cfg, dev, mask);
    }
  }

  lemma OutputKeeps(w: Which, s: Hal, o: Oracle, cfg: Config)
    requires Hypothesis(w, o, cfg) && Holds(WithoutFm(w), s, cfg)
    ensures Holds(w, RouteOutput(s, o, cfg).0, cfg)
  {
    hide Always, SoundAgrees, PinsFollow, FmOnlyOnFm, Adopt, Choose, IsFm, PlainEndpoints, FmEndpoints, CurrentDistinct, AllPresent;
    MasksInRange(s, cfg, {});
    ChoiceIsEndpoint(s, cfg, {});
    if w.FmPath? || AboutPins(w) { ChoiceIsFm(s, cfg, {}); }
    var (dev, mask) := Choose(s, cfg, {});
    AdoptKeeps(w, s, o, cfg, dev, mask);
  }

  lemma InputKeeps(w: Which, s: Hal, o: Oracle, cfg: Config, ins: set<InDevice>)
    requires Hypothesis(w, o, cfg) && Holds(w, s, cfg)
    ensures Holds(w, RouteInput(s, o, cfg, ins).0, cfg)
  {
    hide Adopt, Choose, IsFm, PlainEndpoints, FmEndpoints, CurrentDistinct, AllPresent, PinsFm, DspMatches, DspAllowed, DspExclusive;
    var t := s.(builtinMic := ins == {BuiltinMic});
    MasksInRange(t, cfg, ins);
    ChoiceIsEndpoint(t, cfg, ins);
    if w.FmPath? || AboutPins(w) { ChoiceIsFm(t, cfg, ins); }
    var (dev, mask) := Choose(t, cfg, ins);
    AdoptKeeps(w, t, o, cfg, dev, mask);
  }

  lemma NameKeeps(w: Which, s: Hal, o: Oracle, cfg: Config, p: Params)
    requires Hypothesis(w, o, cfg) && Holds(w, s, cfg)
    ensures Holds(w, OnName(s, o, cfg, p), cfg)
  {
    hide RouteOutput, IsFm, PinsFm, DspMatches, DspAllowed, DspExclusive;
    var t := if p.btName.Some? then s.(btId := p.btName.value) else s;
    OutputKeeps(w, t, o, cfg);
  }

  lemma DualMicKeeps(w: Which, s: Hal, o: Oracle, cfg: Config, p: Params)
    requires Hypothesis(w, o, cfg) && Holds(w, s, cfg)
    ensures Holds(w, OnDualMic(s, o, cfg, p), cfg)
  {
    hide RouteOutput, IsFm, PinsFm, DspMatches, DspAllowed, DspExclusive;
    if p.dualMic.Some? { OutputKeeps(w, s.(dualMic := p.dualMic.value), o, cfg); }
  }

  lemma SetFmKeeps(w: Which, s: Hal, o: Oracle, cfg: Config, on: bool)
    requires Holds(WithoutFm(w), s, cfg)
    ensures Holds(WithoutFm(w), SetFm(s, o, on), cfg)
  {
    hide IsFm, PinsFm, DspMatches, DspAllowed, DspExclusive, Session, Balanced;
    if w.Unconditional? { SessionBalanced(s.link, s.tick, o, on); }
  }

  lemma FmKeeps(w: Which, s: Hal, o: Oracle, cfg: Config, p: Params)
    requires Holds(w, s, cfg)
    ensures Holds(WithoutFm(w), OnFm(s, o, p), cfg)
  {
    hide Always, SoundAgrees, PinsFollow, FmOnlyOnFm, SetFm;
    SetFmKeeps(w, s, o, cfg, true);
    SetFmKeeps(w, if p.fmOn then SetFm(s, o, true) else s, o, cfg, false);
  }

  lemma FlagKeysKeep(w: Which, s: Hal, cfg: Config, p: Params)
    requires Holds(w, s, cfg)
    ensures Holds(w, OnNrec(s, p), cfg) && Holds(w, OnTty(s, p), cfg)
  {
    hide IsFm, PinsFm, DspMatches, DspAllowed, DspExclusive, Balanced, FmPair;
  }

  lemma SetParametersKeeps(w: Which, s: Hal, o: Oracle, cfg: Config, p: Params)
    requires Hypothesis(w, o, cfg) && Holds(w, s, cfg)
    ensures Holds(w, SetParameters(s, o, cfg, p), cfg)
  {
    hide RouteOutput, OnNrec, OnName, OnDualMic, OnTty, OnFm, Holds, Hypothesis;
    FlagKeysKeep(w, s, cfg, p);
    NameKeeps(w, OnNrec(s, p), o, cfg, p);
    var u := OnName(OnNrec(s, p), o, cfg, p);
    DualMicKeeps(w, u, o, cfg, p);
    var v := OnDualMic(u, o, cfg, p);
    FlagKeysKeep(w, v, cfg, p);
    var t := OnTty(v, p);
    FmKeeps(w, t, o, cfg, p);
    OutputKeeps(w, OnFm(t, o, p), o, cfg);
  }

  /** The call that loses the pins: the microphone mute changes while FM is off and
      the cached device is still an FM endpoint. */
  predicate LosesPins(s: Hal, cfg: Config, op: Op) {
    && !s.fm && IsFm(cfg, s.cur)
    && match op
       case OpSetMicMute(b) => b != s.micMute
       case OpCheckMicMute => s.mode != InCall && !s.micMute
       case _ => false
  }

  predicate EndsPlayback(op: Op) {
    op.OpPlaybackFailed? || op.OpPlaybackStopped?
  }

  /** The call that leaves filters on with nothing playing: playback ends while the
      cached endpoint, forgotten for instance, has no coefficient tables. */
  predicate LeavesFilters(s: Hal, cfg: Config, op: Op) {
    EndsPlayback(op) && s.dsp.mask != 0 && (!cfg.parsed || TableOf(cfg, s.cur) < 0)
  }

  /** The call that plays without its filters: playback starts after the endpoint was
      forgotten and before the next route, and the DSP is not as the active one wants it. */
  predicate StartsBlind(s: Hal, cfg: Config, op: Op) {
    op.OpPlaybackStarted? && s.cur == -1 && HasTables(s, cfg)
    && s.dsp.mask & ALL_FILTERS != EnableMask(cfg, s.mask, TableOf(cfg, s.act))
  }

  lemma MicMovesPins(s: Hal, o: Oracle, cfg: Config, muted: bool)
    requires AllSucceed(o, I2c) && FmDistinct(cfg) && PinsFollow(s, cfg)
    ensures var t := SetMicMute(s, o, cfg, muted).0;
            && t.cur == s.cur && t.fm == s.fm && t.outs == s.outs
            && (PinsFollow(t, cfg) <==> s.micMute == muted || s.fm || !IsFm(cfg, s.cur))
  {
    hide OnBus, RouteRpc, PinsBt, PinsFm, EarMute;
    RouteMovesPins(s.(micMute := muted), o, cfg, cfg.ep.current);
  }

  lemma MicKeeps(w: Which, s: Hal, o: Oracle, cfg: Config, muted: bool)
    requires Hypothesis(w, o, cfg) && Holds(w, s, cfg)
    requires AboutPins(w) ==> s.micMute == muted || s.fm || !IsFm(cfg, s.cur)
    ensures Holds(w, SetMicMute(s, o, cfg, muted).0, cfg)
  {
    hide Route, IsFm, DspMatches, DspAllowed, DspExclusive, PinsFm, EarMute;
    var u := s.(micMute := muted);
    RouteFrame(u, o, cfg, cfg.ep.current);
    match w {
      case Unconditional =>
      case SoundPath => RouteSetsSound(u, o, cfg, cfg.ep.current);
      case Coefficients =>
      case Idle =>
      case Playing =>
      case FmPath =>
      case _ => MicMovesPins(s, o, cfg, muted);
    }
  }

  lemma ForgetKeeps(w: Which, s: Hal, o: Oracle, cfg: Config)
    requires Hypothesis(w, o, cfg) && Holds(w, s, cfg)
    ensures Holds(w, s.(cur := -1), cfg)
  {
  }

  lemma KnownHas(a: bv16, f: Filter)
    ensures Has(a & ALL_FILTERS, f) == Has(a, f)
  {
  }

  lemma WantedIsIn(on: bv16, cfg: Config, mask: bv16, id: nat, fs: set<Filter>)
    requires fs == set f | f in {Filter.Adrc, Filter.Eq, RxIir, Mbadrc} && Wanted(cfg, mask, id, f)
    ensures FiltersFor(on, cfg, mask, id) <==> forall f :: Has(on, f) <==> f in fs
  {
    hide Has;
    assert forall f :: f in fs <==> Wanted(cfg, mask, id, f);
  }

  lemma KnownBits(on: bv16)
    ensures on & ALL_FILTERS & ALL_FILTERS == on & ALL_FILTERS
  {
  }

  lemma MaskBits(fs: set<Filter>, m: bv16)
    requires m & ALL_FILTERS == m
    requires forall f :: f in fs <==> Has(m, f)
    ensures m == MaskOf(fs)
  {
    assert Has(m, Filter.Adrc) == (Filter.Adrc in fs) && Has(m, Filter.Eq) == (Filter.Eq in fs);
    assert Has(m, RxIir) == (RxIir in fs) && Has(m, Mbadrc) == (Mbadrc in fs);
  }

  /** A mask is exact if and only if its known bits are those of the wanted filters. */
  lemma ExactMask(on: bv16, cfg: Config, mask: bv16, id: nat)
    ensures FiltersFor(on, cfg, mask, id) <==> on & ALL_FILTERS == EnableMask(cfg, mask, id)
  {
    var fs := set f | f in {Filter.Adrc, Filter.Eq, RxIir, Mbadrc} && Wanted(cfg, mask, id, f);
    forall f ensures Has(on & ALL_FILTERS, f) == Has(on, f) { KnownHas(on, f); }
    forall f ensures Has(MaskOf(fs), f) <==> f in fs { MaskOfMeans(fs, f); }
    KnownBits(on);
    hide Has, MaskOf, FiltersFor;
    WantedIsIn(on, cfg, mask, id, fs);
    if FiltersFor(on, cfg, mask, id) { MaskBits(fs, on & ALL_FILTERS); }
  }

  lemma StartExact(s: Hal, o: Oracle, cfg: Config)
    requires AllSucceed(o, Pcm) && cfg.parsed && TableOf(cfg, s.cur) >= 0
    ensures FiltersFor(PostProc(s, o, cfg, true).0.dsp.mask, cfg, s.mask, TableOf(cfg, s.cur))
  {
    hide PostProcOf, Has, TableOf;
    forall f
      ensures Has(PostProc(s, o, cfg, true).0.dsp.mask, f) <==> Wanted(cfg, s.mask, TableOf(cfg, s.cur), f)
    {
      PostProcExact(s.dsp, s.tick, o, cfg, s.cur, s.mask, true, f);
    }
  }

  lemma KnownStartPlays(s: Hal, o: Oracle, cfg: Config)
    requires AllSucceed(o, Pcm) && PlaysFilters(s, cfg) && s.cur != -1
    ensures PlaysFilters(PlaybackStarted(s, o, cfg), cfg)
  {
    hide Has, FiltersFor, PostProcOf, TableOf;
    if HasTables(s, cfg) { StartExact(s.(playback := true), o, cfg); }
  }

  lemma ForgottenHasNone(cfg: Config)
    ensures TableOf(cfg, -1) == -1
  {
  }

  lemma ForgottenStart(s: Hal, o: Oracle, cfg: Config)
    requires s.cur == -1
    ensures var t := PlaybackStarted(s, o, cfg);
            t.playback && t.dsp == s.dsp && t.cur == s.cur && t.act == s.act && t.mask == s.mask
  {
    ForgottenHasNone(cfg);
    hide PostProcOf, TableOf;
    NoTablesNoChange(s.dsp, s.tick, o, cfg, -1, s.mask);
  }

  lemma ForgottenStartPlays(s: Hal, o: Oracle, cfg: Config)
    requires AllSucceed(o, Pcm) && PlaysFilters(s, cfg) && s.cur == -1
    ensures PlaysFilters(PlaybackStarted(s, o, cfg), cfg) <==> !StartsBlind(s, cfg, OpPlaybackStarted)
  {
    hide FiltersFor, PlaybackStarted, TableOf, EnableMask;
    ForgottenStart(s, o, cfg);
    ExactMask(s.dsp.mask, cfg, s.mask, if TableOf(cfg, s.act) >= 0 then TableOf(cfg, s.act) else 0);
  }

  lemma PlaybackPlays(s: Hal, o: Oracle, cfg: Config, op: Op)
    requires AllSucceed(o, Pcm) && PlaysFilters(s, cfg)
    requires op.OpPlaybackStarted? || op.OpPlaybackFailed? || op.OpPlaybackStopped?
    ensures PlaysFilters(Step(s, o, cfg, op), cfg) <==> !StartsBlind(s, cfg, op)
  {
    hide FiltersFor, EnableMask, PostProcOf, TableOf;
    if op.OpPlaybackStarted? {
      if s.cur == -1 { ForgottenStartPlays(s, o, cfg); } else { KnownStartPlays(s, o, cfg); }
    }
  }

  lemma PlaybackKeeps(w: Which, s: Hal, o: Oracle, cfg: Config, op: Op)
    requires Hypothesis(w, o, cfg) && Holds(w, s, cfg)
    requires op.OpPlaybackStarted? || op.OpPlaybackFailed? || op.OpPlaybackStopped?
    requires w.Idle? ==> !LeavesFilters(s, cfg, op)
    requires w.Playing? ==> !StartsBlind(s, cfg, op)
    ensures Holds(w, Step(s, o, cfg, op), cfg)
  {
    hide PostProcOf, PlaysFilters, IsFm, PinsFm, DspMatches, DspAllowed, DspExclusive, TableOf;
    if w.Idle? {
      SwitchingOff(s, o, cfg);
    } else if w.Playing? {
      PlaybackPlays(s, o, cfg, op);
    } else {
      PostProcEffect(s.dsp, s.tick, o, cfg, s.cur, s.mask, op.OpPlaybackStarted?);
    }
  }

  lemma OutsKeep(w: Which, s: Hal, cfg: Config, outs: set<OutDevice>)
    requires Holds(w, s, cfg)
    requires w.PinsAndOutputs? || w.PinsAndFm? ==> CarKitOk(outs, cfg)
    ensures Holds(w, s.(outs := outs), cfg)
  {
    hide IsFm, PinsFm, DspMatches, DspAllowed, DspExclusive, Balanced, FmPair;
  }

  /** The calls that only set a field. */
  predicate SetsAField(op: Op) {
    op.OpSetMode? || op.OpOpenOutput? || op.OpCloseOutput? || op.OpSetProperty?
  }

  lemma FieldKeeps(w: Which, s: Hal, o: Oracle, cfg: Config, op: Op)
    requires Hypothesis(w, o, cfg) && Holds(w, s, cfg) && SetsAField(op)
    requires w.PinsAndOutputs? || w.PinsAndFm? ==> OpOk(op, cfg)
    ensures Holds(w, Step(s, o, cfg, op), cfg)
  {
    hide IsFm, PinsFm, DspMatches, DspAllowed, DspExclusive, Balanced, FmPair;
  }

  lemma ThenOutputKeeps(w: Which, s: Hal, o: Oracle, cfg: Config)
    requires Hypothesis(w, o, cfg) && Holds(w, s, cfg)
    ensures Holds(w, RouteOutput(s, o, cfg).0, cfg)
  {
    hide RouteOutput, Hypothesis, Always, SoundAgrees, PinsFollow, FmOnlyOnFm, OnFmPath;
    OutputKeeps(w, s, o, cfg);
  }

  /** The calls about streams and parameters. */
  lemma StreamCallKeeps(w: Which, s: Hal, o: Oracle, cfg: Config, op: Op)
    requires Hypothesis(w, o, cfg) && Holds(w, s, cfg)
    requires op.OpSetParameters? || op.OpRouteOutput? || op.OpStartInput? || op.OpRouteInput? || op.OpStandbyInput?
    requires w.PinsAndOutputs? || w.PinsAndFm? ==> OpOk(op, cfg)
    ensures Holds(w, Step(s, o, cfg, op), cfg)
  {
    hide RouteOutput, RouteInput, SetParameters, Holds, Hypothesis;
    match op {
      case OpSetParameters(p) => SetParametersKeeps(w, s, o, cfg, p);
      case OpRouteOutput(d, p) =>
        OutsKeep(w, s, cfg, d);
        SetParametersKeeps(w, s.(outs := d), o, cfg, p);
        ThenOutputKeeps(w, SetParameters(s.(outs := d), o, cfg, p), o, cfg);
      case OpStartInput(ins) =>
        ForgetKeeps(w, s, o, cfg);
        InputKeeps(w, s.(cur := -1), o, cfg, ins);
      case OpRouteInput(ins) => InputKeeps(w, s, o, cfg, ins);
      case OpStandbyInput =>
        ForgetKeeps(w, s, o, cfg);
        ThenOutputKeeps(w, s.(cur := -1), o, cfg);
      case _ =>
    }
  }

  lemma MicCallKeeps(w: Which, s: Hal, o: Oracle, cfg: Config, op: Op)
    requires Hypothesis(w, o, cfg) && Holds(w, s, cfg)
    requires op.OpSetMicMute? || op.OpCheckMicMute?
    requires AboutPins(w) ==> !LosesPins(s, cfg, op)
    ensures Holds(w, Step(s, o, cfg, op), cfg)
  {
    hide SetMicMute, Holds, Hypothesis, IsFm;
    if op.OpSetMicMute? {
      MicKeeps(w, s, o, cfg, op.muted);
    } else if s.mode != InCall {
      MicKeeps(w, s, o, cfg, true);
    }
  }

  /** Every public call keeps each invariant; the pins, unless it loses them, and
      silence, unless it leaves filters on. */
  lemma StepKeeps(w: Which, s: Hal, o: Oracle, cfg: Config, op: Op)
    requires Hypothesis(w, o, cfg) && Holds(w, s, cfg)
    requires AboutPins(w) ==> !LosesPins(s, cfg, op)
    requires w.Idle? ==> !LeavesFilters(s, cfg, op)
    requires w.Playing? ==> !StartsBlind(s, cfg, op)
    requires w.PinsAndOutputs? || w.PinsAndFm? ==> OpOk(op, cfg)
    ensures Holds(w, Step(s, o, cfg, op), cfg)
  {
    if op.OpSetMicMute? || op.OpCheckMicMute? {
      MicCallKeeps(w, s, o, cfg, op);
    } else if op.OpPlaybackStarted? || op.OpPlaybackFailed? || op.OpPlaybackStopped? {
      PlaybackKeeps(w, s, o, cfg, op);
    } else if SetsAField(op) {
      FieldKeeps(w, s, o, cfg, op);
    } else {
      StreamCallKeeps(w, s, o, cfg, op);
    }
    hide *;
  }

  /** For every answer of the drivers, a public call keeps what always holds. */
  lemma StepKeepsAlways(s: Hal, o: Oracle, cfg: Config, op: Op)
    requires Always(s, cfg)
    ensures Always(Step(s, o, cfg, op), cfg)
  {
    StepKeeps(Unconditional, s, o, cfg, op);
    hide Always, Step;
  }

  lemma AlwaysKnowsMask(s: Hal, cfg: Config)
    requires Always(s, cfg)
    ensures s.mask & ALL_FILTERS == s.mask
  {
    hide DspAllowed, DspExclusive, Balanced;
  }

  lemma InitiallyFine(w: Which, o: Oracle, cfg: Config)
    requires Hypothesis(w, o, cfg)
    ensures Holds(w, INITIAL, cfg)
  {
    assert ALL_FILTERS & ALL_FILTERS == ALL_FILTERS;
    NoFilters();
  }

  /** Every run keeps each invariant: `Unconditional` whatever fails, the others while
      the one channel they depend on answers well, `PinsAndFm` when moreover every
      endpoint exists. */
  lemma {:induction false} RunKeeps(w: Which, s: Hal, o: Oracle, cfg: Config, ops: seq<Op>)
    requires Hypothesis(w, o, cfg) && Holds(w, s, cfg) && w !in {Pins, PinsAndOutputs, Idle, Playing}
    requires w.PinsAndFm? ==> forall i | 0 <= i < |ops| :: OpOk(ops[i], cfg)
    ensures Holds(w, Run(s, o, cfg, ops), cfg)
    decreases |ops|
  {
    hide Always, SoundAgrees, PinsFollow, Step, Hypothesis;
    if ops != [] {
      StepKeeps(w, s, o, cfg, ops[0]);
      RunKeeps(w, Step(s, o, cfg, ops[0]), o, cfg, ops[1..]);
    }
  }

  /** One call keeps the pins with FM if and only if it is not that change. */
  lemma StepMovesPins(s: Hal, o: Oracle, cfg: Config, op: Op)
    requires AllSucceed(o, I2c) && FmDistinct(cfg) && PinsFollow(s, cfg)
    ensures PinsFollow(Step(s, o, cfg, op), cfg) <==> !LosesPins(s, cfg, op)
  {
    hide PinsFollow, SetMicMute, IsFm;
    if LosesPins(s, cfg, op) {
      MicMovesPins(s, o, cfg, if op.OpSetMicMute? then op.muted else true);
    } else {
      StepKeeps(Pins, s, o, cfg, op);
    }
  }

  // -------------------------------------------------------------- the routes

  /** After routing for the outputs the cached device is the preferred endpoint,
      unless that endpoint does not exist, and then nothing changes. */
  lemma OutputIsPreferred(s: Hal, o: Oracle, cfg: Config)
    ensures var dev := DualMic(s, cfg, PreferredOutput(s, cfg));
            var t := RouteOutput(s, o, cfg).0;
            if dev == -1 then t == s else t.cur == dev && (s.cur == dev && s.fm == s.fmPrev ==> t == s)
  {
    hide PostProcOf, OnBus, RouteRpc, IsFm, EarMute, PreferredOutput, OutputMask, DualMic;
  }

  lemma AdoptUses(s: Hal, o: Oracle, cfg: Config, dev: int, mask: bv16)
    ensures var t := Adopt(s, o, cfg, dev, mask).0;
            if dev == -1 || (s.cur == dev && s.fm == s.fmPrev) then t == s
            else t.cur == dev && t.builtinMic == s.builtinMic
  {
    hide Route, PostProcOf;
    RouteFrame(s, o, cfg, dev);
  }

  /** Routing for an input: a call recording only notes the microphone; any other
      input takes the first applicable endpoint into use, or, where that does not
      exist, the preferred output. */
  lemma InputIsPreferred(s: Hal, o: Oracle, cfg: Config, ins: set<InDevice>)
    requires ins != {}
    ensures var u := s.(builtinMic := ins == {BuiltinMic});
            var t := RouteInput(s, o, cfg, ins).0;
            var first := FirstOf(InputOptions(u, cfg, ins), (cfg.ep.handset, 0)).0;
            var dev := DualMic(u, cfg, if first != -1 then first else PreferredOutput(u, cfg));
            if ins == {VoiceCall} || dev == -1 then t == u
            else t.builtinMic == u.builtinMic && t.cur == dev && (s.cur == dev && s.fm == s.fmPrev ==> t == u)
  {
    hide Adopt, PreferredOutput, OutputMask, DualMic, InputOptions, FirstOf;
    var u := s.(builtinMic := ins == {BuiltinMic});
    var (dev, mask) := Choose(u, cfg, ins);
    AdoptUses(u, o, cfg, dev, mask);
  }

  /** A route after the device was forgotten reaches the driver and, reporting
      success, leaves the mutes the mode, FM, the built-in microphone and the mute switch call for. */
  lemma RouteAfterForgetting(s: Hal, o: Oracle, cfg: Config)
    requires CurrentDistinct(cfg) && s.cur == -1
    ensures var dev := DualMic(s, cfg, PreferredOutput(s, cfg));
            var (t, ok) := RouteOutput(s, o, cfg);
            dev != -1 ==>
              && (AllSucceed(o, Rpc) ==> ok)
              && t.cur == dev && t.fmPrev == s.fm
              && (ok ==> t.sound == Sound(dev,
                                          !(s.mode in cfg.callModes || s.fm)
                                          && !(dev == cfg.ep.handset && s.builtinMic),
                                          s.micMute && !s.fm))
  {
    hide PostProcOf, OnBus, RouteRpc, IsFm, PreferredOutput, OutputMask, DualMic;
    var dev := DualMic(s, cfg, PreferredOutput(s, cfg));
    RouteSetsSound(s, o, cfg, dev);
    ChoiceIsEndpoint(s, cfg, {});
  }

  /** Leaving an FM endpoint for another with FM off gives the pins back. */
  lemma LeavingFmReturnsPins(s: Hal, o: Oracle, cfg: Config, dev: int, mask: bv16)
    requires AllSucceed(o, I2c) && !s.fm && IsFm(cfg, s.cur) && !IsFm(cfg, dev) && dev != -1
    ensures var t := Adopt(s, o, cfg, dev, mask).0; t.cur == dev && PinsBt(t.regs) && !PinsFm(t.regs)
  {
    hide PostProcOf, OnBus, RouteRpc, PinsBt, PinsFm, EarMute;
    RouteMovesPins(s, o, cfg, dev);
  }

  // ------------------------------------------------------------ pins and FM

  /** The pins are right after every prefix of the calls. */
  ghost predicate PinsThroughout(s: Hal, o: Oracle, cfg: Config, ops: seq<Op>)
    decreases |ops|
  {
    PinsFollow(s, cfg) && (ops == [] || PinsThroughout(Step(s, o, cfg, ops[0]), o, cfg, ops[1..]))
  }

  /** No call of the run is the losing one in the state it comes in. */
  ghost predicate NeverLoses(s: Hal, o: Oracle, cfg: Config, ops: seq<Op>)
    decreases |ops|
  {
    ops == [] || (!LosesPins(s, cfg, ops[0]) && NeverLoses(Step(s, o, cfg, ops[0]), o, cfg, ops[1..]))
  }

  /** On a whole run the pins follow the FM endpoints after every call if and only
      if no call of the run loses them. */
  lemma {:induction false} RunMovesPins(s: Hal, o: Oracle, cfg: Config, ops: seq<Op>)
    requires AllSucceed(o, I2c) && FmDistinct(cfg) && PinsFollow(s, cfg)
    ensures PinsThroughout(s, o, cfg, ops) <==> NeverLoses(s, o, cfg, ops)
    decreases |ops|
  {
    hide PinsFollow, LosesPins, Step, FmDistinct, AllSucceed;
    if ops != [] {
      StepMovesPins(s, o, cfg, ops[0]);
      var t := Step(s, o, cfg, ops[0]);
      if PinsFollow(t, cfg) {
        RunMovesPins(t, o, cfg, ops[1..]);
      } else {
        assert !PinsThroughout(t, o, cfg, ops[1..]);
      }
    }
  }

  /** With FM on and an FM endpoint in use the pins are with FM. */
  ghost predicate FmHasPins(s: Hal, cfg: Config) {
    s.fm && IsFm(cfg, s.cur) ==> PinsFm(s.regs)
  }

  const FM_ON: Op := OpSetParameters(Params(None, None, None, None, true, false))
  const FM_OFF: Op := OpSetParameters(Params(None, None, None, None, false, true))

  function StartFm(s: Hal, o: Oracle, cfg: Config, outs: set<OutDevice>): Hal {
    Step(Step(s, o, cfg, OpOpenOutput(outs)), o, cfg, FM_ON)
  }

  /** Whatever outputs are opened next, switching FM on leaves FM with its pins. */
  ghost predicate FmCanStart(s: Hal, o: Oracle, cfg: Config) {
    forall outs :: FmHasPins(StartFm(s, o, cfg, outs), cfg)
  }

  /** FM has its pins after every prefix of the calls, and would have them if it
      were switched on there. */
  ghost predicate FmThroughout(s: Hal, o: Oracle, cfg: Config, ops: seq<Op>)
    decreases |ops|
  {
    && FmHasPins(s, cfg) && FmCanStart(s, o, cfg)
    && (ops == [] || FmThroughout(Step(s, o, cfg, ops[0]), o, cfg, ops[1..]))
  }

  lemma PathStays(s: Hal, o: Oracle, cfg: Config, op: Op)
    requires FmDistinct(cfg) && OnFmPath(s, cfg)
    ensures OnFmPath(Step(s, o, cfg, op), cfg)
  {
    hide OnFmPath, Step, FmDistinct;
    StepKeeps(FmPath, s, o, cfg, op);
  }

  lemma FollowingStarts(s: Hal, o: Oracle, cfg: Config)
    requires AllSucceed(o, I2c) && FmDistinct(cfg) && PinsFollow(s, cfg)
    ensures FmHasPins(s, cfg) && FmCanStart(s, o, cfg)
  {
    hide Step, IsFm, FmDistinct, PinsFm, AllSucceed;
    forall outs ensures FmHasPins(StartFm(s, o, cfg, outs), cfg) {
      StepMovesPins(s, o, cfg, OpOpenOutput(outs));
      StepMovesPins(Step(s, o, cfg, OpOpenOutput(outs)), o, cfg, FM_ON);
    }
  }

  /** Outputs for which FM takes the endpoint already in use. */
  lemma OutputsFor(s: Hal, cfg: Config) returns (outs: set<OutDevice>)
    requires FmDistinct(cfg) && IsFm(cfg, s.cur) && s.cur in FmPair(cfg)
    ensures var u := s.(outs := outs);
            DualMic(u, cfg, PreferredOutput(u.(fm := true), cfg)) == s.cur != -1
  {
    var headset := if cfg.analog then cfg.ep.fmAnalogHeadset else cfg.ep.fmHeadset;
    outs := if s.cur == headset then {WiredHeadset} else {};
    var u := s.(outs := outs);
    assert WiredHeadphone !in outs;
    FirstOfIs(OutputOptions(u.(fm := true), cfg), cfg.ep.handset, if s.cur == headset then 0 else 1);
    hide FirstOf;
    assert s.cur !in PlainEndpoints(cfg.ep);
  }

  lemma SwitchingFmOn(s: Hal, o: Oracle, cfg: Config)
    ensures Step(s, o, cfg, FM_ON) == RouteOutput(SetFm(s, o, true), o, cfg).0
    ensures var t := SetFm(s, o, true);
            && t.fm && t.fmPrev == s.fmPrev && t.cur == s.cur && t.regs == s.regs
            && t.outs == s.outs && t.mode == s.mode && t.tty == s.tty && t.dualMic == s.dualMic
  {
    hide RouteOutput, Session;
  }

  /** A route to the endpoint already in use leaves the pins where they are. */
  lemma RerouteSame(s: Hal, o: Oracle, cfg: Config)
    requires AllSucceed(o, I2c) && s.fm && DualMic(s, cfg, PreferredOutput(s, cfg)) == s.cur != -1
    ensures var t := RouteOutput(s, o, cfg).0; t.fm && t.cur == s.cur && t.regs == s.regs
  {
    hide PostProcOf, OnBus, RouteRpc, EarMute, DualMic, PreferredOutput, OutputMask, IsFm;
    RouteMovesPins(s, o, cfg, s.cur);
  }

  lemma DualMicIgnoresFm(s: Hal, cfg: Config, dev: int)
    ensures DualMic(s.(fm := true), cfg, dev) == DualMic(s, cfg, dev)
  {
  }

  lemma SameOutput(s: Hal, t: Hal, cfg: Config)
    requires s.fm == t.fm && s.outs == t.outs && s.mode == t.mode && s.tty == t.tty && s.dualMic == t.dualMic
    ensures PreferredOutput(s, cfg) == PreferredOutput(t, cfg)
    ensures forall d :: DualMic(s, cfg, d) == DualMic(t, cfg, d)
  {
  }

  /** Switching FM on for the endpoint already in use leaves the pins where they are. */
  lemma SwitchOnKeepsRegs(u: Hal, o: Oracle, cfg: Config)
    requires AllSucceed(o, I2c) && DualMic(u, cfg, PreferredOutput(u.(fm := true), cfg)) == u.cur != -1
    ensures var t := Step(u, o, cfg, FM_ON);
            t.fm && t.cur == u.cur && t.regs == u.regs
  {
    hide Route, PinsFm, DualMic, PreferredOutput, RouteOutput, Step;
    var v := SetFm(u, o, true);
    SwitchingFmOn(u, o, cfg);
    SameOutput(u.(fm := true), v, cfg);
    DualMicIgnoresFm(u, cfg, PreferredOutput(v, cfg));
    RerouteSame(v, o, cfg);
  }

  lemma MuteOnly(s: Hal, o: Oracle, cfg: Config, op: Op)
    requires LosesPins(s, cfg, op)
    ensures var t := Step(s, o, cfg, op);
            && t == SetMicMute(s, o, cfg, if op.OpSetMicMute? then op.muted else true).0
            && t.outs == s.outs && t.mode == s.mode && t.tty == s.tty && t.dualMic == s.dualMic
            && t.cur == s.cur && t.fm == s.fm && !t.fmPrev
  {
    hide OnBus, RouteRpc, EarMute;
  }

  lemma OpeningOutput(s: Hal, o: Oracle, cfg: Config, outs: set<OutDevice>)
    ensures Step(s, o, cfg, OpOpenOutput(outs)) == s.(outs := outs)
  {
  }

  /** After a losing call there are outputs under which switching FM on shows it. */
  lemma LossShows(s: Hal, o: Oracle, cfg: Config, op: Op)
    requires AllSucceed(o, I2c) && FmDistinct(cfg) && PinsFollow(s, cfg) && OnFmPath(s, cfg) && LosesPins(s, cfg, op)
    ensures !FmCanStart(Step(s, o, cfg, op), o, cfg)
  {
    hide Step, PinsFm, IsFm, FmDistinct, DualMic, PreferredOutput, Route, FmPair;
    var t := Step(s, o, cfg, op);
    MuteOnly(s, o, cfg, op);
    MicMovesPins(s, o, cfg, if op.OpSetMicMute? then op.muted else true);
    var outs := OutputsFor(t, cfg);
    var u := t.(outs := outs);
    OpeningOutput(t, o, cfg, outs);
    SwitchOnKeepsRegs(u, o, cfg);
    assert !FmHasPins(StartFm(t, o, cfg, outs), cfg);
  }

  /** FM on and an FM endpoint in use implies the pins are with FM, throughout a run
      and on switching FM on anywhere in it, if and only if no call of the run loses
      the pins. */
  lemma {:induction false} FmHasPinsExactly(s: Hal, o: Oracle, cfg: Config, ops: seq<Op>)
    requires AllSucceed(o, I2c) && FmDistinct(cfg) && PinsFollow(s, cfg) && OnFmPath(s, cfg)
    ensures FmThroughout(s, o, cfg, ops) <==> NeverLoses(s, o, cfg, ops)
    decreases |ops|
  {
    hide PinsFollow, LosesPins, Step, FmDistinct, AllSucceed, FmHasPins, FmCanStart, OnFmPath;
    FollowingStarts(s, o, cfg);
    if ops != [] {
      var t := Step(s, o, cfg, ops[0]);
      StepMovesPins(s, o, cfg, ops[0]);
      if LosesPins(s, cfg, ops[0]) {
        LossShows(s, o, cfg, ops[0]);
        assert !FmThroughout(t, o, cfg, ops[1..]);
      } else {
        PathStays(s, o, cfg, ops[0]);
        FmHasPinsExactly(t, o, cfg, ops[1..]);
      }
    }
  }

  /** What such a change costs: switching FM on again for the same endpoint does
      not move the pins back. */
  lemma LostPinsStayLost(s: Hal, o: Oracle, cfg: Config, op: Op)
    requires AllSucceed(o, I2c) && FmDistinct(cfg) && PinsFollow(s, cfg) && LosesPins(s, cfg, op)
    requires DualMic(s, cfg, PreferredOutput(s.(fm := true), cfg)) == s.cur
    ensures var t := Step(Step(s, o, cfg, op), o, cfg, FM_ON);
            t.fm && IsFm(cfg, t.cur) && !PinsFm(t.regs)
  {
    hide Route, PinsFm, DualMic, PreferredOutput, RouteOutput, Step;
    var u := Step(s, o, cfg, op);
    MuteOnly(s, o, cfg, op);
    MicMovesPins(s, o, cfg, if op.OpSetMicMute? then op.muted else true);
    SameOutput(s.(fm := true), u.(fm := true), cfg);
    SameOutput(s, u, cfg);
    assert s.cur >= 0;
    SwitchOnKeepsRegs(u, o, cfg);
  }

  // ------------------------------------------------- a run that loses the pins

  lemma OutputFrame(s: Hal, o: Oracle, cfg: Config)
    ensures var t := RouteOutput(s, o, cfg).0;
            && t.fm == s.fm && t.outs == s.outs && t.mode == s.mode && t.tty == s.tty
            && t.dualMic == s.dualMic && t.micMute == s.micMute
  {
    hide PostProcOf, Route, Choose;
    var (dev, mask) := Choose(s, cfg, {});
    RouteFrame(s, o, cfg, dev);
  }

  /** A config as the HAL builds it: no code ever assigns the car kit endpoint. */
  predicate NoCarKit(cfg: Config) {
    cfg.ep.carkit == -1
  }

  /** The FM speaker of the path in use. */
  function PathSpeaker(cfg: Config): int {
    if cfg.analog then cfg.ep.fmAnalogSpeaker else cfg.ep.fmSpeaker
  }

  /** The state after FM was switched off while a car kit took the output. */
  ghost predicate Stuck(s: Hal, cfg: Config) {
    && !s.fm && s.cur == PathSpeaker(cfg) && PinsFollow(s, cfg)
    && s.outs == {BtScoCarkit} && s.mode == Normal && !s.dualMic && s.micMute
  }

  lemma CarKitPreferred(s: Hal, cfg: Config)
    requires NoCarKit(cfg) && s.outs == {BtScoCarkit} && s.mode == Normal
    ensures PreferredOutput(s, cfg) == if s.fm then PathSpeaker(cfg) else -1
  {
    FirstOfIs(OutputOptions(s, cfg), cfg.ep.handset, if s.fm then 1 else 6);
  }

  lemma FmOffWithCarKit(s: Hal, o: Oracle, cfg: Config)
    requires AllSucceed(o, I2c) && FmDistinct(cfg) && NoCarKit(cfg) && PinsFollow(s, cfg)
    requires s.fm && s.outs == {BtScoCarkit} && s.mode == Normal && !s.dualMic && s.micMute
    requires s.cur == PathSpeaker(cfg)
    ensures Stuck(Step(s, o, cfg, FM_OFF), cfg)
  {
    hide RouteOutput, Session, PinsFm, IsFm, PreferredOutput;
    var t := SetFm(s, o, false);
    assert Step(s, o, cfg, FM_OFF) == RouteOutput(t, o, cfg).0;
    FirstOfIs(OutputOptions(t, cfg), cfg.ep.handset, 6);
    OutputIsPreferred(t, o, cfg);
    assert PreferredOutput(t, cfg) == -1 by { CarKitPreferred(t, cfg); }
  }

  lemma FmOnKeepsMic(s: Hal, o: Oracle)
    ensures SetFm(s, o, true).micMute == s.micMute
  {
  }

  lemma FmOnWithCarKit(s: Hal, o: Oracle, cfg: Config)
    requires AllSucceed(o, I2c) && FmDistinct(cfg) && NoCarKit(cfg) && PinsFollow(s, cfg)
    requires s.outs == {BtScoCarkit} && s.mode == Normal && !s.dualMic && s.micMute
    ensures var t := Step(s, o, cfg, FM_ON);
            && t.fm && t.cur == PathSpeaker(cfg) && PinsFollow(t, cfg)
            && t.outs == s.outs && t.mode == s.mode && t.dualMic == s.dualMic && t.micMute == s.micMute
  {
    hide RouteOutput, Session, PinsFm, PreferredOutput, Step, SetFm, PinsFollow;
    var u := SetFm(s, o, true);
    SwitchingFmOn(s, o, cfg);
    FmOnKeepsMic(s, o);
    assert IsFm(cfg, PathSpeaker(cfg));
    CarKitPreferred(u, cfg);
    OutputIsPreferred(u, o, cfg);
    OutputFrame(u, o, cfg);
    StepMovesPins(s, o, cfg, FM_ON);
  }

  lemma RunOfFive(s: Hal, o: Oracle, cfg: Config, a: Op, b: Op, c: Op, d: Op, e: Op)
    ensures Run(s, o, cfg, [a, b, c, d, e])
            == Step(Step(Step(Step(Step(s, o, cfg, a), o, cfg, b), o, cfg, c), o, cfg, d), o, cfg, e)
  {
    hide Step;
    var ops := [a, b, c, d, e];
    assert ops[1..] == [b, c, d, e] && ops[1..][1..] == [c, d, e] && ops[1..][1..][1..] == [d, e];
    assert ops[1..][1..][1..][1..] == [e] && ops[1..][1..][1..][1..][1..] == [];
    var s1 := Step(s, o, cfg, a);
    var s2 := Step(s1, o, cfg, b);
    var s3 := Step(s2, o, cfg, c);
    var s4 := Step(s3, o, cfg, d);
    assert Run(s4, o, cfg, [e]) == Run(Step(s4, o, cfg, e), o, cfg, []);
    assert Run(s3, o, cfg, [d, e]) == Run(s4, o, cfg, [e]);
    assert Run(s2, o, cfg, [c, d, e]) == Run(s3, o, cfg, [d, e]);
    assert Run(s1, o, cfg, [b, c, d, e]) == Run(s2, o, cfg, [c, d, e]);
  }

  const LOSING_RUN: seq<Op> := [OpOpenOutput({BtScoCarkit}), FM_ON, FM_OFF, OpSetMicMute(false), FM_ON]

  lemma NotDualMic(s: Hal, cfg: Config)
    requires !s.dualMic
    ensures forall d :: DualMic(s, cfg, d) == d
  {
  }

  /** So with a car kit routed, five calls end with FM on, an FM
      endpoint in use and the pins not with FM. */
  lemma CarKitLosesPins(o: Oracle, cfg: Config)
    requires AllSucceed(o, I2c) && FmDistinct(cfg) && NoCarKit(cfg)
    ensures var t := Run(INITIAL, o, cfg, LOSING_RUN);
            t.fm && IsFm(cfg, t.cur) && !PinsFm(t.regs)
  {
    hide Step, PinsFm, PreferredOutput, Run;
    var s1 := INITIAL.(outs := {BtScoCarkit});
    InitiallyFine(Pins, o, cfg);
    FmOnWithCarKit(s1, o, cfg);
    var s2 := Step(s1, o, cfg, FM_ON);
    FmOffWithCarKit(s2, o, cfg);
    var s3 := Step(s2, o, cfg, FM_OFF);
    CarKitPreferred(s3.(fm := true), cfg);
    NotDualMic(s3, cfg);
    LostPinsStayLost(s3, o, cfg, OpSetMicMute(false));
    RunOfFive(INITIAL, o, cfg, OpOpenOutput({BtScoCarkit}), FM_ON, FM_OFF, OpSetMicMute(false), FM_ON);
    OpeningOutput(INITIAL, o, cfg, {BtScoCarkit});
  }
}
