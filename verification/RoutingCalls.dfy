/**
 What each call on the routing machine is for, case by case: which endpoint and which
 filters a route asks for, the mutes, the FM session and the parameters.
 */
module RoutingCalls {
  import opened AudioSystem
  import opened Routing
  import opened RoutingProofs
  import opened Wrappers

  // ------------------------------------------------------------- the endpoints

  predicate Wired(s: Hal) {
    WiredHeadset in s.outs || WiredHeadphone in s.outs
  }

  /** A text telephone on the wired headset in a call. */
  predicate Teletype(s: Hal) {
    s.tty != TtyOff && s.mode == InCall && WiredHeadset in s.outs
  }

  predicate Bluetooth(s: Hal) {
    BtSco in s.outs || BtScoHeadset in s.outs
  }

  /** FM beats the text telephone, that beats Bluetooth, Bluetooth the car kit, the car
      kit a wired headset, and that the speaker; the handset is what is left. */
  lemma OutputCases(s: Hal, cfg: Config)
    ensures var d, ep := PreferredOutput(s, cfg), cfg.ep;
            if s.fm then
              d == (match (Wired(s), cfg.analog)
                    case (true, true) => ep.fmAnalogHeadset
                    case (true, false) => ep.fmHeadset
                    case (false, true) => ep.fmAnalogSpeaker
                    case (false, false) => ep.fmSpeaker)
            else if Teletype(s) then
              d == (match s.tty case TtyFull => ep.ttyHeadset case TtyVco => ep.ttyVco case _ => ep.ttyHco)
            else
              && (Bluetooth(s) ==> d == ep.bt)
              && (!Bluetooth(s) && BtScoCarkit in s.outs ==> d == ep.carkit)
              && (!Bluetooth(s) && BtScoCarkit !in s.outs && Wired(s) ==> d == ep.headset)
              && (!Bluetooth(s) && BtScoCarkit !in s.outs && !Wired(s) ==>
                    d == if Speaker in s.outs then ep.speaker else ep.handset)
  {
    var options := OutputOptions(s, cfg);
    var i := FirstOfIndex(options, cfg.ep.handset);
    hide FirstOf;
    assert options[0].0 == (s.fm && Wired(s)) && options[1].0 == s.fm;
    assert options[2].0 == (Teletype(s) && s.tty == TtyFull) && options[3].0 == (Teletype(s) && s.tty == TtyVco);
    assert options[4].0 == (Teletype(s) && s.tty == TtyHco) && options[5].0 == Bluetooth(s);
    assert options[6].0 == (BtScoCarkit in s.outs) && options[7].0 == Wired(s) && options[8].0 == (Speaker in s.outs);
  }

  /** In a call with two microphones handset and speaker give way to the echo
      cancelling pair; nothing else does. */
  lemma DualMicCases(s: Hal, cfg: Config, dev: int)
    ensures s.dualMic && s.mode == InCall ==>
              DualMic(s, cfg, dev) == if dev == cfg.ep.handset then cfg.ep.sadcHandset
                                      else if dev == cfg.ep.speaker then cfg.ep.sadcSpeaker else dev
    ensures !s.dualMic || s.mode != InCall ==> DualMic(s, cfg, dev) == dev
  {
  }

  lemma InputOptionsAre(s: Hal, cfg: Config, ins: set<InDevice>)
    ensures var options := InputOptions(s, cfg, ins);
            && |options| == 3 && options[0] == (BtScoMic in ins, (cfg.ep.bt, 0))
            && options[1] == (WiredHeadsetMic in ins, (cfg.ep.headset, HeadsetMask(s.headsetProp)))
            && options[2] == (Speaker in s.outs, (cfg.ep.speaker, ALL_FILTERS))
  {
  }

  /** For capture a Bluetooth microphone beats a wired one; otherwise the outputs say
      whether it is the speaker's or the handset's. */
  lemma InputCases(s: Hal, cfg: Config, ins: set<InDevice>)
    requires ins != {}
    ensures var d := PreferredInput(s, cfg, ins).0;
            && (BtScoMic in ins ==> d == cfg.ep.bt)
            && (BtScoMic !in ins && WiredHeadsetMic in ins ==> d == cfg.ep.headset)
            && (BtScoMic !in ins && WiredHeadsetMic !in ins ==>
                  d == if Speaker in s.outs then cfg.ep.speaker else cfg.ep.handset)
  {
    var options := InputOptions(s, cfg, ins);
    var i := FirstOfIndex(options, (cfg.ep.handset, 0));
    hide FirstOf, HeadsetMask;
    InputOptionsAre(s, cfg, ins);
  }

  /** The speaker's tables are the first, the handset's the second, the headset's the
      third; no other endpoint has any. */
  lemma TableCases(cfg: Config, dev: int)
    ensures TableOf(cfg, dev) == 0 <==> dev >= 0 && dev == cfg.ep.speaker
    ensures TableOf(cfg, dev) == 1 <==> dev >= 0 && dev == cfg.ep.handset && dev != cfg.ep.speaker
    ensures TableOf(cfg, dev) == 2 <==> dev >= 0 && dev == cfg.ep.headset && dev != cfg.ep.speaker && dev != cfg.ep.handset
  {
  }

  // --------------------------------------------------------------- the filters

  /** What the property for the headset allows. */
  predicate AllowedOnHeadset(p: HeadsetProp, f: Filter) {
    match p
    case Off => false
    case Lite => f.Eq? || f.RxIir?
    case Full => true
    case Hex(m) => Has(m, f)
    case Invalid => f.Eq? || f.RxIir?
  }

  lemma KnownFilters(f: Filter)
    ensures Has(ALL_FILTERS, f) && !Has(0, f) && (Has(EQ_AND_IIR, f) <==> f.Eq? || f.RxIir?)
  {
  }

  lemma HeadsetCases(p: HeadsetProp, f: Filter)
    ensures Has(HeadsetMask(p), f) <==> AllowedOnHeadset(p, f)
  {
    KnownFilters(f);
    if p.Hex? { KnownHas(p.mask, f); }
    hide Has;
  }

  /** FM never asks for a compressor, a headset for what its property allows, speaker and
      handset for everything; telephony keeps what was asked for before. */
  lemma OutputMaskCases(s: Hal, before: bv16, f: Filter)
    ensures var has := Has(OutputMask(s, before), f);
            if s.fm then has <==> f.Eq? || f.RxIir?
            else if Teletype(s) || Bluetooth(s) || BtScoCarkit in s.outs then has <==> Has(before, f)
            else if Wired(s) then has <==> AllowedOnHeadset(s.headsetProp, f)
            else has
  {
    KnownFilters(f);
    HeadsetCases(s.headsetProp, f);
    var options := MaskOptions(s, before);
    var i := FirstOfIndex(options, ALL_FILTERS);
    hide FirstOf, Has, HeadsetMask;
    assert options[0].0 == s.fm && options[1].0 == Teletype(s);
    assert options[2].0 == (Bluetooth(s) || BtScoCarkit in s.outs) && options[3].0 == Wired(s);
  }

  lemma InputMaskCases(s: Hal, cfg: Config, ins: set<InDevice>, f: Filter)
    requires ins != {}
    ensures Has(PreferredInput(s, cfg, ins).1, f)
            <==> BtScoMic !in ins && if WiredHeadsetMic in ins then AllowedOnHeadset(s.headsetProp, f) else Speaker in s.outs
  {
    KnownFilters(f);
    HeadsetCases(s.headsetProp, f);
    var options := InputOptions(s, cfg, ins);
    var i := FirstOfIndex(options, (cfg.ep.handset, 0));
    hide FirstOf, Has, HeadsetMask;
    InputOptionsAre(s, cfg, ins);
  }

  // ------------------------------------------------------------ the sound path

  /** A route to an endpoint that is to open the microphone first reaches it muted: one
      that fails leaves the sound path alone or the microphone muted. */
  lemma NewEndpointStartsMuted(d: Sound, n: nat, o: Oracle, cfg: Config, dev: int, ear: bool)
    requires dev != -1 && dev != cfg.ep.current
    ensures var r := RouteRpc(d, n, o, cfg, dev, ear, false);
            && (r.ok <==> o(Rpc, n) && o(Rpc, n + 1))
            && r.part == if !o(Rpc, n) then d else Sound(dev, ear, !r.ok)
  {
  }

  /** The mute switch reaches the driver's microphone, unless FM keeps it open, and
      nothing else of the sound path but the ear mute. */
  lemma MicFollows(s: Hal, o: Oracle, cfg: Config, muted: bool)
    requires cfg.ep.current != -1
    ensures var (t, ok) := SetMicMute(s, o, cfg, muted);
            && t.micMute == muted && (AllSucceed(o, Rpc) ==> ok)
            && (s.micMute == muted ==> t == s)
            && (s.micMute != muted && ok ==> t.sound.mic == (muted && !s.fm) && t.sound.dev == s.sound.dev)
  {
    hide OnBus, IsFm, EarMute, RouteRpc;
    var u := s.(micMute := muted);
    RouteSetsSound(u, o, cfg, cfg.ep.current);
    RouteFrame(u, o, cfg, cfg.ep.current);
  }

  lemma CheckingMutes(s: Hal, o: Oracle, cfg: Config)
    requires cfg.ep.current != -1
    ensures Step(s, o, cfg, OpCheckMicMute).micMute == (s.micMute || s.mode != InCall)
  {
    MicFollows(s, o, cfg, true);
    hide SetMicMute;
  }

  /** The mutes a route to an endpoint leaves: everything is audible in a call and with
      FM; otherwise only the handset, while its microphone records. */
  function Audible(s: Hal, cfg: Config, dev: int): Sound {
    Sound(dev, !(s.mode in cfg.callModes || s.fm) && !(dev == cfg.ep.handset && s.builtinMic), s.micMute && !s.fm)
  }

  /** A mode change forgets the endpoint, so the next route reaches the driver even for
      the endpoint in use, with the mutes of the new mode. */
  lemma ModeReroutes(s: Hal, o: Oracle, cfg: Config, m: Mode)
    requires AllSucceed(o, Rpc) && CurrentDistinct(cfg)
    ensures var u := Step(s, o, cfg, OpSetMode(m, true));
            var dev := DualMic(u, cfg, PreferredOutput(u, cfg));
            var t := RouteOutput(u, o, cfg).0;
            dev != -1 ==> t.mode == m && t.cur == dev && t.sound == Audible(s.(mode := m), cfg, dev)
  {
    var u := s.(mode := m, cur := -1);
    RouteAfterForgetting(u, o, cfg);
    OutputFrame(u, o, cfg);
    hide RouteOutput, PreferredOutput, DualMic, AllSucceed, CurrentDistinct;
  }

  /** Standby of a capture routes for the outputs again, and reaches the driver. */
  lemma StandbyReroutes(s: Hal, o: Oracle, cfg: Config)
    requires AllSucceed(o, Rpc) && CurrentDistinct(cfg)
    ensures var dev := DualMic(s, cfg, PreferredOutput(s, cfg));
            var t := Step(s, o, cfg, OpStandbyInput);
            dev != -1 ==> t.cur == dev && t.sound == Audible(s, cfg, dev)
  {
    var u := s.(cur := -1);
    RouteAfterForgetting(u, o, cfg);
    SameOutput(s, u, cfg);
    hide RouteOutput, PreferredOutput, DualMic, AllSucceed, CurrentDistinct;
  }

  lemma SameChoice(s: Hal, t: Hal, cfg: Config, ins: set<InDevice>)
    requires t == s.(cur := t.cur)
    ensures Choose(s, cfg, ins) == Choose(t, cfg, ins)
  {
    hide FirstOf, HeadsetMask;
    assert OutputOptions(s, cfg) == OutputOptions(t, cfg);
    assert InputOptions(s, cfg, ins) == InputOptions(t, cfg, ins);
    assert forall m :: MaskOptions(s, m) == MaskOptions(t, m);
  }

  lemma AdoptReaches(s: Hal, o: Oracle, cfg: Config, dev: int, mask: bv16)
    requires AllSucceed(o, Rpc) && CurrentDistinct(cfg) && s.cur == -1
    requires dev == -1 || dev in PlainEndpoints(cfg.ep) + FmEndpoints(cfg.ep)
    ensures var t := Adopt(s, o, cfg, dev, mask).0;
            dev != -1 ==> t.cur == dev && t.builtinMic == s.builtinMic && t.sound == Audible(s, cfg, dev)
  {
    hide PostProcOf, OnBus, RouteRpc, IsFm, PlainEndpoints, FmEndpoints, AllSucceed;
    RouteSetsSound(s, o, cfg, dev);
  }

  lemma StartIsAdopt(s: Hal, o: Oracle, cfg: Config, ins: set<InDevice>)
    requires ins != {VoiceCall}
    ensures var u := s.(cur := -1, builtinMic := ins == {BuiltinMic});
            var (dev, mask) := Choose(u, cfg, ins);
            Step(s, o, cfg, OpStartInput(ins)) == Adopt(u, o, cfg, dev, mask).0
  {
    hide Choose, Adopt;
  }

  lemma SameAudible(s: Hal, u: Hal, cfg: Config, dev: int)
    requires u == s.(cur := u.cur)
    ensures Audible(s, cfg, dev) == Audible(u, cfg, dev)
  {
  }

  /** A capture that starts always reaches the driver, whatever was routed. */
  lemma CaptureReroutes(s: Hal, o: Oracle, cfg: Config, ins: set<InDevice>)
    requires AllSucceed(o, Rpc) && CurrentDistinct(cfg) && ins != {VoiceCall}
    ensures var u := s.(builtinMic := ins == {BuiltinMic});
            var dev := Choose(u, cfg, ins).0;
            var t := Step(s, o, cfg, OpStartInput(ins));
            dev != -1 ==> t.cur == dev && t.builtinMic == u.builtinMic && t.sound == Audible(u, cfg, dev)
  {
    hide *;
    var u := s.(cur := -1, builtinMic := ins == {BuiltinMic});
    SameChoice(s.(builtinMic := ins == {BuiltinMic}), u, cfg, ins);
    ChoiceIsEndpoint(u, cfg, ins);
    StartIsAdopt(s, o, cfg, ins);
    var (dev, mask) := Choose(u, cfg, ins);
    AdoptReaches(u, o, cfg, dev, mask);
    SameAudible(s.(builtinMic := ins == {BuiltinMic}), u, cfg, dev);
  }

  // -------------------------------------------------------------------------- FM

  /** Switching FM on or off sets the flag, and opens or closes the session once. */
  lemma FmSession(s: Hal, o: Oracle, on: bool)
    ensures var t := SetFm(s, o, on);
            && t.fm == on
            && (s.link.valid == on ==> t.link == s.link)
            && (s.link.valid && !on ==> t.link == FmLink(false, s.link.opens, s.link.closes + 1))
            && (!s.link.valid && on && AllSucceed(o, Audmgr) ==> t.link == FmLink(true, s.link.opens + 1, s.link.closes))
  {
  }

  /** The registers of a table have its values. */
  predicate RegsAre(regs: Regs, table: seq<(int, int)>) {
    forall k :: 0 <= k < |table| ==> table[k].0 in regs && regs[table[k].0] == table[k].1
  }

  const FM_ACTIVE: seq<(int, int)> :=
    [(0x88, 0x15), (0x89, 0x15), (0x8a, 0x15), (0x8b, 0x15), (0x8e, 0x40), (0x8f, 0x40), (0x90, 0x40)]

  const BT_ACTIVE: seq<(int, int)> :=
    [(0x88, 0x40), (0x89, 0x40), (0x8a, 0x40), (0x8b, 0x40), (0x8e, 0x15), (0x8f, 0x15), (0x90, 0x15)]

  const FM_CODEC: seq<(int, int)> :=
    [(0x11, 0x0c), (0x13, 0x01), (0x81, 0x00), (0x82, 0x00), (0xe6, 0x38), (0xe7, 0x06), (0xe9, 0x21)]

  lemma GroupsAre(regs: Regs, bt: int, fm: int)
    ensures GroupIs(regs, BT_PINS, bt) && GroupIs(regs, FM_PINS, fm)
            <==> RegsAre(regs, [(0x88, bt), (0x89, bt), (0x8a, bt), (0x8b, bt), (0x8e, fm), (0x8f, fm), (0x90, fm)])
  {
    var table := [(0x88, bt), (0x89, bt), (0x8a, bt), (0x8b, bt), (0x8e, fm), (0x8f, fm), (0x90, fm)];
    if RegsAre(regs, table) {
      forall r | r in BT_PINS ensures r in regs && regs[r] == bt { assert table[r - 0x88].0 == r; }
      forall r | r in FM_PINS ensures r in regs && regs[r] == fm { assert table[r - 0x8e + 4].0 == r; }
    }
    if GroupIs(regs, BT_PINS, bt) && GroupIs(regs, FM_PINS, fm) {
      forall k | 0 <= k < |table| ensures table[k].0 in regs && regs[table[k].0] == table[k].1 {
        assert if k < 4 then table[k].0 in BT_PINS else table[k].0 in FM_PINS;
      }
    }
  }

  lemma PinsAre(regs: Regs)
    ensures PinsFm(regs) <==> RegsAre(regs, FM_ACTIVE)
    ensures PinsBt(regs) <==> RegsAre(regs, BT_ACTIVE)
  {
    GroupsAre(regs, 0x15, 0x40);
    GroupsAre(regs, 0x40, 0x15);
    hide GroupIs;
    assert FM_ACTIVE[0] == (0x88, 0x15) && BT_ACTIVE[0] == (0x88, 0x40);
  }

  lemma PathIsWritten(regs: Regs, n: nat, o: Oracle)
    requires AllSucceed(o, I2c)
    ensures RegsAre(OnBus(regs, n, o, PATH_WRITES).part, FM_CODEC)
  {
    hide PutRegs, WriteRegs;
    WriteRegsDone(regs, n + 1, o, PATH_WRITES);
    forall k | 0 <= k < |FM_CODEC|
      ensures var t := PutRegs(regs, PATH_WRITES); FM_CODEC[k].0 in t && t[FM_CODEC[k].0] == FM_CODEC[k].1
    {
      PutRegsGet(regs, PATH_WRITES, k);
    }
  }

  /** A route into an FM endpoint leaves the FM pins active, the Bluetooth pins idle and
      the codec set up; one out of it, with FM off, the pins the other way round. */
  lemma RouteSetsRegs(s: Hal, o: Oracle, cfg: Config, dev: int)
    requires AllSucceed(o, I2c)
    ensures var t := Route(s, o, cfg, dev).0;
            && (s.fm && IsFm(cfg, dev) && dev != s.cur ==> RegsAre(t.regs, FM_ACTIVE) && RegsAre(t.regs, FM_CODEC))
            && (!s.fm && IsFm(cfg, s.cur) && !IsFm(cfg, dev) ==> RegsAre(t.regs, BT_ACTIVE))
  {
    hide OnBus, PinsFm, PinsBt, PinWrites, IsFm, RegsAre;
    RouteMovesPins(s, o, cfg, dev);
    PinsAre(Route(s, o, cfg, dev).0.regs);
    if s.fm {
      var n := RouteRpc(s.sound, s.tick, o, cfg, dev, false, false).tick;
      var switched := OnBus(s.regs, n, o, PinWrites(true));
      PathIsWritten(switched.part, switched.tick, o);
    }
  }

  /** The FM endpoint of the path in use for the outputs. */
  function FmEndpoint(s: Hal, cfg: Config): int {
    if cfg.analog then if Wired(s) then cfg.ep.fmAnalogHeadset else cfg.ep.fmAnalogSpeaker
    else if Wired(s) then cfg.ep.fmHeadset else cfg.ep.fmSpeaker
  }

  lemma FmOnRoutes(u: Hal, o: Oracle, cfg: Config, dev: int)
    requires AllSucceed(o, Rpc) && AllSucceed(o, I2c) && FmDistinct(cfg) && IsFm(cfg, dev)
    requires u.fm && u.cur != dev && DualMic(u, cfg, PreferredOutput(u, cfg)) == dev
    ensures var t := RouteOutput(u, o, cfg).0;
            && t.fm && t.link == u.link && t.cur == dev && t.sound == Sound(dev, false, false)
            && RegsAre(t.regs, FM_ACTIVE) && RegsAre(t.regs, FM_CODEC)
  {
    RouteSetsSound(u, o, cfg, dev);
    RouteSetsRegs(u, o, cfg, dev);
    hide PostProcOf, OnBus, RouteRpc, IsFm, PreferredOutput, DualMic, OutputMask, RegsAre, AllSucceed;
  }

  /** Switching FM on with every request answered well: the session is open, the FM
      endpoint plays with nothing muted, and pins and codec are set up for it. */
  lemma FmOnIsReady(s: Hal, o: Oracle, cfg: Config)
    requires AllSucceed(o, Rpc) && AllSucceed(o, I2c) && AllSucceed(o, Audmgr) && FmDistinct(cfg)
    requires s.cur != FmEndpoint(s, cfg)
    ensures var t := Step(s, o, cfg, FM_ON);
            && t.fm && t.link.valid && t.cur == FmEndpoint(s, cfg) && t.sound == Sound(FmEndpoint(s, cfg), false, false)
            && RegsAre(t.regs, FM_ACTIVE) && RegsAre(t.regs, FM_CODEC)
  {
    var u, dev := SetFm(s, o, true), FmEndpoint(s, cfg);
    SwitchingFmOn(s, o, cfg);
    FmSession(s, o, true);
    OutputCases(u, cfg);
    assert IsFm(cfg, dev);
    DualMicCases(u, cfg, dev);
    FmOnRoutes(u, o, cfg, dev);
    hide RouteOutput, Step, SetFm, PreferredOutput, DualMic, IsFm, RegsAre;
  }

  // ------------------------------------------------------------- the parameters

  /** A TTY key outside a call ends the call early. */
  predicate EndsEarly(s: Hal, p: Params) {
    p.tty.Some? && s.mode != InCall
  }

  function Given<T>(value: Option<T>, was: T): T {
    if value.Some? then value.value else was
  }

  /** The part of the state that only the framework changes. */
  datatype Wishes = Wishes(nrec: bool, btId: int, dualMic: bool, tty: TtyMode, fm: bool, outs: set<OutDevice>,
                           mode: Mode, micMute: bool, builtinMic: bool, playback: bool, headsetProp: HeadsetProp)

  function WishesOf(s: Hal): Wishes {
    Wishes(s.nrec, s.btId, s.dualMic, s.tty, s.fm, s.outs, s.mode, s.micMute, s.builtinMic, s.playback, s.headsetProp)
  }

  /** Routing for the outputs changes nothing the framework asked for. */
  lemma AdoptKeepsWishes(s: Hal, o: Oracle, cfg: Config, dev: int, mask: bv16)
    ensures WishesOf(Adopt(s, o, cfg, dev, mask).0) == WishesOf(s)
  {
    hide PostProcOf, Route;
    RouteFrame(s, o, cfg, dev);
  }

  lemma OutputKeepsWishes(s: Hal, o: Oracle, cfg: Config)
    ensures WishesOf(RouteOutput(s, o, cfg).0) == WishesOf(s)
  {
    hide Adopt, Choose, WishesOf;
    var (dev, mask) := Choose(s, cfg, {});
    AdoptKeepsWishes(s, o, cfg, dev, mask);
  }

  lemma NameIsTaken(s: Hal, o: Oracle, cfg: Config, p: Params)
    ensures WishesOf(OnName(s, o, cfg, p)) == WishesOf(s).(btId := Given(p.btName, s.btId))
  {
    hide RouteOutput;
    var t := if p.btName.Some? then s.(btId := p.btName.value) else s;
    assert WishesOf(t) == WishesOf(s).(btId := Given(p.btName, s.btId));
    OutputKeepsWishes(t, o, cfg);
    hide WishesOf;
  }

  lemma NotingDualMic(s: Hal, on: bool)
    ensures WishesOf(s.(dualMic := on)) == WishesOf(s).(dualMic := on)
    ensures WishesOf(s).(dualMic := s.dualMic) == WishesOf(s)
  {
  }

  lemma DualMicIsTaken(s: Hal, o: Oracle, cfg: Config, p: Params)
    ensures WishesOf(OnDualMic(s, o, cfg, p)) == WishesOf(s).(dualMic := Given(p.dualMic, s.dualMic))
  {
    hide RouteOutput, WishesOf;
    if p.dualMic.Some? {
      NotingDualMic(s, p.dualMic.value);
      OutputKeepsWishes(s.(dualMic := p.dualMic.value), o, cfg);
    } else {
      NotingDualMic(s, s.dualMic);
    }
  }

  lemma FmIsTaken(s: Hal, o: Oracle, p: Params)
    ensures WishesOf(OnFm(s, o, p)) == WishesOf(s).(fm := if p.fmOff then false else p.fmOn || s.fm)
  {
    hide Session;
  }

  lemma NrecIsTaken(s: Hal, p: Params)
    ensures WishesOf(OnNrec(s, p)) == WishesOf(s).(nrec := Given(p.nrec, s.nrec))
  {
  }

  lemma TtyIsTaken(s: Hal, p: Params)
    ensures WishesOf(OnTty(s, p)) == WishesOf(s).(tty := Given(p.tty, s.tty))
  {
  }

  lemma FlagsAreTaken(s: Hal, p: Params)
    ensures WishesOf(OnNrec(s, p)) == WishesOf(s).(nrec := Given(p.nrec, s.nrec))
    ensures WishesOf(OnTty(s, p)) == WishesOf(s).(tty := Given(p.tty, s.tty))
  {
    hide *;
    NrecIsTaken(s, p);
    TtyIsTaken(s, p);
  }

  /** Every key takes effect and nothing else the framework asked for changes. */
  lemma ParametersAreTaken(s: Hal, o: Oracle, cfg: Config, p: Params)
    ensures WishesOf(SetParameters(s, o, cfg, p))
            == WishesOf(s).(nrec := Given(p.nrec, s.nrec), btId := Given(p.btName, s.btId),
                            dualMic := Given(p.dualMic, s.dualMic), tty := Given(p.tty, s.tty),
                            fm := if EndsEarly(s, p) then s.fm else if p.fmOff then false else p.fmOn || s.fm)
  {
    hide RouteOutput, OnNrec, OnName, OnDualMic, OnTty, OnFm;
    var a := OnNrec(s, p);
    var b := OnName(a, o, cfg, p);
    var c := OnDualMic(b, o, cfg, p);
    var d := OnTty(c, p);
    FlagsAreTaken(s, p);
    NameIsTaken(a, o, cfg, p);
    DualMicIsTaken(b, o, cfg, p);
    FlagsAreTaken(c, p);
    FmIsTaken(d, o, p);
    OutputKeepsWishes(OnFm(d, o, p), o, cfg);
  }

  lemma SameMode(s: Hal, t: Hal)
    ensures WishesOf(t).mode == WishesOf(s).mode ==> t.mode == s.mode
  {
  }

  lemma ModeStays(s: Hal, o: Oracle, cfg: Config, p: Params)
    ensures OnTty(OnDualMic(OnName(OnNrec(s, p), o, cfg, p), o, cfg, p), p).mode == s.mode
  {
    hide RouteOutput, OnName, OnDualMic, OnNrec, OnTty;
    var a := OnNrec(s, p);
    var b := OnName(a, o, cfg, p);
    var c := OnDualMic(b, o, cfg, p);
    FlagsAreTaken(s, p);
    NameIsTaken(a, o, cfg, p);
    DualMicIsTaken(b, o, cfg, p);
    FlagsAreTaken(c, p);
    SameMode(s, a);
    SameMode(a, b);
    SameMode(b, c);
    SameMode(c, OnTty(c, p));
    hide WishesOf;
  }

  /** Unless a TTY key ends the call early, the endpoint in use is then the preferred
      one of the new state, where that exists. */
  lemma ParametersRoute(s: Hal, o: Oracle, cfg: Config, p: Params)
    requires !EndsEarly(s, p)
    ensures var t := SetParameters(s, o, cfg, p);
            var dev := DualMic(t, cfg, PreferredOutput(t, cfg));
            dev != -1 ==> t.cur == dev
  {
    var d := OnTty(OnDualMic(OnName(OnNrec(s, p), o, cfg, p), o, cfg, p), p);
    var e := OnFm(d, o, p);
    ParametersAreTaken(s, o, cfg, p);
    ModeStays(s, o, cfg, p);
    OutputKeepsWishes(e, o, cfg);
    OutputIsPreferred(e, o, cfg);
    SameOutput(e, RouteOutput(e, o, cfg).0, cfg);
    hide RouteOutput, OnName, OnNrec, OnDualMic, OnTty, OnFm, PreferredOutput, DualMic;
  }

  /** A routing key names the outputs, and then its parameters are taken. */
  lemma OutputsAreTaken(s: Hal, o: Oracle, cfg: Config, outs: set<OutDevice>, p: Params)
    ensures WishesOf(Step(s, o, cfg, OpRouteOutput(outs, p)))
            == WishesOf(SetParameters(s.(outs := outs), o, cfg, p))
    ensures Step(s, o, cfg, OpRouteOutput(outs, p)).outs == outs
  {
    hide RouteOutput, SetParameters;
    ParametersAreTaken(s.(outs := outs), o, cfg, p);
    OutputKeepsWishes(SetParameters(s.(outs := outs), o, cfg, p), o, cfg);
  }
}
