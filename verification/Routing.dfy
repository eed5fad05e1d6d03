/**
 The routing, FM and post-processing machine of the audio HAL as functions on
 its state. Every call into a driver consumes one answer of an oracle, so a
 statement for all oracles covers every pattern of failing calls.
 */
module Routing {
  import opened AudioSystem
  import opened Wrappers

  // ------------------------------------------------------------------ state

  datatype Filter = Adrc | Eq | RxIir | Mbadrc

  function Bit(f: Filter): bv16 {
    match f case Adrc => 0x1 case Eq => 0x2 case RxIir => 0x4 case Mbadrc => 0x10
  }

  const ALL_FILTERS: bv16 := 0x17
  const EQ_AND_IIR: bv16 := 0x6

  predicate Has(mask: bv16, f: Filter) {
    mask & Bit(f) != 0
  }

  /** Endpoint ids; -1 for one the driver does not have. */
  datatype Endpoints = Endpoints(
    current: int, handset: int, speaker: int, bt: int, headset: int,
    sadcHandset: int, sadcSpeaker: int, ttyHeadset: int, ttyHco: int, ttyVco: int, carkit: int,
    fmSpeaker: int, fmHeadset: int, fmAnalogSpeaker: int, fmAnalogHeadset: int)

  /** The property persist.sys.headset-postproc. */
  datatype HeadsetProp = Off | Lite | Full | Hex(mask: bv16) | Invalid

  /** What is fixed once the HAL is up: endpoints, the FM path, the modes that
      count as a call, and the parsed filter file with its per-device flags. */
  datatype Config = Config(ep: Endpoints, analog: bool, callModes: set<Mode>,
                           parsed: bool, flags: (nat, Filter) -> bool)

  /** The post-processing unit: the enabled mask, the device whose coefficients
      each filter holds, and (history only) the device and route mask of the last
      enable. */
  datatype Dsp = Dsp(mask: bv16, coef: map<Filter, nat>, forDevice: nat, forMask: bv16)

  /** The sound path of the driver. Mutes are true when muted. */
  datatype Sound = Sound(dev: int, ear: bool, mic: bool)

  type Regs = map<int, int>

  /** The audio-manager session of FM: whether its descriptor is valid, and
      (history only) how often the node was opened and closed. */
  datatype FmLink = FmLink(valid: bool, opens: nat, closes: nat)

  datatype Hal = Hal(
    mode: Mode, micMute: bool, builtinMic: bool, dualMic: bool, tty: TtyMode, nrec: bool, btId: int,
    fm: bool, fmPrev: bool, cur: int, act: int,
    mask: bv16, playback: bool, outs: set<OutDevice>, headsetProp: HeadsetProp,
    link: FmLink,
    sound: Sound, regs: Regs, dsp: Dsp,         // behind the device nodes
    tick: nat)                                  // answers of the oracle used up

  /** What a request goes to: the sound endpoint, the pin and codec registers, the
      post-processing control node, or the audio-manager node of FM. */
  datatype Channel = Rpc | I2c | Pcm | Audmgr

  type Oracle = (Channel, nat) -> bool

  /** A driver part after some requests, the next answer, and whether all went well. */
  datatype Reply<T> = Reply(part: T, tick: nat, ok: bool)

  const INITIAL: Hal := Hal(
    Normal, true, false, false, TtyOff, true, 0, false, false, -1, -1, ALL_FILTERS, false, {}, Lite,
    FmLink(false, 0, 0), Sound(-1, false, false), map[], Dsp(0, map[], 0, 0), 0)

  // ---------------------------------------------------------- sound endpoint

  /** One SND_SET_DEVICE request; CURRENT keeps the device and sets the mutes. */
  function SetDevice(d: Sound, n: nat, o: Oracle, cfg: Config, dev: int, ear: bool, mic: bool): Reply<Sound> {
    Reply(if o(Rpc, n) then Sound(if dev == cfg.ep.current then d.dev else dev, ear, mic) else d, n + 1, o(Rpc, n))
  }

  function RouteRpc(d: Sound, n: nat, o: Oracle, cfg: Config, dev: int, ear: bool, mic: bool): Reply<Sound> {
    if dev == -1 then Reply(d, n, true)
    else if dev != cfg.ep.current && !mic then
      var r := SetDevice(d, n, o, cfg, dev, ear, true);
      if r.ok then SetDevice(r.part, r.tick, o, cfg, dev, ear, false) else r
    else SetDevice(d, n, o, cfg, dev, ear, mic)
  }

  // ------------------------------------------------------------ pin registers

  /** Register writes in order, up to the first that fails. */
  function WriteRegs(regs: Regs, n: nat, o: Oracle, ws: seq<(int, int)>): Reply<Regs>
    decreases |ws|
  {
    if ws == [] then Reply(regs, n, true)
    else if o(I2c, n) then WriteRegs(regs[ws[0].0 := ws[0].1], n + 1, o, ws[1..])
    else Reply(regs, n + 1, false)
  }

  const NORMAL := 0x40
  const TRISTATE := 0x15

  function Block(first: int, count: nat, value: int): seq<(int, int)> {
    seq(count, i => (first + i, value))
  }

  function PinWrites(fmMode: bool): seq<(int, int)> {
    var bt := if fmMode then TRISTATE else NORMAL;
    var fm := if fmMode then NORMAL else TRISTATE;
    [(0x88, bt), (0x89, bt), (0x8a, bt), (0x8b, bt), (0x8e, fm), (0x8f, fm), (0x90, fm)]
  }

  const PATH_WRITES: seq<(int, int)> :=
    [(0x11, 0x0c), (0x13, 0x01), (0x81, 0x00), (0x82, 0x00), (0xe6, 0x38), (0xe7, 0x06), (0xe9, 0x21)]

  /** Opening the bus, then the writes. */
  function OnBus(regs: Regs, n: nat, o: Oracle, ws: seq<(int, int)>): Reply<Regs> {
    if o(I2c, n) then WriteRegs(regs, n + 1, o, ws) else Reply(regs, n + 1, false)
  }

  predicate GroupIs(regs: Regs, group: set<int>, v: int) {
    forall r | r in group :: r in regs && regs[r] == v
  }

  const BT_PINS: set<int> := {0x88, 0x89, 0x8a, 0x8b}
  const FM_PINS: set<int> := {0x8e, 0x8f, 0x90}

  predicate PinsFm(regs: Regs) {
    GroupIs(regs, BT_PINS, TRISTATE) && GroupIs(regs, FM_PINS, NORMAL)
  }

  predicate PinsBt(regs: Regs) {
    GroupIs(regs, BT_PINS, NORMAL) && GroupIs(regs, FM_PINS, TRISTATE)
  }

  predicate IsFm(cfg: Config, dev: int) {
    dev == cfg.ep.fmHeadset || dev == cfg.ep.fmSpeaker || dev == cfg.ep.fmAnalogHeadset || dev == cfg.ep.fmAnalogSpeaker
  }

  // ------------------------------------------------------------------ routing

  function EarMute(s: Hal, cfg: Config, dev: int): bool {
    if s.mode in cfg.callModes || s.fm then false
    else if dev == cfg.ep.handset then !s.builtinMic else true
  }

  /** Route to an endpoint, or (for CURRENT) only refresh the mutes; the pins
      follow on a change into or out of the FM endpoints. */
  function Route(s: Hal, o: Oracle, cfg: Config, dev: int): (Hal, bool) {
    if s.fm then
      var rpc := RouteRpc(s.sound, s.tick, o, cfg, dev, false, false);
      var pins :=
        if IsFm(cfg, dev) && dev != s.cur then
          var switched := OnBus(s.regs, rpc.tick, o, PinWrites(true));
          OnBus(switched.part, switched.tick, o, PATH_WRITES)
        else Reply(s.regs, rpc.tick, true);
      (s.(fmPrev := s.fm, sound := rpc.part, regs := pins.part, tick := pins.tick), rpc.ok)
    else
      var pins :=
        if IsFm(cfg, s.cur) && !IsFm(cfg, dev) then OnBus(s.regs, s.tick, o, PinWrites(false))
        else Reply(s.regs, s.tick, true);
      var rpc := RouteRpc(s.sound, pins.tick, o, cfg, dev, EarMute(s, cfg, dev), s.micMute);
      (s.(fmPrev := s.fm, sound := rpc.part, regs := pins.part, tick := rpc.tick), rpc.ok)
  }

  // ---------------------------------------------------------- post-processing

  function HeadsetMask(p: HeadsetProp): bv16 {
    match p
    case Off => 0
    case Lite => EQ_AND_IIR
    case Full => ALL_FILTERS
    case Hex(m) => m & ALL_FILTERS
    case Invalid => EQ_AND_IIR
  }

  /** The filters switched on for a device: those its route asks for and its
      parsed flags allow, with the plain compressor giving way to the multi-band one. */
  predicate Wanted(cfg: Config, mask: bv16, id: nat, f: Filter) {
    && Has(mask, f)
    && cfg.flags(id, f)
    && (f.Adrc? ==> !(Has(mask, Mbadrc) && cfg.flags(id, Mbadrc)))
  }

  function MaskOf(fs: set<Filter>): bv16 {
    (if Adrc in fs then Bit(Adrc) else 0) | (if Eq in fs then Bit(Eq) else 0)
    | (if RxIir in fs then Bit(RxIir) else 0) | (if Mbadrc in fs then Bit(Mbadrc) else 0)
  }

  function EnableMask(cfg: Config, mask: bv16, id: nat): bv16 {
    MaskOf(set f | f in {Adrc, Eq, RxIir, Mbadrc} && Wanted(cfg, mask, id, f))
  }

  /** Index of the coefficient tables for an endpoint. */
  function TableOf(cfg: Config, dev: int): (id: int)
    ensures -1 <= id < 3
  {
    if dev < 0 then -1
    else if dev == cfg.ep.speaker then 0
    else if dev == cfg.ep.handset then 1
    else if dev == cfg.ep.headset then 2
    else -1
  }

  /** Handing the coefficients of the wanted filters to the DSP, in order, up to
      the first request that fails. */
  function SendFilters(coef: map<Filter, nat>, n: nat, o: Oracle, fs: seq<Filter>, mask: bv16, id: nat)
    : Reply<map<Filter, nat>>
    decreases |fs|
  {
    if fs == [] then Reply(coef, n, true)
    else if !Has(mask, fs[0]) then SendFilters(coef, n, o, fs[1..], mask, id)
    else if o(Pcm, n) then SendFilters(coef[fs[0] := id], n + 1, o, fs[1..], mask, id)
    else Reply(coef, n + 1, false)
  }

  const SEND_ORDER: seq<Filter> := [Mbadrc, Adrc, Eq, RxIir]

  function SetDspMask(d: Dsp, n: nat, o: Oracle, mask: bv16, id: nat, route: bv16): Reply<Dsp> {
    Reply(if o(Pcm, n) then d.(mask := mask, forDevice := id, forMask := route) else d, n + 1, o(Pcm, n))
  }

  /** Switching the post-processing of endpoint `cur` on (for a route mask) or off. */
  function PostProcOf(d: Dsp, n: nat, o: Oracle, cfg: Config, cur: int, route: bv16, on: bool): Reply<Dsp> {
    var id := TableOf(cfg, cur);
    if !cfg.parsed || id < 0 then Reply(d, n, false)
    else if !o(Pcm, n) then Reply(d, n + 1, false)
    else if !on then SetDspMask(d, n + 1, o, 0, id, route)
    else
      var mask := EnableMask(cfg, route, id);
      var sent := SendFilters(d.coef, n + 1, o, SEND_ORDER, mask, id);
      if sent.ok then SetDspMask(d.(coef := sent.part), sent.tick, o, mask, id, route)
      else Reply(d.(coef := sent.part), sent.tick, false)
  }

  function PostProc(s: Hal, o: Oracle, cfg: Config, on: bool): (Hal, bool) {
    var r := PostProcOf(s.dsp, s.tick, o, cfg, s.cur, s.mask, on);
    (s.(dsp := r.part, tick := r.tick), r.ok)
  }

  // ---------------------------------------------------------- route selection

  function FirstOf<T>(options: seq<(bool, T)>, last: T): T {
    if options == [] then last else if options[0].0 then options[0].1 else FirstOf(options[1..], last)
  }

  /** The endpoints for output with the condition for each, most urgent first. */
  function OutputOptions(s: Hal, cfg: Config): seq<(bool, int)> {
    var wired := WiredHeadset in s.outs || WiredHeadphone in s.outs;
    var teletype := s.mode == InCall && WiredHeadset in s.outs;
    [ (s.fm && wired, if cfg.analog then cfg.ep.fmAnalogHeadset else cfg.ep.fmHeadset),
      (s.fm, if cfg.analog then cfg.ep.fmAnalogSpeaker else cfg.ep.fmSpeaker),
      (teletype && s.tty == TtyFull, cfg.ep.ttyHeadset),
      (teletype && s.tty == TtyVco, cfg.ep.ttyVco),
      (teletype && s.tty == TtyHco, cfg.ep.ttyHco),
      (BtSco in s.outs || BtScoHeadset in s.outs, cfg.ep.bt),
      (BtScoCarkit in s.outs, cfg.ep.carkit),
      (wired, cfg.ep.headset),
      (Speaker in s.outs, cfg.ep.speaker)]
  }

  function PreferredOutput(s: Hal, cfg: Config): int {
    FirstOf(OutputOptions(s, cfg), cfg.ep.handset)
  }

  /** The post-processing the output route asks for; the telephony routes leave
      what an input route had asked for. */
  function MaskOptions(s: Hal, before: bv16): seq<(bool, bv16)> {
    [ (s.fm, EQ_AND_IIR),
      (s.mode == InCall && WiredHeadset in s.outs && s.tty != TtyOff, before),
      (BtSco in s.outs || BtScoHeadset in s.outs || BtScoCarkit in s.outs, before),
      (WiredHeadset in s.outs || WiredHeadphone in s.outs, HeadsetMask(s.headsetProp))]
  }

  function OutputMask(s: Hal, before: bv16): bv16 {
    FirstOf(MaskOptions(s, before), ALL_FILTERS)
  }

  /** The endpoints for capture with the condition and mask for each, most urgent first. */
  function InputOptions(s: Hal, cfg: Config, ins: set<InDevice>): seq<(bool, (int, bv16))> {
    [ (BtScoMic in ins, (cfg.ep.bt, 0)),
      (WiredHeadsetMic in ins, (cfg.ep.headset, HeadsetMask(s.headsetProp))),
      (Speaker in s.outs, (cfg.ep.speaker, ALL_FILTERS))]
  }

  /** The endpoint and mask an input asks for; -1 when it asks for none. */
  function PreferredInput(s: Hal, cfg: Config, ins: set<InDevice>): (int, bv16) {
    if ins == {} then (-1, 0) else FirstOf(InputOptions(s, cfg, ins), (cfg.ep.handset, 0))
  }

  /** With two microphones, in a call, handset and speaker become the echo
      cancelling pair. */
  function DualMic(s: Hal, cfg: Config, dev: int): int {
    if s.dualMic && s.mode == InCall then
      if dev == cfg.ep.handset then cfg.ep.sadcHandset
      else if dev == cfg.ep.speaker then cfg.ep.sadcSpeaker else dev
    else dev
  }

  function Choose(s: Hal, cfg: Config, ins: set<InDevice>): (int, bv16) {
    var (dev, mask) := PreferredInput(s, cfg, ins);
    if dev != -1 then (DualMic(s, cfg, dev), mask)
    else (DualMic(s, cfg, PreferredOutput(s, cfg)), OutputMask(s, mask))
  }

  /** Record the endpoint in use; while playing, the post-processing moves with it. */
  function Settle(t: Hal, o: Oracle, cfg: Config, dev: int, mask: bv16): Hal {
    var u := if t.playback then PostProc(t, o, cfg, false).0 else t;
    var v := u.(act := dev, cur := dev, mask := mask);
    if v.playback then PostProc(v, o, cfg, true).0 else v
  }

  /** Take a chosen endpoint into use unless it already is. */
  function Adopt(s: Hal, o: Oracle, cfg: Config, dev: int, mask: bv16): (Hal, bool) {
    if dev == -1 || (dev == s.cur && s.fm == s.fmPrev) then (s, true)
    else
      var (t, rc) := Route(s, o, cfg, dev);
      (Settle(t, o, cfg, dev, mask), rc)
  }

  /** Routing for the outputs alone. */
  function RouteOutput(s: Hal, o: Oracle, cfg: Config): (Hal, bool) {
    var (dev, mask) := Choose(s, cfg, {});
    Adopt(s, o, cfg, dev, mask)
  }

  /** Routing for an input stream; a call recording follows the active device. */
  function RouteInput(s: Hal, o: Oracle, cfg: Config, ins: set<InDevice>): (Hal, bool) {
    var t := s.(builtinMic := ins == {BuiltinMic});
    if ins == {VoiceCall} then (t, true)
    else
      var (dev, mask) := Choose(t, cfg, ins);
      Adopt(t, o, cfg, dev, mask)
  }

  // -------------------------------------------------------------- other calls

  /** Opening or closing the audio-manager session of FM. */
  function Session(f: FmLink, n: nat, o: Oracle, on: bool): Reply<FmLink> {
    if on then
      if f.valid then Reply(f, n, true)
      else if !o(Audmgr, n) then Reply(f, n + 1, false)
      else if o(Audmgr, n + 1) then Reply(FmLink(true, f.opens + 1, f.closes), n + 2, true)
      else Reply(FmLink(false, f.opens + 1, f.closes + 1), n + 2, false)
    else if f.valid then Reply(FmLink(false, f.opens, f.closes + 1), n + 1, true)
    else Reply(f, n, true)
  }

  function SetFm(s: Hal, o: Oracle, on: bool): Hal {
    var r := Session(s.link, s.tick, o, on);
    s.(fm := on, link := r.part, tick := r.tick)
  }

  function SetMicMute(s: Hal, o: Oracle, cfg: Config, muted: bool): (Hal, bool) {
    if s.micMute == muted then (s, true)
    else Route(s.(micMute := muted), o, cfg, cfg.ep.current)
  }

  /** The keys of setParameters: noise reduction, a headset name (as the id of the
      first endpoint so named, 0 for none), dual microphone, TTY mode, FM on, FM off. */
  datatype Params = Params(nrec: Option<bool>, btName: Option<int>, dualMic: Option<bool>, tty: Option<TtyMode>,
                           fmOn: bool, fmOff: bool)

  function OnNrec(s: Hal, p: Params): Hal {
    if p.nrec.Some? then s.(nrec := p.nrec.value) else s
  }

  function OnName(s: Hal, o: Oracle, cfg: Config, p: Params): Hal {
    var t := if p.btName.Some? then s.(btId := p.btName.value) else s;
    if p.btName == Some(0) then RouteOutput(t, o, cfg).0 else t
  }

  function OnDualMic(s: Hal, o: Oracle, cfg: Config, p: Params): Hal {
    if p.dualMic.Some? then RouteOutput(s.(dualMic := p.dualMic.value), o, cfg).0 else s
  }

  function OnTty(s: Hal, p: Params): Hal {
    if p.tty.Some? then s.(tty := p.tty.value) else s
  }

  function OnFm(s: Hal, o: Oracle, p: Params): Hal {
    var t := if p.fmOn then SetFm(s, o, true) else s;
    if p.fmOff then SetFm(t, o, false) else t
  }

  /** The keys in the order they are looked at; outside a call a TTY key ends it. */
  function SetParameters(s: Hal, o: Oracle, cfg: Config, p: Params): Hal {
    var t := OnTty(OnDualMic(OnName(OnNrec(s, p), o, cfg, p), o, cfg, p), p);
    if p.tty.Some? && t.mode != InCall then t else RouteOutput(OnFm(t, o, p), o, cfg).0
  }

  function PlaybackStarted(s: Hal, o: Oracle, cfg: Config): Hal {
    PostProc(s.(playback := true), o, cfg, true).0
  }

  function PlaybackFailed(s: Hal, o: Oracle, cfg: Config): Hal {
    PostProc(s.(playback := false), o, cfg, false).0
  }

  function PlaybackStopped(s: Hal, o: Oracle, cfg: Config): Hal {
    PostProc(s, o, cfg, false).0.(playback := false)
  }

  /** The calls that reach the machine, each one atomic. A mode is accepted or not
      by the base class. */
  datatype Op =
    | OpSetMode(m: Mode, accepted: bool) | OpSetMicMute(muted: bool) | OpCheckMicMute | OpSetParameters(p: Params)
    | OpOpenOutput(outs: set<OutDevice>) | OpCloseOutput | OpRouteOutput(outs: set<OutDevice>, p: Params)
    | OpStartInput(ins: set<InDevice>) | OpRouteInput(ins: set<InDevice>) | OpStandbyInput
    | OpPlaybackStarted | OpPlaybackFailed | OpPlaybackStopped | OpSetProperty(prop: HeadsetProp)

  function Step(s: Hal, o: Oracle, cfg: Config, op: Op): Hal {
    match op
    case OpSetMode(m, accepted) => if accepted then s.(mode := m, cur := -1) else s
    case OpSetMicMute(b) => SetMicMute(s, o, cfg, b).0
    case OpCheckMicMute => if s.mode != InCall then SetMicMute(s, o, cfg, true).0 else s
    case OpSetParameters(p) => SetParameters(s, o, cfg, p)
    case OpOpenOutput(d) => s.(outs := d)
    case OpCloseOutput => s.(outs := {})
    case OpRouteOutput(d, p) => RouteOutput(SetParameters(s.(outs := d), o, cfg, p), o, cfg).0
    case OpStartInput(ins) => RouteInput(s.(cur := -1), o, cfg, ins).0
    case OpRouteInput(ins) => RouteInput(s, o, cfg, ins).0
    case OpStandbyInput => RouteOutput(s.(cur := -1), o, cfg).0
    case OpPlaybackStarted => PlaybackStarted(s, o, cfg)
    case OpPlaybackFailed => PlaybackFailed(s, o, cfg)
    case OpPlaybackStopped => PlaybackStopped(s, o, cfg)
    case OpSetProperty(p) => s.(headsetProp := p)
  }

  function Run(s: Hal, o: Oracle, cfg: Config, ops: seq<Op>): Hal
    decreases |ops|
  {
    if ops == [] then s else Run(Step(s, o, cfg, ops[0]), o, cfg, ops[1..])
  }
}
