/**
 The audio HAL object. Its methods work on fields, branch by branch as the C++
 does, and are proved to take the steps of module Routing.
 */
module AudioHardware {
  import opened AudioSystem
  import opened Routing
  import opened Wrappers
  import opened RoutingProofs

  const ADRC_DISABLE: bv16 := 0xFFFE
  const EQ_DISABLE: bv16 := 0xFFFD
  const RX_IIR_DISABLE: bv16 := 0xFFFB
  const MBADRC_DISABLE: bv16 := 0xFFEF

  class AudioHal {
    const cfg: Config
    const oracle: Oracle
    var mode: Mode
    var micMute: bool
    var builtinMic: bool
    var dualMic: bool
    var tty: TtyMode
    var nrec: bool
    var btId: int
    var fm: bool
    var fmPrev: bool
    var cur: int
    var act: int
    var mask: bv16
    var playback: bool
    var outs: set<OutDevice>
    var headsetProp: HeadsetProp
    var link: FmLink
    var sound: Sound
    var regs: Regs
    var dsp: Dsp
    var tick: nat

    ghost function State(): Hal
      reads this
    {
      Hal(mode, micMute, builtinMic, dualMic, tty, nrec, btId, fm, fmPrev, cur, act, mask, playback, outs, headsetProp,
          link, sound, regs, dsp, tick)
    }

    /** What holds between public calls, whatever the drivers answer. */
    ghost predicate Valid()
      reads this
    {
      Always(State(), cfg)
    }

    constructor (cfg: Config, oracle: Oracle)
      ensures State() == INITIAL && this.cfg == cfg && this.oracle == oracle
      ensures Valid()
    {
      this.cfg, this.oracle := cfg, oracle;
      nrec, btId := true, 0;
      InitiallyFine(Unconditional, oracle, cfg);
      mode, micMute, builtinMic, dualMic, tty := Normal, true, false, false, TtyOff;
      fm, fmPrev, cur, act := false, false, -1, -1;
      mask, playback, outs, headsetProp := ALL_FILTERS, false, {}, Lite;
      link, sound, regs := FmLink(false, 0, 0), Sound(-1, false, false), map[];
      dsp, tick := Dsp(0, map[], 0, 0), 0;
    }

    /** Any call into a driver: it may fail. */
    method Request(c: Channel) returns (ok: bool)
      modifies this`tick
      ensures ok == oracle(c, old(tick)) && tick == old(tick) + 1
    {
      ok := oracle(c, tick);
      tick := tick + 1;
    }

    // --------------------------------------------------------- sound endpoint

    method SndSetDevice(dev: int, ear: bool, mic: bool) returns (ok: bool)
      modifies this`sound, this`tick
      ensures Reply(sound, tick, ok) == old(SetDevice(sound, tick, oracle, cfg, dev, ear, mic))
    {
      ok := Request(Rpc);
      if ok {
        sound := Sound(if dev == cfg.ep.current then sound.dev else dev, ear, mic);
      }
    }

    method DoRouteAudioRpc(dev: int, earMute: bool, micMuted: bool) returns (ok: bool)
      modifies this`sound, this`tick
      ensures Reply(sound, tick, ok) == old(RouteRpc(sound, tick, oracle, cfg, dev, earMute, micMuted))
    {
      if dev == -1 { return true; }
      if dev != cfg.ep.current && !micMuted {
        // mute the microphone first, to release DSP resources
        ok := SndSetDevice(dev, earMute, true);
        if !ok { return; }
      }
      ok := SndSetDevice(dev, earMute, micMuted);
    }

    // ----------------------------------------------------------- pin registers

    method WriteReg(reg: int, value: int) returns (ok: bool)
      modifies this`regs, this`tick
      ensures ok == oracle(I2c, old(tick)) && tick == old(tick) + 1
      ensures regs == if ok then old(regs)[reg := value] else old(regs)
    {
      ok := Request(I2c);
      if ok { regs := regs[reg := value]; }
    }

    /** Writes one value to consecutive registers until a write fails. */
    method WriteBlock(first: int, count: nat, value: int) returns (ok: bool)
      modifies this`regs, this`tick
      ensures Reply(regs, tick, ok) == old(WriteRegs(regs, tick, oracle, Block(first, count, value)))
    {
      ghost var ws := Block(first, count, value);
      ghost var goal := WriteRegs(regs, tick, oracle, ws);
      ok := true;
      var i := 0;
      while i < count && ok
        invariant 0 <= i <= count
        invariant goal == if ok then WriteRegs(regs, tick, oracle, ws[i..]) else Reply(regs, tick, false)
        decreases count - i
      {
        assert ws[i..][1..] == ws[i + 1..];
        ok := WriteReg(first + i, value);
        i := i + 1;
      }
    }

    lemma {:induction false} WriteRegsAppend(rs: Regs, n: nat, front: seq<(int, int)>, back: seq<(int, int)>)
      ensures WriteRegs(rs, n, oracle, front + back)
              == var r := WriteRegs(rs, n, oracle, front);
                 if r.ok then WriteRegs(r.part, r.tick, oracle, back) else r
      decreases |front|
    {
      if front == [] {
        assert front + back == back;
      } else {
        assert (front + back)[1..] == front[1..] + back;
        WriteRegsAppend(rs[front[0].0 := front[0].1], n + 1, front[1..], back);
      }
    }

    /** The Bluetooth registers, then the FM registers. */
    method RunBtFmPinSwitch(fmMode: bool) returns (ok: bool)
      modifies this`regs, this`tick
      ensures Reply(regs, tick, ok) == old(OnBus(regs, tick, oracle, PinWrites(fmMode)))
    {
      hide WriteRegs;
      ok := Request(I2c);
      if !ok { return; }
      var btVal := if fmMode then 0x15 else 0x40;
      var fmVal := if fmMode then 0x40 else 0x15;
      WriteRegsAppend(regs, tick, Block(0x88, 4, btVal), Block(0x8e, 3, fmVal));
      assert PinWrites(fmMode) == Block(0x88, 4, btVal) + Block(0x8e, 3, fmVal);
      ok := WriteBlock(0x88, 4, btVal);
      if !ok { return; }
      ok := WriteBlock(0x8e, 3, fmVal);
    }

    lemma WriteRegsFrom(rs: Regs, n: nat, ws: seq<(int, int)>, i: nat)
      requires i <= |ws|
      ensures WriteRegs(rs, n, oracle, ws[i..])
              == if i == |ws| then Reply(rs, n, true)
                 else if oracle(I2c, n) then WriteRegs(rs[ws[i].0 := ws[i].1], n + 1, oracle, ws[i + 1..])
                 else Reply(rs, n + 1, false)
    {
      if i < |ws| { assert ws[i..][1..] == ws[i + 1..]; }
    }

    /** Writes a table of registers until a write fails. */
    method WriteTable(ws: seq<(int, int)>) returns (ok: bool)
      modifies this`regs, this`tick
      ensures Reply(regs, tick, ok) == old(WriteRegs(regs, tick, oracle, ws))
    {
      hide WriteRegs;
      ghost var goal := WriteRegs(regs, tick, oracle, ws);
      assert ws[0..] == ws;
      ok := true;
      var i := 0;
      while i < |ws| && ok
        invariant 0 <= i <= |ws|
        invariant goal == if ok then WriteRegs(regs, tick, oracle, ws[i..]) else Reply(regs, tick, false)
        decreases |ws| - i
      {
        WriteRegsFrom(regs, tick, ws, i);
        ok := WriteReg(ws[i].0, ws[i].1);
        i := i + 1;
      }
      if ok { WriteRegsFrom(regs, tick, ws, i); }
    }

    method RunFmAudioPathEnable() returns (ok: bool)
      modifies this`regs, this`tick
      ensures Reply(regs, tick, ok) == old(OnBus(regs, tick, oracle, PATH_WRITES))
    {
      hide WriteRegs;
      ok := Request(I2c);
      if !ok { return; }
      ok := WriteTable(PATH_WRITES);
    }

    /** FM on: nothing muted, and the pins follow into the FM endpoints. */
    method RouteWithFm(dev: int) returns (ok: bool)
      modifies this`sound, this`regs, this`tick
      ensures var rpc := old(RouteRpc(sound, tick, oracle, cfg, dev, false, false));
              && sound == rpc.part && ok == rpc.ok
              && Reply(regs, tick, true)
                 == old(if IsFm(cfg, dev) && dev != cur then
                          var switched := OnBus(regs, rpc.tick, oracle, PinWrites(true));
                          OnBus(switched.part, switched.tick, oracle, PATH_WRITES).(ok := true)
                        else Reply(regs, rpc.tick, true))
    {
      hide RouteRpc, OnBus, IsFm;
      ok := DoRouteAudioRpc(dev, false, false);
      if IsFm(cfg, dev) && dev != cur {
        var _ := RunBtFmPinSwitch(true);
        var _ := RunFmAudioPathEnable();
      }
    }

    /** FM off: the pins go back on leaving an FM endpoint. */
    method RouteWithoutFm(dev: int, mute: bool) returns (ok: bool)
      modifies this`sound, this`regs, this`tick
      ensures var pins := old(if IsFm(cfg, cur) && !IsFm(cfg, dev) then OnBus(regs, tick, oracle, PinWrites(false))
                              else Reply(regs, tick, true));
              && regs == pins.part
              && Reply(sound, tick, ok) == old(RouteRpc(sound, pins.tick, oracle, cfg, dev, mute, micMute))
    {
      hide RouteRpc, OnBus, IsFm;
      if IsFm(cfg, cur) && !IsFm(cfg, dev) {
        var _ := RunBtFmPinSwitch(false);
      }
      ok := DoRouteAudioRpc(dev, mute, micMute);
    }

    method DoAudioRouteOrMute(dev: int) returns (ok: bool)
      modifies this`fmPrev, this`sound, this`regs, this`tick
      ensures (State(), ok) == old(Route(State(), oracle, cfg, dev))
    {
      hide RouteRpc, OnBus, IsFm;
      var mute := mode !in cfg.callModes;
      if mute && dev == cfg.ep.handset {
        mute := !builtinMic;
      }
      fmPrev := fm;
      if fm {
        ok := RouteWithFm(dev);
      } else {
        ok := RouteWithoutFm(dev, mute);
      }
    }

    // --------------------------------------------------------- post-processing

    method SetFilter(f: Filter, id: nat) returns (ok: bool)
      modifies this`dsp, this`tick
      ensures ok == oracle(Pcm, old(tick)) && tick == old(tick) + 1
      ensures dsp == if ok then old(dsp).(coef := old(dsp).coef[f := id]) else old(dsp)
    {
      ok := Request(Pcm);
      if ok { dsp := dsp.(coef := dsp.coef[f := id]); }
    }

    method EnableAudpp(m: bv16, id: nat) returns (ok: bool)
      modifies this`dsp, this`tick
      ensures Reply(dsp, tick, ok) == old(SetDspMask(dsp, tick, oracle, m, id, mask))
    {
      ok := Request(Pcm);
      if ok { dsp := dsp.(mask := m, forDevice := id, forMask := mask); }
    }

    /** The mask arithmetic: start from the route's mask, clear bit by bit. */
    method BuildEnableMask(id: nat) returns (enable: bv16)
      requires mask & ALL_FILTERS == mask
      ensures enable == EnableMask(cfg, mask, id)
    {
      enable := mask;
      if !cfg.flags(id, Mbadrc) || mask & 0x10 == 0 {
        enable := enable & MBADRC_DISABLE;
      } else {
        enable := enable & ADRC_DISABLE;
      }
      if !cfg.flags(id, Filter.Adrc) || mask & 0x1 == 0 { enable := enable & ADRC_DISABLE; }
      if !cfg.flags(id, Filter.Eq) || mask & 0x2 == 0 { enable := enable & EQ_DISABLE; }
      if !cfg.flags(id, RxIir) || mask & 0x4 == 0 { enable := enable & RX_IIR_DISABLE; }
      MaskBits((set f | f in {Filter.Adrc, Filter.Eq, RxIir, Mbadrc} && Wanted(cfg, mask, id, f)), enable);
    }

    /** Which coefficient tables the current endpoint has. */
    method FindTable() returns (id: int)
      ensures id == TableOf(cfg, cur)
    {
      if cur < 0 { return -1; }
      if cur == cfg.ep.speaker {
        id := 0;
      } else if cur == cfg.ep.handset {
        id := 1;
      } else if cur == cfg.ep.headset {
        id := 2;
      } else {
        id := -1;
      }
    }

    /** One filter's coefficients, if it is enabled. */
    method SendOne(f: Filter, enable: bv16, id: nat) returns (ok: bool)
      modifies this`dsp, this`tick
      ensures Reply(dsp.coef, tick, ok) == old(SendFilters(dsp.coef, tick, oracle, [f], enable, id))
      ensures dsp == old(dsp).(coef := dsp.coef)
    {
      hide Has;
      ok := true;
      if Has(enable, f) {
        ok := SetFilter(f, id);
      }
    }

    lemma SendSplit(coef: map<Filter, nat>, n: nat, f: Filter, rest: seq<Filter>, m: bv16, id: nat)
      ensures SendFilters(coef, n, oracle, [f] + rest, m, id)
              == var r := SendFilters(coef, n, oracle, [f], m, id);
                 if r.ok then SendFilters(r.part, r.tick, oracle, rest, m, id) else r
      ensures SEND_ORDER == [Mbadrc] + [Filter.Adrc, Filter.Eq, RxIir]
      ensures [Filter.Adrc, Filter.Eq, RxIir] == [Filter.Adrc] + [Filter.Eq, RxIir]
      ensures [Filter.Eq, RxIir] == [Filter.Eq] + [RxIir]
    {
      hide Has;
      assert ([f] + rest)[1..] == rest;
      assert [f][1..] == [];
    }

    method SendCoefficients(enable: bv16, id: nat) returns (ok: bool)
      modifies this`dsp, this`tick
      ensures Reply(dsp.coef, tick, ok) == old(SendFilters(dsp.coef, tick, oracle, SEND_ORDER, enable, id))
      ensures dsp == old(dsp).(coef := dsp.coef)
    {
      hide Has, SendFilters;
      SendSplit(dsp.coef, tick, Mbadrc, [Filter.Adrc, Filter.Eq, RxIir], enable, id);
      ok := SendOne(Mbadrc, enable, id);
      if !ok { return; }
      SendSplit(dsp.coef, tick, Filter.Adrc, [Filter.Eq, RxIir], enable, id);
      ok := SendOne(Filter.Adrc, enable, id);
      if !ok { return; }
      SendSplit(dsp.coef, tick, Filter.Eq, [RxIir], enable, id);
      ok := SendOne(Filter.Eq, enable, id);
      if !ok { return; }
      ok := SendOne(RxIir, enable, id);
    }

    method SwitchDsp(on: bool) returns (ok: bool)
      requires mask & ALL_FILTERS == mask
      modifies this`dsp, this`tick
      ensures Reply(dsp, tick, ok) == old(PostProcOf(dsp, tick, oracle, cfg, cur, mask, on))
    {
      hide EnableMask, Wanted, SendFilters, TableOf;
      if !cfg.parsed { return false; }
      var id := FindTable();
      if id < 0 { return false; }
      ok := Request(Pcm);
      if !ok { return; }
      if on {
        var enable := BuildEnableMask(id);
        ok := SendCoefficients(enable, id);
        if !ok { return; }
        ok := EnableAudpp(enable, id);
      } else {
        ok := EnableAudpp(0, id);
      }
    }

    /** Coefficients of the wanted filters, then the mask; off clears the mask. */
    method EnablePostProc(on: bool) returns (ok: bool)
      requires mask & ALL_FILTERS == mask
      modifies this`dsp, this`tick
      ensures (State(), ok) == old(PostProc(State(), oracle, cfg, on))
    {
      ok := SwitchDsp(on);
    }

    // ---------------------------------------------------------------- routing

    /** The endpoint and mask for the outputs, branch by branch. */
    method SelectOutput(before: bv16) returns (dev: int, feature: bv16)
      ensures dev == PreferredOutput(State(), cfg) && feature == OutputMask(State(), before)
    {
      hide FirstOf;
      ghost var options := OutputOptions(State(), cfg);
      ghost var masks := MaskOptions(State(), before);
      ghost var i, j := 0, 0;
      feature := before;
      if fm {
        var fmSpk := if cfg.analog then cfg.ep.fmAnalogSpeaker else cfg.ep.fmSpeaker;
        var fmHst := if cfg.analog then cfg.ep.fmAnalogHeadset else cfg.ep.fmHeadset;
        if WiredHeadset in outs || WiredHeadphone in outs {
          dev, i := fmHst, 0;
        } else {
          dev, i := fmSpk, 1;
        }
        feature, j := EQ_AND_IIR, 0;
      } else if tty != TtyOff && mode == InCall && WiredHeadset in outs {
        if tty == TtyFull {
          dev, i := cfg.ep.ttyHeadset, 2;
        } else if tty == TtyVco {
          dev, i := cfg.ep.ttyVco, 3;
        } else {
          dev, i := cfg.ep.ttyHco, 4;
        }
        j := 1;
      } else if BtSco in outs || BtScoHeadset in outs {
        dev, i, j := cfg.ep.bt, 5, 2;
      } else if BtScoCarkit in outs {
        dev, i, j := cfg.ep.carkit, 6, 2;
      } else if WiredHeadset in outs {
        dev, i := cfg.ep.headset, 7;
        feature, j := HeadsetMask(headsetProp), 3;
      } else if WiredHeadphone in outs {
        dev, i := cfg.ep.headset, 7;
        feature, j := HeadsetMask(headsetProp), 3;
      } else if Speaker in outs {
        dev, i := cfg.ep.speaker, 8;
        feature, j := ALL_FILTERS, 4;
      } else {
        dev, i := cfg.ep.handset, 9;
        feature, j := ALL_FILTERS, 4;
      }
      FirstOfIs(options, cfg.ep.handset, i);
      FirstOfIs(masks, ALL_FILTERS, j);
    }

    /** The endpoint and mask an input stream asks for, branch by branch: the first
        of the options that applies, or none when it names no device. */
    method SelectInput(ins: set<InDevice>) returns (dev: int, feature: bv16)
      ensures (dev, feature) == PreferredInput(State(), cfg, ins)
    {
      hide FirstOf;
      ghost var i := if BtScoMic in ins then 0 else if WiredHeadsetMic in ins then 1 else if Speaker in outs then 2 else 3;
      FirstOfIs(InputOptions(State(), cfg, ins), (cfg.ep.handset, 0), i);
      dev, feature := -1, 0;
      if ins != {} {
        if BtScoMic in ins {
          dev := cfg.ep.bt;
        } else if WiredHeadsetMic in ins {
          dev, feature := cfg.ep.headset, HeadsetMask(headsetProp);
        } else if Speaker in outs {
          dev, feature := cfg.ep.speaker, ALL_FILTERS;
        } else {
          dev := cfg.ep.handset;
        }
      }
    }

    method SelectDevice(ins: set<InDevice>) returns (dev: int, feature: bv16)
      ensures (dev, feature) == Choose(State(), cfg, ins)
    {
      hide PreferredInput, PreferredOutput, OutputMask;
      dev, feature := SelectInput(ins);
      if dev == -1 {
        dev, feature := SelectOutput(feature);
      }
      if dualMic && mode == InCall {
        if dev == cfg.ep.handset {
          dev := cfg.ep.sadcHandset;
        } else if dev == cfg.ep.speaker {
          dev := cfg.ep.sadcSpeaker;
        }
      }
    }

    /** While playing: off for the old device, then on for the new one. */
    method SwitchPostProc(dev: int, feature: bv16)
      requires mask & ALL_FILTERS == mask && feature & ALL_FILTERS == feature
      modifies this`cur, this`act, this`mask, this`dsp, this`tick
      ensures mask == feature
      ensures State() == old(Settle(State(), oracle, cfg, dev, feature))
    {
      hide PostProc;
      if playback {
        var _ := EnablePostProc(false);
      }
      ghost var u := State();
      act := dev;
      cur := dev;
      mask := feature;
      assert State() == u.(act := dev, cur := dev, mask := feature);
      if playback {
        var _ := EnablePostProc(true);
      }
    }

    method TakeIntoUse(dev: int, feature: bv16) returns (ok: bool)
      requires mask & ALL_FILTERS == mask && feature & ALL_FILTERS == feature
      modifies this`fmPrev, this`cur, this`act, this`mask, this`sound, this`regs, this`dsp, this`tick
      ensures mask & ALL_FILTERS == mask
      ensures (State(), ok) == old(Adopt(State(), oracle, cfg, dev, feature))
    {
      hide Route, PostProc;
      if dev != -1 && (dev != cur || fm != fmPrev) {
        ok := DoAudioRouteOrMute(dev);
        SwitchPostProc(dev, feature);
      } else {
        ok := true;
      }
    }

    /** Choose for an input, or for the outputs alone, and take it into use. */
    method RouteFor(ins: set<InDevice>) returns (ok: bool)
      requires mask & ALL_FILTERS == mask
      modifies this`fmPrev, this`cur, this`act, this`mask, this`sound, this`regs, this`dsp, this`tick
      ensures mask & ALL_FILTERS == mask
      ensures (State(), ok) == old(var (dev, feature) := Choose(State(), cfg, ins);
                                   Adopt(State(), oracle, cfg, dev, feature))
    {
      hide Adopt, Choose;
      MasksInRange(State(), cfg, ins);
      var dev, feature := SelectDevice(ins);
      ok := TakeIntoUse(dev, feature);
    }

    method DoRouting(input: Option<set<InDevice>>) returns (ok: bool)
      requires mask & ALL_FILTERS == mask
      modifies this`builtinMic, this`fmPrev, this`cur, this`act, this`mask, this`sound, this`regs, this`dsp, this`tick
      ensures mask & ALL_FILTERS == mask
      ensures (State(), ok) == old(match input
                                   case None => RouteOutput(State(), oracle, cfg)
                                   case Some(ins) => RouteInput(State(), oracle, cfg, ins))
    {
      hide Adopt, Choose;
      if input.Some? {
        ghost var before := State();
        builtinMic := input.value == {BuiltinMic};
        assert State() == before.(builtinMic := input.value == {BuiltinMic});
        if input.value == {VoiceCall} { return true; }
        ok := RouteFor(input.value);
      } else {
        ok := RouteFor({});
      }
    }

    // -------------------------------------------------------------------- FM

    method RunFmAudmgrSession(on: bool)
      modifies this`link, this`tick
      ensures var r := old(Session(link, tick, oracle, on)); link == r.part && tick == r.tick
    {
      if on {
        if link.valid { return; }
        var ok := Request(Audmgr);
        if !ok { return; }
        link := link.(opens := link.opens + 1);
        ok := Request(Audmgr);
        if !ok {
          link := link.(closes := link.closes + 1);
          return;
        }
        link := link.(valid := true);
        return;
      }
      if link.valid {
        var _ := Request(Audmgr);
        link := link.(closes := link.closes + 1, valid := false);
      }
    }

    method SetFmOnOff(on: bool)
      modifies this`fm, this`link, this`tick
      ensures State() == old(SetFm(State(), oracle, on))
    {
      hide Session;
      fm := on;
      RunFmAudmgrSession(on);
    }

    // ------------------------------------------------------------ public calls

    /** The base class accepts the mode or not. */
    method SetMode(m: Mode, accepted: bool)
      requires Valid()
      modifies this`mode, this`cur
      ensures Valid()
      ensures State() == old(Step(State(), oracle, cfg, OpSetMode(m, accepted)))
    {
      hide Always;
      AlwaysKnowsMask(State(), cfg);
      StepKeepsAlways(State(), oracle, cfg, OpSetMode(m, accepted));
      if accepted {
        mode := m;
        cur := -1;
      }
    }

    method TakeMicMute(muted: bool) returns (ok: bool)
      modifies this`micMute, this`fmPrev, this`sound, this`regs, this`tick
      ensures (State(), ok) == old(SetMicMute(State(), oracle, cfg, muted))
    {
      hide Route;
      ok := true;
      if micMute != muted {
        micMute := muted;
        ok := DoAudioRouteOrMute(cfg.ep.current);
      }
    }

    method SetMicMuteNosync(muted: bool) returns (ok: bool)
      requires Valid()
      modifies this`micMute, this`fmPrev, this`sound, this`regs, this`tick
      ensures Valid()
      ensures (State(), ok) == old(SetMicMute(State(), oracle, cfg, muted))
    {
      hide Always, SetMicMute;
      StepKeepsAlways(State(), oracle, cfg, OpSetMicMute(muted));
      ok := TakeMicMute(muted);
    }

    method CheckMicMute()
      requires Valid()
      modifies this`micMute, this`fmPrev, this`sound, this`regs, this`tick
      ensures Valid()
      ensures State() == old(Step(State(), oracle, cfg, OpCheckMicMute))
    {
      hide SetMicMute, Always;
      if mode != InCall {
        var _ := SetMicMuteNosync(true);
      }
    }

    method TakeNrecKey(p: Params)
      modifies this`nrec
      ensures State() == old(OnNrec(State(), p))
    {
      if p.nrec.Some? {
        nrec := p.nrec.value;
      }
    }

    method NoteBtId(id: int)
      modifies this`btId
      ensures State() == old(State()).(btId := id)
    {
      btId := id;
    }

    /** The headset name: without an endpoint of that name, route. */
    method TakeNameKey(p: Params)
      requires mask & ALL_FILTERS == mask
      modifies this
      ensures mask & ALL_FILTERS == mask
      ensures State() == old(OnName(State(), oracle, cfg, p))
    {
      hide RouteOutput;
      if p.btName.Some? {
        NoteBtId(p.btName.value);
        if p.btName.value == 0 {
          var _ := DoRouting(None);
        }
      }
    }

    /** Keys looked at before the TTY mode. */
    method TakeRoutingKeys(p: Params)
      requires mask & ALL_FILTERS == mask
      modifies this
      ensures mask & ALL_FILTERS == mask
      ensures State() == old(OnDualMic(OnName(OnNrec(State(), p), oracle, cfg, p), oracle, cfg, p))
    {
      hide RouteOutput, OnName, OnNrec;
      TakeNrecKey(p);
      TakeNameKey(p);
      ghost var t := State();
      if p.dualMic.Some? {
        dualMic := p.dualMic.value;
        assert State() == t.(dualMic := p.dualMic.value);
        var _ := DoRouting(None);
      }
    }

    method TakeFmKeys(p: Params)
      modifies this`fm, this`link, this`tick
      ensures State() == old(OnFm(State(), oracle, p))
    {
      hide SetFm;
      if p.fmOn { SetFmOnOff(true); }
      if p.fmOff { SetFmOnOff(false); }
    }

    method NoteTty(t: TtyMode)
      modifies this`tty
      ensures State() == old(State()).(tty := t)
    {
      tty := t;
    }

    /** The keys behind the TTY mode, and the route at the end. */
    method TakeLastKeys(p: Params)
      requires mask & ALL_FILTERS == mask
      modifies this
      ensures mask & ALL_FILTERS == mask
      ensures State() == old(RouteOutput(OnFm(State(), oracle, p), oracle, cfg).0)
    {
      hide RouteOutput, OnFm;
      TakeFmKeys(p);
      var _ := DoRouting(None);
    }

    method TakeParameters(p: Params)
      requires mask & ALL_FILTERS == mask
      modifies this
      ensures mask & ALL_FILTERS == mask
      ensures State() == old(SetParameters(State(), oracle, cfg, p))
    {
      hide RouteOutput, OnName, OnNrec, OnDualMic, OnFm;
      TakeRoutingKeys(p);
      if p.tty.Some? {
        NoteTty(p.tty.value);
        if mode != InCall { return; }
      }
      TakeLastKeys(p);
    }

    method SetParametersOf(p: Params)
      requires Valid()
      modifies this
      ensures Valid()
      ensures State() == old(SetParameters(State(), oracle, cfg, p))
    {
      hide Always;
      AlwaysKnowsMask(State(), cfg);
      StepKeepsAlways(State(), oracle, cfg, OpSetParameters(p));
      TakeParameters(p);
      hide *;
    }

    method SetDevices(devices: set<OutDevice>)
      modifies this`outs
      ensures State() == old(State()).(outs := devices)
    {
      outs := devices;
    }

    method TakeOutputParameters(devices: set<OutDevice>, p: Params)
      requires mask & ALL_FILTERS == mask
      modifies this
      ensures State() == old(Step(State(), oracle, cfg, OpRouteOutput(devices, p)))
    {
      hide RouteOutput, SetParameters;
      SetDevices(devices);
      TakeParameters(p);
      var _ := DoRouting(None);
    }

    /** A routing key on the output stream. */
    method SetOutputParameters(devices: set<OutDevice>, p: Params)
      requires Valid()
      modifies this
      ensures Valid()
      ensures State() == old(Step(State(), oracle, cfg, OpRouteOutput(devices, p)))
    {
      hide Always, Step;
      AlwaysKnowsMask(State(), cfg);
      StepKeepsAlways(State(), oracle, cfg, OpRouteOutput(devices, p));
      TakeOutputParameters(devices, p);
    }

    method ClearCurDevice()
      modifies this`cur
      ensures State() == old(State()).(cur := -1)
    {
      cur := -1;
    }

    method StartInput(ins: set<InDevice>)
      requires Valid()
      modifies this
      ensures Valid()
      ensures State() == old(Step(State(), oracle, cfg, OpStartInput(ins)))
    {
      hide Always;
      AlwaysKnowsMask(State(), cfg);
      StepKeepsAlways(State(), oracle, cfg, OpStartInput(ins));
      hide RouteInput;
      ClearCurDevice();
      var _ := DoRouting(Some(ins));
    }

    method StandbyInput()
      requires Valid()
      modifies this
      ensures Valid()
      ensures State() == old(Step(State(), oracle, cfg, OpStandbyInput))
    {
      hide Always;
      AlwaysKnowsMask(State(), cfg);
      StepKeepsAlways(State(), oracle, cfg, OpStandbyInput);
      hide RouteOutput;
      ClearCurDevice();
      var _ := DoRouting(None);
    }

    /** The three places where the output stream changes the playback flag. */
    method PlaybackOn()
      requires Valid()
      modifies this`playback, this`dsp, this`tick
      ensures Valid()
      ensures State() == old(Step(State(), oracle, cfg, OpPlaybackStarted))
    {
      hide Always;
      AlwaysKnowsMask(State(), cfg);
      StepKeepsAlways(State(), oracle, cfg, OpPlaybackStarted);
      hide PostProcOf;
      playback := true;
      var _ := EnablePostProc(true);
    }

    method PlaybackFailedToStart()
      requires Valid()
      modifies this`playback, this`dsp, this`tick
      ensures Valid()
      ensures State() == old(Step(State(), oracle, cfg, OpPlaybackFailed))
    {
      hide Always;
      AlwaysKnowsMask(State(), cfg);
      StepKeepsAlways(State(), oracle, cfg, OpPlaybackFailed);
      hide PostProcOf;
      playback := false;
      var _ := EnablePostProc(false);
    }

    method PlaybackOff()
      requires Valid()
      modifies this`playback, this`dsp, this`tick
      ensures Valid()
      ensures State() == old(Step(State(), oracle, cfg, OpPlaybackStopped))
    {
      hide Always;
      AlwaysKnowsMask(State(), cfg);
      StepKeepsAlways(State(), oracle, cfg, OpPlaybackStopped);
      hide PostProcOf;
      var _ := EnablePostProc(false);
      playback := false;
    }
  }
}
