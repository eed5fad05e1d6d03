/**
 The post-processing filters over whole runs: off while nothing plays, and those of
 the endpoint in use while something does.
 */
module RoutingFilters {
  import opened AudioSystem
  import opened Routing
  import opened RoutingProofs
  import opened Wrappers

  // --------------------------------------------------------- filters when idle

  /** One call keeps the filters off while nothing plays if and only if it does not
      end playback on an endpoint without tables. */
  lemma StepSilences(s: Hal, o: Oracle, cfg: Config, op: Op)
    requires AllSucceed(o, Pcm) && IdleOff(s)
    ensures IdleOff(Step(s, o, cfg, op)) <==> !LeavesFilters(s, cfg, op)
  {
    hide PostProcOf, TableOf;
    if LeavesFilters(s, cfg, op) {
      SwitchingOff(s, o, cfg);
    } else {
      StepKeeps(Idle, s, o, cfg, op);
      hide Step;
    }
  }

  /** After every prefix of the calls, filters are off unless something plays. */
  ghost predicate IdleThroughout(s: Hal, o: Oracle, cfg: Config, ops: seq<Op>)
    decreases |ops|
  {
    IdleOff(s) && (ops == [] || IdleThroughout(Step(s, o, cfg, ops[0]), o, cfg, ops[1..]))
  }

  ghost predicate NeverLeaves(s: Hal, o: Oracle, cfg: Config, ops: seq<Op>)
    decreases |ops|
  {
    ops == [] || (!LeavesFilters(s, cfg, ops[0]) && NeverLeaves(Step(s, o, cfg, ops[0]), o, cfg, ops[1..]))
  }

  /** On a whole run the filters are off whenever nothing plays if and only if no
      call of the run leaves them on. */
  lemma {:induction false} RunSilences(s: Hal, o: Oracle, cfg: Config, ops: seq<Op>)
    requires AllSucceed(o, Pcm) && IdleOff(s)
    ensures IdleThroughout(s, o, cfg, ops) <==> NeverLeaves(s, o, cfg, ops)
    decreases |ops|
  {
    hide IdleOff, LeavesFilters, Step, AllSucceed;
    if ops != [] {
      StepSilences(s, o, cfg, ops[0]);
      var t := Step(s, o, cfg, ops[0]);
      if IdleOff(t) {
        RunSilences(t, o, cfg, ops[1..]);
      } else {
        assert !IdleThroughout(t, o, cfg, ops[1..]);
      }
    }
  }

  const NO_KEYS: Op := OpSetParameters(Params(None, None, None, None, false, false))

  /** Playing on the speaker, a mode change, and standby before the next route. */
  const FORGETFUL_RUN: seq<Op> :=
    [OpOpenOutput({Speaker}), NO_KEYS, OpPlaybackStarted, OpSetMode(Ringtone, true), OpPlaybackStopped]

  lemma SpeakerPreferred(s: Hal, cfg: Config)
    requires !s.fm && s.outs == {Speaker} && s.mode == Normal
    ensures PreferredOutput(s, cfg) == cfg.ep.speaker
    ensures forall before :: OutputMask(s, before) == ALL_FILTERS
  {
    FirstOfIs(OutputOptions(s, cfg), cfg.ep.handset, 8);
    forall before ensures OutputMask(s, before) == ALL_FILTERS {
      FirstOfIs(MaskOptions(s, before), ALL_FILTERS, 4);
    }
    hide FirstOf;
  }

  lemma RoutedToSpeaker(s: Hal, o: Oracle, cfg: Config)
    requires s == INITIAL.(outs := {Speaker}) && cfg.ep.speaker >= 0
    ensures var t := Step(s, o, cfg, NO_KEYS);
            t.cur == cfg.ep.speaker && t.mask == ALL_FILTERS && t.dsp == s.dsp && !t.playback
  {
    hide PreferredOutput, OutputMask, PostProcOf, OnBus, RouteRpc, IsFm, EarMute;
    SpeakerPreferred(s, cfg);
  }

  /** A mask that is not zero has a filter. */
  lemma FilterIn(cfg: Config, mask: bv16, id: nat) returns (f: Filter)
    requires EnableMask(cfg, mask, id) != 0
    ensures Has(EnableMask(cfg, mask, id), f)
  {
    hide Wanted;
    var fs := set g | g in {Filter.Adrc, Filter.Eq, RxIir, Mbadrc} && Wanted(cfg, mask, id, g);
    assert MaskOf({}) == 0;
    f :| f in fs;
    MaskOfMeans(fs, f);
  }

  /** With every filter asked for, some filter is switched on exactly when one is flagged. */
  lemma SomethingWanted(cfg: Config)
    ensures EnableMask(cfg, ALL_FILTERS, 0) != 0 <==> exists f :: cfg.flags(0, f)
  {
    hide EnableMask;
    var mask := EnableMask(cfg, ALL_FILTERS, 0);
    forall f ensures Has(mask, f) <==> Wanted(cfg, ALL_FILTERS, 0, f) { EnableMaskMeans(cfg, ALL_FILTERS, 0, f); }
    assert forall f :: Has(ALL_FILTERS, f);
    NoFilters();
    hide Has;
    if f :| cfg.flags(0, f) {
      assert Wanted(cfg, ALL_FILTERS, 0, f) || Wanted(cfg, ALL_FILTERS, 0, Mbadrc);
    }
    if mask != 0 {
      var f := FilterIn(cfg, ALL_FILTERS, 0);
    }
  }

  lemma PlayingOnSpeaker(s: Hal, o: Oracle, cfg: Config)
    requires AllSucceed(o, Pcm) && s.cur == cfg.ep.speaker >= 0 && s.mask == ALL_FILTERS && s.dsp.mask == 0
    ensures Step(s, o, cfg, OpPlaybackStarted).dsp.mask != 0 <==> cfg.parsed && exists f :: cfg.flags(0, f)
  {
    hide SendFilters, EnableMask;
    var mask := EnableMask(cfg, ALL_FILTERS, 0);
    AllSent(s.dsp.coef, s.tick + 1, o, mask, 0);
    SomethingWanted(cfg);
  }

  lemma StoppedWhenForgotten(s: Hal, o: Oracle, cfg: Config)
    ensures var t := Step(Step(s, o, cfg, OpSetMode(Ringtone, true)), o, cfg, OpPlaybackStopped);
            !t.playback && t.dsp.mask == s.dsp.mask
  {
  }

  /** Five calls after which nothing plays and filters are on exactly when the parsed
      file flags one for the speaker. */
  lemma ForgettingLeavesFilters(o: Oracle, cfg: Config)
    requires AllSucceed(o, Pcm) && cfg.ep.speaker >= 0
    ensures var t := Run(INITIAL, o, cfg, FORGETFUL_RUN);
            !t.playback && (t.dsp.mask != 0 <==> cfg.parsed && exists f :: cfg.flags(0, f))
  {
    hide Step, Run, AllSucceed, PostProcOf, EnableMask, RouteOutput;
    RunOfFive(INITIAL, o, cfg, OpOpenOutput({Speaker}), NO_KEYS, OpPlaybackStarted, OpSetMode(Ringtone, true), OpPlaybackStopped);
    var s1 := INITIAL.(outs := {Speaker});
    OpeningOutput(INITIAL, o, cfg, {Speaker});
    var s2 := Step(s1, o, cfg, NO_KEYS);
    RoutedToSpeaker(s1, o, cfg);
    var s3 := Step(s2, o, cfg, OpPlaybackStarted);
    PlayingOnSpeaker(s2, o, cfg);
    StoppedWhenForgotten(s3, o, cfg);
  }

  // ----------------------------------------------------- filters while playing

  /** One call keeps the filters of the active endpoint on while something plays if
      and only if it does not start playback blind. */
  lemma StepPlays(s: Hal, o: Oracle, cfg: Config, op: Op)
    requires AllSucceed(o, Pcm) && PlaysFilters(s, cfg)
    ensures PlaysFilters(Step(s, o, cfg, op), cfg) <==> !StartsBlind(s, cfg, op)
  {
    hide PlaysFilters, Step, EnableMask;
    if op.OpPlaybackStarted? {
      PlaybackPlays(s, o, cfg, op);
    } else {
      StepKeeps(Playing, s, o, cfg, op);
    }
  }

  /** After every prefix of the calls. */
  ghost predicate PlaysThroughout(s: Hal, o: Oracle, cfg: Config, ops: seq<Op>)
    decreases |ops|
  {
    PlaysFilters(s, cfg) && (ops == [] || PlaysThroughout(Step(s, o, cfg, ops[0]), o, cfg, ops[1..]))
  }

  ghost predicate NeverBlind(s: Hal, o: Oracle, cfg: Config, ops: seq<Op>)
    decreases |ops|
  {
    ops == [] || (!StartsBlind(s, cfg, ops[0]) && NeverBlind(Step(s, o, cfg, ops[0]), o, cfg, ops[1..]))
  }

  /** On a whole run the DSP runs exactly the filters of the active endpoint whenever
      something plays if and only if no call of the run starts playback blind. */
  lemma {:induction false} RunPlays(s: Hal, o: Oracle, cfg: Config, ops: seq<Op>)
    requires AllSucceed(o, Pcm) && PlaysFilters(s, cfg)
    ensures PlaysThroughout(s, o, cfg, ops) <==> NeverBlind(s, o, cfg, ops)
    ensures NeverBlind(s, o, cfg, ops) ==> PlaysFilters(Run(s, o, cfg, ops), cfg)
    decreases |ops|
  {
    hide PlaysFilters, StartsBlind, Step, AllSucceed;
    if ops != [] {
      StepPlays(s, o, cfg, ops[0]);
      var t := Step(s, o, cfg, ops[0]);
      if PlaysFilters(t, cfg) {
        RunPlays(t, o, cfg, ops[1..]);
      } else {
        assert !PlaysThroughout(t, o, cfg, ops[1..]);
      }
    }
  }

  /** Routed to the speaker, a mode change, and playback before the next route. */
  const BLIND_RUN: seq<Op> :=
    [OpSetProperty(Lite), OpOpenOutput({Speaker}), NO_KEYS, OpSetMode(Ringtone, true), OpPlaybackStarted]

  lemma SettingProperty(o: Oracle, cfg: Config)
    ensures Step(INITIAL, o, cfg, OpSetProperty(Lite)) == INITIAL
  {
  }

  lemma SettingMode(s: Hal, o: Oracle, cfg: Config)
    ensures Step(s, o, cfg, OpSetMode(Ringtone, true)) == s.(mode := Ringtone, cur := -1)
  {
  }

  lemma BareStart(s: Hal, o: Oracle, cfg: Config)
    requires AllSucceed(o, Pcm) && s.act == cfg.ep.speaker >= 0 && s.cur == -1 && s.mask == ALL_FILTERS && s.dsp.mask == 0
    requires !s.playback
    ensures var t := Step(s, o, cfg, OpPlaybackStarted);
            && t.playback && t.act == s.act && t.dsp.mask == 0
            && (PlaysFilters(t, cfg) <==> !(cfg.parsed && exists f :: cfg.flags(0, f)))
  {
    hide EnableMask, PostProcOf, FiltersFor;
    NoTablesNoChange(s.dsp, s.tick, o, cfg, -1, s.mask);
    SomethingWanted(cfg);
    ExactMask(0, cfg, ALL_FILTERS, 0);
    assert 0 & ALL_FILTERS == 0;
  }

  /** Five calls after which the speaker plays with every filter off, although the
      parsed file may flag some for it. */
  lemma BlindRunPlaysBare(o: Oracle, cfg: Config)
    requires AllSucceed(o, Pcm) && cfg.ep.speaker >= 0
    ensures var t := Run(INITIAL, o, cfg, BLIND_RUN);
            && t.playback && t.act == cfg.ep.speaker && t.dsp.mask == 0
            && (PlaysFilters(t, cfg) <==> !(cfg.parsed && exists f :: cfg.flags(0, f)))
  {
    var s1 := INITIAL.(outs := {Speaker});
    var s2 := Step(s1, o, cfg, NO_KEYS);
    var s3 := s2.(mode := Ringtone, cur := -1);
    RoutedToSpeaker(s1, o, cfg);
    BareStart(s3, o, cfg);
    hide Step, Run, PlaysFilters;
    RunOfFive(INITIAL, o, cfg, OpSetProperty(Lite), OpOpenOutput({Speaker}), NO_KEYS, OpSetMode(Ringtone, true), OpPlaybackStarted);
    OpeningOutput(INITIAL, o, cfg, {Speaker});
    assert Step(INITIAL, o, cfg, OpSetProperty(Lite)) == INITIAL by { SettingProperty(o, cfg); }
    assert Step(s2, o, cfg, OpSetMode(Ringtone, true)) == s3 by { SettingMode(s2, o, cfg); }
  }
}
