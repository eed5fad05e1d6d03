/**
 The playback stream: open and configure on the first write after standby, start
 once two buffers are in, and keep the HAL's playback flag in step. Every answer
 of the driver is a parameter.
 */
module PcmOut {
  import opened AudioSystem
  import R = Routing
  import RP = RoutingProofs
  import opened AudioHardware

  // ---------------------------------------------------------------- the driver

  /** One answer to write(2): a byte count, EAGAIN, or another error. */
  datatype Answer = Wrote(n: nat) | Again | Failed

  /** The answers to one call of Write. Without further answers the call is still waiting. */
  datatype Script = Script(open: bool, getConfig: bool, setConfig: bool, answers: seq<Answer>, start: bool)

  /** The PCM node: all bytes it ever took; writes completed and starts issued on
      the latest descriptor, and whether one of them succeeded. */
  datatype Driver = Driver(open: bool, received: seq<byte>, done: nat, starts: nat, running: bool)

  const BUFFERS := 2

  datatype Stream = Stream(attached: bool, fd: bool, standby: bool, startCount: nat, retries: nat,
                           playback: bool, dev: Driver)

  const FRESH: Stream := Stream(false, false, true, 0, 0, false, Driver(false, [], 0, 0, false))

  datatype Result = Done | NoHardware | CannotOpen | CannotConfigure | InvalidFd | WriteFailed | StartFailed | Waiting

  // ------------------------------------------------------------- specification

  datatype End = AllTaken | Rejected | OutOfAnswers

  datatype Pushed = Pushed(got: seq<byte>, again: nat, end: End)

  function Min(a: nat, b: nat): nat { if a < b then a else b }

  /** What the driver takes of the bytes left. It never takes more than offered. */
  function Push(left: seq<byte>, answers: seq<Answer>): Pushed
    decreases |answers|
  {
    if left == [] then Pushed([], 0, AllTaken)
    else if answers == [] then Pushed([], 0, OutOfAnswers)
    else
      match answers[0]
      case Failed => Pushed([], 0, Rejected)
      case Again =>
        var r := Push(left, answers[1..]);
        r.(again := r.again + 1)
      case Wrote(n) =>
        var k := Min(n, |left|);
        var r := Push(left[k..], answers[1..]);
        r.(got := left[..k] + r.got)
  }

  /** Opening from standby; a half-opened node is closed again. */
  function Open(s: Stream, w: Script): (Stream, Result) {
    if !w.open then (s, CannotOpen)
    else
      var node := s.dev.(open := true, done := 0, starts := 0, running := false);
      if !w.getConfig || !w.setConfig then (s.(fd := false, dev := node.(open := false)), CannotConfigure)
      else (s.(fd := true, standby := false, startCount := BUFFERS, dev := node), Done)
  }

  /** All data is in: count down to the start. */
  function Complete(s: Stream, w: Script): (Stream, Result, seq<R.Op>) {
    var d := s.dev.(done := s.dev.done + 1);
    if s.startCount == 0 then (s.(dev := d), Done, [])
    else if s.startCount > 1 then (s.(startCount := s.startCount - 1, dev := d), Done, [])
    else
      var e := d.(starts := d.starts + 1, running := w.start);
      if w.start then (s.(startCount := 0, playback := true, dev := e), Done, [R.OpPlaybackStarted])
      else
        (s.(fd := false, standby := true, startCount := 0, playback := false, dev := e.(open := false)),
         StartFailed, [R.OpPlaybackFailed])
  }

  function Feed(s: Stream, data: seq<byte>, w: Script): (Stream, Result, seq<R.Op>) {
    if data != [] && !s.fd then (s, InvalidFd, [])
    else
      var p := Push(data, w.answers);
      var t := s.(retries := s.retries + p.again, dev := s.dev.(received := s.dev.received + p.got));
      match p.end
      case AllTaken => Complete(t, w)
      case Rejected => (t, WriteFailed, [])
      case OutOfAnswers => (t, Waiting, [])
  }

  /** One write, with the calls it makes on the HAL. */
  function Write(s: Stream, data: seq<byte>, w: Script): (Stream, Result, seq<R.Op>) {
    if !s.attached then (s.(fd := false, dev := s.dev.(open := false)), NoHardware, [])
    else if s.standby then
      var (t, r) := Open(s, w);
      if r == Done then Feed(t, data, w) else (t, r, [])
    else Feed(s, data, w)
  }

  function Standby(s: Stream): (Stream, seq<R.Op>) {
    if !s.standby && s.fd then
      (s.(fd := false, standby := true, playback := s.playback && !s.attached, dev := s.dev.(open := false)),
       if s.attached then [R.OpPlaybackStopped] else [])
    else (s.(standby := true), [])
  }

  /** Closing the stream closes its descriptor and leaves the HAL's flag alone. */
  function Destroy(s: Stream): Stream {
    s.(fd := false, dev := s.dev.(open := false))
  }

  /** CallReplace closes the stream and opens another on the same HAL. */
  datatype Call = CallAttach | CallWrite(data: seq<byte>, w: Script) | CallStandby | CallReplace

  function Step(s: Stream, c: Call): Stream {
    match c
    case CallAttach => s.(attached := true)
    case CallWrite(data, w) => Write(s, data, w).0
    case CallStandby => Standby(s).0
    case CallReplace => FRESH.(attached := s.attached, playback := s.playback, dev := Destroy(s).dev)
  }

  function Run(s: Stream, cs: seq<Call>): Stream
    decreases |cs|
  {
    if cs == [] then s else Run(Step(s, cs[0]), cs[1..])
  }

  // ---------------------------------------------------------------- invariants

  predicate Valid(s: Stream) {
    && (s.standby <==> !s.fd)
    && s.dev.open == s.fd
    && (s.fd ==> s.attached && s.startCount == BUFFERS - Min(s.dev.done, BUFFERS))
    && s.dev.starts == (if s.dev.done >= BUFFERS then 1 else 0)
    && (s.dev.running ==> s.dev.starts == 1)
    && (s.fd && s.dev.starts == 1 ==> s.dev.running)
    && (s.playback ==> s.attached)
  }

  /** The flag of a stream replaced while it played, until the next start or the
      next standby with a descriptor. */
  predicate StaleAfter(s: Stream, was: bool, c: Call) {
    match c
    case CallAttach => was
    case CallWrite(data, w) => was && Write(s, data, w).2 == []
    case CallStandby => was && !s.fd
    case CallReplace => was || (s.fd && s.dev.running)
  }

  predicate StaleRun(s: Stream, was: bool, cs: seq<Call>)
    decreases |cs|
  {
    if cs == [] then was else StaleRun(Step(s, cs[0]), StaleAfter(s, was, cs[0]), cs[1..])
  }

  lemma PrefixOfRest(left: seq<byte>, k: nat, got: seq<byte>)
    requires k <= |left| && |got| <= |left| - k && got == left[k..][..|got|]
    ensures left[..k] + got == left[..k + |got|]
    ensures left[..k] + got == left <==> got == left[k..]
  {
    if got == left[k..] {
      assert left[..k] + left[k..] == left;
    } else {
      assert |got| != |left| - k;
    }
  }

  /** The driver takes a prefix, and the loop ends normally exactly when it is all. */
  lemma {:induction false} PushTakesAPrefix(left: seq<byte>, answers: seq<Answer>)
    ensures var p := Push(left, answers);
            && |p.got| <= |left| && p.got == left[..|p.got|]
            && (p.end == AllTaken <==> p.got == left)
    decreases |answers|
  {
    if left != [] && answers != [] && !answers[0].Failed? {
      var k := if answers[0].Wrote? then Min(answers[0].n, |left|) else 0;
      PushTakesAPrefix(left[k..], answers[1..]);
      if answers[0].Wrote? {
        PrefixOfRest(left, k, Push(left[k..], answers[1..]).got);
      } else {
        assert left[0..] == left;
      }
    }
  }

  /** The bytes a list of answers takes in all, as far as there is data. */
  function Offered(answers: seq<Answer>): nat
    decreases |answers|
  {
    if answers == [] then 0 else (if answers[0].Wrote? then answers[0].n else 0) + Offered(answers[1..])
  }

  function Agains(answers: seq<Answer>): nat
    decreases |answers|
  {
    if answers == [] then 0 else (if answers[0].Again? then 1 else 0) + Agains(answers[1..])
  }

  /** The write loop uses up m answers: those in front of a failure or, before that,
      of the end of the data. The driver gets what they take in order, and each EAGAIN
      among them is counted. */
  lemma {:induction false} PushUses(left: seq<byte>, answers: seq<Answer>) returns (m: nat)
    ensures m <= |answers|
    ensures var p, used := Push(left, answers), answers[..m];
            && (forall j :: 0 <= j < m ==> !answers[j].Failed?)
            && |p.got| == Min(Offered(used), |left|) && p.again == Agains(used)
            && (p.end.AllTaken? ==> Offered(used) >= |left| && (m > 0 ==> Offered(answers[..m - 1]) < |left|))
            && (p.end.Rejected? ==> m < |answers| && answers[m].Failed? && Offered(used) < |left|)
            && (p.end.OutOfAnswers? ==> m == |answers| && Offered(used) < |left|)
    decreases |answers|
  {
    m := 0;
    if left != [] && answers != [] && !answers[0].Failed? {
      var rest := answers[1..];
      var k := if answers[0].Wrote? then Min(answers[0].n, |left|) else 0;
      assert left[0..] == left;
      var n := PushUses(left[k..], rest);
      m := n + 1;
      assert answers[..m] == [answers[0]] + rest[..n] && answers[..m][1..] == rest[..n];
      if n > 0 { assert answers[..n] == [answers[0]] + rest[..n - 1] && answers[..n][1..] == rest[..n - 1]; }
      assert rest[..0] == [] && answers[..0] == [];
    }
  }

  lemma StepIsValid(s: Stream, c: Call)
    requires Valid(s)
    ensures Valid(Step(s, c))
  {
    hide Push;
  }

  /** In standby exactly when no descriptor is open, at most one start on each
      descriptor, and the HAL's flag is up exactly when start succeeded on the
      open descriptor or it was left up by a stream replaced while playing. */
  lemma {:induction false} RunIsValid(s: Stream, was: bool, cs: seq<Call>)
    requires Valid(s) && s.playback == ((s.fd && s.dev.running) || was)
    ensures var t := Run(s, cs);
            Valid(t) && t.playback == ((t.fd && t.dev.running) || StaleRun(s, was, cs))
    decreases |cs|
  {
    hide Push;
    if cs != [] {
      StepIsValid(s, cs[0]);
      RunIsValid(Step(s, cs[0]), StaleAfter(s, was, cs[0]), cs[1..]);
    }
  }

  /** While the stream is not replaced with its descriptor open, the flag says
      exactly that start succeeded on the open descriptor. */
  lemma {:induction false} FlagIsExact(s: Stream, cs: seq<Call>)
    requires Valid(s) && s.playback == (s.fd && s.dev.running)
    requires forall i :: 0 <= i < |cs| && cs[i].CallReplace? ==> !Run(s, cs[..i]).fd
    ensures var t := Run(s, cs);
            t.playback == (t.fd && t.dev.running)
    decreases |cs|
  {
    hide Push;
    if cs != [] {
      StepIsValid(s, cs[0]);
      assert cs[..0] == [];
      var t := Step(s, cs[0]);
      forall i | 0 <= i < |cs[1..]| && cs[1..][i].CallReplace?
        ensures !Run(t, cs[1..][..i]).fd
      {
        assert cs[1 + i].CallReplace?;
        assert cs[..1 + i][1..] == cs[1..][..i];
      }
      FlagIsExact(t, cs[1..]);
    }
  }

  lemma RunSplit(s: Stream, cs: seq<Call>)
    requires cs != []
    ensures Run(s, cs) == Run(Step(s, cs[0]), cs[1..])
  {
  }

  /** The other case happens: two buffers played, stream replaced, nothing open. */
  lemma FlagGoesStale()
    ensures var w := Script(true, true, true, [Wrote(1)], true);
            var t := Run(FRESH, [CallAttach, CallWrite([0], w), CallWrite([0], w), CallReplace]);
            t.playback && !t.fd
  {
    var w := Script(true, true, true, [Wrote(1)], true);
    var a := Step(FRESH, CallAttach);
    var b := Step(a, CallWrite([0], w));
    var c := Step(b, CallWrite([0], w));
    assert Push([0], w.answers) == Pushed([0], 0, AllTaken) by {
      assert [0][1..] == [] && [0][..1] + [] == [0];
    }
    hide Push;
    assert c.playback && Step(c, CallReplace).playback && !Step(c, CallReplace).fd;
    hide Write;
    RunSplit(FRESH, [CallAttach, CallWrite([0], w), CallWrite([0], w), CallReplace]);
    RunSplit(a, [CallWrite([0], w), CallWrite([0], w), CallReplace]);
    RunSplit(b, [CallWrite([0], w), CallReplace]);
    RunSplit(c, [CallReplace]);
    hide Run;
  }

  /** The branch for an invalid descriptor is dead on every run. */
  lemma InvalidFdIsUnreachable(cs: seq<Call>, data: seq<byte>, w: Script)
    ensures var s := Run(FRESH, cs);
            && Write(s, data, w).1 != InvalidFd
            && (Write(s, data, w).1 == NoHardware <==> !s.attached)
  {
    hide Push;
    RunIsValid(FRESH, false, cs);
  }

  /** Start is issued by exactly one call per descriptor, the second write to
      complete on it; the flag follows its outcome. */
  lemma StartIsIssuedOnTheSecondBuffer(cs: seq<Call>, data: seq<byte>, w: Script)
    ensures var s := Run(FRESH, cs);
            var (t, r, ops) := Write(s, data, w);
            var before := if s.standby then 0 else s.dev.done;
            var issued := ops != [];
            && s.dev.starts <= 1
            && (issued <==> s.attached && (s.standby ==> w.open && w.getConfig && w.setConfig)
                            && Push(data, w.answers).got == data && before == 1)
            && (issued ==> t.dev.done == 2 && t.dev.starts == 1
                           && ops == [if w.start then R.OpPlaybackStarted else R.OpPlaybackFailed])
            && t.playback == (if issued then w.start else s.playback)
  {
    hide Push, Run;
    RunIsValid(FRESH, false, cs);
    PushTakesAPrefix(data, w.answers);
  }

  /** How many bytes of each call's data reached the driver. */
  predicate Delivers(s: Stream, cs: seq<Call>, ks: seq<nat>)
    requires |ks| == |cs|
    decreases |cs|
  {
    cs == []
    || (&& (if cs[0].CallWrite? then
              && ks[0] <= |cs[0].data|
              && (Write(s, cs[0].data, cs[0].w).1 in {Done, StartFailed} ==> ks[0] == |cs[0].data|)
            else ks[0] == 0)
        && Delivers(Step(s, cs[0]), cs[1..], ks[1..]))
  }

  function Joined(cs: seq<Call>, ks: seq<nat>): seq<byte>
    requires |ks| == |cs|
    decreases |cs|
  {
    if cs == [] then []
    else (if cs[0].CallWrite? && ks[0] <= |cs[0].data| then cs[0].data[..ks[0]] else []) + Joined(cs[1..], ks[1..])
  }

  lemma WriteDelivers(s: Stream, data: seq<byte>, w: Script) returns (k: nat)
    requires Valid(s)
    ensures k <= |data|
    ensures var (t, r, _) := Write(s, data, w);
            && t.dev.received == s.dev.received + data[..k]
            && (r in {Done, StartFailed} ==> k == |data|)
            && (r in {WriteFailed, Waiting} ==> k < |data|)
  {
    hide Push;
    PushTakesAPrefix(data, w.answers);
    var p := Push(data, w.answers);
    var fed := s.attached && (s.standby ==> Open(s, w).1 == Done);
    k := if fed then |p.got| else 0;
    assert data[..0] == [];
  }

  lemma StepDelivers(s: Stream, c: Call) returns (k: nat)
    requires Valid(s)
    ensures if c.CallWrite? then
              && k <= |c.data| && Step(s, c).dev.received == s.dev.received + c.data[..k]
              && (Write(s, c.data, c.w).1 in {Done, StartFailed} ==> k == |c.data|)
            else k == 0 && Step(s, c).dev.received == s.dev.received
  {
    if c.CallWrite? {
      hide Write, Push;
      k := WriteDelivers(s, c.data, c.w);
    } else {
      k := 0;
    }
  }

  /** Over any run the driver receives the completed buffers whole and in order,
      with a prefix of each failed one between them. */
  lemma {:induction false} RunDelivers(s: Stream, cs: seq<Call>) returns (ks: seq<nat>)
    requires Valid(s)
    ensures |ks| == |cs| && Delivers(s, cs, ks)
    ensures Run(s, cs).dev.received == s.dev.received + Joined(cs, ks)
    decreases |cs|
  {
    hide Push, Write, Standby;
    if cs == [] {
      ks := [];
    } else {
      var t := Step(s, cs[0]);
      StepIsValid(s, cs[0]);
      var k := StepDelivers(s, cs[0]);
      var rest := RunDelivers(t, cs[1..]);
      ks := [k] + rest;
      assert ks[1..] == rest;
      var first := if cs[0].CallWrite? then cs[0].data[..k] else [];
      assert s.dev.received + (first + Joined(cs[1..], rest)) == (s.dev.received + first) + Joined(cs[1..], rest);
    }
  }

  // -------------------------------------------------------------- the class

  /** The stream object. */
  class StreamOut {
    var hw: AudioHal?
    var fd: bool
    var startCount: nat
    var retries: nat
    var standby: bool
    var dev: Driver             // behind the descriptor

    ghost function State(): Stream
      reads this, hw
    {
      Stream(hw != null, fd, standby, startCount, retries, hw != null && hw.playback, dev)
    }

    ghost predicate Ready()
      reads this, hw
    {
      hw != null ==> hw.Valid()
    }

    constructor ()
      ensures State() == FRESH
    {
      hw, fd, startCount, retries, standby := null, false, 0, 0, true;
      dev := FRESH.dev;
    }

    method CloseStream()
      modifies this`fd, this`dev
      ensures !fd && dev == old(dev).(open := old(dev.open && !fd))
    {
      if fd {
        fd := false;
        dev := dev.(open := false);
      }
    }

    method OpenDriver(w: Script) returns (r: Result)
      requires !fd && !dev.open && standby
      modifies this`fd, this`dev, this`startCount, this`standby
      ensures (State(), r) == old(Open(State(), w))
    {
      if !w.open {
        CloseStream();
        return CannotOpen;
      }
      fd, dev := true, dev.(open := true, done := 0, starts := 0, running := false);
      if !w.getConfig {
        CloseStream();
        return CannotConfigure;
      }
      if !w.setConfig {
        CloseStream();
        return CannotConfigure;
      }
      startCount, standby := BUFFERS, false;
      r := Done;
    }

    /** The write loop: what is taken comes off the front, EAGAIN tries again. */
    method FeedDriver(data: seq<byte>, answers: seq<Answer>) returns (r: Result)
      modifies this`dev, this`retries
      ensures var p := Push(data, answers);
              && dev == old(dev).(received := old(dev).received + p.got)
              && retries == old(retries) + p.again
              && r == (match p.end case AllTaken => Done case Rejected => WriteFailed case OutOfAnswers => Waiting)
    {
      var left, i := data, 0;
      ghost var goal := Push(data, answers);
      while left != []
        invariant 0 <= i <= |answers|
        invariant dev == old(dev).(received := dev.received)
        invariant var p := Push(left, answers[i..]);
                  && dev.received + p.got == old(dev).received + goal.got
                  && retries + p.again == old(retries) + goal.again
                  && p.end == goal.end
        decreases |answers| - i
      {
        if i == |answers| { return Waiting; }
        ghost var p := Push(left, answers[i..]);
        assert answers[i..][1..] == answers[i + 1..];
        match answers[i] {
          case Wrote(n) =>
            var k := Min(n, |left|);
            assert (dev.received + left[..k]) + Push(left[k..], answers[i + 1..]).got == dev.received + p.got;
            dev := dev.(received := dev.received + left[..k]);
            left := left[k..];
          case Again =>
            retries := retries + 1;
          case Failed =>
            return WriteFailed;
        }
        i := i + 1;
      }
      r := Done;
    }

    /** The start request, and what the HAL is told of it. */
    method StartDriver(w: Script) returns (r: Result)
      requires hw != null && Ready() && dev.open == fd
      modifies this`fd, this`dev, this`standby, hw`playback, hw`dsp, hw`tick
      ensures dev == old(dev).(starts := old(dev).starts + 1, running := w.start, open := old(fd) && w.start)
      ensures r == (if w.start then Done else StartFailed)
      ensures fd == (old(fd) && w.start) && standby == (old(standby) || !w.start) && hw.playback == w.start
      ensures hw.Valid()
      ensures hw.State() == R.Step(old(hw.State()), hw.oracle, hw.cfg, if w.start then R.OpPlaybackStarted else R.OpPlaybackFailed)
    {
      hide R.PostProcOf, RP.Always;
      dev := dev.(starts := dev.starts + 1, running := w.start);
      if !w.start {
        CloseStream();
        standby := true;
        hw.PlaybackFailedToStart();
        r := StartFailed;
      } else {
        hw.PlaybackOn();
        r := Done;
      }
    }

    lemma RunOne(s: R.Hal, o: R.Oracle, cfg: R.Config, op: R.Op)
      ensures R.Run(s, o, cfg, [op]) == R.Step(s, o, cfg, op)
    {
      assert [op][1..] == [];
    }

    /** After a whole buffer. */
    method CountDown(w: Script) returns (r: Result)
      requires hw != null && Ready() && dev.open == fd
      modifies this`fd, this`dev, this`startCount, this`standby, hw`playback, hw`dsp, hw`tick
      ensures var (t, result, ops) := old(Complete(State(), w));
              && State() == t && r == result
              && hw.State() == R.Run(old(hw.State()), hw.oracle, hw.cfg, ops)
    {
      hide R.Step, RP.Always;
      r := Done;
      dev := dev.(done := dev.done + 1);
      if startCount != 0 {
        startCount := startCount - 1;
        if startCount == 0 {
          RunOne(hw.State(), hw.oracle, hw.cfg, if w.start then R.OpPlaybackStarted else R.OpPlaybackFailed);
          hide R.Run;
          r := StartDriver(w);
        }
      }
    }

    /** The write loop as a step of the stream. */
    method TakeData(data: seq<byte>, answers: seq<Answer>) returns (r: Result)
      modifies this`dev, this`retries
      ensures var p := Push(data, answers);
              && State() == old(State().(retries := retries + p.again, dev := dev.(received := dev.received + p.got)))
              && r == (match p.end case AllTaken => Done case Rejected => WriteFailed case OutOfAnswers => Waiting)
    {
      hide Push;
      r := FeedDriver(data, answers);
    }

    lemma RunNone(s: R.Hal, o: R.Oracle, cfg: R.Config)
      ensures R.Run(s, o, cfg, []) == s
    {
    }

    /** The write loop, then the count down. */
    method FeedAndCount(data: seq<byte>, w: Script) returns (r: Result)
      requires hw != null && Ready() && dev.open == fd
      modifies this`fd, this`dev, this`startCount, this`standby, this`retries, hw`playback, hw`dsp, hw`tick
      ensures data != [] && !old(fd) ==> r == InvalidFd && State() == old(State()) && hw.State() == old(hw.State())
      ensures var (t, result, ops) := old(Feed(State(), data, w));
              && State() == t && r == result
              && hw.State() == R.Run(old(hw.State()), hw.oracle, hw.cfg, ops)
    {
      hide Complete, Push, RP.Always, R.Run;
      RunNone(hw.State(), hw.oracle, hw.cfg);
      if data != [] && !fd {
        CloseStream();
        return InvalidFd;
      }
      r := TakeData(data, w.answers);
      if r == Done {
        r := CountDown(w);
      }
    }

    method WriteBuffer(data: seq<byte>, w: Script) returns (r: Result)
      requires Ready() && dev.open == fd && (standby || hw == null ==> !fd)
      modifies this, hw
      ensures hw == old(hw)
      ensures var (t, result, ops) := old(Write(State(), data, w));
              && State() == t && r == result
              && (hw != null ==> hw.State() == R.Run(old(hw.State()), hw.oracle, hw.cfg, ops))
    {
      hide Feed, RP.Always;
      if hw == null {
        CloseStream();
        return NoHardware;
      }
      if standby {
        r := OpenDriver(w);
        if r != Done { return; }
      }
      r := FeedAndCount(data, w);
    }

    method EnterStandby()
      requires Ready() && dev.open == fd
      modifies this, hw
      ensures hw == old(hw)
      ensures var (t, ops) := old(Standby(State()));
              && State() == t
              && (hw != null ==> hw.State() == R.Run(old(hw.State()), hw.oracle, hw.cfg, ops))
    {
      hide R.PostProcOf;
      if !standby && fd {
        if hw != null {
          RunOne(hw.State(), hw.oracle, hw.cfg, R.OpPlaybackStopped);
          hw.PlaybackOff();
        }
        fd, dev := false, dev.(open := false);
      }
      standby := true;
    }
  }
}
