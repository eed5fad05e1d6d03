/**
 What a camera wrapper's state means in terms of the calls and callbacks so far.
 */
module CameraHistory {
  import opened CameraWrapper
  import opened Wrappers

  datatype Kind = OfNotify | OfData | OfStamped

  function KindOf(c: Callback): Kind {
    match c case Notify => OfNotify case Data(_) => OfData case Stamped => OfStamped
  }

  function CountOf(n: Counts, k: Kind): nat {
    match k case OfNotify => n.notify case OfData => n.data case OfStamped => n.stamped
  }

  predicate Asks(cbs: Cbs, k: Kind) {
    match k case OfNotify => cbs.notify case OfData => cbs.data case OfStamped => cbs.stamped
  }

  /** What is on or off by the last call about it: a callback the client wants, the
      preview, the recording. */
  datatype Track = Wants(k: Kind) | Preview | Recording

  predicate Flag(t: Track, w: Wrapper) {
    match t case Wants(k) => Asks(w.cbs, k) case Preview => w.preview case Recording => w.recording
  }

  /** A preview that the vendor object accepted, at once or on the retry. */
  predicate Accepted(a: Api) {
    a.StartPreview? && (a.rc == NoError || (a.rc == OtherError && a.again == NoError))
  }

  predicate Starts(t: Track, op: Op, i: nat) {
    op.Invoke? && op.i == i &&
    match t
    case Wants(k) => op.a.SetCallbacks? && Asks(op.a.cbs, k)
    case Preview => Accepted(op.a)
    case Recording => op.a == StartRecording(NoError)
  }

  predicate Ends(t: Track, op: Op, i: nat) {
    match t
    case Wants(k) => op.Invoke? && op.i == i && op.a.SetCallbacks? && !Asks(op.a.cbs, k)
    case Preview => op == Invoke(i, StopPreview) || op == Fire(i, Data(true))
    case Recording => op == Invoke(i, StopRecording)
  }

  predicate Released(ops: seq<Op>, i: nat) {
    exists q :: 0 <= q < |ops| && ops[q] == Invoke(i, Release)
  }

  /** Started by some call, ended by none since, and the wrapper never released. */
  predicate On(t: Track, ops: seq<Op>, i: nat) {
    !Released(ops, i) &&
    exists p :: 0 <= p < |ops| && Starts(t, ops[p], i) && forall q :: p < q < |ops| ==> !Ends(t, ops[q], i)
  }

  /** How many callbacks of a kind arrived while the client wanted them. */
  function Passed(ops: seq<Op>, i: nat, k: Kind): nat
    decreases |ops|
  {
    if ops == [] then 0
    else
      var before, last := ops[..|ops| - 1], ops[|ops| - 1];
      Passed(before, i, k) + if last.Fire? && last.i == i && KindOf(last.c) == k && On(Wants(k), before, i) then 1 else 0
  }

  lemma ReleasedStep(ops: seq<Op>, op: Op, i: nat)
    ensures Released(ops + [op], i) <==> Released(ops, i) || op == Invoke(i, Release)
  {
    var all := ops + [op];
    assert all[|ops|] == op;
    if Released(ops, i) {
      var q :| 0 <= q < |ops| && ops[q] == Invoke(i, Release);
      assert all[q] == Invoke(i, Release);
    }
  }

  lemma OnStep(t: Track, ops: seq<Op>, op: Op, i: nat)
    ensures On(t, ops + [op], i)
            <==> !Released(ops + [op], i) && (Starts(t, op, i) || (On(t, ops, i) && !Ends(t, op, i)))
  {
    hide Starts, Ends;
    var all := ops + [op];
    ReleasedStep(ops, op, i);
    assert all[|ops|] == op;
    if On(t, ops, i) && !Ends(t, op, i) {
      var p :| 0 <= p < |ops| && Starts(t, ops[p], i) && forall q :: p < q < |ops| ==> !Ends(t, ops[q], i);
      assert Starts(t, all[p], i);
      assert forall q :: p < q < |all| ==> !Ends(t, all[q], i);
    }
    if On(t, all, i) {
      var p :| 0 <= p < |all| && Starts(t, all[p], i) && forall q :: p < q < |all| ==> !Ends(t, all[q], i);
      if p < |ops| {
        assert Starts(t, ops[p], i) && !Ends(t, all[|ops|], i);
        assert forall q :: p < q < |ops| ==> ops[q] == all[q];
      }
    }
  }

  lemma PassedStep(ops: seq<Op>, op: Op, i: nat, k: Kind)
    ensures Passed(ops + [op], i, k)
            == Passed(ops, i, k) + if op.Fire? && op.i == i && KindOf(op.c) == k && On(Wants(k), ops, i) then 1 else 0
  {
    hide On;
    assert (ops + [op])[..|ops|] == ops;
  }

  lemma {:induction false} RunSnoc(w: World, ops: seq<Op>, op: Op)
    ensures RunAll(w, ops + [op]) == Step(RunAll(w, ops), op)
    decreases |ops|
  {
    hide Step;
    if ops == [] {
      assert ops + [op] == [op] && [op][1..] == [];
    } else {
      assert (ops + [op])[1..] == ops[1..] + [op];
      RunSnoc(Step(w, ops[0]), ops[1..], op);
    }
  }

  /** What a step makes of a wrapper's flags and counts. */
  predicate Follows(s: Wrapper, u: Wrapper, op: Op, i: nat, t: Track, k: Kind) {
    && (u.released <==> s.released || op == Invoke(i, Release))
    && (Flag(t, u) <==> !u.released && (Starts(t, op, i) || (Flag(t, s) && !Ends(t, op, i))))
    && CountOf(u.delivered, k)
       == CountOf(s.delivered, k) + if op.Fire? && op.i == i && KindOf(op.c) == k && Asks(s.cbs, k) then 1 else 0
  }

  lemma ApplyFollows(s: Wrapper, v: Vendor, a: Api, i: nat, t: Track, k: Kind)
    requires Tidy(s)
    ensures Follows(s, Apply(s, v, a).0, Invoke(i, a), i, t, k)
  {
  }

  lemma DeliverFollows(s: Wrapper, c: Callback, i: nat, t: Track, k: Kind)
    requires Tidy(s)
    ensures Follows(s, Deliver(s, c), Fire(i, c), i, t, k)
  {
  }

  lemma SameFollows(s: Wrapper, op: Op, i: nat, t: Track, k: Kind)
    requires Tidy(s) && !((op.Invoke? || op.Fire?) && op.i == i)
    ensures Follows(s, s, op, i, t, k)
  {
  }

  lemma WrapperStep(w: World, op: Op, i: nat, t: Track, k: Kind)
    requires Inv(w) && i in w.wrappers && i in Step(w, op).wrappers
    ensures Follows(w.wrappers[i], Step(w, op).wrappers[i], op, i, t, k)
  {
    assert Fine(w, i);
    var s := w.wrappers[i];
    if op.Invoke? && op.i == i {
      ApplyFollows(s, w.vendors[i], op.a, i, t, k);
    } else if op.Fire? && op.i == i {
      DeliverFollows(s, op.c, i, t, k);
    } else {
      SameFollows(s, op, i, t, k);
    }
    hide Follows, Apply, Deliver, Tidy, Usable, Respected;
  }

  /** A callback that arrives is passed on if and only if the client set the callback
      of its kind. */
  lemma FirePassesOn(w: World, i: nat, c: Callback)
    requires i in w.wrappers
    ensures var s, u := w.wrappers[i], Step(w, Fire(i, c)).wrappers[i];
            && (c.Notify? ==> u.delivered == s.delivered.(notify := s.delivered.notify + if s.cbs.notify then 1 else 0))
            && (c.Data? ==> u.delivered == s.delivered.(data := s.delivered.data + if s.cbs.data then 1 else 0))
            && (c.Stamped? ==> u.delivered == s.delivered.(stamped := s.delivered.stamped + if s.cbs.stamped then 1 else 0))
  {
  }

  lemma NothingYet(w: World, i: nat, t: Track, k: Kind)
    ensures RunAll(w, []) == w && Passed([], i, k) == 0
    ensures !Released([], i) && !On(t, [], i) && !Flag(t, NEW_WRAPPER) && CountOf(NEW_WRAPPER.delivered, k) == 0
  {
  }

  lemma WantsMeans(k: Kind, s: Wrapper)
    ensures Flag(Wants(k), s) == Asks(s.cbs, k)
  {
  }

  lemma {:induction false} NextGrows(w: World, ops: seq<Op>)
    ensures w.next <= RunAll(w, ops).next
    decreases |ops|
  {
    if ops != [] { NextGrows(Step(w, ops[0]), ops[1..]); }
  }

  lemma LiveBefore(w: World, op: Op, i: nat)
    requires i in Step(w, op).wrappers && i < w.next
    ensures i in w.wrappers
  {
  }

  /** The state of a wrapper that is still there after a run that found it fresh: what
      is on was started and not ended since, and each callback that arrived while the
      client wanted it was passed on, and no other. */
  lemma {:induction false} StateIsHistory(w: World, ops: seq<Op>, i: nat, t: Track, k: Kind)
    requires Inv(w) && i in w.wrappers && w.wrappers[i] == NEW_WRAPPER && i in RunAll(w, ops).wrappers
    ensures var s := RunAll(w, ops).wrappers[i];
            && (s.released <==> Released(ops, i))
            && (Flag(t, s) <==> On(t, ops, i))
            && CountOf(s.delivered, k) == Passed(ops, i, k)
    decreases |ops|
  {
    assert i < w.next by { assert Fine(w, i); }
    hide Step, Inv, Flag, Starts, Ends, On, Released, Passed, RunAll, KindOf, CountOf, Asks;
    if ops == [] {
      NothingYet(w, i, t, k);
    } else {
      var before, op := ops[..|ops| - 1], ops[|ops| - 1];
      assert ops == before + [op];
      RunSnoc(w, before, op);
      var u := RunAll(w, before);
      NextGrows(w, before);
      LiveBefore(u, op, i);
      RunKeeps(w, before);
      StateIsHistory(w, before, i, t, k);
      StateIsHistory(w, before, i, Wants(k), k);
      WrapperStep(u, op, i, t, k);
      PassedStep(before, op, i, k);
      ReleasedStep(before, op, i);
      OnStep(t, before, op, i);
      WantsMeans(k, u.wrappers[i]);
    }
  }
}
