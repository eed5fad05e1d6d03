/**
 When a waiting FM client gets the descriptor: clients are served in the order in
 which they connected, one for each round of accept and send.
 */
module FmDelivery {
  import opened FmHandover
  import opened Wrappers

  /** A client on the socket of instance i, to be served in the k-th round from now:
      it is being sent to, or stands at its first place in the queue. */
  predicate Waits(w: World, i: nat, c: nat, k: nat) {
    && w.owner == Some(i) && i in w.servers
    && c in w.clients && w.clients[c] == Waiting(Pending)
    && if k == 1 && w.servers[i].phase == Sending(c) then true
       else
         var busy := if w.servers[i].phase.Sending? then 1 else 0;
         && busy < k <= |w.queue| + busy && w.queue[k - 1 - busy] == c
         && c !in w.queue[..k - 1 - busy] && w.servers[i].phase != Sending(c)
  }

  /** The client has the file of instance i, or finds it on its socket. */
  predicate Got(w: World, i: nat, c: nat) {
    && i in w.servers && w.servers[i].loadTried && c in w.clients
    && (w.clients[c] == Waiting(Delivered(w.servers[i].file, i)) || w.clients[c] == Holding(w.servers[i].file, Some(i)))
  }

  /** Nothing ends the instance, or fails on the client's own socket. */
  predicate Undisturbed(w: World, e: Event, i: nat, c: nat) {
    match e
    case Kill(j) => j != i
    case AcceptFails(j) => j != i
    case Open(j, ok) => j == i ==> ok
    case Send(j, ok) => In(w, j, Sending(c)) ==> ok
    case Receive(d, bad) => d == c ==> !bad
    case Close(d) => d != c
    case _ => true
  }

  /** The step ends a round of instance i. */
  predicate EndsRound(w: World, e: Event, i: nat) {
    e.Send? && e.i == i && i in w.servers && w.servers[i].phase.Sending?
  }

  lemma ServerStepWaits(w: World, e: Event, i: nat, c: nat, k: nat)
    requires Inv(w) && Waits(w, i, c, k) && Undisturbed(w, e, i, c) && ByServer(e)
    ensures var t := ServerStep(w, e);
            if EndsRound(w, e, i) then (if k == 1 then Got(t, i, c) else Waits(t, i, c, k - 1))
            else Waits(t, i, c, k)
  {
    hide Clients, Opens, DropPending;
  }

  lemma ClientStepWaits(w: World, e: Event, i: nat, c: nat, k: nat)
    requires Waits(w, i, c, k) && Undisturbed(w, e, i, c) && !ByServer(e)
    ensures Waits(ClientStep(w, e), i, c, k)
  {
  }

  /** Every step leaves the client its place, or ends a round and moves it up by one. */
  lemma OneStep(w: World, e: Event, i: nat, c: nat, k: nat)
    requires Inv(w) && Waits(w, i, c, k) && Undisturbed(w, e, i, c)
    ensures var t := Step(w, e);
            if EndsRound(w, e, i) then (if k == 1 then Got(t, i, c) else Waits(t, i, c, k - 1))
            else Waits(t, i, c, k)
  {
    if ByServer(e) {
      ServerStepWaits(w, e, i, c, k);
    } else {
      ClientStepWaits(w, e, i, c, k);
    }
    hide ServerStep, ClientStep, Waits, Got, Undisturbed;
  }

  lemma GotStays(w: World, e: Event, i: nat, c: nat)
    requires Inv(w) && Got(w, i, c) && Undisturbed(w, e, i, c)
    ensures Got(Step(w, e), i, c)
  {
    StepHistory(w, e, i);
    hide OneServer, Phases, Clients, Opens;
  }

  ghost predicate UndisturbedRun(w: World, es: seq<Event>, i: nat, c: nat)
    decreases |es|
  {
    es == [] || (Undisturbed(w, es[0], i, c) && UndisturbedRun(Step(w, es[0]), es[1..], i, c))
  }

  /** The rounds of instance i that a run completes. */
  function Rounds(w: World, es: seq<Event>, i: nat): nat
    decreases |es|
  {
    if es == [] then 0 else (if EndsRound(w, es[0], i) then 1 else 0) + Rounds(Step(w, es[0]), es[1..], i)
  }

  lemma StepInv(w: World, e: Event)
    requires Inv(w)
    ensures Inv(Step(w, e))
  {
    if ByServer(e) { ServerStepKeeps(w, e); } else { ClientStepKeeps(w, e); }
    hide ServerStep, ClientStep, Inv;
  }

  lemma {:induction false} GotForGood(w: World, es: seq<Event>, i: nat, c: nat)
    requires Inv(w) && Got(w, i, c) && UndisturbedRun(w, es, i, c)
    ensures Got(Run(w, es), i, c)
    decreases |es|
  {
    hide Inv, Step, Got, Undisturbed;
    if es != [] {
      GotStays(w, es[0], i, c);
      StepInv(w, es[0]);
      GotForGood(Step(w, es[0]), es[1..], i, c);
    }
  }

  /** In any interleaving that leaves the instance and the client's socket alone, a
      client to be served in round k has the file from the k-th round on, and keeps its
      place in line before. */
  lemma {:induction false} FirstComeFirstServed(w: World, es: seq<Event>, i: nat, c: nat, k: nat)
    requires Inv(w) && Waits(w, i, c, k) && UndisturbedRun(w, es, i, c)
    ensures var t, n := Run(w, es), Rounds(w, es, i);
            if n >= k then Got(t, i, c) else Waits(t, i, c, k - n)
    decreases |es|
  {
    assert k >= 1;
    hide Inv, Step, Got, Undisturbed, EndsRound, Waits;
    if es != [] {
      var t := Step(w, es[0]);
      OneStep(w, es[0], i, c, k);
      StepInv(w, es[0]);
      if EndsRound(w, es[0], i) && k == 1 {
        GotForGood(t, es[1..], i, c);
      } else {
        FirstComeFirstServed(t, es[1..], i, c, if EndsRound(w, es[0], i) then k - 1 else k);
      }
    }
  }

  predicate Serves(w: World, i: nat) {
    i in w.servers && w.servers[i].phase.Serving?
  }

  /** The open file of an instance. */
  function FileOf(w: World, i: nat): nat {
    if i in w.servers then w.servers[i].file else 0
  }

  predicate HoldsFrom(w: World, c: nat, file: nat, i: nat) {
    c in w.clients && w.clients[c] == Holding(file, Some(i))
  }

  /** A client that has the file on its socket holds it as soon as it receives. */
  lemma ThenHolds(w: World, i: nat, c: nat)
    requires Got(w, i, c)
    ensures HoldsFrom(Step(w, Receive(c, false)), c, FileOf(w, i), i)
  {
  }

  // ------------------------------------------------------------ joining the line

  /** Who is in line, or being sent to, is past its connect. */
  predicate Lined(w: World) {
    && (forall n :: 0 <= n < |w.queue| ==> w.queue[n] in w.clients && !w.clients[w.queue[n]].Connecting?)
    && forall i :: i in w.servers && w.servers[i].phase.Sending? ==>
         w.servers[i].phase.conn in w.clients && !w.clients[w.servers[i].phase.conn].Connecting?
  }

  lemma ServerStepLined(w: World, e: Event)
    requires Lined(w) && ByServer(e)
    ensures Lined(ServerStep(w, e))
  {
  }

  lemma ClientStepLined(w: World, e: Event)
    requires Lined(w) && !ByServer(e)
    ensures Lined(ClientStep(w, e))
  {
  }

  lemma {:induction false} RunLined(w: World, es: seq<Event>)
    requires Lined(w)
    ensures Lined(Run(w, es))
    decreases |es|
  {
    hide Lined, ServerStep, ClientStep;
    if es != [] {
      if ByServer(es[0]) { ServerStepLined(w, es[0]); } else { ClientStepLined(w, es[0]); }
      RunLined(Step(w, es[0]), es[1..]);
    }
  }

  lemma BootIsLined()
    ensures Lined(BOOT)
  {
  }

  /** The rounds in front of a client that connects now, and its own. */
  function Place(w: World, i: nat): nat
    requires i in w.servers
  {
    |w.queue| + 1 + if w.servers[i].phase.Sending? then 1 else 0
  }

  lemma Joins(w: World, i: nat, c: nat)
    requires Inv(w) && Lined(w) && w.owner == Some(i) && c in w.clients && w.clients[c].Connecting?
    ensures i in w.servers && Waits(Step(w, Connect(c, false)), i, c, Place(w, i))
  {
    hide Phases, Clients, Opens;
    var t := Step(w, Connect(c, false));
    assert t.queue[..|w.queue|] == w.queue;
    assert c !in w.queue;
  }

  /** On every run: a client that connects while instance i has the name gets the
      instance's one file in the round that its place in line says, in any interleaving
      that leaves the instance and its socket alone. */
  lemma ConnectedIsServed(before: seq<Event>, after: seq<Event>, i: nat, c: nat)
    requires var w := Run(BOOT, before);
             && w.owner == Some(i) && c in w.clients && w.clients[c].Connecting?
             && UndisturbedRun(Step(w, Connect(c, false)), after, i, c)
    ensures var w := Run(BOOT, before);
            var u := Step(w, Connect(c, false));
            var t, n := Run(u, after), Rounds(u, after, i);
            && i in w.servers
            && if n >= Place(w, i) then Got(t, i, c) else Waits(t, i, c, Place(w, i) - n)
  {
    var w := Run(BOOT, before);
    hide *;
    BootIsFine();
    BootIsLined();
    RunKeeps(BOOT, before);
    RunLined(BOOT, before);
    Joins(w, i, c);
    StepInv(w, Connect(c, false));
    FirstComeFirstServed(Step(w, Connect(c, false)), after, i, c, Place(w, i));
  }

  // -------------------------------------------------------- rounds are possible

  /** Accept, then a send that works, k times. */
  function Serve(i: nat, k: nat): seq<Event> {
    if k == 0 then [] else [Accept(i), Send(i, true)] + Serve(i, k - 1)
  }

  lemma OneRound(w: World, i: nat, c: nat, k: nat)
    requires Inv(w) && Waits(w, i, c, k) && Serves(w, i)
    ensures var t := Step(Step(w, Accept(i)), Send(i, true));
            && Inv(t) && Serves(t, i) && FileOf(t, i) == FileOf(w, i)
            && if k == 1 then Got(t, i, c) else Waits(t, i, c, k - 1)
  {
    var u := Step(w, Accept(i));
    OneStep(w, Accept(i), i, c, k);
    OneStep(u, Send(i, true), i, c, k);
    StepInv(w, Accept(i));
    StepInv(u, Send(i, true));
    hide Inv, Waits, Got;
  }

  lemma InLine(w: World, i: nat, c: nat, k: nat)
    requires Waits(w, i, c, k)
    ensures k >= 1
  {
  }

  lemma ServeSteps(w: World, i: nat, k: nat)
    requires k > 0
    ensures var t := Step(Step(w, Accept(i)), Send(i, true));
            Run(w, Serve(i, k)) == Run(t, Serve(i, k - 1)) && Run(t, Serve(i, 0)) == t
  {
    hide Step;
    var all, rest := Serve(i, k), Serve(i, k - 1);
    assert all[1..] == [Send(i, true)] + rest && all[1..][1..] == rest;
    assert Run(w, all) == Run(Step(w, Accept(i)), all[1..]);
  }

  /** A serving instance serves the client in exactly k rounds, and the client then
      holds its file. */
  lemma {:induction false} ServedInTurn(w: World, i: nat, c: nat, k: nat)
    requires Inv(w) && Waits(w, i, c, k) && Serves(w, i)
    ensures HoldsFrom(Step(Run(w, Serve(i, k)), Receive(c, false)), c, FileOf(w, i), i)
    decreases k
  {
    hide *;
    InLine(w, i, c, k);
    var t := Step(Step(w, Accept(i)), Send(i, true));
    OneRound(w, i, c, k);
    ServeSteps(w, i, k);
    if k == 1 {
      ThenHolds(t, i, c);
    } else {
      ServedInTurn(t, i, c, k - 1);
    }
  }

  // ------------------------------------------------------- when the instance goes

  /** When the instance ends, a client still waiting on its socket falls back, and its
      own open, the next of the driver, wipes the firmware. */
  lemma DroppedOpensItself(w: World, i: nat, c: nat, bad: bool)
    requires Inv(w) && w.owner == Some(i) && i in w.servers && c in w.clients && w.clients[c] == Waiting(Pending)
    ensures var t := Step(Step(Step(w, Kill(i)), Receive(c, bad)), Direct(c, true));
            && t.owner == None && c in t.clients && t.clients[c] == Holding(w.drv.opens, None)
            && t.drv.opens == w.drv.opens + 1 && !t.drv.firmware
  {
    hide Phases, Clients, Opens;
    var u := Step(w, Kill(i));
    assert u.clients[c] == Waiting(Dropped);
  }

  /** An instance's open is the next of the driver and wipes the firmware; its load
      leaves the firmware there exactly when it worked, and then it serves. */
  lemma OpenThenLoad(w: World, i: nat, ok: bool)
    requires In(w, i, Bound)
    ensures var t := Step(w, Open(i, true));
            var u := Step(t, Load(i, ok));
            && In(t, i, Opened) && t.servers[i].file == w.drv.opens && t.drv.opens == w.drv.opens + 1 && !t.drv.firmware
            && In(u, i, Serving) && u.drv == t.drv.(firmware := ok) && u.servers[i].file == w.drv.opens
  {
  }
}
