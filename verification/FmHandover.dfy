/**
 The handover of the FM radio's descriptor: instances of fminit race for a socket
 name, the winner opens the driver, loads the firmware and hands out its open
 file; clients connect, wait, and fall back to opening the driver themselves.
 Every open of the driver wipes the firmware. Runs are interleavings of steps of
 any number of instances and clients; a step that is not enabled changes nothing.
 Close is a client closing its descriptor, or its process ending at any point.
 */
module FmHandover {
  import opened Wrappers

  datatype Phase = Started | Bound | Opened | Serving | Sending(conn: nat) | Ended

  /** An instance. `loadTried` to `directAtLoad` are history: whether the load
      attempt ended and how, and the direct opens counted at its open and load. */
  datatype Server = Server(phase: Phase, file: nat, loadTried: bool, loadOk: bool, directAtOpen: nat, directAtLoad: nat)

  datatype Inbox = Pending | Delivered(file: nat, from: nat) | Dropped

  datatype Stage =
    | Connecting(attempts: nat) | Waiting(inbox: Inbox) | Fallback
    | Holding(file: nat, from: Option<nat>)      // from an instance, or opened directly
    | Over

  /** The driver: how often opened, how often of these by a client, and whether
      firmware is loaded. The n-th open makes open file n. */
  datatype Driver = Driver(opens: nat, direct: nat, firmware: bool)

  datatype World = World(servers: map<nat, Server>, clients: map<nat, Stage>, owner: Option<nat>, queue: seq<nat>, drv: Driver)

  const ATTEMPTS := 60

  datatype Event =
    | Spawn(i: nat, version: bool) | Bind(i: nat) | Open(i: nat, ok: bool) | Load(i: nat, ok: bool)
    | Accept(i: nat) | Send(i: nat, ok: bool) | AcceptFails(i: nat) | Kill(i: nat)
    | Begin(c: nat) | Connect(c: nat, refused: bool) | Receive(c: nat, bad: bool)
    | Direct(c: nat, ok: bool) | Close(c: nat)

  // -------------------------------------------------------------------- the steps

  /** Past its bind, an instance holds the socket name until it ends. */
  predicate PastBind(s: Server) {
    s.phase.Bound? || s.phase.Opened? || s.phase.Serving? || s.phase.Sending?
  }

  predicate In(w: World, i: nat, phase: Phase) {
    i in w.servers && w.servers[i].phase == phase
  }

  function SetPhase(w: World, i: nat, phase: Phase): World
    requires i in w.servers
  {
    w.(servers := w.servers[i := w.servers[i].(phase := phase)])
  }

  function SetStage(w: World, c: nat, stage: Stage): World {
    w.(clients := w.clients[c := stage])
  }

  /** When the instance serving a socket goes, connections waiting on it are dropped. */
  function DropPending(clients: map<nat, Stage>): map<nat, Stage> {
    map c | c in clients :: if clients[c] == Waiting(Pending) then Waiting(Dropped) else clients[c]
  }

  function End(w: World, i: nat): World
    requires i in w.servers
  {
    var t := SetPhase(w, i, Ended);
    if w.owner == Some(i) then t.(owner := None, queue := [], clients := DropPending(w.clients)) else t
  }

  function OpenDriver(d: Driver, byClient: bool): Driver {
    Driver(d.opens + 1, if byClient then d.direct + 1 else d.direct, false)
  }

  function ServerStep(w: World, e: Event): World {
    match e
    case Spawn(i, version) =>
      if i in w.servers then w
      else w.(servers := w.servers[i := Server(if version then Started else Ended, 0, false, false, 0, 0)])
    case Bind(i) =>
      if !In(w, i, Started) then w
      else if w.owner.Some? then SetPhase(w, i, Ended)
      else SetPhase(w, i, Bound).(owner := Some(i), queue := [])
    case Open(i, ok) =>
      if !In(w, i, Bound) then w
      else if !ok then End(w, i)
      else
        var s := w.servers[i].(phase := Opened, file := w.drv.opens, directAtOpen := w.drv.direct);
        w.(servers := w.servers[i := s], drv := OpenDriver(w.drv, false))
    case Load(i, ok) =>
      if !In(w, i, Opened) then w
      else
        var s := w.servers[i].(phase := Serving, loadTried := true, loadOk := ok, directAtLoad := w.drv.direct);
        w.(servers := w.servers[i := s], drv := w.drv.(firmware := ok))
    case Accept(i) =>
      if !In(w, i, Serving) || w.queue == [] then w
      else SetPhase(w, i, Sending(w.queue[0])).(queue := w.queue[1..])
    case Send(i, ok) =>
      if !(i in w.servers && w.servers[i].phase.Sending?) then w
      else
        var c := w.servers[i].phase.conn;
        var t := SetPhase(w, i, Serving);
        if c in w.clients && w.clients[c] == Waiting(Pending) then
          SetStage(t, c, Waiting(if ok then Delivered(w.servers[i].file, i) else Dropped))
        else t
    case AcceptFails(i) => if In(w, i, Serving) then End(w, i) else w
    case Kill(i) => if i in w.servers && w.servers[i].phase != Ended then End(w, i) else w
    case _ => w
  }

  function ClientStep(w: World, e: Event): World {
    match e
    case Begin(c) => if c in w.clients then w else SetStage(w, c, Connecting(0))
    case Connect(c, refused) =>
      if !(c in w.clients && w.clients[c].Connecting?) then w
      else if w.owner.Some? && !refused then SetStage(w, c, Waiting(Pending)).(queue := w.queue + [c])
      else
        var n := w.clients[c].attempts + 1;
        SetStage(w, c, if n >= ATTEMPTS then Fallback else Connecting(n))
    case Receive(c, bad) =>
      if !(c in w.clients && w.clients[c].Waiting?) || w.clients[c].inbox == Pending then w
      else if w.clients[c].inbox.Dropped? || bad then SetStage(w, c, Fallback)
      else SetStage(w, c, Holding(w.clients[c].inbox.file, Some(w.clients[c].inbox.from)))
    case Direct(c, ok) =>
      if !(c in w.clients && w.clients[c].Fallback?) then w
      else if !ok then SetStage(w, c, Over)
      else SetStage(w, c, Holding(w.drv.opens, None)).(drv := OpenDriver(w.drv, true))
    case Close(c) => if c in w.clients then SetStage(w, c, Over) else w
    case _ => w
  }

  predicate ByServer(e: Event) {
    e.Spawn? || e.Bind? || e.Open? || e.Load? || e.Accept? || e.Send? || e.AcceptFails? || e.Kill?
  }

  function Step(w: World, e: Event): World {
    if ByServer(e) then ServerStep(w, e) else ClientStep(w, e)
  }

  function Run(w: World, es: seq<Event>): World
    decreases |es|
  {
    if es == [] then w else Run(Step(w, es[0]), es[1..])
  }

  const BOOT: World := World(map[], map[], None, [], Driver(0, 0, false))

  // ------------------------------------------------------------------- invariant

  /** The owner of the name is the one instance past its bind. */
  predicate OneServer(w: World) {
    && (w.owner.Some? ==> w.owner.value in w.servers)
    && forall i :: i in w.servers ==> (PastBind(w.servers[i]) <==> w.owner == Some(i))
  }

  predicate Phases(w: World) {
    forall i :: i in w.servers ==>
      var s := w.servers[i];
      && (s.phase.Started? || s.phase.Bound? || s.phase.Opened? ==> !s.loadTried)
      && (s.phase.Serving? || s.phase.Sending? ==> s.loadTried)
      && (s.loadTried || s.phase.Opened? ==> s.file < w.drv.opens)
  }

  /** A file from an instance is its one open file, after its load attempt. */
  predicate FromServer(w: World, file: nat, from: nat) {
    from in w.servers && w.servers[from].loadTried && w.servers[from].file == file
  }

  predicate Clients(w: World) {
    forall c :: c in w.clients ==>
      var k := w.clients[c];
      && (k == Waiting(Pending) ==> w.owner.Some?)
      && (k.Waiting? && k.inbox.Delivered? ==> FromServer(w, k.inbox.file, k.inbox.from))
      && (k.Holding? && k.from.Some? ==> FromServer(w, k.file, k.from.value))
      && (k.Connecting? ==> k.attempts < ATTEMPTS)
  }

  /** While an instance has the driver open, every further open is a client's, and
      the firmware is as its load left it unless a client opened since. */
  predicate Opens(w: World) {
    w.owner.Some? && w.owner.value in w.servers ==>
      var s := w.servers[w.owner.value];
      && (s.phase.Opened? || s.loadTried ==>
            w.drv.direct >= s.directAtOpen && w.drv.opens == s.file + 1 + (w.drv.direct - s.directAtOpen))
      && (s.loadTried ==> w.drv.direct >= s.directAtLoad >= s.directAtOpen
                          && w.drv.firmware == (s.loadOk && w.drv.direct == s.directAtLoad))
  }

  predicate Inv(w: World) {
    OneServer(w) && Phases(w) && Clients(w) && Opens(w)
  }

  lemma EndKeeps(w: World, i: nat)
    requires Inv(w) && i in w.servers
    ensures Inv(End(w, i))
  {
  }

  lemma ServerStepKeepsOne(w: World, e: Event)
    requires Inv(w) && ByServer(e)
    ensures OneServer(ServerStep(w, e)) && Phases(ServerStep(w, e))
  {
    hide End, Clients;
    if (e.Kill? || e.AcceptFails? || e.Open?) && e.i in w.servers {
      EndKeeps(w, e.i);
    }
  }

  lemma ServerStepKeepsClients(w: World, e: Event)
    requires Inv(w) && ByServer(e)
    ensures Clients(ServerStep(w, e))
  {
    hide End, Opens;
    if (e.Kill? || e.AcceptFails? || e.Open?) && e.i in w.servers {
      EndKeeps(w, e.i);
    }
  }

  lemma ServerStepKeepsOpens(w: World, e: Event)
    requires Inv(w) && ByServer(e)
    ensures Opens(ServerStep(w, e))
  {
    hide End, Clients;
    if (e.Kill? || e.AcceptFails? || e.Open?) && e.i in w.servers {
      EndKeeps(w, e.i);
    }
  }

  lemma ServerStepKeeps(w: World, e: Event)
    requires Inv(w) && ByServer(e)
    ensures Inv(ServerStep(w, e))
  {
    ServerStepKeepsOne(w, e);
    ServerStepKeepsClients(w, e);
    ServerStepKeepsOpens(w, e);
    hide ServerStep, OneServer, Phases, Clients, Opens;
  }

  lemma ClientStepKeepsClients(w: World, e: Event)
    requires Inv(w) && !ByServer(e)
    ensures Clients(ClientStep(w, e))
  {
    hide Opens, Phases, OneServer;
  }

  lemma ClientStepKeeps(w: World, e: Event)
    requires Inv(w) && !ByServer(e)
    ensures Inv(ClientStep(w, e))
  {
    ClientStepKeepsClients(w, e);
    hide Clients;
  }

  /** The invariant on every interleaving. */
  lemma {:induction false} RunKeeps(w: World, es: seq<Event>)
    requires Inv(w)
    ensures Inv(Run(w, es))
    decreases |es|
  {
    hide Inv, ServerStep, ClientStep;
    if es != [] {
      if ByServer(es[0]) {
        ServerStepKeeps(w, es[0]);
      } else {
        ClientStepKeeps(w, es[0]);
      }
      RunKeeps(Step(w, es[0]), es[1..]);
    }
  }

  lemma BootIsFine()
    ensures Inv(BOOT)
  {
  }

  // ---------------------------------------------------------------- main results

  /** On every run: one instance at most is past its bind; a client holding a
      descriptor from an instance holds that instance's one open file, and only
      after the load attempt ended. */
  lemma Safety(es: seq<Event>)
    ensures var w := Run(BOOT, es);
            && (forall i, j :: i in w.servers && j in w.servers && PastBind(w.servers[i]) && PastBind(w.servers[j]) ==> i == j)
            && (forall c :: c in w.clients && w.clients[c].Holding? && w.clients[c].from.Some? ==>
                  FromServer(w, w.clients[c].file, w.clients[c].from.value))
  {
    BootIsFine();
    RunKeeps(BOOT, es);
  }

  /** While an instance lives past its load, the driver was opened once for it and
      otherwise only by clients falling back, and the firmware it loaded is there
      if and only if no client opened the driver since. */
  lemma FirmwareExactly(es: seq<Event>, i: nat)
    ensures var w := Run(BOOT, es);
            i in w.servers && PastBind(w.servers[i]) && w.servers[i].loadTried ==>
              var s := w.servers[i];
              && w.drv.opens == s.file + 1 + (w.drv.direct - s.directAtOpen)
              && w.drv.firmware == (s.loadOk && w.drv.direct == s.directAtLoad)
  {
    BootIsFine();
    RunKeeps(BOOT, es);
  }

  predicate OpensDirectly(e: Event) {
    e.Direct? && e.ok
  }

  lemma StepHistory(w: World, e: Event, i: nat)
    requires i in w.servers && w.servers[i].loadTried && Inv(w)
    ensures var t := Step(w, e);
            && i in t.servers && t.servers[i] == w.servers[i].(phase := t.servers[i].phase)
            && (!OpensDirectly(e) ==> t.drv.direct == w.drv.direct)
  {
    hide Opens, Clients;
  }

  /** What an instance recorded of its file and its load never changes again. */
  lemma {:induction false} HistoryStays(w: World, es: seq<Event>, i: nat)
    requires i in w.servers && w.servers[i].loadTried && Inv(w)
    ensures var t := Run(w, es);
            i in t.servers && t.servers[i] == w.servers[i].(phase := t.servers[i].phase)
    ensures (forall k :: 0 <= k < |es| ==> !OpensDirectly(es[k])) ==> Run(w, es).drv.direct == w.drv.direct
    decreases |es|
  {
    if es != [] {
      var t := Step(w, es[0]);
      StepHistory(w, es[0], i);
      RunKeeps(w, [es[0]]);
      assert Run(w, [es[0]]) == t by { assert [es[0]][1..] == []; }
      hide Step, Inv;
      assert forall k :: 0 <= k < |es[1..]| ==> es[1..][k] == es[k + 1];
      HistoryStays(t, es[1..], i);
    }
  }

  /** While the instance lives and no client opens the driver itself, the driver is
      not opened again and loaded firmware stays loaded, on every interleaving. */
  lemma FirmwareStays(w: World, es: seq<Event>, i: nat)
    requires Inv(w) && i in w.servers && PastBind(w.servers[i]) && w.servers[i].loadTried
    requires forall k :: 0 <= k < |es| ==> !OpensDirectly(es[k])
    requires i in Run(w, es).servers && PastBind(Run(w, es).servers[i])
    ensures Run(w, es).drv.opens == w.drv.opens
    ensures Run(w, es).drv.firmware == w.drv.firmware
  {
    HistoryStays(w, es, i);
    RunKeeps(w, es);
    hide Run;
  }

  /** Nothing goes wrong with instance i or on a socket. */
  predicate Calm(e: Event, i: nat) {
    match e
    case Kill(j) => j != i
    case AcceptFails(j) => j != i
    case Open(_, ok) => ok
    case Send(_, ok) => ok
    case Connect(_, refused) => !refused
    case Receive(_, bad) => !bad
    case _ => true
  }

  /** The instance serves and no client is left without it. */
  predicate Served(w: World, i: nat) {
    && w.owner == Some(i)
    && forall c :: c in w.clients ==> w.clients[c] != Fallback && w.clients[c] != Waiting(Dropped)
  }

  lemma CalmServerStep(w: World, e: Event, i: nat)
    requires Inv(w) && Served(w, i) && Calm(e, i) && ByServer(e)
    ensures Served(ServerStep(w, e), i) && ServerStep(w, e).drv.direct == w.drv.direct
  {
    hide Clients, Opens, DropPending;
  }

  lemma CalmClientStep(w: World, e: Event, i: nat)
    requires Inv(w) && Served(w, i) && Calm(e, i) && !ByServer(e)
    ensures Served(ClientStep(w, e), i) && ClientStep(w, e).drv.direct == w.drv.direct
  {
    hide Clients, Opens, OneServer, Phases;
  }

  lemma {:induction false} CalmRunKeepsServing(w: World, es: seq<Event>, i: nat)
    requires Inv(w) && Served(w, i)
    requires forall k :: 0 <= k < |es| ==> Calm(es[k], i)
    ensures Served(Run(w, es), i) && Run(w, es).drv.direct == w.drv.direct
    decreases |es|
  {
    if es != [] {
      hide Inv, ServerStep, ClientStep, Served;
      if ByServer(es[0]) {
        CalmServerStep(w, es[0], i);
        ServerStepKeeps(w, es[0]);
      } else {
        CalmClientStep(w, es[0], i);
        ClientStepKeeps(w, es[0]);
      }
      CalmRunKeepsServing(Step(w, es[0]), es[1..], i);
    }
  }

  /** While nothing goes wrong, no client of any number ever falls back, and the
      firmware survives all of them. */
  lemma {:induction false} CalmRunServesAll(w: World, es: seq<Event>, i: nat)
    requires Inv(w) && Served(w, i)
    requires forall k :: 0 <= k < |es| ==> Calm(es[k], i)
    ensures Served(Run(w, es), i) && Run(w, es).drv.direct == w.drv.direct
    ensures w.servers[i].loadTried ==> Run(w, es).drv.firmware == w.drv.firmware && Run(w, es).drv.opens == w.drv.opens
    decreases |es|
  {
    CalmRunKeepsServing(w, es, i);
    RunKeeps(w, es);
    if w.servers[i].loadTried {
      HistoryStays(w, es, i);
    }
    hide Run, Clients;
  }

  // ------------------------------------------------------------ the client's loop

  /** The connect attempts of a client: up to the first that succeeds, 60 at most. */
  method ConnectLoop(connects: nat -> bool) returns (sock: bool, attempts: nat)
    ensures attempts <= ATTEMPTS
    ensures sock <==> exists k :: 0 <= k < ATTEMPTS && connects(k)
    ensures sock ==> attempts > 0 && connects(attempts - 1)
    ensures forall k :: 0 <= k < (if sock then attempts - 1 else attempts) ==> !connects(k)
    ensures !sock ==> attempts == ATTEMPTS
  {
    sock, attempts := false, 0;
    while attempts < ATTEMPTS && !sock
      invariant attempts <= ATTEMPTS
      invariant sock ==> attempts > 0 && connects(attempts - 1)
      invariant forall k :: 0 <= k < (if sock then attempts - 1 else attempts) ==> !connects(k)
    {
      sock := connects(attempts);
      attempts := attempts + 1;
    }
  }

  /** The world after n attempts of a client, each after some steps of the others. */
  function AfterAttempts(w: World, c: nat, others: nat -> seq<Event>, refused: nat -> bool, n: nat): World
    decreases n, 0
  {
    if n == 0 then w
    else Step(BeforeAttempt(w, c, others, refused, n - 1), Connect(c, refused(n - 1)))
  }

  function BeforeAttempt(w: World, c: nat, others: nat -> seq<Event>, refused: nat -> bool, n: nat): World
    decreases n, 1
  {
    Run(AfterAttempts(w, c, others, refused, n), others(n))
  }

  /** Attempt n succeeds when an instance has the name by then and does not refuse. */
  predicate Connects(w: World, c: nat, others: nat -> seq<Event>, refused: nat -> bool, n: nat) {
    BeforeAttempt(w, c, others, refused, n).owner.Some? && !refused(n)
  }

  /** A step that is not this client's. */
  predicate Elsewhere(e: Event, c: nat) {
    !ByServer(e) ==> e.c != c
  }

  lemma OneLeavesConnecting(w: World, e: Event, c: nat)
    requires c in w.clients && w.clients[c].Connecting? && Elsewhere(e, c)
    ensures var t := Step(w, e); c in t.clients && t.clients[c] == w.clients[c]
  {
  }

  lemma {:induction false} OthersLeaveConnecting(w: World, es: seq<Event>, c: nat)
    requires c in w.clients && w.clients[c].Connecting?
    requires forall k :: 0 <= k < |es| ==> Elsewhere(es[k], c)
    ensures var t := Run(w, es); c in t.clients && t.clients[c] == w.clients[c]
    decreases |es|
  {
    if es != [] {
      assert Elsewhere(es[0], c);
      OneLeavesConnecting(w, es[0], c);
      hide Step;
      OthersLeaveConnecting(Step(w, es[0]), es[1..], c);
    }
  }

  /** While no attempt succeeds the client keeps connecting, up to its 60th. */
  lemma {:induction false} StillConnecting(w: World, c: nat, others: nat -> seq<Event>, refused: nat -> bool, n: nat)
    requires c in w.clients && w.clients[c] == Connecting(0) && n < ATTEMPTS
    requires forall k, i :: 0 <= i < |others(k)| ==> Elsewhere(others(k)[i], c)
    requires forall k :: 0 <= k < n ==> !Connects(w, c, others, refused, k)
    ensures var t := BeforeAttempt(w, c, others, refused, n);
            c in t.clients && t.clients[c] == Connecting(n)
    decreases n
  {
    if n > 0 {
      StillConnecting(w, c, others, refused, n - 1);
      assert !Connects(w, c, others, refused, n - 1);
    }
    var a := AfterAttempts(w, c, others, refused, n);
    assert c in a.clients && a.clients[c] == Connecting(n);
    OthersLeaveConnecting(a, others(n), c);
  }

  /** The client's loop in any interleaving: it ends at its first attempt that finds
      an instance, waiting for the descriptor, or at its 60th, falling back. */
  method Acquire(ghost w: World, c: nat, ghost others: nat -> seq<Event>, ghost refused: nat -> bool,
                 connects: nat -> bool)
    returns (sock: bool, attempts: nat)
    requires c in w.clients && w.clients[c] == Connecting(0)
    requires forall k, i :: 0 <= i < |others(k)| ==> Elsewhere(others(k)[i], c)
    requires forall k :: connects(k) == Connects(w, c, others, refused, k)
    ensures 0 < attempts <= ATTEMPTS
    ensures var t := AfterAttempts(w, c, others, refused, attempts);
            c in t.clients && t.clients[c] == if sock then Waiting(Pending) else Fallback
    ensures sock <==> exists k :: 0 <= k < ATTEMPTS && Connects(w, c, others, refused, k)
  {
    sock, attempts := ConnectLoop(connects);
    StillConnecting(w, c, others, refused, attempts - 1);
    hide BeforeAttempt;
    assert connects(attempts - 1) == Connects(w, c, others, refused, attempts - 1);
  }

  function Tries(c: nat, n: nat): seq<Event> {
    seq(n, i => Connect(c, false))
  }

  /** Without an instance, a client gives up at its 60th attempt and not before. */
  lemma {:induction false} GivesUpAtSixty(w: World, c: nat, n: nat, k: nat)
    requires w.owner.None? && c in w.clients && w.clients[c] == Connecting(k) && k + n <= 60 && k < 60
    ensures var t := Run(w, Tries(c, n));
            c in t.clients && t.clients[c] == if k + n == 60 then Fallback else Connecting(k + n)
    decreases n
  {
    if n > 0 {
      assert Tries(c, n)[1..] == Tries(c, n - 1);
      var t := Step(w, Tries(c, n)[0]);
      if k + 1 < 60 {
        GivesUpAtSixty(t, c, n - 1, k + 1);
      }
    }
  }
}
