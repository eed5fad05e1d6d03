/**
 The camera wrapper around the vendor library's object: its life, its guarded
 calls, its callback shims and its parameter cache. The vendor object is what it
 has been asked so far; each open of the library makes a fresh one.
 */
module CameraWrapper {
  import opened CameraParams
  import opened Wrappers

  /** Which client callbacks are set, or which shims are registered. */
  datatype Cbs = Cbs(notify: bool, data: bool, stamped: bool)

  const NO_CBS: Cbs := Cbs(false, false, false)

  /** `late` counts calls that came after a release. */
  datatype Vendor = Vendor(cbs: Cbs, calls: nat, releases: nat, late: nat)

  const NEW_VENDOR: Vendor := Vendor(NO_CBS, 0, 0, 0)

  /** How many callbacks of each kind were passed on to the client. */
  datatype Counts = Counts(notify: nat, data: nat, stamped: nat)

  datatype Wrapper = Wrapper(attached: bool, released: bool, preview: bool, recording: bool, cbs: Cbs, delivered: Counts)

  const NEW_WRAPPER: Wrapper := Wrapper(true, false, false, false, NO_CBS, Counts(0, 0, 0))

  datatype Rc = NoError | InvalidOperation | OtherError

  /** The methods of the wrapper. Forward is any that passes one call on. */
  datatype Api =
    | SetCallbacks(cbs: Cbs) | Forward | NoForward
    | StartPreview(rc: Rc, again: Rc) | StopPreview | StartRecording(rc: Rc) | StopRecording | Release

  datatype Callback = Notify | Data(compressed: bool) | Stamped

  // ---------------------------------------------------------------- specification

  predicate Usable(w: Wrapper) {
    w.attached && !w.released
  }

  function Called(v: Vendor): Vendor {
    v.(calls := v.calls + 1, late := if v.releases > 0 then v.late + 1 else v.late)
  }

  function Apply(w: Wrapper, v: Vendor, a: Api): (Wrapper, Vendor) {
    if !Usable(w) then (w, v)
    else
      match a
      case SetCallbacks(c) => (w.(cbs := c), Called(v).(cbs := c))
      case Forward => (w, Called(v))
      case NoForward => (w, v)
      case StartPreview(rc, again) =>
        var twice := rc == OtherError;
        var last := if twice then again else rc;
        (if last == NoError then w.(preview := true) else w, if twice then Called(Called(v)) else Called(v))
      case StopPreview => if w.preview then (w.(preview := false), Called(v)) else (w, v)
      case StartRecording(rc) => (if rc == NoError then w.(recording := true) else w, Called(v))
      case StopRecording => (w.(recording := false), Called(v))
      case Release =>
        var stopped := if w.preview then Called(v) else v;
        var cleared := Called(stopped).(cbs := NO_CBS);
        var gone := Called(cleared);
        (Wrapper(false, true, false, false, NO_CBS, w.delivered), gone.(releases := gone.releases + 1))
  }

  /** A callback arriving at a shim, whether or not the vendor still should. */
  function Deliver(w: Wrapper, c: Callback): Wrapper {
    match c
    case Notify => if w.cbs.notify then w.(delivered := w.delivered.(notify := w.delivered.notify + 1)) else w
    case Data(compressed) =>
      var t := if compressed then w.(preview := false) else w;
      if w.cbs.data then t.(delivered := t.delivered.(data := t.delivered.data + 1)) else t
    case Stamped => if w.cbs.stamped then w.(delivered := w.delivered.(stamped := w.delivered.stamped + 1)) else w
  }

  // ------------------------------------------------------- all wrappers together

  /** Live wrappers with their strong references, every vendor object ever opened
      under the number of its wrapper, and the weak singleton. */
  datatype World = World(wrappers: map<nat, Wrapper>, refs: map<nat, nat>, vendors: map<nat, Vendor>,
                         singleton: Option<nat>, next: nat)

  const START: World := World(map[], map[], map[], None, 0)

  /** A drop says whether somebody besides the wrapper keeps the vendor object. */
  datatype Op =
    | Create(library: bool, opens: bool)
    | Acquire(i: nat) | Drop(i: nat, held: bool)
    | Invoke(i: nat, a: Api) | Fire(i: nat, c: Callback)

  /** The weak reference promotes while its wrapper lives. */
  predicate Reusable(w: World) {
    w.singleton.Some? && w.singleton.value in w.wrappers && w.singleton.value in w.refs && Usable(w.wrappers[w.singleton.value])
  }

  function CreateInstance(w: World, library: bool, opens: bool): (World, Option<nat>) {
    if Reusable(w) then
      var i := w.singleton.value;
      (w.(refs := w.refs[i := w.refs[i] + 1]), Some(i))
    else if !library then (w.(singleton := None), None)
    else if !opens then (w.(singleton := None, next := w.next + 1), None)
    else
      (World(w.wrappers[w.next := NEW_WRAPPER], w.refs[w.next := 1], w.vendors[w.next := NEW_VENDOR],
             Some(w.next), w.next + 1), Some(w.next))
  }

  /** A vendor object nobody keeps goes, and its shims with it. */
  function WithoutShims(vendors: map<nat, Vendor>, i: nat): map<nat, Vendor> {
    if i in vendors then vendors[i := vendors[i].(cbs := NO_CBS)] else vendors
  }

  function Step(w: World, op: Op): World {
    match op
    case Create(library, opens) => CreateInstance(w, library, opens).0
    case Acquire(i) => if i in w.refs then w.(refs := w.refs[i := w.refs[i] + 1]) else w
    case Drop(i, held) =>
      if i !in w.refs then w
      else if w.refs[i] > 1 then w.(refs := w.refs[i := w.refs[i] - 1])
      else w.(wrappers := w.wrappers - {i}, refs := w.refs - {i},
              vendors := if held then w.vendors else WithoutShims(w.vendors, i))
    case Invoke(i, a) =>
      if i !in w.wrappers || i !in w.vendors then w
      else
        var (t, v) := Apply(w.wrappers[i], w.vendors[i], a);
        w.(wrappers := w.wrappers[i := t], vendors := w.vendors[i := v],
           singleton := if a.Release? && Usable(w.wrappers[i]) then None else w.singleton)
    case Fire(i, c) =>
      if i !in w.wrappers then w else w.(wrappers := w.wrappers[i := Deliver(w.wrappers[i], c)])
  }

  function RunAll(w: World, ops: seq<Op>): World
    decreases |ops|
  {
    if ops == [] then w else RunAll(Step(w, ops[0]), ops[1..])
  }

  /** A live wrapper: callbacks and flags are clear once released. */
  predicate Tidy(s: Wrapper) {
    s.attached == !s.released && (s.released ==> s.cbs == NO_CBS && !s.preview && !s.recording)
  }

  /** A vendor object: at most one release, the last call, with no shims left. */
  predicate Respected(v: Vendor) {
    v.releases <= 1 && v.late == 0 && (v.releases == 1 ==> v.cbs == NO_CBS)
  }

  predicate Fine(w: World, i: nat)
    requires i in w.wrappers
  {
    && i < w.next && i in w.vendors && i in w.refs
    && Tidy(w.wrappers[i])
    && (Usable(w.wrappers[i]) ==> w.singleton == Some(i) && w.vendors[i].releases == 0
                                  && w.vendors[i].cbs == w.wrappers[i].cbs)
    && (!Usable(w.wrappers[i]) ==> w.vendors[i].releases == 1)
  }

  predicate Inv(w: World) {
    && (forall i :: i in w.wrappers ==> Fine(w, i))
    && (forall i :: i in w.refs ==> i in w.wrappers)
    && (forall i :: i in w.vendors ==> i < w.next && Respected(w.vendors[i]))
  }

  lemma ApplyKeeps(w: Wrapper, v: Vendor, a: Api)
    requires Tidy(w) && Respected(v)
    requires if Usable(w) then v.releases == 0 && v.cbs == w.cbs else v.releases == 1
    ensures var (t, u) := Apply(w, v, a);
            && Tidy(t) && Respected(u) && (if Usable(t) then u.releases == 0 && u.cbs == t.cbs else u.releases == 1)
            && Usable(t) == (Usable(w) && !a.Release?)
            && (w.released ==> t == w)
            && t.delivered == w.delivered
  {
  }

  /** How many calls of the vendor object a call of a usable wrapper makes. */
  lemma CallsMade(w: Wrapper, v: Vendor, a: Api)
    requires Usable(w)
    ensures Apply(w, v, a).1.calls - v.calls
            == match a
               case NoForward => 0
               case StartPreview(rc, _) => if rc == NoError || rc == InvalidOperation then 1 else 2
               case StopPreview => if w.preview then 1 else 0
               case Release => if w.preview then 3 else 2
               case _ => 1
    ensures Apply(w, v, a).1.releases - v.releases == if a.Release? then 1 else 0
  {
  }

  lemma DeliverKeeps(w: Wrapper, c: Callback)
    requires Tidy(w)
    ensures var t := Deliver(w, c);
            && Tidy(t) && Usable(t) == Usable(w) && t.released == w.released && t.cbs == w.cbs
            && (w.released ==> t.delivered == w.delivered)
  {
  }

  lemma NewIsFine()
    ensures Tidy(NEW_WRAPPER) && Respected(NEW_VENDOR)
  {
  }

  lemma CreateKeeps(w: World, library: bool, opens: bool)
    requires Inv(w)
    ensures Inv(CreateInstance(w, library, opens).0)
  {
    NewIsFine();
    hide Tidy, Respected;
  }

  lemma ReferenceKeeps(w: World, op: Op)
    requires Inv(w) && (op.Acquire? || op.Drop?)
    ensures Inv(Step(w, op))
  {
    hide Usable, Tidy;
  }

  lemma ObjectKeeps(w: World, op: Op)
    requires Inv(w) && (op.Invoke? || op.Fire?)
    ensures Inv(Step(w, op))
  {
    if op.i in w.wrappers {
      assert Fine(w, op.i);
      if op.Invoke? {
        ApplyKeeps(w.wrappers[op.i], w.vendors[op.i], op.a);
      } else {
        DeliverKeeps(w.wrappers[op.i], op.c);
      }
    }
    hide Apply, Deliver, Tidy, Respected, Usable;
  }

  lemma StepKeeps(w: World, op: Op)
    requires Inv(w)
    ensures Inv(Step(w, op))
  {
    match op {
      case Create(library, opens) => CreateKeeps(w, library, opens);
      case Acquire(_) => ReferenceKeeps(w, op);
      case Drop(_, _) => ReferenceKeeps(w, op);
      case _ => ObjectKeeps(w, op);
    }
    hide Inv, CreateInstance;
  }

  lemma {:induction false} RunKeeps(w: World, ops: seq<Op>)
    requires Inv(w)
    ensures Inv(RunAll(w, ops))
    decreases |ops|
  {
    hide Inv, Step;
    if ops != [] {
      StepKeeps(w, ops[0]);
      RunKeeps(Step(w, ops[0]), ops[1..]);
    }
  }

  /** On every run at most one live wrapper is usable and the singleton names it,
      and every vendor object was released at most once and never called after. */
  lemma OneUsableWrapper(ops: seq<Op>)
    ensures var w := RunAll(START, ops);
            && (forall i, j :: i in w.wrappers && j in w.wrappers && Usable(w.wrappers[i]) && Usable(w.wrappers[j]) ==> i == j)
            && (forall i :: i in w.wrappers && Usable(w.wrappers[i]) ==> w.singleton == Some(i))
            && (forall i :: i in w.vendors ==> w.vendors[i].releases <= 1 && w.vendors[i].late == 0)
  {
    RunKeeps(START, ops);
  }

  /** Opening the camera gives the usable wrapper if there is one, and otherwise a
      fresh one or none. */
  lemma CreateReturnsTheUsableOne(ops: seq<Op>, library: bool, opens: bool)
    ensures var w := RunAll(START, ops);
            var (t, r) := CreateInstance(w, library, opens);
            && (forall i :: i in w.wrappers && Usable(w.wrappers[i]) ==> r == Some(i))
            && ((forall i :: i in w.wrappers ==> !Usable(w.wrappers[i])) ==>
                  r == if library && opens then Some(w.next) else None)
            && (r.Some? ==> r.value in t.wrappers && Usable(t.wrappers[r.value]) && t.singleton == r)
  {
    RunKeeps(START, ops);
  }

  lemma StepDeliversNothing(w: World, op: Op, i: nat)
    requires Inv(w) && i in w.wrappers && w.wrappers[i].released
    ensures var t := Step(w, op);
            && (i in t.wrappers ==> t.wrappers[i].released && t.wrappers[i].delivered == w.wrappers[i].delivered)
            && i < t.next
  {
    assert Fine(w, i);
    if op.Invoke? && op.i == i { ApplyKeeps(w.wrappers[i], w.vendors[i], op.a); }
    if op.Fire? && op.i == i { DeliverKeeps(w.wrappers[i], op.c); }
    hide Apply, Deliver, Tidy, Respected;
  }

  lemma {:induction false} StaysGone(w: World, ops: seq<Op>, i: nat)
    requires i !in w.wrappers && i < w.next
    ensures i !in RunAll(w, ops).wrappers
    decreases |ops|
  {
    if ops != [] {
      StaysGone(Step(w, ops[0]), ops[1..], i);
    }
  }

  /** Once a wrapper is released, no callback that still arrives reaches the client,
      whatever happens to any wrapper. */
  lemma {:induction false} NoDeliveryAfterRelease(w: World, ops: seq<Op>, i: nat)
    requires Inv(w) && i in w.wrappers && w.wrappers[i].released
    ensures var t := RunAll(w, ops);
            i in t.wrappers ==> t.wrappers[i].released && t.wrappers[i].delivered == w.wrappers[i].delivered
    decreases |ops|
  {
    if ops != [] {
      var t := Step(w, ops[0]);
      StepKeeps(w, ops[0]);
      StepDeliversNothing(w, ops[0], i);
      hide Inv, Step;
      if i in t.wrappers {
        NoDeliveryAfterRelease(t, ops[1..], i);
      } else {
        StaysGone(t, ops[1..], i);
      }
    }
  }

  /** A vendor object that still holds shims of a wrapper that is gone. */
  predicate Dangles(w: World, i: nat) {
    i in w.vendors && i !in w.wrappers && w.vendors[i].cbs != NO_CBS
  }

  ghost predicate SomeDangles(w: World) {
    exists i :: Dangles(w, i)
  }

  /** The last reference to a wrapper goes, neither released nor without callbacks,
      and somebody else keeps its vendor object. */
  predicate UncleanDrop(w: World, op: Op, i: nat) {
    && op == Drop(i, true) && i in w.refs && w.refs[i] <= 1
    && i in w.wrappers && Usable(w.wrappers[i]) && w.wrappers[i].cbs != NO_CBS
  }

  /** One step leaves such a vendor object exactly when it was one before, or the
      step is such a drop. */
  lemma DanglesExactly(w: World, op: Op, i: nat)
    requires Inv(w)
    ensures Dangles(Step(w, op), i) <==> Dangles(w, i) || UncleanDrop(w, op, i)
  {
    if i in w.wrappers {
      assert Fine(w, i);
      if op.Invoke? && op.i == i { ApplyKeeps(w.wrappers[i], w.vendors[i], op.a); }
    }
    hide Apply, Deliver;
    assert NEW_VENDOR.cbs == NO_CBS;
  }

  /** No step of the run is such a drop in the state it comes in. */
  ghost predicate DropsCleanly(w: World, ops: seq<Op>)
    decreases |ops|
  {
    ops == [] || (!(ops[0].Drop? && UncleanDrop(w, ops[0], ops[0].i)) && DropsCleanly(Step(w, ops[0]), ops[1..]))
  }

  lemma {:induction false} StaysDangling(w: World, ops: seq<Op>, i: nat)
    requires Inv(w) && Dangles(w, i)
    ensures Dangles(RunAll(w, ops), i)
    decreases |ops|
  {
    if ops != [] {
      DanglesExactly(w, ops[0], i);
      StepKeeps(w, ops[0]);
      hide Step, Inv, Dangles;
      StaysDangling(Step(w, ops[0]), ops[1..], i);
    }
  }

  /** At the end of a run a vendor object dangles if and only if some wrapper did not
      go cleanly. */
  lemma {:induction false} DanglesAfterUncleanDrop(w: World, ops: seq<Op>)
    requires Inv(w) && !SomeDangles(w)
    ensures SomeDangles(RunAll(w, ops)) <==> !DropsCleanly(w, ops)
    decreases |ops|
  {
    if ops != [] {
      var t := Step(w, ops[0]);
      StepKeeps(w, ops[0]);
      forall i ensures Dangles(t, i) <==> UncleanDrop(w, ops[0], i) { DanglesExactly(w, ops[0], i); }
      hide Inv, Step, Dangles;
      if i :| Dangles(t, i) {
        assert ops[0] == Drop(i, true);
        StaysDangling(t, ops[1..], i);
        assert Dangles(RunAll(w, ops), i);
      } else {
        assert !SomeDangles(t);
        DanglesAfterUncleanDrop(t, ops[1..]);
      }
    }
  }

  // ------------------------------------------------------------------ the classes

  /** The vendor library's object: it records how it is used. */
  class VendorObject {
    var v: Vendor
    var sent: Option<Params>

    constructor ()
      ensures v == NEW_VENDOR && sent == None
    {
      v, sent := NEW_VENDOR, None;
    }

    method Request()
      modifies this`v
      ensures v == Called(old(v))
    {
      v := Called(v);
    }

    method Register(cbs: Cbs)
      modifies this`v
      ensures v == Called(old(v)).(cbs := cbs)
    {
      v := Called(v).(cbs := cbs);
    }

    method TakeParameters(p: Params)
      modifies this
      ensures v == Called(old(v)) && sent == Some(p)
    {
      v, sent := Called(v), Some(p);
    }

    method Free()
      modifies this`v
      ensures v == Called(old(v)).(releases := old(v).releases + 1)
    {
      v := Called(v).(releases := v.releases + 1);
    }
  }

  class Camera {
    var iface: VendorObject?
    var released: bool
    var previewRunning: bool
    var recordingRunning: bool
    var cbs: Cbs
    var delivered: Counts
    var good: Option<Params>

    ghost function State(): Wrapper
      reads this
    {
      Wrapper(iface != null, released, previewRunning, recordingRunning, cbs, delivered)
    }

    constructor (library: VendorObject?)
      ensures iface == library && good == None
      ensures State() == NEW_WRAPPER.(attached := library != null)
    {
      iface, released, previewRunning, recordingRunning := library, false, false, false;
      cbs, delivered, good := NO_CBS, Counts(0, 0, 0), None;
    }

    /** The wrapper with the vendor object it drives. */
    ghost function Pair(d: VendorObject): (Wrapper, Vendor)
      reads this, d
    {
      (State(), d.v)
    }

    predicate IsUsable()
      reads this
      ensures IsUsable() == Usable(State())
    {
      iface != null && !released
    }

    method SetCallbacksTo(c: Cbs)
      modifies this`cbs, iface
      ensures old(iface) != null ==> Pair(old(iface)) == old(Apply(State(), iface.v, SetCallbacks(c)))
      ensures old(iface) != null ==> old(iface).sent == old(iface.sent)
      ensures old(iface) == null ==> State() == old(State())
    {
      if IsUsable() {
        cbs := c;
        iface.Register(c);
      }
    }

    /** Any of the methods that pass one call on. */
    method PassOn()
      modifies iface
      ensures iface != null ==> Pair(iface) == old(Apply(State(), iface.v, Forward)) && iface.sent == old(iface.sent)
    {
      if IsUsable() {
        iface.Request();
      }
    }

    method GetParameters() returns (p: Params)
      modifies this`good
      ensures p == old(if good.Some? then good.value else Seed())
      ensures good == if old(IsUsable()) || old(good.Some?) then Some(p) else None
    {
      hide Seed;
      if !IsUsable() {
        if good.Some? { return good.value; }
        return Seed();
      }
      if good.Some? { return good.value; }
      p := Seed();
      good := Some(p);
    }

    method BeginPreview(rc0: Rc, again: Rc) returns (rc: Rc)
      modifies this`previewRunning, this`good, iface
      ensures old(iface) != null ==> Pair(old(iface)) == old(Apply(State(), iface.v, StartPreview(rc0, again)))
      ensures rc == if !old(IsUsable()) then InvalidOperation else if rc0 == OtherError then again else rc0
      ensures old(iface) == null ==> State() == old(State())
    {
      if !IsUsable() { return InvalidOperation; }
      var _ := GetParameters();
      iface.Request();
      rc := rc0;
      if rc != NoError && rc != InvalidOperation {
        iface.Request();
        rc := again;
      }
      if rc == NoError {
        previewRunning := true;
      }
    }

    method EndPreview()
      modifies this`previewRunning, iface
      ensures old(iface) != null ==> Pair(old(iface)) == old(Apply(State(), iface.v, StopPreview))
      ensures old(iface) != null ==> old(iface).sent == old(iface.sent)
      ensures old(iface) == null ==> State() == old(State())
    {
      if !IsUsable() { return; }
      if !previewRunning { return; }
      iface.Request();
      previewRunning := false;
    }

    method BeginRecording(rc0: Rc) returns (rc: Rc)
      modifies this`recordingRunning, this`good, iface
      ensures old(iface) != null ==> Pair(old(iface)) == old(Apply(State(), iface.v, StartRecording(rc0)))
      ensures rc == if !old(IsUsable()) then InvalidOperation else rc0
      ensures old(iface) == null ==> State() == old(State())
    {
      if !IsUsable() { return InvalidOperation; }
      var _ := GetParameters();
      iface.Request();
      rc := rc0;
      if rc == NoError {
        recordingRunning := true;
      }
    }

    method EndRecording()
      modifies this`recordingRunning, iface
      ensures old(iface) != null ==> Pair(old(iface)) == old(Apply(State(), iface.v, StopRecording))
      ensures old(iface) == null ==> State() == old(State())
    {
      if !IsUsable() { return; }
      iface.Request();
      recordingRunning := false;
    }

    method ReleaseAll()
      modifies this, iface
      ensures old(iface) != null ==> Pair(old(iface)) == old(Apply(State(), iface.v, Release))
      ensures old(iface) == null ==> State() == old(State())
      ensures good == old(good)
    {
      if !IsUsable() { return; }
      if previewRunning {
        EndPreview();
      }
      iface.Register(NO_CBS);
      cbs := NO_CBS;
      iface.Free();
      released := true;
      previewRunning, recordingRunning := false, false;
      iface := null;
    }

    /** The shims the vendor object calls, with the wrapper as their user. */
    method Arrive(c: Callback)
      modifies this`previewRunning, this`delivered
      ensures State() == old(Deliver(State(), c))
    {
      match c {
        case Notify =>
          if cbs.notify { delivered := delivered.(notify := delivered.notify + 1); }
        case Data(compressed) =>
          if compressed { previewRunning := false; }
          if cbs.data { delivered := delivered.(data := delivered.data + 1); }
        case Stamped =>
          if cbs.stamped { delivered := delivered.(stamped := delivered.stamped + 1); }
      }
    }

    // ------------------------------------------------------------- parameters

    static method CopyParameterIfPresent(fw: Framework, dst: Params, src: Params, k: Key) returns (r: Params)
      ensures r == CopyOne(fw, dst, src, k)
    {
      r := dst;
      if k !in src || src[k] == "" { return; }
      if fw.accepts(src[k]) {
        r := r[k := src[k]];
      }
    }

    static method SanitizeParameters(fw: Framework, raw: Params) returns (safe: Params)
      ensures safe == Sanitized(fw, raw)
    {
      hide Seed, Kept;
      safe := Seed();
      var keys := Kept();
      var i := 0;
      while i < |keys|
        invariant 0 <= i <= |keys|
        invariant safe == CopyAll(fw, Seed(), raw, keys[..i])
      {
        assert keys[..i + 1][..i] == keys[..i];
        safe := CopyParameterIfPresent(fw, safe, raw, keys[i]);
        i := i + 1;
      }
      assert keys[..i] == keys;
    }

    static method BuildDelegatedParameters(fw: Framework, safe: Params) returns (out: Params)
      ensures out == Built(fw, safe)
    {
      hide Seed, CandidateKeys, IsDelegatable;
      out := Seed();
      var keys := CandidateKeys();
      var i := 0;
      while i < |keys|
        invariant 0 <= i <= |keys|
        invariant out == CopyDelegatable(fw, Seed(), safe, keys[..i])
      {
        assert keys[..i + 1][..i] == keys[..i];
        i := i + 1;
        if !IsDelegatable(keys[i - 1]) {
          continue;
        }
        out := CopyParameterIfPresent(fw, out, safe, keys[i - 1]);
      }
      assert keys[..i] == keys;
    }

    /** What is cached here and was sent to a vendor object. */
    ghost function Cache(d: VendorObject): CameraParams.State
      reads this, d
    {
      CameraParams.State(good, d.sent)
    }

    method SetParameters(fw: Framework, params: Params, delegate: bool)
      modifies this`good, iface
      ensures iface != null && !released ==> Cache(iface) == old(Set(fw, Cache(iface), params, delegate))
      ensures iface != null ==> Pair(iface) == old(Apply(State(), iface.v, if delegate then Forward else NoForward))
      ensures iface == null || released ==> good == old(good) && (iface != null ==> iface.sent == old(iface.sent))
    {
      hide Seed, Kept, CandidateKeys, Sanitized, Built;
      if !IsUsable() { return; }
      var patched := params;
      if PreviewSize !in patched { patched := patched[PreviewSize := "480x320"]; }
      if PictureSize !in patched { patched := patched[PictureSize := "640x480"]; }
      if PreviewFormat !in patched { patched := patched[PreviewFormat := "yuv420sp"]; }
      if PictureFormat !in patched { patched := patched[PictureFormat := "jpeg"]; }
      assert patched == Patched(params);
      hide Patched;
      var safe := SanitizeParameters(fw, patched);
      good := Some(safe);
      if !delegate { return; }
      var delegated := BuildDelegatedParameters(fw, safe);
      var remapped := false;
      if Is432(fw, delegated) {
        delegated := delegated[PreviewSize := "480x320"];
        remapped := true;
      }
      iface.TakeParameters(delegated);
      if remapped {
        good := Some(good.value[PreviewSize := "480x320"]);
      }
    }
  }
}
