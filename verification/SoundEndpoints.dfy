/**
 Looking up the sound driver's endpoints by name, with the FM substitutes. It says
 for which drivers the routing results about FM apply.
 */
module SoundEndpoints {
  import opened Routing
  import opened RoutingProofs

  /** The names looked for. Unlisted is any other, Unread a request that failed. */
  datatype Name =
    | Current | Handset | SpeakerName | Bt | BtEcOff | Headset | HeadsetAndSpeaker
    | SadcHandset | SadcSpeaker | TtyHeadset | TtyHco | TtyVco
    | FmSpeakerName | FmHeadset | FmDigitalHeadset | FmRadioHeadset | FmDigitalSpeaker | FmRadioSpeaker
    | FmAnalogHeadset | FmAnalogHeadsetCodec
    | Unlisted | Unread

  /** What is looked up: an endpoint with one plain name, or one for FM. */
  datatype Slot = Plain(name: Name) | ForFmHeadset | ForFmSpeaker | ForAnalogHeadset | ForAnalogSpeaker

  predicate Exact(s: Slot, n: Name) {
    match s
    case Plain(name) => n == name
    case ForFmHeadset => n == FmHeadset || n == FmDigitalHeadset
    case ForFmSpeaker => n == FmSpeakerName || n == FmDigitalSpeaker
    case ForAnalogHeadset => n == FmAnalogHeadset
    case ForAnalogSpeaker => n == FmRadioSpeaker
  }

  predicate Substitute(s: Slot, n: Name) {
    match s
    case Plain(_) => false
    case ForFmHeadset => n == FmRadioHeadset
    case ForFmSpeaker => n == FmRadioSpeaker
    case ForAnalogHeadset => n == FmAnalogHeadsetCodec || n == FmRadioHeadset
    case ForAnalogSpeaker => false
  }

  /** One answer of the driver: the id it gives the endpoint, and its name. */
  datatype Report = Report(id: int, name: Name)

  // ---------------------------------------------------------------- specification

  /** The last endpoint with an exact name, or -1. */
  function LastExact(rs: seq<Report>, s: Slot): (r: int)
    ensures -1 <= r < |rs| && (r >= 0 ==> Exact(s, rs[r].name))
    ensures forall i :: r < i < |rs| ==> !Exact(s, rs[i].name)
    decreases |rs|
  {
    if rs == [] then -1
    else if Exact(s, rs[|rs| - 1].name) then |rs| - 1 else LastExact(rs[..|rs| - 1], s)
  }

  /** A substitute that is taken while the field is empty. */
  predicate Fills(s: Slot, r: Report) {
    Substitute(s, r.name) && r.id != -1
  }

  /** The first endpoint from position `from` on that fills in, or -1. */
  function FirstFilling(rs: seq<Report>, from: nat, s: Slot): (r: int)
    ensures -1 <= r < |rs| && (r >= 0 ==> from <= r && Fills(s, rs[r]))
    ensures forall i :: from <= i < (if r < 0 then |rs| else r) ==> !Fills(s, rs[i])
    decreases |rs|
  {
    if rs == [] then -1
    else
      var r := FirstFilling(rs[..|rs| - 1], from, s);
      if r >= 0 then r
      else if from <= |rs| - 1 && Fills(s, rs[|rs| - 1]) then |rs| - 1 else -1
  }

  /** The endpoint that decides a field: the last exact match, unless its id is -1,
      else the first substitute behind it; -1 if there is none. */
  function Pick(rs: seq<Report>, s: Slot): (r: int)
    ensures -1 <= r < |rs| && (r >= 0 ==> rs[r].id != -1 && (Exact(s, rs[r].name) || Substitute(s, rs[r].name)))
  {
    var e := LastExact(rs, s);
    if e >= 0 && rs[e].id != -1 then e else FirstFilling(rs, e + 1, s)
  }

  function Found(rs: seq<Report>, s: Slot): int {
    var i := Pick(rs, s);
    if i >= 0 then rs[i].id else -1
  }

  function Or(a: int, b: int): int { if a == -1 then b else a }

  function Looked(rs: seq<Report>): Endpoints {
    var headset := Found(rs, Plain(Headset));
    var speaker := Found(rs, Plain(SpeakerName));
    var fmHeadset := Or(Found(rs, ForFmHeadset), headset);
    var fmSpeaker := Or(Found(rs, ForFmSpeaker), speaker);
    Endpoints(
      Found(rs, Plain(Current)), Found(rs, Plain(Handset)), speaker, Found(rs, Plain(Bt)), headset,
      Found(rs, Plain(SadcHandset)), Found(rs, Plain(SadcSpeaker)),
      Found(rs, Plain(TtyHeadset)), Found(rs, Plain(TtyHco)), Found(rs, Plain(TtyVco)), -1,
      fmSpeaker, fmHeadset, Or(Found(rs, ForAnalogSpeaker), fmSpeaker), Or(Found(rs, ForAnalogHeadset), fmHeadset))
  }

  /** A field after one more endpoint. */
  function Noted(field: int, r: Report, s: Slot): int {
    if Exact(s, r.name) then r.id else if Substitute(s, r.name) && field == -1 then r.id else field
  }

  lemma FoundExact(rs: seq<Report>, i: nat, s: Slot)
    requires i < |rs| && Exact(s, rs[i].name)
    ensures Found(rs[..i + 1], s) == rs[i].id
  {
    var more := rs[..i + 1];
    assert more[|more| - 1] == rs[i];
    hide FirstFilling, Exact;
  }

  lemma FoundNoExact(rs: seq<Report>, i: nat, s: Slot)
    requires i < |rs| && !Exact(s, rs[i].name)
    ensures LastExact(rs[..i + 1], s) == LastExact(rs[..i], s)
  {
    assert rs[..i + 1][..i] == rs[..i];
    hide Exact;
  }

  lemma FoundIs(rs: seq<Report>, s: Slot)
    ensures var e := LastExact(rs, s);
            var r := FirstFilling(rs, e + 1, s);
            Found(rs, s) == if e >= 0 && rs[e].id != -1 then rs[e].id else if r >= 0 then rs[r].id else -1
    ensures var r := FirstFilling(rs, LastExact(rs, s) + 1, s);
            r >= 0 ==> rs[r].id != -1
  {
    hide LastExact, FirstFilling;
  }

  lemma FillingStep(rs: seq<Report>, i: nat, from: nat, s: Slot)
    requires i < |rs|
    ensures var r := FirstFilling(rs[..i], from, s);
            FirstFilling(rs[..i + 1], from, s) == if r >= 0 then r
                                                    else if from <= i && Substitute(s, rs[i].name) && rs[i].id != -1 then i else -1
  {
    assert rs[..i + 1][..i] == rs[..i];
    hide Substitute;
  }

  lemma FoundCases(rs: seq<Report>, i: nat, s: Slot)
    requires i < |rs| && LastExact(rs[..i + 1], s) == LastExact(rs[..i], s)
    ensures Found(rs[..i + 1], s)
            == if Found(rs[..i], s) == -1 && Substitute(s, rs[i].name) then rs[i].id else Found(rs[..i], s)
  {
    hide *;
    var front, more := rs[..i], rs[..i + 1];
    var e := LastExact(front, s);
    FillingStep(rs, i, e + 1, s);
    FoundIs(front, s);
    FoundIs(more, s);
    assert e >= 0 ==> more[e] == front[e];
    var r := FirstFilling(front, e + 1, s);
    assert r >= 0 ==> more[r] == front[r];
    assert more[i] == rs[i];
  }

  lemma NotedIsFound(rs: seq<Report>, i: nat, s: Slot)
    requires i < |rs|
    ensures Found(rs[..i + 1], s) == Noted(Found(rs[..i], s), rs[i], s)
  {
    if Exact(s, rs[i].name) {
      FoundExact(rs, i, s);
    } else {
      FoundNoExact(rs, i, s);
      FoundCases(rs, i, s);
    }
    hide Found, Exact, Substitute;
  }

  lemma PlainFound(rs: seq<Report>, i: nat, name: Name)
    requires i < |rs|
    ensures Found(rs[..i + 1], Plain(name)) == if rs[i].name == name then rs[i].id else Found(rs[..i], Plain(name))
  {
    NotedIsFound(rs, i, Plain(name));
    hide Found;
  }

  lemma NothingFound(s: Slot)
    ensures Found([], s) == -1
  {
  }

  // --------------------------------------------------------------------- the scan

  const NOTHING: Endpoints := Endpoints(-1, -1, -1, -1, -1, -1, -1, -1, -1, -1, -1, -1, -1, -1, -1)

  /** The fields of the HAL that name endpoints. */
  class EndpointTable {
    var current: int
    var handset: int
    var speaker: int
    var bt: int
    var headset: int
    var sadcHandset: int
    var sadcSpeaker: int
    var ttyHeadset: int
    var ttyHco: int
    var ttyVco: int
    var carkit: int
    var fmSpeaker: int
    var fmHeadset: int
    var fmAnalogSpeaker: int
    var fmAnalogHeadset: int

    ghost function Table(): Endpoints
      reads this
    {
      Endpoints(current, handset, speaker, bt, headset, sadcHandset, sadcSpeaker, ttyHeadset, ttyHco, ttyVco, carkit,
                fmSpeaker, fmHeadset, fmAnalogSpeaker, fmAnalogHeadset)
    }

    constructor ()
      ensures Table() == NOTHING
    {
      current, handset, speaker, bt, headset := -1, -1, -1, -1, -1;
      sadcHandset, sadcSpeaker, ttyHeadset, ttyHco, ttyVco := -1, -1, -1, -1, -1;
      carkit, fmSpeaker, fmHeadset, fmAnalogSpeaker, fmAnalogHeadset := -1, -1, -1, -1, -1;
    }

    /** The fields set from one plain name, for the endpoints so far. */
    ghost predicate PlainFollow(rs: seq<Report>)
      reads this
    {
      && current == Found(rs, Plain(Current)) && handset == Found(rs, Plain(Handset))
      && speaker == Found(rs, Plain(SpeakerName)) && bt == Found(rs, Plain(Bt))
      && headset == Found(rs, Plain(Headset))
      && sadcHandset == Found(rs, Plain(SadcHandset)) && sadcSpeaker == Found(rs, Plain(SadcSpeaker))
      && ttyHeadset == Found(rs, Plain(TtyHeadset)) && ttyHco == Found(rs, Plain(TtyHco))
      && ttyVco == Found(rs, Plain(TtyVco)) && carkit == -1
    }

    ghost predicate FmFollow(rs: seq<Report>)
      reads this
    {
      && fmHeadset == Found(rs, ForFmHeadset) && fmSpeaker == Found(rs, ForFmSpeaker)
      && fmAnalogHeadset == Found(rs, ForAnalogHeadset) && fmAnalogSpeaker == Found(rs, ForAnalogSpeaker)
    }

    method CheckPlain(r: Report, n: nat, ghost rs: seq<Report>)
      requires n < |rs| && rs[n] == r && PlainFollow(rs[..n])
      modifies this`current, this`handset, this`speaker, this`bt, this`headset, this`sadcHandset, this`sadcSpeaker,
               this`ttyHeadset, this`ttyHco, this`ttyVco
      ensures PlainFollow(rs[..n + 1])
    {
      hide Found;
      PlainFound(rs, n, Current);
      PlainFound(rs, n, Handset);
      PlainFound(rs, n, SpeakerName);
      PlainFound(rs, n, Bt);
      PlainFound(rs, n, Headset);
      PlainFound(rs, n, SadcHandset);
      PlainFound(rs, n, SadcSpeaker);
      PlainFound(rs, n, TtyHeadset);
      PlainFound(rs, n, TtyHco);
      PlainFound(rs, n, TtyVco);
      if r.name == Current { current := r.id; }
      if r.name == Handset { handset := r.id; }
      if r.name == SpeakerName { speaker := r.id; }
      if r.name == Bt { bt := r.id; }
      if r.name == Headset { headset := r.id; }
      if r.name == SadcHandset { sadcHandset := r.id; }
      if r.name == SadcSpeaker { sadcSpeaker := r.id; }
      if r.name == TtyHeadset { ttyHeadset := r.id; }
      if r.name == TtyHco { ttyHco := r.id; }
      if r.name == TtyVco { ttyVco := r.id; }
    }

    method CheckFm(r: Report, n: nat, ghost rs: seq<Report>)
      requires n < |rs| && rs[n] == r && FmFollow(rs[..n])
      modifies this`fmHeadset, this`fmSpeaker, this`fmAnalogHeadset, this`fmAnalogSpeaker
      ensures FmFollow(rs[..n + 1])
    {
      hide Found;
      NotedIsFound(rs, n, ForFmHeadset);
      NotedIsFound(rs, n, ForFmSpeaker);
      NotedIsFound(rs, n, ForAnalogHeadset);
      NotedIsFound(rs, n, ForAnalogSpeaker);
      if r.name == FmSpeakerName { fmSpeaker := r.id; }
      if r.name == FmHeadset { fmHeadset := r.id; }
      if r.name == FmDigitalHeadset {
        fmHeadset := r.id;
      } else if r.name == FmRadioHeadset {
        if fmHeadset == -1 { fmHeadset := r.id; }
      }
      if r.name == FmDigitalSpeaker {
        fmSpeaker := r.id;
      } else if r.name == FmRadioSpeaker {
        if fmSpeaker == -1 { fmSpeaker := r.id; }
      }
      if r.name == FmAnalogHeadset {
        fmAnalogHeadset := r.id;
      } else if r.name == FmAnalogHeadsetCodec || r.name == FmRadioHeadset {
        if fmAnalogHeadset == -1 { fmAnalogHeadset := r.id; }
      }
      if r.name == FmRadioSpeaker { fmAnalogSpeaker := r.id; }
    }

    /** The whole lookup: every endpoint in turn, then what FM lacks. */
    method GetSoundEndpoints(rs: seq<Report>)
      requires Table() == NOTHING
      modifies this
      ensures Table() == Looked(rs)
    {
      hide Found;
      var cnt := 0;
      forall s: Slot ensures Found([], s) == -1 { NothingFound(s); }
      assert rs[..0] == [];
      while cnt < |rs|
        invariant 0 <= cnt <= |rs| && PlainFollow(rs[..cnt]) && FmFollow(rs[..cnt])
      {
        CheckPlain(rs[cnt], cnt, rs);
        CheckFm(rs[cnt], cnt, rs);
        cnt := cnt + 1;
      }
      assert rs[..cnt] == rs;
      assert Table() == Endpoints(
        Found(rs, Plain(Current)), Found(rs, Plain(Handset)), Found(rs, Plain(SpeakerName)), Found(rs, Plain(Bt)),
        Found(rs, Plain(Headset)), Found(rs, Plain(SadcHandset)), Found(rs, Plain(SadcSpeaker)),
        Found(rs, Plain(TtyHeadset)), Found(rs, Plain(TtyHco)), Found(rs, Plain(TtyVco)), -1,
        Found(rs, ForFmSpeaker), Found(rs, ForFmHeadset), Found(rs, ForAnalogSpeaker), Found(rs, ForAnalogHeadset));
      if fmHeadset == -1 || fmSpeaker == -1 {
        if fmHeadset == -1 { fmHeadset := headset; }
        if fmSpeaker == -1 { fmSpeaker := speaker; }
      }
      if fmAnalogHeadset == -1 { fmAnalogHeadset := fmHeadset; }
      if fmAnalogSpeaker == -1 { fmAnalogSpeaker := fmSpeaker; }
    }
  }

  // ---------------------------------------------------------------- main results

  lemma NamedField(rs: seq<Report>, i: nat, s: Slot)
    requires i < |rs| && Exact(s, rs[i].name) && rs[i].id != -1
    requires forall j :: i < j < |rs| ==> !Exact(s, rs[j].name)
    ensures Found(rs, s) == rs[i].id
  {
    hide Exact, Substitute;
    assert LastExact(rs, s) == i;
  }

  /** The last endpoint of a plain name has its field. */
  lemma PlainFieldsAreNamed(rs: seq<Report>, i: nat)
    requires i < |rs| && rs[i].id != -1 && forall j :: i < j < |rs| ==> rs[j].name != rs[i].name
    ensures var ep, id := Looked(rs), rs[i].id;
            match rs[i].name
            case Current => ep.current == id
            case Handset => ep.handset == id
            case SpeakerName => ep.speaker == id
            case Bt => ep.bt == id
            case Headset => ep.headset == id
            case SadcHandset => ep.sadcHandset == id
            case SadcSpeaker => ep.sadcSpeaker == id
            case TtyHeadset => ep.ttyHeadset == id
            case TtyHco => ep.ttyHco == id
            case TtyVco => ep.ttyVco == id
            case _ => ep.carkit == -1
  {
    NamedField(rs, i, Plain(rs[i].name));
    hide Found;
  }

  predicate NoneNamed(rs: seq<Report>, names: set<Name>) {
    forall j :: 0 <= j < |rs| ==> rs[j].name !in names
  }

  /** So has the last endpoint named for FM, of either name; without any the plain
      headset and speaker stand in, and for the analog path those for the digital one. */
  lemma FmFieldsAreNamed(rs: seq<Report>, i: nat)
    requires i < |rs| && rs[i].id != -1
    ensures var ep, id, later := Looked(rs), rs[i].id, rs[i + 1..];
            && (rs[i].name in {FmHeadset, FmDigitalHeadset} && NoneNamed(later, {FmHeadset, FmDigitalHeadset}) ==> ep.fmHeadset == id)
            && (rs[i].name in {FmSpeakerName, FmDigitalSpeaker} && NoneNamed(later, {FmSpeakerName, FmDigitalSpeaker}) ==>
                  ep.fmSpeaker == id)
            && (rs[i].name == FmAnalogHeadset && NoneNamed(later, {FmAnalogHeadset}) ==> ep.fmAnalogHeadset == id)
            && (rs[i].name == FmRadioSpeaker && NoneNamed(later, {FmRadioSpeaker}) ==> ep.fmAnalogSpeaker == id)
  {
    assert forall j :: i < j < |rs| ==> rs[j] == rs[i + 1..][j - i - 1];
    hide Found;
    if rs[i].name in {FmHeadset, FmDigitalHeadset} && NoneNamed(rs[i + 1..], {FmHeadset, FmDigitalHeadset}) {
      NamedField(rs, i, ForFmHeadset);
    }
    if rs[i].name in {FmSpeakerName, FmDigitalSpeaker} && NoneNamed(rs[i + 1..], {FmSpeakerName, FmDigitalSpeaker}) {
      NamedField(rs, i, ForFmSpeaker);
    }
    if rs[i].name == FmAnalogHeadset && NoneNamed(rs[i + 1..], {FmAnalogHeadset}) { NamedField(rs, i, ForAnalogHeadset); }
    if rs[i].name == FmRadioSpeaker && NoneNamed(rs[i + 1..], {FmRadioSpeaker}) { NamedField(rs, i, ForAnalogSpeaker); }
  }

  lemma NothingFor(rs: seq<Report>, s: Slot)
    requires forall j :: 0 <= j < |rs| ==> !Exact(s, rs[j].name) && !Substitute(s, rs[j].name)
    ensures Found(rs, s) == -1
  {
    hide Exact, Substitute;
  }

  lemma PlainStandsInForFm(rs: seq<Report>)
    requires NoneNamed(rs, {FmHeadset, FmDigitalHeadset, FmRadioHeadset, FmSpeakerName, FmDigitalSpeaker, FmRadioSpeaker,
                            FmAnalogHeadset, FmAnalogHeadsetCodec})
    ensures var ep := Looked(rs);
            ep.fmHeadset == ep.fmAnalogHeadset == ep.headset && ep.fmSpeaker == ep.fmAnalogSpeaker == ep.speaker
  {
    NothingFor(rs, ForFmHeadset);
    NothingFor(rs, ForFmSpeaker);
    NothingFor(rs, ForAnalogHeadset);
    NothingFor(rs, ForAnalogSpeaker);
    hide Found;
  }

  /** What else is fixed, with the endpoints the driver's answers give. */
  function With(fixed: Config, rs: seq<Report>): Config {
    fixed.(ep := Looked(rs))
  }

  /** What a route may choose, besides FM. */
  predicate Routable(s: Slot) {
    s in {Plain(Handset), Plain(SpeakerName), Plain(Bt), Plain(Headset), Plain(SadcHandset), Plain(SadcSpeaker),
          Plain(TtyHeadset), Plain(TtyHco), Plain(TtyVco)}
  }

  predicate ForFm(s: Slot) { !s.Plain? }

  /** Two lookups that both found an endpoint found different ids. */
  predicate Apart(rs: seq<Report>, s: Slot, t: Slot) {
    var i, j := Pick(rs, s), Pick(rs, t);
    i >= 0 && j >= 0 ==> rs[i].id != rs[j].id
  }

  /** The driver offers an FM headset and an FM speaker, and what it offers for FM
      has ids that are not negative and not those of CURRENT or another endpoint. */
  ghost predicate FmFits(rs: seq<Report>) {
    && Pick(rs, ForFmHeadset) >= 0 && Pick(rs, ForFmSpeaker) >= 0
    && forall s :: ForFm(s) && Pick(rs, s) >= 0 ==>
         && rs[Pick(rs, s)].id >= 0
         && forall t :: Routable(t) || t == Plain(Current) ==> Apart(rs, s, t)
  }

  /** The ids a field can have: what some lookup found, or none. */
  lemma PlainFields(rs: seq<Report>, d: int) returns (s: Slot)
    requires d in PlainEndpoints(Looked(rs)) && d != -1
    ensures Routable(s) && Found(rs, s) == d
  {
    hide Found;
    var ep := Looked(rs);
    s := if d == ep.handset then Plain(Handset) else if d == ep.speaker then Plain(SpeakerName)
         else if d == ep.bt then Plain(Bt) else if d == ep.headset then Plain(Headset)
         else if d == ep.sadcHandset then Plain(SadcHandset) else if d == ep.sadcSpeaker then Plain(SadcSpeaker)
         else if d == ep.ttyHeadset then Plain(TtyHeadset) else if d == ep.ttyHco then Plain(TtyHco) else Plain(TtyVco);
  }

  lemma RoutableFields(rs: seq<Report>, s: Slot)
    requires Routable(s)
    ensures Found(rs, s) in PlainEndpoints(Looked(rs))
  {
    hide Found;
  }

  lemma FmFields(rs: seq<Report>, d: int) returns (s: Slot)
    requires d in FmEndpoints(Looked(rs)) && d != -1
    ensures (ForFm(s) || Routable(s)) && Found(rs, s) == d
    ensures Found(rs, ForFmHeadset) != -1 && Found(rs, ForFmSpeaker) != -1 ==> ForFm(s)
  {
    hide Found;
    s := if d == Found(rs, ForFmHeadset) then ForFmHeadset
         else if d == Found(rs, ForFmSpeaker) then ForFmSpeaker
         else if d == Found(rs, ForAnalogHeadset) then ForAnalogHeadset
         else if d == Found(rs, ForAnalogSpeaker) then ForAnalogSpeaker
         else if d == Found(rs, Plain(Headset)) then Plain(Headset) else Plain(SpeakerName);
  }

  lemma ForFmFields(rs: seq<Report>, s: Slot)
    requires ForFm(s) && Found(rs, s) != -1
    ensures Found(rs, s) in FmEndpoints(Looked(rs))
  {
    hide Found;
  }

  lemma IsFmMeans(cfg: Config, d: int)
    ensures IsFm(cfg, d) <==> d in FmEndpoints(cfg.ep)
  {
  }

  lemma LookedCurrent(rs: seq<Report>)
    ensures Looked(rs).current == Found(rs, Plain(Current))
  {
  }

  lemma NotDistinct(cfg: Config, d: int)
    requires IsFm(cfg, d) && (d < 0 || d == cfg.ep.current || d in PlainEndpoints(cfg.ep))
    ensures !FmDistinct(cfg)
  {
    hide IsFm, PlainEndpoints;
  }

  lemma NotPlain(rs: seq<Report>, d: int)
    requires d != -1 && forall t :: Routable(t) ==> Found(rs, t) != d
    ensures d !in PlainEndpoints(Looked(rs))
  {
    if d in PlainEndpoints(Looked(rs)) {
      var t := PlainFields(rs, d);
    }
    hide Found, Looked, PlainEndpoints;
  }

  lemma OrTakesFirst(a: int, b: int)
    requires a != -1
    ensures Or(a, b) == a
  {
  }

  lemma NoneMissing(ep: Endpoints, analogHeadset: int, analogSpeaker: int, d: int)
    requires ep.fmHeadset != -1 && ep.fmSpeaker != -1
    requires ep.fmAnalogSpeaker == Or(analogSpeaker, ep.fmSpeaker) && ep.fmAnalogHeadset == Or(analogHeadset, ep.fmHeadset)
    requires d in FmEndpoints(ep)
    ensures d != -1
  {
  }

  lemma LookedFm(rs: seq<Report>)
    ensures var ep := Looked(rs);
            && ep.fmHeadset == Or(Found(rs, ForFmHeadset), ep.headset) && ep.fmSpeaker == Or(Found(rs, ForFmSpeaker), ep.speaker)
            && ep.fmAnalogSpeaker == Or(Found(rs, ForAnalogSpeaker), ep.fmSpeaker)
            && ep.fmAnalogHeadset == Or(Found(rs, ForAnalogHeadset), ep.fmHeadset)
  {
    hide Found, Or;
  }

  lemma FmNotMissing(rs: seq<Report>, d: int)
    requires Pick(rs, ForFmHeadset) >= 0 && Pick(rs, ForFmSpeaker) >= 0
    requires d in FmEndpoints(Looked(rs))
    ensures d != -1
  {
    assert Found(rs, ForFmHeadset) != -1 && Found(rs, ForFmSpeaker) != -1;
    hide *;
    LookedFm(rs);
    NoneMissing(Looked(rs), Found(rs, ForAnalogHeadset), Found(rs, ForAnalogSpeaker), d) by {
      OrTakesFirst(Found(rs, ForFmHeadset), Looked(rs).headset);
      OrTakesFirst(Found(rs, ForFmSpeaker), Looked(rs).speaker);
    }
  }

  lemma FitIsApart(rs: seq<Report>, d: int)
    requires FmFits(rs) && d in FmEndpoints(Looked(rs))
    ensures d >= 0 && d != Looked(rs).current && d !in PlainEndpoints(Looked(rs))
  {
    FmNotMissing(rs, d);
    var s := FmFields(rs, d);
    assert Pick(rs, s) >= 0 && rs[Pick(rs, s)].id == d;
    assert Apart(rs, s, Plain(Current));
    LookedCurrent(rs);
    forall t | Routable(t) ensures Found(rs, t) != d {
      assert Apart(rs, s, t);
    }
    NotPlain(rs, d);
    hide Looked, Pick, PlainEndpoints;
  }

  lemma FallbackCollides(rs: seq<Report>) returns (d: int)
    requires Pick(rs, ForFmHeadset) < 0 || Pick(rs, ForFmSpeaker) < 0
    ensures d in FmEndpoints(Looked(rs)) && d in PlainEndpoints(Looked(rs))
  {
    assert Found(rs, ForFmHeadset) == -1 || Found(rs, ForFmSpeaker) == -1;
    d := if Found(rs, ForFmHeadset) == -1 then Looked(rs).fmHeadset else Looked(rs).fmSpeaker;
    hide Found, Pick;
  }

  lemma UnfitCollides(rs: seq<Report>) returns (d: int)
    requires !FmFits(rs)
    ensures d in FmEndpoints(Looked(rs))
    ensures d < 0 || d == Looked(rs).current || d in PlainEndpoints(Looked(rs))
  {
    if Pick(rs, ForFmHeadset) < 0 || Pick(rs, ForFmSpeaker) < 0 {
      d := FallbackCollides(rs);
    } else {
      var s :| ForFm(s) && Pick(rs, s) >= 0
               && !(rs[Pick(rs, s)].id >= 0 && forall t :: Routable(t) || t == Plain(Current) ==> Apart(rs, s, t));
      d := Found(rs, s);
      ForFmFields(rs, s);
      if d >= 0 {
        var t :| (Routable(t) || t == Plain(Current)) && !Apart(rs, s, t);
        assert Found(rs, t) == d;
        LookedCurrent(rs);
        if Routable(t) {
          RoutableFields(rs, t);
        }
      }
      hide Found, Pick, PlainEndpoints, FmEndpoints, Looked, Routable;
    }
  }

  /** The FM endpoints are fit for the routing results if and only if the driver's
      offer for FM is complete and its ids are not negative and not used otherwise. */
  lemma FmDistinctExactly(rs: seq<Report>, fixed: Config)
    ensures FmDistinct(With(fixed, rs)) <==> FmFits(rs)
  {
    var cfg := With(fixed, rs);
    if FmFits(rs) {
      hide FmFits, PlainEndpoints;
      forall d | IsFm(cfg, d)
        ensures d >= 0 && d != cfg.ep.current && d !in PlainEndpoints(cfg.ep)
      {
        IsFmMeans(cfg, d);
        FitIsApart(rs, d);
      }
      hide IsFm, Looked;
    } else {
      var d := UnfitCollides(rs);
      IsFmMeans(cfg, d);
      hide *;
      assert !FmDistinct(cfg) by { NotDistinct(cfg, d); }
    }
  }

  /** CURRENT is never also the endpoint of a route if and only if the driver gives
      it an id of its own. */
  lemma CurrentDistinctExactly(rs: seq<Report>, fixed: Config)
    ensures CurrentDistinct(With(fixed, rs))
            <==> forall s :: Routable(s) || ForFm(s) ==> Apart(rs, s, Plain(Current))
  {
    var cfg := With(fixed, rs);
    var ep := cfg.ep;
    var c := Found(rs, Plain(Current));
    assert ep.current == c by { hide Found; }
    if forall s :: Routable(s) || ForFm(s) ==> Apart(rs, s, Plain(Current)) {
      forall d | d in PlainEndpoints(ep) + FmEndpoints(ep)
        ensures d != -1 ==> d != c
      {
        if d != -1 {
          var s;
          if d in PlainEndpoints(ep) { s := PlainFields(rs, d); } else { s := FmFields(rs, d); }
          assert Apart(rs, s, Plain(Current));
        }
      }
      hide PlainEndpoints, FmEndpoints, Looked, Found;
    } else {
      var s :| (Routable(s) || ForFm(s)) && !Apart(rs, s, Plain(Current));
      assert Found(rs, s) == c != -1;
      if Routable(s) { RoutableFields(rs, s); } else { ForFmFields(rs, s); }
      hide PlainEndpoints, FmEndpoints, Looked, Found;
      assert c in PlainEndpoints(ep) + FmEndpoints(ep);
    }
  }

  /** The driver reports a usable name for a slot. */
  predicate Reports(rs: seq<Report>, s: Slot) {
    exists i :: 0 <= i < |rs| && (Exact(s, rs[i].name) || Substitute(s, rs[i].name))
  }

  /** Every endpoint has an id of its own, as when the driver numbers them. */
  ghost predicate OwnIds(rs: seq<Report>) {
    && (forall i :: 0 <= i < |rs| ==> rs[i].id >= 0)
    && forall i, j :: 0 <= i < j < |rs| ==> rs[i].id != rs[j].id
  }

  lemma PickedWhenReported(rs: seq<Report>, s: Slot)
    requires OwnIds(rs)
    ensures Pick(rs, s) >= 0 <==> Reports(rs, s)
  {
    if i :| 0 <= i < |rs| && (Exact(s, rs[i].name) || Substitute(s, rs[i].name)) {
      assert rs[i].id >= 0;
      assert Exact(s, rs[i].name) || Fills(s, rs[i]);
    }
  }

  lemma NoCommonName(rs: seq<Report>, s: Slot, t: Slot)
    requires OwnIds(rs) && s != t && t.Plain? && (Routable(t) || t == Plain(Current)) && (ForFm(s) || Routable(s))
    ensures Apart(rs, s, t)
  {
    var i, j := Pick(rs, s), Pick(rs, t);
    if i >= 0 && j >= 0 {
      assert rs[j].name == t.name;
      assert i != j by { hide Pick; }
    }
    hide Pick;
  }

  /** For a driver that gives every endpoint its own id, the names alone decide. */
  lemma OwnIdsFit(rs: seq<Report>)
    requires OwnIds(rs)
    ensures FmFits(rs) <==> Reports(rs, ForFmHeadset) && Reports(rs, ForFmSpeaker)
    ensures forall s :: Routable(s) || ForFm(s) ==> Apart(rs, s, Plain(Current))
  {
    PickedWhenReported(rs, ForFmHeadset);
    PickedWhenReported(rs, ForFmSpeaker);
    forall s, t | ForFm(s) && (Routable(t) || t == Plain(Current)) ensures Apart(rs, s, t) {
      NoCommonName(rs, s, t);
    }
    forall s | Routable(s) ensures Apart(rs, s, Plain(Current)) {
      NoCommonName(rs, s, Plain(Current));
    }
    hide Pick, Reports;
  }

  /** A driver may report both FM names and still share an id with the headset. */
  const SHARED: seq<Report> :=
    [Report(3, Headset), Report(3, FmRadioHeadset), Report(4, FmRadioSpeaker)]

  lemma SharedIdsCollide(fixed: Config)
    ensures Reports(SHARED, ForFmHeadset) && Reports(SHARED, ForFmSpeaker) && !FmDistinct(With(fixed, SHARED))
  {
    assert Exact(Plain(Headset), SHARED[0].name) && Substitute(ForFmHeadset, SHARED[1].name);
    assert Substitute(ForFmSpeaker, SHARED[2].name);
    assert LastExact(SHARED, Plain(Headset)) == 0 && LastExact(SHARED, ForFmHeadset) == -1;
    assert FirstFilling(SHARED, 0, ForFmHeadset) == 1;
    assert !Apart(SHARED, ForFmHeadset, Plain(Headset));
    FmDistinctExactly(SHARED, fixed);
    hide Pick;
    assert ForFm(ForFmHeadset) && Routable(Plain(Headset));
  }

  /** A driver as it may number its endpoints. */
  const NUMBERED: seq<Report> :=
    [Report(0, Current), Report(1, Handset), Report(26, FmDigitalHeadset), Report(27, FmDigitalSpeaker)]

  lemma NumberedOwn()
    ensures OwnIds(NUMBERED)
  {
  }

  lemma ReportsAt(rs: seq<Report>, s: Slot, i: nat)
    requires i < |rs| && Exact(s, rs[i].name)
    ensures Reports(rs, s)
  {
  }

  lemma NumberedFits()
    ensures FmFits(NUMBERED)
  {
    hide FmFits, Reports, OwnIds, Pick, Routable, ForFm, Apart;
    NumberedOwn();
    ReportsAt(NUMBERED, ForFmHeadset, 2);
    ReportsAt(NUMBERED, ForFmSpeaker, 3);
    OwnIdsFit(NUMBERED);
  }

  /** No driver gives the HAL a car kit endpoint. So for every driver whose FM
      endpoints are fit, the five calls that route to a car kit end with FM on and
      the pins elsewhere. */
  lemma EveryFmDriverCanLosePins(rs: seq<Report>, o: Oracle, fixed: Config)
    requires AllSucceed(o, I2c) && FmFits(rs)
    ensures var cfg := With(fixed, rs);
            var t := Run(INITIAL, o, cfg, LOSING_RUN);
            cfg.ep.carkit == -1 && t.fm && IsFm(cfg, t.cur) && !PinsFm(t.regs)
  {
    var cfg := With(fixed, rs);
    FmDistinctExactly(rs, fixed);
    CarKitLosesPins(o, cfg);
  }
}
