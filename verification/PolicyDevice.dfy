/**
 The audio policy's choice of output devices for a strategy: the switch with its
 fall-through and recursion, against a priority list for each strategy.
 */
module PolicyDevice {
  import opened AudioSystem

  datatype Strategy = Media | Phone | Sonification | Dtmf | MediaSonification | Unknown

  datatype Forced = NoForce | ForceSpeaker | ForceHeadphones | ForceBtSco | OtherForce

  /** What the policy manager reads. Its base class keeps these fields and the cache. */
  datatype Policy = Policy(
    phoneState: Mode,
    forCommunication: Forced,
    forMedia: Forced,
    available: set<OutDevice>,
    a2dpOpen: bool,
    cache: Strategy -> set<OutDevice>)

  const FM_ALL: set<OutDevice> := {Fm, FmSpeaker}

  const A2DP: set<OutDevice> := {BtA2dp, BtA2dpHeadphones, BtA2dpSpeaker}

  /** The framework's test: one device, and that an A2DP one. */
  predicate IsA2dp(devices: set<OutDevice>) {
    exists d :: d in A2DP && devices == {d}
  }

  // --------------------------------------------------------------- specification

  /** The first device of a list that is available. */
  function First(available: set<OutDevice>, list: seq<OutDevice>): set<OutDevice>
    decreases |list|
  {
    if list == [] then {} else if list[0] in available then {list[0]} else First(available, list[1..])
  }

  function PlainList(p: Policy): seq<OutDevice> {
    [WiredHeadphone, WiredHeadset]
    + (if p.phoneState == InCall then [] else [BtA2dp, BtA2dpHeadphones])
    + (if p.phoneState == Ringtone then [Speaker] else [])
    + [Earpiece]
  }

  /** Calls: the car kit is not for tones within a call, A2DP not for calls at all. */
  function PhoneList(p: Policy, tones: bool): seq<OutDevice> {
    var inCall := p.phoneState == InCall;
    var carkit := if inCall && tones then [] else [BtScoCarkit];
    match p.forCommunication
    case ForceSpeaker => carkit + (if inCall then [] else [BtA2dpSpeaker]) + [Speaker]
    case ForceBtSco => carkit + [BtScoHeadset, BtSco] + PlainList(p)
    case _ => PlainList(p)
  }

  function MediaList(p: Policy): seq<OutDevice> {
    (if p.forMedia == ForceSpeaker then [Speaker] else [])
    + [AuxDigital]
    + (if p.a2dpOpen then [BtA2dp, BtA2dpHeadphones, BtA2dpSpeaker] else [])
    + [WiredHeadphone, WiredHeadset, Speaker, Earpiece]
  }

  /** Media adds FM, and within a call keeps off the hardware route of the call. */
  function MediaDevice(p: Policy): set<OutDevice> {
    var device := First(p.available, MediaList(p)) + (if p.available * FM_ALL != {} then FM_ALL else {});
    if p.phoneState == InCall && !IsA2dp(device) && device != p.cache(Phone) then {} else device
  }

  function Device(p: Policy, strategy: Strategy, fromCache: bool): set<OutDevice> {
    if fromCache then p.cache(strategy)
    else
      match strategy
      case Phone => First(p.available, PhoneList(p, false))
      case Dtmf => if p.phoneState == InCall then First(p.available, PhoneList(p, true)) else MediaDevice(p)
      case Media => MediaDevice(p)
      case Sonification =>
        if p.phoneState == InCall then First(p.available, PhoneList(p, false)) else First(p.available, [Speaker])
      case MediaSonification =>
        if p.phoneState == InCall then First(p.available, PhoneList(p, false)) else MediaDevice(p)
      case Unknown => {}
  }

  // ------------------------------------------------------------------ the switch

  function Rank(strategy: Strategy): nat {
    match strategy case Phone => 1 case Media => 1 case _ => 2
  }

  /** The list entry i is the choice when it is available and none before it is;
      past the end, nothing is. */
  lemma {:induction false} FirstIs(available: set<OutDevice>, list: seq<OutDevice>, i: nat)
    requires i <= |list|
    requires forall j :: 0 <= j < i ==> list[j] !in available
    ensures i < |list| && list[i] in available ==> First(available, list) == {list[i]}
    ensures i == |list| ==> First(available, list) == {}
    decreases i
  {
    if i > 0 {
      FirstIs(available, list[1..], i - 1);
    }
  }

  /** A list is searched by taking its entries one after the other. */
  lemma Next(available: set<OutDevice>, d: OutDevice, rest: seq<OutDevice>)
    ensures First(available, [d] + rest) == if available * {d} != {} then available * {d} else First(available, rest)
  {
    assert ([d] + rest)[1..] == rest;
    assert d in available ==> available * {d} == {d};
    assert d !in available ==> available * {d} == {};
  }

  method SelectPlain(p: Policy) returns (device: set<OutDevice>)
    ensures device == First(p.available, PlainList(p))
  {
    ghost var a, inCall, ringing := p.available, p.phoneState == InCall, p.phoneState == Ringtone;
    ghost var l4 := [Earpiece];
    ghost var l3 := if ringing then [Speaker] + l4 else l4;
    ghost var l2 := if inCall then l3 else [BtA2dp] + ([BtA2dpHeadphones] + l3);
    assert PlainList(p) == [WiredHeadphone] + ([WiredHeadset] + l2);
    Next(a, WiredHeadphone, [WiredHeadset] + l2);
    Next(a, WiredHeadset, l2);
    Next(a, BtA2dp, [BtA2dpHeadphones] + l3);
    Next(a, BtA2dpHeadphones, l3);
    Next(a, Speaker, l4);
    Next(a, Earpiece, []);
    assert [Earpiece] + [] == l4;
    hide First;
    device := p.available * {WiredHeadphone};
    if device != {} { return; }
    device := p.available * {WiredHeadset};
    if device != {} { return; }
    if p.phoneState != InCall {
      device := p.available * {BtA2dp};
      if device != {} { return; }
      device := p.available * {BtA2dpHeadphones};
      if device != {} { return; }
    }
    if p.phoneState == Ringtone {
      device := p.available * {Speaker};
    }
    if device != {} { return; }
    device := p.available * {Earpiece};
    if device == {} {
      assert First(a, []) == {} by { FirstIs(a, [], 0); }
    }
  }

  method SelectPhone(p: Policy, tones: bool) returns (device: set<OutDevice>)
    ensures device == First(p.available, PhoneList(p, tones))
  {
    ghost var a := p.available;
    ghost var speakers := (if p.phoneState == InCall then [] else [BtA2dpSpeaker]) + [Speaker];
    ghost var scos := [BtScoHeadset] + ([BtSco] + PlainList(p));
    Next(a, BtScoCarkit, speakers);
    Next(a, BtScoCarkit, scos);
    Next(a, BtA2dpSpeaker, [Speaker]);
    Next(a, Speaker, []);
    Next(a, BtScoHeadset, [BtSco] + PlainList(p));
    Next(a, BtSco, PlainList(p));
    FirstIs(a, [], 0);
    assert [Speaker] + [] == [Speaker] && [] + [Speaker] == [Speaker];
    assert p.forCommunication == ForceSpeaker ==>
        PhoneList(p, tones) == (if p.phoneState == InCall && tones then speakers else [BtScoCarkit] + speakers);
    assert p.forCommunication == ForceBtSco ==>
        PhoneList(p, tones) == (if p.phoneState == InCall && tones then scos else [BtScoCarkit] + scos);
    hide First, PlainList;
    match p.forCommunication {
      case ForceSpeaker =>
        if p.phoneState != InCall || !tones {
          device := p.available * {BtScoCarkit};
          if device != {} { return; }
        }
        if p.phoneState != InCall {
          device := p.available * {BtA2dpSpeaker};
          if device != {} { return; }
        }
        device := p.available * {Speaker};
      case ForceBtSco =>
        if p.phoneState != InCall || !tones {
          device := p.available * {BtScoCarkit};
          if device != {} { return; }
        }
        device := p.available * {BtScoHeadset};
        if device != {} { return; }
        device := p.available * {BtSco};
        if device != {} { return; }
        device := SelectPlain(p);
      case _ =>
        device := SelectPlain(p);
    }
  }

  /** The media devices without FM. */
  method SelectMedia(p: Policy) returns (device2: set<OutDevice>)
    ensures device2 == First(p.available, MediaList(p))
  {
    ghost var a := p.available;
    ghost var wired := [WiredHeadphone] + ([WiredHeadset] + ([Speaker] + [Earpiece]));
    ghost var a2dp := if p.a2dpOpen then [BtA2dp] + ([BtA2dpHeadphones] + ([BtA2dpSpeaker] + wired)) else wired;
    assert MediaList(p) == (if p.forMedia == ForceSpeaker then [Speaker] + ([AuxDigital] + a2dp) else [AuxDigital] + a2dp);
    Next(a, Speaker, [AuxDigital] + a2dp);
    Next(a, AuxDigital, a2dp);
    Next(a, BtA2dp, [BtA2dpHeadphones] + ([BtA2dpSpeaker] + wired));
    Next(a, BtA2dpHeadphones, [BtA2dpSpeaker] + wired);
    Next(a, BtA2dpSpeaker, wired);
    Next(a, WiredHeadphone, [WiredHeadset] + ([Speaker] + [Earpiece]));
    Next(a, WiredHeadset, [Speaker] + [Earpiece]);
    Next(a, Speaker, [Earpiece]);
    Next(a, Earpiece, []);
    FirstIs(a, [], 0);
    assert [Earpiece] + [] == [Earpiece];
    hide First, MediaList;
    device2 := {};
    if p.forMedia == ForceSpeaker {
      device2 := p.available * {Speaker};
    }
    if device2 == {} { device2 := p.available * {AuxDigital}; }
    if p.a2dpOpen {
      if device2 == {} { device2 := p.available * {BtA2dp}; }
      if device2 == {} { device2 := p.available * {BtA2dpHeadphones}; }
      if device2 == {} { device2 := p.available * {BtA2dpSpeaker}; }
    }
    if device2 == {} { device2 := p.available * {WiredHeadphone}; }
    if device2 == {} { device2 := p.available * {WiredHeadset}; }
    if device2 == {} { device2 := p.available * {Speaker}; }
    if device2 == {} { device2 := p.available * {Earpiece}; }
  }

  lemma SpeakerOnly(available: set<OutDevice>)
    ensures First(available, [Speaker]) == available * {Speaker}
  {
  }

  /** The common tail of the media strategies. */
  method GetMedia(p: Policy) returns (device: set<OutDevice>)
    ensures device == MediaDevice(p)
    decreases 1, 0
  {
    hide First, MediaList;
    var device2 := SelectMedia(p);
    device := {} + device2;
    assert device == device2 == device2 + {};
    if p.available * FM_ALL != {} {
      device := device + FM_ALL;
    }
    if p.phoneState == InCall && !IsA2dp(device) {
      var phone := GetDeviceForStrategy(p, Phone, true);
      if device != phone {
        device := {};
      }
    }
  }

  /** Terminates: a strategy asks only for one of lower rank, or for the cache. */
  method GetDeviceForStrategy(p: Policy, strategy: Strategy, fromCache: bool) returns (device: set<OutDevice>)
    ensures device == Device(p, strategy, fromCache)
    decreases if fromCache then 0 else Rank(strategy)
  {
    hide First, PhoneList, MediaList;
    if fromCache { return p.cache(strategy); }
    device := {};
    match strategy {
      case Dtmf =>
        if p.phoneState != InCall {
          device := GetDeviceForStrategy(p, Media, false);
        } else {
          device := SelectPhone(p, true);
        }
      case Phone =>
        device := SelectPhone(p, false);
      case Sonification =>
        SpeakerOnly(p.available);
        device := p.available * {Speaker};
        if p.phoneState == InCall {
          device := GetDeviceForStrategy(p, Phone, false);
        }
      case MediaSonification =>
        if p.phoneState == InCall {
          device := GetDeviceForStrategy(p, Phone, false);
        } else {
          device := GetMedia(p);
        }
      case Media =>
        device := GetMedia(p);
      case Unknown =>
    }
  }

  // ---------------------------------------------------------------- main results

  lemma {:induction false} FirstIsOne(available: set<OutDevice>, list: seq<OutDevice>)
    ensures First(available, list) == {} || exists d :: d in available && d in list && First(available, list) == {d}
    decreases |list|
  {
    if list != [] && list[0] !in available {
      FirstIsOne(available, list[1..]);
    } else if list != [] {
      assert list[0] in available && First(available, list) == {list[0]};
    }
  }

  lemma Listed(available: set<OutDevice>, d: OutDevice, rest: seq<OutDevice>)
    ensures First(available, [d] + rest) == if d in available then {d} else First(available, rest)
    ensures First(available, []) == {}
  {
    Next(available, d, rest);
    FirstIs(available, [], 0);
    assert d in available ==> available * {d} == {d};
    assert d !in available ==> available * {d} == {};
    hide First;
  }

  /** Where a call goes without a forced device: a wired device before A2DP, and that
      only outside a call; ringing the speaker before the earpiece; the earpiece only
      when nothing of these is there. */
  lemma PlainCases(p: Policy)
    ensures var c, a := First(p.available, PlainList(p)), p.available;
            if WiredHeadphone in a then c == {WiredHeadphone}
            else if WiredHeadset in a then c == {WiredHeadset}
            else if p.phoneState != InCall && BtA2dp in a then c == {BtA2dp}
            else if p.phoneState != InCall && BtA2dpHeadphones in a then c == {BtA2dpHeadphones}
            else if p.phoneState == Ringtone && Speaker in a then c == {Speaker}
            else c == if Earpiece in a then {Earpiece} else {}
  {
    var a := p.available;
    var l4 := [Earpiece] + [];
    var l3 := if p.phoneState == Ringtone then [Speaker] + l4 else l4;
    var l2 := if p.phoneState == InCall then l3 else [BtA2dp] + ([BtA2dpHeadphones] + l3);
    assert PlainList(p) == [WiredHeadphone] + ([WiredHeadset] + l2);
    hide First, PlainList;
    Listed(a, WiredHeadphone, [WiredHeadset] + l2);
    Listed(a, WiredHeadset, l2);
    Listed(a, BtA2dp, [BtA2dpHeadphones] + l3);
    Listed(a, BtA2dpHeadphones, l3);
    Listed(a, Speaker, l4);
    Listed(a, Earpiece, []);
  }

  /** A forced speaker gives way to the car kit and outside calls to an A2DP one; forced
      Bluetooth takes the car kit, the headset, then the plain link, before anything else. */
  lemma PhoneCases(p: Policy)
    ensures var c, a := Device(p, Phone, false), p.available;
            match p.forCommunication
            case ForceSpeaker =>
              if BtScoCarkit in a then c == {BtScoCarkit}
              else if p.phoneState != InCall && BtA2dpSpeaker in a then c == {BtA2dpSpeaker}
              else c == if Speaker in a then {Speaker} else {}
            case ForceBtSco =>
              if BtScoCarkit in a then c == {BtScoCarkit}
              else if BtScoHeadset in a then c == {BtScoHeadset}
              else if BtSco in a then c == {BtSco}
              else c == First(a, PlainList(p))
            case _ => c == First(a, PlainList(p))
  {
    var a := p.available;
    var l := if p.phoneState == InCall then [Speaker] + [] else [BtA2dpSpeaker] + ([Speaker] + []);
    var m := [BtScoHeadset] + ([BtSco] + PlainList(p));
    assert p.forCommunication == ForceSpeaker ==> PhoneList(p, false) == [BtScoCarkit] + l;
    assert p.forCommunication == ForceBtSco ==> PhoneList(p, false) == [BtScoCarkit] + m;
    hide First, PlainList;
    Listed(a, BtScoCarkit, l);
    Listed(a, BtA2dpSpeaker, [Speaker] + []);
    Listed(a, Speaker, []);
    Listed(a, BtScoCarkit, m);
    Listed(a, BtScoHeadset, [BtSco] + PlainList(p));
    Listed(a, BtSco, PlainList(p));
  }

  /** Media: a forced speaker, auxiliary digital, open A2DP, a wired device, the speaker,
      the earpiece, in that order. */
  lemma MediaCases(p: Policy)
    ensures var c, a := First(p.available, MediaList(p)), p.available;
            if p.forMedia == ForceSpeaker && Speaker in a then c == {Speaker}
            else if AuxDigital in a then c == {AuxDigital}
            else if p.a2dpOpen && BtA2dp in a then c == {BtA2dp}
            else if p.a2dpOpen && BtA2dpHeadphones in a then c == {BtA2dpHeadphones}
            else if p.a2dpOpen && BtA2dpSpeaker in a then c == {BtA2dpSpeaker}
            else if WiredHeadphone in a then c == {WiredHeadphone}
            else if WiredHeadset in a then c == {WiredHeadset}
            else if Speaker in a then c == {Speaker}
            else c == if Earpiece in a then {Earpiece} else {}
  {
    var a := p.available;
    var wired := [WiredHeadphone] + ([WiredHeadset] + ([Speaker] + ([Earpiece] + [])));
    var a2dp := if p.a2dpOpen then [BtA2dp] + ([BtA2dpHeadphones] + ([BtA2dpSpeaker] + wired)) else wired;
    assert MediaList(p) == (if p.forMedia == ForceSpeaker then [Speaker] + ([AuxDigital] + a2dp) else [AuxDigital] + a2dp);
    hide First, MediaList;
    Listed(a, Speaker, [AuxDigital] + a2dp);
    Listed(a, AuxDigital, a2dp);
    Listed(a, BtA2dp, [BtA2dpHeadphones] + ([BtA2dpSpeaker] + wired));
    Listed(a, BtA2dpHeadphones, [BtA2dpSpeaker] + wired);
    Listed(a, BtA2dpSpeaker, wired);
    Listed(a, WiredHeadphone, [WiredHeadset] + ([Speaker] + ([Earpiece] + [])));
    Listed(a, WiredHeadset, [Speaker] + ([Earpiece] + []));
    Listed(a, Speaker, [Earpiece] + []);
    Listed(a, Earpiece, []);
  }

  /** Outside a call media gets that, and the FM bits with any FM device. */
  lemma MediaOutsideCalls(p: Policy)
    requires p.phoneState != InCall
    ensures Device(p, Media, false)
            == First(p.available, MediaList(p)) + if Fm in p.available || FmSpeaker in p.available then {Fm, FmSpeaker} else {}
    ensures Device(p, Sonification, false) == if Speaker in p.available then {Speaker} else {}
  {
    hide First, MediaList;
    SpeakerOnly(p.available);
    assert p.available * FM_ALL != {} <==> Fm in p.available || FmSpeaker in p.available by {
      assert Fm in p.available ==> Fm in p.available * FM_ALL;
      assert FmSpeaker in p.available ==> FmSpeaker in p.available * FM_ALL;
    }
  }

  /** Apart from the FM bits a choice not taken from the cache is at most one device,
      and that one is available. */
  lemma AtMostOneDevice(p: Policy, strategy: Strategy)
    ensures var rest := Device(p, strategy, false) - FM_ALL;
            rest == {} || exists d :: d in p.available && rest == {d}
  {
    FirstIsOne(p.available, PhoneList(p, false));
    FirstIsOne(p.available, PhoneList(p, true));
    FirstIsOne(p.available, MediaList(p));
    FirstIsOne(p.available, [Speaker]);
    hide First, PhoneList, MediaList;
    var device := Device(p, strategy, false);
    var media := First(p.available, MediaList(p));
    if device != {} && exists d :: d in p.available && device == {d} {
      var d :| d in p.available && device == {d};
      assert device - FM_ALL == if d in FM_ALL then {} else {d};
    } else if device == media + FM_ALL {
      if media != {} {
        var d :| d in p.available && media == {d};
        assert (media + FM_ALL) - FM_ALL == if d in FM_ALL then {} else {d};
      } else {
        assert (media + FM_ALL) - FM_ALL == {};
      }
    } else {
      assert media + {} == media;
      assert device == {};
    }
  }

  predicate FmAvailable(p: Policy) {
    p.available * FM_ALL != {}
  }

  lemma FmIsNotA2dp(devices: set<OutDevice>)
    requires FM_ALL <= devices
    ensures !IsA2dp(devices)
  {
    assert Fm in devices && FmSpeaker in devices;
  }

  /** Within a call and with an FM device available, media gets its devices with the
      FM bits exactly when the call is cached to be on just those, and otherwise
      nothing; so nothing whenever the call is on none of the FM bits. */
  lemma InCallMediaWithFm(p: Policy)
    requires p.phoneState == InCall && FmAvailable(p)
    ensures var device := Device(p, Media, false);
            var wanted := First(p.available, MediaList(p)) + FM_ALL;
            && device == (if p.cache(Phone) == wanted then wanted else {})
            && (p.cache(Phone) * FM_ALL == {} ==> device == {})
  {
    hide First, MediaList, IsA2dp;
    FmIsNotA2dp(First(p.available, MediaList(p)) + FM_ALL);
    assert Fm in FM_ALL;
  }

  /** A2DP is the choice of the media list when A2DP is open, one of its devices is
      available, and neither auxiliary digital nor a forced speaker comes first. */
  predicate A2dpComesFirst(p: Policy) {
    && p.a2dpOpen && p.available * A2DP != {}
    && AuxDigital !in p.available && !(p.forMedia == ForceSpeaker && Speaker in p.available)
  }

  lemma {:induction false} FirstIsSome(available: set<OutDevice>, list: seq<OutDevice>)
    ensures First(available, list) != {} <==> exists d :: d in list && d in available
    decreases |list|
  {
    if list != [] && list[0] !in available {
      FirstIsSome(available, list[1..]);
    }
  }

  lemma HeardFirst(p: Policy, heard: seq<OutDevice>)
    requires heard == (if p.forMedia == ForceSpeaker then [Speaker] else []) + [AuxDigital]
    ensures First(p.available, heard) != {}
            <==> AuxDigital in p.available || (p.forMedia == ForceSpeaker && Speaker in p.available)
  {
    FirstIsSome(p.available, heard);
    hide First;
    assert heard[|heard| - 1] == AuxDigital && (p.forMedia == ForceSpeaker ==> heard[0] == Speaker);
  }

  lemma NothingIsNotA2dp()
    ensures !IsA2dp({})
  {
  }

  /** A list without A2DP devices never gives one. */
  lemma FirstAvoids(available: set<OutDevice>, list: seq<OutDevice>)
    requires forall d :: d in list ==> d !in A2DP
    ensures !IsA2dp(First(available, list))
  {
    FirstIsOne(available, list);
    hide First;
    if First(available, list) == {} {
      NothingIsNotA2dp();
    } else {
      var d :| d in available && d in list && First(available, list) == {d};
      assert d in First(available, list);
    }
  }

  lemma A2dpHere(available: set<OutDevice>)
    ensures var first := First(available, [BtA2dp, BtA2dpHeadphones, BtA2dpSpeaker]);
            && (first != {} <==> available * A2DP != {})
            && (first != {} ==> IsA2dp(first))
  {
    var list := [BtA2dp, BtA2dpHeadphones, BtA2dpSpeaker];
    FirstIsOne(available, list);
    FirstIsSome(available, list);
    hide First;
    assert list[0] in list && list[1] in list && list[2] in list;
    if d :| d in list && d in available {
      assert d in available * A2DP;
    }
    if d :| d in available * A2DP {
      assert d in list && d in available;
    }
  }

  lemma {:induction false} Skip(available: set<OutDevice>, front: seq<OutDevice>, back: seq<OutDevice>)
    ensures First(available, front + back)
            == if First(available, front) != {} then First(available, front) else First(available, back)
    decreases |front|
  {
    if front == [] {
      assert front + back == back;
    } else {
      assert (front + back)[1..] == front[1..] + back;
      Skip(available, front[1..], back);
    }
  }

  lemma MediaIsA2dp(p: Policy)
    ensures IsA2dp(First(p.available, MediaList(p))) <==> A2dpComesFirst(p)
    ensures A2dpComesFirst(p) ==> First(p.available, MediaList(p)) == First(p.available, [BtA2dp, BtA2dpHeadphones, BtA2dpSpeaker])
  {
    var a := p.available;
    var heard := (if p.forMedia == ForceSpeaker then [Speaker] else []) + [AuxDigital];
    var wired := [WiredHeadphone, WiredHeadset, Speaker, Earpiece];
    var a2dp := [BtA2dp, BtA2dpHeadphones, BtA2dpSpeaker];
    assert MediaList(p) == heard + (if p.a2dpOpen then a2dp + wired else wired);
    Skip(a, heard, if p.a2dpOpen then a2dp + wired else wired);
    Skip(a, a2dp, wired);
    HeardFirst(p, heard);
    A2dpHere(a);
    FirstAvoids(a, heard);
    FirstAvoids(a, wired);
    hide First, MediaList, IsA2dp;
  }

  /** Within a call and without FM devices, media gets the first A2DP device when
      A2DP comes first, else its own device exactly when the call is cached to be on
      just that, else nothing. */
  lemma InCallMediaWithoutFm(p: Policy)
    requires p.phoneState == InCall && !FmAvailable(p)
    ensures var device := Device(p, Media, false);
            var wanted := First(p.available, MediaList(p));
            && device == (if A2dpComesFirst(p) || p.cache(Phone) == wanted then wanted else {})
            && (IsA2dp(device) <==> A2dpComesFirst(p))
            && (A2dpComesFirst(p) ==> device == First(p.available, [BtA2dp, BtA2dpHeadphones, BtA2dpSpeaker]))
  {
    MediaIsA2dp(p);
    hide First, MediaList;
    assert First(p.available, MediaList(p)) + {} == First(p.available, MediaList(p));
    hide A2dpComesFirst;
    NothingIsNotA2dp();
  }

  /** Within a call, tones follow the call if and only if no car kit is taken for it. */
  lemma TonesFollowTheCall(p: Policy)
    requires p.phoneState == InCall
    ensures Device(p, Dtmf, false) == Device(p, Phone, false)
            <==> !(BtScoCarkit in p.available && p.forCommunication in {ForceBtSco, ForceSpeaker})
  {
    var a := p.available;
    var tones, call := PhoneList(p, true), PhoneList(p, false);
    if p.forCommunication in {ForceBtSco, ForceSpeaker} {
      assert call == [BtScoCarkit] + tones;
      Next(a, BtScoCarkit, tones);
      FirstIsOne(a, tones);
      assert BtScoCarkit !in tones;
      if BtScoCarkit in a {
        assert BtScoCarkit in a * {BtScoCarkit};
        assert BtScoCarkit in First(a, call) && BtScoCarkit !in First(a, tones);
      } else {
        assert a * {BtScoCarkit} == {};
      }
    }
  }

  /** Outside a call tones and media notifications go where media goes, and within
      one every kind of notification goes where the call goes. */
  lemma StrategiesThatFollow(p: Policy)
    ensures p.phoneState != InCall ==>
              Device(p, Dtmf, false) == Device(p, MediaSonification, false) == Device(p, Media, false)
    ensures p.phoneState == InCall ==>
              Device(p, Sonification, false) == Device(p, MediaSonification, false) == Device(p, Phone, false)
  {
  }
}
