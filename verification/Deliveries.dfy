/**
 What is sent on each link, what is heard, and what the nodes' fields make of it -- in every run, whatever is
 delayed or lost.
 */
module Deliveries {
  import opened Messages
  import opened Runtime
  import opened BoundedStop
  import opened Sequences
  import ModeManager
  import SafetyManager

  datatype Payload =
    | ModeIs(mode: Mode) | SafetyIs(safety: Safety) | MrmIs(mrm: MrmState) | Command(twist: Twist) | Enabled(flag: bool)

  type Parcel = Stamped<Payload>

  /** A message that was heard, and when. */
  datatype Receipt = Receipt(msg: Parcel, at: Time)

  // ---------------------------------------------------------------- what is in flight

  function Wrap<T>(ch: Channel<T>, wrap: T -> Payload): (ps: seq<Parcel>)
    ensures |ps| == |ch| && forall i | 0 <= i < |ch| :: ps[i] == Stamped(wrap(ch[i].value), ch[i].sent)
  {
    seq(|ch|, i requires 0 <= i < |ch| => Stamped(wrap(ch[i].value), ch[i].sent))
  }

  /** The parcels that are left when the `i`-th of them is lost. */
  function Left(ps: seq<Parcel>, i: nat): seq<Parcel> {
    if i < |ps| then ps[..i] + ps[i + 1..] else ps
  }

  lemma WrapRest<T>(ch: Channel<T>, wrap: T -> Payload)
    requires ch != []
    ensures Wrap(ch[1..], wrap) == Wrap(ch, wrap)[1..]
  {}

  lemma WrapSend<T>(ch: Channel<T>, wrap: T -> Payload, value: T, now: Time)
    ensures Wrap(ch + [Stamped(value, now)], wrap) == Wrap(ch, wrap) + [Stamped(wrap(value), now)]
  {}

  lemma WrapCat<T>(a: Channel<T>, b: Channel<T>, wrap: T -> Payload)
    ensures Wrap(a + b, wrap) == Wrap(a, wrap) + Wrap(b, wrap)
  {}

  lemma WrapParts<T>(ch: Channel<T>, wrap: T -> Payload, i: nat)
    requires i <= |ch|
    ensures Wrap(ch[..i], wrap) == Wrap(ch, wrap)[..i] && Wrap(ch[i..], wrap) == Wrap(ch, wrap)[i..]
  {}

  lemma WrapWithout<T>(ch: Channel<T>, wrap: T -> Payload, i: nat)
    ensures Wrap(Without(ch, i), wrap) == Left(Wrap(ch, wrap), i)
  {
    if i < |ch| {
      WrapParts(ch, wrap, i);
      WrapParts(ch, wrap, i + 1);
      WrapCat(ch[..i], ch[i + 1..], wrap);
    }
  }

  function OfMode(m: Mode): Payload { ModeIs(m) }

  function OfSafety(v: Safety): Payload { SafetyIs(v) }

  function OfMrm(v: MrmState): Payload { MrmIs(v) }

  function OfCommand(t: Twist): Payload { Command(t) }

  function OfFlag(b: bool): Payload { Enabled(b) }

  function OnLink(n: Net, link: Link): seq<Parcel> {
    match link
    case ModeToSafety => Wrap(n.modeToSafety, OfMode)
    case ModeToArbiter => Wrap(n.modeToArbiter, OfMode)
    case ModeToLoco => Wrap(n.modeToLoco, OfMode)
    case ModeToGate => Wrap(n.modeToGate, OfMode)
    case SafetyToMode => Wrap(n.safetyToMode, OfSafety)
    case SafetyToArbiter => Wrap(n.safetyToArbiter, OfSafety)
    case SafetyToLoco => Wrap(n.safetyToLoco, OfSafety)
    case SafetyToGate => Wrap(n.safetyToGate, OfSafety)
    case MrmToGate => Wrap(n.mrmToGate, OfMrm)
    case ApprovedToSafety => Wrap(n.approvedToSafety, OfCommand)
    case ApprovedToLoco => Wrap(n.approvedToLoco, OfCommand)
    case ApprovedToGate => Wrap(n.approvedToGate, OfCommand)
    case OutputToGate => Wrap(n.outputToGate, OfFlag)
  }

  /** The MRM state that goes with a publication of the safety manager. */
  function PublishedMrm(c: Config, s: State, e: Event): MrmState {
    var from := match e
      case TriggerMrm(reason) => SafetyManager.Latched(s.safety, reason)
      case ClearMrm => SafetyManager.Unlatched(s.safety)
      case _ => s.safety;
    SafetyManager.MrmOutput(c.safety, s.par, from, s.now).state
  }

  predicate IsModeLink(link: Link) {
    link in {ModeToSafety, ModeToArbiter, ModeToLoco, ModeToGate}
  }

  predicate IsSafetyLink(link: Link) {
    link in {SafetyToMode, SafetyToArbiter, SafetyToLoco, SafetyToGate}
  }

  predicate IsCommandLink(link: Link) {
    link in {ApprovedToSafety, ApprovedToLoco, ApprovedToGate}
  }

  /** What an event publishes on a link: the publisher's mode, level, MRM state, command or output flag. */
  function SentBy(c: Config, s: State, e: Event, link: Link): (ps: seq<Parcel>)
    ensures |ps| <= 1 && forall p | p in ps :: p.sent == s.now
  {
    if IsModeLink(link) then
      if PublishesMode(s, e) then [Stamped(ModeIs(Apply(c, s, e).mode.activeMode), s.now)] else []
    else if IsSafetyLink(link) then
      if PublishesSafety(s, e) then [Stamped(SafetyIs(PublishedLevel(c, s, e)), s.now)] else []
    else if link == MrmToGate then
      if PublishesSafety(s, e) then [Stamped(MrmIs(PublishedMrm(c, s, e)), s.now)] else []
    else if link == OutputToGate then
      if e.ArbiterTimer? then [Stamped(Enabled(ArbiterOutput(c, s).state.outputEnabled), s.now)] else []
    else if e.ArbiterTimer? && ArbiterOutput(c, s).approved.Some? then
      [Stamped(Command(ArbiterOutput(c, s).approved.value), s.now)]
    else []
  }

  function Taken(ps: seq<Parcel>, taken: bool): seq<Parcel> {
    if taken && ps != [] then ps[1..] else ps
  }

  lemma DeliveryElsewhere(c: Config, s: State, delivered: Link, link: Link)
    requires delivered != link
    ensures OnLink(Delivered(c, s, delivered).net, link) == OnLink(s.net, link)
  {}

  lemma DeliveryOnLink(c: Config, s: State, delivered: Link, link: Link)
    ensures OnLink(Delivered(c, s, delivered).net, link) == Taken(OnLink(s.net, link), delivered == link)
  {
    var n := s.net;
    if delivered != link { DeliveryElsewhere(c, s, delivered, link); }
    match link
    case ModeToSafety => if n.modeToSafety != [] { WrapRest(n.modeToSafety, OfMode); }
    case ModeToArbiter => if n.modeToArbiter != [] { WrapRest(n.modeToArbiter, OfMode); }
    case ModeToLoco => if n.modeToLoco != [] { WrapRest(n.modeToLoco, OfMode); }
    case ModeToGate => if n.modeToGate != [] { WrapRest(n.modeToGate, OfMode); }
    case SafetyToMode => if n.safetyToMode != [] { WrapRest(n.safetyToMode, OfSafety); }
    case SafetyToArbiter => if n.safetyToArbiter != [] { WrapRest(n.safetyToArbiter, OfSafety); }
    case SafetyToLoco => if n.safetyToLoco != [] { WrapRest(n.safetyToLoco, OfSafety); }
    case SafetyToGate => if n.safetyToGate != [] { WrapRest(n.safetyToGate, OfSafety); }
    case MrmToGate => if n.mrmToGate != [] { WrapRest(n.mrmToGate, OfMrm); }
    case ApprovedToSafety => if n.approvedToSafety != [] { WrapRest(n.approvedToSafety, OfCommand); }
    case ApprovedToLoco => if n.approvedToLoco != [] { WrapRest(n.approvedToLoco, OfCommand); }
    case ApprovedToGate => if n.approvedToGate != [] { WrapRest(n.approvedToGate, OfCommand); }
    case OutputToGate => if n.outputToGate != [] { WrapRest(n.outputToGate, OfFlag); }
  }

  lemma LossOnLink(n: Net, lost: Link, i: nat, link: Link)
    ensures OnLink(Lost(n, lost, i), link) == if lost == link then Left(OnLink(n, link), i) else OnLink(n, link)
  {
    match link
    case ModeToSafety => WrapWithout(n.modeToSafety, OfMode, i);
    case ModeToArbiter => WrapWithout(n.modeToArbiter, OfMode, i);
    case ModeToLoco => WrapWithout(n.modeToLoco, OfMode, i);
    case ModeToGate => WrapWithout(n.modeToGate, OfMode, i);
    case SafetyToMode => WrapWithout(n.safetyToMode, OfSafety, i);
    case SafetyToArbiter => WrapWithout(n.safetyToArbiter, OfSafety, i);
    case SafetyToLoco => WrapWithout(n.safetyToLoco, OfSafety, i);
    case SafetyToGate => WrapWithout(n.safetyToGate, OfSafety, i);
    case MrmToGate => WrapWithout(n.mrmToGate, OfMrm, i);
    case ApprovedToSafety => WrapWithout(n.approvedToSafety, OfCommand, i);
    case ApprovedToLoco => WrapWithout(n.approvedToLoco, OfCommand, i);
    case ApprovedToGate => WrapWithout(n.approvedToGate, OfCommand, i);
    case OutputToGate => WrapWithout(n.outputToGate, OfFlag, i);
  }

  lemma ModeOnLink(s: State, link: Link)
    ensures OnLink(PublishMode(s).net, link)
            == OnLink(s.net, link) + if IsModeLink(link) then [Stamped(ModeIs(s.mode.activeMode), s.now)] else []
  {
    var n := s.net;
    match link
    case ModeToSafety => WrapSend(n.modeToSafety, OfMode, s.mode.activeMode, s.now);
    case ModeToArbiter => WrapSend(n.modeToArbiter, OfMode, s.mode.activeMode, s.now);
    case ModeToLoco => WrapSend(n.modeToLoco, OfMode, s.mode.activeMode, s.now);
    case ModeToGate => WrapSend(n.modeToGate, OfMode, s.mode.activeMode, s.now);
    case _ =>
  }

  lemma SafetyOnLink(c: Config, s: State, link: Link)
    ensures OnLink(PublishSafety(c, s).net, link)
            == OnLink(s.net, link)
               + if IsSafetyLink(link)
                 then [Stamped(SafetyIs(SafetyManager.SafetyOutput(c.safety, s.par, s.safety, s.now).state), s.now)]
                 else if link == MrmToGate
                 then [Stamped(MrmIs(SafetyManager.MrmOutput(c.safety, s.par, s.safety, s.now).state), s.now)]
                 else []
  {
    var n, level := s.net, SafetyManager.SafetyOutput(c.safety, s.par, s.safety, s.now).state;
    match link
    case SafetyToMode => WrapSend(n.safetyToMode, OfSafety, level, s.now);
    case SafetyToArbiter => WrapSend(n.safetyToArbiter, OfSafety, level, s.now);
    case SafetyToLoco => WrapSend(n.safetyToLoco, OfSafety, level, s.now);
    case SafetyToGate => WrapSend(n.safetyToGate, OfSafety, level, s.now);
    case MrmToGate =>
      WrapSend(n.mrmToGate, OfMrm, SafetyManager.MrmOutput(c.safety, s.par, s.safety, s.now).state, s.now);
    case _ =>
  }

  lemma ArbitrationOnLink(c: Config, s: State, link: Link)
    ensures OnLink(Apply(c, s, ArbiterTimer).net, link)
            == OnLink(s.net, link)
               + if IsCommandLink(link) && ArbiterOutput(c, s).approved.Some?
                 then [Stamped(Command(ArbiterOutput(c, s).approved.value), s.now)]
                 else if link == OutputToGate
                 then [Stamped(Enabled(ArbiterOutput(c, s).state.outputEnabled), s.now)]
                 else []
  {
    var n, out := s.net, ArbiterOutput(c, s);
    var msg := if out.approved.Some? then out.approved.value else ZERO;
    match link
    case ApprovedToSafety => if out.approved.Some? { WrapSend(n.approvedToSafety, OfCommand, msg, s.now); }
    case ApprovedToLoco => if out.approved.Some? { WrapSend(n.approvedToLoco, OfCommand, msg, s.now); }
    case ApprovedToGate => if out.approved.Some? { WrapSend(n.approvedToGate, OfCommand, msg, s.now); }
    case OutputToGate => WrapSend(n.outputToGate, OfFlag, out.state.outputEnabled, s.now);
    case _ =>
  }

  lemma ModeEventOnLink(c: Config, s: State, e: Event, link: Link)
    requires e.SetMode? || e.Takeover? || e.ModeTimer?
    ensures OnLink(Apply(c, s, e).net, link) == OnLink(s.net, link) + SentBy(c, s, e, link)
  {
    match e
    case SetMode(code) =>
      if PublishesMode(s, e) { ModeOnLink(s.(mode := ModeManager.OnSetMode(s.mode, code, s.now)), link); }
    case Takeover => ModeOnLink(s.(mode := ModeManager.OnTakeover(s.mode, s.now)), link);
    case ModeTimer => ModeOnLink(s, link);
  }

  lemma SafetyEventOnLink(c: Config, s: State, e: Event, link: Link)
    requires e.TriggerMrm? || e.ClearMrm? || e.SafetyTimer?
    ensures OnLink(Apply(c, s, e).net, link) == OnLink(s.net, link) + SentBy(c, s, e, link)
  {
    match e
    case TriggerMrm(reason) => SafetyOnLink(c, s.(safety := SafetyManager.Latched(s.safety, reason)), link);
    case ClearMrm =>
      if PublishesSafety(s, e) { SafetyOnLink(c, s.(safety := SafetyManager.Unlatched(s.safety)), link); }
    case SafetyTimer => SafetyOnLink(c, s, link);
  }

  lemma QuietOnLink(c: Config, s: State, e: Event, link: Link)
    requires e.SetEstop? || e.SetMrmParameter? || e.TeleopHeartbeat? || e.HardwareHeartbeat? || e.Candidate?
             || e.LocoTimer? || e.GateTimer? || e.Advance?
    ensures Apply(c, s, e).net == s.net && SentBy(c, s, e, link) == []
  {}

  lemma SendingOnLink(c: Config, s: State, e: Event, link: Link)
    requires !e.Deliver? && !e.Lose?
    ensures OnLink(Apply(c, s, e).net, link) == OnLink(s.net, link) + SentBy(c, s, e, link)
  {
    if e.SetMode? || e.Takeover? || e.ModeTimer? {
      ModeEventOnLink(c, s, e, link);
    } else if e.TriggerMrm? || e.ClearMrm? || e.SafetyTimer? {
      SafetyEventOnLink(c, s, e, link);
    } else if e.ArbiterTimer? {
      ArbitrationOnLink(c, s, link);
    } else {
      QuietOnLink(c, s, e, link);
    }
  }

  // ---------------------------------------------------------------- what was sent and heard in a run

  /** All that was published on a link, in order. */
  function Sent(w: World, h: History, link: Link): seq<Parcel> {
    match h
    case Start => []
    case Then(before, e) => Sent(w, before, link) + SentBy(w.cfg, At(w, before), e, link)
  }

  /** All that was heard from a link, in order. */
  function Heard(w: World, h: History, link: Link): seq<Parcel> {
    match h
    case Start => []
    case Then(before, e) =>
      var ps := OnLink(At(w, before).net, link);
      Heard(w, before, link) + if e == Deliver(link) && ps != [] then [ps[0]] else []
  }

  predicate NothingLost(h: History) {
    h.Start? || (!h.event.Lose? && NothingLost(h.before))
  }

  /** What was heard and what is in flight, oldest first. */
  function HeardAndComing(w: World, h: History, link: Link): seq<Parcel> {
    Heard(w, h, link) + OnLink(At(w, h).net, link)
  }

  lemma MoveOldest(heard: seq<Parcel>, ch: seq<Parcel>)
    requires ch != []
    ensures (heard + [ch[0]]) + ch[1..] == heard + ch
  {}

  lemma {:induction false} RunHears(w: World, h: History, delivered: Link, link: Link)
    ensures var h', ch := Then(h, Deliver(delivered)), OnLink(At(w, h).net, link);
      && OnLink(At(w, h').net, link) == Taken(ch, delivered == link)
      && Heard(w, h', link) == Heard(w, h, link) + if delivered == link && ch != [] then [ch[0]] else []
  {
    DeliveryOnLink(w.cfg, At(w, h), delivered, link);
  }

  /** Taking the oldest message moves it from what is coming to what was heard. */
  lemma {:induction false} HearingKeeps(w: World, h: History, delivered: Link, link: Link)
    ensures HeardAndComing(w, Then(h, Deliver(delivered)), link) == HeardAndComing(w, h, link)
  {
    var heard, ch := Heard(w, h, link), OnLink(At(w, h).net, link);
    RunHears(w, h, delivered, link);
    if delivered == link && ch != [] {
      MoveOldest(heard, ch);
    } else {
      assert heard + [] == heard;
    }
  }

  lemma LeftOfCat(heard: seq<Parcel>, ch: seq<Parcel>, i: nat, k: nat)
    requires k == |heard| + i
    ensures heard + Left(ch, i) == Left(heard + ch, k)
  {}

  lemma {:induction false} RunLoses(w: World, h: History, lost: Link, i: nat, link: Link)
    ensures var h' := Then(h, Lose(lost, i));
      && Heard(w, h', link) == Heard(w, h, link)
      && OnLink(At(w, h').net, link)
         == if lost == link then Left(OnLink(At(w, h).net, link), i) else OnLink(At(w, h).net, link)
  {
    LossOnLink(At(w, h).net, lost, i, link);
  }

  /** Losing a message takes one out of what is coming, and none from what was heard. */
  lemma {:induction false} LosingDrops(w: World, h: History, lost: Link, i: nat, link: Link, k: nat)
    requires k == |Heard(w, h, link)| + i
    ensures HeardAndComing(w, Then(h, Lose(lost, i)), link)
            == if lost == link then Left(HeardAndComing(w, h, link), k) else HeardAndComing(w, h, link)
  {
    RunLoses(w, h, lost, i, link);
    if lost == link { LeftOfCat(Heard(w, h, link), OnLink(At(w, h).net, link), i, k); }
  }

  lemma {:induction false} SendingAdds(w: World, h: History, e: Event, link: Link)
    requires !e.Deliver? && !e.Lose?
    ensures HeardAndComing(w, Then(h, e), link) == HeardAndComing(w, h, link) + SentBy(w.cfg, At(w, h), e, link)
  {
    SendingOnLink(w.cfg, At(w, h), e, link);
    assert Heard(w, Then(h, e), link) == Heard(w, h, link);
    assert forall a: seq<Parcel>, b: seq<Parcel>, c: seq<Parcel> :: a + (b + c) == (a + b) + c;
  }

  lemma LeftIsSubsequence(ps: seq<Parcel>, ps': seq<Parcel>, i: nat, sent: seq<Parcel>, sent': seq<Parcel>)
    requires IsSubsequence(ps, sent) && sent' == sent && (ps' == ps || ps' == Left(ps, i))
    ensures IsSubsequence(ps', sent')
  {
    if ps' != ps && i < |ps| { SubsequenceLoses(ps, sent, i); }
  }

  lemma SendingIsFaithful(ps: seq<Parcel>, sent: seq<Parcel>, more: seq<Parcel>)
    requires IsSubsequence(ps, sent) && |more| <= 1
    ensures IsSubsequence(ps + more, sent + more)
  {
    if more == [] {
      assert ps + more == ps && sent + more == sent;
    } else {
      SubsequenceGrows(ps, sent, more[0]);
      assert more == [more[0]];
    }
  }

  /** What was heard and what is coming was sent, in that order; all that was sent, where nothing is lost. */
  ghost predicate Faithful(w: World, h: History, link: Link) {
    && IsSubsequence(HeardAndComing(w, h, link), Sent(w, h, link))
    && (NothingLost(h) ==> HeardAndComing(w, h, link) == Sent(w, h, link))
  }

  lemma {:induction false} OthersSendNothing(w: World, h: History, e: Event, link: Link)
    requires e.Deliver? || e.Lose?
    ensures Sent(w, Then(h, e), link) == Sent(w, h, link)
  {
    assert SentBy(w.cfg, At(w, h), e, link) == [];
  }

  lemma {:induction false} DeliveryIsFaithful(w: World, h: History, delivered: Link, link: Link)
    requires Faithful(w, h, link)
    ensures Faithful(w, Then(h, Deliver(delivered)), link)
  {
    HearingKeeps(w, h, delivered, link);
    OthersSendNothing(w, h, Deliver(delivered), link);
  }

  lemma {:induction false} LosingIsFaithful(w: World, h: History, lost: Link, i: nat, link: Link, k: nat)
    requires Faithful(w, h, link) && k == |Heard(w, h, link)| + i
    ensures Faithful(w, Then(h, Lose(lost, i)), link)
  {
    var h' := Then(h, Lose(lost, i));
    LosingDrops(w, h, lost, i, link, k);
    OthersSendNothing(w, h, Lose(lost, i), link);
    LeftIsSubsequence(HeardAndComing(w, h, link), HeardAndComing(w, h', link), k, Sent(w, h, link), Sent(w, h', link));
  }

  lemma {:induction false} PublishingIsFaithful(w: World, h: History, e: Event, link: Link)
    requires Faithful(w, h, link) && !e.Deliver? && !e.Lose?
    ensures Faithful(w, Then(h, e), link)
  {
    SendingAdds(w, h, e, link);
    SendingIsFaithful(HeardAndComing(w, h, link), Sent(w, h, link), SentBy(w.cfg, At(w, h), e, link));
  }

  /**
   Every channel is faithful: what was heard and what is coming was sent, in that order and no more often;
   where nothing is lost, it is all that was sent.
   */
  lemma {:induction false} ChannelIsFaithful(w: World, h: History, link: Link)
    ensures Faithful(w, h, link)
  {
    match h
    case Start =>
    case Then(before, Deliver(delivered)) =>
      ChannelIsFaithful(w, before, link);
      DeliveryIsFaithful(w, before, delivered, link);
    case Then(before, Lose(lost, i)) =>
      ChannelIsFaithful(w, before, link);
      LosingIsFaithful(w, before, lost, i, link, |Heard(w, before, link)| + i);
    case Then(before, e) =>
      ChannelIsFaithful(w, before, link);
      PublishingIsFaithful(w, before, e, link);
  }

  /** `p` was published on the link, by an event of the run. */
  ghost predicate WasSent(w: World, h: History, link: Link, p: Parcel) {
    exists g, e :: Extends(h, Then(g, e)) && p in SentBy(w.cfg, At(w, g), e, link) && p.sent == At(w, g).now
  }

  lemma {:induction false} SentHasOrigin(w: World, h: History, link: Link, p: Parcel)
    requires p in Sent(w, h, link)
    ensures WasSent(w, h, link, p)
  {
    if p in SentBy(w.cfg, At(w, h.before), h.event, link) {
      assert Extends(h, Then(h.before, h.event));
    } else {
      SentHasOrigin(w, h.before, link, p);
      var g, e :| Extends(h.before, Then(g, e)) && p in SentBy(w.cfg, At(w, g), e, link) && p.sent == At(w, g).now;
      assert Extends(h, Then(g, e));
    }
  }

  /** Whatever was heard or is in flight was published. */
  lemma {:induction false} HeardWasSent(w: World, h: History, link: Link, p: Parcel)
    requires p in HeardAndComing(w, h, link)
    ensures WasSent(w, h, link, p)
  {
    ChannelIsFaithful(w, h, link);
    SubsequenceElement(HeardAndComing(w, h, link), Sent(w, h, link), p);
    SentHasOrigin(w, h, link, p);
  }

  /** The newest message heard from a link. */
  function Newest(w: World, h: History, link: Link): Option<Receipt> {
    match h
    case Start => None
    case Then(before, e) =>
      var ps := OnLink(At(w, before).net, link);
      if e == Deliver(link) && ps != [] then Some(Receipt(ps[0], At(w, before).now)) else Newest(w, before, link)
  }

  lemma WasSentLater(w: World, h: History, e: Event, link: Link, p: Parcel)
    requires WasSent(w, h, link, p)
    ensures WasSent(w, Then(h, e), link, p)
  {
    var g, sender :| Extends(h, Then(g, sender)) && p in SentBy(w.cfg, At(w, g), sender, link)
      && p.sent == At(w, g).now;
    assert Extends(Then(h, e), Then(g, sender));
  }

  lemma OldestIsComing(heard: seq<Parcel>, ch: seq<Parcel>)
    requires ch != []
    ensures ch[0] in heard + ch
  {}

  lemma {:induction false} NewestWasSent(w: World, h: History, link: Link)
    requires Newest(w, h, link).Some?
    ensures WasSent(w, h, link, Newest(w, h, link).value.msg)
  {
    var before, e := h.before, h.event;
    var ps := OnLink(At(w, before).net, link);
    if e == Deliver(link) && ps != [] {
      OldestIsComing(Heard(w, before, link), ps);
      HeardWasSent(w, before, link, ps[0]);
      WasSentLater(w, before, e, link, ps[0]);
    } else {
      NewestWasSent(w, before, link);
      WasSentLater(w, before, e, link, Newest(w, h, link).value.msg);
    }
  }

  lemma OnTimeOnLink(n: Net, link: Link, t: Time, d: Duration)
    requires NetOnTime(n, t, d)
    ensures forall p | p in OnLink(n, link) :: t <= p.sent + d
  {}

  /** In a punctual run what was heard had been published at most one delivery before. */
  lemma {:induction false} NewestIsTimely(w: World, h: History, link: Link)
    requires ValidBounds(w.cfg.bounds) && Punctual(w, h) && Newest(w, h, link).Some?
    ensures var r := Newest(w, h, link).value; r.msg.sent <= r.at <= r.msg.sent + w.cfg.bounds.delivery
    ensures Newest(w, h, link).value.at <= At(w, h).now
  {
    var before, e := h.before, h.event;
    var ps := OnLink(At(w, before).net, link);
    StepNow(w.cfg, At(w, before), e);
    if e == Deliver(link) && ps != [] {
      NeverLate(w, before);
      OnTimeOnLink(At(w, before).net, link, At(w, before).now, w.cfg.bounds.delivery);
      HeardWasSent(w, before, link, ps[0]);
      var g, sender :| Extends(before, Then(g, sender)) && ps[0] in SentBy(w.cfg, At(w, g), sender, link)
        && ps[0].sent == At(w, g).now;
      ExtendsTransitive(before, Then(g, sender), g);
      ClockIsMonotone(w, before, g);
    } else {
      NewestIsTimely(w, before, link);
    }
  }
}
