/** How the account's devices come to their records of one contact: what each act makes of a record, and
    which states may stand at one order. */
module ContactChanges {
  import opened Common
  import opened ContactList
  import opened ContactListRounds

  /** What changes a record: a message sent here or from another device of the account, one received, and
      what the user decides. */
  datatype Act = Send | SentElsewhere | Receive | Accept | Reject | Block | Unblock

  /** When the change of a record is to be written; another person's request never is. */
  function DueAfter(state: ContactState, dueAt: Option<int>, later: int): Option<int> {
    if state == PendingIncoming || dueAt.Some? then dueAt else Some(later)
  }

  /** The record one revision on, the change made by `device`, or by none that it names. */
  function Changed(c: Contact, state: ContactState, previous: Option<ContactState>, device: nat, now: int, later: int): Contact {
    Contact(state, previous, c.revision + 1, device, now, DueAfter(state, c.dueAt, later))
  }

  /** The first record of a contact. */
  function First(a: Act, device: nat, now: int, later: int): Option<Contact> {
    match a
    case Send => Some(Contact(PendingOutgoing, None, 0, device, now, Some(later)))
    case SentElsewhere => Some(Contact(PendingOutgoing, None, 0, 0, now, Some(later)))
    case Receive => Some(Contact(PendingIncoming, None, 0, 0, now, None))
    case Block => Some(Contact(Blocked, Some(Rejected), 1, device, now, Some(later)))
    case _ => None
  }

  /** A record after an act on `device`; as it was where the act changes nothing or is refused. */
  function AfterAct(c: Contact, a: Act, device: nat, now: int, later: int): Contact {
    match a
    case Send => if c.state == Rejected then Changed(c, PendingOutgoing, None, 0, now, later) else c
    case SentElsewhere =>
      if c.state == Rejected then Changed(c, PendingOutgoing, None, 0, now, later)
      else if c.state == PendingIncoming then Changed(c, Accepted, None, 0, now, later)
      else c
    case Receive =>
      if c.state == Rejected then Changed(c, PendingIncoming, None, device, now, later)
      else if c.state == PendingOutgoing then Changed(c, Accepted, None, device, now, later)
      else c
    case Accept =>
      if c.state == PendingIncoming || c.state == PendingOutgoing then Changed(c, Accepted, None, device, now, later) else c
    case Reject => if c.state == PendingIncoming then Changed(c, Rejected, None, device, now, later) else c
    case Block => if c.state == Blocked then c else Changed(c, Blocked, Some(c.state), device, now, later)
    case Unblock =>
      if c.state == Blocked then Changed(c, if c.previous.Some? then c.previous.value else Rejected, None, device, now, later) else c
  }

  function After(c: Option<Contact>, a: Act, device: nat, now: int, later: int): Option<Contact> {
    if c.None? then First(a, device, now, later) else Some(AfterAct(c.value, a, device, now, later))
  }

  /** No act lowers a record, and one that changes it raises its revision. */
  lemma {:induction false} ActsOnlyRaise(c: Contact, a: Act, device: nat, now: int, later: int)
    ensures var c' := AfterAct(c, a, device, now, later);
            c' == c || (c'.revision == c.revision + 1 && Below(OrderOf(c), OrderOf(c')))
  {
  }

  // ----- the account's devices -----

  /** What a record says to the other devices: its order and state. */
  datatype Mark = Mark(order: Order, state: ContactState)

  /** Each device's record, and every one any of them ever had: what the list and the controls may still
      bring. Devices are numbered from 1 on. */
  datatype World = World(records: seq<Option<Contact>>, ever: set<Mark>)

  datatype Event =
    | Acted(i: nat, act: Act, now: int, later: int)
    | Learned(i: nat, c: Contact)

  function MarkOf(c: Contact): Mark {
    Mark(OrderOf(c), c.state)
  }

  function Entered(w: World, i: nat, c: Contact): World
    requires i < |w.records|
  {
    World(w.records[i := Some(c)], w.ever + {MarkOf(c)})
  }

  /** A device takes over a record made before only when it is the later one. */
  predicate MayLearn(w: World, i: nat, c: Contact)
    requires i < |w.records|
  {
    MarkOf(c) in w.ever && (w.records[i].Some? ==> Below(OrderOf(w.records[i].value), OrderOf(c)))
  }

  function Next(w: World, e: Event): World {
    if e.i >= |w.records| then w
    else
      match e
      case Acted(i, act, now, later) =>
        var c := After(w.records[i], act, i + 1, now, later);
        if c.Some? then Entered(w, i, c.value) else w
      case Learned(i, c) => if MayLearn(w, i, c) then Entered(w, i, c) else w
  }

  /** The world of `count` devices after any history. */
  function Reached(count: nat, es: seq<Event>): World {
    if es == [] then World(seq(count, _ => None), {}) else Next(Reached(count, es[..|es| - 1]), es[|es| - 1])
  }

  /** Records that name device `i` are at no later revision than its own. */
  predicate MadeBefore(w: World, m: Mark, i: nat)
    requires i < |w.records|
  {
    m.order.device == i + 1 ==> w.records[i].Some? && m.order.revision <= w.records[i].value.revision
  }

  /** A change that names its device is the only one at its order. */
  predicate OneState(m: Mark, n: Mark) {
    m.order == n.order && m.order.device != 0 ==> m.state == n.state
  }

  ghost predicate Inv(w: World) {
    && (forall i :: 0 <= i < |w.records| && w.records[i].Some? ==> MarkOf(w.records[i].value) in w.ever)
    && (forall m :: m in w.ever ==> m.order.device <= |w.records|)
    && (forall m, i :: m in w.ever && 0 <= i < |w.records| ==> MadeBefore(w, m, i))
    && (forall m, n :: m in w.ever && n in w.ever ==> OneState(m, n))
  }

  /** A record entered keeps the invariant when it was there before, or is this device's own and new, or
      names no device. */
  lemma {:induction false} EnteringKeepsInv(w: World, i: nat, c: Contact)
    requires Inv(w) && i < |w.records|
    requires w.records[i].Some? ==> w.records[i].value.revision <= c.revision
    requires || MarkOf(c) in w.ever
             || c.device == 0
             || (c.device == i + 1 && (w.records[i].Some? ==> w.records[i].value.revision < c.revision))
    ensures Inv(Entered(w, i, c))
  {
    var (w', added) := (Entered(w, i, c), MarkOf(c));
    forall m, j | m in w'.ever && 0 <= j < |w'.records| ensures MadeBefore(w', m, j) {
      if m in w.ever {
        assert MadeBefore(w, m, j);
      }
    }
    forall m, n | m in w'.ever && n in w'.ever ensures OneState(m, n) {
      if m in w.ever && n in w.ever {
        assert OneState(m, n);
      } else if added !in w.ever && added.order.device != 0 {
        assert m in w.ever ==> MadeBefore(w, m, i);
        assert n in w.ever ==> MadeBefore(w, n, i);
      }
    }
  }

  /** A record after an act is the one before, or names no device, or this device at a later revision. */
  lemma {:induction false} ActNames(c: Option<Contact>, a: Act, device: nat, now: int, later: int)
    requires After(c, a, device, now, later).Some?
    ensures var d := After(c, a, device, now, later).value;
            && (c.Some? ==> c.value.revision <= d.revision)
            && (c == Some(d) || d.device == 0 || (d.device == device && (c.Some? ==> c.value.revision < d.revision)))
  {
    if c.Some? {
      ActsOnlyRaise(c.value, a, device, now, later);
    }
  }

  lemma {:induction false} EventKeepsInv(w: World, e: Event)
    requires Inv(w)
    ensures Inv(Next(w, e))
  {
    if e.i < |w.records| {
      match e {
        case Acted(i, act, now, later) =>
          var c := After(w.records[i], act, i + 1, now, later);
          if c.Some? {
            ActNames(w.records[i], act, i + 1, now, later);
            EnteringKeepsInv(w, i, c.value);
          }
        case Learned(i, c) =>
          if MayLearn(w, i, c) {
            EnteringKeepsInv(w, i, c);
          }
      }
    }
  }

  lemma {:induction false} ReachedInv(count: nat, es: seq<Event>)
    ensures Inv(Reached(count, es)) && |Reached(count, es).records| == count
  {
    if es != [] {
      ReachedInv(count, es[..|es| - 1]);
      EventKeepsInv(Reached(count, es[..|es| - 1]), es[|es| - 1]);
    }
  }

  /** Whatever the devices do and learn of one another, an order that names a device stands for one state,
      in every record there ever is. */
  lemma {:induction false} NamedOrdersHaveOneState(count: nat, es: seq<Event>, m: Mark, n: Mark)
    requires m in Reached(count, es).ever && n in Reached(count, es).ever && m.order == n.order
    ensures m.order.device != 0 ==> m.state == n.state
  {
    ReachedInv(count, es);
    assert OneState(m, n);
  }

  // ----- what the devices then agree on -----

  /** The devices' records as the list's rounds find them, and an entry one of them had. */
  ghost predicate Holds(w: World, hs: seq<Holder>, l: Option<Listed>) {
    && |hs| == |w.records|
    && (forall i :: 0 <= i < |hs| ==> hs[i].contact == w.records[i])
    && (l.Some? && l.value.entry.Some? ==> Mark(OrderIn(l), StateIn(l)) in w.ever)
  }

  /** After any history, when the greatest order that may be written names a device, a round of syncs, one
      of flushes and one of syncs leave every device with the list's state, or a later request of the other
      person: only changes that name no device can leave two. */
  lemma {:induction false} NamedChangesAgree(count: nat, es: seq<Event>, hs: seq<Holder>, l: Option<Listed>, dueAt: int, o: Order)
    requires Holds(Reached(count, es), hs, l) && Readable(l) && IsTop(hs, l, o) && o.device != 0
    ensures var (hs', l') := Rounds(hs, l, dueAt); AllAgree(hs', l', o)
  {
    TopsAgree(count, es, hs, l, o);
    StatesAgreeExactly(hs, l, dueAt, o);
  }

  lemma {:induction false} TopsAgree(count: nat, es: seq<Event>, hs: seq<Holder>, l: Option<Listed>, o: Order)
    requires Holds(Reached(count, es), hs, l) && o.device != 0
    ensures AgreeAtTop(hs, l, o)
  {
    var w := Reached(count, es);
    ReachedInv(count, es);
    forall i, j | 0 <= i < |hs| && 0 <= j < |hs| && At(hs[i], o) && At(hs[j], o)
      ensures hs[i].contact.value.state == hs[j].contact.value.state
    {
      NamedOrdersHaveOneState(count, es, MarkOf(w.records[i].value), MarkOf(w.records[j].value));
    }
    if ListAt(l, o) {
      forall i | 0 <= i < |hs| && At(hs[i], o) ensures hs[i].contact.value.state == StateIn(l) {
        NamedOrdersHaveOneState(count, es, MarkOf(w.records[i].value), Mark(OrderIn(l), StateIn(l)));
      }
    }
  }

  // ----- when they do not -----

  lemma {:induction false} ReachedMore(count: nat, es: seq<Event>, e: Event)
    ensures Reached(count, es + [e]) == Next(Reached(count, es), e)
  {
    assert (es + [e])[..|es|] == es;
  }

  lemma {:induction false} ReachedByAct(count: nat, es: seq<Event>, i: nat, a: Act)
    requires i < count
    ensures var (was, made) := (Reached(count, es).records, Reached(count, es + [Acted(i, a, 0, 0)]).records);
            |was| == |made| == count && made == was[i := After(was[i], a, i + 1, 0, 0)]
  {
    ReachedInv(count, es);
    ReachedMore(count, es, Acted(i, a, 0, 0));
  }

  lemma {:induction false} ReachedByActs(count: nat, es: seq<Event>, i: nat, a: Act, b: Act) returns (more: seq<Event>)
    requires i < count
    ensures more == es + [Acted(i, a, 0, 0)] + [Acted(i, b, 0, 0)]
    ensures var (was, made) := (Reached(count, es).records, Reached(count, more).records);
            |was| == |made| == count && made == was[i := Twice(was[i], a, b, i + 1)]
  {
    more := es + [Acted(i, a, 0, 0)];
    ReachedByAct(count, es, i, a);
    ReachedByAct(count, more, i, b);
    more := more + [Acted(i, b, 0, 0)];
  }

  function Twice(c: Option<Contact>, a: Act, b: Act, device: nat): Option<Contact> {
    After(After(c, a, device, 0, 0), b, device, 0, 0)
  }

  lemma {:induction false} FourActs()
    ensures Twice(None, Block, Unblock, 1) == Some(Contact(Rejected, None, 2, 1, 0, Some(0)))
    ensures Twice(Some(Contact(Rejected, None, 2, 1, 0, Some(0))), SentElsewhere, SentElsewhere, 1) == Some(RENEWED)
    ensures Twice(None, Receive, Reject, 2) == Some(Contact(Rejected, None, 1, 2, 0, Some(0)))
    ensures Twice(Some(Contact(Rejected, None, 1, 2, 0, Some(0))), Receive, SentElsewhere, 2) == Some(ACCEPTED)
  {
  }

  const RENEWED := Contact(PendingOutgoing, None, 3, 0, 0, Some(0))
  const ACCEPTED := Contact(Accepted, None, 3, 0, 0, Some(0))

  /** Two devices come to one order in two states: one blocked and unblocked the contact, the other had
      its request, rejected it and had another; then both hear of a message sent from a third device, which
      renews the contact on the one and accepts the request on the other, and names no device. */
  lemma {:induction false} OneOrderTwoStates() returns (es: seq<Event>, a: Contact, b: Contact)
    ensures Reached(2, es).records == [Some(a), Some(b)]
    ensures OrderOf(a) == OrderOf(b) == Order(3, false, 0) && a.state == PendingOutgoing && b.state == Accepted
  {
    a, b := RENEWED, ACCEPTED;
    FourActs();
    var e1 := ReachedByActs(2, [], 0, Block, Unblock);
    var e2 := ReachedByActs(2, e1, 0, SentElsewhere, SentElsewhere);
    var e3 := ReachedByActs(2, e2, 1, Receive, Reject);
    es := ReachedByActs(2, e3, 1, Receive, SentElsewhere);
  }

  /** And no number of rounds brings them to one. */
  lemma {:induction false} TwoStatesStay(n: nat, dueAt: int) returns (es: seq<Event>, hs: seq<Holder>, l: Option<Listed>)
    ensures Holds(Reached(2, es), hs, l) && Readable(l) && IsTop(hs, l, Order(3, false, 0)) && |hs| == 2
    ensures var (hs', l') := ManyRounds(hs, l, dueAt, n);
            |hs'| == 2 && hs'[0].contact.Some? && hs'[1].contact.Some? && hs'[0].contact.value.state != hs'[1].contact.value.state
  {
    var a, b;
    es, a, b := OneOrderTwoStates();
    var unknown := Known(None, None);
    hs, l := [Holder(Some(a), unknown), Holder(Some(b), unknown)], Some(Listed(1, Some(EntryOf(a, unknown, None))));
    ReachedInv(2, es);
    assert Reached(2, es).records[0] == Some(a);
    TiedStatesStay(hs, l, dueAt, n, Order(3, false, 0));
  }
}
