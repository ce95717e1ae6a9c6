/** The devices of one account and one contact: what a round of reads and writes of the list makes
    of whatever they and the list said before, while the list has room. */
module ContactListRounds {
  import opened Common
  import opened ContactList
  import opened ContactListSync

  /** What one device has for the contact. */
  datatype Holder = Holder(contact: Option<Contact>, known: Known)

  function Synced(h: Holder, l: Option<Listed>, dueAt: int): Holder {
    Holder(SyncedContact(h.contact, h.known, l, false, dueAt), SyncedKnown(h.contact, h.known, l, false))
  }

  function SyncRound(hs: seq<Holder>, l: Option<Listed>, dueAt: int): (r: seq<Holder>)
    ensures |r| == |hs|
  {
    seq(|hs|, i requires 0 <= i < |hs| => Synced(hs[i], l, dueAt))
  }

  /** A device's flush of everything due. */
  function FlushedHolder(h: Holder, l: Option<Listed>): (Holder, Option<Listed>) {
    if h.contact.Some? && h.contact.value.dueAt.Some? then
      var s := Flushed(Side(h.contact.value, h.known, l));
      (Holder(Some(s.contact), s.known), s.listed)
    else (h, l)
  }

  /** Each device flushes in turn: the devices after it, and the list. */
  function FlushRound(hs: seq<Holder>, l: Option<Listed>): (r: (seq<Holder>, Option<Listed>))
    ensures |r.0| == |hs|
  {
    if |hs| == 0 then (hs, l)
    else
      var before := FlushRound(hs[..|hs| - 1], l);
      var last := FlushedHolder(hs[|hs| - 1], before.1);
      (before.0 + [last.0], last.1)
  }

  /** A contact this device would write: never another person's request. */
  predicate Publishable(h: Holder) {
    h.contact.Some? && h.contact.value.state != PendingIncoming
  }

  /** The list's entry can be read by this version; none is ever another person's request. */
  predicate Readable(l: Option<Listed>) {
    l.Some? ==> l.value.entry.Some? && l.value.entry.value.state != PendingIncoming
  }

  /** The list says at least `o`. */
  predicate Covers(l: Option<Listed>, o: Order) {
    l.Some? && l.value.entry.Some? && AtMost(o, EntryOrder(l.value.entry.value))
  }

  function OrderIn(l: Option<Listed>): Order
    requires l.Some? && l.value.entry.Some?
  {
    EntryOrder(l.value.entry.value)
  }

  function HolderOrder(h: Holder): Order
    requires h.contact.Some?
  {
    OrderOf(h.contact.value)
  }

  /** Where an order in the list may have come from. */
  ghost predicate From(hs: seq<Holder>, l: Option<Listed>, o: Order) {
    || (l.Some? && l.value.entry.Some? && o == OrderIn(l))
    || exists i :: 0 <= i < |hs| && Publishable(hs[i]) && o == HolderOrder(hs[i])
  }

  predicate Same(h: Holder, h': Holder) {
    && h.contact.Some? && h'.contact.Some?
    && HolderOrder(h') == HolderOrder(h)
    && h'.contact.value.state == h.contact.value.state
  }

  /** What a sync leaves: what is not due is in the list, and nothing fell. */
  lemma {:induction false} SyncSettlesOne(h: Holder, l: Option<Listed>, dueAt: int)
    requires Readable(l)
    ensures var h' := Synced(h, l, dueAt);
            && (h.contact.Some? ==> h'.contact.Some? && AtMost(HolderOrder(h), HolderOrder(h')))
            && (l.Some? ==> h'.contact.Some? && AtMost(OrderIn(l), HolderOrder(h')))
            && (h'.contact.Some? ==> Same(h, h') || (l.Some? && HolderOrder(h') == OrderIn(l)))
            && (Publishable(h) ==> Publishable(h'))
            && (Publishable(h') ==> h'.contact.value.dueAt.Some? || Covers(l, HolderOrder(h')))
  {
  }

  /** What one flush leaves: the list covers what was due, and fell for nothing. */
  lemma {:induction false} FlushSettlesOne(h: Holder, l: Option<Listed>)
    requires Readable(l)
    ensures var r := FlushedHolder(h, l);
            var (h', l') := (r.0, r.1);
            && Readable(l')
            && (h.contact.Some? <==> h'.contact.Some?)
            && (h.contact.Some? ==> AtMost(HolderOrder(h), HolderOrder(h')))
            && (l.Some? ==> Covers(l', OrderIn(l)))
            && (l'.Some? ==> l.Some? || (Publishable(h) && h.contact.value.dueAt.Some?))
            && (l'.Some? ==> (l.Some? && OrderIn(l') == OrderIn(l)) || (Publishable(h) && OrderIn(l') == HolderOrder(h)))
            && (h.contact.Some? && h.contact.value.dueAt.Some? && Publishable(h) ==> Covers(l', HolderOrder(h')))
            && (h'.contact.Some? ==> Same(h, h') || (l.Some? && HolderOrder(h') == OrderIn(l)))
            && (Publishable(h) ==> Publishable(h'))
  {
  }

  /** A device of the flush round: at least what it was, and covered by the list unless it holds
      another person's request. */
  ghost predicate Settled(h: Holder, h': Holder, l': Option<Listed>) {
    && (h.contact.Some? <==> h'.contact.Some?)
    && (h.contact.Some? ==> AtMost(HolderOrder(h), HolderOrder(h')))
    && (Publishable(h') ==> Covers(l', HolderOrder(h')))
    && (Publishable(h) ==> Publishable(h'))
  }

  lemma {:induction false} CoversIsKept(l: Option<Listed>, l': Option<Listed>, o: Order)
    requires Readable(l') && (l.Some? && l.value.entry.Some? ==> Covers(l', OrderIn(l)))
    requires Covers(l, o)
    ensures Covers(l', o)
  {
    OrderIsTotal(o, OrderIn(l), OrderIn(l'));
  }

  /** Every device's due contact covered by the list it flushed against, or due. */
  ghost predicate DueOrCovered(hs: seq<Holder>, l: Option<Listed>) {
    forall i :: 0 <= i < |hs| && Publishable(hs[i]) ==> hs[i].contact.value.dueAt.Some? || Covers(l, HolderOrder(hs[i]))
  }

  lemma {:induction false} FlushRoundSettles(hs: seq<Holder>, l: Option<Listed>)
    requires Readable(l) && DueOrCovered(hs, l)
    ensures var r := FlushRound(hs, l);
            && Readable(r.1)
            && (l.Some? ==> Covers(r.1, OrderIn(l)))
            && (forall i :: 0 <= i < |hs| ==> Settled(hs[i], r.0[i], r.1))
            && (r.1.Some? ==> From(hs, l, OrderIn(r.1)))
  {
    if |hs| > 0 {
      var n := |hs| - 1;
      var init := hs[..n];
      assert forall i :: 0 <= i < n ==> init[i] == hs[i];
      FlushRoundSettles(init, l);
      var before := FlushRound(init, l);
      var h := hs[n];
      FlushSettlesOne(h, before.1);
      var r := FlushRound(hs, l);
      forall i | 0 <= i < |hs| ensures Settled(hs[i], r.0[i], r.1) {
        if i < n {
          assert r.0[i] == before.0[i];
          if Publishable(r.0[i]) {
            CoversIsKept(before.1, r.1, HolderOrder(r.0[i]));
          }
        } else if Publishable(h) && h.contact.value.dueAt.None? {
          CoversIsKept(l, before.1, HolderOrder(h));
        }
      }
      if l.Some? {
        CoversIsKept(before.1, r.1, OrderIn(l));
      }
      if r.1.Some? && before.1.Some? && OrderIn(r.1) == OrderIn(before.1) {
        if !(l.Some? && OrderIn(r.1) == OrderIn(l)) {
          var i :| 0 <= i < n && Publishable(init[i]) && OrderIn(r.1) == HolderOrder(init[i]);
          assert Publishable(hs[i]);
        }
      }
    }
  }

  /** A round of syncs, a round of flushes, a round of syncs: the devices, and the list. */
  function Rounds(hs: seq<Holder>, l: Option<Listed>, dueAt: int): (seq<Holder>, Option<Listed>) {
    var flushed := FlushRound(SyncRound(hs, l, dueAt), l);
    (SyncRound(flushed.0, flushed.1, dueAt), flushed.1)
  }

  /** From any state of the devices and of the list, these rounds bring the list to the greatest of
      all orders that may be written, and every device to the list's, but for one that holds a later
      request of the other person. */
  lemma {:induction false} RoundsConverge(hs: seq<Holder>, l: Option<Listed>, dueAt: int)
    requires Readable(l)
    ensures var (hs', l') := Rounds(hs, l, dueAt);
            && |hs'| == |hs| && Readable(l')
            && (l.Some? ==> Covers(l', OrderIn(l)))
            && (forall i :: 0 <= i < |hs| && Publishable(hs[i]) ==> Covers(l', HolderOrder(hs[i])))
            && (l'.Some? ==> From(hs, l, OrderIn(l')))
            && (l'.Some? ==> forall i :: 0 <= i < |hs'| ==>
                  && hs'[i].contact.Some?
                  && (HolderOrder(hs'[i]) == OrderIn(l')
                      || (hs'[i].contact.value.state == PendingIncoming && Below(OrderIn(l'), HolderOrder(hs'[i])))))
  {
    var a := SyncRound(hs, l, dueAt);
    forall i | 0 <= i < |hs| && Publishable(a[i])
      ensures a[i].contact.value.dueAt.Some? || Covers(l, HolderOrder(a[i]))
    {
      SyncSettlesOne(hs[i], l, dueAt);
    }
    FlushRoundSettles(a, l);
    var (b, l') := FlushRound(a, l);
    forall i | 0 <= i < |hs| && Publishable(hs[i]) ensures Covers(l', HolderOrder(hs[i])) {
      SyncSettlesOne(hs[i], l, dueAt);
      WrittenIsCovered(hs[i], l, dueAt, a[i], b[i], l');
    }
    if l'.Some? {
      TopComesFromTheStart(hs, l, dueAt, OrderIn(l'));
      forall i | 0 <= i < |hs|
        ensures var h := Synced(b[i], l', dueAt);
                && h.contact.Some?
                && (HolderOrder(h) == OrderIn(l') || (h.contact.value.state == PendingIncoming && Below(OrderIn(l'), HolderOrder(h))))
      {
        SyncSettlesOne(b[i], l', dueAt);
        if b[i].contact.Some? {
          OrderIsTotal(OrderIn(l'), HolderOrder(b[i]), OrderIn(l'));
        }
      }
    }
  }

  lemma {:induction false} WrittenIsCovered(h: Holder, l: Option<Listed>, dueAt: int, a: Holder, b: Holder, l': Option<Listed>)
    requires Readable(l) && Readable(l') && Publishable(h)
    requires a == Synced(h, l, dueAt) && Settled(a, b, l')
    requires l.Some? ==> Covers(l', OrderIn(l))
    ensures Covers(l', HolderOrder(h))
  {
    SyncSettlesOne(h, l, dueAt);
    OrderIsTotal(HolderOrder(h), HolderOrder(a), HolderOrder(b));
    OrderIsTotal(HolderOrder(h), HolderOrder(b), OrderIn(l'));
  }

  lemma {:induction false} TopComesFromTheStart(hs: seq<Holder>, l: Option<Listed>, dueAt: int, o: Order)
    requires Readable(l) && From(SyncRound(hs, l, dueAt), l, o)
    ensures From(hs, l, o)
  {
    var a := SyncRound(hs, l, dueAt);
    if !(l.Some? && o == OrderIn(l)) {
      var i :| 0 <= i < |a| && Publishable(a[i]) && o == HolderOrder(a[i]);
      SyncSettlesOne(hs[i], l, dueAt);
      assert Publishable(hs[i]);
    }
  }

  /** So an accept never outlives a block at its revision: where any device that may write it, or the
      list, has the contact blocked at the highest revision, all end with a block. */
  lemma {:induction false} BlocksWinTies(hs: seq<Holder>, l: Option<Listed>, dueAt: int, i: nat)
    requires Readable(l) && i < |hs| && Publishable(hs[i]) && hs[i].contact.value.state == Blocked
    requires forall j :: 0 <= j < |hs| && hs[j].contact.Some? ==> hs[j].contact.value.revision <= hs[i].contact.value.revision
    requires l.Some? ==> l.value.entry.value.revision <= hs[i].contact.value.revision
    ensures var (hs', l') := Rounds(hs, l, dueAt);
            && l'.Some? && l'.value.entry.Some? && l'.value.entry.value.state == Blocked
            && |hs'| == |hs|
            && forall j :: 0 <= j < |hs'| ==> hs'[j].contact.Some? && hs'[j].contact.value.state == Blocked
  {
    RoundsConverge(hs, l, dueAt);
    var (hs', l') := Rounds(hs, l, dueAt);
    NothingPasses(hs, l, dueAt, hs[i].contact.value.revision);
  }

  predicate UpTo(h: Holder, revision: nat) {
    h.contact.Some? ==> h.contact.value.revision <= revision
  }

  lemma {:induction false} NothingPasses(hs: seq<Holder>, l: Option<Listed>, dueAt: int, revision: nat)
    requires Readable(l) && (l.Some? ==> l.value.entry.value.revision <= revision)
    requires forall j :: 0 <= j < |hs| ==> UpTo(hs[j], revision)
    ensures var (hs', l') := Rounds(hs, l, dueAt); forall j :: 0 <= j < |hs'| ==> UpTo(hs'[j], revision)
  {
    var a := SyncRound(hs, l, dueAt);
    assert forall j :: 0 <= j < |a| ==> UpTo(a[j], revision);
    FlushPassesNothing(a, l, revision);
  }

  lemma {:induction false} FlushPassesNothing(hs: seq<Holder>, l: Option<Listed>, revision: nat)
    requires Readable(l) && (l.Some? ==> l.value.entry.value.revision <= revision)
    requires forall j :: 0 <= j < |hs| ==> UpTo(hs[j], revision)
    ensures var (hs', l') := FlushRound(hs, l);
            && Readable(l') && (l'.Some? ==> l'.value.entry.value.revision <= revision)
            && forall j :: 0 <= j < |hs'| ==> UpTo(hs'[j], revision)
  {
    if |hs| > 0 {
      var init := hs[..|hs| - 1];
      assert forall j :: 0 <= j < |init| ==> init[j] == hs[j];
      FlushPassesNothing(init, l, revision);
    }
  }

  // ----- when states agree -----

  predicate At(h: Holder, o: Order) {
    h.contact.Some? && HolderOrder(h) == o
  }

  predicate ListAt(l: Option<Listed>, o: Order) {
    l.Some? && l.value.entry.Some? && OrderIn(l) == o
  }

  /** The device has nothing of the contact, or something earlier. */
  predicate Under(h: Holder, o: Order) {
    h.contact.None? || Below(HolderOrder(h), o)
  }

  function StateIn(l: Option<Listed>): ContactState
    requires l.Some? && l.value.entry.Some?
  {
    l.value.entry.value.state
  }

  predicate NotAbove(h: Holder, o: Order) {
    Publishable(h) ==> AtMost(HolderOrder(h), o)
  }

  predicate ListNotAbove(l: Option<Listed>, o: Order) {
    l.Some? && l.value.entry.Some? ==> AtMost(OrderIn(l), o)
  }

  /** The greatest order that may be written. */
  ghost predicate IsTop(hs: seq<Holder>, l: Option<Listed>, o: Order) {
    From(hs, l, o) && ListNotAbove(l, o) && forall i :: 0 <= i < |hs| ==> NotAbove(hs[i], o)
  }

  /** Every device at `o` has the contact in `state`. */
  ghost predicate AllIn(hs: seq<Holder>, o: Order, state: ContactState) {
    forall i :: 0 <= i < |hs| && At(hs[i], o) ==> hs[i].contact.value.state == state
  }

  /** The devices at the greatest order have one state; and where the list is at it in another, theirs is
      one that may be written, and no device is without that order, to take the list's. */
  ghost predicate AgreeAtTop(hs: seq<Holder>, l: Option<Listed>, o: Order) {
    && (forall i, j :: 0 <= i < |hs| && 0 <= j < |hs| && At(hs[i], o) && At(hs[j], o) ==>
         hs[i].contact.value.state == hs[j].contact.value.state)
    && (ListAt(l, o) && !AllIn(hs, o, StateIn(l)) ==>
          forall i :: 0 <= i < |hs| ==> !Under(hs[i], o) && (At(hs[i], o) ==> hs[i].contact.value.state != PendingIncoming))
  }

  /** Every device has the list's order and state, or holds a later request of the other person. */
  ghost predicate AllAgree(hs: seq<Holder>, l: Option<Listed>, o: Order) {
    && ListAt(l, o)
    && forall i :: 0 <= i < |hs| ==>
         && hs[i].contact.Some?
         && ((HolderOrder(hs[i]) == o && hs[i].contact.value.state == StateIn(l))
             || (hs[i].contact.value.state == PendingIncoming && Below(o, HolderOrder(hs[i]))))
  }

  /** One sync: a device at `o` keeps its state, one without it takes the list's, and a state the list does
      not have becomes due. */
  lemma {:induction false} SyncAt(h: Holder, l: Option<Listed>, dueAt: int, o: Order)
    requires Readable(l) && ListNotAbove(l, o)
    ensures var h' := Synced(h, l, dueAt);
            && (At(h, o) ==> At(h', o) && h'.contact.value.state == h.contact.value.state)
            && (ListAt(l, o) && Under(h, o) ==> At(h', o) && h'.contact.value.state == StateIn(l))
            && (At(h', o) ==> At(h, o) || (ListAt(l, o) && Under(h, o)))
            && (At(h, o) && Publishable(h) && !(ListAt(l, o) && StateIn(l) == h.contact.value.state) ==> h'.contact.value.dueAt.Some?)
            && (NotAbove(h, o) ==> NotAbove(h', o))
            && (Under(h', o) ==> Under(h, o))
  {
  }

  /** One flush: a device at `o` keeps its state, and the list then has it if it was due to be written. */
  lemma {:induction false} FlushAt(h: Holder, l: Option<Listed>, o: Order)
    requires Readable(l) && ListNotAbove(l, o) && NotAbove(h, o)
    ensures var r := FlushedHolder(h, l);
            var (h', l') := (r.0, r.1);
            && Readable(l') && ListNotAbove(l', o) && NotAbove(h', o)
            && (At(h, o) ==> At(h', o) && h'.contact.value.state == h.contact.value.state)
            && (At(h', o) && !At(h, o) ==> ListAt(l, o) && h'.contact.value.state == StateIn(l))
            && (ListAt(l, o) ==> ListAt(l', o))
            && (ListAt(l', o) ==> (ListAt(l, o) && StateIn(l') == StateIn(l)) || (At(h, o) && StateIn(l') == h.contact.value.state))
            && (At(h, o) && Publishable(h) && h.contact.value.dueAt.Some? ==> ListAt(l', o) && StateIn(l') == h.contact.value.state)
            && (!Under(h, o) ==> !Under(h', o))
  {
  }

  lemma {:induction false} FlushRoundAt(hs: seq<Holder>, l: Option<Listed>, o: Order)
    requires Readable(l) && ListNotAbove(l, o) && forall i :: 0 <= i < |hs| ==> NotAbove(hs[i], o)
    ensures var (hs', l') := FlushRound(hs, l);
            && Readable(l') && ListNotAbove(l', o)
            && forall i :: 0 <= i < |hs| && At(hs[i], o) ==> At(hs'[i], o) && hs'[i].contact.value.state == hs[i].contact.value.state
  {
    if |hs| > 0 {
      var init := hs[..|hs| - 1];
      assert forall i :: 0 <= i < |init| ==> init[i] == hs[i];
      FlushRoundAt(init, l, o);
      FlushAt(hs[|hs| - 1], FlushRound(init, l).1, o);
    }
  }

  /** Where all that is at `o` has one state, a round of flushes keeps it so. */
  lemma {:induction false} FlushKeepsState(hs: seq<Holder>, l: Option<Listed>, o: Order, state: ContactState)
    requires Readable(l) && ListNotAbove(l, o) && forall i :: 0 <= i < |hs| ==> NotAbove(hs[i], o)
    requires AllIn(hs, o, state) && (ListAt(l, o) ==> StateIn(l) == state)
    ensures var (hs', l') := FlushRound(hs, l);
            AllIn(hs', o, state) && (ListAt(l', o) ==> StateIn(l') == state)
  {
    if |hs| > 0 {
      var init := hs[..|hs| - 1];
      assert forall i :: 0 <= i < |init| ==> init[i] == hs[i];
      FlushRoundAt(init, l, o);
      FlushKeepsState(init, l, o, state);
      FlushAt(hs[|hs| - 1], FlushRound(init, l).1, o);
    }
  }

  ghost predicate AnyAt(hs: seq<Holder>, o: Order) {
    exists i :: 0 <= i < |hs| && At(hs[i], o)
  }

  /** Where no device is without `o`, none takes it from the list. */
  lemma {:induction false} NoneTakes(hs: seq<Holder>, l: Option<Listed>, o: Order, state: ContactState)
    requires Readable(l) && ListNotAbove(l, o) && forall i :: 0 <= i < |hs| ==> NotAbove(hs[i], o) && !Under(hs[i], o)
    requires AllIn(hs, o, state)
    ensures AllIn(FlushRound(hs, l).0, o, state)
  {
    if |hs| > 0 {
      var n := |hs| - 1;
      var init := hs[..n];
      assert forall i :: 0 <= i < n ==> init[i] == hs[i];
      FlushRoundAt(init, l, o);
      NoneTakes(init, l, o, state);
      StaysAbove(hs[n], FlushRound(init, l).1, o);
      FlushAt(hs[n], FlushRound(init, l).1, o);
    }
  }

  lemma {:induction false} StaysAbove(h: Holder, l: Option<Listed>, o: Order)
    requires Readable(l) && ListNotAbove(l, o) && NotAbove(h, o) && !Under(h, o)
    ensures At(FlushedHolder(h, l).0, o) ==> At(h, o)
  {
  }

  /** Where every device at `o` is due in one state, the list has that state as soon as one has flushed. */
  lemma {:induction false} FlushWritesState(hs: seq<Holder>, l: Option<Listed>, o: Order, state: ContactState)
    requires Readable(l) && ListNotAbove(l, o) && forall i :: 0 <= i < |hs| ==> NotAbove(hs[i], o)
    requires state != PendingIncoming && AllIn(hs, o, state)
    requires forall i :: 0 <= i < |hs| && At(hs[i], o) ==> hs[i].contact.value.dueAt.Some?
    ensures AnyAt(hs, o) ==> ListAt(FlushRound(hs, l).1, o) && StateIn(FlushRound(hs, l).1) == state
  {
    if |hs| > 0 {
      var n := |hs| - 1;
      var init := hs[..n];
      assert forall i :: 0 <= i < n ==> init[i] == hs[i];
      FlushRoundAt(init, l, o);
      FlushWritesState(init, l, o, state);
      FlushAt(hs[n], FlushRound(init, l).1, o);
      if AnyAt(hs, o) && !At(hs[n], o) {
        var i :| 0 <= i < |hs| && At(hs[i], o);
        assert At(init[i], o);
      }
    }
  }

  /** The greatest order is where the list ends. */
  lemma {:induction false} TopIsReached(hs: seq<Holder>, l: Option<Listed>, dueAt: int, o: Order)
    requires Readable(l) && IsTop(hs, l, o)
    ensures ListAt(Rounds(hs, l, dueAt).1, o)
  {
    RoundsConverge(hs, l, dueAt);
    var l' := Rounds(hs, l, dueAt).1;
    if ListAt(l, o) {
      assert Covers(l', o);
    } else {
      var i :| 0 <= i < |hs| && Publishable(hs[i]) && o == HolderOrder(hs[i]);
      assert Covers(l', o);
    }
    if From(hs, l, OrderIn(l')) && OrderIn(l') != o {
      OrderIsTotal(o, OrderIn(l'), o);
    }
  }

  /** The first sync's devices: what they have at `o`, and who is still without it. */
  lemma {:induction false} SyncRoundAt(hs: seq<Holder>, l: Option<Listed>, dueAt: int, o: Order)
    requires Readable(l) && ListNotAbove(l, o) && forall i :: 0 <= i < |hs| ==> NotAbove(hs[i], o)
    ensures var a := SyncRound(hs, l, dueAt);
            forall i :: 0 <= i < |hs| ==>
              && NotAbove(a[i], o)
              && (At(hs[i], o) ==> At(a[i], o) && a[i].contact.value.state == hs[i].contact.value.state)
              && (ListAt(l, o) && Under(hs[i], o) ==> At(a[i], o) && a[i].contact.value.state == StateIn(l))
              && (At(a[i], o) ==> At(hs[i], o) || (ListAt(l, o) && Under(hs[i], o)))
              && (At(hs[i], o) && Publishable(hs[i]) && !(ListAt(l, o) && StateIn(l) == hs[i].contact.value.state)
                  ==> a[i].contact.value.dueAt.Some?)
              && (Under(a[i], o) ==> Under(hs[i], o))
  {
    forall i | 0 <= i < |hs| ensures SyncRound(hs, l, dueAt)[i] == Synced(hs[i], l, dueAt) {
      SyncAt(hs[i], l, dueAt, o);
    }
    forall i | 0 <= i < |hs| {
      SyncAt(hs[i], l, dueAt, o);
    }
  }

  /** A device at the greatest order keeps its state through the rounds, and one without it takes the
      list's where the list is at it. */
  lemma {:induction false} StatesKept(hs: seq<Holder>, l: Option<Listed>, dueAt: int, o: Order, i: nat)
    requires Readable(l) && IsTop(hs, l, o) && i < |hs|
    ensures |Rounds(hs, l, dueAt).0| == |hs|
    ensures var h' := Rounds(hs, l, dueAt).0[i];
            && (At(hs[i], o) ==> At(h', o) && h'.contact.value.state == hs[i].contact.value.state)
            && (ListAt(l, o) && Under(hs[i], o) ==> At(h', o) && h'.contact.value.state == StateIn(l))
  {
    var a := SyncRound(hs, l, dueAt);
    SyncRoundAt(hs, l, dueAt, o);
    FlushRoundAt(a, l, o);
    var (b, l') := FlushRound(a, l);
    SyncAt(b[i], l', dueAt, o);
  }

  /** What the flushes leave the list and the devices with, where the start agrees. */
  lemma {:induction false} FlushedAgree(hs: seq<Holder>, l: Option<Listed>, dueAt: int, o: Order)
    requires Readable(l) && IsTop(hs, l, o) && AgreeAtTop(hs, l, o)
    ensures var (b, l') := FlushRound(SyncRound(hs, l, dueAt), l);
            Readable(l') && ListNotAbove(l', o) && (ListAt(l', o) ==> AllIn(b, o, StateIn(l')))
  {
    var a := SyncRound(hs, l, dueAt);
    SyncRoundAt(hs, l, dueAt, o);
    FlushRoundAt(a, l, o);
    if ListAt(l, o) && !AllIn(hs, o, StateIn(l)) {
      var i :| 0 <= i < |hs| && At(hs[i], o) && hs[i].contact.value.state != StateIn(l);
      assert At(a[i], o) && AnyAt(a, o);
      FlushWritesState(a, l, o, hs[i].contact.value.state);
      NoneTakes(a, l, o, hs[i].contact.value.state);
    } else if ListAt(l, o) {
      FlushKeepsState(a, l, o, StateIn(l));
    } else {
      var i :| 0 <= i < |hs| && Publishable(hs[i]) && o == HolderOrder(hs[i]);
      assert At(hs[i], o);
      FlushKeepsState(a, l, o, hs[i].contact.value.state);
    }
  }

  /** Exactly when the devices come to agree on the contact's state and not its order alone: the devices
      that start at the greatest order that may be written have it in one state, which is the list's where
      the list starts at that order too, or replaces the list's before any device can take it. */
  lemma {:induction false} StatesAgreeExactly(hs: seq<Holder>, l: Option<Listed>, dueAt: int, o: Order)
    requires Readable(l) && IsTop(hs, l, o)
    ensures var (hs', l') := Rounds(hs, l, dueAt); AllAgree(hs', l', o) <==> AgreeAtTop(hs, l, o)
  {
    TopIsReached(hs, l, dueAt, o);
    if AgreeAtTop(hs, l, o) {
      AgreeingStartsAgree(hs, l, dueAt, o);
    } else {
      OthersDoNot(hs, l, dueAt, o);
    }
  }

  lemma {:induction false} AgreeingStartsAgree(hs: seq<Holder>, l: Option<Listed>, dueAt: int, o: Order)
    requires Readable(l) && IsTop(hs, l, o) && AgreeAtTop(hs, l, o)
    ensures var (hs', l') := Rounds(hs, l, dueAt); AllAgree(hs', l', o)
  {
    RoundsConverge(hs, l, dueAt);
    TopIsReached(hs, l, dueAt, o);
    FlushedAgree(hs, l, dueAt, o);
    var (b, l') := FlushRound(SyncRound(hs, l, dueAt), l);
    var hs' := Rounds(hs, l, dueAt).0;
    forall i | 0 <= i < |hs'| && HolderOrder(hs'[i]) == o ensures hs'[i].contact.value.state == StateIn(l') {
      SyncAt(b[i], l', dueAt, o);
      assert hs'[i] == Synced(b[i], l', dueAt);
    }
  }

  lemma {:induction false} OthersDoNot(hs: seq<Holder>, l: Option<Listed>, dueAt: int, o: Order)
    requires Readable(l) && IsTop(hs, l, o) && !AgreeAtTop(hs, l, o)
    ensures var (hs', l') := Rounds(hs, l, dueAt); !AllAgree(hs', l', o)
  {
    RoundsConverge(hs, l, dueAt);
    forall i | 0 <= i < |hs|
      ensures var h' := Rounds(hs, l, dueAt).0[i];
              && (At(hs[i], o) ==> At(h', o) && h'.contact.value.state == hs[i].contact.value.state)
              && (ListAt(l, o) && Under(hs[i], o) ==> At(h', o) && h'.contact.value.state == StateIn(l))
    {
      StatesKept(hs, l, dueAt, o, i);
    }
    OrderIsTotal(o, o, o);
  }

  /** Each order stands for one state among the devices and in the list. */
  ghost predicate OneState(hs: seq<Holder>, l: Option<Listed>, f: Order -> ContactState) {
    && (forall i :: 0 <= i < |hs| && hs[i].contact.Some? ==> hs[i].contact.value.state == f(HolderOrder(hs[i])))
    && (l.Some? && l.value.entry.Some? ==> StateIn(l) == f(OrderIn(l)))
  }

  /** So where each order has one state, every device ends with the list's state, or a later request of the
      other person. */
  lemma {:induction false} StatesConverge(hs: seq<Holder>, l: Option<Listed>, dueAt: int, o: Order, f: Order -> ContactState)
    requires Readable(l) && IsTop(hs, l, o) && OneState(hs, l, f)
    ensures var (hs', l') := Rounds(hs, l, dueAt); AllAgree(hs', l', o)
  {
    StatesAgreeExactly(hs, l, dueAt, o);
  }

  // ----- equal orders in different states -----

  function ManyRounds(hs: seq<Holder>, l: Option<Listed>, dueAt: int, n: nat): (seq<Holder>, Option<Listed>) {
    if n == 0 then (hs, l)
    else
      var before := ManyRounds(hs, l, dueAt, n - 1);
      Rounds(before.0, before.1, dueAt)
  }

  /** Every device, and the list, at one order. */
  ghost predicate Tied(hs: seq<Holder>, l: Option<Listed>, o: Order) {
    && l.Some? && l.value.entry.Some? && OrderIn(l) == o && l.value.entry.value.state != PendingIncoming
    && forall i :: 0 <= i < |hs| ==> hs[i].contact.Some? && HolderOrder(hs[i]) == o
  }

  /** What agrees is the order, not always the state: devices that hold one order in different states
      keep them through any number of rounds. */
  lemma {:induction false} TiedStatesStay(hs: seq<Holder>, l: Option<Listed>, dueAt: int, n: nat, o: Order)
    requires Tied(hs, l, o)
    ensures var (hs', l') := ManyRounds(hs, l, dueAt, n);
            && |hs'| == |hs| && Tied(hs', l', o)
            && forall i :: 0 <= i < |hs| ==> hs'[i].contact.value.state == hs[i].contact.value.state
  {
    if n > 0 {
      TiedStatesStay(hs, l, dueAt, n - 1, o);
      var (hs1, l1) := ManyRounds(hs, l, dueAt, n - 1);
      TiedSync(hs1, l1, dueAt, o);
      var a := SyncRound(hs1, l1, dueAt);
      TiedFlush(a, l1, o);
      var (b, l2) := FlushRound(a, l1);
      TiedSync(b, l2, dueAt, o);
    }
  }

  lemma {:induction false} TiedSync(hs: seq<Holder>, l: Option<Listed>, dueAt: int, o: Order)
    requires Tied(hs, l, o)
    ensures var hs' := SyncRound(hs, l, dueAt);
            Tied(hs', l, o) && forall i :: 0 <= i < |hs| ==> hs'[i].contact.value.state == hs[i].contact.value.state
  {
  }

  lemma {:induction false} TiedFlush(hs: seq<Holder>, l: Option<Listed>, o: Order)
    requires Tied(hs, l, o)
    ensures var (hs', l') := FlushRound(hs, l);
            && Tied(hs', l', o)
            && forall i :: 0 <= i < |hs| ==> hs'[i].contact.value.state == hs[i].contact.value.state
  {
    if |hs| > 0 {
      var init := hs[..|hs| - 1];
      assert forall i :: 0 <= i < |init| ==> init[i] == hs[i];
      TiedFlush(init, l, o);
    }
  }
}
