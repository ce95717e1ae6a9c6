/** Several devices of one account and its list, one request at a time in any order: each works from
    its own copy of the list, and writes over the revision that copy has. */
module ContactListWorld {
  import opened Common
  import opened ContactList
  import opened ContactListSync

  datatype Device = Device(contacts: map<Peer, Contact>, known: map<Peer, Known>, copy: List)

  /** `gone[i]` are the entries other devices removed from the list since device `i` last read it. */
  datatype World = World(devices: seq<Device>, list: List, cap: nat, gone: seq<set<Peer>>)

  datatype Event =
    | Change(i: nat, p: Peer, contact: Contact)    // the person's choice, a message's effect, another device's control
    | Learned(i: nat, p: Peer, known: Known)       // a profile key or a verification, learned here
    | ReadList(i: nat)
    | Follow(i: nat, p: Peer)                      // takes the contact from the copy, when newer there
    | Attempt(i: nat, p: Peer)                     // one try of a flush
    | Evict(i: nat, p: Peer)                       // makes room

  predicate Shaped(w: World) {
    |w.gone| == |w.devices|
  }

  function KnownBy(d: Device, p: Peer): Known {
    if p in d.known then d.known[p] else Known(None, None)
  }

  function StepOf(d: Device, p: Peer): Step
    requires p in d.contacts
  {
    StepFor(d.contacts[p], KnownBy(d, p), Get(d.copy, p))
  }

  ghost predicate Enabled(w: World, e: Event) {
    && Shaped(w)
    && e.i < |w.devices|
    && var d := w.devices[e.i];
       match e
       case Change(_, p, c) => p in d.contacts ==> AtMost(OrderOf(d.contacts[p]), OrderOf(c))
       case Learned(_, _, _) => true
       case ReadList(_) => true
       case Follow(_, _) => true
       case Attempt(_, p) => p in d.contacts
       case Evict(_, p) => GoesFirst(d.copy, p)
  }

  function Read(w: World, i: nat): World
    requires Shaped(w) && i < |w.devices|
  {
    w.(devices := w.devices[i := w.devices[i].(copy := w.list)], gone := w.gone[i := {}])
  }

  function TakeInto(d: Device, p: Peer, c: Contact, key: Option<string>): Device {
    d.(contacts := d.contacts[p := c], known := d.known[p := Learn(KnownBy(d, p), key)])
  }

  function Next(w: World, e: Event): World
    requires Enabled(w, e)
  {
    var d := w.devices[e.i];
    match e
    case Change(i, p, c) => w.(devices := w.devices[i := d.(contacts := d.contacts[p := c])])
    case Learned(i, p, k) => w.(devices := w.devices[i := d.(known := d.known[p := k])])
    case ReadList(i) => Read(w, i)
    case Follow(i, p) =>
      if Newer(Get(d.contacts, p), Get(d.copy, p)) then
        var entry := d.copy[p].entry.value;
        w.(devices := w.devices[i := TakeInto(d, p, RecordOf(entry), entry.profileKey)])
      else w
    case Attempt(i, p) =>
      (match StepOf(d, p)
       case Nothing => w.(devices := w.devices[i := d.(contacts := d.contacts[p := d.contacts[p].(dueAt := None)])])
       case Take(c, key) => w.(devices := w.devices[i := TakeInto(d, p, c, key)])
       case Write(entry) =>
         var base := RevisionIn(d.copy, p);
         var written := Listed(base + 1, Some(entry));
         match Store(w.list, w.cap, p, base)
         case Conflict => Read(w, i)
         case Full => w
         case Stored =>
           var contact := d.contacts[p].(dueAt := None);
           w.(devices := w.devices[i := d.(contacts := d.contacts[p := contact], copy := d.copy[p := written])],
              list := w.list[p := written]))
    case Evict(i, p) =>
      if Deletes(w.list, p, d.copy[p].revision) then
        w.(devices := w.devices[i := d.(copy := d.copy - {p})],
           list := w.list - {p},
           gone := seq(|w.gone|, j requires 0 <= j < |w.gone| => if j == i then w.gone[j] - {p} else w.gone[j] + {p}))
      else Read(w, i)
  }

  /** Every copy is the list as it was: an entry not removed since is there still, never at an earlier
      revision, and at the same revision it is the same entry. */
  ghost predicate Inv(w: World) {
    && Shaped(w)
    && forall i, p :: 0 <= i < |w.devices| ==> Fresh(w, i, p)
  }

  predicate Fresh(w: World, i: nat, p: Peer)
    requires Shaped(w) && i < |w.devices|
  {
    var copied := Get(w.devices[i].copy, p);
    var now := Get(w.list, p);
    copied.Some? && p !in w.gone[i] ==>
      && now.Some?
      && copied.value.revision <= now.value.revision
      && (copied.value.revision == now.value.revision ==> copied.value == now.value)
  }

  lemma {:induction false} EventKeepsInv(w: World, e: Event)
    requires Inv(w) && Enabled(w, e)
    ensures Inv(Next(w, e))
  {
    var w' := Next(w, e);
    forall i, p | 0 <= i < |w'.devices| ensures Fresh(w', i, p) {
      assert Fresh(w, i, p) && Fresh(w, e.i, p);
      match e {
        case Attempt(_, _) => AttemptKeepsFresh(w, e, i, p);
        case Evict(_, _) => EvictKeepsFresh(w, e, i, p);
        case _ =>
      }
    }
  }

  lemma {:induction false} AttemptKeepsFresh(w: World, e: Event, i: nat, p: Peer)
    requires Enabled(w, e) && e.Attempt? && i < |w.devices| && Fresh(w, i, p) && Fresh(w, e.i, p)
    ensures |Next(w, e).devices| == |w.devices| && Fresh(Next(w, e), i, p)
  {
  }

  lemma {:induction false} EvictKeepsFresh(w: World, e: Event, i: nat, p: Peer)
    requires Enabled(w, e) && e.Evict? && i < |w.devices| && Fresh(w, i, p) && Fresh(w, e.i, p)
    ensures |Next(w, e).devices| == |w.devices| && Fresh(Next(w, e), i, p)
  {
  }

  /** Whatever happens, no device's own record of a contact is lost or falls in the order. */
  lemma {:induction false} RecordsNeverFall(w: World, e: Event, i: nat, p: Peer)
    requires Enabled(w, e) && i < |w.devices| && p in w.devices[i].contacts
    ensures var w' := Next(w, e);
            && |w'.devices| == |w.devices|
            && p in w'.devices[i].contacts
            && AtMost(OrderOf(w.devices[i].contacts[p]), OrderOf(w'.devices[i].contacts[p]))
  {
  }

  predicate ListedAt(l: List, p: Peer) {
    p in l && l[p].entry.Some?
  }

  /** The listed entry of `p` falls in the order, or its later version's is lost. */
  predicate Falls(before: List, after: List, p: Peer) {
    && p in before && p in after
    && if before[p].entry.None? then after[p] != before[p]
       else after[p].entry.None? || !AtMost(EntryOrder(before[p].entry.value), EntryOrder(after[p].entry.value))
  }

  /** Exactly when a try makes the listed entry fall: the list has another entry at the very revision
      this device's copy has, one above what the device holds or of a later version. */
  lemma {:induction false} FallsExactly(w: World, i: nat, p: Peer)
    requires Enabled(w, Attempt(i, p)) && p in w.list
    ensures var d := w.devices[i];
            Falls(w.list, Next(w, Attempt(i, p)).list, p) <==>
              && StepOf(d, p).Write?
              && p in d.copy && d.copy[p].revision == w.list[p].revision
              && (w.list[p].entry.None? || Below(OrderOf(d.contacts[p]), EntryOrder(w.list[p].entry.value)))
  {
  }

  /** That takes an entry removed, and made anew, since the device read the list: otherwise a write
      never lowers what the list says, nor touches an entry of a later version. */
  lemma {:induction false} FallsOnlyAfterRemoval(w: World, i: nat, p: Peer)
    requires Inv(w) && Enabled(w, Attempt(i, p)) && p in w.list
    ensures Falls(w.list, Next(w, Attempt(i, p)).list, p) ==> p in w.gone[i]
  {
    FallsExactly(w, i, p);
    assert Fresh(w, i, p);
  }

  /** No block is removed to make room, unless the entry was removed and made anew since the device
      read the list. */
  lemma {:induction false} NoBlockMakesRoom(w: World, i: nat, p: Peer)
    requires Inv(w) && Enabled(w, Evict(i, p))
    ensures p in w.list && p !in Next(w, Evict(i, p)).list && p !in w.gone[i]
            ==> w.list[p].entry.Some? && (w.list[p].entry.value.state == Rejected || w.list[p].entry.value.state == PendingOutgoing)
  {
    assert Fresh(w, i, p);
  }

  ghost predicate Run(ws: seq<World>, es: seq<Event>) {
    && |ws| == |es| + 1
    && Inv(ws[0])
    && forall k :: 0 <= k < |es| ==> StepAt(ws, es, k)
  }

  ghost predicate StepAt(ws: seq<World>, es: seq<Event>, k: nat)
    requires k < |es| && |ws| == |es| + 1
  {
    Enabled(ws[k], es[k]) && ws[k + 1] == Next(ws[k], es[k])
  }

  /** The event writes or removes nothing that was removed since its device read the list. */
  predicate HasReadSince(w: World, e: Event) {
    (e.Attempt? || e.Evict?) && e.i < |w.gone| ==> e.p !in w.gone[e.i]
  }

  /** No device writes or removes an entry that was removed since it read the list: it reads first. */
  ghost predicate ReadsAfterRemovals(ws: seq<World>, es: seq<Event>)
    requires |ws| == |es| + 1
  {
    forall k :: 0 <= k < |es| ==> HasReadSince(ws[k], es[k])
  }

  /** A block in the list, at its order. */
  predicate BlockedAt(l: List, p: Peer, o: Order) {
    ListedAt(l, p) && l[p].entry.value.state == Blocked && EntryOrder(l[p].entry.value) == o
  }

  lemma {:induction false} RunInv(ws: seq<World>, es: seq<Event>, n: nat)
    requires Run(ws, es) && n < |ws|
    ensures Inv(ws[n])
  {
    if n > 0 {
      RunInv(ws, es, n - 1);
      assert StepAt(ws, es, n - 1);
      EventKeepsInv(ws[n - 1], es[n - 1]);
    }
  }

  /** What `after` lists of the contact is no earlier than what `before` does; an entry of a later version
      is as it was. */
  predicate NoEarlier(before: List, after: List, p: Peer)
    requires p in before && p in after
  {
    if before[p].entry.None? then after[p] == before[p]
    else after[p].entry.Some? && AtMost(EntryOrder(before[p].entry.value), EntryOrder(after[p].entry.value))
  }

  lemma {:induction false} StepNeverFalls(w: World, e: Event, p: Peer)
    requires Inv(w) && Enabled(w, e) && HasReadSince(w, e)
    requires p in w.list && p in Next(w, e).list
    ensures NoEarlier(w.list, Next(w, e).list, p)
  {
    if e.Attempt? && e.p == p {
      FallsOnlyAfterRemoval(w, e.i, p);
    }
  }

  /** Over any such run, whatever the devices interleave, what is listed of a contact never falls while it
      stays listed, nor does an entry of a later version change. */
  lemma {:induction false} ListedNeverFalls(ws: seq<World>, es: seq<Event>, p: Peer, j: nat, k: nat)
    requires Run(ws, es) && ReadsAfterRemovals(ws, es) && j <= k < |ws|
    requires forall m :: j <= m <= k ==> p in ws[m].list
    ensures NoEarlier(ws[j].list, ws[k].list, p)
  {
    if j < k {
      ListedNeverFalls(ws, es, p, j, k - 1);
      RunInv(ws, es, k - 1);
      assert StepAt(ws, es, k - 1) && HasReadSince(ws[k - 1], es[k - 1]);
      StepNeverFalls(ws[k - 1], es[k - 1], p);
      NoEarlierStill(ws[j].list, ws[k - 1].list, ws[k].list, p);
    }
  }

  lemma {:induction false} NoEarlierStill(a: List, b: List, c: List, p: Peer)
    requires p in a && p in b && p in c && NoEarlier(a, b, p) && NoEarlier(b, c, p)
    ensures NoEarlier(a, c, p)
  {
  }

  /** Nor does any device's own record of a contact, over any run at all. */
  lemma {:induction false} RecordsNeverFallInRuns(ws: seq<World>, es: seq<Event>, i: nat, p: Peer, j: nat, k: nat)
    requires Run(ws, es) && j <= k < |ws| && i < |ws[j].devices| && p in ws[j].devices[i].contacts
    ensures i < |ws[k].devices| && p in ws[k].devices[i].contacts
    ensures AtMost(OrderOf(ws[j].devices[i].contacts[p]), OrderOf(ws[k].devices[i].contacts[p]))
  {
    if j < k {
      RecordsNeverFallInRuns(ws, es, i, p, j, k - 1);
      assert StepAt(ws, es, k - 1);
      RecordsNeverFall(ws[k - 1], es[k - 1], i, p);
    }
  }

  /** Over a run as above a listed block is never removed, and what is listed of the contact never falls
      below it. */
  lemma {:induction false} BlocksStay(ws: seq<World>, es: seq<Event>, p: Peer, o: Order, n: nat)
    requires Run(ws, es) && ReadsAfterRemovals(ws, es) && n < |ws|
    requires BlockedAt(ws[0].list, p, o)
    requires forall k :: 0 <= k < |ws| && ListedAt(ws[k].list, p) ==> EntryOrder(ws[k].list[p].entry.value).revision <= o.revision
    ensures var l := ws[n].list; ListedAt(l, p) && l[p].entry.value.state == Blocked && AtMost(o, EntryOrder(l[p].entry.value))
  {
    if n > 0 {
      BlocksStay(ws, es, p, o, n - 1);
      RunInv(ws, es, n - 1);
      assert StepAt(ws, es, n - 1);
      BlockStays(ws[n - 1], es[n - 1], p, o);
    }
  }

  lemma {:induction false} BlockStays(w: World, e: Event, p: Peer, o: Order)
    requires Inv(w) && Enabled(w, e)
    requires (e.Attempt? || e.Evict?) ==> e.p !in w.gone[e.i]
    requires ListedAt(w.list, p) && w.list[p].entry.value.state == Blocked && AtMost(o, EntryOrder(w.list[p].entry.value)) && o.blocked
    requires ListedAt(Next(w, e).list, p) ==> EntryOrder(Next(w, e).list[p].entry.value).revision <= o.revision
    ensures var l := Next(w, e).list;
            ListedAt(l, p) && l[p].entry.value.state == Blocked && AtMost(o, EntryOrder(l[p].entry.value))
  {
    if e.Attempt? && e.p == p {
      FallsOnlyAfterRemoval(w, e.i, p);
    } else if e.Evict? {
      NoBlockMakesRoom(w, e.i, e.p);
    }
  }

  // ----- where a write can undo a block -----

  const REJECTED := Contact(Rejected, None, 1, 5, 0, None)
  const BLOCKED := Contact(Blocked, Some(Rejected), 2, 7, 1, None)
  const KEYED := Known(Some("key"), None)

  const UNKNOWN := Known(None, None)
  const OTHER := Device(map[1 := REJECTED], map[1 := KEYED], Holding(1, REJECTED))

  /** The list with one entry, first written, of a contact. */
  function Holding(p: Peer, c: Contact): List {
    map[p := Listed(1, Some(EntryOf(c, UNKNOWN, None)))]
  }

  function Stage(one: Contact, list: List, gone: set<Peer>): World {
    World([Device(map[1 := one, 2 := REJECTED], map[], list), OTHER], list, 1, [{}, gone])
  }

  /** A list of one place, two devices that have just read it; both hold the listed rejection of
      contact 1, and the second a new profile key for it. */
  function Opening(): World {
    Stage(REJECTED, Holding(1, REJECTED), {})
  }

  /** The first device has made room for contact 2, blocked contact 1, and made room for it again. */
  function Middle(): World {
    Stage(BLOCKED, Holding(1, BLOCKED), {1, 2})
  }

  lemma {:induction false} MakesRoom(c: Contact, p: Peer, gone: set<Peer>)
    requires GoesFirst(Holding(p, REJECTED), p)
    ensures var w := Stage(c, Holding(p, REJECTED), gone);
            Enabled(w, Evict(0, p)) && Next(w, Evict(0, p)) == Stage(c, map[], gone + {p})
  {
    var w := Stage(c, Holding(p, REJECTED), gone);
    var next := Next(w, Evict(0, p));
    assert next.list == map[] && next.devices[0].copy == map[];
    assert |next.gone| == 2 && next.gone[0] == {} && next.gone[1] == gone + {p};
  }

  lemma {:induction false} Writes(c: Contact, p: Peer, gone: set<Peer>)
    requires (p == 1 && c == BLOCKED) || (p == 2 && c == REJECTED)
    ensures var w := Stage(c, map[], gone);
            Enabled(w, Attempt(0, p)) && Next(w, Attempt(0, p)) == Stage(c, Holding(p, c), gone)
  {
    var w := Stage(c, map[], gone);
    var d := w.devices[0];
    assert d.contacts[p] == c && StepOf(d, p) == Write(EntryOf(c, UNKNOWN, None));
    assert map[][p := Listed(1, Some(EntryOf(c, UNKNOWN, None)))] == Holding(p, c);
    assert d.contacts[p := c] == d.contacts;
  }

  lemma {:induction false} Blocks(list: List, gone: set<Peer>)
    ensures var w := Stage(REJECTED, list, gone);
            Enabled(w, Change(0, 1, BLOCKED)) && Next(w, Change(0, 1, BLOCKED)) == Stage(BLOCKED, list, gone)
  {
    var (w, w') := (Stage(REJECTED, list, gone), Stage(BLOCKED, list, gone));
    assert w.devices[0].contacts[1 := BLOCKED] == w'.devices[0].contacts;
    assert w.devices[0].(contacts := w'.devices[0].contacts) == w'.devices[0];
    assert w.devices[0 := w'.devices[0]] == w'.devices;
  }

  lemma {:induction false} OneMore(ws: seq<World>, es: seq<Event>, e: Event, w: World)
    requires Run(ws, es) && Enabled(ws[|es|], e) && Next(ws[|es|], e) == w
    ensures Run(ws + [w], es + [e])
  {
    forall k | 0 <= k < |es| + 1 ensures StepAt(ws + [w], es + [e], k) {
      assert k < |es| ==> StepAt(ws, es, k);
    }
  }

  lemma {:induction false} ToTheMiddle() returns (ws: seq<World>, es: seq<Event>)
    ensures Run(ws, es) && |es| == 5 && ws[5] == Middle()
  {
    var (g1, g2) := ({} + {1}, {} + {1} + {2});
    var (w0, w1, w2) := (Opening(), Stage(REJECTED, map[], g1), Stage(REJECTED, Holding(2, REJECTED), g1));
    var (w3, w4, w5) := (Stage(BLOCKED, Holding(2, REJECTED), g1), Stage(BLOCKED, map[], g2), Stage(BLOCKED, Holding(1, BLOCKED), g2));
    assert Run([w0], []);
    assert Run([w0, w1], [Evict(0, 1)]) by {
      OnlyRejection(Holding(1, REJECTED), 1);
      MakesRoom(REJECTED, 1, {});
      OneMore([w0], [], Evict(0, 1), w1);
    }
    ws, es := [w0, w1], [Evict(0, 1)];
    assert Run(ws + [w2], es + [Attempt(0, 2)]) by {
      Writes(REJECTED, 2, g1);
      OneMore(ws, es, Attempt(0, 2), w2);
    }
    ws, es := ws + [w2], es + [Attempt(0, 2)];
    assert Run(ws + [w3], es + [Change(0, 1, BLOCKED)]) by {
      Blocks(Holding(2, REJECTED), g1);
      OneMore(ws, es, Change(0, 1, BLOCKED), w3);
    }
    ws, es := ws + [w3], es + [Change(0, 1, BLOCKED)];
    assert Run(ws + [w4], es + [Evict(0, 2)]) by {
      OnlyRejection(Holding(2, REJECTED), 2);
      MakesRoom(BLOCKED, 2, g1);
      OneMore(ws, es, Evict(0, 2), w4);
    }
    ws, es := ws + [w4], es + [Evict(0, 2)];
    assert Run(ws + [w5], es + [Attempt(0, 1)]) by {
      Writes(BLOCKED, 1, g2);
      OneMore(ws, es, Attempt(0, 1), w5);
    }
    ws, es := ws + [w5], es + [Attempt(0, 1)];
    assert g2 == {1, 2};
  }

  lemma {:induction false} OnlyRejection(l: List, p: Peer)
    requires l.Keys == {p} && l[p].entry.Some? && l[p].entry.value.state == Rejected
    ensures GoesFirst(l, p)
  {
    assert p in Candidates(l, Rejected);
  }

  /** What the list promises fails where the condition above does. While the second device is between
      reading the list and writing the new profile key, the first makes room twice and blocks the
      contact; the entry starts over at the revision the second one read, so its write is stored, and
      the block in the list is an old rejection again. */
  lemma {:induction false} AStaleWriteUndoesABlock() returns (ws: seq<World>, es: seq<Event>)
    ensures Run(ws, es) && |es| == 6 && es[5] == Attempt(1, 1)
    ensures ListedAt(ws[5].list, 1) && ws[5].list[1].entry.value.state == Blocked
    ensures ListedAt(ws[6].list, 1) && ws[6].list[1].entry.value.state == Rejected
    ensures Falls(ws[5].list, ws[6].list, 1)
  {
    ws, es := ToTheMiddle();
    var last := Attempt(1, 1);
    var w := Next(Middle(), last);
    assert w.list[1].entry.value.state == Rejected;
    OneMore(ws, es, last, w);
    ws, es := ws + [w], es + [last];
  }
}
