/** An account's contact list: what a device's record of a contact and the list's entry say to each
    other, and the list the account's server keeps, one revision per entry. */
module ContactList {
  import opened Common

  /** A contact's account, as the number its entry id sorts by. */
  type Peer = nat

  datatype ContactState = PendingIncoming | PendingOutgoing | Accepted | Rejected | Blocked

  /** What contact states are compared by. */
  datatype Order = Order(revision: nat, blocked: bool, device: nat)

  predicate Below(a: Order, b: Order) {
    || a.revision < b.revision
    || (a.revision == b.revision && !a.blocked && b.blocked)
    || (a.revision == b.revision && a.blocked == b.blocked && a.device < b.device)
  }

  predicate AtMost(a: Order, b: Order) {
    a == b || Below(a, b)
  }

  function ContactOrder(revision: nat, state: ContactState, device: nat): Order {
    Order(revision, state == Blocked, device)
  }

  /** A device's own record of a contact; `dueAt` when its entry waits to be written. */
  datatype Contact = Contact(
    state: ContactState, previous: Option<ContactState>, revision: nat, device: nat,
    updatedAt: int, dueAt: Option<int>)

  datatype Identity = Identity(key: string, verified: bool, updatedAt: int)

  /** What a device knows of a contact beside the record: the profile key, and the pinned identity
      with when it was last verified or cleared (never: 0). */
  datatype Known = Known(profileKey: Option<string>, trust: Option<Identity>)

  datatype Entry = Entry(
    state: ContactState, previous: Option<ContactState>, blockedAt: Option<int>, profileKey: Option<string>,
    revision: nat, device: nat, updatedAt: int, identity: Option<Identity>, unknown: string)

  /** How often an entry was written, from 1 on. */
  type WriteRevision = n: int | n >= 1 witness 1

  /** A listed entry; without one inside, a later version wrote it. */
  datatype Listed = Listed(revision: WriteRevision, entry: Option<Entry>)

  type List = map<Peer, Listed>

  function OrderOf(c: Contact): Order {
    ContactOrder(c.revision, c.state, c.device)
  }

  function EntryOrder(e: Entry): Order {
    ContactOrder(e.revision, e.state, e.device)
  }

  /** The verification to write: this device's when it was set after the listed one. */
  function IdentityOf(trust: Option<Identity>, listed: Option<Identity>): Option<Identity> {
    if trust.Some? && trust.value.updatedAt > 0 && (listed.None? || trust.value.updatedAt > listed.value.updatedAt)
    then trust else listed
  }

  /** The entry to write for a contact, given the one listed. */
  function EntryOf(c: Contact, known: Known, listed: Option<Entry>): Entry {
    var blockedAt :=
      if c.state != Blocked then None
      else if listed.Some? && listed.value.state == Blocked && listed.value.blockedAt.Some? then listed.value.blockedAt
      else Some(c.updatedAt);
    Entry(
      c.state,
      if c.state == Blocked then c.previous else None,
      blockedAt,
      if known.profileKey.Some? then known.profileKey else if listed.Some? then listed.value.profileKey else None,
      c.revision, c.device, c.updatedAt,
      IdentityOf(known.trust, if listed.Some? then listed.value.identity else None),
      if listed.Some? then listed.value.unknown else "")
  }

  /** The record a device starts from a listed entry, with nothing due. */
  function RecordOf(e: Entry): Contact {
    Contact(e.state, e.previous, e.revision, e.device, e.updatedAt, None)
  }

  datatype Step = Nothing | Take(contact: Contact, profileKey: Option<string>) | Write(entry: Entry)

  /** What is left to do for a contact, given its listed entry. */
  function StepFor(c: Contact, known: Known, listed: Option<Listed>): Step {
    if listed.Some? && listed.value.entry.None? then Nothing
    else
      var entry := if listed.Some? then listed.value.entry else None;
      if entry.Some? && Below(OrderOf(c), EntryOrder(entry.value)) then Take(RecordOf(entry.value), entry.value.profileKey)
      else if c.state == PendingIncoming then Nothing
      else
        var made := EntryOf(c, known, entry);
        var same := && entry.Some?
                    && EntryOrder(entry.value) == OrderOf(c)
                    && entry.value.state == made.state
                    && entry.value.previous == made.previous
                    && entry.value.profileKey == made.profileKey
                    && entry.value.identity == made.identity;
        if same then Nothing else Write(made)
  }

  function Get<V>(m: map<Peer, V>, p: Peer): Option<V> {
    if p in m then Some(m[p]) else None
  }

  function RevisionIn(list: List, p: Peer): nat {
    if p in list then list[p].revision else 0
  }

  // ----- the server's list -----

  datatype Answer = Stored | Conflict | Full

  /** A write over the revision it started from: refused when the list has another, or when it is
      a new entry and the list holds as many as it may. */
  function Store(list: List, cap: nat, p: Peer, base: nat): Answer {
    if RevisionIn(list, p) != base then Conflict
    else if base == 0 && |list| >= cap then Full
    else Stored
  }

  /** A removal at the revision read: done, or nothing there; refused at another revision. */
  predicate Deletes(list: List, p: Peer, base: nat) {
    p !in list || list[p].revision == base
  }

  /** The server's table of entries. */
  class ListServer {
    var entries: List
    const cap: nat

    constructor (cap: nat)
      ensures entries == map[] && this.cap == cap
    {
      entries := map[];
      this.cap := cap;
    }

    method StoreEntry(p: Peer, base: nat, revision: WriteRevision, entry: Entry) returns (a: Answer)
      modifies this
      ensures a == Store(old(entries), cap, p, base)
      ensures entries == if a == Stored then old(entries)[p := Listed(revision, Some(entry))] else old(entries)
    {
      if RevisionIn(entries, p) != base {
        return Conflict;
      }
      if base == 0 && |entries| >= cap {
        return Full;
      }
      entries := entries[p := Listed(revision, Some(entry))];
      return Stored;
    }

    method DeleteEntry(p: Peer, base: nat) returns (removed: bool)
      modifies this
      ensures removed == Deletes(old(entries), p, base)
      ensures entries == if removed then old(entries) - {p} else old(entries)
    {
      if p !in entries {
        return true;
      }
      if entries[p].revision != base {
        return false;
      }
      entries := map q | q in entries && q != p :: entries[q];
      return true;
    }
  }

  // ----- which entry makes room -----

  /** Entries of `state` this device can read, that could go. */
  function Candidates(list: List, state: ContactState): set<Peer> {
    set p | p in list && list[p].entry.Some? && list[p].entry.value.state == state
  }

  predicate Older(list: List, p: Peer, q: Peer)
    requires p in list && list[p].entry.Some? && q in list && list[q].entry.Some?
  {
    var (a, b) := (list[p].entry.value.updatedAt, list[q].entry.value.updatedAt);
    a < b || (a == b && p <= q)
  }

  /** The oldest entry of `state`, the first by id among the oldest. */
  ghost predicate IsOldest(list: List, state: ContactState, p: Peer) {
    p in Candidates(list, state) && forall q :: q in Candidates(list, state) ==> Older(list, p, q)
  }

  /** The one that goes: the oldest rejection, or without any the oldest request sent. */
  ghost predicate GoesFirst(list: List, p: Peer) {
    || IsOldest(list, Rejected, p)
    || (Candidates(list, Rejected) == {} && IsOldest(list, PendingOutgoing, p))
  }

  method Oldest(list: List, state: ContactState) returns (found: Option<Peer>)
    ensures found.None? <==> Candidates(list, state) == {}
    ensures found.Some? ==> IsOldest(list, state, found.value)
  {
    found := None;
    var rest := Candidates(list, state);
    while rest != {}
      invariant rest <= Candidates(list, state)
      invariant found.None? <==> rest == Candidates(list, state)
      invariant found.Some? ==>
        && found.value in Candidates(list, state)
        && forall q :: q in Candidates(list, state) && q !in rest ==> Older(list, found.value, q)
      decreases rest
    {
      var p :| p in rest;
      if found.None? || Older(list, p, found.value) {
        found := Some(p);
      }
      rest := rest - {p};
    }
  }

  lemma {:induction false} OrderIsTotal(a: Order, b: Order, c: Order)
    ensures AtMost(a, b) || AtMost(b, a)
    ensures AtMost(a, b) && AtMost(b, a) ==> a == b
    ensures AtMost(a, b) && AtMost(b, c) ==> AtMost(a, c)
    ensures !Below(a, b) <==> AtMost(b, a)
  {
  }
}
