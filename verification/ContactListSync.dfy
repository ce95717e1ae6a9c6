/** A device keeping its contacts in the account's list: writing what is due, taking what is newer. */
module ContactListSync {
  import opened Common
  import opened ContactList
  import opened ContactListTransport

  const FULL_RETRY_MS: int := 30 * 60 * 1000
  const WRITE_DELAY_MAX_MS: int := 10 * 60 * 1000

  // ----- what one contact's flush and sync come to -----

  /** One contact as this device has it, and what the list has for it. */
  datatype Side = Side(contact: Contact, known: Known, listed: Option<Listed>)

  /** A taken entry's profile key is kept when the device has none for the contact. */
  function Learn(known: Known, key: Option<string>): Known {
    if known.profileKey.None? then known.(profileKey := key) else known
  }

  /** A flush of one contact against a list nobody else is changing. */
  function Flushed(s: Side): Side {
    match StepFor(s.contact, s.known, s.listed)
    case Nothing => s.(contact := s.contact.(dueAt := None))
    case Take(c, key) => s.(contact := c, known := Learn(s.known, key))
    case Write(e) => s.(contact := s.contact.(dueAt := None), listed := Some(Listed(RevisionOf(s.listed) + 1, Some(e))))
  }

  /** A verification the list carries is taken when it is later, and of the identity pinned here. */
  function Adopt(known: Known, identity: Option<Identity>): Known {
    if identity.Some? && known.trust.Some? && known.trust.value.key == identity.value.key
       && identity.value.updatedAt > known.trust.value.updatedAt
    then known.(trust := identity) else known
  }

  function RevisionOf(l: Option<Listed>): nat {
    if l.Some? then l.value.revision else 0
  }

  /** What a read of the list makes of one contact: the list's, when it is newer or the device has none. */
  function Followed(c: Option<Contact>, l: Option<Listed>): Option<Contact> {
    if Newer(c, l) then Some(RecordOf(l.value.entry.value)) else c
  }

  predicate Newer(c: Option<Contact>, l: Option<Listed>) {
    l.Some? && l.value.entry.Some? && (c.None? || Below(OrderOf(c.value), EntryOrder(l.value.entry.value)))
  }

  function KnownAfter(known: Known, c: Option<Contact>, l: Option<Listed>): Known {
    if l.None? || l.value.entry.None? then known
    else
      var e := l.value.entry.value;
      var adopted := Adopt(known, e.identity);
      if Newer(c, l) then Learn(adopted, e.profileKey) else adopted
  }

  /** A contact after a read of the list: due when there is something to write of it and it was not due yet. */
  function MadeDue(c: Contact, known: Known, l: Option<Listed>, dueAt: int): Contact {
    if c.dueAt.None? && c.state != PendingIncoming && StepFor(c, known, l).Write? then c.(dueAt := Some(dueAt)) else c
  }

  /** One contact after a sync: what is newer in the list is taken, what the list lacks made due. */
  function SyncedContact(c: Option<Contact>, known: Known, l: Option<Listed>, mine: bool, dueAt: int): Option<Contact> {
    var c' := if mine then c else Followed(c, l);
    if c'.None? then None else Some(MadeDue(c'.value, SyncedKnown(c, known, l, mine), l, dueAt))
  }

  function SyncedKnown(c: Option<Contact>, known: Known, l: Option<Listed>, mine: bool): Known {
    if mine then known else KnownAfter(known, c, l)
  }

  /** The moment an entry is due, put off by `draw` within ten minutes. */
  function FreshDue(now: int, draw: nat): int {
    now + draw % (WRITE_DELAY_MAX_MS + 1)
  }

  /** A write of `p` cannot find the list full. */
  predicate HasRoom(list: List, cap: nat, p: Peer) {
    p in list || |list| < cap
  }

  /** Nothing, or only what is at `p`, has changed. */
  predicate OnlyAt<V(==)>(before: map<Peer, V>, after: map<Peer, V>, p: Peer) {
    after == before || (p in after && after == before[p := after[p]])
  }

  predicate OthersUntouched(before: map<Peer, Contact>, after: map<Peer, Contact>, p: Peer) {
    before.Keys == after.Keys && forall q :: q in before && q != p ==> after[q] == before[q]
  }

  // ----- a write -----

  /** What a write has come to: its answer, none when a request had none, the device's copy and the list. */
  datatype Written = Written(answer: Option<Answer>, copy: List, place: Place)

  /** What reading the list, or making room in it, has come to. */
  datatype Room = Room(done: bool, copy: List, place: Place)

  function Reread(course: Course, l: List, s: Place): Room {
    var answer := ReadAnswer(course, s);
    Room(answer.Some?, if answer.Some? then answer.value else l, AfterRead(course, s))
  }

  /** One request to write over the copy `l`; refused over another revision, the list is read again. */
  function WriteOnce(course: Course, cap: nat, l: List, s: Place, p: Peer, e: Entry): Written {
    var base := RevisionIn(l, p);
    var after := AfterStore(course, cap, s, p, base, base + 1, e);
    match StoreAnswer(course, cap, s, p, base)
    case None => Written(None, l, after)
    case Some(Stored) => Written(Some(Stored), l[p := Listed(base + 1, Some(e))], after)
    case Some(Full) => Written(Some(Full), l, after)
    case Some(Conflict) =>
      var again := Reread(course, l, after);
      Written(if again.done then Some(Conflict) else None, again.copy, again.place)
  }

  /** The entry `v` goes: removed at the revision read, or the list is read again. */
  function RoomBy(course: Course, l: List, s: Place, v: Peer): Room
    requires v in l
  {
    var after := AfterDelete(course, s, v, l[v].revision);
    match DeleteAnswer(course, s, v, l[v].revision)
    case None => Room(false, l, after)
    case Some(removed) => if removed then Room(true, l - {v}, after) else Reread(course, l, after)
  }

  function WriteInRoom(course: Course, cap: nat, room: Room, p: Peer, e: Entry): Written {
    if room.done then WriteOnce(course, cap, room.copy, room.place, p, e) else Written(None, room.copy, room.place)
  }

  /** Everything one write can come to, over the copy `l`: a full list has the first to go removed, once. */
  ghost predicate Wrote(course: Course, cap: nat, l: List, s: Place, p: Peer, e: Entry, w: Written) {
    var first := WriteOnce(course, cap, l, s, p, e);
    if first.answer == Some(Full) && exists v :: GoesFirst(l, v) then
      exists v :: GoesFirst(l, v) && w == WriteInRoom(course, cap, RoomBy(course, l, first.place, v), p, e)
    else w == first
  }

  lemma {:induction false} WroteInRoom(course: Course, cap: nat, l: List, s: Place, p: Peer, e: Entry, v: Peer)
    requires WriteOnce(course, cap, l, s, p, e).answer == Some(Full) && GoesFirst(l, v)
    ensures var room := RoomBy(course, l, WriteOnce(course, cap, l, s, p, e).place, v);
            Wrote(course, cap, l, s, p, e, WriteInRoom(course, cap, room, p, e))
  {
  }

  lemma {:induction false} WriteWithRoom(course: Course, cap: nat, s: Place, p: Peer, e: Entry, w: Written)
    requires Wrote(course, cap, s.entries, s, p, e, w) && HasRoom(s.entries, cap, p) && Quiet(course, s.asked)
    ensures var list := s.entries[p := Listed(RevisionIn(s.entries, p) + 1, Some(e))];
            w == Written(Some(Stored), list, Place(list, s.asked + 1)) && Quiet(course, s.asked + 1)
  {
    QuietNow(course, s);
  }

  lemma {:induction false} OnceIsCopied(course: Course, cap: nat, l: List, s: Place, p: Peer, e: Entry)
    ensures var w := WriteOnce(course, cap, l, s, p, e);
            w.answer == Some(Stored) ==> IsCopied(w.copy, p, e)
  {
  }

  predicate IsCopied(copy: List, p: Peer, e: Entry) {
    p in copy && copy[p].entry == Some(e)
  }

  /** A write that was answered and went through is in the copy. */
  lemma {:induction false} StoredIsCopied(course: Course, cap: nat, l: List, s: Place, p: Peer, e: Entry, w: Written)
    requires Wrote(course, cap, l, s, p, e, w) && w.answer == Some(Stored)
    ensures IsCopied(w.copy, p, e)
  {
    OnceIsCopied(course, cap, l, s, p, e);
    var first := WriteOnce(course, cap, l, s, p, e);
    if w != first {
      var v :| GoesFirst(l, v) && w == WriteInRoom(course, cap, RoomBy(course, l, first.place, v), p, e);
      InRoomIsCopied(course, cap, RoomBy(course, l, first.place, v), p, e);
    }
  }

  lemma {:induction false} InRoomIsCopied(course: Course, cap: nat, room: Room, p: Peer, e: Entry)
    ensures var w := WriteInRoom(course, cap, room, p, e);
            w.answer == Some(Stored) ==> IsCopied(w.copy, p, e)
  {
    OnceIsCopied(course, cap, room.copy, room.place, p, e);
  }

  /** What a contact no longer due is: another person's request, or listed as it is, or for a later version
      to write. */
  predicate IsListed(c: Contact, l: Option<Listed>) {
    || c.state == PendingIncoming
    || (l.Some? && (l.value.entry.None? || EntryOrder(l.value.entry.value) == OrderOf(c)))
  }

  /** No contact is lost nor falls in the order, and only those of `done` have changed, which are then due
      no more. */
  predicate Rose(before: map<Peer, Contact>, after: map<Peer, Contact>, done: set<Peer>) {
    && after.Keys == before.Keys
    && (forall p :: p in before ==> AtMost(OrderOf(before[p]), OrderOf(after[p])))
    && (forall p :: p in before ==> after[p] == before[p] || (p in done && after[p].dueAt.None?))
  }

  lemma {:induction false} RoseMore(before: map<Peer, Contact>, mid: map<Peer, Contact>, after: map<Peer, Contact>, done: set<Peer>, p: Peer)
    requires Rose(before, mid, done) && p in mid && OthersUntouched(mid, after, p) && AtMost(OrderOf(mid[p]), OrderOf(after[p]))
    requires after[p] == mid[p] || after[p].dueAt.None?
    ensures Rose(before, after, done + {p})
  {
  }

  /** One try of a contact: done with, to be made once more over the list as read again, or broken off. */
  datatype Try = Done(answer: Answer) | Again | Broken

  lemma {:induction false} NoneGoes(l: List)
    requires Candidates(l, Rejected) == {} && Candidates(l, PendingOutgoing) == {}
    ensures !exists v :: GoesFirst(l, v)
  {
  }

  lemma {:induction false} OneThrough(due: set<Peer>, before: set<Peer>, p: Peer, all: set<Peer>)
    requires due !! before && due + before == all && p in due
    ensures p in all - before && before <= all && due - {p} < due
    ensures (due - {p}) !! (before + {p}) && (due - {p}) + (before + {p}) == all
  {
  }

  lemma {:induction false} RoseFor(before: map<Peer, Contact>, after: map<Peer, Contact>, done: set<Peer>, due: set<Peer>)
    requires Rose(before, after, done) && done <= due
    ensures Rose(before, after, due)
  {
  }

  /** What a device keeps of its contacts, and what the server has. */
  datatype All = All(contacts: map<Peer, Contact>, known: map<Peer, Known>, entries: List)

  function KnownIn(known: map<Peer, Known>, p: Peer): Known {
    if p in known then known[p] else Known(None, None)
  }

  function SideIn(all: All, p: Peer): Side
    requires p in all.contacts
  {
    Side(all.contacts[p], KnownIn(all.known, p), Get(all.entries, p))
  }

  /** The contact's entry is settled: the list and the device have what a flush makes of them, and
      nothing else has changed. */
  predicate Settled(before: All, after: All, p: Peer) {
    && p in before.contacts && p in after.contacts
    && SideIn(after, p) == Flushed(SideIn(before, p))
    && OthersUntouched(before.contacts, after.contacts, p)
    && OnlyAt(before.entries, after.entries, p)
    && OnlyAt(before.known, after.known, p)
  }

  /** The flush of `done` is behind: those are as a flush makes them, all else is as it was. */
  ghost predicate FlushedAll(all: All, done: set<Peer>, was: map<Peer, Side>, entries: List) {
    && all.contacts.Keys == was.Keys
    && (forall p :: p in all.contacts ==> SideIn(all, p) == if p in done then Flushed(was[p]) else was[p])
    && (forall p :: p !in all.contacts ==> Get(all.entries, p) == Get(entries, p))
    && all.entries.Keys <= entries.Keys + done
  }

  lemma {:induction false} SettledOthers(before: All, after: All, p: Peer)
    requires Settled(before, after, p)
    ensures forall q :: q != p ==> Get(after.entries, q) == Get(before.entries, q) && KnownIn(after.known, q) == KnownIn(before.known, q)
    ensures after.entries.Keys <= before.entries.Keys + {p}
  {
  }

  lemma {:induction false} SettledIsFlushed(before: All, after: All, p: Peer, done: set<Peer>, was: map<Peer, Side>, entries: List)
    requires FlushedAll(before, done, was, entries) && p !in done && Settled(before, after, p)
    ensures FlushedAll(after, done + {p}, was, entries)
  {
    SettledOthers(before, after, p);
    forall q | q in after.contacts ensures SideIn(after, q) == if q in done + {p} then Flushed(was[q]) else was[q] {
      if q != p {
        assert SideIn(after, q) == SideIn(before, q);
      }
    }
  }

  /** Where a flush of the contacts `due` starts from. */
  datatype Start = Start(contacts: map<Peer, Contact>, sides: map<Peer, Side>, entries: List, due: set<Peer>, ghost undisturbed: bool)

  class ContactListDevice {
    var contacts: map<Peer, Contact>
    var known: map<Peer, Known>
    var listed: List
    var full: bool
    var fullTriedAt: int
    const blocksAtOnce: bool
    const me: Peer
    const transport: ListTransport

    constructor (transport: ListTransport, me: Peer, blocksAtOnce: bool)
      ensures this.transport == transport && this.me == me && this.blocksAtOnce == blocksAtOnce
      ensures contacts == map[] && known == map[] && listed == map[] && !full && fullTriedAt == 0
    {
      this.transport := transport;
      this.me := me;
      this.blocksAtOnce := blocksAtOnce;
      contacts, known, listed, full, fullTriedAt := map[], map[], map[], false, 0;
    }

    function KnownOf(p: Peer): Known
      reads this
    {
      KnownIn(known, p)
    }

    function Value(): All
      reads this, transport, transport.server
    {
      All(contacts, known, transport.server.entries)
    }

    /** The contact here, and what the server has for it now. */
    function Now(p: Peer): Side
      reads this, transport, transport.server
      requires p in contacts
    {
      SideIn(Value(), p)
    }

    /** The list, and how often it was asked for. */
    function Where(): Place
      reads transport, transport.server
    {
      transport.Where()
    }

    method ReadContactList() returns (done: bool)
      modifies this`listed, transport, transport.server
      ensures Room(done, listed, Where()) == Reread(transport.course, old(listed), old(Where()))
    {
      var list := transport.FetchContactList();
      if list.Some? {
        listed := list.value;
      }
      return list.Some?;
    }

    method EvictOneContact() returns (evicted: Option<bool>)
      modifies this`listed, transport, transport.server
      ensures evicted == Some(false) ==>
        && Candidates(old(listed), Rejected) == {} && Candidates(old(listed), PendingOutgoing) == {}
        && listed == old(listed) && Where() == old(Where())
      ensures evicted != Some(false) ==>
        exists v :: GoesFirst(old(listed), v) && Room(evicted.Some?, listed, Where()) == RoomBy(transport.course, old(listed), old(Where()), v)
    {
      var oldest := Oldest(listed, Rejected);
      if oldest.None? {
        oldest := Oldest(listed, PendingOutgoing);
      }
      if oldest.None? {
        return Some(false);
      }
      ghost var (l, s) := (listed, Where());
      assert GoesFirst(l, oldest.value);
      var removed := transport.DeleteContactEntry(oldest.value, listed[oldest.value].revision);
      var done := removed.Some?;
      if removed == Some(true) {
        listed := listed - {oldest.value};
      } else if removed == Some(false) {
        done := ReadContactList();
      }
      assert Room(done, listed, Where()) == RoomBy(transport.course, l, s, oldest.value);
      return if done then Some(true) else None;
    }

    method StoreOnce(p: Peer, e: Entry) returns (a: Option<Answer>)
      modifies this`listed, transport, transport.server
      ensures Written(a, listed, Where()) == WriteOnce(transport.course, transport.server.cap, old(listed), old(Where()), p, e)
    {
      var base := RevisionIn(listed, p);
      a := transport.StoreContactEntry(p, base, base + 1, e);
      if a == Some(Stored) {
        listed := listed[p := Listed(base + 1, Some(e))];
      } else if a == Some(Conflict) {
        var done := ReadContactList();
        a := if done then Some(Conflict) else None;
      }
    }

    /** The contact's entry, over the list as it is read; a full list makes room for it once. */
    method WriteContactEntry(p: Peer, e: Entry) returns (a: Option<Answer>)
      modifies this`listed, transport, transport.server
      ensures Wrote(transport.course, transport.server.cap, old(listed), old(Where()), p, e, Written(a, listed, Where()))
    {
      ghost var (l, s) := (listed, Where());
      ghost var first := WriteOnce(transport.course, transport.server.cap, l, s, p, e);
      var evicted := false;
      while true
        invariant !evicted ==> listed == l && Where() == s
        invariant evicted ==> first.answer == Some(Full) && MadeRoom(l, first.place)
        decreases if evicted then 0 else 1
      {
        ghost var (l1, s1) := (listed, Where());
        a := StoreOnce(p, e);
        if evicted {
          ghost var v :| GoesFirst(l, v) && Room(true, l1, s1) == RoomBy(transport.course, l, first.place, v);
          WroteInRoom(transport.course, transport.server.cap, l, s, p, e, v);
          return;
        }
        if a != Some(Full) {
          return;
        }
        var room := EvictOneContact();
        if room == Some(false) {
          NoneGoes(l);
          return;
        }
        if room.None? {
          ghost var v :| GoesFirst(l, v) && Room(false, listed, Where()) == RoomBy(transport.course, l, first.place, v);
          WroteInRoom(transport.course, transport.server.cap, l, s, p, e, v);
          return None;
        }
        evicted := true;
      }
    }

    ghost predicate MadeRoom(l: List, s: Place)
      reads this, transport, transport.server
    {
      exists v :: GoesFirst(l, v) && Room(true, listed, Where()) == RoomBy(transport.course, l, s, v)
    }

    /** Nobody else is at the list: this device has it as it is, with room for the contact. */
    ghost predicate Alone(p: Peer)
      reads this, transport, transport.server
    {
      p in contacts && listed == transport.server.entries && HasRoom(listed, transport.server.cap, p)
      && Quiet(transport.course, transport.asked)
    }

    /** One try of a contact's entry. */
    method TryContact(p: Peer) returns (t: Try)
      requires p in contacts
      modifies this`contacts, this`known, this`listed, transport, transport.server
      ensures OthersUntouched(old(contacts), contacts, p)
      ensures AtMost(OrderOf(old(contacts[p])), OrderOf(contacts[p]))
      ensures t != Done(Stored) ==> contacts == old(contacts) && known == old(known)
      ensures t == Done(Stored) ==> contacts[p].dueAt.None? && IsListed(contacts[p], Get(listed, p))
      ensures old(Alone(p)) ==> t == Done(Stored) && Level() && Settled(old(Value()), Value(), p)
      ensures t != Done(Conflict)
    {
      var current := contacts[p];
      match StepFor(current, KnownOf(p), Get(listed, p)) {
        case Nothing =>
          contacts := contacts[p := current.(dueAt := None)];
          return Done(Stored);
        case Take(c, key) =>
          known := known[p := Learn(KnownOf(p), key)];
          contacts := contacts[p := c];
          return Done(Stored);
        case Write(e) =>
          var answer := WriteOver(p, e);
          if answer == Some(Stored) {
            contacts := contacts[p := current.(dueAt := None)];
          }
          return if answer.None? then Broken else if answer == Some(Conflict) then Again else Done(answer.value);
      }
    }

    /** The device's copy is the list, and stays so while it asks for nothing more than it does alone. */
    ghost predicate Level()
      reads this, transport, transport.server
    {
      listed == transport.server.entries && Quiet(transport.course, transport.asked)
    }

    method WriteOver(p: Peer, e: Entry) returns (a: Option<Answer>)
      modifies this`listed, transport, transport.server
      ensures a == Some(Stored) ==> IsCopied(listed, p, e)
      ensures old(Level()) && HasRoom(old(listed), transport.server.cap, p) ==>
                && a == Some(Stored) && Level()
                && listed == old(listed)[p := Listed(RevisionIn(old(listed), p) + 1, Some(e))]
    {
      ghost var (l, s, course, cap) := (listed, Where(), transport.course, transport.server.cap);
      a := WriteContactEntry(p, e);
      if l == s.entries && Quiet(course, s.asked) && HasRoom(l, cap, p) {
        WriteWithRoom(course, cap, s, p, e, Written(a, listed, Where()));
      }
      if a == Some(Stored) {
        StoredIsCopied(course, cap, l, s, p, e, Written(a, listed, Where()));
      }
    }

    /** What is due of one contact: two tries at settling it with the list. None when a request had no
        answer. */
    method FlushContact(p: Peer) returns (a: Option<Answer>)
      modifies this`contacts, this`known, this`listed, transport, transport.server
      ensures OthersUntouched(old(contacts), contacts, p)
      ensures p in old(contacts) ==> p in contacts && AtMost(OrderOf(old(contacts[p])), OrderOf(contacts[p]))
      ensures a != Some(Stored) ==> contacts == old(contacts) && known == old(known)
      ensures a == Some(Stored) && p in contacts ==> contacts[p].dueAt.None? && IsListed(contacts[p], Get(listed, p))
      ensures old(Alone(p)) ==> a == Some(Stored) && Level() && Settled(old(Value()), Value(), p)
    {
      if p !in contacts {
        return Some(Stored);
      }
      var tries := 0;
      while tries < 2
        invariant 0 <= tries <= 2
        invariant contacts == old(contacts) && known == old(known)
        invariant tries == 0 ==> listed == old(listed) && Where() == old(Where())
        invariant tries > 0 ==> !old(Alone(p))
      {
        var t := TryContact(p);
        match t {
          case Done(answer) => return Some(answer);
          case Broken => return None;
          case Again => tries := tries + 1;
        }
      }
      return Some(Conflict);
    }

    /** A full list is not asked again on every pass. */
    predicate BackingOff(all: bool, now: int)
      reads this
    {
      full && !all && now - fullTriedAt < FULL_RETRY_MS
    }

    /** The contacts a flush goes through. */
    function Due(all: bool, only: Option<Peer>, now: int): set<Peer>
      reads this
    {
      var backingOff := BackingOff(all, now);
      set p | p in contacts && (
        if only.Some? then p == only.value
        else
          var blocked := contacts[p].state == Blocked;
          && contacts[p].dueAt.Some?
          && (all || contacts[p].dueAt.value <= now || (blocksAtOnce && blocked))
          && (blocked || !backingOff))
    }

    /** The flush of `done` is behind. */
    ghost predicate Through(done: set<Peer>, was: map<Peer, Side>, entries: List)
      reads this, transport, transport.server
    {
      Level() && FlushedAll(Value(), done, was, entries)
    }

    ghost function AllNow(): map<Peer, Side>
      reads this, transport, transport.server
    {
      map p | p in contacts :: Now(p)
    }

    /** With nobody else at the list, every request answered and room for all of `due`. */
    ghost predicate Undisturbed(due: set<Peer>)
      reads transport, transport.server
    {
      Quiet(transport.course, transport.asked) && |transport.server.entries.Keys + due| <= transport.server.cap
    }

    /** A pass over the due contacts, from a fresh read of the list; broken off, not `done`, at a request
        without an answer. */
    method FlushContacts(all: bool, only: Option<Peer>, now: int) returns (done: bool, written: nat, refusedFull: nat)
      modifies this`contacts, this`known, this`listed, this`full, this`fullTriedAt, transport, transport.server
      ensures Rose(old(contacts), contacts, old(Due(all, only, now)))
      ensures old(Due(all, only, now)) != {} && old(Undisturbed(Due(all, only, now))) ==>
                && done && refusedFull == 0 && written == |old(Due(all, only, now))|
                && Through(old(Due(all, only, now)), old(AllNow()), old(transport.server.entries))
      ensures old(Due(all, only, now)) == {} ==> done && contacts == old(contacts) && Where() == old(Where()) && full == old(full)
      ensures done && old(Due(all, only, now)) != {} ==> full == (refusedFull > 0 || (only.Some? && old(full)))
      ensures fullTriedAt == if done && refusedFull > 0 && !old(BackingOff(all, now)) then now else old(fullTriedAt)
      ensures !done ==> full == old(full)
    {
      done, written, refusedFull := true, 0, 0;
      var backingOff := BackingOff(all, now);
      var due := Due(all, only, now);
      if due == {} {
        return;
      }
      done, written, refusedFull := FlushDue(due);
      if !done {
        return;
      }
      if only.None? || refusedFull > 0 {
        full := refusedFull > 0;
      }
      if refusedFull > 0 && !backingOff {
        fullTriedAt := now;
      }
    }

    method FlushDue(due: set<Peer>) returns (done: bool, written: nat, refusedFull: nat)
      requires due <= contacts.Keys
      modifies this`contacts, this`known, this`listed, transport, transport.server
      ensures Rose(old(contacts), contacts, due)
      ensures old(Undisturbed(due)) ==>
                && done && refusedFull == 0 && written == |due|
                && Through(due, old(AllNow()), old(transport.server.entries))
    {
      ghost var (course, s) := (transport.course, Where());
      done := ReadContactList();
      written, refusedFull := 0, 0;
      if Quiet(course, s.asked) {
        QuietNow(course, s);
        assert AllNow() == old(AllNow());
      }
      if done {
        done, written, refusedFull := FlushEach(due);
      }
    }

    method FlushEach(due: set<Peer>) returns (done: bool, written: nat, refusedFull: nat)
      requires due <= contacts.Keys
      modifies this`contacts, this`known, this`listed, transport, transport.server
      ensures Rose(old(contacts), contacts, due)
      ensures old(Level()) && old(Undisturbed(due)) ==>
                && done && refusedFull == 0 && written == |due|
                && Through(due, old(AllNow()), old(transport.server.entries))
    {
      ghost var start := Start(contacts, AllNow(), transport.server.entries, due, Level() && Undisturbed(due));
      assert FlushedSoFar(start, {}, 0, 0);
      done, written, refusedFull := FlushRest(due, start);
    }

    method FlushRest(due: set<Peer>, ghost start: Start) returns (done: bool, written: nat, refusedFull: nat)
      requires due == start.due <= contacts.Keys && FlushedSoFar(start, {}, 0, 0)
      modifies this`contacts, this`known, this`listed, transport, transport.server
      ensures Rose(start.contacts, contacts, due)
      ensures done ==> FlushedSoFar(start, due, written, refusedFull)
      ensures start.undisturbed ==> done
    {
      ghost var through: set<Peer> := {};
      done, written, refusedFull := true, 0, 0;
      var rest := due;
      while rest != {} && done
        invariant UnderWay(start, rest, through, done, written, refusedFull)
        decreases rest
      {
        rest, done, written, refusedFull, through := FlushNext(rest, start, through, written, refusedFull);
      }
      RoseFor(start.contacts, contacts, through, due);
      assert done ==> through == due;
    }

    /** A flush from `start` has `rest` to go, or is broken off. */
    ghost predicate UnderWay(start: Start, rest: set<Peer>, through: set<Peer>, done: bool, written: nat, refusedFull: nat)
      reads this, transport, transport.server
    {
      && rest !! through && rest + through == start.due <= contacts.Keys
      && Rose(start.contacts, contacts, through)
      && (done ==> FlushedSoFar(start, through, written, refusedFull))
      && (start.undisturbed ==> done)
    }

    method FlushNext(due: set<Peer>, ghost start: Start, ghost before: set<Peer>, w: nat, r: nat)
      returns (rest: set<Peer>, done: bool, written: nat, refusedFull: nat, ghost through: set<Peer>)
      requires due != {} && UnderWay(start, due, before, true, w, r)
      modifies this`contacts, this`known, this`listed, transport, transport.server
      ensures UnderWay(start, rest, through, done, written, refusedFull) && rest < due
    {
      var p :| p in due;
      OneThrough(due, before, p, start.due);
      done, written, refusedFull := FlushOneOf(p, start, before, w, r);
      rest, through := due - {p}, before + {p};
    }

    /** A flush from `start` is through for the contacts `done`; with room for all that is due, each was
        written. */
    ghost predicate FlushedSoFar(start: Start, done: set<Peer>, written: nat, refusedFull: nat)
      reads this, transport, transport.server
    {
      && Rose(start.contacts, contacts, done)
      && (start.undisturbed ==>
            |start.entries.Keys + start.due| <= transport.server.cap && refusedFull == 0 && written == |done| && Through(done, start.sides, start.entries))
    }

    /** A sync: the list read once, and every contact brought in step with it; nothing, when the request has
        no answer. */
    method SyncContactList(now: int, draws: Peer -> nat) returns (taken: Option<nat>)
      modifies this`contacts, this`known, this`listed, transport, transport.server
      ensures Room(taken.Some?, listed, Where()) == Reread(transport.course, old(listed), old(Where()))
      ensures taken.None? ==> contacts == old(contacts) && known == old(known)
      ensures taken.Some? ==>
        && (forall p :: Get(contacts, p) == SyncedContact(Get(old(contacts), p), old(KnownOf(p)), Get(listed, p), p == me, FreshDue(now, draws(p))))
        && (forall p :: KnownOf(p) == SyncedKnown(Get(old(contacts), p), old(KnownOf(p)), Get(listed, p), p == me))
    {
      var done := ReadContactList();
      if !done {
        return None;
      }
      var count := TakeNewer();
      MakeDue(now, draws);
      return Some(count);
    }

    method TakeNewer() returns (taken: nat)
      modifies this`contacts, this`known
      ensures forall p :: Get(contacts, p) == if p == me then Get(old(contacts), p) else Followed(Get(old(contacts), p), Get(listed, p))
      ensures forall p :: KnownOf(p) == SyncedKnown(Get(old(contacts), p), old(KnownOf(p)), Get(listed, p), p == me)
    {
      var local := contacts;
      taken := 0;
      var rest := listed.Keys;
      while rest != {}
        invariant rest <= listed.Keys
        invariant forall p :: Get(contacts, p) == if p in rest || p == me then Get(local, p) else Followed(Get(local, p), Get(listed, p))
        invariant forall p :: KnownOf(p) == if p in rest then old(KnownOf(p)) else SyncedKnown(Get(local, p), old(KnownOf(p)), Get(listed, p), p == me)
        decreases rest
      {
        var p :| p in rest;
        rest := rest - {p};
        var newer := TakeEntry(p, local);
        taken := if newer then taken + 1 else taken;
      }
    }

    /** One listed entry, when it is not this account's own. */
    method TakeEntry(p: Peer, local: map<Peer, Contact>) returns (newer: bool)
      requires p in listed && Get(contacts, p) == Get(local, p)
      modifies this`contacts, this`known
      ensures Get(contacts, p) == if p == me then Get(local, p) else Followed(Get(local, p), Get(listed, p))
      ensures KnownOf(p) == SyncedKnown(Get(local, p), old(KnownOf(p)), Get(listed, p), p == me)
      ensures forall q :: q != p ==> Get(contacts, q) == Get(old(contacts), q) && KnownOf(q) == old(KnownOf(q))
    {
      newer := false;
      if p != me && listed[p].entry.Some? {
        var entry := listed[p].entry.value;
        known := known[p := Adopt(KnownOf(p), entry.identity)];
        newer := p !in local || Below(OrderOf(local[p]), EntryOrder(entry));
        if newer {
          known := known[p := Learn(known[p], entry.profileKey)];
          contacts := contacts[p := RecordOf(entry)];
        }
      }
    }

    method MakeDue(now: int, draws: Peer -> nat)
      modifies this`contacts
      ensures contacts.Keys == old(contacts).Keys
      ensures forall p :: p in contacts ==> contacts[p] == MadeDue(old(contacts)[p], KnownOf(p), Get(listed, p), FreshDue(now, draws(p)))
    {
      var rest := contacts.Keys;
      while rest != {}
        invariant rest <= contacts.Keys == old(contacts).Keys
        invariant forall p :: p in contacts ==>
          contacts[p] == if p in rest then old(contacts)[p] else MadeDue(old(contacts)[p], KnownOf(p), Get(listed, p), FreshDue(now, draws(p)))
        decreases rest
      {
        var p :| p in rest;
        rest := rest - {p};
        var contact := contacts[p];
        if contact.dueAt.None? && contact.state != PendingIncoming && StepFor(contact, KnownOf(p), Get(listed, p)).Write? {
          contacts := contacts[p := contact.(dueAt := Some(FreshDue(now, draws(p))))];
        }
      }
    }

    method FlushOneOf(p: Peer, ghost start: Start, ghost through: set<Peer>, w: nat, r: nat) returns (done: bool, written: nat, refusedFull: nat)
      requires p in start.due - through && through <= start.due <= contacts.Keys && FlushedSoFar(start, through, w, r)
      modifies this`contacts, this`known, this`listed, transport, transport.server
      ensures start.due <= contacts.Keys && Rose(start.contacts, contacts, through + {p})
      ensures done ==> FlushedSoFar(start, through + {p}, written, refusedFull)
      ensures start.undisturbed ==> done
    {
      written, refusedFull := w, r;
      ghost var mid := contacts;
      var a := FlushThrough(p, start, through);
      RoseMore(start.contacts, mid, contacts, through, p);
      match a {
        case Some(Stored) => written := written + 1;
        case Some(Full) => refusedFull := refusedFull + 1;
        case _ =>
      }
      done := a.Some?;
    }

    method FlushThrough(p: Peer, ghost start: Start, ghost through: set<Peer>) returns (a: Option<Answer>)
      requires p in start.due - through && through <= start.due && p in contacts
      requires start.undisturbed ==> |start.entries.Keys + start.due| <= transport.server.cap
      modifies this`contacts, this`known, this`listed, transport, transport.server
      ensures OthersUntouched(old(contacts), contacts, p) && AtMost(OrderOf(old(contacts)[p]), OrderOf(contacts[p]))
      ensures contacts[p] == old(contacts)[p] || contacts[p].dueAt.None?
      ensures start.undisturbed && old(Through(through, start.sides, start.entries)) ==>
                a == Some(Stored) && Through(through + {p}, start.sides, start.entries)
    {
      if start.undisturbed && Through(through, start.sides, start.entries) {
        StillRoom(start.entries, start.due, through, transport.server.entries, transport.server.cap, p);
      }
      a := FlushContact(p);
      if start.undisturbed && old(Through(through, start.sides, start.entries)) {
        SettledIsFlushed(old(Value()), Value(), p, through, start.sides, start.entries);
      }
    }
  }

  lemma {:induction false} StillRoom(before: List, due: set<Peer>, done: set<Peer>, entries: List, cap: nat, p: Peer)
    requires |before.Keys + due| <= cap && done <= due && p in due - done
    requires entries.Keys <= before.Keys + done
    ensures HasRoom(entries, cap, p)
  {
    if p !in entries {
      var all := before.Keys + due;
      assert entries.Keys <= all - {p};
      Subset(entries.Keys, all - {p});
      assert |entries| == |entries.Keys|;
    }
  }

  lemma {:induction false} Subset(a: set<Peer>, b: set<Peer>)
    requires a <= b
    ensures |a| <= |b|
  {
    assert b == a + (b - a);
  }
}
