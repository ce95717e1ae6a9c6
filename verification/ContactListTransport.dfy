/** A device's requests to the account's contact list: what others make of the list before each, and
    answers that do not come. */
module ContactListTransport {
  import opened Common
  import opened ContactList

  /** What becomes of a request: answered, never taken, or taken with the answer lost. */
  datatype Fate = Answered | NeverTaken | AnswerLost

  /** What precedes one request, others' changes of the list, and its fate. */
  datatype Turn = Turn(others: List -> List, fate: Fate)

  type Course = nat -> Turn

  /** The server's list, and how many requests this device has made of it. */
  datatype Place = Place(entries: List, asked: nat)

  /** The list as the next request finds it. */
  function Found(course: Course, s: Place): List {
    course(s.asked).others(s.entries)
  }

  function FateAt(course: Course, s: Place): Fate {
    course(s.asked).fate
  }

  function AfterRead(course: Course, s: Place): Place {
    Place(Found(course, s), s.asked + 1)
  }

  function ReadAnswer(course: Course, s: Place): Option<List> {
    if FateAt(course, s).Answered? then Some(Found(course, s)) else None
  }

  function AfterStore(course: Course, cap: nat, s: Place, p: Peer, base: nat, revision: WriteRevision, e: Entry): Place {
    var list := Found(course, s);
    Place(if !FateAt(course, s).NeverTaken? && Store(list, cap, p, base) == Stored then list[p := Listed(revision, Some(e))] else list,
          s.asked + 1)
  }

  function StoreAnswer(course: Course, cap: nat, s: Place, p: Peer, base: nat): Option<Answer> {
    if FateAt(course, s).Answered? then Some(Store(Found(course, s), cap, p, base)) else None
  }

  function AfterDelete(course: Course, s: Place, p: Peer, base: nat): Place {
    var list := Found(course, s);
    Place(if !FateAt(course, s).NeverTaken? && Deletes(list, p, base) then list - {p} else list, s.asked + 1)
  }

  function DeleteAnswer(course: Course, s: Place, p: Peer, base: nat): Option<bool> {
    if FateAt(course, s).Answered? then Some(Deletes(Found(course, s), p, base)) else None
  }

  /** From the `from`th request on nobody else changes the list, and every request is answered. */
  ghost predicate Quiet(course: Course, from: nat) {
    forall k :: from <= k ==> QuietTurn(course(k))
  }

  ghost predicate QuietTurn(t: Turn) {
    t.fate.Answered? && forall list :: t.others(list) == list
  }

  lemma {:induction false} QuietNow(course: Course, s: Place)
    requires Quiet(course, s.asked)
    ensures Found(course, s) == s.entries && FateAt(course, s).Answered? && Quiet(course, s.asked + 1)
  {
    assert QuietTurn(course(s.asked));
  }

  class ListTransport {
    const server: ListServer
    const course: Course
    var asked: nat

    constructor (server: ListServer, course: Course)
      ensures this.server == server && this.course == course && asked == 0
    {
      this.server, this.course := server, course;
      asked := 0;
    }

    function Where(): Place
      reads this, server
    {
      Place(server.entries, asked)
    }

    /** The next request is on its way. */
    method Ask() returns (fate: Fate)
      modifies this, server
      ensures fate == FateAt(course, old(Where())) && Where() == AfterRead(course, old(Where()))
    {
      var turn := course(asked);
      server.entries := turn.others(server.entries);
      asked := asked + 1;
      return turn.fate;
    }

    method FetchContactList() returns (list: Option<List>)
      modifies this, server
      ensures list == ReadAnswer(course, old(Where())) && Where() == AfterRead(course, old(Where()))
    {
      var fate := Ask();
      list := if fate.Answered? then Some(server.entries) else None;
    }

    method StoreContactEntry(p: Peer, base: nat, revision: WriteRevision, e: Entry) returns (a: Option<Answer>)
      modifies this, server
      ensures a == StoreAnswer(course, server.cap, old(Where()), p, base)
      ensures Where() == AfterStore(course, server.cap, old(Where()), p, base, revision, e)
    {
      var fate := Ask();
      a := None;
      if !fate.NeverTaken? {
        var answer := server.StoreEntry(p, base, revision, e);
        a := if fate.Answered? then Some(answer) else None;
      }
    }

    method DeleteContactEntry(p: Peer, base: nat) returns (removed: Option<bool>)
      modifies this, server
      ensures removed == DeleteAnswer(course, old(Where()), p, base) && Where() == AfterDelete(course, old(Where()), p, base)
    {
      var fate := Ask();
      removed := None;
      if !fate.NeverTaken? {
        var answer := server.DeleteEntry(p, base);
        removed := if fate.Answered? then Some(answer) else None;
      }
    }
  }
}
