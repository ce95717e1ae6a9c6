/** What a device holds of a group and what it takes from the group's home: changes linked by their
    hashes, each with the home's notary signature, and whole states. */
module GroupChain {
  import opened Common

  /** A group's state; `rest` is what the chain does not look at. */
  datatype State = State(
    group: string, revision: nat, home: string, members: set<string>, requesting: set<string>, slots: set<string>,
    terminated: bool, rest: string)

  /** A change; `result` is the state its author names (a newcomer's change names none). */
  datatype Change = Change(group: string, revision: nat, previous: Head, body: string, result: Option<State>)

  /** A change's hash, which no other change has. */
  datatype Head = Nothing | HashOf(change: Change)

  /** What the home signs: a change and the state after it, under the identity document with
      this sequence; not `genuine` when no such signature verifies. */
  datatype Notary = Notary(sequence: nat, group: string, revision: nat, change: Head, state: State, genuine: bool)

  datatype Status = Invited(slot: string, slotRevision: nat) | Requesting | Member | Gone

  datatype Verified = Verified(state: State, head: Head)

  /** `history`: the home's identity documents this device followed from its pin, by sequence. */
  datatype Record = Record(
    group: string, home: string, pseudonym: string, status: Status, minRevision: nat, verified: Option<Verified>,
    notarySequence: Option<nat>, history: set<nat>, joinEpoch: nat, notFoundSince: Option<int>, syncedAt: Option<int>)

  datatype Refusal =
    | WrongGroup | WrongRevision | WrongPrevious | Terminated | NotMember | StateMismatch | Malformed
    | BadNotary | Invalid

  /** The rest of what a change is checked for: signatures and shape, and what its actions do. */
  datatype Rules = Rules(
    signed: Change -> bool,
    shaped: (State, Change) -> bool,
    act: (State, Change) -> Result<State, Refusal>,
    genesis: (Change, string) -> Result<State, Refusal>,
    opens: (Record, State) -> bool,
    valid: State -> bool)

  // ----- checking a change -----

  function Named(next: State, change: Change): Result<State, Refusal> {
    if change.result.Some? && change.result.value != next then Err(StateMismatch) else Ok(next)
  }

  function CheckChange(rules: Rules, v: Verified, change: Change): Result<State, Refusal> {
    if !rules.signed(change) || !rules.shaped(v.state, change) then Err(Malformed)
    else if change.group != v.state.group then Err(WrongGroup)
    else if v.state.revision >= U64_MAX || change.revision != v.state.revision + 1 then Err(WrongRevision)
    else if change.previous != v.head then Err(WrongPrevious)
    else if v.state.terminated then Err(Terminated)
    else
      var acted := rules.act(v.state, change);
      if acted.Err? then acted
      else Named(acted.value.(group := v.state.group, home := v.state.home, revision := change.revision), change)
  }

  function CheckGenesis(rules: Rules, change: Change, home: string): Result<State, Refusal> {
    if !rules.signed(change) then Err(Malformed)
    else
      var first := rules.genesis(change, home);
      if first.Err? then first
      else Named(first.value.(group := change.group, home := home, revision := 0), change)
  }

  predicate Notarised(n: Notary, history: set<nat>, previous: Option<nat>, group: string, revision: nat, change: Head, state: State) {
    && (previous.Some? ==> n.sequence >= previous.value)
    && n.sequence in history
    && n.genuine && n.group == group && n.revision == revision && n.change == change && n.state == state
  }

  // ----- what a record takes -----

  function StatusAfter(r: Record, state: State): Status {
    if r.pseudonym in state.members then Member
    else if r.pseudonym in state.requesting then Requesting
    else if r.status.Invited? && r.status.slot in state.slots then r.status
    else Gone
  }

  /** The record with another verified state. */
  function Moved(r: Record, state: State, head: Head, sequence: nat): Record {
    r.(verified := Some(Verified(state, head)), status := StatusAfter(r, state), notarySequence := Some(sequence))
  }

  /** The state a change brings the record to, before its notary is looked at. */
  function NextState(rules: Rules, r: Record, change: Change): Result<State, Refusal> {
    if r.verified.Some? then CheckChange(rules, r.verified.value, change)
    else if change.revision != 0 then Err(Invalid)
    else
      var first := CheckGenesis(rules, change, r.home);
      if first.Ok? && !rules.opens(r, first.value) then Err(Invalid) else first
  }

  function Accepted(rules: Rules, r: Record, change: Change, n: Notary): Result<Record, Refusal> {
    if change.group != r.group then Err(WrongGroup)
    else
      var next := NextState(rules, r, change);
      if next.Err? then Err(next.error)
      else if !Notarised(n, r.history, r.notarySequence, r.group, change.revision, HashOf(change), next.value) then Err(BadNotary)
      else Ok(Moved(r, next.value, HashOf(change), n.sequence))
  }

  /** Why a whole state can not be taken, its notary apart. */
  function WholeStateRefused(rules: Rules, r: Record, state: State, latest: Change): Option<Refusal> {
    if !rules.valid(state) then Some(Invalid)
    else if state.group != r.group || latest.group != r.group || latest.revision != state.revision || state.home != r.home
    then Some(WrongGroup)
    else if r.verified.Some? && !r.status.Invited? && !r.status.Requesting? then Some(Invalid)
    else if r.verified.Some? && state.revision <= r.verified.value.state.revision then Some(WrongRevision)
    else if state.revision < r.minRevision then Some(WrongRevision)
    else if r.pseudonym !in state.members then Some(NotMember)
    else None
  }

  function AcceptedState(rules: Rules, r: Record, state: State, latest: Change, n: Notary): Result<Record, Refusal> {
    var refused := WholeStateRefused(rules, r, state, latest);
    var previous := if r.verified.Some? then r.notarySequence else None;
    if refused.Some? then Err(refused.value)
    else if !Notarised(n, r.history, previous, r.group, state.revision, HashOf(latest), state) then Err(BadNotary)
    else Ok(Moved(r, state, HashOf(latest), n.sequence))
  }

  /** The write would bring back an invitation from before the state held. */
  predicate Regressed(mine: Record, stored: Record, held: nat) {
    mine.status.Invited? && !stored.status.Invited? && mine.status.slotRevision <= held
  }

  /** Whether `mine` may take the stored record's place. */
  predicate MayReplace(mine: Record, stored: Record) {
    && mine.group == stored.group
    && (stored.verified.Some? ==>
         && mine.verified.Some?
         && var (next, held) := (mine.verified.value, stored.verified.value);
            || next.state.revision > held.state.revision
            || (next.state.revision == held.state.revision && next.head == held.head && !Regressed(mine, stored, held.state.revision)))
  }

  // ----- the record, as the engine works on it -----

  class GroupRecord {
    const group: string
    const home: string
    var pseudonym: string
    var status: Status
    var minRevision: nat
    var verified: Option<Verified>
    var notarySequence: Option<nat>
    var history: set<nat>
    var joinEpoch: nat
    var notFoundSince: Option<int>
    var syncedAt: Option<int>

    function Value(): Record
      reads this
    {
      Record(group, home, pseudonym, status, minRevision, verified, notarySequence, history, joinEpoch, notFoundSince, syncedAt)
    }

    constructor (r: Record)
      ensures Value() == r
    {
      group, home, pseudonym, status, minRevision := r.group, r.home, r.pseudonym, r.status, r.minRevision;
      verified, notarySequence, history, joinEpoch := r.verified, r.notarySequence, r.history, r.joinEpoch;
      notFoundSince, syncedAt := r.notFoundSince, r.syncedAt;
    }

    method SetVerified(state: State, head: Head)
      modifies this`verified, this`status
      ensures verified == Some(Verified(state, head)) && status == StatusAfter(old(Value()), state)
    {
      verified := Some(Verified(state, head));
      if pseudonym in state.members {
        status := Member;
      } else if pseudonym in state.requesting {
        status := Requesting;
      } else if !(status.Invited? && status.slot in state.slots) {
        status := Gone;
      }
    }

    /** The record one change on, when the change is good. */
    method AcceptChange(rules: Rules, change: Change, notary: Notary) returns (done: Result<State, Refusal>)
      modifies this
      ensures match Accepted(rules, old(Value()), change, notary)
              case Ok(r) => Value() == r && r.verified.Some? && done == Ok(r.verified.value.state)
              case Err(e) => Value() == old(Value()) && done == Err(e)
    {
      if change.group != group {
        return Err(WrongGroup);
      }
      var next;
      if verified.None? {
        if change.revision != 0 {
          return Err(Invalid);
        }
        next := CheckGenesis(rules, change, home);
        if next.Ok? && !rules.opens(Value(), next.value) {
          return Err(Invalid);
        }
      } else {
        next := CheckChange(rules, verified.value, change);
      }
      if next.Err? {
        return next;
      }
      if !Notarised(notary, history, notarySequence, group, change.revision, HashOf(change), next.value) {
        return Err(BadNotary);
      }
      SetVerified(next.value, HashOf(change));
      notarySequence := Some(notary.sequence);
      return next;
    }

    /** The record at a state served whole, when joining. */
    method AcceptState(rules: Rules, state: State, latest: Change, notary: Notary) returns (done: Result<(), Refusal>)
      modifies this
      ensures match AcceptedState(rules, old(Value()), state, latest, notary)
              case Ok(r) => Value() == r && done == Ok(())
              case Err(e) => Value() == old(Value()) && done == Err(e)
    {
      if !rules.valid(state) {
        return Err(Invalid);
      }
      if state.group != group || latest.group != group || latest.revision != state.revision || state.home != home {
        return Err(WrongGroup);
      }
      if verified.Some? && !status.Invited? && !status.Requesting? {
        return Err(Invalid);
      }
      if verified.Some? && state.revision <= verified.value.state.revision {
        return Err(WrongRevision);
      }
      if state.revision < minRevision {
        return Err(WrongRevision);
      }
      if pseudonym !in state.members {
        return Err(NotMember);
      }
      var previous := if verified.Some? then notarySequence else None;
      if !Notarised(notary, history, previous, group, state.revision, HashOf(latest), state) {
        return Err(BadNotary);
      }
      SetVerified(state, HashOf(latest));
      notarySequence := Some(notary.sequence);
      return Ok(());
    }
  }

  // ----- what taking a change or a state means -----

  /** How many changes of the chain a record is at: none without a verified state. */
  function Length(r: Record): nat {
    if r.verified.Some? then r.verified.value.state.revision + 1 else 0
  }

  function SignedBy(r: Record): nat {
    if r.notarySequence.Some? then r.notarySequence.value + 1 else 0
  }

  /** A record has a notary's sequence exactly when it has a state. */
  predicate Sound(r: Record) {
    && (r.verified.Some? <==> r.notarySequence.Some?)
    && (r.verified.Some? ==>
         && r.verified.value.state.group == r.group
         && r.verified.value.head.HashOf?
         && r.verified.value.head.change.revision == r.verified.value.state.revision)
  }

  /** `after` is the same group's record, no earlier in the chain nor by an older identity of the home. */
  predicate NotBack(before: Record, after: Record) {
    && after.group == before.group && after.home == before.home
    && Length(before) <= Length(after)
    && SignedBy(before) <= SignedBy(after)
    && before.minRevision <= after.minRevision
    && (Length(before) == Length(after) ==> after.verified == before.verified)
  }

  /** An accepted change is the very next of the chain, linked to the head held, notarised with the
      state this device computed itself, by an identity no older than the last. */
  lemma {:induction false} AcceptedIsNext(rules: Rules, r: Record, change: Change, n: Notary)
    requires Sound(r) && Accepted(rules, r, change, n).Ok?
    ensures var r' := Accepted(rules, r, change, n).value;
            && Sound(r') && NotBack(r, r')
            && Length(r') == Length(r) + 1 && change.revision == Length(r)
            && r'.verified.value.head == HashOf(change)
            && (r.verified.Some? ==> change.previous == r.verified.value.head && !r.verified.value.state.terminated)
            && n.genuine && n.sequence in r.history && n.change == HashOf(change) && n.state == r'.verified.value.state
            && (change.result.Some? ==> change.result.value == r'.verified.value.state)
  {
  }

  /** A whole state is only taken by a device that is joining, and takes it further: this account is a
      member of it, and it is at or past the lowest revision the record may take. */
  lemma {:induction false} AcceptedStateIsLater(rules: Rules, r: Record, state: State, latest: Change, n: Notary)
    requires Sound(r) && AcceptedState(rules, r, state, latest, n).Ok?
    ensures var r' := AcceptedState(rules, r, state, latest, n).value;
            && Sound(r') && NotBack(r, r')
            && Length(r) < Length(r') && r'.status == Member && r.pseudonym in state.members
            && (r.verified.Some? ==> r.status.Invited? || r.status.Requesting?)
            && state.revision >= r.minRevision
            && r'.verified == Some(Verified(state, HashOf(latest)))
            && n.genuine && n.sequence in r.history && n.change == HashOf(latest) && n.state == state
  {
  }

  // ----- replaying a chain -----

  /** What a chain's changes come to, one checked on the other from the group's first. */
  function Replay(rules: Rules, home: string, chain: seq<Change>): Option<Verified> {
    if chain == [] then None
    else
      var last := chain[|chain| - 1];
      if |chain| == 1 then
        var first := CheckGenesis(rules, last, home);
        if last.revision == 0 && first.Ok? then Some(Verified(first.value, HashOf(last))) else None
      else
        var before := Replay(rules, home, chain[..|chain| - 1]);
        if before.None? then None
        else
          var next := CheckChange(rules, before.value, last);
          if next.Ok? then Some(Verified(next.value, HashOf(last))) else None
  }

  lemma {:induction false} ReplayShape(rules: Rules, home: string, chain: seq<Change>)
    requires Replay(rules, home, chain).Some?
    ensures chain != []
    ensures var v := Replay(rules, home, chain).value;
            && v.state.revision == |chain| - 1 && v.head == HashOf(chain[|chain| - 1])
            && chain[|chain| - 1].revision == |chain| - 1 && v.state.home == home
  {
    if |chain| > 1 {
      ReplayShape(rules, home, chain[..|chain| - 1]);
    }
  }

  /** A head stands for the whole history behind it: two chains that come to the same head are the same,
      change by change. */
  lemma {:induction false} HeadIsHistory(rules: Rules, home: string, a: seq<Change>, b: seq<Change>)
    requires Replay(rules, home, a).Some? && Replay(rules, home, b).Some?
    requires Replay(rules, home, a).value.head == Replay(rules, home, b).value.head
    ensures a == b
  {
    ReplayShape(rules, home, a);
    ReplayShape(rules, home, b);
    var n := |a| - 1;
    if n > 0 {
      ReplayShape(rules, home, a[..n]);
      ReplayShape(rules, home, b[..n]);
      HeadIsHistory(rules, home, a[..n], b[..n]);
    }
    assert a == a[..n] + [a[n]] && b == b[..n] + [b[n]];
  }

  datatype ContextCheck = Current | Behind | SenderBehind | Fork

  function CompareContext(v: Option<Verified>, revision: nat, head: Head): ContextCheck {
    if v.None? || revision > v.value.state.revision then Behind
    else if revision < v.value.state.revision then SenderBehind
    else if head == v.value.head then Current
    else Fork
  }

  /** A message's context says exactly how its sender's history stands to this device's: at one
      revision it is the same history, and so the same state, or it is a fork, and the home has shown
      its members two. */
  lemma {:induction false} ForkExactly(rules: Rules, home: string, mine: seq<Change>, theirs: seq<Change>)
    requires Replay(rules, home, mine).Some? && Replay(rules, home, theirs).Some?
    ensures var (m, t) := (Replay(rules, home, mine), Replay(rules, home, theirs));
            var check := CompareContext(m, t.value.state.revision, t.value.head);
            && (check == Current <==> mine == theirs)
            && (check == Fork <==> |mine| == |theirs| && mine != theirs)
            && (check == Behind <==> |theirs| > |mine|)
            && (check == SenderBehind <==> |theirs| < |mine|)
            && (check == Current ==> t.value.state == m.value.state)
  {
    ReplayShape(rules, home, mine);
    ReplayShape(rules, home, theirs);
    if Replay(rules, home, mine).value.head == Replay(rules, home, theirs).value.head {
      HeadIsHistory(rules, home, mine, theirs);
    }
  }

  // ----- what may be stored -----

  ghost predicate Replaced(stored: seq<Record>) {
    forall k :: 0 < k < |stored| ==> MayReplace(stored[k], stored[k - 1])
  }

  /** However many writers store a group's record, the store never goes back, drops a verified state, or
      takes another at the same revision. */
  lemma {:induction false} StoreNeverGoesBack(stored: seq<Record>, j: nat, k: nat)
    requires Replaced(stored) && j <= k < |stored|
    ensures Length(stored[j]) <= Length(stored[k])
    ensures Length(stored[j]) == Length(stored[k]) > 0 ==> stored[k].verified.value.head == stored[j].verified.value.head
  {
    if j < k {
      StoreNeverGoesBack(stored, j, k - 1);
      assert MayReplace(stored[k], stored[k - 1]);
    }
  }
}
