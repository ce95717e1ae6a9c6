/** Everything that may happen to one group's record, in any order and against any home: what is
    verified never goes back. */
module GroupRuns {
  import opened Common
  import opened GroupChain
  import opened JoinEpochs
  import GroupSync

  datatype Event =
    | TakeChange(change: Change, notary: Notary)
    | TakeState(state: State, latest: Change, notary: Notary)
    | FollowHome(history: set<nat>)
    | NotFound(now: int)
    | Decline
    | TakeInvite(invite: Invite, listed: Option<Listing>)
    | TakeLink(link: Link, listed: Option<Listing>)
    | MakeClaim(revision: nat)
    | NextEpoch(epoch: nat)

  /** The record after an event; as it was, when the event is refused. */
  function Next(rules: Rules, keys: Keys, r: Record, e: Event): Record {
    match e
    case TakeChange(change, notary) => OrElse(Accepted(rules, r, change, notary), r)
    case TakeState(state, latest, notary) => OrElse(AcceptedState(rules, r, state, latest, notary), r)
    case FollowHome(history) => r.(history := history)
    case NotFound(now) => GroupSync.GoneAfter(r, now)
    case Decline => if r.status.Invited? then r.(status := Gone) else r
    case TakeInvite(invite, listed) => OrElse(RecordFromInvite(invite, Some(r), listed, keys), r)
    case TakeLink(link, listed) => OrElse(RecordFromLink(link, Some(r), listed, keys), r)
    case MakeClaim(revision) => r.(minRevision := Max(r.minRevision, revision))
    case NextEpoch(epoch) => if r.status.Invited? then r.(joinEpoch := epoch, pseudonym := keys(r.group, epoch)) else r
  }

  function OrElse<E>(result: Result<Record, E>, r: Record): Record {
    if result.Ok? then result.value else r
  }

  lemma {:induction false} EventNeverGoesBack(rules: Rules, keys: Keys, r: Record, e: Event)
    requires Sound(r)
    ensures var r' := Next(rules, keys, r, e); Sound(r') && NotBack(r, r') && MayReplace(r', r)
  {
    match e {
      case TakeChange(change, notary) =>
        if Accepted(rules, r, change, notary).Ok? {
          AcceptedIsNext(rules, r, change, notary);
        }
      case TakeState(state, latest, notary) =>
        if AcceptedState(rules, r, state, latest, notary).Ok? {
          AcceptedStateIsLater(rules, r, state, latest, notary);
        }
      case TakeInvite(invite, listed) =>
        if RecordFromInvite(invite, Some(r), listed, keys).Ok? {
          JoiningNeverGoesBack(Next(rules, keys, r, e), invite, Link("", "", true), r, listed, keys);
        }
      case TakeLink(link, listed) =>
        if RecordFromLink(link, Some(r), listed, keys).Ok? {
          JoiningNeverGoesBack(Next(rules, keys, r, e), Invite("", "", "", 0, true), link, r, listed, keys);
        }
      case _ =>
    }
  }

  /** How a device comes to a group's record: by creating the group, from the account's list of groups or a
      member's message, or by an invitation or a link. */
  datatype Origin =
    | Created(group: string, home: string)
    | TakenUp(group: string, home: string, epoch: nat, verifiedRevision: nat)
    | Recovered(group: string, home: string, epoch: nat)
    | ByInvite(invite: Invite, listed: Option<Listing>)
    | ByLink(link: Link, listed: Option<Listing>)

  function FirstRecord(keys: Keys, o: Origin): Option<Record> {
    match o
    case Created(group, home) => Some(Fresh(group, home, keys, 0, Member, 0))
    case TakenUp(group, home, epoch, verified) => Some(Fresh(group, home, keys, epoch, Member, verified))
    case Recovered(group, home, epoch) => Some(Fresh(group, home, keys, epoch, Member, 0))
    case ByInvite(invite, listed) => Made(RecordFromInvite(invite, None, listed, keys))
    case ByLink(link, listed) => Made(RecordFromLink(link, None, listed, keys))
  }

  function Made<E>(result: Result<Record, E>): Option<Record> {
    if result.Ok? then Some(result.value) else None
  }

  /** A run may begin with any record a device comes to. */
  lemma {:induction false} FirstRecordIsSound(keys: Keys, o: Origin)
    requires FirstRecord(keys, o).Some?
    ensures var r := FirstRecord(keys, o).value;
            && Sound(r) && Length(r) == 0 && r.pseudonym == keys(r.group, r.joinEpoch)
            && (o.ByInvite? || o.ByLink? ==> r.joinEpoch < MAX_JOIN_EPOCHS)
  {
    match o {
      case ByInvite(invite, listed) => StartIsTheLeast(None, listed);
      case ByLink(link, listed) => StartIsTheLeast(None, listed);
      case _ =>
    }
  }

  ghost predicate Run(rules: Rules, keys: Keys, rs: seq<Record>, es: seq<Event>) {
    && |rs| == |es| + 1
    && Sound(rs[0])
    && forall k :: 0 <= k < |es| ==> rs[k + 1] == Next(rules, keys, rs[k], es[k])
  }

  /** Over any run, against any home, whatever it answers, invitations, links and rejoins included: the
      verified revision and the home's identity only move forward, a verified state is never lost nor
      swapped for another at its revision, and so the store takes every record of the run. */
  lemma {:induction false} RunNeverGoesBack(rules: Rules, keys: Keys, rs: seq<Record>, es: seq<Event>)
    requires Run(rules, keys, rs, es)
    ensures Sound(rs[|es|]) && NotBack(rs[0], rs[|es|])
    ensures forall k :: 0 < k < |rs| ==> MayReplace(rs[k], rs[k - 1])
  {
    if es != [] {
      var n := |es| - 1;
      RunNeverGoesBack(rules, keys, rs[..n + 1], es[..n]);
      EventNeverGoesBack(rules, keys, rs[n], es[n]);
      forall k | 0 < k < |rs| ensures MayReplace(rs[k], rs[k - 1]) {
        if k <= n {
          assert rs[..n + 1][k] == rs[k] && rs[..n + 1][k - 1] == rs[k - 1];
        }
      }
    }
  }
}
