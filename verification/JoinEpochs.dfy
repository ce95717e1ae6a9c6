/** Joining a group, again after leaving it: the record an invitation or a link starts, and the epoch
    its pseudonym is derived at. */
module JoinEpochs {
  import opened Common
  import opened GroupChain

  const MAX_JOIN_EPOCHS: nat := 64

  /** The group's entry in the account's list of groups. */
  datatype Listing = ListedMember(epoch: nat) | ListedGone(epoch: nat)

  datatype Invite = Invite(group: string, home: string, slot: string, slotRevision: nat, wellFormed: bool)

  datatype Link = Link(group: string, home: string, wellFormed: bool)

  /** The account's pseudonym of a group at an epoch. */
  type Keys = (string, nat) -> string

  datatype JoinError = NotTheGroups | EpochsUsedUp | NotReplaceable | AnotherHome | OlderInvitation | MemberAlready

  function Up(epoch: nat): nat {
    if epoch < U32_MAX then epoch + 1 else epoch
  }

  /** The epoch after the last one a record's membership used. */
  function EpochAfter(r: Record): nat {
    if r.status.Invited? || r.status.Requesting? then r.joinEpoch else Up(r.joinEpoch)
  }

  function ListedEpoch(listed: Option<Listing>): Option<nat> {
    if listed.None? then None
    else
      match listed.value
      case ListedMember(e) => Some(e)
      case ListedGone(e) => Some(Up(e))
  }

  function WithinJoinEpochs(epoch: nat): Result<nat, JoinError> {
    if epoch >= MAX_JOIN_EPOCHS then Err(EpochsUsedUp) else Ok(epoch)
  }

  function OrZero(o: Option<nat>): nat {
    if o.Some? then o.value else 0
  }

  function StartEpoch(previous: Option<Record>, listed: Option<Listing>): Result<nat, JoinError> {
    var here := if previous.Some? then EpochAfter(previous.value) else 0;
    WithinJoinEpochs(Max(here, OrZero(ListedEpoch(listed))))
  }

  function Fresh(group: string, home: string, keys: Keys, epoch: nat, status: Status, minRevision: nat): Record {
    Record(group, home, keys(group, epoch), status, minRevision, None, None, {}, epoch, None, None)
  }

  /** What a new record keeps of the one it replaces: the verified state, its notary's sequence, and what
      was followed of the home. */
  function Keeping(r: Record, previous: Record): Record {
    r.(verified := previous.verified, notarySequence := previous.notarySequence, history := previous.history)
  }

  predicate Replaceable(previous: Record, invite: Invite) {
    match previous.status
    case Gone => true
    case Invited(_, slotRevision) => invite.slotRevision > slotRevision
    case Member => false
    case Requesting => false
  }

  function RecordFromInvite(invite: Invite, previous: Option<Record>, listed: Option<Listing>, keys: Keys): Result<Record, JoinError> {
    if !invite.wellFormed then Err(NotTheGroups)
    else
      var epoch := StartEpoch(previous, listed);
      if epoch.Err? then Err(epoch.error)
      else
        var r := Fresh(invite.group, invite.home, keys, epoch.value, Invited(invite.slot, invite.slotRevision), invite.slotRevision);
        if previous.None? then Ok(r)
        else
          var p := previous.value;
          if p.group != r.group || !Replaceable(p, invite) then Err(NotReplaceable)
          else if p.home != r.home then Err(AnotherHome)
          else if p.verified.Some? && invite.slotRevision <= p.verified.value.state.revision then Err(OlderInvitation)
          else Ok(Keeping(r, p).(minRevision := Max(r.minRevision, p.minRevision)))
  }

  function RecordFromLink(link: Link, previous: Option<Record>, listed: Option<Listing>, keys: Keys): Result<Record, JoinError> {
    if !link.wellFormed then Err(NotTheGroups)
    else
      var epoch := StartEpoch(previous, listed);
      if epoch.Err? then Err(epoch.error)
      else if previous.Some? && (previous.value.group != link.group || previous.value.home != link.home) then Err(AnotherHome)
      else if previous.Some? && previous.value.status == Member then Err(MemberAlready)
      else
        var r := Fresh(link.group, link.home, keys, epoch.value, Requesting, 0);
        if previous.None? then Ok(r)
        else Ok(Keeping(r, previous.value).(minRevision := previous.value.minRevision))
  }

  /** An epoch no membership known to have ended was under. */
  predicate PastEnded(epoch: nat, previous: Option<Record>, listed: Option<Listing>) {
    && epoch < MAX_JOIN_EPOCHS
    && (previous.Some? && previous.value.status in {Member, Gone} ==> epoch > previous.value.joinEpoch)
    && (listed.Some? && listed.value.ListedGone? ==> epoch > listed.value.epoch)
  }

  /** An epoch is given up only when its membership is known to have ended. */
  predicate NotPastCurrent(epoch: nat, previous: Option<Record>, listed: Option<Listing>) {
    && (previous.Some? && !(previous.value.status in {Member, Gone}) ==> epoch >= previous.value.joinEpoch)
    && (listed.Some? && listed.value.ListedMember? ==> epoch >= listed.value.epoch)
  }

  /** The epoch a join starts at is the least that is past every ended membership's, here or in the
      list, and not below a current one's; the join is refused exactly when no epoch below 64 is. */
  lemma {:induction false} StartIsTheLeast(previous: Option<Record>, listed: Option<Listing>)
    ensures var start := StartEpoch(previous, listed);
            match start
            case Ok(e) =>
              && PastEnded(e, previous, listed) && NotPastCurrent(e, previous, listed)
              && forall f: nat | PastEnded(f, previous, listed) && NotPastCurrent(f, previous, listed) :: e <= f
            case Err(error) =>
              error == EpochsUsedUp && forall f: nat :: !(PastEnded(f, previous, listed) && NotPastCurrent(f, previous, listed))
  {
  }

  ghost predicate Distinguishes(keys: Keys, group: string) {
    forall d: nat, e: nat :: keys(group, d) == keys(group, e) ==> d == e
  }

  /** A new record never takes the group back: the state held and its notary are kept, and a rejoin is
      under a pseudonym the ended membership did not have. The store takes it. */
  lemma {:induction false} JoiningNeverGoesBack(r: Record, invite: Invite, link: Link, previous: Record, listed: Option<Listing>, keys: Keys)
    requires Sound(previous)
    requires || RecordFromInvite(invite, Some(previous), listed, keys) == Ok(r)
             || RecordFromLink(link, Some(previous), listed, keys) == Ok(r)
    ensures Sound(r) && NotBack(previous, r) && MayReplace(r, previous)
    ensures r.verified == previous.verified && r.pseudonym == keys(r.group, r.joinEpoch) && r.joinEpoch < MAX_JOIN_EPOCHS
    ensures previous.status == Gone && previous.pseudonym == keys(previous.group, previous.joinEpoch) && Distinguishes(keys, r.group)
            ==> r.pseudonym != previous.pseudonym
  {
    StartIsTheLeast(Some(previous), listed);
  }

  // ----- claiming a slot -----

  /** What the home answers a claim: its pseudonym used up, anything else but taking
      it, that it is taken, or nothing. */
  datatype ClaimAnswer = PseudonymUsed | Refused | Taken | Failed

  datatype InfoAnswer = SlotGone | InfoFailed | Unreadable | Info(revision: nat)

  datatype Claimed =
    | Claimed | ClaimedElsewhere | Unreachable | NoInvitation | Limit | BadInfo

  predicate UsedFrom(answers: nat -> ClaimAnswer, start: nat, end: nat) {
    forall e :: start <= e < end ==> answers(e) == PseudonymUsed
  }

  /** The epochs claimed at, from `start`, against a home that answers each by `answers`. */
  function LastClaim(answers: nat -> ClaimAnswer, start: nat): (last: nat)
    requires start < MAX_JOIN_EPOCHS
    ensures start <= last < MAX_JOIN_EPOCHS
    decreases MAX_JOIN_EPOCHS - start
  {
    if answers(start) == PseudonymUsed && start + 1 < MAX_JOIN_EPOCHS then LastClaim(answers, start + 1) else start
  }

  /** The last claim is at the least epoch the home does not know as used, from the start on, or at the
      last there is when it says so of every one. */
  lemma {:induction false} LastClaimIsLeastUnused(answers: nat -> ClaimAnswer, start: nat)
    requires start < MAX_JOIN_EPOCHS
    ensures var last := LastClaim(answers, start);
            && start <= last < MAX_JOIN_EPOCHS && UsedFrom(answers, start, last)
            && (answers(last) == PseudonymUsed <==> UsedFrom(answers, start, MAX_JOIN_EPOCHS))
            && (answers(last) == PseudonymUsed ==> last == MAX_JOIN_EPOCHS - 1)
    decreases MAX_JOIN_EPOCHS - start
  {
    if answers(start) == PseudonymUsed && start + 1 < MAX_JOIN_EPOCHS {
      LastClaimIsLeastUnused(answers, start + 1);
    }
  }

  class Joining {
    const record: GroupRecord
    const keys: Keys
    /** The record as it was last saved. */
    var saved: Record

    constructor (record: GroupRecord, keys: Keys)
      ensures this.record == record && this.keys == keys && saved == record.Value()
    {
      this.record, this.keys := record, keys;
      this.saved := record.Value();
    }

    method MoveJoinEpoch(epoch: nat)
      modifies this, record
      ensures record.Value() == old(record.Value()).(joinEpoch := epoch, pseudonym := keys(record.group, epoch))
      ensures saved == record.Value()
    {
      record.joinEpoch := epoch;
      record.pseudonym := keys(record.group, epoch);
      saved := record.Value();
    }

    /** Claims the slot, at the next epoch each time the home knows the pseudonym as used. */
    method Claim(basis: nat, answers: nat -> ClaimAnswer) returns (c: Claimed, claims: seq<nat>)
      requires record.joinEpoch < MAX_JOIN_EPOCHS && record.pseudonym == keys(record.group, record.joinEpoch)
      modifies this, record
      ensures var start := old(record.joinEpoch);
              var last := LastClaim(answers, start);
              && claims == seq(last - start + 1, k requires 0 <= k => start + k)
              && |claims| <= MAX_JOIN_EPOCHS - start
              && c == (match answers(last)
                       case PseudonymUsed => Limit
                       case Refused => ClaimedElsewhere
                       case Taken => Claimed
                       case Failed => Unreachable)
              && record.Value() == old(record.Value()).(
                   joinEpoch := last, pseudonym := keys(record.group, last),
                   minRevision := Max(old(record.minRevision), basis + 1))
              && (c == Claimed ==> saved == record.Value())
              && (last > start ==> saved.joinEpoch == last)
    {
      ghost var start := record.joinEpoch;
      claims := [];
      while true
        invariant start <= record.joinEpoch < MAX_JOIN_EPOCHS
        invariant LastClaim(answers, start) == LastClaim(answers, record.joinEpoch)
        invariant claims == seq(record.joinEpoch - start, k requires 0 <= k => start + k)
        invariant record.Value() == old(record.Value()).(
                    joinEpoch := record.joinEpoch, pseudonym := keys(record.group, record.joinEpoch),
                    minRevision := if claims == [] then old(record.minRevision) else Max(old(record.minRevision), basis + 1))
        invariant record.joinEpoch > start ==> saved.joinEpoch == record.joinEpoch
        decreases MAX_JOIN_EPOCHS - record.joinEpoch
      {
        record.minRevision := Max(record.minRevision, basis + 1);
        claims := claims + [record.joinEpoch];
        match answers(record.joinEpoch) {
          case PseudonymUsed =>
            var next := WithinJoinEpochs(Up(record.joinEpoch));
            if next.Err? {
              return Limit, claims;
            }
            MoveJoinEpoch(next.value);
          case Refused =>
            return ClaimedElsewhere, claims;
          case Taken =>
            saved := record.Value();
            return Claimed, claims;
          case Failed =>
            return Unreachable, claims;
        }
      }
    }

    /** Accepts an invitation: past an ended membership's epoch the list names, then the claims. */
    method ClaimGroupInvite(listed: Option<Listing>, info: InfoAnswer, answers: nat -> ClaimAnswer) returns (c: Claimed, claims: seq<nat>)
      requires record.joinEpoch < MAX_JOIN_EPOCHS && record.pseudonym == keys(record.group, record.joinEpoch)
      modifies this, record
      ensures !old(record.status).Invited? ==> c == NoInvitation && claims == [] && record.Value() == old(record.Value())
      ensures old(record.status).Invited? ==>
                var start := Max(old(record.joinEpoch), OrZero(ListedEpoch(listed)));
                && (start >= MAX_JOIN_EPOCHS ==> c == Limit && claims == [])
                && (start < MAX_JOIN_EPOCHS && info.SlotGone? ==> c == ClaimedElsewhere && claims == [])
                && (start < MAX_JOIN_EPOCHS && info.InfoFailed? ==> c == Unreachable && claims == [])
                && (start < MAX_JOIN_EPOCHS && info.Unreadable? ==> c == BadInfo && claims == [])
                && (start < MAX_JOIN_EPOCHS && info.Info? ==>
                      && |claims| == LastClaim(answers, start) - start + 1
                      && (forall k :: 0 <= k < |claims| ==> claims[k] == start + k)
                      && record.joinEpoch == LastClaim(answers, start)
                      && (c == Claimed <==> answers(record.joinEpoch) == Taken)
                      && (c == Limit <==> UsedFrom(answers, start, MAX_JOIN_EPOCHS))
                      && record.minRevision == Max(old(record.minRevision), info.revision + 1))
    {
      claims := [];
      if !record.status.Invited? {
        return NoInvitation, claims;
      }
      var epoch := ListedEpoch(listed);
      if epoch.Some? && epoch.value > record.joinEpoch {
        var within := WithinJoinEpochs(epoch.value);
        if within.Err? {
          return Limit, claims;
        }
        MoveJoinEpoch(within.value);
      }
      match info {
        case SlotGone => return ClaimedElsewhere, claims;
        case InfoFailed => return Unreachable, claims;
        case Unreadable => return BadInfo, claims;
        case Info(revision) =>
          LastClaimIsLeastUnused(answers, record.joinEpoch);
          c, claims := Claim(revision, answers);
      }
    }
  }
}
