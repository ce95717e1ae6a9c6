/** The gate on received group content: accepted, refused, or held until it can be told, asking the
    group's home once at most. */
module GroupGate {
  import opened Common
  import GroupChain
  import CatchUps

  type Record = GroupChain.Record
  type ContextCheck = GroupChain.ContextCheck

  /** How a content's sender stands, to this device's present knowledge. */
  datatype Standing = Member | Unconfirmed | Stranger

  datatype Gate = Accept | Refuse | Hold | CatchUp

  datatype Reading = Reading(first: bool, caughtUp: bool, mayCatchUp: bool, readable: bool)

  /** The group context a message names; `head` is none when its chain hash does not decode. */
  datatype Context = Context(revision: nat, head: Option<GroupChain.Head>)

  function CheckOf(r: Record, c: Context): Option<ContextCheck> {
    if c.head.None? then None else Some(GroupChain.CompareContext(r.verified, c.revision, c.head.value))
  }

  function RevisionOf(r: Record): nat {
    if r.verified.Some? then r.verified.value.state.revision else 0
  }

  predicate Ahead(check: ContextCheck) {
    check.Behind? || check.Fork?
  }

  function GateFor(check: Option<ContextCheck>, standing: Standing, reading: Reading): Gate {
    var wait := if reading.first && reading.mayCatchUp then CatchUp else Hold;
    if check.Some? && Ahead(check.value) && reading.first && !reading.caughtUp then wait
    else
      match standing
      case Member => Accept
      case Unconfirmed => Hold
      case Stranger =>
        if check.Some? && !Ahead(check.value) then Refuse
        else if reading.caughtUp then Refuse
        else if check.None? && reading.readable then Refuse
        else wait
  }

  /** The gate without its order of tests: each answer, exactly when. Content is accepted only of a
      confirmed member, refused only of a stranger, and a second reading never asks again. */
  lemma {:induction false} GateExactly(check: Option<ContextCheck>, standing: Standing, reading: Reading)
    ensures var g := GateFor(check, standing, reading);
            var unsettled := check.Some? && Ahead(check.value) && reading.first && !reading.caughtUp;
            var ruledOut := reading.caughtUp || (if check.Some? then !Ahead(check.value) else reading.readable);
            var unknown := standing.Stranger? && check.None? && !reading.readable && !reading.caughtUp;
            && (g == Accept <==> (standing.Member? && !unsettled))
            && (g == Refuse <==> (standing.Stranger? && !unsettled && ruledOut))
            && (g == CatchUp <==> (reading.first && reading.mayCatchUp && (unsettled || unknown)))
  {
  }

  // ----- one decision, as a function of what the outside answers -----

  /** What a catch-up with the home left: the record, and whether it reached the latest. */
  datatype SyncAnswer = SyncAnswer(current: bool, record: Record)

  /** What surrounds one decision: the sender's standing as each of the two readings finds it, the
      clock, and what the home answers should it be asked. */
  datatype Outside = Outside(standing1: Standing, standing2: Standing, now: int, sync: SyncAnswer)

  datatype Decision = Decision(gate: Gate, record: Record, catchUps: Option<CatchUps.State>, asked: nat)

  predicate CaughtUpSince(s: Option<CatchUps.State>, receivedAt: int) {
    s.Some? && s.value.currentAtMs >= receivedAt && s.value.currentAtMs > 0
  }

  predicate MayCatchUp(s: Option<CatchUps.State>, r: Record, revision: Option<nat>, now: int) {
    s.None? || CatchUps.Allows(s.value, now, revision, RevisionOf(r))
  }

  function RevisionNamed(c: Option<Context>): Option<nat> {
    if c.Some? then Some(c.value.revision) else None
  }

  predicate StillAhead(answer: SyncAnswer, c: Option<Context>) {
    && answer.current
    && c.Some?
    && var check := CheckOf(answer.record, c.value);
       check.Some? && Ahead(check.value)
  }

  /** The catch-up `o` answers, as the throttle counts it. */
  function EventOf(r: Record, c: Option<Context>, o: Outside): CatchUps.Event {
    CatchUps.Event(o.now, RevisionNamed(c), RevisionOf(r), o.sync.current, StillAhead(o.sync, c))
  }

  /** One reading of the content against the record as it is. */
  function Read(r: Record, c: Option<Context>, standing: Standing, reading: Reading): Gate {
    if !r.status.Member? then Refuse
    else if c.Some? && CheckOf(r, c.value).None? then Refuse
    else GateFor(if c.Some? then CheckOf(r, c.value) else None, standing, reading)
  }

  function Decide(r: Record, s: Option<CatchUps.State>, blocked: bool, c: Option<Context>, readable: bool,
                  receivedAt: int, o: Outside): Decision
  {
    if blocked then Decision(Refuse, r, s, 0)
    else
      var caughtUp := CaughtUpSince(s, receivedAt);
      var first := Read(r, c, o.standing1, Reading(true, caughtUp, MayCatchUp(s, r, RevisionNamed(c), o.now), readable));
      if first != CatchUp then Decision(first, r, s, 0)
      else
        var s' := Some(CatchUps.After(s, EventOf(r, c, o)));
        var r' := o.sync.record;
        var second := Read(r', c, o.standing2, Reading(false, o.sync.current, MayCatchUp(s', r', RevisionNamed(c), o.now), readable));
        Decision(if second == CatchUp then Hold else second, r', s', 1)
  }

  // ----- the engine -----

  datatype Outcome = Decided(gate: Gate) | AskedToCatchUpTwice

  /** What the engine keeps per group for deciding its content. */
  class ContentGate {
    var records: map<string, Record>
    var catchUps: map<string, CatchUps.State>
    var blocked: set<string>

    constructor (records: map<string, Record>, blocked: set<string>)
      ensures this.records == records && this.catchUps == map[] && this.blocked == blocked
    {
      this.records := records;
      this.catchUps := map[];
      this.blocked := blocked;
    }

    function CatchUpsOf(group: string): Option<CatchUps.State>
      reads this
    {
      if group in catchUps then Some(catchUps[group]) else None
    }

    /** Catches the group up for content naming `context`; true when it is at the home's latest. */
    method CatchUpForContent(group: string, context: Option<Context>, o: Outside) returns (current: bool)
      requires group in records
      modifies this
      ensures current == o.sync.current && blocked == old(blocked)
      ensures records == old(records)[group := o.sync.record]
      ensures catchUps == old(catchUps)[group :=
                CatchUps.After(old(CatchUpsOf(group)), EventOf(old(records[group]), context, o))]
    {
      var verified := RevisionOf(records[group]);
      var revision := RevisionNamed(context);
      records := records[group := o.sync.record];
      current := o.sync.current;
      var stillAhead := false;
      if current && context.Some? {
        var check := CheckOf(records[group], context.value);
        stillAhead := check.Some? && (check.value.Behind? || check.value.Fork?);
      }
      var state := if group in catchUps then catchUps[group] else CatchUps.FRESH;
      var wasNews := CatchUps.News(state, revision, verified);
      state := state.(lastMs := o.now);
      if current {
        state := state.(currentAtMs := o.now);
      }
      state := state.(failures := if current && !stillAhead then 0 else Min(state.failures + 1, U32_MAX));
      if wasNews && revision.Some? {
        state := state.(askedUpTo := Max(state.askedUpTo, revision.value));
      }
      catchUps := catchUps[group := state];
    }

    /** The gate on content of the pairwise path, in two readings at most. */
    method DecideGroupContent(group: string, sender: string, context: Option<Context>, readable: bool,
                              receivedAt: int, o: Outside)
      returns (gate: Gate)
      modifies this
      ensures group !in old(records) ==> gate == Refuse && records == old(records) && catchUps == old(catchUps)
      ensures group in old(records) ==>
                var d := Decide(old(records[group]), old(CatchUpsOf(group)), sender in old(blocked), context, readable, receivedAt, o);
                && gate == d.gate
                && records == old(records)[group := d.record]
                && CatchUpsOf(group) == d.catchUps
      ensures blocked == old(blocked) && forall other :: other != group ==> CatchUpsOf(other) == old(CatchUpsOf(other))
    {
      if sender in blocked || group !in records {
        return Refuse;
      }
      var caughtUp := group in catchUps && catchUps[group].currentAtMs >= receivedAt && catchUps[group].currentAtMs > 0;
      var first := true;
      var round := 0;
      while round < 2
        invariant 0 <= round < 2 && first == (round == 0)  // the second reading always decides
        invariant blocked == old(blocked) && sender !in blocked
        invariant round == 0 ==> records == old(records) && catchUps == old(catchUps)
        invariant round == 0 ==> caughtUp == CaughtUpSince(old(CatchUpsOf(group)), receivedAt)
        invariant round > 0 ==>
          && caughtUp == o.sync.current
          && records == old(records)[group := o.sync.record]
          && catchUps == old(catchUps)[group := CatchUps.After(old(CatchUpsOf(group)), EventOf(old(records[group]), context, o))]
          && Read(old(records[group]), context, o.standing1, Reading(true, CaughtUpSince(old(CatchUpsOf(group)), receivedAt),
                  MayCatchUp(old(CatchUpsOf(group)), old(records[group]), RevisionNamed(context), o.now), readable)) == CatchUp
        invariant group in records
        decreases 2 - round
      {
        var record := records[group];
        if !record.status.Member? {
          return Refuse;
        }
        var standing := if first then o.standing1 else o.standing2;
        var check := None;
        if context.Some? {
          check := CheckOf(record, context.value);
          if check.None? {
            return Refuse;
          }
        }
        var reading := Reading(first, caughtUp, MayCatchUp(CatchUpsOf(group), record, RevisionNamed(context), o.now), readable);
        gate := GateFor(check, standing, reading);
        if gate != CatchUp {
          return gate;
        }
        caughtUp := CatchUpForContent(group, context, o);
        first := false;
        round := round + 1;
      }
      return Hold;
    }

    /** What a sender-key message may do; `silenced` when the group takes nothing of the sender's now. */
    method ReceiveGroupEnvelope(group: string, sender: string, context: Context, silenced: bool, receivedAt: int, o: Outside)
      returns (outcome: Outcome)
      modifies this
      ensures outcome.Decided?
      ensures group !in old(records) ==> outcome == Decided(Refuse) && records == old(records) && catchUps == old(catchUps)
      ensures group in old(records) ==>
                var d := Decide(old(records[group]), old(CatchUpsOf(group)), sender in old(blocked), Some(context), true, receivedAt, o);
                && outcome == Decided(if d.gate == Accept && silenced then Refuse else d.gate)
                && records == old(records)[group := d.record]
                && CatchUpsOf(group) == d.catchUps
    {
      if sender in blocked {
        return Decided(Refuse);
      }
      var caughtUp := CaughtUpSince(CatchUpsOf(group), receivedAt);
      for round := 0 to 2
        invariant blocked == old(blocked) && sender !in blocked
        invariant round == 0 ==> records == old(records) && catchUps == old(catchUps)
        invariant round == 0 ==> caughtUp == CaughtUpSince(old(CatchUpsOf(group)), receivedAt)
        invariant round > 0 ==>
          && group in old(records)
          && caughtUp == o.sync.current
          && records == old(records)[group := o.sync.record]
          && catchUps == old(catchUps)[group := CatchUps.After(old(CatchUpsOf(group)), EventOf(old(records[group]), Some(context), o))]
          && Read(old(records[group]), Some(context), o.standing1, Reading(true, CaughtUpSince(old(CatchUpsOf(group)), receivedAt),
                  MayCatchUp(old(CatchUpsOf(group)), old(records[group]), Some(context.revision), o.now), true)) == CatchUp
        invariant round < 2  // so the error after the loop is never answered
      {
        if group !in records || !records[group].status.Member? {
          return Decided(Refuse);
        }
        var record := records[group];
        var check := CheckOf(record, context);
        var gate := Refuse;
        if check.Some? {
          var reading := Reading(round == 0, caughtUp, MayCatchUp(CatchUpsOf(group), record, Some(context.revision), o.now), true);
          gate := GateFor(check, if round == 0 then o.standing1 else o.standing2, reading);
          if gate == Accept && silenced {
            gate := Refuse;
          }
        }
        if gate != CatchUp {
          return Decided(gate);
        }
        caughtUp := CatchUpForContent(group, Some(context), o);
      }
      return AskedToCatchUpTwice;
    }
  }
}
