/** One group over time: its home's chain, this device somewhere along it, and content arriving from
    anyone, in any order with joins, removals, catch-ups and passes of the clock. */
module GroupTimeline {
  import opened Common
  import opened GroupGate
  import GroupChain
  import CatchUps

  /** Content that arrived: who sent it, the context it names if any, whether it could be read, and when
      this device received it. */
  datatype Content = Content(sender: string, context: Option<Context>, readable: bool, receivedAt: int)

  /** Content an honest member sent, at the revision it then held. */
  datatype Sent = Sent(content: Content, at: nat)

  /** The chain the home has, as its states and heads, and the accounts bound to a state's members; this
      device's record but for what it verified, and the revision it verified; its throttle, and every
      catch-up it made; what arrived, and what of that is honest. */
  datatype World = World(
    log: seq<GroupChain.Verified>, accounts: GroupChain.State -> set<string>, self: Record, clock: int, verified: nat,
    catchUps: Option<CatchUps.State>, asked: seq<CatchUps.Event>, arrived: set<Content>, honest: set<Sent>)

  /** What an honest home's answer to a catch-up amounts to: the latest, or not that far. */
  datatype HomeAnswer = Reached | Stopped(upTo: nat)

  datatype Step =
    | Commit(next: GroupChain.Verified)
    | Tick(ms: nat)
    | Arrive(content: Content, at: Option<nat>)    // from an honest member at that revision, or from anyone
    | Sync(upTo: nat)
    | Judge(content: Content, confirmed1: bool, confirmed2: bool, answer: HomeAnswer)

  function MembersAt(w: World, r: nat): set<string>
    requires r < |w.log|
  {
    w.accounts(w.log[r].state)
  }

  /** This account is a member at the revision. */
  predicate InGroupAt(w: World, r: nat)
    requires r < |w.log|
  {
    w.self.pseudonym in w.log[r].state.members
  }

  /** The record of a device that follows an honest home. */
  function RecordAt(w: World, v: nat): Record
    requires v < |w.log|
  {
    w.self.(verified := Some(w.log[v]), status := if InGroupAt(w, v) then GroupChain.Member else GroupChain.Gone)
  }

  function AnsweredRevision(w: World, answer: HomeAnswer): nat
    requires w.verified < |w.log|
  {
    match answer
    case Reached => |w.log| - 1
    case Stopped(n) => Max(w.verified, Min(n, |w.log| - 1))
  }

  /** A sender in the state is a member, confirmed now or not; anyone else is a stranger. */
  function StandingAt(w: World, r: nat, sender: string, confirmed: bool): Standing
    requires r < |w.log|
  {
    if sender !in MembersAt(w, r) then Stranger else if confirmed then Member else Unconfirmed
  }

  function OutsideOf(w: World, c: Content, confirmed1: bool, confirmed2: bool, answer: HomeAnswer): Outside
    requires w.verified < |w.log|
  {
    var v := AnsweredRevision(w, answer);
    Outside(StandingAt(w, w.verified, c.sender, confirmed1), StandingAt(w, v, c.sender, confirmed2),
            w.clock, SyncAnswer(answer.Reached?, RecordAt(w, v)))
  }

  function Outcome(w: World, c: Content, confirmed1: bool, confirmed2: bool, answer: HomeAnswer): Decision
    requires w.verified < |w.log|
  {
    Decide(RecordAt(w, w.verified), w.catchUps, false, c.context, c.readable, c.receivedAt,
           OutsideOf(w, c, confirmed1, confirmed2, answer))
  }

  function EventAt(w: World, c: Content, k1: bool, k2: bool, answer: HomeAnswer): CatchUps.Event
    requires w.verified < |w.log|
  {
    EventOf(RecordAt(w, w.verified), c.context, OutsideOf(w, c, k1, k2, answer))
  }

  /** Content an honest member may send: a member at the revision it held, on the home's one chain, which
      what can be read names, and which exists by the time it arrives. */
  predicate HonestlySent(w: World, s: Sent) {
    && s.at < |w.log|
    && s.content.sender in MembersAt(w, s.at)
    && (s.content.context.None? ==> !s.content.readable)
    && (s.content.context.Some? ==> s.content.context.value == Context(s.at, Some(w.log[s.at].head)))
  }

  predicate Enabled(w: World, s: Step) {
    match s
    case Commit(v) => v.state.revision == |w.log|
    case Tick(_) => true
    case Arrive(c, at) => c.receivedAt == w.clock && (at.Some? ==> HonestlySent(w, Sent(c, at.value)))
    case Sync(n) => w.verified <= n < |w.log|
    case Judge(c, _, _, _) => c in w.arrived && w.verified < |w.log|
  }

  function Next(w: World, s: Step): World
    requires Enabled(w, s)
  {
    match s
    case Commit(v) => w.(log := w.log + [v])
    case Tick(ms) => w.(clock := w.clock + ms)
    case Arrive(c, at) =>
      w.(arrived := w.arrived + {c}, honest := if at.Some? then w.honest + {Sent(c, at.value)} else w.honest)
    case Sync(n) => w.(verified := n)
    case Judge(c, k1, k2, answer) =>
      var d := Outcome(w, c, k1, k2, answer);
      if d.asked == 0 then w.(catchUps := d.catchUps)
      else w.(catchUps := d.catchUps, verified := AnsweredRevision(w, answer), asked := w.asked + [EventAt(w, c, k1, k2, answer)])
  }

  /** Every state of the chain is at its own place in it. */
  predicate InPlace(log: seq<GroupChain.Verified>) {
    forall r :: 0 <= r < |log| ==> log[r].state.revision == r
  }

  predicate Start(w: World) {
    w.verified < |w.log| && InPlace(w.log) && w.catchUps.None? && w.asked == [] && w.arrived == {} && w.honest == {} && w.clock > 0
  }

  ghost predicate Run(ws: seq<World>, steps: seq<Step>) {
    && |ws| == |steps| + 1
    && Start(ws[0])
    && forall i :: 0 <= i < |steps| ==> StepAt(ws, steps, i)
  }

  ghost predicate StepAt(ws: seq<World>, steps: seq<Step>, i: nat)
    requires |ws| == |steps| + 1 && i < |steps|
  {
    Enabled(ws[i], steps[i]) && ws[i + 1] == Next(ws[i], steps[i])
  }

  /** Every reachable world: the device is somewhere on the home's chain, and honest content it counts as
      caught up for is content it is level with, unless that catch-up began in the very millisecond the
      content was received. */
  ghost predicate Inv(w: World) {
    && w.verified < |w.log| && InPlace(w.log)
    && (w.catchUps.Some? ==> w.catchUps.value.currentAtMs <= w.clock)
    && w.clock > 0
    && forall s :: s in w.honest ==>
         && HonestlySent(w, s)
         && s.content.receivedAt <= w.clock
         && (CaughtUpSince(w.catchUps, s.content.receivedAt) && s.content.receivedAt != w.catchUps.value.currentAtMs
             ==> s.at <= w.verified)
  }

  lemma {:induction false} StepKeepsInv(w: World, step: Step)
    requires Inv(w) && Enabled(w, step)
    ensures Inv(Next(w, step))
  {
    var w' := Next(w, step);
    forall s | s in w'.honest
      ensures HonestlySent(w', s) && s.content.receivedAt <= w'.clock
      ensures CaughtUpSince(w'.catchUps, s.content.receivedAt) && s.content.receivedAt != w'.catchUps.value.currentAtMs
              ==> s.at <= w'.verified
    {
    }
  }

  lemma {:induction false} ReachableInv(ws: seq<World>, steps: seq<Step>, n: nat)
    requires Run(ws, steps) && n < |ws|
    ensures Inv(ws[n])
  {
    if n > 0 {
      ReachableInv(ws, steps, n - 1);
      assert StepAt(ws, steps, n - 1);
      StepKeepsInv(ws[n - 1], steps[n - 1]);
    }
  }

  /** The sender stayed a member from the revision held on sending to the latest, and this account from
      the one verified here. */
  ghost predicate StillMembers(w: World, s: Sent) {
    && (forall r :: s.at <= r < |w.log| ==> s.content.sender in MembersAt(w, r))
    && (forall r :: w.verified <= r < |w.log| ==> InGroupAt(w, r))
  }

  /** Exactly when a current member's content is refused, in any reachable world: this device does
      not see them in the state it holds, and counts itself as caught up since the content came. */
  lemma {:induction false} RefusedExactly(w: World, s: Sent, k1: bool, k2: bool, answer: HomeAnswer)
    requires Inv(w) && s in w.honest && StillMembers(w, s)
    ensures Outcome(w, s.content, k1, k2, answer).gate == Refuse <==>
              s.content.sender !in MembersAt(w, w.verified) && CaughtUpSince(w.catchUps, s.content.receivedAt)
    ensures Outcome(w, s.content, k1, k2, answer).gate == Refuse ==> s.content.receivedAt == w.catchUps.value.currentAtMs
  {
  }

  /** No honest content is received in the millisecond the last catch-up to the latest began. */
  ghost predicate CleanArrivals(ws: seq<World>, steps: seq<Step>)
    requires |ws| == |steps| + 1
  {
    forall i :: 0 <= i < |steps| && steps[i].Arrive? && steps[i].at.Some? && ws[i].catchUps.Some?
      ==> ws[i].catchUps.value.currentAtMs < ws[i].clock
  }

  /** Then content this device counts as caught up for is content it is level with. */
  ghost predicate Level(w: World) {
    forall s :: s in w.honest && CaughtUpSince(w.catchUps, s.content.receivedAt) ==> s.at <= w.verified
  }

  lemma {:induction false} ReachableLevel(ws: seq<World>, steps: seq<Step>, n: nat)
    requires Run(ws, steps) && CleanArrivals(ws, steps) && n < |ws|
    ensures Inv(ws[n]) && Level(ws[n])
  {
    if n > 0 {
      ReachableLevel(ws, steps, n - 1);
      assert StepAt(ws, steps, n - 1);
      StepKeepsInv(ws[n - 1], steps[n - 1]);
    }
  }

  /** No current member's content is ever refused, only accepted or held, with at most one catch-up made
      for it: whatever joins, removals, catch-ups and passes of the clock came before, whatever arrived
      from members and anyone else, and whatever the home and the members' manifests answer now. */
  lemma {:induction false} NeverRefused(ws: seq<World>, steps: seq<Step>, s: Sent, k1: bool, k2: bool, answer: HomeAnswer)
    requires Run(ws, steps) && CleanArrivals(ws, steps)
    requires s in ws[|steps|].honest && StillMembers(ws[|steps|], s)
    ensures ws[|steps|].verified < |ws[|steps|].log|
    ensures var d := Outcome(ws[|steps|], s.content, k1, k2, answer);
            (d.gate == Accept || d.gate == Hold) && d.asked <= 1
  {
    ReachableLevel(ws, steps, |steps|);
    RefusedExactly(ws[|steps|], s, k1, k2, answer);
  }

  function PlaceOf(revision: nat): GroupChain.Verified {
    GroupChain.Verified(GroupChain.State("group", revision, "home", {"me"}, {}, {}, false, ""), GroupChain.Nothing)
  }

  function From(sender: string, revision: nat): Content {
    Content(sender, Some(Context(revision, Some(GroupChain.Nothing))), true, 5)
  }

  lemma {:induction false} OneMore(ws: seq<World>, steps: seq<Step>, step: Step) returns (more: seq<World>, w: World)
    requires Run(ws, steps) && Enabled(ws[|steps|], step)
    ensures w == Next(ws[|steps|], step) && more == ws + [w] && Run(more, steps + [step]) && more[|steps| + 1] == w
  {
    w := Next(ws[|steps|], step);
    more := ws + [w];
    forall i | 0 <= i < |steps| + 1 ensures StepAt(more, steps + [step], i) {
      if i < |steps| {
        assert StepAt(ws, steps, i);
      }
    }
  }

  function AccountsAt(state: GroupChain.State): set<string> {
    if state.revision < 2 then {"a"} else {"a", "b"}
  }

  /** A run that ends as a catch-up to revision 1 began, at 5. */
  ghost predicate JustCaughtUp(ws: seq<World>, steps: seq<Step>) {
    && Run(ws, steps)
    && var w := ws[|steps|];
       && w.log == [PlaceOf(0), PlaceOf(1)] && w.accounts == AccountsAt && w.self.pseudonym == "me"
       && w.clock == 5 && w.verified == 1 && w.catchUps.Some? && w.catchUps.value.currentAtMs == 5
  }

  /** The group gains its second revision, and content sent at it arrives. */
  lemma {:induction false} ArrivesOnce(w: World, c: Content) returns (ws: seq<World>, steps: seq<Step>)
    requires Start(w) && w.log == [PlaceOf(0)] && w.accounts == AccountsAt && c == From("a", 1) && w.clock == 5
    ensures Run(ws, steps)
    ensures ws[|steps|] == w.(log := [PlaceOf(0), PlaceOf(1)], arrived := {c}, honest := {Sent(c, 1)})
  {
    ws, steps := [w], [];
    var w1;
    ws, w1 := OneMore(ws, steps, Commit(PlaceOf(1)));
    steps := steps + [Commit(PlaceOf(1))];
    ws, w1 := OneMore(ws, steps, Arrive(c, Some(1)));
    steps := steps + [Arrive(c, Some(1))];
  }

  lemma {:induction false} CatchesUp() returns (ws: seq<World>, steps: seq<Step>)
    ensures JustCaughtUp(ws, steps)
  {
    var self := GroupChain.Record("group", "home", "me", GroupChain.Member, 0, None, None, {}, 0, None, None);
    var first := From("a", 1);
    var w := World([PlaceOf(0)], AccountsAt, self, 5, 0, None, [], {}, {});
    ws, steps := ArrivesOnce(w, first);
    FirstCatchUp(ws[|steps|], first);
    ws, w := OneMore(ws, steps, Judge(first, true, true, Reached));
    steps := steps + [Judge(first, true, true, Reached)];
  }

  /** The millisecond matters: a member who joined after a catch-up, and whose content is received
      in the millisecond that catch-up began, is refused as a stranger. */
  lemma {:induction false} SameMillisecondIsRefused() returns (ws: seq<World>, steps: seq<Step>, s: Sent)
    ensures Run(ws, steps)
    ensures s in ws[|steps|].honest && StillMembers(ws[|steps|], s) && ws[|steps|].verified < |ws[|steps|].log|
    ensures Outcome(ws[|steps|], s.content, true, true, Reached).gate == Refuse
  {
    var second := From("b", 2);
    s := Sent(second, 2);
    ws, steps := CatchesUp();
    var w;
    ws, w := OneMore(ws, steps, Commit(PlaceOf(2)));
    steps := steps + [Commit(PlaceOf(2))];
    assert w.log == [PlaceOf(0), PlaceOf(1), PlaceOf(2)];
    ws, w := OneMore(ws, steps, Arrive(second, Some(2)));
    steps := steps + [Arrive(second, Some(2))];
    ReachableInv(ws, steps, |steps|);
    RefusedExactly(w, s, true, true, Reached);
  }

  lemma {:induction false} FirstCatchUp(w: World, c: Content)
    requires w.verified == 0 && |w.log| == 2 && InPlace(w.log) && InGroupAt(w, 0) && w.catchUps == None && c in w.arrived
    requires c.context.Some? && c.context.value.revision == 1 && c.context.value.head.Some?
    ensures var w' := Next(w, Judge(c, true, true, Reached));
            && w'.verified == 1 && w'.catchUps.Some? && w'.catchUps.value.currentAtMs == w.clock
            && w'.log == w.log && w'.clock == w.clock && w'.accounts == w.accounts && w'.self == w.self
            && w'.honest == w.honest && w'.arrived == w.arrived
  {
  }

  /** Held content gets through: once the home's answer reaches the latest and the member's
      manifest can be checked, content that may still ask is accepted. */
  lemma {:induction false} AcceptedOnceReached(w: World, s: Sent)
    requires Inv(w) && Level(w) && s in w.honest && StillMembers(w, s)
    requires MayCatchUp(w.catchUps, RecordAt(w, w.verified), RevisionNamed(s.content.context), w.clock)
    ensures Outcome(w, s.content, true, true, Reached).gate == Accept
  {
  }

  /** Of whatever arrives, from whomever: nothing is accepted but of a member of the state this device
      then holds, while it is in the group; and a stranger's is refused at once where the context it names
      is of the chain up to there. */
  lemma {:induction false} OnlyMembersAreAccepted(w: World, c: Content, k1: bool, k2: bool, answer: HomeAnswer)
    requires Inv(w)
    ensures var d := Outcome(w, c, k1, k2, answer);
            d.gate == Accept ==> c.sender in MembersAt(w, RevisionAfter(w, d, answer)) && InGroupAt(w, RevisionAfter(w, d, answer))
    ensures c.sender !in MembersAt(w, w.verified) && c.context.Some? && c.context.value.revision <= w.verified
            && c.context.value.head == Some(w.log[c.context.value.revision].head)
            ==> Outcome(w, c, k1, k2, answer).gate == Refuse && Outcome(w, c, k1, k2, answer).asked == 0
  {
  }

  function RevisionAfter(w: World, d: Decision, answer: HomeAnswer): (r: nat)
    requires w.verified < |w.log|
    ensures r < |w.log|
  {
    if d.asked == 1 then AnsweredRevision(w, answer) else w.verified
  }

  // ----- how often the home is asked -----

  lemma {:induction false} AsksOnlyWhenAllowed(w: World, c: Content, k1: bool, k2: bool, answer: HomeAnswer)
    requires w.verified < |w.log|
    ensures var d := Outcome(w, c, k1, k2, answer);
            if d.asked == 0 then d.catchUps == w.catchUps
            else
              && d.catchUps == Some(CatchUps.After(w.catchUps, EventAt(w, c, k1, k2, answer)))
              && CatchUps.MayGo(w.catchUps, EventAt(w, c, k1, k2, answer))
  {
  }

  /** Every catch-up made is one the throttle allowed, on a clock that never goes back. */
  ghost predicate Accounted(w: World) {
    && CatchUps.Legal(w.asked)
    && CatchUps.StateAfter(w.asked) == w.catchUps
    && InPlace(w.log) && w.verified < |w.log|
    && AskedBy(w.asked, w.clock, |w.log|)
  }

  /** Each catch-up was made by `clock`, and by a device at a revision below `length`. */
  ghost predicate AskedBy(es: seq<CatchUps.Event>, clock: int, length: nat) {
    forall i :: 0 <= i < |es| ==> es[i].now <= clock && es[i].verified < length
  }

  lemma {:induction false} AskedByMore(es: seq<CatchUps.Event>, e: CatchUps.Event, clock: int, length: nat)
    requires AskedBy(es, clock, length) && e.now <= clock && e.verified < length
    ensures AskedBy(es + [e], clock, length)
  {
  }

  /** `w'` comes after `w`: no earlier, its chain no shorter, its catch-ups those and later ones. */
  ghost predicate Later(w: World, w': World) {
    && w.clock <= w'.clock && |w.log| <= |w'.log| && w.asked <= w'.asked
    && forall i :: |w.asked| <= i < |w'.asked| ==> w.clock <= w'.asked[i].now
  }

  lemma {:induction false} StepIsAccounted(w: World, step: Step)
    requires Accounted(w) && Enabled(w, step)
    ensures Accounted(Next(w, step)) && Later(w, Next(w, step))
  {
    if step.Judge? {
      AsksOnlyWhenAllowed(w, step.content, step.confirmed1, step.confirmed2, step.answer);
      if Outcome(w, step.content, step.confirmed1, step.confirmed2, step.answer).asked != 0 {
        AccountedMore(w, EventAt(w, step.content, step.confirmed1, step.confirmed2, step.answer), Next(w, step));
      }
    }
  }

  lemma {:induction false} AccountedMore(w: World, e: CatchUps.Event, w': World)
    requires Accounted(w) && CatchUps.MayGo(w.catchUps, e)
    requires e.now == w.clock && e.verified == w.verified
    requires w'.clock == w.clock && w'.log == w.log && w'.verified < |w'.log|
    requires w'.catchUps == Some(CatchUps.After(w.catchUps, e)) && w'.asked == w.asked + [e]
    ensures Accounted(w') && Later(w, w')
  {
    LegalExtends(w.asked, e, |w.log|);
    AskedByMore(w.asked, e, w.clock, |w.log|);
  }

  lemma {:induction false} LegalExtends(es: seq<CatchUps.Event>, e: CatchUps.Event, length: nat)
    requires CatchUps.Legal(es) && CatchUps.MayGo(CatchUps.StateAfter(es), e) && AskedBy(es, e.now, length)
    ensures CatchUps.Legal(es + [e])
    ensures CatchUps.StateAfter(es + [e]) == Some(CatchUps.After(CatchUps.StateAfter(es), e))
  {
    var all := es + [e];
    assert all[..|es|] == es;
    forall i | 0 <= i < |all| ensures CatchUps.AllowedAt(all, i) {
      if i < |es| {
        assert all[..i] == es[..i];
        assert CatchUps.AllowedAt(es, i);
      }
    }
  }

  lemma {:induction false} RunIsAccounted(ws: seq<World>, steps: seq<Step>, n: nat)
    requires Run(ws, steps) && n < |ws|
    ensures Accounted(ws[n])
  {
    if n > 0 {
      RunIsAccounted(ws, steps, n - 1);
      StepFollows(ws, steps, n - 1);
    }
  }

  lemma {:induction false} StepFollows(ws: seq<World>, steps: seq<Step>, n: nat)
    requires Run(ws, steps) && n < |steps| && Accounted(ws[n])
    ensures Accounted(ws[n + 1]) && Later(ws[n], ws[n + 1])
  {
    assert StepAt(ws, steps, n);
    StepIsAccounted(ws[n], steps[n]);
  }

  ghost predicate Follows(ws: seq<World>, k: nat)
    requires k + 1 < |ws|
  {
    Later(ws[k], ws[k + 1])
  }

  lemma {:induction false} LaterAlong(ws: seq<World>, a: nat, b: nat)
    requires a <= b < |ws| && forall k :: a <= k < b ==> Follows(ws, k)
    ensures Later(ws[a], ws[b])
  {
    if a < b {
      LaterAlong(ws, a, b - 1);
      assert Follows(ws, b - 1);
      LaterStill(ws[a], ws[b - 1], ws[b]);
    }
  }

  lemma {:induction false} LaterStill(a: World, b: World, c: World)
    requires Later(a, b) && Later(b, c)
    ensures Later(a, c)
  {
  }

  /** How far catch-ups for news may still go in a world after `w`. */
  function StillInReach(w: World, w': World): int {
    CatchUps.Reach(if w.catchUps.Some? then w.catchUps.value.askedUpTo else 0, Max(0, |w'.log| - 1))
  }

  /** However much content comes, from whomever, in any stretch of any run the home is asked about the
      group no more than once, once for every ten seconds gone by, and once for every revision in reach that
      it was not asked for when the stretch began. */
  lemma {:induction false} HomeIsSpared(ws: seq<World>, steps: seq<Step>, a: nat, b: nat)
    requires Run(ws, steps) && a <= b < |ws|
    ensures CatchUps.OncePer(CatchUps.Further(|ws[b].asked| - |ws[a].asked|, StillInReach(ws[a], ws[b])),
                             ws[b].clock - ws[a].clock, CatchUps.CATCH_UP_BACKOFF_MS)
  {
    RunIsAccounted(ws, steps, a);
    RunIsAccounted(ws, steps, b);
    forall k | a <= k < b ensures Follows(ws, k) {
      RunIsAccounted(ws, steps, k);
      StepFollows(ws, steps, k);
    }
    LaterAlong(ws, a, b);
    SparedSince(ws[a], ws[b]);
  }

  lemma {:induction false} SparedSince(w: World, w': World)
    requires Accounted(w) && Accounted(w') && Later(w, w')
    ensures CatchUps.OncePer(CatchUps.Further(|w'.asked| - |w.asked|, StillInReach(w, w')),
                             w'.clock - w.clock, CatchUps.CATCH_UP_BACKOFF_MS)
  {
    var (es, i, time) := (w'.asked, |w.asked|, w'.clock - w.clock);
    var (highest, reach) := (|w'.log| - 1, StillInReach(w, w'));
    assert es[..i] == w.asked;
    if i < |es| {
      var between := es[|es| - 1].now - es[i].now;
      CatchUps.CatchUpsAreBounded(es, i, |es|, highest);
      CatchUps.AskedGrows(es, i);
      assert between <= time;
      CatchUps.OncePerMore(CatchUps.Further(|es| - i, CatchUps.Reach(CatchUps.AskedUpTo(es[..i + 1]), highest)), between,
                           CatchUps.Further(|es| - i, reach), time);
    } else {
      CatchUps.AskedIsBounded(w.asked, highest);
      CatchUps.OncePerMore(CatchUps.Further(0, reach), 0, CatchUps.Further(0, reach), time);
    }
  }
}
