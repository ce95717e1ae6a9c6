/** The group outbox: passes over the messages not every member's server has taken yet. */
module GroupDelivery {
  import opened Common
  import opened LegStates
  import opened DeliveryRound
  import SenderKeys

  const MAX_ROUNDS_PER_PASS: nat := 5
  const GROUP_UNDELIVERED_MS: int := 7 * 24 * 60 * 60 * 1000

  /** A group message in the outbox; `readable` when its content still reads back. */
  datatype Entry = Entry(createdAt: int, readable: bool, legs: seq<Leg>)

  /** What the history shows of a sent message. */
  datatype Sent = Sent(waiting: Option<nat>, failed: nat, delivered: bool, deliveredAt: Option<int>)

  datatype Summary = Summary(delivered: nat, pending: nat, failed: nat)

  /** What surrounds one pass: the clock, the accounts the message still goes to (none when they can not
      be told), and each round's answers. */
  datatype Pass = Pass(now: int, targets: Option<set<string>>, rounds: nat -> Round)

  // ----- counting legs -----

  datatype Standing = IsDelivered | HasFailed | HasArrived | IsPending | IsWaiting

  predicate Stands(leg: Leg, of: Standing) {
    match of
    case IsDelivered => leg.delivered
    case HasFailed => leg.failed
    case HasArrived => leg.delivered && !leg.failed
    case IsPending => !leg.delivered
    case IsWaiting => !leg.delivered && !leg.queued
  }

  function Count(legs: seq<Leg>, of: Standing): (n: nat)
    ensures n <= |legs|
  {
    if legs == [] then 0 else Count(legs[..|legs| - 1], of) + if Stands(legs[|legs| - 1], of) then 1 else 0
  }

  /** Only a leg that is done has failed. */
  predicate Sound(legs: seq<Leg>) {
    forall leg :: leg in legs ==> leg.failed ==> leg.delivered
  }

  lemma {:induction false} CountsAddUp(legs: seq<Leg>)
    requires Sound(legs)
    ensures Count(legs, IsDelivered) == Count(legs, HasArrived) + Count(legs, HasFailed)
    ensures Count(legs, HasArrived) + Count(legs, HasFailed) + Count(legs, IsPending) == |legs|
  {
    if legs != [] {
      CountsAddUp(legs[..|legs| - 1]);
    }
  }

  function SummaryOf(legs: seq<Leg>): Summary {
    Summary(Count(legs, HasArrived), Count(legs, IsPending), Count(legs, HasFailed))
  }

  // ----- one pass -----

  predicate Expired(e: Entry, now: int) {
    SaturatingSub(now, e.createdAt) >= GROUP_UNDELIVERED_MS
  }

  /** A leg as a pass begins: one not taken within the week fails, one no longer a member's is done. */
  function Opened(leg: Leg, e: Entry, p: Pass): Leg
    requires p.targets.Some?
  {
    if leg.delivered then leg
    else if Expired(e, p.now) || !e.readable then leg.(delivered := true, failed := true)
    else if leg.account !in p.targets.value then leg.(delivered := true)
    else leg
  }

  function OpenedAll(e: Entry, p: Pass): seq<Leg>
    requires p.targets.Some?
  {
    seq(|e.legs|, i requires 0 <= i < |e.legs| => Opened(e.legs[i], e, p))
  }

  function FirstRetry(e: Entry, p: Pass): set<nat>
    requires p.targets.Some?
  {
    set i | 0 <= i < |e.legs| && !Opened(e.legs[i], e, p).delivered && Due(e.legs[i], p.now)
  }

  ghost function RoundLegs(r: Round, legs: seq<Leg>, retry: set<nat>, now: int): seq<Leg> {
    seq(|legs|, i requires 0 <= i < |legs| => if i in retry then TurnOf(r, legs, retry, i, now).leg else legs[i])
  }

  ghost function RoundAgain(r: Round, legs: seq<Leg>, retry: set<nat>, now: int): set<nat> {
    set i | i in retry && 0 <= i < |legs| && TurnOf(r, legs, retry, i, now).again
  }

  /** The legs a pass leaves that has had `round` rounds and has `retry` to go. */
  ghost function AfterRounds(legs: seq<Leg>, retry: set<nat>, p: Pass, round: nat): Point
    decreases MAX_ROUNDS_PER_PASS - round
  {
    if retry == {} || round >= MAX_ROUNDS_PER_PASS then Point(legs, retry)
    else
      var r := p.rounds(round);
      AfterRounds(RoundLegs(r, legs, retry, p.now), RoundAgain(r, legs, retry, p.now), p, round + 1)
  }

  ghost function AfterPass(e: Entry, p: Pass): Point
    requires p.targets.Some?
  {
    AfterRounds(OpenedAll(e, p), FirstRetry(e, p), p, 0)
  }

  /** The rounds of a pass, one after the other. */
  ghost predicate Trail(start: Point, trail: seq<Point>, p: Pass) {
    trail != [] && trail[0] == start && forall k :: 0 <= k < |trail| - 1 ==> StepAt(trail, p, k)
  }

  ghost predicate StepAt(trail: seq<Point>, p: Pass, k: nat)
    requires k < |trail| - 1
  {
    trail[k].retry != {} && Rounded(p.rounds(k), trail[k].legs, trail[k].retry, p.now, trail[k + 1].legs, trail[k + 1].retry)
  }

  /** What the rounds of a pass have told, one round after the other. */
  ghost predicate ToldIn(trail: seq<Point>, p: Pass, news: seq<News>) {
    if |trail| <= 1 then news == []
    else
      var last := |trail| - 2;
      exists n :: 0 <= n <= |news| && ToldIn(trail[..|trail| - 1], p, news[..n])
                  && Tells(p.rounds(last), trail[last].legs, trail[last].retry, p.now, news[n..])
  }

  /** The rounds a pass went through, the legs they left and what they told. */
  ghost predicate Went(e: Entry, p: Pass, trail: seq<Point>, legs: seq<Leg>, news: seq<News>)
    requires p.targets.Some?
  {
    Trail(Point(OpenedAll(e, p), FirstRetry(e, p)), trail, p) && trail[|trail| - 1].legs == legs && ToldIn(trail, p, news)
  }

  lemma {:induction false} ToldOneMore(trail: seq<Point>, p: Pass, news: seq<News>, next: Point, learned: seq<News>)
    requires trail != [] && ToldIn(trail, p, news)
    requires var k := |trail| - 1; Tells(p.rounds(k), trail[k].legs, trail[k].retry, p.now, learned)
    ensures ToldIn(trail + [next], p, news + learned)
  {
    var (longer, n) := (trail + [next], |news|);
    assert longer[..|trail|] == trail && longer[|trail| - 1] == trail[|trail| - 1];
    assert (news + learned)[..n] == news && (news + learned)[n..] == learned;
  }

  // ----- what the sender-key book makes of it -----

  predicate OneLegEach(legs: seq<Leg>) {
    forall i, j :: 0 <= i < j < |legs| ==> legs[i].account != legs[j].account
  }

  lemma {:induction false} RoundTellsOnce(r: Round, legs: seq<Leg>, retry: set<nat>, now: int, news: seq<News>)
    requires OneLegEach(legs) && Tells(r, legs, retry, now, news)
    ensures SenderKeys.OnePerAccount(news)
  {
    forall a, b | a in news && b in news && a.account == b.account ensures a == b {
      assert a in Among(news) && b in Among(news);
      var i :| i in retry && 0 <= i < |legs| && TurnOf(r, legs, retry, i, now).news == Some(a);
      var j :| j in retry && 0 <= j < |legs| && TurnOf(r, legs, retry, j, now).news == Some(b);
      TurnIsOfItsAccount(r, legs, retry, i, now);
      TurnIsOfItsAccount(r, legs, retry, j, now);
    }
  }

  lemma {:induction false} OneRoundOneBook(r: Round, legs: seq<Leg>, retry: set<nat>, now: int, a: seq<News>, b: seq<News>, book: SenderKeys.Book)
    requires OneLegEach(legs) && Tells(r, legs, retry, now, a) && Tells(r, legs, retry, now, b)
    ensures SenderKeys.ToldAll(book, a) == SenderKeys.ToldAll(book, b)
  {
    RoundTellsOnce(r, legs, retry, now, a);
    forall n ensures n in a <==> n in b {
      assert n in Among(a) <==> n in Among(b);
    }
    SenderKeys.ToldInAnyOrder(book, a, b);
  }

  ghost predicate OneLegEachIn(trail: seq<Point>) {
    forall k :: 0 <= k < |trail| ==> OneLegEach(trail[k].legs)
  }

  lemma {:induction false} OneLegEachBefore(trail: seq<Point>)
    requires |trail| > 1 && OneLegEachIn(trail)
    ensures OneLegEachIn(trail[..|trail| - 1]) && OneLegEach(trail[|trail| - 2].legs)
  {
  }

  lemma {:induction false} LastTold(trail: seq<Point>, p: Pass, news: seq<News>) returns (before: seq<News>, told: seq<News>)
    requires |trail| > 1 && ToldIn(trail, p, news)
    ensures var last := |trail| - 2;
            && news == before + told && ToldIn(trail[..|trail| - 1], p, before)
            && Tells(p.rounds(last), trail[last].legs, trail[last].retry, p.now, told)
  {
    var last := |trail| - 2;
    var n :| 0 <= n <= |news| && ToldIn(trail[..|trail| - 1], p, news[..n])
             && Tells(p.rounds(last), trail[last].legs, trail[last].retry, p.now, news[n..]);
    before, told := news[..n], news[n..];
  }

  lemma {:induction false} ToldAlike(book: SenderKeys.Book, a: seq<News>, m: seq<News>, b: seq<News>, n: seq<News>)
    requires SenderKeys.ToldAll(book, a) == SenderKeys.ToldAll(book, b)
    requires SenderKeys.ToldAll(SenderKeys.ToldAll(book, a), m) == SenderKeys.ToldAll(SenderKeys.ToldAll(book, a), n)
    ensures SenderKeys.ToldAll(book, a + m) == SenderKeys.ToldAll(book, b + n)
  {
    SenderKeys.ToldOnAndOn(book, a, m);
    SenderKeys.ToldOnAndOn(book, b, n);
  }

  lemma {:induction false} LastRoundOneBook(r: Round, last: Point, now: int, a: seq<News>, b: seq<News>, m: seq<News>, n: seq<News>,
                                            book: SenderKeys.Book)
    requires OneLegEach(last.legs) && Tells(r, last.legs, last.retry, now, m) && Tells(r, last.legs, last.retry, now, n)
    requires Same(SenderKeys.ToldAll(book, a), SenderKeys.ToldAll(book, b))
    ensures Same(SenderKeys.ToldAll(book, a + m), SenderKeys.ToldAll(book, b + n))
  {
    OneRoundOneBook(r, last.legs, last.retry, now, m, n, SenderKeys.ToldAll(book, a));
    ToldAlike(book, a, m, b, n);
  }

  /** The order of the rounds decides what becomes of the sender-key book, and the order within one does
      not: all that may be told of a pass leaves one book. */
  lemma {:induction false} OneBookAfterPass(trail: seq<Point>, p: Pass, a: seq<News>, b: seq<News>, book: SenderKeys.Book)
    requires OneLegEachIn(trail) && ToldIn(trail, p, a) && ToldIn(trail, p, b)
    ensures Same(SenderKeys.ToldAll(book, a), SenderKeys.ToldAll(book, b))
  {
    if |trail| > 1 {
      var a', m := LastTold(trail, p, a);
      var b', n := LastTold(trail, p, b);
      OneLegEachBefore(trail);
      OneBookAfterPass(trail[..|trail| - 1], p, a', b', book);
      LastRoundOneBook(p.rounds(|trail| - 2), trail[|trail| - 2], p.now, a', b', m, n, book);
    }
  }

  lemma {:induction false} AccountsStay(start: Point, trail: seq<Point>, p: Pass, k: nat)
    requires Trail(start, trail, p) && k < |trail|
    ensures |trail[k].legs| == |start.legs| && forall i :: 0 <= i < |start.legs| ==> trail[k].legs[i].account == start.legs[i].account
  {
    if k > 0 {
      AccountsStay(start, trail, p, k - 1);
      assert StepAt(trail, p, k - 1);
      forall i | 0 <= i < |start.legs| ensures trail[k].legs[i].account == start.legs[i].account {
        TurnIsOfItsAccount(p.rounds(k - 1), trail[k - 1].legs, trail[k - 1].retry, i, p.now);
      }
    }
  }

  lemma {:induction false} OneLegEachStays(start: Point, trail: seq<Point>, p: Pass)
    requires Trail(start, trail, p) && OneLegEach(start.legs)
    ensures OneLegEachIn(trail)
  {
    forall k | 0 <= k < |trail| ensures OneLegEach(trail[k].legs) {
      AccountsStay(start, trail, p, k);
    }
  }

  lemma {:induction false} TrailMore(start: Point, trail: seq<Point>, p: Pass, next: Point)
    requires Trail(start, trail, p) && trail[|trail| - 1].retry != {}
    requires var last := trail[|trail| - 1]; Rounded(p.rounds(|trail| - 1), last.legs, last.retry, p.now, next.legs, next.retry)
    ensures Trail(start, trail + [next], p)
  {
    var longer := trail + [next];
    forall k | 0 <= k < |longer| - 1 ensures StepAt(longer, p, k) {
      if k < |trail| - 1 {
        assert StepAt(trail, p, k);
      }
    }
  }

  /** Equal as wholes. */
  predicate Same<T(==)>(a: T, b: T) {
    a == b
  }

  lemma {:induction false} OneRoundMore(before: Point, p: Pass, round: nat, after: Point)
    requires before.retry != {} && round < MAX_ROUNDS_PER_PASS
    requires Rounded(p.rounds(round), before.legs, before.retry, p.now, after.legs, after.retry)
    ensures Same(From(before, p, round), From(after, p, round + 1))
  {
    RoundedIs(p.rounds(round), before.legs, before.retry, p.now, after.legs, after.retry);
  }

  ghost function From(point: Point, p: Pass, round: nat): Point {
    AfterRounds(point.legs, point.retry, p, round)
  }

  lemma {:induction false} OneStepMore(trail: seq<Point>, p: Pass, k: nat)
    requires k < |trail| - 1 && k < MAX_ROUNDS_PER_PASS && StepAt(trail, p, k)
    ensures SameEnd(trail, p, k)
  {
    var (before, after) := (trail[k], trail[k + 1]);
    OneRoundMore(before, p, k, after);
  }

  ghost predicate SameEnd(trail: seq<Point>, p: Pass, k: nat)
    requires k < |trail| - 1
  {
    Same(From(trail[k], p, k), From(trail[k + 1], p, k + 1))
  }

  lemma {:induction false} TrailLeads(trail: seq<Point>, p: Pass, k: nat)
    requires k < |trail| && forall m :: 0 <= m < |trail| - 1 ==> SameEnd(trail, p, m)
    ensures Same(From(trail[0], p, 0), From(trail[k], p, k))
  {
    if k > 0 {
      TrailLeads(trail, p, k - 1);
      assert SameEnd(trail, p, k - 1);
    }
  }

  lemma {:induction false} TrailStops(point: Point, p: Pass, k: nat)
    requires point.retry == {} || k >= MAX_ROUNDS_PER_PASS
    ensures Same(From(point, p, k), point)
  {
  }

  /** A pass ends with no leg to go again, or after its last round. */
  lemma {:induction false} TrailEnds(start: Point, trail: seq<Point>, p: Pass)
    requires Trail(start, trail, p) && |trail| <= MAX_ROUNDS_PER_PASS + 1
    requires trail[|trail| - 1].retry == {} || |trail| == MAX_ROUNDS_PER_PASS + 1
    ensures Same(From(start, p, 0), trail[|trail| - 1])
  {
    forall k | 0 <= k < |trail| - 1 ensures SameEnd(trail, p, k) {
      assert StepAt(trail, p, k);
      OneStepMore(trail, p, k);
    }
    TrailLeads(trail, p, |trail| - 1);
    TrailStops(trail[|trail| - 1], p, |trail| - 1);
  }

  lemma {:induction false} RoundedIs(r: Round, before: seq<Leg>, retry: set<nat>, now: int, after: seq<Leg>, again: set<nat>)
    requires Rounded(r, before, retry, now, after, again)
    ensures after == RoundLegs(r, before, retry, now) && again == RoundAgain(r, before, retry, now)
  {
  }

  lemma {:induction false} IsRounded(r: Round, before: seq<Leg>, retry: set<nat>, now: int)
    ensures Rounded(r, before, retry, now, RoundLegs(r, before, retry, now), RoundAgain(r, before, retry, now))
  {
  }

  // ----- what a pass keeps -----

  ghost predicate OnwardAll(before: seq<Leg>, after: seq<Leg>) {
    |after| == |before| && forall i :: 0 <= i < |before| ==> Onward(before[i], after[i])
  }

  /** No leg is lost: one not done has a moment it waits for, or is among those that can go at once. */
  predicate NoneLost(legs: seq<Leg>, retry: set<nat>) {
    forall i :: 0 <= i < |legs| ==> legs[i].delivered || legs[i].retryAt.Some? || i in retry
  }

  lemma {:induction false} OnwardTwice(a: seq<Leg>, b: seq<Leg>, c: seq<Leg>)
    requires OnwardAll(a, b) && OnwardAll(b, c)
    ensures OnwardAll(a, c)
  {
    forall i | 0 <= i < |a| ensures Onward(a[i], c[i]) {
      assert Onward(a[i], b[i]) && Onward(b[i], c[i]);
    }
  }

  lemma {:induction false} RoundKeeps(r: Round, legs: seq<Leg>, retry: set<nat>, now: int)
    requires Sound(legs) && AllCanGo(legs, retry, now) && NoneLost(legs, retry) && I64_MIN <= now <= I64_MAX
    ensures var legs' := RoundLegs(r, legs, retry, now);
            var again := RoundAgain(r, legs, retry, now);
            OnwardAll(legs, legs') && Sound(legs') && AllCanGo(legs', again, now) && NoneLost(legs', again)
  {
    var legs' := RoundLegs(r, legs, retry, now);
    var again := RoundAgain(r, legs, retry, now);
    forall i | 0 <= i < |legs|
      ensures Onward(legs[i], legs'[i]) && (i in again ==> CanGo(legs'[i], now)) && (legs'[i].delivered || legs'[i].retryAt.Some? || i in again)
    {
      if i in retry {
        TurnProgress(r, legs, retry, i, now);
      } else {
        assert legs[i] in legs;
      }
    }
    forall leg | leg in legs' ensures leg.failed ==> leg.delivered {
      var i :| 0 <= i < |legs'| && legs'[i] == leg;
      assert Onward(legs[i], legs'[i]);
    }
  }

  /** Where rounds from `legs` may end. */
  ghost predicate EndsWell(legs: seq<Leg>, end: Point, now: int) {
    OnwardAll(legs, end.legs) && Sound(end.legs) && AllCanGo(end.legs, end.retry, now) && NoneLost(end.legs, end.retry)
  }

  lemma {:induction false} EndsWellAtOnce(legs: seq<Leg>, retry: set<nat>, now: int)
    requires Sound(legs) && AllCanGo(legs, retry, now) && NoneLost(legs, retry)
    ensures EndsWell(legs, Point(legs, retry), now)
  {
    forall i | 0 <= i < |legs| ensures Onward(legs[i], legs[i]) {
      assert legs[i] in legs;
    }
  }

  lemma {:induction false} EndsWellAfter(before: seq<Leg>, legs: seq<Leg>, end: Point, now: int)
    requires OnwardAll(before, legs) && EndsWell(legs, end, now)
    ensures EndsWell(before, end, now)
  {
    OnwardTwice(before, legs, end.legs);
  }

  lemma {:induction false} RoundsKeep(legs: seq<Leg>, retry: set<nat>, p: Pass, round: nat)
    requires Sound(legs) && AllCanGo(legs, retry, p.now) && NoneLost(legs, retry) && I64_MIN <= p.now <= I64_MAX
    ensures EndsWell(legs, AfterRounds(legs, retry, p, round), p.now)
    decreases MAX_ROUNDS_PER_PASS - round
  {
    if retry == {} || round >= MAX_ROUNDS_PER_PASS {
      EndsWellAtOnce(legs, retry, p.now);
    } else {
      var r := p.rounds(round);
      var (legs', again) := (RoundLegs(r, legs, retry, p.now), RoundAgain(r, legs, retry, p.now));
      RoundKeeps(r, legs, retry, p.now);
      RoundsKeep(legs', again, p, round + 1);
      EndsWellAfter(legs, legs', AfterRounds(legs', again, p, round + 1), p.now);
    }
  }

  /** A pass brings every leg onward, whatever the servers answer: what is done stays done as it was,
      only what is done has failed, no leg gets more to go round with, and none is lost. */
  lemma {:induction false} PassKeeps(e: Entry, p: Pass)
    requires Sound(e.legs) && p.targets.Some? && I64_MIN <= p.now <= I64_MAX
    ensures var end := AfterPass(e, p);
            && OnwardAll(e.legs, end.legs) && Sound(end.legs)
            && AllCanGo(end.legs, end.retry, p.now) && NoneLost(end.legs, end.retry)
  {
    var legs := OpenedAll(e, p);
    forall i | 0 <= i < |legs| ensures Onward(e.legs[i], legs[i]) && (i in FirstRetry(e, p) ==> CanGo(legs[i], p.now)) {
      assert e.legs[i] in e.legs;
    }
    forall leg | leg in legs ensures leg.failed ==> leg.delivered {
      var i :| 0 <= i < |legs| && legs[i] == leg;
      assert Onward(e.legs[i], legs[i]);
    }
    RoundsKeep(legs, FirstRetry(e, p), p, 0);
    EndsWellAfter(e.legs, legs, AfterPass(e, p), p.now);
  }

  /** Past the week every leg of a message is done, in one pass. */
  lemma {:induction false} AfterTheWeekAllDone(e: Entry, p: Pass)
    requires p.targets.Some? && (Expired(e, p.now) || !e.readable)
    ensures forall i :: 0 <= i < |e.legs| ==> AfterPass(e, p).legs[i].delivered
  {
    assert FirstRetry(e, p) == {};
  }

  /** The entry as it is stored: without ciphertexts once no leg is left. */
  function Kept(e: Entry, legs: seq<Leg>): Entry {
    if AllDone(legs) then e.(legs := seq(|legs|, i requires 0 <= i < |legs| => legs[i].(copies := None))) else e.(legs := legs)
  }

  predicate AllDone(legs: seq<Leg>) {
    forall leg :: leg in legs ==> leg.delivered
  }

  function AsU32(n: nat): nat {
    if n <= U32_MAX then n else U32_MAX
  }

  function Shown(s: Sent, legs: seq<Leg>, at: int): Sent {
    var s' := s.(waiting := Some(AsU32(Count(legs, IsWaiting))), failed := AsU32(Count(legs, HasFailed)));
    if AllDone(legs) then s'.(delivered := true, deliveredAt := Some(at)) else s'
  }

  lemma {:induction false} NoneCounted(legs: seq<Leg>, of: Standing)
    ensures Count(legs, of) == 0 <==> forall leg :: leg in legs ==> !Stands(leg, of)
  {
    if legs != [] {
      var n := |legs| - 1;
      NoneCounted(legs[..n], of);
      assert legs == legs[..n] + [legs[n]];
    }
  }

  /** A message shows as waiting for nobody exactly when this account's server has it for every member
      not done, and as delivered once no leg is left. */
  lemma {:induction false} ShownExactly(s: Sent, legs: seq<Leg>, at: int)
    ensures Shown(s, legs, at).waiting == Some(0) <==> forall leg :: leg in legs ==> leg.delivered || leg.queued
    ensures Shown(s, legs, at).failed == 0 <==> forall leg :: leg in legs ==> !leg.failed
    ensures Count(legs, IsPending) == 0 <==> AllDone(legs)
    ensures Count(legs, IsPending) == 0 ==> Shown(s, legs, at).delivered && Shown(s, legs, at).waiting == Some(0)
  {
    NoneCounted(legs, IsWaiting);
    NoneCounted(legs, HasFailed);
    NoneCounted(legs, IsPending);
  }

  /** An entry after one try of it. */
  ghost function AfterTry(e: Entry, p: Pass): Entry {
    if AllDone(e.legs) || p.targets.None? then e
    else
      var legs := AfterPass(e, p).legs;
      if legs == e.legs then e else Kept(e, legs)
  }

  ghost predicate Tries(es: seq<Entry>, ps: seq<Pass>) {
    && |es| == |ps| + 1
    && forall k :: 0 <= k < |ps| ==> I64_MIN <= ps[k].now <= I64_MAX && es[k + 1] == AfterTry(es[k], ps[k])
  }

  lemma {:induction false} TryKeeps(e: Entry, p: Pass)
    requires Sound(e.legs) && I64_MIN <= p.now <= I64_MAX
    ensures OnwardAll(e.legs, AfterTry(e, p).legs) && Sound(AfterTry(e, p).legs)
  {
    forall i | 0 <= i < |e.legs| ensures Onward(e.legs[i], e.legs[i]) {
      assert e.legs[i] in e.legs;
    }
    if p.targets.Some? {
      PassKeeps(e, p);
    }
  }

  /** Over any number of passes no leg is undone: one delivered is never sent again, one that failed is
      never counted as delivered nor the reverse, and no leg gets more to go round with. */
  lemma {:induction false} TriesKeep(es: seq<Entry>, ps: seq<Pass>)
    requires Tries(es, ps) && Sound(es[0].legs)
    ensures OnwardAll(es[0].legs, es[|ps|].legs) && Sound(es[|ps|].legs)
  {
    if ps == [] {
      forall i | 0 <= i < |es[0].legs| ensures Onward(es[0].legs[i], es[0].legs[i]) {
        assert es[0].legs[i] in es[0].legs;
      }
    } else {
      var n := |ps| - 1;
      TriesKeep(es[..n + 1], ps[..n]);
      TryKeeps(es[n], ps[n]);
      OnwardTwice(es[0].legs, es[n].legs, es[n + 1].legs);
    }
  }

  datatype PassOutcome = Reached(summary: Summary) | NoTargets

  /** The engine's store of group messages sent. */
  class GroupOutbox {
    var entries: map<string, Entry>
    var sent: map<string, Sent>

    constructor ()
      ensures entries == map[] && sent == map[]
    {
      entries, sent := map[], map[];
    }

    method SaveGroupEntry(id: string, e: Entry, legs: seq<Leg>, at: int)
      modifies this
      ensures entries == old(entries)[id := Kept(e, legs)]
      ensures sent == if id in old(sent) then old(sent)[id := Shown(old(sent)[id], legs, at)] else old(sent)
    {
      var done := forall leg :: leg in legs ==> leg.delivered;
      var kept := legs;
      if done {
        kept := seq(|legs|, i requires 0 <= i < |legs| => legs[i].(copies := None));
      }
      if id in sent {
        var s := sent[id];
        s := s.(waiting := Some(AsU32(Count(legs, IsWaiting))));
        s := s.(failed := AsU32(Count(legs, HasFailed)));
        if done {
          s := s.(delivered := true, deliveredAt := Some(at));
        }
        sent := sent[id := s];
      }
      entries := entries[id := e.(legs := kept)];
    }

    /** What a pass finds of each leg before its first round. */
    method Open(e: Entry, p: Pass) returns (legs: seq<Leg>, retry: seq<nat>)
      requires p.targets.Some?
      ensures legs == OpenedAll(e, p)
      ensures Ascending(retry) && SetOf(retry) == FirstRetry(e, p)
    {
      legs, retry := e.legs, [];
      for i := 0 to |legs|
        invariant |legs| == |e.legs| && Ascending(retry)
        invariant forall k :: 0 <= k < |legs| ==> legs[k] == if k < i then Opened(e.legs[k], e, p) else e.legs[k]
        invariant forall k :: k in retry <==> k in FirstRetry(e, p) && k < i
      {
        assert forall j :: 0 <= j < |retry| ==> retry[j] in retry;
        var leg := legs[i];
        if leg.delivered {
        } else if Expired(e, p.now) || !e.readable {
          legs := legs[i := leg.(delivered := true, failed := true)];
        } else if leg.account !in p.targets.value {
          legs := legs[i := leg.(delivered := true)];
        } else if Due(leg, p.now) {
          retry := retry + [i];
        }
      }
    }

    /** Delivers what is left of one message, five rounds at most. */
    method DeliverGroupEntry(id: string, p: Pass) returns (d: PassOutcome, news: seq<News>, ghost trail: seq<Point>)
      requires id in entries ==> Sound(entries[id].legs)
      requires I64_MIN <= p.now <= I64_MAX
      modifies this
      ensures entries == if id in old(entries) then old(entries)[id := AfterTry(old(entries)[id], p)] else old(entries)
      ensures id !in old(entries) || AllDone(old(entries)[id].legs) ==>
                d == Reached(Summary(0, 0, 0)) && sent == old(sent)
      ensures id in old(entries) && !AllDone(old(entries)[id].legs) && p.targets.None? ==>
                d == NoTargets && sent == old(sent)
      ensures id in old(entries) && !AllDone(old(entries)[id].legs) && p.targets.Some? ==>
                && d.Reached?
                && var (e, legs) := (old(entries)[id], AfterPass(old(entries)[id], p).legs);
                   && d.summary == SummaryOf(legs)
                   && Went(e, p, trail, legs, news)
                   && d.summary.delivered + d.summary.pending + d.summary.failed == |e.legs|
                   && sent == if legs != e.legs && id in old(sent) then old(sent)[id := Shown(old(sent)[id], legs, p.now)] else old(sent)
    {
      news, trail := [], [];
      assert id in entries ==> entries[id := entries[id]] == entries;
      if id !in entries || (forall leg :: leg in entries[id].legs ==> leg.delivered) {
        return Reached(Summary(0, 0, 0)), news, trail;
      }
      if p.targets.None? {
        return NoTargets, news, trail;
      }
      var e := entries[id];
      var legs, summary;
      legs, summary, news, trail := DeliverLegs(e, p);
      if legs != e.legs {
        SaveGroupEntry(id, e, legs, p.now);
      }
      d := Reached(summary);
    }

    method DeliverLegs(e: Entry, p: Pass) returns (legs: seq<Leg>, summary: Summary, news: seq<News>, ghost trail: seq<Point>)
      requires Sound(e.legs) && p.targets.Some? && I64_MIN <= p.now <= I64_MAX
      ensures legs == AfterPass(e, p).legs && summary == SummaryOf(legs)
      ensures Went(e, p, trail, legs, news)
      ensures summary.delivered + summary.pending + summary.failed == |e.legs|
    {
      var begun, retry := Open(e, p);
      var delivery := new Delivery(begun);
      news, trail := DeliverRounds(delivery, retry, p);
      legs := delivery.legs;
      PassKeeps(e, p);
      CountsAddUp(legs);
      var failed, delivered := Count(legs, HasFailed), Count(legs, IsDelivered);
      summary := Summary(delivered - failed, |legs| - delivered, failed);
    }

    method DeliverRounds(delivery: Delivery, first: seq<nat>, p: Pass) returns (news: seq<News>, ghost trail: seq<Point>)
      requires Ascending(first) && forall i :: i in first ==> i < |delivery.legs|
      modifies delivery
      ensures delivery.legs == AfterRounds(old(delivery.legs), SetOf(first), p, 0).legs
      ensures Trail(Point(old(delivery.legs), SetOf(first)), trail, p) && trail[|trail| - 1].legs == delivery.legs
      ensures ToldIn(trail, p, news)
    {
      ghost var start := Point(delivery.legs, SetOf(first));
      news, trail := RunRounds(delivery, first, p);
      TrailEnds(start, trail, p);
    }

    method RunRounds(delivery: Delivery, first: seq<nat>, p: Pass) returns (news: seq<News>, ghost trail: seq<Point>)
      requires Ascending(first) && forall i :: i in first ==> i < |delivery.legs|
      modifies delivery
      ensures Trail(Point(old(delivery.legs), SetOf(first)), trail, p)
      ensures |trail| <= MAX_ROUNDS_PER_PASS + 1 && trail[|trail| - 1].legs == delivery.legs
      ensures trail[|trail| - 1].retry == {} || |trail| == MAX_ROUNDS_PER_PASS + 1
      ensures ToldIn(trail, p, news)
    {
      var retry: seq<nat>, round: nat := first, 0;
      ghost var start := Point(delivery.legs, SetOf(first));
      trail, news := [start], [];
      while retry != [] && round < MAX_ROUNDS_PER_PASS
        invariant |trail| == round + 1 <= MAX_ROUNDS_PER_PASS + 1 && Trail(start, trail, p) && ToldIn(trail, p, news)
        invariant trail[round] == Point(delivery.legs, SetOf(retry))
        invariant Ascending(retry) && forall i :: i in retry ==> i < |delivery.legs|
        decreases MAX_ROUNDS_PER_PASS - round
      {
        assert retry[0] in SetOf(retry);
        var learned;
        retry, learned := delivery.DeliverRound(retry, p.rounds(round), p.now);
        TrailMore(start, trail, p, Point(delivery.legs, SetOf(retry)));
        ToldOneMore(trail, p, news, Point(delivery.legs, SetOf(retry)), learned);
        trail, round := trail + [Point(delivery.legs, SetOf(retry))], round + 1;
        news := news + learned;
      }
      assert retry == [] ==> SetOf(retry) == {};
    }

    /** One message of a flush: what it came to, with the legs as they were when it can not be tried. */
    method TryEntry(id: string, p: Pass) returns (summary: Option<Summary>)
      requires id in entries && Sound(entries[id].legs) && I64_MIN <= p.now <= I64_MAX
      modifies this
      ensures entries == old(entries)[id := AfterTry(old(entries)[id], p)]
      ensures summary.Some? <==> !AllDone(old(entries)[id].legs)
      ensures summary.Some? ==> summary.value.delivered + summary.value.pending + summary.value.failed == |old(entries)[id].legs|
    {
      var e := entries[id];
      if forall leg :: leg in e.legs ==> leg.delivered {
        assert entries[id := e] == entries;
        return None;
      }
      var d, _, _ := DeliverGroupEntry(id, p);
      CountsAddUp(e.legs);
      summary := Some(if d.Reached? then d.summary else SummaryOf(e.legs));
    }

    /** Tries every message once: none that can not go holds up another. */
    method FlushGroupOutbox(passes: string -> Pass) returns (summaries: map<string, Summary>)
      requires forall id :: id in entries ==> Sound(entries[id].legs) && I64_MIN <= passes(id).now <= I64_MAX
      modifies this
      ensures entries.Keys == old(entries).Keys
      ensures forall id :: id in old(entries) ==> entries[id] == AfterTry(old(entries)[id], passes(id))
      ensures forall id :: id in summaries <==> id in old(entries) && !AllDone(old(entries)[id].legs)
      ensures forall id :: id in summaries ==>
        summaries[id].delivered + summaries[id].pending + summaries[id].failed == |old(entries)[id].legs|
    {
      summaries := map[];
      var rest := entries.Keys;
      while rest != {}
        invariant rest <= entries.Keys == old(entries).Keys
        invariant forall id :: id in entries ==>
          entries[id] == if id in rest then old(entries)[id] else AfterTry(old(entries)[id], passes(id))
        invariant forall id :: id in summaries <==> id in entries && id !in rest && !AllDone(old(entries)[id].legs)
        invariant forall id :: id in summaries ==>
          summaries[id].delivered + summaries[id].pending + summaries[id].failed == |old(entries)[id].legs|
        decreases rest
      {
        var id :| id in rest;
        rest := rest - {id};
        var summary := TryEntry(id, passes(id));
        if summary.Some? {
          summaries := summaries[id := summary.value];
        }
      }
    }
  }
}
