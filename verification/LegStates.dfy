/** A group message's copy for one member account, its leg: on the multi-recipient route, or sealed
    per device, until it is delivered, has failed, or waits for a later pass. */
module LegStates {
  import opened Common

  const MAX_LEG_MISMATCHES: nat := 20
  const FIRST_WAIT_MS: int := 10 * 1000
  const MAX_WAIT_MS: int := 15 * 60 * 1000

  datatype Bundle = Bundle(device: nat, registration: nat)

  /** A sealed copy for one device: of the message under the sender key, or pairwise. */
  datatype Copy = Copy(device: nat, registration: nat, pairwise: bool)

  /** `copies` is none when the stored ones do not read back. */
  datatype Leg = Leg(
    account: string, copies: Option<seq<Copy>>, devices: seq<nat>, delivered: bool, failed: bool,
    multi: bool, queued: bool, mismatches: nat, waits: nat, retryAt: Option<int>)

  /** An account's server's answer for one leg. */
  datatype Outcome =
    | Delivered | DeviceMismatch | Unavailable | Pending | Refused | PeerUnsupported | RateLimited | Conflict

  /** What a multi-recipient request names, by account id; `devices` with whether any are missing. */
  datatype Response = Response(refused: set<string>, rateLimited: set<string>, devices: map<string, bool>, stale: set<string>)

  datatype MultiAnswer =
    | Answered(status: nat, response: Response)
    | PeerUnavailable | TooLarge | OverBudget | TokenInvalid | NoAnswer

  /** What an answer tells of an account's keys or endorsement. */
  datatype News =
    | Stored(account: string, devices: seq<nat>)
    | Mismatch(account: string)
    | TokenRefused(account: string, expiration: nat)

  /** Everything the outside answers in one round, by leg: a leg's server when the account parses and
      has a usable endorsement, the expiration of the one it goes under, its devices and which hold the
      sender key; whether something seals; what the servers answer. */
  datatype Round = Round(
    outcome: nat -> Option<Outcome>,
    listed: nat -> Option<seq<Bundle>>,
    ready: bool,
    server: nat -> Option<string>,
    expiration: nat -> Option<nat>,
    bundles: nat -> Option<seq<Bundle>>,
    reached: (nat, Bundle) -> bool,
    accountId: nat -> string,
    seals: (string, nat) -> bool,
    answer: (string, nat) -> MultiAnswer,
    sealsCopies: nat -> bool,
    pairwise: nat -> Option<seq<Bundle>>)

  // ----- waiting -----

  function Up(n: nat): nat {
    if n < U32_MAX then n + 1 else n
  }

  function Doubled(base: nat, times: nat): nat {
    if times == 0 then base else 2 * Doubled(base, times - 1)
  }

  function WaitMs(waits: nat): int {
    Min(Saturate(Doubled(FIRST_WAIT_MS, Min(waits, 16))), MAX_WAIT_MS)
  }

  function Waiting(leg: Leg, now: int): Leg {
    leg.(waits := Up(leg.waits), retryAt := Some(SaturatingAdd(now, WaitMs(leg.waits))))
  }

  predicate Due(leg: Leg, now: int) {
    leg.retryAt.None? || leg.retryAt.value <= now
  }

  lemma {:induction false} DoubledGrows(base: nat, m: nat, n: nat)
    requires m <= n
    ensures Doubled(base, m) <= Doubled(base, n)
  {
    if m < n {
      DoubledGrows(base, m, n - 1);
    }
  }

  /** The wait starts at ten seconds, doubles with each pass that leaves the leg waiting, and stays at a
      quarter of an hour from the eighth on. */
  lemma {:induction false} WaitsDouble(waits: nat)
    ensures WaitMs(0) == FIRST_WAIT_MS && FIRST_WAIT_MS <= WaitMs(waits) <= WaitMs(waits + 1) <= MAX_WAIT_MS
    ensures WaitMs(waits + 1) == Min(2 * WaitMs(waits), MAX_WAIT_MS)
    ensures WaitMs(waits) == MAX_WAIT_MS <==> waits >= 7
  {
    assert Doubled(FIRST_WAIT_MS, 1) == 20000 && Doubled(FIRST_WAIT_MS, 2) == 40000 && Doubled(FIRST_WAIT_MS, 3) == 80000;
    assert Doubled(FIRST_WAIT_MS, 4) == 160000 && Doubled(FIRST_WAIT_MS, 5) == 320000 && Doubled(FIRST_WAIT_MS, 6) == 640000;
    assert Doubled(FIRST_WAIT_MS, 7) == 1280000;
    if waits >= 7 {
      DoubledGrows(FIRST_WAIT_MS, 7, Min(waits, 16));
      DoubledGrows(FIRST_WAIT_MS, 7, Min(waits + 1, 16));
    }
  }

  // ----- amending a leg -----

  function CopyFor(b: Bundle, pairwise: bool): Copy {
    Copy(b.device, b.registration, pairwise)
  }

  function CopiesFor(bundles: seq<Bundle>, pairwise: bool): (copies: seq<Copy>)
    ensures |copies| == |bundles|
  {
    seq(|bundles|, i requires 0 <= i < |bundles| => CopyFor(bundles[i], pairwise))
  }

  function DevicesOf(copies: seq<Copy>): seq<nat> {
    seq(|copies|, i requires 0 <= i < |copies| => copies[i].device)
  }

  /** The registration a device is listed under: the last, should it be listed twice. */
  function ListedAs(bundles: seq<Bundle>, device: nat): Option<nat> {
    if bundles == [] then None
    else
      var last := bundles[|bundles| - 1];
      if last.device == device then Some(last.registration) else ListedAs(bundles[..|bundles| - 1], device)
  }

  function StillListed(copies: seq<Copy>, listed: seq<Bundle>): seq<Copy> {
    if copies == [] then []
    else
      var kept := StillListed(copies[..|copies| - 1], listed);
      var c := copies[|copies| - 1];
      if ListedAs(listed, c.device) == Some(c.registration) then kept + [c] else kept
  }

  predicate Covers(copies: seq<Copy>, device: nat) {
    exists c :: c in copies && c.device == device
  }

  function Uncovered(listed: seq<Bundle>, copies: seq<Copy>): seq<Bundle> {
    if listed == [] then []
    else
      var rest := Uncovered(listed[..|listed| - 1], copies);
      var b := listed[|listed| - 1];
      if Covers(copies, b.device) then rest else rest + [b]
  }

  function Amended(copies: seq<Copy>, listed: seq<Bundle>): seq<Copy> {
    var kept := StillListed(copies, listed);
    kept + CopiesFor(Uncovered(listed, kept), true)
  }

  lemma {:induction false} ListedAsIsListed(bundles: seq<Bundle>, device: nat)
    ensures ListedAs(bundles, device).Some? ==> Bundle(device, ListedAs(bundles, device).value) in bundles
  {
    if bundles != [] {
      ListedAsIsListed(bundles[..|bundles| - 1], device);
    }
  }

  lemma {:induction false} StillListedIs(copies: seq<Copy>, listed: seq<Bundle>)
    ensures forall c :: c in StillListed(copies, listed) <==> c in copies && ListedAs(listed, c.device) == Some(c.registration)
  {
    if copies != [] {
      StillListedIs(copies[..|copies| - 1], listed);
      assert copies == copies[..|copies| - 1] + [copies[|copies| - 1]];
    }
  }

  lemma {:induction false} UncoveredIs(listed: seq<Bundle>, copies: seq<Copy>)
    ensures forall b :: b in Uncovered(listed, copies) <==> b in listed && !Covers(copies, b.device)
  {
    if listed != [] {
      UncoveredIs(listed[..|listed| - 1], copies);
      assert listed == listed[..|listed| - 1] + [listed[|listed| - 1]];
    }
  }

  /** After an amendment every listed device has a copy and every copy is for a listed device under a
      registration it is listed with; copies still good are kept as they were, and only a device
      without one gets it pairwise. */
  lemma {:induction false} AmendedCoversTheList(copies: seq<Copy>, listed: seq<Bundle>)
    ensures var a := Amended(copies, listed);
            && (forall b :: b in listed ==> Covers(a, b.device))
            && (forall c :: c in a ==> Bundle(c.device, c.registration) in listed)
            && (forall c :: c in copies && ListedAs(listed, c.device) == Some(c.registration) ==> c in a)
            && (forall c :: c in a && c !in copies ==> c.pairwise && !Covers(StillListed(copies, listed), c.device))
  {
    var kept := StillListed(copies, listed);
    var added := CopiesFor(Uncovered(listed, kept), true);
    StillListedIs(copies, listed);
    UncoveredIs(listed, kept);
    forall c | c in kept ensures Bundle(c.device, c.registration) in listed {
      ListedAsIsListed(listed, c.device);
    }
    forall b | b in listed ensures Covers(kept + added, b.device) {
      if Covers(kept, b.device) {
        var c :| c in kept && c.device == b.device;
        assert c in kept + added;
      } else {
        var k :| 0 <= k < |added| && Uncovered(listed, kept)[k] == b;
        assert added[k] in kept + added;
      }
    }
  }

  // ----- one round of one leg -----

  /** What a round does with a leg: the leg after it, whether it goes again in the next, what it tells. */
  datatype Turn = Turn(leg: Leg, again: bool, news: Option<News>)

  function Rest(leg: Leg): Turn {
    Turn(leg, false, None)
  }

  function Fail(leg: Leg): Turn {
    Rest(leg.(delivered := true, failed := true))
  }

  function WithCopies(leg: Leg, copies: seq<Copy>): Leg {
    leg.(copies := Some(copies), devices := DevicesOf(copies))
  }

  function PairwiseTurn(r: Round, leg: Leg, i: nat, now: int): Turn {
    if leg.copies.None? then Fail(leg)
    else if r.outcome(i).None? then Rest(Waiting(leg, now))
    else
      match r.outcome(i).value
      case Delivered => Turn(leg.(delivered := true, retryAt := None), false, Some(Stored(leg.account, leg.devices)))
      case Unavailable => Fail(leg)
      case PeerUnsupported => Fail(leg)
      case Refused => Fail(leg)
      case DeviceMismatch => MismatchTurn(r, leg.(queued := false, mismatches := Up(leg.mismatches)), i, now)
      case Pending => Rest(Waiting(leg.(queued := true), now))
      case Conflict => Rest(Waiting(leg.(queued := true), now))
      case RateLimited => Rest(Waiting(leg, now))
  }

  function MismatchTurn(r: Round, leg: Leg, i: nat, now: int): Turn
    requires leg.copies.Some?
  {
    var news := Some(Mismatch(leg.account));
    if leg.mismatches >= MAX_LEG_MISMATCHES then Turn(Fail(leg).leg, false, news)
    else if r.listed(i).None? then Turn(Waiting(leg, now), false, news)
    else Turn(WithCopies(leg, Amended(leg.copies.value, r.listed(i).value)), true, news)
  }

  /** Where a leg's first part of a multi-recipient round leaves it. */
  datatype Place = Rests | Again | ToPairwise | MovedOn | NotReached

  datatype Stop = Stop(leg: Leg, place: Place, news: Option<News>)

  predicate AllReached(r: Round, i: nat)
    requires r.bundles(i).Some?
  {
    forall b :: b in r.bundles(i).value ==> r.reached(i, b)
  }

  predicate HasDevices(r: Round, i: nat) {
    r.bundles(i).Some? && r.bundles(i).value != []
  }

  /** The request a leg goes with: one per server and expiration. */
  function RequestOf(r: Round, i: nat): Option<(string, nat)> {
    if r.server(i).Some? && r.expiration(i).Some? && HasDevices(r, i) && AllReached(r, i)
    then Some((r.server(i).value, r.expiration(i).value)) else None
  }

  predicate Gained(response: Response, id: string) {
    (id in response.devices && response.devices[id]) || id in response.stale
  }

  predicate Names(response: Response, id: string) {
    Gained(response, id) || id in response.devices
  }

  /** Whether the answer names any of the legs it is the answer for. */
  ghost predicate NamesALeg(r: Round, multi: set<nat>, request: (string, nat), response: Response) {
    exists j :: j in multi && RequestOf(r, j) == Some(request) && Names(response, r.accountId(j))
  }

  predicate IsAnswer(status: nat) {
    status == 200 || status == 409 || status == 410
  }

  function ResponseStop(stored: bool, response: Response, id: string, named: bool, leg: Leg, now: int): Stop {
    var news := Some(Mismatch(leg.account));
    var counted := leg.(mismatches := Up(leg.mismatches));
    if stored && id in response.refused then Stop(Fail(leg).leg, Rests, None)
    else if id in response.rateLimited then Stop(Waiting(leg, now), ToPairwise, None)
    else if Gained(response, id) then Stop(leg, MovedOn, news)
    else if id in response.devices then Stop(counted, if counted.mismatches >= MAX_LEG_MISMATCHES then ToPairwise else Again, news)
    else if stored then Stop(leg.(delivered := true, retryAt := None), Rests, Some(Stored(leg.account, leg.devices)))
    else if named then Stop(leg, Again, None)
    else if counted.mismatches >= MAX_LEG_MISMATCHES then Stop(counted, ToPairwise, None)
    else Stop(Waiting(counted, now), Rests, None)
  }

  function AnswerStop(answer: MultiAnswer, id: string, named: bool, expiration: nat, leg: Leg, now: int): Stop {
    match answer
    case Answered(status, response) =>
      if IsAnswer(status) then ResponseStop(status == 200, response, id, named, leg, now) else Stop(leg, ToPairwise, None)
    case TokenInvalid => Stop(leg, ToPairwise, Some(TokenRefused(leg.account, expiration)))
    case PeerUnavailable => Stop(leg, ToPairwise, None)
    case TooLarge => Stop(leg, ToPairwise, None)
    case OverBudget => Stop(Waiting(leg, now), Rests, None)
    case NoAnswer => Stop(Waiting(leg, now), Rests, None)
  }

  function Sealed(r: Round, leg: Leg, i: nat): Leg
    requires r.bundles(i).Some?
  {
    leg.(devices := DevicesOf(CopiesFor(r.bundles(i).value, false)))
  }

  ghost function FirstStop(r: Round, multi: set<nat>, leg: Leg, i: nat, now: int): Stop {
    if r.server(i).None? || r.expiration(i).None? then Stop(leg, ToPairwise, None)
    else if !HasDevices(r, i) then Stop(Waiting(leg, now), Rests, None)
    else if !AllReached(r, i) then Stop(leg, NotReached, None)
    else RequestStop(r, multi, leg, i, now)
  }

  ghost function RequestStop(r: Round, multi: set<nat>, leg: Leg, i: nat, now: int): Stop
    requires RequestOf(r, i).Some?
  {
    var (s, e) := RequestOf(r, i).value;
    var answer := r.answer(s, e);
    var named := answer.Answered? && NamesALeg(r, multi, (s, e), answer.response);
    if !r.seals(s, e) then Stop(Waiting(Sealed(r, leg, i), now), Rests, None)
    else AnswerStop(answer, r.accountId(i), named, e, Sealed(r, leg, i), now)
  }

  function Reached(r: Round, i: nat, bundles: seq<Bundle>): seq<Bundle> {
    if bundles == [] then []
    else
      var rest := Reached(r, i, bundles[..|bundles| - 1]);
      var b := bundles[|bundles| - 1];
      if r.reached(i, b) then rest + [b] else rest
  }

  /** The copies a leg goes on with as an ordinary one, when they could be sealed. */
  function LastCopies(r: Round, place: Place, i: nat): Option<seq<Copy>> {
    var bundles := if r.bundles(i).Some? then r.bundles(i).value else [];
    match place
    case NotReached =>
      var covered := Reached(r, i, bundles);
      if (covered == [] || r.sealsCopies(i)) && r.listed(i).Some?
      then Some(Amended(CopiesFor(covered, false), r.listed(i).value)) else None
    case MovedOn => if r.sealsCopies(i) then Some(CopiesFor(bundles, false)) else None
    case ToPairwise => if r.pairwise(i).Some? then Some(CopiesFor(r.pairwise(i).value, false)) else None
    case _ => None
  }

  /** What the round's second part makes of where the first left the leg: an ordinary leg, in the next
      round unless it waits, or one that waits. */
  function LastTurn(r: Round, stop: Stop, i: nat, now: int): Turn {
    var leg := stop.leg;
    if stop.place == Rests || stop.place == Again then Turn(leg, stop.place == Again, stop.news)
    else
      var copies := LastCopies(r, stop.place, i);
      if copies.None? then Turn(Waiting(leg, now), false, stop.news)
      else Turn(WithCopies(leg, copies.value).(multi := false), stop.place != ToPairwise || Due(leg, now), stop.news)
  }

  ghost function MultiTurn(r: Round, multi: set<nat>, leg: Leg, i: nat, now: int): Turn {
    if !r.ready then Rest(Waiting(leg, now)) else LastTurn(r, FirstStop(r, multi, leg, i, now), i, now)
  }

  /** The legs of `retry` on the multi-recipient route. */
  function MultiOf(legs: seq<Leg>, retry: set<nat>): set<nat> {
    set i | i in retry && i < |legs| && legs[i].multi
  }

  ghost function TurnOf(r: Round, legs: seq<Leg>, retry: set<nat>, i: nat, now: int): Turn
    requires i < |legs|
  {
    if legs[i].multi then MultiTurn(r, MultiOf(legs, retry), legs[i], i, now) else PairwiseTurn(r, legs[i], i, now)
  }

  // ----- whose turn it is -----

  predicate StopIsOf(stop: Stop, account: string) {
    stop.leg.account == account && (stop.news.Some? ==> stop.news.value.account == account)
  }

  lemma {:induction false} ResponseStopIsOf(stored: bool, response: Response, id: string, named: bool, leg: Leg, now: int)
    ensures StopIsOf(ResponseStop(stored, response, id, named, leg, now), leg.account)
  {
  }

  lemma {:induction false} AnswerStopIsOf(answer: MultiAnswer, id: string, named: bool, expiration: nat, leg: Leg, now: int)
    ensures StopIsOf(AnswerStop(answer, id, named, expiration, leg, now), leg.account)
  {
    if answer.Answered? {
      ResponseStopIsOf(answer.status == 200, answer.response, id, named, leg, now);
    }
  }

  lemma {:induction false} FirstStopIsOf(r: Round, multi: set<nat>, leg: Leg, i: nat, now: int)
    ensures StopIsOf(FirstStop(r, multi, leg, i, now), leg.account)
  {
    if RequestOf(r, i).Some? {
      var (s, e) := RequestOf(r, i).value;
      var answer := r.answer(s, e);
      var named := answer.Answered? && NamesALeg(r, multi, (s, e), answer.response);
      AnswerStopIsOf(answer, r.accountId(i), named, e, Sealed(r, leg, i), now);
    }
  }

  lemma {:induction false} LastTurnIsOf(r: Round, stop: Stop, i: nat, now: int)
    ensures var t := LastTurn(r, stop, i, now); t.leg.account == stop.leg.account && t.news == stop.news
  {
  }

  predicate TurnIsOf(t: Turn, account: string) {
    t.leg.account == account && (t.news.Some? ==> t.news.value.account == account)
  }

  lemma {:induction false} MismatchTurnIsOf(r: Round, leg: Leg, i: nat, now: int)
    requires leg.copies.Some?
    ensures TurnIsOf(MismatchTurn(r, leg, i, now), leg.account)
  {
  }

  lemma {:induction false} PairwiseTurnIsOf(r: Round, leg: Leg, i: nat, now: int)
    ensures TurnIsOf(PairwiseTurn(r, leg, i, now), leg.account)
  {
    if leg.copies.Some? && r.outcome(i) == Some(DeviceMismatch) {
      MismatchTurnIsOf(r, leg.(queued := false, mismatches := Up(leg.mismatches)), i, now);
    }
  }

  /** A turn changes no leg's account and tells of no other. */
  lemma {:induction false} TurnIsOfItsAccount(r: Round, legs: seq<Leg>, retry: set<nat>, i: nat, now: int)
    requires i < |legs|
    ensures TurnIsOf(TurnOf(r, legs, retry, i, now), legs[i].account)
  {
    var multi := MultiOf(legs, retry);
    FirstStopIsOf(r, multi, legs[i], i, now);
    LastTurnIsOf(r, FirstStop(r, multi, legs[i], i, now), i, now);
    PairwiseTurnIsOf(r, legs[i], i, now);
  }

  // ----- what a turn may do -----

  /** A leg a round may take: not done, and not waiting. */
  predicate CanGo(leg: Leg, now: int) {
    !leg.delivered && !leg.failed && Due(leg, now)
  }

  /** How much a leg can still go round: what is left of its mismatches, and the route it is on. */
  function Weight(leg: Leg): nat {
    1 + (if leg.multi then 1 else 0) + Max(0, MAX_LEG_MISMATCHES - leg.mismatches)
  }

  /** A leg not going again is done, or waits at least ten seconds. */
  predicate DoneOrWaits(leg: Leg, now: int) {
    leg.delivered || (leg.retryAt.Some? && leg.retryAt.value >= Min(SaturatingAdd(now, FIRST_WAIT_MS), I64_MAX))
  }

  /** Over one step a leg keeps its account, is only ever done once, fails only as it is done, and
      gains nothing to go round with. */
  predicate Onward(before: Leg, after: Leg) {
    && after.account == before.account
    && (after.failed ==> after.delivered)
    && (before.delivered ==> after.delivered && after.failed == before.failed)
    && (after.multi ==> before.multi)
    && Weight(after) <= Weight(before)
  }

  predicate Lower(before: Leg, after: Leg) {
    Weight(after) < Weight(before)
  }

  /** The answer that sends a leg round again as it was: one that stored nothing and named another leg. */
  ghost predicate RoundAgainAsItWas(r: Round, multi: set<nat>, i: nat) {
    && RequestOf(r, i).Some?
    && var request := RequestOf(r, i).value;
       && r.seals(request.0, request.1)
       && r.answer(request.0, request.1).Answered?
       && NamesALeg(r, multi, request, r.answer(request.0, request.1).response)
       && !Names(r.answer(request.0, request.1).response, r.accountId(i))
  }

  predicate Progress(before: Leg, t: Turn, now: int) {
    && Onward(before, t.leg)
    && (t.again ==> CanGo(t.leg, now) && (t.leg.multi || t.leg.copies.Some?))
    && (!t.again ==> DoneOrWaits(t.leg, now))
  }

  predicate StopProgress(before: Leg, s: Stop, now: int) {
    && Onward(before, s.leg)
    && s.leg.multi && (s.leg.failed ==> s.leg.delivered)
    && (s.leg.delivered ==> s.place == Rests)
    && (s.place == Rests ==> DoneOrWaits(s.leg, now))
    && (s.place == ToPairwise && !Due(s.leg, now) ==> DoneOrWaits(s.leg, now))
    && (s.place != Rests && s.place != ToPairwise ==> Due(s.leg, now))
  }

  /** A leg within a round, not decided yet. */
  predicate Under(before: Leg, leg: Leg, now: int) {
    Onward(before, leg) && CanGo(leg, now)
  }

  /** What waiting leaves of a leg: the same but for when it is tried. */
  lemma {:induction false} WaitingWaits(leg: Leg, now: int)
    requires I64_MIN <= now <= I64_MAX
    ensures var w := Waiting(leg, now);
            && w == leg.(waits := w.waits, retryAt := w.retryAt)
            && w.retryAt.Some? && w.retryAt.value >= Min(SaturatingAdd(now, FIRST_WAIT_MS), I64_MAX)
  {
    WaitsDouble(leg.waits);
  }

  lemma {:induction false} WaitingProgress(before: Leg, leg: Leg, now: int, news: Option<News>)
    requires Under(before, leg, now) && I64_MIN <= now <= I64_MAX
    ensures Progress(before, Turn(Waiting(leg, now), false, news), now)
    ensures leg.multi ==> StopProgress(before, Stop(Waiting(leg, now), Rests, news), now)
    ensures leg.multi ==> StopProgress(before, Stop(Waiting(leg, now), ToPairwise, news), now)
  {
    WaitingWaits(leg, now);
  }

  lemma {:induction false} DoneProgress(before: Leg, leg: Leg, done: Leg, now: int, news: Option<News>)
    requires Under(before, leg, now)
    requires done == leg.(delivered := true, failed := true) || done == leg.(delivered := true, retryAt := None)
    ensures Progress(before, Turn(done, false, news), now)
    ensures leg.multi ==> StopProgress(before, Stop(done, Rests, news), now)
  {
  }

  lemma {:induction false} CountedLower(leg: Leg)
    ensures var counted := leg.(mismatches := Up(leg.mismatches));
            Weight(counted) <= Weight(leg) && (counted.mismatches < MAX_LEG_MISMATCHES ==> Lower(leg, counted))
  {
  }

  lemma {:induction false} MismatchProgress(r: Round, before: Leg, leg: Leg, i: nat, now: int)
    requires Under(before, leg, now) && !leg.multi && leg.copies.Some? && I64_MIN <= now <= I64_MAX
    requires leg.mismatches < MAX_LEG_MISMATCHES ==> Lower(before, leg)
    ensures var t := MismatchTurn(r, leg, i, now);
            Progress(before, t, now) && (t.again ==> Lower(before, t.leg))
  {
    var news := Some(Mismatch(leg.account));
    WaitingProgress(before, leg, now, news);
    DoneProgress(before, leg, Fail(leg).leg, now, news);
  }

  lemma {:induction false} PairwiseProgress(r: Round, leg: Leg, i: nat, now: int)
    requires CanGo(leg, now) && !leg.multi && I64_MIN <= now <= I64_MAX
    ensures var t := PairwiseTurn(r, leg, i, now);
            Progress(leg, t, now) && (t.again ==> Lower(leg, t.leg))
  {
    if leg.copies.None? {
      DoneProgress(leg, leg, Fail(leg).leg, now, None);
    } else if r.outcome(i).None? {
      WaitingProgress(leg, leg, now, None);
    } else {
      match r.outcome(i).value {
        case Delivered => DoneProgress(leg, leg, leg.(delivered := true, retryAt := None), now, Some(Stored(leg.account, leg.devices)));
        case Unavailable => DoneProgress(leg, leg, Fail(leg).leg, now, None);
        case PeerUnsupported => DoneProgress(leg, leg, Fail(leg).leg, now, None);
        case Refused => DoneProgress(leg, leg, Fail(leg).leg, now, None);
        case DeviceMismatch =>
          CountedLower(leg.(queued := false));
          MismatchProgress(r, leg, leg.(queued := false, mismatches := Up(leg.mismatches)), i, now);
        case Pending => WaitingProgress(leg, leg.(queued := true), now, None);
        case Conflict => WaitingProgress(leg, leg.(queued := true), now, None);
        case RateLimited => WaitingProgress(leg, leg, now, None);
      }
    }
  }

  lemma {:induction false} ResponseProgress(stored: bool, response: Response, id: string, named: bool, before: Leg, leg: Leg, now: int)
    requires Under(before, leg, now) && leg.multi && Weight(leg) == Weight(before) && I64_MIN <= now <= I64_MAX
    ensures var s := ResponseStop(stored, response, id, named, leg, now);
            StopProgress(before, s, now) && (s.place == Again ==> Lower(before, s.leg) || (named && !Names(response, id)))
  {
    var counted := leg.(mismatches := Up(leg.mismatches));
    CountedLower(leg);
    if stored && id in response.refused {
      DoneProgress(before, leg, Fail(leg).leg, now, None);
    } else if id in response.rateLimited {
      WaitingProgress(before, leg, now, None);
    } else if !Names(response, id) {
      if stored {
        DoneProgress(before, leg, leg.(delivered := true, retryAt := None), now, Some(Stored(leg.account, leg.devices)));
      } else if !named {
        WaitingProgress(before, counted, now, None);
      }
    }
  }

  lemma {:induction false} AnswerProgress(answer: MultiAnswer, id: string, named: bool, expiration: nat, before: Leg, leg: Leg, now: int)
    requires Under(before, leg, now) && leg.multi && Weight(leg) == Weight(before) && I64_MIN <= now <= I64_MAX
    ensures var s := AnswerStop(answer, id, named, expiration, leg, now);
            && StopProgress(before, s, now)
            && (s.place == Again ==> Lower(before, s.leg) || (answer.Answered? && named && !Names(answer.response, id)))
  {
    if answer.Answered? {
      ResponseProgress(answer.status == 200, answer.response, id, named, before, leg, now);
    } else {
      WaitingProgress(before, leg, now, None);
    }
  }

  lemma {:induction false} RequestProgress(r: Round, multi: set<nat>, leg: Leg, i: nat, now: int)
    requires CanGo(leg, now) && leg.multi && RequestOf(r, i).Some? && I64_MIN <= now <= I64_MAX
    ensures var s := RequestStop(r, multi, leg, i, now);
            StopProgress(leg, s, now) && (s.place == Again ==> Lower(leg, s.leg) || RoundAgainAsItWas(r, multi, i))
  {
    var (s, e) := RequestOf(r, i).value;
    var (sealed, answer) := (Sealed(r, leg, i), r.answer(s, e));
    if r.seals(s, e) {
      var named := answer.Answered? && NamesALeg(r, multi, (s, e), answer.response);
      AnswerProgress(answer, r.accountId(i), named, e, leg, sealed, now);
    } else {
      WaitingProgress(leg, sealed, now, None);
    }
  }

  lemma {:induction false} FirstProgress(r: Round, multi: set<nat>, leg: Leg, i: nat, now: int)
    requires CanGo(leg, now) && leg.multi && I64_MIN <= now <= I64_MAX
    ensures var s := FirstStop(r, multi, leg, i, now);
            StopProgress(leg, s, now) && (s.place == Again ==> Lower(leg, s.leg) || RoundAgainAsItWas(r, multi, i))
  {
    if RequestOf(r, i).Some? {
      RequestProgress(r, multi, leg, i, now);
    } else {
      WaitingProgress(leg, leg, now, None);
    }
  }

  /** A leg that becomes an ordinary one has less to go round with. */
  lemma {:induction false} OrdinaryProgress(before: Leg, leg: Leg, copies: seq<Copy>, now: int, news: Option<News>)
    requires Onward(before, leg) && leg.multi && !leg.delivered && !leg.failed && (!Due(leg, now) ==> DoneOrWaits(leg, now))
    ensures var t := Turn(WithCopies(leg, copies).(multi := false), Due(leg, now), news);
            Progress(before, t, now) && Lower(before, t.leg)
  {
  }

  lemma {:induction false} LastProgress(r: Round, before: Leg, s: Stop, i: nat, now: int)
    requires StopProgress(before, s, now) && CanGo(before, now) && before.multi && I64_MIN <= now <= I64_MAX
    ensures var t := LastTurn(r, s, i, now);
            Progress(before, t, now) && (t.again ==> Lower(before, t.leg) || (s.place == Again && t.leg == s.leg))
  {
    if s.place != Rests && s.place != Again {
      WaitingFurther(before, s, now);
      var t := LastTurn(r, s, i, now);
      if t.leg.copies.Some? && !t.leg.multi {
        OrdinaryProgress(before, s.leg, t.leg.copies.value, now, s.news);
      }
    }
  }

  /** A leg that waits already may be left waiting once more. */
  lemma {:induction false} WaitingFurther(before: Leg, s: Stop, now: int)
    requires StopProgress(before, s, now) && s.place != Rests && I64_MIN <= now <= I64_MAX
    ensures Progress(before, Turn(Waiting(s.leg, now), false, s.news), now)
  {
    WaitingWaits(s.leg, now);
  }

  /** A leg on the multi-recipient route goes again only with less left, or because the same request
      was refused over another leg. */
  lemma {:induction false} MultiProgress(r: Round, multi: set<nat>, leg: Leg, i: nat, now: int)
    requires CanGo(leg, now) && leg.multi && I64_MIN <= now <= I64_MAX
    ensures var t := MultiTurn(r, multi, leg, i, now);
            Progress(leg, t, now) && (t.again ==> Lower(leg, t.leg) || (r.ready && RoundAgainAsItWas(r, multi, i)))
  {
    if r.ready {
      FirstProgress(r, multi, leg, i, now);
      LastProgress(r, leg, FirstStop(r, multi, leg, i, now), i, now);
    } else {
      WaitingProgress(leg, leg, now, None);
    }
  }

  /** The leg an answer names never goes again as it was: it goes on pairwise, has one mismatch more,
      waits, or is done. */
  lemma {:induction false} TheNamedLegMoves(r: Round, multi: set<nat>, leg: Leg, j: nat, now: int)
    requires CanGo(leg, now) && leg.multi && I64_MIN <= now <= I64_MAX
    requires r.ready && RequestOf(r, j).Some?
    requires var request := RequestOf(r, j).value;
             && r.answer(request.0, request.1).Answered?
             && Names(r.answer(request.0, request.1).response, r.accountId(j))
    ensures var t := MultiTurn(r, multi, leg, j, now); t.again ==> Lower(leg, t.leg)
  {
    MultiProgress(r, multi, leg, j, now);
  }

  // ----- a round -----

  predicate AllCanGo(legs: seq<Leg>, retry: set<nat>, now: int) {
    forall i :: i in retry ==> 0 <= i < |legs| && CanGo(legs[i], now)
  }

  /** The legs after a round over `retry`. */
  ghost predicate Rounded(r: Round, before: seq<Leg>, retry: set<nat>, now: int, after: seq<Leg>, again: set<nat>) {
    && |after| == |before|
    && (forall i :: 0 <= i < |before| ==> after[i] == if i in retry then TurnOf(r, before, retry, i, now).leg else before[i])
    && (forall i :: i in again <==> i in retry && 0 <= i < |before| && TurnOf(r, before, retry, i, now).again)
  }

  /** What the legs of `among` can still go round with, together. */
  function Load(legs: seq<Leg>, among: set<nat>): nat {
    if legs == [] then 0
    else
      var n := |legs| - 1;
      Load(legs[..n], among) + if n in among then Weight(legs[n]) else 0
  }

  ghost predicate NoMore(before: seq<Leg>, from: set<nat>, after: seq<Leg>, among: set<nat>) {
    && |after| == |before|
    && forall i :: 0 <= i < |before| && i in among ==> i in from && Weight(after[i]) <= Weight(before[i])
  }

  predicate Less(before: seq<Leg>, from: set<nat>, after: seq<Leg>, among: set<nat>, i: nat)
    requires |after| == |before|
  {
    i < |before| && i in from && (i in among ==> Weight(after[i]) < Weight(before[i]))
  }

  lemma {:induction false} LoadNeverRises(before: seq<Leg>, from: set<nat>, after: seq<Leg>, among: set<nat>)
    requires NoMore(before, from, after, among)
    ensures Load(after, among) <= Load(before, from)
  {
    if before != [] {
      var n := |before| - 1;
      LoadNeverRises(before[..n], from, after[..n], among);
    }
  }

  lemma {:induction false} LoadFalls(before: seq<Leg>, from: set<nat>, after: seq<Leg>, among: set<nat>, i: nat)
    requires NoMore(before, from, after, among) && Less(before, from, after, among, i)
    ensures Load(after, among) < Load(before, from)
  {
    var n := |before| - 1;
    if i == n {
      LoadNeverRises(before[..n], from, after[..n], among);
    } else {
      LoadFalls(before[..n], from, after[..n], among, i);
    }
  }

  /** Every leg of a round is brought onward; one that goes again can go, one that does not is done or
      waits. */
  lemma {:induction false} TurnProgress(r: Round, legs: seq<Leg>, retry: set<nat>, i: nat, now: int)
    requires i < |legs| && CanGo(legs[i], now) && I64_MIN <= now <= I64_MAX
    ensures Progress(legs[i], TurnOf(r, legs, retry, i, now), now)
  {
    if legs[i].multi {
      MultiProgress(r, MultiOf(legs, retry), legs[i], i, now);
    } else {
      PairwiseProgress(r, legs[i], i, now);
    }
  }

  /** For every answer the servers give, a round that sends legs round again leaves strictly less to go
      round with. */
  lemma {:induction false} RoundLowers(r: Round, before: seq<Leg>, retry: set<nat>, now: int, after: seq<Leg>, again: set<nat>)
    requires Rounded(r, before, retry, now, after, again) && AllCanGo(before, retry, now)
    requires I64_MIN <= now <= I64_MAX && retry != {}
    ensures again <= retry && AllCanGo(after, again, now)
    ensures Load(after, again) < Load(before, retry)
  {
    forall i | i in retry ensures Weight(after[i]) <= Weight(before[i]) && (i in again ==> CanGo(after[i], now)) {
      TurnProgress(r, before, retry, i, now);
    }
    var i :| i in retry;
    var low := LowerOne(r, before, retry, now, i);
    LoadFalls(before, retry, after, again, low);
  }

  /** The leg a round leaves with less: the one given, or the one that keeps it going round. */
  lemma {:induction false} LowerOne(r: Round, before: seq<Leg>, retry: set<nat>, now: int, i: nat) returns (low: nat)
    requires AllCanGo(before, retry, now) && i in retry && I64_MIN <= now <= I64_MAX
    ensures low in retry
    ensures var t := TurnOf(r, before, retry, low, now); t.again ==> Lower(before[low], t.leg)
  {
    var multi := MultiOf(before, retry);
    low := i;
    if before[i].multi {
      MultiProgress(r, multi, before[i], i, now);
      if r.ready && RoundAgainAsItWas(r, multi, i) {
        var request := RequestOf(r, i).value;
        low :| low in multi && RequestOf(r, low) == Some(request)
               && Names(r.answer(request.0, request.1).response, r.accountId(low));
        TheNamedLegMoves(r, multi, before[low], low, now);
      }
    } else {
      PairwiseProgress(r, before[i], i, now);
    }
  }

  lemma {:induction false} LoadIsBounded(legs: seq<Leg>, among: set<nat>)
    ensures Load(legs, among) <= (MAX_LEG_MISMATCHES + 2) * |legs|
  {
    if legs != [] {
      LoadIsBounded(legs[..|legs| - 1], among);
    }
  }

  datatype Point = Point(legs: seq<Leg>, retry: set<nat>)

  ghost predicate Rounds(points: seq<Point>, answers: seq<Round>, now: int) {
    && |points| == |answers| + 1
    && AllCanGo(points[0].legs, points[0].retry, now)
    && forall k :: 0 <= k < |answers| ==> RoundAt(points, answers, now, k)
  }

  ghost predicate RoundAt(points: seq<Point>, answers: seq<Round>, now: int, k: nat)
    requires k < |answers| && |points| == |answers| + 1
  {
    && points[k].retry != {}
    && Rounded(answers[k], points[k].legs, points[k].retry, now, points[k + 1].legs, points[k + 1].retry)
  }

  /** Without the limit on rounds a pass would end all the same: whatever the servers answer, it can not
      have more rounds than its legs have to go round with, 22 each. */
  lemma {:induction false} RoundsAreBounded(points: seq<Point>, answers: seq<Round>, now: int)
    requires Rounds(points, answers, now) && I64_MIN <= now <= I64_MAX
    ensures |answers| + Load(points[|answers|].legs, points[|answers|].retry) <= Load(points[0].legs, points[0].retry)
    ensures |answers| <= (MAX_LEG_MISMATCHES + 2) * |points[0].legs|
    ensures AllCanGo(points[|answers|].legs, points[|answers|].retry, now)
  {
    LoadIsBounded(points[0].legs, points[0].retry);
    if answers != [] {
      var n := |answers| - 1;
      var (points', answers') := (points[..n + 1], answers[..n]);
      forall k | 0 <= k < n ensures RoundAt(points', answers', now, k) {
        assert RoundAt(points, answers, now, k);
      }
      RoundsAreBounded(points', answers', now);
      assert RoundAt(points, answers, now, n);
      RoundLowers(answers[n], points[n].legs, points[n].retry, now, points[n + 1].legs, points[n + 1].retry);
    }
  }

  /** Exactly when a leg fails in a round: its stored copies do not read back, its server refuses it for
      good, or its devices have changed for the twentieth time. No limit, conflict, silence or error
      does it. */
  lemma {:induction false} FailsExactly(r: Round, legs: seq<Leg>, retry: set<nat>, i: nat, now: int)
    requires i < |legs| && CanGo(legs[i], now)
    ensures TurnOf(r, legs, retry, i, now).leg.failed <==>
            if legs[i].multi then RefusedOnRoute(r, i) else RefusedPairwise(r, legs[i], i)
  {
    if !legs[i].multi {
      PairwiseFailsExactly(r, legs[i], i, now);
    } else if r.ready {
      var multi := MultiOf(legs, retry);
      FirstFailsExactly(r, multi, legs[i], i, now);
      LastKeeps(r, FirstStop(r, multi, legs[i], i, now), i, now);
    }
  }

  lemma {:induction false} PairwiseFailsExactly(r: Round, leg: Leg, i: nat, now: int)
    requires CanGo(leg, now)
    ensures PairwiseTurn(r, leg, i, now).leg.failed <==> RefusedPairwise(r, leg, i)
  {
  }

  lemma {:induction false} FirstFailsExactly(r: Round, multi: set<nat>, leg: Leg, i: nat, now: int)
    requires CanGo(leg, now)
    ensures FirstStop(r, multi, leg, i, now).leg.failed <==> RefusesOnRoute(r, i)
  {
  }

  predicate RefusedOnRoute(r: Round, i: nat) {
    r.ready && RefusesOnRoute(r, i)
  }

  predicate RefusesOnRoute(r: Round, i: nat) {
    && RequestOf(r, i).Some?
    && var (s, e) := RequestOf(r, i).value;
       && r.seals(s, e)
       && r.answer(s, e).Answered? && r.answer(s, e).status == 200
       && r.accountId(i) in r.answer(s, e).response.refused
  }

  predicate RefusedPairwise(r: Round, leg: Leg, i: nat) {
    || leg.copies.None?
    || r.outcome(i) == Some(Unavailable)
    || r.outcome(i) == Some(PeerUnsupported)
    || r.outcome(i) == Some(Refused)
    || (r.outcome(i) == Some(DeviceMismatch) && leg.mismatches + 1 >= MAX_LEG_MISMATCHES)
  }

  /** A message is taken as delivered to an account only on its server's word. */
  lemma {:induction false} DeliveredExactly(r: Round, legs: seq<Leg>, retry: set<nat>, i: nat, now: int)
    requires i < |legs| && CanGo(legs[i], now)
    ensures var t := TurnOf(r, legs, retry, i, now);
            t.leg.delivered && !t.leg.failed <==>
            if legs[i].multi then StoredOnRoute(r, i) else legs[i].copies.Some? && r.outcome(i) == Some(Delivered)
  {
    if legs[i].multi && r.ready {
      var multi := MultiOf(legs, retry);
      var s := FirstStop(r, multi, legs[i], i, now);
      if RequestOf(r, i).Some? {
        StoredExactly(r, multi, legs[i], i, now);
      }
      LastKeeps(r, s, i, now);
    }
  }

  lemma {:induction false} LastKeeps(r: Round, s: Stop, i: nat, now: int)
    ensures var t := LastTurn(r, s, i, now); t.leg.delivered == s.leg.delivered && t.leg.failed == s.leg.failed
  {
    assert Waiting(s.leg, now).delivered == s.leg.delivered && Waiting(s.leg, now).failed == s.leg.failed;
  }

  lemma {:induction false} StoredExactly(r: Round, multi: set<nat>, leg: Leg, i: nat, now: int)
    requires CanGo(leg, now) && RequestOf(r, i).Some?
    ensures var s := RequestStop(r, multi, leg, i, now); s.leg.delivered && !s.leg.failed <==> Stores(r, i)
  {
  }

  predicate StoredOnRoute(r: Round, i: nat) {
    r.ready && Stores(r, i)
  }

  predicate Stores(r: Round, i: nat) {
    && RequestOf(r, i).Some?
    && var (s, e) := RequestOf(r, i).value;
       && r.seals(s, e)
       && r.answer(s, e).Answered? && r.answer(s, e).status == 200
       && var response := r.answer(s, e).response;
          && r.accountId(i) !in response.refused && r.accountId(i) !in response.rateLimited
          && !Names(response, r.accountId(i))
  }
}
