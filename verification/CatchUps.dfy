/** The throttle on asking a group's home because of what was received: when it lets a request through,
    and how many it lets through in a stretch of time. */
module CatchUps {
  import opened Common

  const CATCH_UP_BACKOFF_MS: nat := 10 * 1000
  const CATCH_UP_MAX_BACKOFF_MS: nat := 15 * 60 * 1000
  const NEWS_WINDOW: nat := 64
  const NEWS_MIN_GAP_MS: nat := 2 * 1000

  /** A group's throttle: its last catch-up, the failures in a row, the furthest revision asked for as news,
      and the moment of the last catch-up that reached the latest. */
  datatype State = State(lastMs: int, failures: nat, askedUpTo: nat, currentAtMs: int)

  const FRESH := State(0, 0, 0, 0)

  function Pow2(n: nat): nat {
    if n == 0 then 1 else 2 * Pow2(n - 1)
  }

  function BackoffMs(failures: nat): nat {
    Min(CATCH_UP_BACKOFF_MS * Pow2(Min(failures, 16)), CATCH_UP_MAX_BACKOFF_MS)
  }

  /** Whether a named revision may be real news: none failed since the last success, it is further than any
      asked for, and within the window past what is verified. */
  predicate News(s: State, revision: Option<nat>, verified: nat) {
    && s.failures == 0
    && revision.Some?
    && revision.value > s.askedUpTo
    && revision.value <= Min(verified + NEWS_WINDOW, U64_MAX)
  }

  predicate Allows(s: State, now: int, revision: Option<nat>, verified: nat) {
    var since := SaturatingSub(now, s.lastMs);
    || (News(s, revision, verified) && since >= NEWS_MIN_GAP_MS)
    || since >= BackoffMs(s.failures)
  }

  /** One catch-up: asked for by content that names `revision` (none without a context), this device at
      `verified`; `current` when it reached the home's latest, `stillAhead` when the context
      is ahead of that. */
  datatype Event = Event(now: int, revision: Option<nat>, verified: nat, current: bool, stillAhead: bool)

  predicate Failed(e: Event) {
    !e.current || e.stillAhead
  }

  function After(s: Option<State>, e: Event): State {
    var was := if s.Some? then s.value else FRESH;
    State(
      e.now,
      if Failed(e) then Min(was.failures + 1, U32_MAX) else 0,
      if News(was, e.revision, e.verified) then Max(was.askedUpTo, e.revision.value) else was.askedUpTo,
      if e.current then e.now else was.currentAtMs)
  }

  predicate MayGo(s: Option<State>, e: Event) {
    s.None? || Allows(s.value, e.now, e.revision, e.verified)
  }

  // ----- runs of one group's catch-ups -----

  function StateAfter(es: seq<Event>): Option<State> {
    if |es| == 0 then None else Some(After(StateAfter(es[..|es| - 1]), es[|es| - 1]))
  }

  predicate AllowedAt(es: seq<Event>, i: nat)
    requires i < |es|
  {
    MayGo(StateAfter(es[..i]), es[i])
  }

  /** Every catch-up was allowed when it went, and the clock never went back. */
  ghost predicate Legal(es: seq<Event>) {
    && (forall i :: 0 <= i < |es| ==> AllowedAt(es, i))
    && (forall i, j :: 0 <= i < j < |es| ==> es[i].now <= es[j].now)
  }

  predicate IsNews(es: seq<Event>, i: nat)
    requires i < |es|
  {
    var s := StateAfter(es[..i]);
    News(if s.Some? then s.value else FRESH, es[i].revision, es[i].verified)
  }

  lemma {:induction false} LastOfPrefix(es: seq<Event>, i: nat)
    requires 0 < i <= |es|
    ensures StateAfter(es[..i]) == Some(After(StateAfter(es[..i - 1]), es[i - 1]))
  {
    assert es[..i][..i - 1] == es[..i - 1];
  }

  lemma {:induction false} Pow2Grows(a: nat, b: nat)
    requires a <= b
    ensures 1 <= Pow2(a) <= Pow2(b)
  {
    if a < b {
      Pow2Grows(a, b - 1);
    } else if a > 0 {
      Pow2Grows(a - 1, b - 1);
    }
  }

  lemma {:induction false} BackoffGrows(a: nat, b: nat)
    requires a <= b
    ensures CATCH_UP_BACKOFF_MS <= BackoffMs(a) <= BackoffMs(b) <= CATCH_UP_MAX_BACKOFF_MS
  {
    var (x, y) := (Min(a, 16), Min(b, 16));
    Pow2Grows(0, x);
    Pow2Grows(x, y);
    CapKeepsOrder(Pow2(x), Pow2(y));
  }

  lemma {:induction false} CapKeepsOrder(p: nat, q: nat)
    requires 1 <= p <= q
    ensures CATCH_UP_BACKOFF_MS
         <= Min(CATCH_UP_BACKOFF_MS * p, CATCH_UP_MAX_BACKOFF_MS)
         <= Min(CATCH_UP_BACKOFF_MS * q, CATCH_UP_MAX_BACKOFF_MS)
         <= CATCH_UP_MAX_BACKOFF_MS
  {
  }

  lemma {:induction false} BackoffCap(b: nat)
    requires b >= 7
    ensures BackoffMs(b) == CATCH_UP_MAX_BACKOFF_MS
  {
    Pow2Grows(7, Min(b, 16));
    SeventhPower();
  }

  lemma {:induction false} SeventhPower()
    ensures Pow2(7) == 128
  {
    calc {
      Pow2(7);
      2 * Pow2(6);
      4 * Pow2(5);
      8 * Pow2(4);
      16 * Pow2(3);
    }
  }

  /** How far apart two consecutive catch-ups are: never less than two seconds, never less than
      ten unless the later one is for news, and the whole back-off once one failed. */
  lemma {:induction false} Spacing(es: seq<Event>, i: nat)
    requires Legal(es) && 0 < i < |es|
    ensures es[i].now - es[i - 1].now >= NEWS_MIN_GAP_MS
    ensures !IsNews(es, i) ==> es[i].now - es[i - 1].now >= CATCH_UP_BACKOFF_MS
    ensures Failed(es[i - 1]) ==> es[i].now - es[i - 1].now >= BackoffMs(StateAfter(es[..i]).value.failures)
  {
    LastOfPrefix(es, i);
    var s := StateAfter(es[..i]).value;
    BackoffGrows(0, s.failures);
    assert AllowedAt(es, i);
  }

  /** The catch-ups for news among those from the `i`th on. */
  function NewsCount(es: seq<Event>, i: nat): nat
    requires i <= |es|
  {
    if |es| == i then 0
    else NewsCount(es[..|es| - 1], i) + if IsNews(es, |es| - 1) then 1 else 0
  }

  function AskedUpTo(es: seq<Event>): nat {
    if |es| == 0 then 0 else StateAfter(es).value.askedUpTo
  }

  /** Each catch-up for news asks strictly further than any before, so in any stretch there are no more
      of them than the revisions this device held, and the window past them. */
  lemma {:induction false} NewsIsBounded(es: seq<Event>, i: nat, highest: nat)
    requires i <= |es| && forall k :: 0 <= k < |es| ==> es[k].verified <= highest
    ensures AskedUpTo(es[..i]) + NewsCount(es, i) <= AskedUpTo(es) <= highest + NEWS_WINDOW
  {
    if |es| == i {
      assert es[..i] == es;
      AskedIsBounded(es, highest);
    } else {
      var n := |es| - 1;
      var init := es[..n];
      assert forall k :: 0 <= k < n ==> init[k] == es[k];
      assert init[..i] == es[..i];
      NewsIsBounded(init, i, highest);
      assert StateAfter(es) == Some(After(StateAfter(init), es[n]));
    }
  }

  lemma {:induction false} AskedIsBounded(es: seq<Event>, highest: nat)
    requires forall k :: 0 <= k < |es| ==> es[k].verified <= highest
    ensures AskedUpTo(es) <= highest + NEWS_WINDOW
  {
    if |es| > 0 {
      var n := |es| - 1;
      assert forall k :: 0 <= k < n ==> es[..n][k] == es[k];
      AskedIsBounded(es[..n], highest);
      assert StateAfter(es) == Some(After(StateAfter(es[..n]), es[n]));
      AsksWithinReach(StateAfter(es[..n]), es[n], highest);
    }
  }

  lemma {:induction false} AsksWithinReach(s: Option<State>, e: Event, highest: nat)
    requires e.verified <= highest && (s.Some? ==> s.value.askedUpTo <= highest + NEWS_WINDOW)
    ensures After(s, e).askedUpTo <= highest + NEWS_WINDOW
  {
  }

  lemma {:induction false} AskedGrows(es: seq<Event>, i: nat)
    requires i < |es|
    ensures AskedUpTo(es[..i]) <= AskedUpTo(es[..i + 1])
  {
    LastOfPrefix(es, i + 1);
  }

  lemma {:induction false} LegalPrefix(es: seq<Event>, n: nat)
    requires Legal(es) && n <= |es|
    ensures Legal(es[..n])
  {
    forall i | 0 <= i < n ensures AllowedAt(es[..n], i) {
      assert es[..n][..i] == es[..i];
      assert AllowedAt(es, i);
    }
  }

  /** The catch-ups after the `i`th that were not for news. */
  function Others(es: seq<Event>, i: nat): int
    requires i < |es|
  {
    |es| - i - 1 - NewsCount(es, i + 1)
  }

  /** `others` waits of ten seconds fit in the time. */
  predicate TakesTime(others: int, time: int) {
    10_000 * others <= time
  }

  /** The revisions in reach that were not asked for as news yet, with `asked` asked up to. */
  function Reach(asked: nat, highest: nat): int {
    highest + NEWS_WINDOW - asked
  }

  /** Of so many catch-ups, those neither the first nor for one of the revisions in reach. */
  function Further(n: int, reach: int): int {
    n - 1 - reach
  }

  /** No more than one for each `wait` in the time. */
  predicate OncePer(n: int, time: int, wait: int)
    requires wait > 0
  {
    n <= time / wait
  }

  /** From the `i`th catch-up to the last, those not for news take their time. */
  lemma {:induction false} OtherCatchUpsTakeTime(es: seq<Event>, i: nat)
    requires Legal(es) && i < |es|
    ensures TakesTime(Others(es, i), es[|es| - 1].now - es[i].now)
  {
    var n := |es| - 1;
    if n > i {
      var init := es[..n];
      LegalPrefix(es, n);
      OtherCatchUpsTakeTime(init, i);
      GapOf(es, n);
      assert Others(es, i) == Others(init, i) + if IsNews(es, n) then 0 else 1;
      OneGapMore(Others(init, i), init[n - 1].now - init[i].now, Others(es, i), es[n].now - es[i].now);
    }
  }

  lemma {:induction false} GapOf(es: seq<Event>, n: nat)
    requires Legal(es) && 0 < n < |es|
    ensures es[n].now - es[n - 1].now >= if IsNews(es, n) then 0 else CATCH_UP_BACKOFF_MS
  {
    Spacing(es, n);
  }

  lemma {:induction false} OneGapMore(before: int, time: int, others: int, longer: int)
    requires TakesTime(before, time)
    requires (others == before && longer >= time) || (others == before + 1 && longer >= time + CATCH_UP_BACKOFF_MS)
    ensures TakesTime(others, longer)
  {
  }

  /** How many catch-ups of one group there can be in any stretch of its history, whoever writes what:
      one, one for every ten seconds of it, and one for every revision in reach that was not asked for when
      the stretch began. */
  lemma {:induction false} CatchUpsAreBounded(es: seq<Event>, i: nat, j: nat, highest: nat)
    requires Legal(es) && i < j <= |es|
    requires forall k :: 0 <= k < j ==> es[k].verified <= highest
    ensures OncePer(Further(j - i, Reach(AskedUpTo(es[..i + 1]), highest)), es[j - 1].now - es[i].now, CATCH_UP_BACKOFF_MS)
  {
    var stretch := es[..j];
    LegalPrefix(es, j);
    OtherCatchUpsTakeTime(stretch, i);
    NewsIsBounded(stretch, i + 1, highest);
    assert stretch[j - 1] == es[j - 1] && stretch[i] == es[i] && stretch[..i + 1] == es[..i + 1];
    TensOfSeconds(Others(stretch, i), Further(j - i, Reach(AskedUpTo(es[..i + 1]), highest)), es[j - 1].now - es[i].now);
  }

  lemma {:induction false} OncePerMore(n: int, time: int, fewer: int, longer: int)
    requires fewer <= n && time <= longer && ((n <= 0 && time == 0) || OncePer(n, time, CATCH_UP_BACKOFF_MS))
    ensures OncePer(fewer, longer, CATCH_UP_BACKOFF_MS)
  {
  }

  lemma {:induction false} TensOfSeconds(others: int, n: int, time: int)
    requires TakesTime(others, time) && n <= others
    ensures OncePer(n, time, CATCH_UP_BACKOFF_MS)
  {
  }

  /** While catch-ups leave the context ahead (a forged revision, an unreachable home) the waits double up
      to a quarter of an hour, wherever in a history that begins: in any time there are at most eight such
      catch-ups in a row and one more for each quarter of an hour. */
  lemma {:induction false} FailuresBackOff(es: seq<Event>, i: nat, j: nat)
    requires Legal(es) && i < j <= |es|
    requires forall k :: i <= k < j ==> Failed(es[k])
    ensures es[j - 1].now - es[i].now >= BackoffSum(j - i)
    ensures OncePer(j - i - 8, es[j - 1].now - es[i].now, CATCH_UP_MAX_BACKOFF_MS)
  {
    var (n, time) := (j - i, es[j - 1].now - es[i].now);
    FailuresAddUp(es, i, j);
    assert time >= BackoffSum(n);
    EightAndQuarters(n, time);
  }

  lemma {:induction false} EightAndQuarters(n: nat, time: int)
    requires n > 0 && time >= BackoffSum(n)
    ensures OncePer(n - 8, time, CATCH_UP_MAX_BACKOFF_MS)
  {
    BackoffSumGrows(n);
  }

  /** The waits between the first `n` failed catch-ups, summed. */
  function BackoffSum(n: nat): nat {
    if n <= 1 then 0 else BackoffSum(n - 1) + BackoffMs(n - 1)
  }

  lemma {:induction false} FailuresAddUp(es: seq<Event>, i: nat, j: nat)
    requires Legal(es) && i < j <= |es|
    requires forall k :: i <= k < j ==> Failed(es[k])
    ensures StateAfter(es[..j]).value.failures >= Min(j - i, U32_MAX)
    ensures es[j - 1].now - es[i].now >= BackoffSum(j - i)
  {
    LastOfPrefix(es, j);
    if j > i + 1 {
      FailuresAddUp(es, i, j - 1);
      Spacing(es, j - 1);
      BackoffGrows(Min(j - 1 - i, U32_MAX), StateAfter(es[..j - 1]).value.failures);
      assert BackoffMs(Min(j - 1 - i, U32_MAX)) == BackoffMs(j - 1 - i);
    }
  }

  lemma {:induction false} BackoffSumGrows(n: nat)
    requires n > 0
    ensures BackoffSum(n) >= (n - 8) * CATCH_UP_MAX_BACKOFF_MS
  {
    if n > 1 {
      BackoffSumGrows(n - 1);
      if n - 1 >= 7 {
        BackoffCap(n - 1);
      }
    }
  }
}
