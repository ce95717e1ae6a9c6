/** What keeps repairs apart: the moments at which each was last made or asked for, in memory and in the
    store that an account's tabs share. */
module RepairLimits {
  import opened Common

  const HOUR_MS: int := 60 * 60 * 1000
  const MAX_RECOVERIES_PER_HOUR: nat := 10
  const RECOVERY_LIMIT: string := "group-recovery"

  /** Who a repair was for, and which. */
  type Key = (string, string)

  type Limits = map<Key, int>

  /** Each key's latest of the two. */
  function Merged(a: Limits, b: Limits): Limits {
    map k | k in a.Keys + b.Keys :: if k !in b then a[k] else if k !in a then b[k] else Max(a[k], b[k])
  }

  predicate Within(now: int, at: int) {
    SaturatingSub(now, at) < HOUR_MS
  }

  function Live(m: Limits, now: int): Limits {
    map k | k in m && Within(now, m[k]) :: m[k]
  }

  function Recoveries(m: Limits): set<Key> {
    set k | k in m && k.0 == RECOVERY_LIMIT
  }

  function KeyOf(group: string): Key {
    (RECOVERY_LIMIT, group)
  }

  // ----- what each repair does to a tab's limits and the store's -----

  datatype Held = Held(mine: Limits, stored: Limits)

  datatype Tried = Tried(ok: bool, held: Held)

  function Loaded(h: Held): Limits {
    Merged(h.mine, h.stored)
  }

  function TryRecovery(h: Held, group: string, now: int): Tried {
    var live := Live(Loaded(h), now);
    if |Recoveries(live)| >= MAX_RECOVERIES_PER_HOUR || KeyOf(group) in live then Tried(false, Held(live, h.stored))
    else
      var written := Live(live[KeyOf(group) := now], now);
      Tried(true, Held(written, written))
  }

  /** What becomes of a message asked for again: it can not be sent again, it went, it is too large ever
      to go, or it failed and may be asked for once more. */
  datatype Resend = CannotSend | Went | TooLarge | Failed

  function ResendOne(h: Held, key: Key, now: int, r: Resend): Tried {
    var live := Live(Loaded(h), now);
    if key in live then Tried(false, Held(live, h.stored))
    else
      var written := Live(Merged(live[key := now], h.stored), now);
      if r != Failed then Tried(r == Went, Held(written, written))
      else
        var undone := Live(Merged(written, written) - {key}, now);
        Tried(false, Held(undone, undone))
  }

  /** A session with a device set aside: once an hour. */
  function ResetSession(h: Held, key: Key, now: int, wanted: bool): Tried {
    var loaded := Loaded(h);
    var may := key !in loaded || !Within(now, loaded[key]);
    if !may || !wanted then Tried(false, Held(loaded, h.stored))
    else
      var written := Live(Merged(loaded[key := now], h.stored), now);
      Tried(true, Held(written, written))
  }

  /** The keys of a device, each noted as asked for now. */
  function NotedAll(m: Limits, who: string, keys: seq<string>, now: int): Limits {
    if keys == [] then m else NotedAll(m, who, keys[..|keys| - 1], now)[(who, keys[|keys| - 1]) := now]
  }

  /** Which of the keys were not noted before, in `m` or earlier in the request. */
  function AnswersOf(m: Limits, who: string, keys: seq<string>, now: int): (answers: seq<bool>)
    ensures |answers| == |keys|
  {
    seq(|keys|, i requires 0 <= i < |keys| => (who, keys[i]) !in NotedAll(m, who, keys[..i], now))
  }

  datatype Answered = Answered(answers: seq<bool>, held: Held)

  /** Which of a device's keys may be answered: those neither noted within the hour nor asked for before in
      the request. Each is noted anew, answered or not; all are stored if any may be answered. */
  function AnswerRefresh(h: Held, who: string, keys: seq<string>, now: int): Answered {
    var live := Live(Loaded(h), now);
    var noted := NotedAll(live, who, keys, now);
    var answers := AnswersOf(live, who, keys, now);
    if true in answers then Answered(answers, Held(Live(noted, now), Live(noted, now)))
    else Answered(answers, Held(noted, h.stored))
  }

  // ----- the engine of one tab -----

  class LimitStore {
    var stored: Limits

    constructor ()
      ensures stored == map[]
    {
      stored := map[];
    }
  }

  class RepairEngine {
    const store: LimitStore
    var resent: Limits

    constructor (store: LimitStore)
      ensures this.store == store && resent == map[]
    {
      this.store := store;
      resent := map[];
    }

    function Value(): Held
      reads this, store
    {
      Held(resent, store.stored)
    }

    method LoadRepairLimits()
      modifies this
      ensures resent == Merged(old(resent), store.stored)
    {
      var rest := store.stored.Keys;
      while rest != {}
        invariant rest <= store.stored.Keys
        invariant forall k :: k in resent <==> k in old(resent) || (k in store.stored && k !in rest)
        invariant forall k :: k in resent ==>
          resent[k] == if k in store.stored && k !in rest then Merged(old(resent), store.stored)[k] else old(resent)[k]
        decreases rest
      {
        var k :| k in rest;
        var at := store.stored[k];
        resent := resent[k := if k in resent then Max(resent[k], at) else at];
        rest := rest - {k};
      }
      assert resent.Keys == Merged(old(resent), store.stored).Keys;
    }

    method WriteRepairLimits(now: int)
      modifies this, store
      ensures resent == Live(old(resent), now) && store.stored == resent
    {
      resent := Live(resent, now);
      store.stored := resent;
    }

    method SaveRepairLimits(now: int)
      modifies this, store
      ensures resent == Live(Loaded(old(Value())), now) && store.stored == resent
    {
      LoadRepairLimits();
      WriteRepairLimits(now);
    }

    /** A recovery's turn: when there is one, it is taken at once, here and in the store. */
    method MayTryRecovery(group: string, now: int) returns (may: bool)
      modifies this, store
      ensures Tried(may, Value()) == TryRecovery(old(Value()), group, now)
    {
      LoadRepairLimits();
      resent := Live(resent, now);
      var tried := |set k | k in resent && k.0 == RECOVERY_LIMIT|;
      var key := (RECOVERY_LIMIT, group);
      if tried >= MAX_RECOVERIES_PER_HOUR || key in resent {
        return false;
      }
      resent := resent[key := now];
      WriteRepairLimits(now);
      may := true;
    }

    /** One message a peer asks for again. */
    method ResendMessage(key: Key, now: int, r: Resend) returns (went: bool)
      modifies this, store
      ensures Tried(went, Value()) == ResendOne(old(Value()), key, now, r)
    {
      LoadRepairLimits();
      resent := Live(resent, now);
      if key in resent {
        return false;
      }
      resent := resent[key := now];
      SaveRepairLimits(now);
      if r == Failed {
        LoadRepairLimits();
        resent := resent - {key};
        WriteRepairLimits(now);
      }
      went := r == Went;
    }

    /** Which keys of a device's refresh may be answered now. */
    method MayAnswerGroupRefresh(who: string, keys: seq<string>, now: int) returns (answers: seq<bool>)
      modifies this, store
      ensures Answered(answers, Value()) == AnswerRefresh(old(Value()), who, keys, now)
    {
      LoadRepairLimits();
      resent := Live(resent, now);
      answers := NoteAll(who, keys, now);
      if true in answers {
        WriteRepairLimits(now);
      }
    }

    method NoteAll(who: string, keys: seq<string>, now: int) returns (answers: seq<bool>)
      modifies this
      ensures resent == NotedAll(old(resent), who, keys, now) && answers == AnswersOf(old(resent), who, keys, now)
    {
      ghost var before := resent;
      answers := [];
      for i := 0 to |keys|
        invariant resent == NotedAll(before, who, keys[..i], now) && |answers| == i
        invariant forall k :: 0 <= k < i ==> answers[k] == AnswersOf(before, who, keys, now)[k]
      {
        assert keys[..i + 1][..i] == keys[..i];
        answers := answers + [(who, keys[i]) !in resent];
        resent := resent[(who, keys[i]) := now];
      }
      assert keys[..|keys|] == keys;
    }

    method ResetSessionWith(key: Key, now: int, wanted: bool) returns (reset: bool)
      modifies this, store
      ensures Tried(reset, Value()) == ResetSession(old(Value()), key, now, wanted)
    {
      LoadRepairLimits();
      reset := (key !in resent || !Within(now, resent[key])) && wanted;
      if reset {
        resent := resent[key := now];
        SaveRepairLimits(now);
      }
    }
  }

  // ----- merging -----

  /** Merging keeps of every key the latest moment either side has, whichever is merged into which, and
      however often. */
  lemma {:induction false} MergeIsLatest(a: Limits, b: Limits, c: Limits)
    ensures Merged(a, b) == Merged(b, a) && Merged(a, a) == a && Merged(Merged(a, b), c) == Merged(a, Merged(b, c))
    ensures forall k :: k in Merged(a, b) ==>
      || (k in a && Merged(a, b)[k] == a[k])
      || (k in b && Merged(a, b)[k] == b[k])
    ensures forall k :: k in a ==> k in Merged(a, b) && Merged(a, b)[k] >= a[k]
  {
    assert Merged(a, b).Keys == Merged(b, a).Keys;
    assert Merged(a, a).Keys == a.Keys;
    MergesInAnyOrder(a, b, c);
  }

  lemma {:induction false} MergesInAnyOrder(a: Limits, b: Limits, c: Limits)
    ensures Merged(Merged(a, b), c) == Merged(a, Merged(b, c))
  {
    var (left, right) := (Merged(Merged(a, b), c), Merged(a, Merged(b, c)));
    assert left.Keys == right.Keys;
    forall k | k in left ensures left[k] == right[k] {
    }
  }

  // ----- several tabs, reloads, one store -----

  datatype Repair =
    | Recovery(group: string)
    | ResendOf(key: Key, r: Resend)
    | Reset(key: Key, wanted: bool)
    | Refresh(who: string, keys: seq<string>)
    | Reload

  /** A repair one tab makes, taking its turn. */
  datatype Event = Event(tab: nat, at: int, repair: Repair)

  datatype World = World(tabs: seq<Limits>, stored: Limits)

  predicate Enabled(w: World, e: Event) {
    && e.tab < |w.tabs|
    && (e.repair.ResendOf? || e.repair.Reset? ==> e.repair.key.0 != RECOVERY_LIMIT)
    && (e.repair.Refresh? ==> e.repair.who != RECOVERY_LIMIT)
  }

  /** The keys a repair was made for, and the limits after it. */
  datatype Done = Done(keys: set<Key>, held: Held)

  function DoneFor(t: Tried, key: Key): Done {
    Done(if t.ok then {key} else {}, t.held)
  }

  function AnsweredKeys(who: string, keys: seq<string>, answers: seq<bool>): set<Key>
    requires |answers| == |keys|
  {
    set i | 0 <= i < |keys| && answers[i] :: (who, keys[i])
  }

  function Do(w: World, e: Event): Done
    requires Enabled(w, e)
  {
    var h := Held(w.tabs[e.tab], w.stored);
    match e.repair
    case Recovery(group) => DoneFor(TryRecovery(h, group, e.at), KeyOf(group))
    case ResendOf(key, r) => DoneFor(ResendOne(h, key, e.at, r), key)
    case Reset(key, wanted) => DoneFor(ResetSession(h, key, e.at, wanted), key)
    case Refresh(who, keys) =>
      var a := AnswerRefresh(h, who, keys, e.at);
      Done(AnsweredKeys(who, keys, a.answers), a.held)
    case Reload => Done({}, Held(map[], w.stored))
  }

  function Next(w: World, e: Event): World
    requires Enabled(w, e)
  {
    var h := Do(w, e).held;
    World(w.tabs[e.tab := h.mine], h.stored)
  }

  ghost predicate Run(ws: seq<World>, es: seq<Event>) {
    && |ws| == |es| + 1
    && (forall k :: 0 <= k < |es| ==> StepAt(ws, es, k))
    && (forall j, k :: 0 <= j < k < |es| ==> es[j].at <= es[k].at)
    && (forall k :: 0 <= k < |es| ==> 0 <= es[k].at <= I64_MAX)
  }

  predicate StepAt(ws: seq<World>, es: seq<Event>, k: nat)
    requires |ws| == |es| + 1 && k < |es|
  {
    Enabled(ws[k], es[k]) && ws[k + 1] == Next(ws[k], es[k])
  }

  predicate Did(w: World, e: Event, key: Key) {
    Enabled(w, e) && key in Do(w, e).keys
  }

  /** A repair made at `at` still counts: the store has it, unless the hour is over. */
  predicate Recorded(w: World, key: Key, at: int, now: int) {
    now - at < HOUR_MS ==> key in w.stored && w.stored[key] >= at
  }

  lemma {:induction false} DoneIsRecorded(w: World, e: Event, key: Key)
    requires Did(w, e, key) && 0 <= e.at <= I64_MAX
    ensures Recorded(Next(w, e), key, e.at, e.at)
  {
    if e.repair.Refresh? {
      NotedAllIs(Live(Loaded(Held(w.tabs[e.tab], w.stored)), e.at), e.repair.who, e.repair.keys, e.at);
    }
  }

  lemma {:induction false} NotedAllIs(m: Limits, who: string, keys: seq<string>, now: int)
    ensures var noted := NotedAll(m, who, keys, now);
            && (forall k :: k in noted <==> k in m || (k.0 == who && k.1 in keys))
            && (forall k :: k in noted ==> noted[k] == if k.0 == who && k.1 in keys then now else m[k])
  {
    if keys != [] {
      NotedAllIs(m, who, keys[..|keys| - 1], now);
      assert keys == keys[..|keys| - 1] + [keys[|keys| - 1]];
    }
  }

  lemma {:induction false} StaysRecorded(w: World, e: Event, key: Key, at: int, before: int)
    requires Enabled(w, e) && 0 <= at <= before <= e.at <= I64_MAX && Recorded(w, key, at, before)
    ensures Recorded(Next(w, e), key, at, e.at)
  {
    if e.at - at < HOUR_MS {
      match e.repair {
        case Recovery(group) => RecoveryLeaves(Held(w.tabs[e.tab], w.stored), group, e.at, key, at);
        case ResendOf(k, r) => ResendLeaves(Held(w.tabs[e.tab], w.stored), k, e.at, r, key, at);
        case Reset(k, wanted) => ResetLeaves(Held(w.tabs[e.tab], w.stored), k, e.at, wanted, key, at);
        case Refresh(who, keys) => RefreshLeaves(Held(w.tabs[e.tab], w.stored), who, keys, e.at, key, at);
        case Reload =>
      }
    }
  }

  predicate Has(m: Limits, key: Key, at: int) {
    key in m && m[key] >= at
  }

  lemma {:induction false} LiveHas(h: Held, now: int, key: Key, at: int)
    requires Has(h.stored, key, at) && 0 <= at <= now <= I64_MAX && now - at < HOUR_MS
    ensures Has(Loaded(h), key, at) && Has(Live(Loaded(h), now), key, at)
  {
  }

  lemma {:induction false} RecoveryLeaves(h: Held, group: string, now: int, key: Key, at: int)
    requires Has(h.stored, key, at) && 0 <= at <= now <= I64_MAX && now - at < HOUR_MS
    ensures Has(TryRecovery(h, group, now).held.stored, key, at)
  {
    LiveHas(h, now, key, at);
  }

  lemma {:induction false} ResendLeaves(h: Held, k: Key, now: int, r: Resend, key: Key, at: int)
    requires Has(h.stored, key, at) && 0 <= at <= now <= I64_MAX && now - at < HOUR_MS
    ensures Has(ResendOne(h, k, now, r).held.stored, key, at)
  {
    LiveHas(h, now, key, at);
  }

  lemma {:induction false} ResetLeaves(h: Held, k: Key, now: int, wanted: bool, key: Key, at: int)
    requires Has(h.stored, key, at) && 0 <= at <= now <= I64_MAX && now - at < HOUR_MS
    ensures Has(ResetSession(h, k, now, wanted).held.stored, key, at)
  {
    LiveHas(h, now, key, at);
  }

  lemma {:induction false} RefreshLeaves(h: Held, who: string, keys: seq<string>, now: int, key: Key, at: int)
    requires Has(h.stored, key, at) && 0 <= at <= now <= I64_MAX && now - at < HOUR_MS
    ensures Has(AnswerRefresh(h, who, keys, now).held.stored, key, at)
  {
    LiveHas(h, now, key, at);
    NotedAllIs(Live(Loaded(h), now), who, keys, now);
  }

  lemma {:induction false} RecordedUntil(ws: seq<World>, es: seq<Event>, j: nat, k: nat, key: Key)
    requires Run(ws, es) && j < k <= |es| && Did(ws[j], es[j], key)
    ensures Recorded(ws[k], key, es[j].at, es[k - 1].at)
  {
    if k == j + 1 {
      assert StepAt(ws, es, j);
      DoneIsRecorded(ws[j], es[j], key);
    } else {
      RecordedUntil(ws, es, j, k - 1, key);
      StepStaysRecorded(ws, es, k - 1, key, es[j].at);
    }
  }

  lemma {:induction false} StepStaysRecorded(ws: seq<World>, es: seq<Event>, k: nat, key: Key, at: int)
    requires Run(ws, es) && 0 < k < |es| && 0 <= at <= es[k - 1].at && Recorded(ws[k], key, at, es[k - 1].at)
    ensures Recorded(ws[k + 1], key, at, es[k].at)
  {
    assert StepAt(ws, es, k);
    StaysRecorded(ws[k], es[k], key, at, es[k - 1].at);
  }

  lemma {:induction false} RecordedStops(w: World, e: Event, key: Key, at: int)
    requires Enabled(w, e) && 0 <= at <= e.at <= I64_MAX && e.at - at < HOUR_MS && Has(w.stored, key, at)
    ensures !Did(w, e, key)
  {
    var h := Held(w.tabs[e.tab], w.stored);
    LiveHas(h, e.at, key, at);
    if e.repair.Refresh? {
      RefreshExactly(h, e.repair.who, e.repair.keys, e.at);
    }
  }

  /** However tabs take turns and reload, two repairs for one key, recoveries of a group, resends of a
      message to a peer that went, resets of a session, answers to a device's refresh, are at least an hour
      apart. */
  lemma {:induction false} OnceAnHour(ws: seq<World>, es: seq<Event>, j: nat, k: nat, key: Key)
    requires Run(ws, es) && j < k < |es| && Did(ws[j], es[j], key) && Did(ws[k], es[k], key)
    ensures es[k].at - es[j].at >= HOUR_MS
  {
    RecordedUntil(ws, es, j, k, key);
    assert StepAt(ws, es, k);
    if es[k].at - es[j].at < HOUR_MS {
      RecordedStops(ws[k], es[k], key, es[j].at);
    }
  }

  /** A recovery tried, of a group at a moment. */
  datatype Try = Try(key: Key, at: int)

  function TryAt(w: World, e: Event): Option<Try> {
    if e.repair.Recovery? && Did(w, e, KeyOf(e.repair.group)) then Some(Try(KeyOf(e.repair.group), e.at)) else None
  }

  function TriesOf(ws: seq<World>, es: seq<Event>): (tries: seq<Option<Try>>)
    requires |ws| == |es| + 1
    ensures |tries| == |es|
  {
    seq(|es|, k requires 0 <= k < |es| => TryAt(ws[k], es[k]))
  }

  function CountTries(tries: seq<Option<Try>>): nat {
    if tries == [] then 0 else CountTries(tries[..|tries| - 1]) + if tries[|tries| - 1].Some? then 1 else 0
  }

  function KeysOf(tries: seq<Option<Try>>): set<Key> {
    set t | t in tries && t.Some? :: t.value.key
  }

  ghost predicate AllDifferent(tries: seq<Option<Try>>) {
    forall j, k :: 0 <= j < k < |tries| && tries[j].Some? && tries[k].Some? ==> tries[j].value.key != tries[k].value.key
  }

  lemma {:induction false} DifferentTriesCount(tries: seq<Option<Try>>)
    requires AllDifferent(tries)
    ensures |KeysOf(tries)| == CountTries(tries)
  {
    if tries != [] {
      var n := |tries| - 1;
      DifferentTriesCount(tries[..n]);
      assert tries == tries[..n] + [tries[n]];
      if tries[n].Some? {
        assert KeysOf(tries) == KeysOf(tries[..n]) + {tries[n].value.key};
        assert tries[n].value.key !in KeysOf(tries[..n]);
      } else {
        assert KeysOf(tries) == KeysOf(tries[..n]);
      }
    }
  }

  lemma {:induction false} Smaller(a: set<Key>, b: set<Key>)
    requires a <= b
    ensures |a| <= |b|
  {
    assert b == a + (b - a);
  }

  /** A history of tries at the moments `ats`, of which no two of one key are close, each made with room:
      `live` has the keys that count at each moment. */
  datatype History = History(tries: seq<Option<Try>>, ats: seq<int>, live: seq<set<Key>>)

  predicate Close(h: History, i: nat, k: nat)
    requires i < |h.ats| && k < |h.ats|
  {
    h.ats[k] - h.ats[i] < HOUR_MS
  }

  ghost predicate Limited(h: History) {
    && |h.tries| == |h.ats| == |h.live|
    && (forall i, k :: 0 <= i < k < |h.ats| ==> h.ats[i] <= h.ats[k])
    && (forall i, k :: 0 <= i < k < |h.ats| && Close(h, i, k) && h.tries[i].Some? ==>
          (h.tries[k].Some? ==> h.tries[i].value.key != h.tries[k].value.key && h.tries[i].value.key in h.live[k]))
    && (forall k :: 0 <= k < |h.ats| && h.tries[k].Some? ==> |h.live[k]| < MAX_RECOVERIES_PER_HOUR)
  }

  lemma {:induction false} CloseTriesDiffer(h: History, j: nat, k: nat)
    requires Limited(h) && j < k <= |h.ats| && Close(h, j, k - 1)
    ensures AllDifferent(h.tries[j..k])
  {
    var tries := h.tries[j..k];
    forall m, n | 0 <= m < n < |tries| && tries[m].Some? && tries[n].Some? ensures tries[m].value.key != tries[n].value.key {
      assert Close(h, j + m, j + n);
    }
  }

  lemma {:induction false} CloseTriesLive(h: History, j: nat, n: nat)
    requires Limited(h) && j < n < |h.ats| && Close(h, j, n) && h.tries[n].Some?
    ensures KeysOf(h.tries[j..n]) <= h.live[n]
  {
    forall key | key in KeysOf(h.tries[j..n]) ensures key in h.live[n] {
      var m :| 0 <= m < n - j && h.tries[j..n][m].Some? && h.tries[j..n][m].value.key == key;
      assert Close(h, j + m, n);
    }
  }

  lemma {:induction false} TenWhenLimited(h: History, j: nat, k: nat)
    requires Limited(h) && j < k <= |h.ats| && Close(h, j, k - 1)
    ensures CountTries(h.tries[j..k]) <= MAX_RECOVERIES_PER_HOUR
    decreases k
  {
    var n := k - 1;
    assert h.tries[j..k][..n - j] == h.tries[j..n];
    if n > j {
      assert Close(h, j, n - 1);
      TenWhenLimited(h, j, n);
      if h.tries[n].Some? {
        CloseTriesDiffer(h, j, n);
        DifferentTriesCount(h.tries[j..n]);
        CloseTriesLive(h, j, n);
        Smaller(KeysOf(h.tries[j..n]), h.live[n]);
      }
    } else {
      assert h.tries[j..n] == [];
    }
  }

  /** What counts at a recovery, as the tab that tries it reads it. */
  function LiveAt(w: World, e: Event): set<Key> {
    if Enabled(w, e) then Recoveries(Live(Loaded(Held(w.tabs[e.tab], w.stored)), e.at)) else {}
  }

  function HistoryOf(ws: seq<World>, es: seq<Event>): History
    requires |ws| == |es| + 1
  {
    History(TriesOf(ws, es), seq(|es|, k requires 0 <= k < |es| => es[k].at),
            seq(|es|, k requires 0 <= k < |es| => LiveAt(ws[k], es[k])))
  }

  lemma {:induction false} RoomWhenTried(w: World, e: Event)
    requires TryAt(w, e).Some?
    ensures Enabled(w, e) && |LiveAt(w, e)| < MAX_RECOVERIES_PER_HOUR
  {
  }

  lemma {:induction false} TryIsLive(ws: seq<World>, es: seq<Event>, i: nat, k: nat)
    requires Run(ws, es) && i < k < |es| && es[k].at - es[i].at < HOUR_MS && Enabled(ws[k], es[k])
    requires TryAt(ws[i], es[i]).Some?
    ensures TryAt(ws[i], es[i]).value.key in LiveAt(ws[k], es[k])
  {
    var key := TryAt(ws[i], es[i]).value.key;
    RecordedUntil(ws, es, i, k, key);
    assert es[k - 1].at <= es[k].at;
    StillLive(ws[k], es[k], key, es[i].at);
  }

  lemma {:induction false} StillLive(w: World, e: Event, key: Key, at: int)
    requires Enabled(w, e) && key in w.stored && w.stored[key] >= at && key.0 == RECOVERY_LIMIT
    requires 0 <= at <= e.at <= I64_MAX && e.at - at < HOUR_MS
    ensures key in LiveAt(w, e)
  {
    var loaded := Loaded(Held(w.tabs[e.tab], w.stored));
    assert key in loaded && loaded[key] >= at;
  }

  lemma {:induction false} RunIsLimited(ws: seq<World>, es: seq<Event>)
    requires Run(ws, es)
    ensures Limited(HistoryOf(ws, es))
  {
    var h := HistoryOf(ws, es);
    forall k | 0 <= k < |es| && h.tries[k].Some? ensures |h.live[k]| < MAX_RECOVERIES_PER_HOUR {
      RoomWhenTried(ws[k], es[k]);
    }
    forall i, k | 0 <= i < k < |es| && Close(h, i, k) && h.tries[i].Some? && h.tries[k].Some?
      ensures h.tries[i].value.key != h.tries[k].value.key && h.tries[i].value.key in h.live[k]
    {
      CloseIsLimited(ws, es, i, k);
    }
  }

  lemma {:induction false} CloseIsLimited(ws: seq<World>, es: seq<Event>, i: nat, k: nat)
    requires Run(ws, es) && i < k < |es| && es[k].at - es[i].at < HOUR_MS
    requires TryAt(ws[i], es[i]).Some? && TryAt(ws[k], es[k]).Some?
    ensures TryAt(ws[i], es[i]).value.key != TryAt(ws[k], es[k]).value.key && TryAt(ws[i], es[i]).value.key in LiveAt(ws[k], es[k])
  {
    if TryAt(ws[i], es[i]).value.key == TryAt(ws[k], es[k]).value.key {
      OnceAnHour(ws, es, i, k, TryAt(ws[i], es[i]).value.key);
    }
    RoomWhenTried(ws[k], es[k]);
    TryIsLive(ws, es, i, k);
  }

  /** In no stretch of under an hour are more than ten recoveries tried, by all tabs together. */
  lemma {:induction false} TenRecoveriesAnHour(ws: seq<World>, es: seq<Event>, j: nat, k: nat)
    requires Run(ws, es) && j < k <= |es| && es[k - 1].at - es[j].at < HOUR_MS
    ensures CountTries(TriesOf(ws, es)[j..k]) <= MAX_RECOVERIES_PER_HOUR
  {
    RunIsLimited(ws, es);
    TenWhenLimited(HistoryOf(ws, es), j, k);
  }

  // ----- a group's refreshes -----

  /** The key was noted within the hour, in this tab or in the store. */
  predicate NotedLately(h: Held, key: Key, now: int) {
    || (key in h.mine && Within(now, h.mine[key]))
    || (key in h.stored && Within(now, h.stored[key]))
  }

  /** Exactly which keys of a request are answered: those not noted within the hour, once each. Asking is
      enough to be noted: whatever is answered, every key of the request counts from now on. */
  lemma {:induction false} RefreshExactly(h: Held, who: string, keys: seq<string>, now: int)
    ensures var a := AnswerRefresh(h, who, keys, now);
            && |a.answers| == |keys|
            && (forall i :: 0 <= i < |keys| ==> (a.answers[i] <==> !NotedLately(h, (who, keys[i]), now) && keys[i] !in keys[..i]))
            && (0 <= now <= I64_MAX ==> forall i :: 0 <= i < |keys| ==> (who, keys[i]) in a.held.mine && a.held.mine[(who, keys[i])] == now)
  {
    var live := Live(Loaded(h), now);
    NotedAllIs(live, who, keys, now);
    forall i | 0 <= i < |keys|
      ensures AnswerRefresh(h, who, keys, now).answers[i] <==> !NotedLately(h, (who, keys[i]), now) && keys[i] !in keys[..i]
    {
      NotedAllIs(live, who, keys[..i], now);
      LiveExactly(h, (who, keys[i]), now);
    }
  }

  lemma {:induction false} LiveExactly(h: Held, key: Key, now: int)
    ensures key in Live(Loaded(h), now) <==> NotedLately(h, key, now)
  {
  }

  predicate Asks(e: Event, tab: nat, key: Key) {
    e.tab == tab && e.repair.Refresh? && e.repair.who == key.0 && key.1 in e.repair.keys
  }

  /** The tab has a key noted at `at`, unless the hour is over. */
  predicate NotedIn(w: World, tab: nat, key: Key, at: int, now: int) {
    tab < |w.tabs| && (now - at < HOUR_MS ==> Has(w.tabs[tab], key, at))
  }

  lemma {:induction false} StaysNoted(w: World, e: Event, tab: nat, key: Key, at: int, before: int)
    requires Enabled(w, e) && 0 <= at <= before <= e.at <= I64_MAX && NotedIn(w, tab, key, at, before)
    requires !(e.tab == tab && e.repair.Reload?)
    ensures NotedIn(Next(w, e), tab, key, at, e.at)
  {
    if e.at - at < HOUR_MS && e.tab == tab {
      var h := Held(w.tabs[tab], w.stored);
      match e.repair {
        case Recovery(group) => MineHas(h, e.at, key, at);
        case ResendOf(k, r) => ResendKeeps(h, k, e.at, r, key, at);
        case Reset(k, wanted) => MineHas(h, e.at, key, at);
        case Refresh(who, keys) =>
          MineHas(h, e.at, key, at);
          NotedAllIs(Live(Loaded(h), e.at), who, keys, e.at);
        case Reload =>
      }
    }
  }

  lemma {:induction false} MineHas(h: Held, now: int, key: Key, at: int)
    requires Has(h.mine, key, at) && 0 <= at <= now <= I64_MAX && now - at < HOUR_MS
    ensures Has(Loaded(h), key, at) && Has(Live(Loaded(h), now), key, at)
  {
  }

  lemma {:induction false} ResendKeeps(h: Held, k: Key, now: int, r: Resend, key: Key, at: int)
    requires Has(h.mine, key, at) && 0 <= at <= now <= I64_MAX && now - at < HOUR_MS
    ensures Has(ResendOne(h, k, now, r).held.mine, key, at)
  {
    MineHas(h, now, key, at);
  }

  lemma {:induction false} NotedUntil(ws: seq<World>, es: seq<Event>, j: nat, k: nat, key: Key)
    requires Run(ws, es) && j < k <= |es| && Asks(es[j], es[j].tab, key)
    requires forall i :: j < i < k ==> !(es[i].tab == es[j].tab && es[i].repair.Reload?)
    ensures NotedIn(ws[k], es[j].tab, key, es[j].at, es[k - 1].at)
  {
    assert StepAt(ws, es, k - 1);
    if k == j + 1 {
      RefreshExactly(Held(ws[j].tabs[es[j].tab], ws[j].stored), es[j].repair.who, es[j].repair.keys, es[j].at);
    } else {
      NotedUntil(ws, es, j, k - 1, key);
      StaysNoted(ws[k - 1], es[k - 1], es[j].tab, key, es[j].at, es[k - 2].at);
    }
  }

  /** So a device that asks again within the hour is not answered, though its last answer be hours ago:
      over any run, whatever else happens, a key asked for is not answered by that tab within the hour, if
      it was not reloaded meanwhile. */
  lemma {:induction false} AskingPutsOff(ws: seq<World>, es: seq<Event>, j: nat, k: nat, key: Key)
    requires Run(ws, es) && j < k < |es| && Asks(es[j], es[k].tab, key) && Asks(es[k], es[k].tab, key)
    requires forall i :: j < i < k ==> !(es[i].tab == es[k].tab && es[i].repair.Reload?)
    requires es[k].at - es[j].at < HOUR_MS
    ensures !Did(ws[k], es[k], key)
  {
    NotedUntil(ws, es, j, k, key);
    assert StepAt(ws, es, k) && es[k - 1].at <= es[k].at;
    RefreshExactly(Held(ws[k].tabs[es[k].tab], ws[k].stored), es[k].repair.who, es[k].repair.keys, es[k].at);
  }

  /** A device that keeps asking, each time within the hour, is never answered again. */
  lemma {:induction false} NeverAnsweredAgain(ws: seq<World>, es: seq<Event>, asks: seq<nat>, tab: nat, key: Key)
    requires Run(ws, es) && (forall m :: 0 <= m < |asks| ==> asks[m] < |es| && Asks(es[asks[m]], tab, key))
    requires forall m :: 0 < m < |asks| ==> asks[m - 1] < asks[m] && es[asks[m]].at - es[asks[m - 1]].at < HOUR_MS
    requires forall i :: 0 <= i < |es| ==> !(es[i].tab == tab && es[i].repair.Reload?)
    ensures forall m :: 0 < m < |asks| ==> !Did(ws[asks[m]], es[asks[m]], key)
  {
    forall m | 0 < m < |asks| ensures !Did(ws[asks[m]], es[asks[m]], key) {
      AskingPutsOff(ws, es, asks[m - 1], asks[m], key);
    }
  }

  /** A device refused a hundred minutes after the only answer it had. */
  lemma {:induction false} AskingAgainPutsItOff(who: string, key: string) returns (one: Answered, two: Answered, three: Answered)
    ensures var minute := 60_000;
            && one == AnswerRefresh(Held(map[], map[]), who, [key], 0) && one.answers == [true]
            && two == AnswerRefresh(one.held, who, [key], 50 * minute) && two.answers == [false]
            && three == AnswerRefresh(two.held, who, [key], 100 * minute) && three.answers == [false]
  {
    one := AnswerRefresh(Held(map[], map[]), who, [key], 0);
    RefreshExactly(Held(map[], map[]), who, [key], 0);
    two := AnswerRefresh(one.held, who, [key], 50 * 60_000);
    RefreshExactly(one.held, who, [key], 50 * 60_000);
    three := AnswerRefresh(two.held, who, [key], 100 * 60_000);
    RefreshExactly(two.held, who, [key], 100 * 60_000);
  }
}
