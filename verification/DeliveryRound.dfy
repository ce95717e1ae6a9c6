/** One round of a group message's delivery, over the legs of an entry in place. */
module DeliveryRound {
  import opened Common
  import opened LegStates

  ghost predicate Ascending(s: seq<nat>) {
    forall j, k :: 0 <= j < k < |s| ==> s[j] < s[k]
  }

  ghost predicate Distinct(s: seq<nat>) {
    forall j, k :: 0 <= j < k < |s| ==> s[j] != s[k]
  }

  function SetOf(s: seq<nat>): (all: set<nat>)
    ensures forall i :: i in all <==> i in s
  {
    set i | i in s
  }

  /** The legs a round's first part has sorted by what comes next for them, and what it learned. */
  datatype Lists = Lists(again: seq<nat>, pairwise: seq<nat>, movedOn: seq<nat>, notReached: seq<nat>, news: seq<News>)

  function Put(l: Lists, i: nat, place: Place, news: Option<News>): Lists {
    var l' := if news.Some? then l.(news := l.news + [news.value]) else l;
    match place
    case Rests => l'
    case Again => l'.(again := l.again + [i])
    case ToPairwise => l'.(pairwise := l.pairwise + [i])
    case MovedOn => l'.(movedOn := l.movedOn + [i])
    case NotReached => l'.(notReached := l.notReached + [i])
  }

  /** What the first part of a multi-recipient round works from. */
  datatype Start = Start(r: Round, multi: set<nat>, was: seq<Leg>, now: int)

  ghost function StopOf(b: Start, i: nat): Stop
    requires i < |b.was|
  {
    FirstStop(b.r, b.multi, b.was[i], i, b.now)
  }

  ghost predicate Listed(b: Start, done: set<nat>, list: seq<nat>, place: Place) {
    Distinct(list) && forall i :: i in list <==> i in done && i < |b.was| && StopOf(b, i).place == place
  }

  ghost predicate Told(b: Start, done: set<nat>, news: seq<News>) {
    forall n :: n in news <==> exists i :: i in done && i < |b.was| && StopOf(b, i).news == Some(n)
  }

  ghost predicate LegsPlaced(b: Start, done: set<nat>, legs: seq<Leg>) {
    |legs| == |b.was| && forall i :: 0 <= i < |b.was| ==> legs[i] == if i in done then StopOf(b, i).leg else b.was[i]
  }

  /** The first part is through for the legs `done`, and for no others. */
  ghost predicate Placed(b: Start, done: set<nat>, legs: seq<Leg>, l: Lists) {
    && LegsPlaced(b, done, legs)
    && Listed(b, done, l.again, Again)
    && Listed(b, done, l.pairwise, ToPairwise)
    && Listed(b, done, l.movedOn, MovedOn)
    && Listed(b, done, l.notReached, NotReached)
    && Told(b, done, l.news)
  }

  // ----- grouping legs -----

  type Groups<!K> = map<K, seq<nat>>

  function AddTo<K>(groups: Groups<K>, key: K, i: nat): Groups<K> {
    groups[key := (if key in groups then groups[key] else []) + [i]]
  }

  /** `groups` has each of `among` with a key under that key, once. */
  ghost predicate Grouped<K>(groups: Groups<K>, among: set<nat>, key: nat -> Option<K>) {
    && (forall k :: k in groups ==> Distinct(groups[k]))
    && (forall k, i :: k in groups && i in groups[k] ==> i in among && key(i) == Some(k))
    && (forall i :: i in among && key(i).Some? ==> key(i).value in groups && i in groups[key(i).value])
  }

  lemma {:induction false} GroupedMore<K>(groups: Groups<K>, among: set<nat>, key: nat -> Option<K>, i: nat)
    requires Grouped(groups, among, key) && i !in among
    ensures Grouped(if key(i).Some? then AddTo(groups, key(i).value, i) else groups, among + {i}, key)
  {
    if key(i).Some? {
      var k := key(i).value;
      var groups' := AddTo(groups, k, i);
      assert forall m, j :: m in groups && j in groups[m] ==> m in groups' && j in groups'[m];
      assert groups'[k][|groups'[k]| - 1] == i;
    }
  }

  function ExpirationOf(r: Round): nat -> Option<nat> {
    i => if RequestOf(r, i).Some? then Some(RequestOf(r, i).value.1) else None
  }

  /** Of `places`, those that go with no request. */
  function Stopped(r: Round, places: seq<nat>): set<nat> {
    set i | i in places && RequestOf(r, i).None?
  }

  /** Of `places`, those through when the expirations `rest` still wait. */
  function Through(r: Round, places: seq<nat>, done: set<nat>, rest: set<nat>): set<nat> {
    done + set i | i in places && (RequestOf(r, i).None? || RequestOf(r, i).value.1 !in rest)
  }

  lemma {:induction false} ThroughMore(r: Round, places: seq<nat>, done: set<nat>, rest: set<nat>, e: nat, going: seq<nat>)
    requires e in rest && SetOf(places) !! done
    requires forall i :: i in going <==> i in places && ExpirationOf(r)(i) == Some(e)
    ensures SetOf(going) !! Through(r, places, done, rest)
    ensures Through(r, places, done, rest) + SetOf(going) == Through(r, places, done, rest - {e})
  {
  }

  /** The legs of one server and expiration are those of one request. */
  lemma {:induction false} GroupIsRequest(b: Start, server: string, places: seq<nat>, groups: Groups<nat>, e: nat)
    requires forall i :: i in b.multi ==> i < |b.was|
    requires forall i :: i in places <==> i in b.multi && b.r.server(i) == Some(server)
    requires Grouped(groups, SetOf(places), ExpirationOf(b.r)) && e in groups
    ensures Distinct(groups[e])
    ensures forall i :: i in groups[e] <==> i in places && ExpirationOf(b.r)(i) == Some(e)
    ensures forall i :: i in groups[e] <==> i in b.multi && i < |b.was| && RequestOf(b.r, i) == Some((server, e))
  {
  }

  function WithoutServer(r: Round, multi: seq<nat>): set<nat> {
    set i | i in multi && r.server(i).None?
  }

  function ThroughServers(r: Round, multi: seq<nat>, rest: set<string>): set<nat> {
    set i | i in multi && (r.server(i).None? || r.server(i).value !in rest)
  }

  lemma {:induction false} ThroughServersMore(r: Round, multi: seq<nat>, rest: set<string>, server: string, places: seq<nat>)
    requires server in rest
    requires forall i :: i in places <==> i in multi && r.server(i) == Some(server)
    ensures SetOf(places) !! ThroughServers(r, multi, rest)
    ensures ThroughServers(r, multi, rest) + SetOf(places) == ThroughServers(r, multi, rest - {server})
  {
  }

  lemma {:induction false} ListedMore(b: Start, done: set<nat>, list: seq<nat>, place: Place, i: nat)
    requires Listed(b, done, list, place) && i !in done && i < |b.was|
    ensures Listed(b, done + {i}, if StopOf(b, i).place == place then list + [i] else list, place)
  {
  }

  lemma {:induction false} ToldMore(b: Start, done: set<nat>, news: seq<News>, i: nat)
    requires Told(b, done, news) && i !in done && i < |b.was|
    ensures var note := StopOf(b, i).news; Told(b, done + {i}, if note.Some? then news + [note.value] else news)
  {
    var note := StopOf(b, i).news;
    var news' := if note.Some? then news + [note.value] else news;
    forall n ensures n in news' <==> exists j :: j in done + {i} && j < |b.was| && StopOf(b, j).news == Some(n) {
      if n in news {
        var j :| j in done && j < |b.was| && StopOf(b, j).news == Some(n);
        assert j in done + {i};
      } else if note == Some(n) {
        assert i in done + {i};
      }
    }
  }

  /** `answer` is what the leg's request was answered: nothing, when it did not seal. */
  ghost predicate IsFor(b: Start, i: nat, server: string, expiration: nat, answer: MultiAnswer, named: bool) {
    && RequestOf(b.r, i) == Some((server, expiration))
    && answer == (if b.r.seals(server, expiration) then b.r.answer(server, expiration) else NoAnswer)
    && (answer.Answered? ==> (named <==> NamesALeg(b.r, b.multi, (server, expiration), answer.response)))
  }

  lemma {:induction false} StopIs(b: Start, i: nat, server: string, expiration: nat, answer: MultiAnswer, named: bool)
    requires i < |b.was| && IsFor(b, i, server, expiration, answer, named)
    ensures StopOf(b, i) == AnswerStop(answer, b.r.accountId(i), named, expiration, Sealed(b.r, b.was[i], i), b.now)
  {
  }

  lemma {:induction false} PlacedMore(b: Start, done: set<nat>, legs: seq<Leg>, l: Lists, i: nat)
    requires Placed(b, done, legs, l) && i !in done && i < |b.was|
    ensures var s := StopOf(b, i); Placed(b, done + {i}, legs[i := s.leg], Put(l, i, s.place, s.news))
  {
    ListedMore(b, done, l.again, Again, i);
    ListedMore(b, done, l.pairwise, ToPairwise, i);
    ListedMore(b, done, l.movedOn, MovedOn, i);
    ListedMore(b, done, l.notReached, NotReached, i);
    ToldMore(b, done, l.news, i);
  }

  // ----- the second part -----

  ghost function TurnAfter(b: Start, i: nat): Turn
    requires i < |b.was|
  {
    LastTurn(b.r, StopOf(b, i), i, b.now)
  }

  ghost predicate Finished(b: Start, fin: set<nat>, legs: seq<Leg>, again: seq<nat>) {
    && |legs| == |b.was|
    && (forall i :: 0 <= i < |b.was| ==>
         legs[i] == if i !in b.multi then b.was[i] else if i in fin then TurnAfter(b, i).leg else StopOf(b, i).leg)
    && (forall i :: i in again <==> i in b.multi && i < |b.was| && (StopOf(b, i).place == Again || (i in fin && TurnAfter(b, i).again)))
  }

  lemma {:induction false} FinishedMore(b: Start, fin: set<nat>, legs: seq<Leg>, again: seq<nat>, i: nat)
    requires Finished(b, fin, legs, again) && i in b.multi && i < |b.was| && i !in fin && StopOf(b, i).place != Again
    ensures var t := TurnAfter(b, i); Finished(b, fin + {i}, legs[i := t.leg], if t.again then again + [i] else again)
  {
  }

  /** The turn of a leg as it is now, put at `place` before. */
  function Next(r: Round, leg: Leg, place: Place, i: nat, now: int): Turn {
    LastTurn(r, Stop(leg, place, None), i, now)
  }

  lemma {:induction false} NextIs(b: Start, i: nat, leg: Leg, place: Place)
    requires i < |b.was| && leg == StopOf(b, i).leg && place == StopOf(b, i).place
    ensures Next(b.r, leg, place, i, b.now).leg == TurnAfter(b, i).leg && Next(b.r, leg, place, i, b.now).again == TurnAfter(b, i).again
    ensures place.NotReached? || place.MovedOn? ==> b.r.bundles(i).Some?
  {
  }

  ghost predicate MultiRounded(r: Round, before: seq<Leg>, multi: set<nat>, now: int, after: seq<Leg>, again: seq<nat>, news: seq<News>) {
    && |after| == |before|
    && (forall i :: 0 <= i < |before| ==> after[i] == if i in multi then MultiTurn(r, multi, before[i], i, now).leg else before[i])
    && (forall i :: i in again <==> i in multi && i < |before| && MultiTurn(r, multi, before[i], i, now).again)
    && (forall n :: n in news <==> exists i :: i in multi && i < |before| && MultiTurn(r, multi, before[i], i, now).news == Some(n))
  }

  lemma {:induction false} FinishedAll(b: Start, fin: set<nat>, legs: seq<Leg>, again: seq<nat>, news: seq<News>)
    requires b.r.ready && Finished(b, fin, legs, again) && Told(b, b.multi, news)
    requires forall i :: i in b.multi && i < |b.was| && i !in fin ==> StopOf(b, i).place.Rests? || StopOf(b, i).place.Again?
    requires forall i :: i in fin ==> i < |b.was| && i in b.multi && !StopOf(b, i).place.Again?
    ensures MultiRounded(b.r, b.was, b.multi, b.now, legs, again, news)
  {
    forall i | i in b.multi && i < |b.was| ensures MultiTurn(b.r, b.multi, b.was[i], i, b.now) == TurnAfter(b, i) {
    }
    forall i | i in b.multi && i < |b.was| ensures TurnAfter(b, i).news == StopOf(b, i).news {
    }
  }

  /** `retry` distinct legs, none done and none waiting. */
  ghost predicate Ready(legs: seq<Leg>, retry: seq<nat>, now: int) {
    Distinct(retry) && AllCanGo(legs, SetOf(retry), now)
  }

  /** What the turns of a round tell. */
  ghost function NewsOf(r: Round, before: seq<Leg>, retry: set<nat>, now: int): set<News> {
    set i | i in retry && 0 <= i < |before| && TurnOf(r, before, retry, i, now).news.Some? :: TurnOf(r, before, retry, i, now).news.value
  }

  function Among(news: seq<News>): set<News> {
    set n | n in news
  }

  ghost predicate Tells(r: Round, before: seq<Leg>, retry: set<nat>, now: int, news: seq<News>) {
    Among(news) == NewsOf(r, before, retry, now)
  }

  ghost predicate ToldBy(r: Round, legs: seq<Leg>, done: set<nat>, now: int, news: seq<News>) {
    forall n :: n in news <==> exists i :: i in done && i < |legs| && PairwiseTurn(r, legs[i], i, now).news == Some(n)
  }

  ghost predicate PairwiseRounded(r: Round, before: seq<Leg>, places: set<nat>, now: int, after: seq<Leg>, again: seq<nat>, news: seq<News>) {
    && |after| == |before|
    && (forall i :: 0 <= i < |before| ==> after[i] == if i in places then PairwiseTurn(r, before[i], i, now).leg else before[i])
    && (forall i :: i in again <==> i in places && i < |before| && PairwiseTurn(r, before[i], i, now).again)
    && ToldBy(r, before, places, now, news)
  }

  lemma {:induction false} ToldByMore(r: Round, legs: seq<Leg>, done: set<nat>, now: int, news: seq<News>, i: nat)
    requires ToldBy(r, legs, done, now, news) && i < |legs|
    ensures var note := PairwiseTurn(r, legs[i], i, now).news;
            ToldBy(r, legs, done + {i}, now, if note.Some? then news + [note.value] else news)
  {
    var note := PairwiseTurn(r, legs[i], i, now).news;
    var news' := if note.Some? then news + [note.value] else news;
    forall n ensures n in news' <==> exists j :: j in done + {i} && j < |legs| && PairwiseTurn(r, legs[j], j, now).news == Some(n) {
      if n in news {
        var j :| j in done && j < |legs| && PairwiseTurn(r, legs[j], j, now).news == Some(n);
        assert j in done + {i};
      } else if note == Some(n) {
        assert i in done + {i};
      }
    }
  }

  /** Legs whose copies do not read back tell nothing. */
  lemma {:induction false} ToldByAll(r: Round, before: seq<Leg>, sent: seq<Leg>, places: set<nat>, going: set<nat>, now: int, news: seq<News>)
    requires |sent| == |before| && going <= places && ToldBy(r, sent, going, now, news)
    requires forall i :: i in going ==> i < |sent| && sent[i] == before[i]
    requires forall i :: i in places && i !in going ==> i < |sent| && before[i].copies.None?
    ensures ToldBy(r, before, places, now, news)
  {
    forall i | i in places && i !in going ensures PairwiseTurn(r, before[i], i, now).news == None {
    }
    forall n | n in news ensures exists i :: i in places && i < |before| && PairwiseTurn(r, before[i], i, now).news == Some(n) {
      var i :| i in going && i < |sent| && PairwiseTurn(r, sent[i], i, now).news == Some(n);
      assert i in places && before[i] == sent[i];
    }
  }

  /** A round is its legs of either route, each handled against the entry as it was. */
  lemma {:induction false} BothRounds(r: Round, before: seq<Leg>, mid: seq<Leg>, after: seq<Leg>, multi: set<nat>, ordinary: set<nat>, now: int,
                                      again: seq<nat>, more: seq<nat>, news: seq<News>, learned: seq<News>)
    requires MultiRounded(r, before, multi, now, mid, again, news)
    requires PairwiseRounded(r, mid, ordinary, now, after, more, learned)
    requires forall i :: i in multi ==> i < |before| && before[i].multi
    requires forall i :: i in ordinary ==> i < |before| && !before[i].multi
    ensures Rounded(r, before, multi + ordinary, now, after, SetOf(again + more))
    ensures Tells(r, before, multi + ordinary, now, news + learned)
  {
    var retry := multi + ordinary;
    assert MultiOf(before, retry) == multi;
    forall i | i in multi ensures TurnOf(r, before, retry, i, now) == MultiTurn(r, multi, before[i], i, now) {
    }
    forall i | i in ordinary ensures mid[i] == before[i] && TurnOf(r, before, retry, i, now) == PairwiseTurn(r, mid[i], i, now) {
    }
    BothTell(r, before, mid, multi, ordinary, now, news, learned);
  }

  lemma {:induction false} BothTell(r: Round, before: seq<Leg>, mid: seq<Leg>, multi: set<nat>, ordinary: set<nat>, now: int,
                                    news: seq<News>, learned: seq<News>)
    requires |mid| == |before| && ToldBy(r, mid, ordinary, now, learned)
    requires forall n :: n in news <==> exists i :: i in multi && i < |before| && MultiTurn(r, multi, before[i], i, now).news == Some(n)
    requires forall i :: i in multi ==> i < |before| && TurnOf(r, before, multi + ordinary, i, now) == MultiTurn(r, multi, before[i], i, now)
    requires forall i :: i in ordinary ==> i < |before| && TurnOf(r, before, multi + ordinary, i, now) == PairwiseTurn(r, mid[i], i, now)
    ensures Tells(r, before, multi + ordinary, now, news + learned)
  {
    var retry := multi + ordinary;
    forall n ensures n in news + learned <==> n in NewsOf(r, before, retry, now) {
      if n in news {
        var i :| i in multi && i < |before| && MultiTurn(r, multi, before[i], i, now).news == Some(n);
        assert i in retry && TurnOf(r, before, retry, i, now).news == Some(n);
      } else if n in learned {
        var i :| i in ordinary && i < |mid| && PairwiseTurn(r, mid[i], i, now).news == Some(n);
        assert i in retry && TurnOf(r, before, retry, i, now).news == Some(n);
      }
    }
  }

  method SortedOnce(n: nat, list: seq<nat>) returns (sorted: seq<nat>)
    requires forall i :: i in list ==> i < n
    ensures Ascending(sorted) && SetOf(sorted) == SetOf(list)
  {
    sorted := [];
    for i := 0 to n
      invariant Ascending(sorted) && forall k :: k in sorted <==> k in list && k < i
    {
      assert forall j :: 0 <= j < |sorted| ==> sorted[j] in sorted;
      if i in list {
        sorted := sorted + [i];
      }
    }
  }

  /** The legs of one group message still in the outbox, while a pass delivers them. */
  class Delivery {
    var legs: seq<Leg>

    constructor (legs: seq<Leg>)
      ensures this.legs == legs
    {
      this.legs := legs;
    }

    method Wait(i: nat, now: int)
      requires i < |legs|
      modifies this
      ensures legs == old(legs)[i := Waiting(old(legs)[i], now)]
    {
      var leg := legs[i];
      var wait := FIRST_WAIT_MS;
      var doublings := if leg.waits <= 16 then leg.waits else 16;
      var k := 0;
      while k < doublings
        invariant 0 <= k <= doublings && wait == Doubled(FIRST_WAIT_MS, k)
      {
        wait := 2 * wait;
        k := k + 1;
      }
      wait := Min(Saturate(wait), MAX_WAIT_MS);
      legs := legs[i := leg.(waits := Up(leg.waits), retryAt := Some(SaturatingAdd(now, wait)))];
    }

    /** One request's answer, applied to each leg it is for. */
    method SendMulti(server: string, expiration: nat, going: seq<nat>, l: Lists, r: Round, now: int, ghost b: Start, ghost done: set<nat>)
      returns (l': Lists)
      requires b.r == r && b.now == now && Placed(b, done, legs, l)
      requires Distinct(going) && SetOf(going) !! done
      requires forall i :: i in going <==> i in b.multi && i < |b.was| && RequestOf(b.r, i) == Some((server, expiration))
      requires forall i :: i in b.multi ==> i < |b.was|
      modifies this
      ensures Placed(b, done + SetOf(going), legs, l')
    {
      var answer := if r.seals(server, expiration) then r.answer(server, expiration) else NoAnswer;
      var named := false;
      if answer.Answered? {
        named := NamesAny(r, going, answer.response);
        assert named <==> NamesALeg(r, b.multi, (server, expiration), answer.response);
      }
      assert forall i :: i in going ==> i < |b.was| && i !in done && IsFor(b, i, server, expiration, answer, named);
      l' := TakeAnswers(going, answer, named, server, expiration, l, r, now, b, done);
    }

    method TakeAnswers(going: seq<nat>, answer: MultiAnswer, named: bool, server: string, expiration: nat, l: Lists,
                       r: Round, now: int, ghost b: Start, ghost done: set<nat>)
      returns (l': Lists)
      requires b.r == r && b.now == now && Placed(b, done, legs, l) && Distinct(going)
      requires forall i :: i in going ==> i < |b.was| && i !in done && IsFor(b, i, server, expiration, answer, named)
      modifies this
      ensures Placed(b, done + SetOf(going), legs, l')
    {
      l' := l;
      ghost var through := done;
      for k := 0 to |going|
        invariant Placed(b, through, legs, l')
        invariant through == done + SetOf(going[..k])
      {
        assert going[k] in going && going[k] !in going[..k];
        l' := TakeAnswer(going[k], answer, named, server, expiration, l', r, now, b, through);
        through := through + {going[k]};
        assert SetOf(going[..k + 1]) == SetOf(going[..k]) + {going[k]};
      }
      assert going[..|going|] == going;
    }

    method TakeAnswer(i: nat, answer: MultiAnswer, named: bool, server: string, expiration: nat, l: Lists,
                      r: Round, now: int, ghost b: Start, ghost done: set<nat>)
      returns (l': Lists)
      requires b.r == r && b.now == now && Placed(b, done, legs, l)
      requires i < |b.was| && i !in done && IsFor(b, i, server, expiration, answer, named)
      modifies this
      ensures Placed(b, done + {i}, legs, l')
    {
      var leg, place, news := Answer(r, i, legs[i], answer, named, expiration, now);
      StopIs(b, i, server, expiration, answer, named);
      PlacedMore(b, done, legs, l, i);
      legs := legs[i := leg];
      l' := Put(l, i, place, news);
    }

    /** An answer, applied to one of its legs. */
    method Answer(r: Round, i: nat, was: Leg, answer: MultiAnswer, named: bool, expiration: nat, now: int)
      returns (leg: Leg, place: Place, news: Option<News>)
      requires r.bundles(i).Some?
      ensures Stop(leg, place, news) == AnswerStop(answer, r.accountId(i), named, expiration, Sealed(r, was, i), now)
    {
      leg, place, news := was.(devices := DevicesOf(CopiesFor(r.bundles(i).value, false))), ToPairwise, None;
      if answer.Answered? && IsAnswer(answer.status) {
        leg, place, news := Apply(answer.status == 200, answer.response, r.accountId(i), named, leg, now);
      } else if answer.TokenInvalid? {
        news := Some(TokenRefused(leg.account, expiration));
      } else if answer.OverBudget? || answer.NoAnswer? {
        leg, place := Waiting(leg, now), Rests;
      }
    }

    method NamesAny(r: Round, going: seq<nat>, response: Response) returns (named: bool)
      ensures named <==> exists i :: i in going && Names(response, r.accountId(i))
    {
      named := false;
      for k := 0 to |going|
        invariant named <==> exists i :: i in going[..k] && Names(response, r.accountId(i))
      {
        assert going[..k + 1] == going[..k] + [going[k]];
        if Names(response, r.accountId(going[k])) {
          named := true;
        }
      }
      assert going[..|going|] == going;
    }

    /** What an answer of 200, 409 or 410 makes of one of its legs. */
    method Apply(stored: bool, response: Response, id: string, named: bool, was: Leg, now: int)
      returns (leg: Leg, place: Place, news: Option<News>)
      ensures Stop(leg, place, news) == ResponseStop(stored, response, id, named, was, now)
    {
      leg, place, news := was, Rests, None;
      if stored && id in response.refused {
        leg := leg.(delivered := true, failed := true);
      } else if id in response.rateLimited {
        leg, place := Waiting(leg, now), ToPairwise;
      } else if Gained(response, id) {
        place, news := MovedOn, Some(Mismatch(leg.account));
      } else if id in response.devices {
        leg := leg.(mismatches := Up(leg.mismatches));
        place := if leg.mismatches >= MAX_LEG_MISMATCHES then ToPairwise else Again;
        news := Some(Mismatch(leg.account));
      } else if stored {
        leg := leg.(delivered := true, retryAt := None);
        news := Some(Stored(leg.account, leg.devices));
      } else if named {
        place := Again;
      } else {
        leg := leg.(mismatches := Up(leg.mismatches));
        if leg.mismatches >= MAX_LEG_MISMATCHES {
          place := ToPairwise;
        } else {
          leg := Waiting(leg, now);
        }
      }
    }

    /** A leg of one server: sorted at once, unless it goes with a request. */
    method SortLeg(i: nat, l: Lists, r: Round, now: int, ghost b: Start, ghost done: set<nat>) returns (l': Lists, goes: bool)
      requires b.r == r && b.now == now && Placed(b, done, legs, l)
      requires i < |b.was| && i !in done && r.server(i).Some?
      modifies this
      ensures goes == RequestOf(r, i).Some?
      ensures Placed(b, if goes then done else done + {i}, legs, l')
      ensures goes ==> legs == old(legs)
    {
      var leg, place := legs[i], ToPairwise;
      goes := false;
      if r.expiration(i).Some? {
        if r.bundles(i).None? || r.bundles(i).value == [] {
          leg, place := Waiting(leg, now), Rests;
        } else if !AllReached(r, i) {
          place := NotReached;
        } else {
          goes := true;
        }
      }
      l' := l;
      if !goes {
        assert Stop(leg, place, None) == StopOf(b, i);
        PlacedMore(b, done, legs, l, i);
        legs, l' := legs[i := leg], Put(l, i, place, None);
      }
    }

    method SortServer(places: seq<nat>, l: Lists, r: Round, now: int, ghost b: Start, ghost done: set<nat>)
      returns (l': Lists, byExpiration: Groups<nat>)
      requires b.r == r && b.now == now && Placed(b, done, legs, l) && Distinct(places)
      requires forall i :: i in places ==> i < |b.was| && i !in done && r.server(i).Some?
      modifies this
      ensures Grouped(byExpiration, SetOf(places), ExpirationOf(r))
      ensures Placed(b, done + Stopped(r, places), legs, l')
    {
      l', byExpiration := l, map[];
      ghost var through := done;
      assert Grouped(byExpiration, SetOf([]), ExpirationOf(r));
      for k := 0 to |places|
        invariant Grouped(byExpiration, SetOf(places[..k]), ExpirationOf(r))
        invariant Placed(b, through, legs, l')
        invariant through == done + Stopped(r, places[..k])
      {
        var i := places[k];
        assert i in places && i !in places[..k];
        assert places[..k + 1] == places[..k] + [i];
        assert SetOf(places[..k + 1]) == SetOf(places[..k]) + {i};
        GroupedMore(byExpiration, SetOf(places[..k]), ExpirationOf(r), i);
        var goes;
        l', goes := SortLeg(i, l', r, now, b, through);
        if goes {
          byExpiration := AddTo(byExpiration, r.expiration(i).value, i);
        } else {
          through := through + {i};
        }
      }
      assert places[..|places|] == places;
    }

    /** One server's legs: one request for each expiration among their endorsements. */
    method DeliverToServer(server: string, places: seq<nat>, l: Lists, r: Round, now: int, ghost b: Start, ghost done: set<nat>)
      returns (l': Lists)
      requires b.r == r && b.now == now && Placed(b, done, legs, l) && Distinct(places)
      requires SetOf(places) !! done && forall i :: i in b.multi ==> i < |b.was|
      requires forall i :: i in places <==> i in b.multi && r.server(i) == Some(server)
      modifies this
      ensures Placed(b, done + SetOf(places), legs, l')
    {
      var groups;
      l', groups := SortServer(places, l, r, now, b, done);
      var rest := groups.Keys;
      while rest != {}
        invariant rest <= groups.Keys
        invariant Placed(b, Through(r, places, done, rest), legs, l')
        decreases rest
      {
        var e :| e in rest;
        GroupIsRequest(b, server, places, groups, e);
        ThroughMore(r, places, done, rest, e, groups[e]);
        l' := SendMulti(server, e, groups[e], l', r, now, b, Through(r, places, done, rest));
        rest := rest - {e};
      }
      assert Through(r, places, done, {}) == done + SetOf(places);
    }


    /** The first part: the legs of each server, and those no request can take. */
    method SortByServer(multi: seq<nat>, r: Round, now: int, ghost b: Start) returns (l: Lists, groups: Groups<string>)
      requires b == Start(r, SetOf(multi), legs, now) && Distinct(multi) && forall i :: i in multi ==> i < |legs|
      modifies this
      ensures Grouped(groups, SetOf(multi), r.server)
      ensures Placed(b, WithoutServer(r, multi), legs, l)
    {
      l, groups := Lists([], [], [], [], []), map[];
      ghost var through := {};
      assert Grouped(groups, SetOf([]), r.server);
      for k := 0 to |multi|
        invariant Grouped(groups, SetOf(multi[..k]), r.server)
        invariant Placed(b, through, legs, l) && legs == b.was
        invariant through == WithoutServer(r, multi[..k])
      {
        var i := multi[k];
        assert i in multi && i !in multi[..k];
        assert multi[..k + 1] == multi[..k] + [i];
        assert SetOf(multi[..k + 1]) == SetOf(multi[..k]) + {i};
        GroupedMore(groups, SetOf(multi[..k]), r.server, i);
        if r.server(i).Some? {
          groups := AddTo(groups, r.server(i).value, i);
        } else {
          PlacedMore(b, through, legs, l, i);
          assert legs[i := legs[i]] == legs;
          l := Put(l, i, ToPairwise, None);
          through := through + {i};
        }
      }
      assert multi[..|multi|] == multi;
    }

    method FirstPart(multi: seq<nat>, r: Round, now: int, ghost b: Start) returns (l: Lists)
      requires b == Start(r, SetOf(multi), legs, now) && Distinct(multi) && forall i :: i in multi ==> i < |legs|
      modifies this
      ensures Placed(b, SetOf(multi), legs, l)
    {
      var groups;
      l, groups := SortByServer(multi, r, now, b);
      var rest := groups.Keys;
      assert WithoutServer(r, multi) == ThroughServers(r, multi, rest);
      while rest != {}
        invariant rest <= groups.Keys
        invariant Placed(b, ThroughServers(r, multi, rest), legs, l)
        decreases rest
      {
        var server :| server in rest;
        ThroughServersMore(r, multi, rest, server, groups[server]);
        l := DeliverToServer(server, groups[server], l, r, now, b, ThroughServers(r, multi, rest));
        rest := rest - {server};
      }
      assert ThroughServers(r, multi, {}) == SetOf(multi);
    }

    /** A leg with devices the sender key has not reached: pairwise for those, by the device list. */
    method AmendNotReached(i: nat, r: Round, now: int) returns (again: bool)
      requires i < |legs| && r.bundles(i).Some?
      modifies this
      ensures legs == old(legs)[i := Next(r, old(legs)[i], NotReached, i, now).leg]
      ensures again == Next(r, old(legs)[i], NotReached, i, now).again
    {
      var covered := Reached(r, i, r.bundles(i).value);
      again := (covered == [] || r.sealsCopies(i)) && r.listed(i).Some?;
      if again {
        var copies := Amended(CopiesFor(covered, false), r.listed(i).value);
        legs := legs[i := legs[i].(copies := Some(copies), devices := DevicesOf(copies), multi := false)];
      } else {
        Wait(i, now);
      }
    }

    /** A leg with a device the sender key has not come to: pairwise from now, its sealed copies kept. */
    method MoveOn(i: nat, r: Round, now: int) returns (again: bool)
      requires i < |legs| && r.bundles(i).Some?
      modifies this
      ensures legs == old(legs)[i := Next(r, old(legs)[i], MovedOn, i, now).leg]
      ensures again == Next(r, old(legs)[i], MovedOn, i, now).again
    {
      again := r.sealsCopies(i);
      if again {
        var copies := CopiesFor(r.bundles(i).value, false);
        legs := legs[i := legs[i].(copies := Some(copies), devices := DevicesOf(copies), multi := false)];
      } else {
        Wait(i, now);
      }
    }

    /** A leg the route can not take: its copies sealed one by one, and gone with next round unless it
        waits. */
    method ToOrdinary(i: nat, r: Round, now: int) returns (again: bool)
      requires i < |legs|
      modifies this
      ensures legs == old(legs)[i := Next(r, old(legs)[i], ToPairwise, i, now).leg]
      ensures again == Next(r, old(legs)[i], ToPairwise, i, now).again
    {
      var due := Due(legs[i], now);
      if r.pairwise(i).Some? {
        var copies := CopiesFor(r.pairwise(i).value, false);
        legs := legs[i := legs[i].(copies := Some(copies), devices := DevicesOf(copies), multi := false)];
        again := due;
      } else {
        Wait(i, now);
        again := false;
      }
    }

    method SettleOne(i: nat, place: Place, r: Round, now: int) returns (again: bool)
      requires i < |legs| && (place.NotReached? || place.MovedOn? || place.ToPairwise?)
      requires !place.ToPairwise? ==> r.bundles(i).Some?
      modifies this
      ensures legs == old(legs)[i := Next(r, old(legs)[i], place, i, now).leg]
      ensures again == Next(r, old(legs)[i], place, i, now).again
    {
      if place.NotReached? {
        again := AmendNotReached(i, r, now);
      } else if place.MovedOn? {
        again := MoveOn(i, r, now);
      } else {
        again := ToOrdinary(i, r, now);
      }
    }

    /** The second part for the legs of one list. */
    method Settle(list: seq<nat>, place: Place, was: seq<nat>, r: Round, now: int, ghost b: Start, ghost fin: set<nat>)
      returns (again: seq<nat>)
      requires b.r == r && b.now == now && Finished(b, fin, legs, was)
      requires place.NotReached? || place.MovedOn? || place.ToPairwise?
      requires Listed(b, b.multi, list, place) && fin !! SetOf(list)
      modifies this
      ensures Finished(b, fin + SetOf(list), legs, again)
    {
      again := was;
      ghost var through := fin;
      for k := 0 to |list|
        invariant Finished(b, through, legs, again)
        invariant through == fin + SetOf(list[..k])
      {
        var i := list[k];
        assert i in list && i !in list[..k];
        assert list[..k + 1] == list[..k] + [i];
        FinishedMore(b, through, legs, again, i);
        NextIs(b, i, legs[i], place);
        var goes := SettleOne(i, place, r, now);
        if goes {
          again := again + [i];
        }
        through := through + {i};
      }
      assert list[..|list|] == list;
    }

    /** What a round does with the legs that share copies: the answers first, then those it could not take. */
    method DeliverMulti(multi: seq<nat>, r: Round, now: int) returns (again: seq<nat>, news: seq<News>)
      requires Distinct(multi) && forall i :: i in multi ==> i < |legs|
      modifies this
      ensures MultiRounded(r, old(legs), SetOf(multi), now, legs, again, news)
    {
      if !r.ready {
        again, news := [], [];
        for k := 0 to |multi|
          invariant |legs| == |old(legs)|
          invariant forall i :: 0 <= i < |legs| ==> legs[i] == if i in multi[..k] then Waiting(old(legs)[i], now) else old(legs)[i]
        {
          assert multi[k] in multi && multi[k] !in multi[..k];
          Wait(multi[k], now);
        }
        assert multi[..|multi|] == multi;
      } else {
        ghost var b := Start(r, SetOf(multi), legs, now);
        var l := FirstPart(multi, r, now, b);
        assert Finished(b, {}, legs, l.again);
        again := Settle(l.notReached, NotReached, l.again, r, now, b, {});
        again := Settle(l.movedOn, MovedOn, again, r, now, b, SetOf(l.notReached));
        again := Settle(l.pairwise, ToPairwise, again, r, now, b, SetOf(l.notReached) + SetOf(l.movedOn));
        news := l.news;
        FinishedAll(b, SetOf(l.notReached) + SetOf(l.movedOn) + SetOf(l.pairwise), legs, again, news);
      }
    }

    /** What an account's server answered for one sealed submission. */
    method TakeOutcome(i: nat, r: Round, now: int) returns (again: bool, news: Option<News>)
      requires i < |legs| && legs[i].copies.Some?
      modifies this
      ensures legs == old(legs)[i := PairwiseTurn(r, old(legs)[i], i, now).leg]
      ensures Turn(legs[i], again, news) == PairwiseTurn(r, old(legs)[i], i, now)
    {
      again, news := false, None;
      var leg := legs[i];
      if r.outcome(i) == Some(Delivered) {
        legs := legs[i := leg.(delivered := true, retryAt := None)];
        news := Some(Stored(leg.account, leg.devices));
      } else if r.outcome(i) == Some(Unavailable) || r.outcome(i) == Some(PeerUnsupported) || r.outcome(i) == Some(Refused) {
        legs := legs[i := leg.(delivered := true, failed := true)];
      } else if r.outcome(i) == Some(DeviceMismatch) {
        news := Some(Mismatch(leg.account));
        again := CountMismatch(i, leg.copies.value, r, now);
      } else if r.outcome(i) == Some(Pending) || r.outcome(i) == Some(Conflict) {
        legs := legs[i := leg.(queued := true)];
        Wait(i, now);
      } else {
        Wait(i, now);
      }
    }

    method CountMismatch(i: nat, copies: seq<Copy>, r: Round, now: int) returns (again: bool)
      requires i < |legs| && legs[i].copies == Some(copies)
      modifies this
      ensures var t := MismatchTurn(r, old(legs)[i].(queued := false, mismatches := Up(old(legs)[i].mismatches)), i, now);
              legs == old(legs)[i := t.leg] && again == t.again
    {
      again := false;
      legs := legs[i := legs[i].(queued := false, mismatches := Up(legs[i].mismatches))];
      if legs[i].mismatches >= MAX_LEG_MISMATCHES {
        legs := legs[i := legs[i].(delivered := true, failed := true)];
      } else if r.listed(i).None? {
        Wait(i, now);
      } else {
        var amended := Amended(copies, r.listed(i).value);
        legs := legs[i := legs[i].(copies := Some(amended), devices := DevicesOf(amended))];
        again := true;
      }
    }

    /** The ordinary legs of a round: those whose copies read back, and the others, which can not go. */
    method Submissions(places: seq<nat>) returns (going: seq<nat>)
      requires Distinct(places) && forall i :: i in places ==> i < |legs|
      modifies this
      ensures Distinct(going)
      ensures forall i :: i in going <==> i in places && old(legs)[i].copies.Some?
      ensures |legs| == |old(legs)|
      ensures forall i :: 0 <= i < |legs| ==>
        legs[i] == if i in places && old(legs)[i].copies.None? then Fail(old(legs)[i]).leg else old(legs)[i]
    {
      going := [];
      for k := 0 to |places|
        invariant Distinct(going)
        invariant forall i :: i in going <==> i in places[..k] && i < |old(legs)| && old(legs)[i].copies.Some?
        invariant |legs| == |old(legs)|
        invariant forall i :: 0 <= i < |legs| ==>
          legs[i] == if i in places[..k] && old(legs)[i].copies.None? then Fail(old(legs)[i]).leg else old(legs)[i]
      {
        var i := places[k];
        assert i in places && i !in places[..k];
        assert places[..k + 1] == places[..k] + [i];
        if legs[i].copies.None? {
          legs := legs[i := legs[i].(delivered := true, failed := true)];
        } else {
          going := going + [i];
        }
      }
      assert places[..|places|] == places;
    }

    /** The ordinary legs of a round: each sent, and its answer applied. */
    method DeliverPairwise(places: seq<nat>, r: Round, now: int) returns (again: seq<nat>, news: seq<News>)
      requires Distinct(places) && forall i :: i in places ==> i < |legs|
      modifies this
      ensures PairwiseRounded(r, old(legs), SetOf(places), now, legs, again, news)
    {
      var going := Submissions(places);
      ghost var sent := legs;
      assert forall i :: i in going ==> sent[i] == old(legs)[i];
      again, news := TakeOutcomes(going, r, now);
      ToldByAll(r, old(legs), sent, SetOf(places), SetOf(going), now, news);
    }

    method TakeOutcomes(going: seq<nat>, r: Round, now: int) returns (again: seq<nat>, news: seq<News>)
      requires Distinct(going) && forall i :: i in going ==> i < |legs| && legs[i].copies.Some?
      modifies this
      ensures PairwiseRounded(r, old(legs), SetOf(going), now, legs, again, news)
    {
      ghost var sent := legs;
      again, news := [], [];
      assert SetOf(going[..0]) == {};
      for k := 0 to |going|
        invariant PairwiseRounded(r, sent, SetOf(going[..k]), now, legs, again, news)
      {
        var i := going[k];
        assert i in going && i !in going[..k];
        assert going[..k + 1] == going[..k] + [i];
        assert SetOf(going[..k + 1]) == SetOf(going[..k]) + {i};
        var goes, note := TakeOutcome(i, r, now);
        ToldByMore(r, sent, SetOf(going[..k]), now, news, i);
        again := if goes then again + [i] else again;
        news := if note.Some? then news + [note.value] else news;
      }
      assert going[..|going|] == going;
    }

    /** One round over the legs `retry`: those to send again in the next, and what the round learned. */
    method DeliverRound(retry: seq<nat>, r: Round, now: int) returns (again: seq<nat>, news: seq<News>)
      requires Distinct(retry) && forall i :: i in retry ==> i < |legs|
      modifies this
      ensures Rounded(r, old(legs), SetOf(retry), now, legs, SetOf(again)) && Ascending(again)
      ensures Tells(r, old(legs), SetOf(retry), now, news)
    {
      var multi, ordinary := Routes(retry);
      again, news := [], [];
      assert MultiOf(legs, SetOf(retry)) == SetOf(multi);
      if multi != [] {
        again, news := DeliverMulti(multi, r, now);
      }
      ghost var mid := legs;
      assert MultiRounded(r, old(legs), SetOf(multi), now, mid, again, news);
      var more, learned := DeliverPairwise(ordinary, r, now);
      BothRounds(r, old(legs), mid, legs, SetOf(multi), SetOf(ordinary), now, again, more, news, learned);
      assert SetOf(multi) + SetOf(ordinary) == SetOf(retry);
      var both := again + more;
      again := SortedOnce(|legs|, both);
      news := news + learned;
    }

    method Routes(retry: seq<nat>) returns (multi: seq<nat>, ordinary: seq<nat>)
      requires Distinct(retry) && forall i :: i in retry ==> i < |legs|
      ensures Distinct(multi) && forall i :: i in multi <==> i in retry && legs[i].multi
      ensures Distinct(ordinary) && forall i :: i in ordinary <==> i in retry && !legs[i].multi
    {
      multi, ordinary := [], [];
      for k := 0 to |retry|
        invariant Distinct(multi) && forall i :: i in multi <==> i in retry[..k] && i < |legs| && legs[i].multi
        invariant Distinct(ordinary) && forall i :: i in ordinary <==> i in retry[..k] && i < |legs| && !legs[i].multi
      {
        assert retry[k] in retry && retry[k] !in retry[..k];
        assert retry[..k + 1] == retry[..k] + [retry[k]];
        if legs[retry[k]].multi {
          multi := multi + [retry[k]];
        } else {
          ordinary := ordinary + [retry[k]];
        }
      }
      assert retry[..|retry|] == retry;
    }
  }
}
