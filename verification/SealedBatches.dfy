/** Sending sealed submissions in batches: each one's outcome is its own server's answer for it. */
module SealedBatches {
  import opened Common
  import opened Batches
  import LegStates

  type Outcome = LegStates.Outcome

  datatype Submission = Submission(account: string, sendId: string, valid: bool, weight: nat)

  datatype Address = Address(server: string, id: string)

  datatype Answer = Answer(account: string, sendId: string, outcome: Outcome)

  /** What the outside answers: an account's server and id, when it names one, and each batch's results,
      when it was answered. */
  datatype World = World(parse: string -> Option<Address>, answers: (string, seq<Item>) -> Option<seq<Answer>>)

  /** The server a submission goes to: none for one that does not validate or names no account. */
  function ServerOf(w: World, s: Submission): Option<string> {
    if s.valid && w.parse(s.account).Some? then Some(w.parse(s.account).value.server) else None
  }

  function ItemOf(w: World, sends: seq<Submission>, place: nat): Item
    requires place < |sends| && ServerOf(w, sends[place]).Some?
  {
    var s := sends[place];
    Item(place, w.parse(s.account).value.id, s.sendId, s.weight)
  }

  /** A server's submissions, in their order. */
  function ItemsTo(w: World, sends: seq<Submission>, server: string): seq<Item> {
    if sends == [] then []
    else
      var n := |sends| - 1;
      var before := ItemsTo(w, sends[..n], server);
      if ServerOf(w, sends[n]) == Some(server) then before + [ItemOf(w, sends, n)] else before
  }

  /** A batch a server may be sent: none of its sends twice to one account. */
  predicate Validates(batch: seq<Item>) {
    && 1 <= |batch| <= MAX_SEALED_BATCH_ITEMS
    && forall j, k :: 0 <= j < k < |batch| ==> batch[j].account != batch[k].account || batch[j].sendId != batch[k].sendId
  }

  predicate Answers(batch: seq<Item>, results: Option<seq<Answer>>) {
    Validates(batch) && results.Some? && |results.value| == |batch|
  }

  function ResultFor(item: Item, a: Answer): Option<Outcome> {
    if a.account == item.account && a.sendId == item.sendId then Some(a.outcome) else None
  }

  /** What a batch brings each of its items. */
  function BatchResults(w: World, server: string, batch: seq<Item>): (r: seq<Option<Outcome>>)
    ensures |r| == |batch|
  {
    var results := w.answers(server, batch);
    seq(|batch|, k requires 0 <= k < |batch| => if Answers(batch, results) then ResultFor(batch[k], results.value[k]) else None)
  }

  function Results(w: World, server: string, chunks: seq<seq<Item>>): (r: seq<Option<Outcome>>)
    ensures |r| == |Joined(chunks)|
  {
    if chunks == [] then [] else Results(w, server, chunks[..|chunks| - 1]) + BatchResults(w, server, Last(chunks))
  }

  ghost predicate ServerAnswered(w: World, server: string, items: seq<Item>, outcomes: seq<Option<Outcome>>) {
    CutIsLeast(items);
    forall j :: 0 <= j < |items| ==> items[j].place < |outcomes| && outcomes[items[j].place] == Results(w, server, Cut(items))[j]
  }

  /** Each submission has what its server's batches brought it, and one that goes nowhere has nothing. */
  ghost predicate Answered(w: World, sends: seq<Submission>, outcomes: seq<Option<Outcome>>) {
    && |outcomes| == |sends|
    && (forall server :: ServerAnswered(w, server, ItemsTo(w, sends, server), outcomes))
    && (forall p :: 0 <= p < |sends| && ServerOf(w, sends[p]).None? ==> outcomes[p] == None)
  }

  predicate Ordered(items: seq<Item>) {
    forall j, k :: 0 <= j < k < |items| ==> items[j].place < items[k].place
  }

  /** Every submission that can go is one item of its own server's, and no other's. */
  lemma {:induction false} ItemsToAre(w: World, sends: seq<Submission>, server: string)
    ensures var items := ItemsTo(w, sends, server);
            && Ordered(items)
            && (forall i :: i in items ==> i.place < |sends| && ServerOf(w, sends[i.place]) == Some(server) && i == ItemOf(w, sends, i.place))
            && (forall p :: 0 <= p < |sends| && ServerOf(w, sends[p]) == Some(server) ==> ItemOf(w, sends, p) in items)
  {
    if sends != [] {
      var n := |sends| - 1;
      ItemsToAre(w, sends[..n], server);
      var before := ItemsTo(w, sends[..n], server);
      forall p | 0 <= p < n && ServerOf(w, sends[p]) == Some(server) ensures ItemOf(w, sends, p) in before {
        assert ItemOf(w, sends[..n], p) == ItemOf(w, sends, p);
      }
      forall j | 0 <= j < |before| ensures before[j].place < n {
        assert before[j] in before;
      }
    }
  }

  /** A batch in which some answer names the item's account and send. */
  ghost predicate NamedIn(w: World, server: string, chunks: seq<seq<Item>>, item: Item, outcome: Outcome) {
    exists batch, k :: IsNamed(w, server, chunks, item, outcome, batch, k)
  }

  ghost predicate IsNamed(w: World, server: string, chunks: seq<seq<Item>>, item: Item, outcome: Outcome, batch: seq<Item>, k: int) {
    && batch in chunks && 0 <= k < |batch| && batch[k] == item
    && Answers(batch, w.answers(server, batch))
    && w.answers(server, batch).value[k] == Answer(item.account, item.sendId, outcome)
  }

  lemma {:induction false} ResultsAreNamed(w: World, server: string, chunks: seq<seq<Item>>, j: nat)
    requires j < |Joined(chunks)| && Results(w, server, chunks)[j].Some?
    ensures NamedIn(w, server, chunks, Joined(chunks)[j], Results(w, server, chunks)[j].value)
  {
    var rest := chunks[..|chunks| - 1];
    var (item, outcome) := (Joined(chunks)[j], Results(w, server, chunks)[j].value);
    if j < |Joined(rest)| {
      ResultsAreNamed(w, server, rest, j);
      var batch, k :| IsNamed(w, server, rest, item, outcome, batch, k);
      assert IsNamed(w, server, chunks, item, outcome, batch, k);
    } else {
      assert IsNamed(w, server, chunks, item, outcome, Last(chunks), j - |Joined(rest)|);
    }
  }

  /** A submission has an outcome only from its own server, in an answer of as many results as the batch
      had items, by the result in its place that names its account and send. */
  lemma {:induction false} OnlyItsOwnAnswer(w: World, sends: seq<Submission>, outcomes: seq<Option<Outcome>>, p: nat)
    requires Answered(w, sends, outcomes) && p < |sends| && outcomes[p].Some?
    ensures ServerOf(w, sends[p]).Some?
    ensures var server := ServerOf(w, sends[p]).value;
            NamedIn(w, server, Cut(ItemsTo(w, sends, server)), ItemOf(w, sends, p), outcomes[p].value)
  {
    var server := ServerOf(w, sends[p]).value;
    var items := ItemsTo(w, sends, server);
    ItemsToAre(w, sends, server);
    CutIsLeast(items);
    assert ServerAnswered(w, server, items, outcomes);
    var j :| 0 <= j < |items| && items[j] == ItemOf(w, sends, p);
    ResultsAreNamed(w, server, Cut(items), j);
  }

  method SendSealedBatches(w: World, sends: seq<Submission>, top: nat) returns (outcomes: seq<Option<Outcome>>)
    requires top > MAX_SEALED_BATCH_BYTES
    ensures Answered(w, sends, outcomes)
  {
    outcomes := seq(|sends|, _ => None);
    var byServer := GroupByServer(w, sends);
    var rest := byServer.Keys;
    while rest != {}
      invariant rest <= byServer.Keys && |outcomes| == |sends|
      invariant forall server :: server in byServer && server !in rest ==> ServerAnswered(w, server, ItemsTo(w, sends, server), outcomes)
      invariant forall p :: 0 <= p < |sends| && (ServerOf(w, sends[p]).None? || ServerOf(w, sends[p]).value in rest) ==> outcomes[p] == None
      decreases rest
    {
      var server :| server in rest;
      ghost var before := outcomes;
      ItemsToAre(w, sends, server);
      outcomes := SendToServer(w, server, byServer[server], outcomes, top);
      rest := rest - {server};
      forall other | other in byServer && other !in rest ensures ServerAnswered(w, other, ItemsTo(w, sends, other), outcomes) {
        if other != server {
          OthersKeepTheirs(w, sends, server, other, before, outcomes);
        }
      }
      forall p | 0 <= p < |sends| && (ServerOf(w, sends[p]).None? || ServerOf(w, sends[p]).value in rest) ensures outcomes[p] == None {
        assert NotAmong(byServer[server], p);
      }
    }
    forall server ensures ServerAnswered(w, server, ItemsTo(w, sends, server), outcomes) {
      if server !in byServer {
        assert ItemsTo(w, sends, server) == [];
      }
    }
  }

  predicate NotAmong(items: seq<Item>, p: nat) {
    forall i :: i in items ==> i.place != p
  }

  lemma {:induction false} OthersKeepTheirs(w: World, sends: seq<Submission>, server: string, other: string,
                                            before: seq<Option<Outcome>>, after: seq<Option<Outcome>>)
    requires other != server && |before| == |after| == |sends|
    requires forall p :: 0 <= p < |sends| && NotAmong(ItemsTo(w, sends, server), p) ==> after[p] == before[p]
    requires ServerAnswered(w, other, ItemsTo(w, sends, other), before)
    ensures ServerAnswered(w, other, ItemsTo(w, sends, other), after)
  {
    ItemsToAre(w, sends, server);
    ItemsToAre(w, sends, other);
    var items := ItemsTo(w, sends, other);
    forall j | 0 <= j < |items| ensures after[items[j].place] == before[items[j].place] {
      assert items[j] in items;
      assert NotAmong(ItemsTo(w, sends, server), items[j].place);
    }
  }

  method GroupByServer(w: World, sends: seq<Submission>) returns (byServer: map<string, seq<Item>>)
    ensures forall server :: ItemsTo(w, sends, server) == if server in byServer then byServer[server] else []
  {
    byServer := map[];
    for k := 0 to |sends|
      invariant forall server :: ItemsTo(w, sends[..k], server) == if server in byServer then byServer[server] else []
    {
      assert sends[..k + 1][..k] == sends[..k];
      var s := sends[k];
      if s.valid && w.parse(s.account).Some? {
        var a := w.parse(s.account).value;
        var item := Item(k, a.id, s.sendId, s.weight);
        assert item == ItemOf(w, sends[..k + 1], k);
        byServer := byServer[a.server := (if a.server in byServer then byServer[a.server] else []) + [item]];
      }
    }
    assert sends[..|sends|] == sends;
  }

  /** The first of the items have `results`, the others nothing yet; all other places are as they were. */
  ghost predicate Filled(items: seq<Item>, was: seq<Option<Outcome>>, outcomes: seq<Option<Outcome>>, results: seq<Option<Outcome>>) {
    && |outcomes| == |was| && |results| <= |items|
    && (forall j :: 0 <= j < |items| ==> items[j].place < |was|)
    && (forall j :: 0 <= j < |items| ==> outcomes[items[j].place] == if j < |results| then results[j] else None)
    && (forall p :: 0 <= p < |was| && NotAmong(items, p) ==> outcomes[p] == was[p])
  }

  lemma {:induction false} FilledMore(items: seq<Item>, was: seq<Option<Outcome>>, outcomes: seq<Option<Outcome>>,
                                      results: seq<Option<Outcome>>, r: Option<Outcome>)
    requires Ordered(items) && Filled(items, was, outcomes, results) && |results| < |items|
    ensures Filled(items, was, outcomes[items[|results|].place := r], results + [r])
  {
    assert items[|results|] in items;
  }

  method SendToServer(w: World, server: string, items: seq<Item>, was: seq<Option<Outcome>>, top: nat)
    returns (outcomes: seq<Option<Outcome>>)
    requires top > MAX_SEALED_BATCH_BYTES && Ordered(items) && forall i :: i in items ==> i.place < |was|
    requires forall i :: i in items ==> was[i.place] == None
    ensures |outcomes| == |was| && ServerAnswered(w, server, items, outcomes)
    ensures forall p :: 0 <= p < |was| && NotAmong(items, p) ==> outcomes[p] == was[p]
  {
    var chunks := BatchChunks(items, top);
    outcomes := SendChunks(w, server, items, was, chunks);
  }

  method SendChunks(w: World, server: string, ghost items: seq<Item>, was: seq<Option<Outcome>>, chunks: seq<seq<Item>>)
    returns (outcomes: seq<Option<Outcome>>)
    requires Ordered(items) && Joined(chunks) == items
    requires forall i :: i in items ==> i.place < |was| && was[i.place] == None
    ensures Filled(items, was, outcomes, Results(w, server, chunks))
  {
    outcomes := was;
    assert chunks[..|chunks|] == chunks;
    assert forall j :: 0 <= j < |items| ==> items[j] in items;
    for c := 0 to |chunks|
      invariant Filled(items, was, outcomes, Results(w, server, chunks[..c]))
    {
      assert chunks[..c + 1][..c] == chunks[..c];
      JoinedPrefix(chunks, c + 1);
      outcomes := SendBatch(w, server, items, was, chunks[c], outcomes, Joined(chunks[..c]), Results(w, server, chunks[..c]));
    }
  }

  lemma {:induction false} JoinedPrefix(chunks: seq<seq<Item>>, c: nat)
    requires c <= |chunks|
    ensures Joined(chunks[..c]) <= Joined(chunks)
  {
    if c < |chunks| {
      JoinedPrefix(chunks[..|chunks| - 1], c);
      assert chunks[..|chunks| - 1][..c] == chunks[..c];
    } else {
      assert chunks[..c] == chunks;
    }
  }

  /** One batch, sent and its answers put in their places. */
  method SendBatch(w: World, server: string, ghost items: seq<Item>, ghost first: seq<Option<Outcome>>, batch: seq<Item>,
                   was: seq<Option<Outcome>>, ghost before: seq<Item>, ghost results: seq<Option<Outcome>>)
    returns (outcomes: seq<Option<Outcome>>)
    requires Ordered(items) && Filled(items, first, was, results)
    requires |before| == |results| && before + batch <= items
    ensures Filled(items, first, outcomes, results + BatchResults(w, server, batch))
  {
    outcomes := was;
    ghost var all := BatchResults(w, server, batch);
    var answers := w.answers(server, batch);
    if !Validates(batch) || answers.None? || |answers.value| != |batch| {
      NothingFilled(items, first, was, results, |batch|);
      assert all == seq(|batch|, _ => None);
      return;
    }
    assert results + all[..0] == results;
    for k := 0 to |batch|
      invariant Filled(items, first, outcomes, results + all[..k])
    {
      assert (before + batch)[|before| + k] == batch[k] == items[|results| + k];
      FilledMore(items, first, outcomes, results + all[..k], all[k]);
      assert results + all[..k] + [all[k]] == results + all[..k + 1];
      if answers.value[k].account == batch[k].account && answers.value[k].sendId == batch[k].sendId {
        outcomes := outcomes[batch[k].place := Some(answers.value[k].outcome)];
      } else {
        assert outcomes[batch[k].place := None] == outcomes;
      }
    }
    assert all[..|batch|] == all;
  }

  lemma {:induction false} NothingFilled(items: seq<Item>, was: seq<Option<Outcome>>, outcomes: seq<Option<Outcome>>,
                                         results: seq<Option<Outcome>>, n: nat)
    requires Filled(items, was, outcomes, results) && |results| + n <= |items|
    ensures Filled(items, was, outcomes, results + seq(n, _ => None))
  {
  }
}
