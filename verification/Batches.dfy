/** Sealed submissions sent to their accounts' servers in batches: how a server's are cut, and whose
    answer each gets. */
module Batches {
  import opened Common

  const MAX_SEALED_BATCH_ITEMS: nat := 64
  const MAX_SEALED_BATCH_BYTES: nat := 4 * 1024 * 1024
  const FRAME_BYTES: nat := 64

  /** One recipient of a batch: its place among the submissions, and what it weighs in the request. */
  datatype Item = Item(place: nat, account: string, sendId: string, weight: nat)

  // ----- cutting -----

  function Size(chunk: seq<Item>): nat {
    if chunk == [] then FRAME_BYTES else Size(chunk[..|chunk| - 1]) + chunk[|chunk| - 1].weight
  }

  /** A chunk a request may be made of: one item of any weight, or several within both limits. */
  predicate Feasible(chunk: seq<Item>) {
    chunk != [] && (|chunk| == 1 || (|chunk| <= MAX_SEALED_BATCH_ITEMS && Size(chunk) <= MAX_SEALED_BATCH_BYTES))
  }

  function Joined(chunks: seq<seq<Item>>): seq<Item> {
    if chunks == [] then [] else Joined(chunks[..|chunks| - 1]) + chunks[|chunks| - 1]
  }

  /** `chunks` are `items` in their order, cut where each request may be. */
  predicate IsCut(items: seq<Item>, chunks: seq<seq<Item>>) {
    Joined(chunks) == items && forall c :: c in chunks ==> Feasible(c)
  }

  function Last(chunks: seq<seq<Item>>): seq<Item>
    requires chunks != []
  {
    chunks[|chunks| - 1]
  }

  /** No item starts a chunk that the one before had room for. */
  predicate Eager(chunks: seq<seq<Item>>) {
    forall k :: 0 < k < |chunks| ==> chunks[k] != [] && !Feasible(chunks[k - 1] + [chunks[k][0]])
  }

  /** No cut of the items has fewer chunks, nor as many with less in the last. */
  ghost predicate Least(items: seq<Item>, chunks: seq<seq<Item>>) {
    forall other | IsCut(items, other) ::
      |chunks| <= |other| && (|chunks| == |other| && chunks != [] ==> |Last(chunks)| <= |Last(other)|)
  }

  lemma {:induction false} SizeOfSuffix(chunk: seq<Item>, k: nat)
    requires k <= |chunk|
    ensures Size(chunk[k..]) <= Size(chunk)
  {
    if k < |chunk| {
      var n := |chunk| - 1;
      SizeOfSuffix(chunk[..n], k);
      assert chunk[k..][..n - k] == chunk[..n][k..];
    } else if chunk != [] {
      SizeOfSuffix(chunk[..|chunk| - 1], |chunk| - 1);
    }
  }

  /** What is left of a chunk from some item on may be a chunk too. */
  lemma {:induction false} SuffixFeasible(chunk: seq<Item>, k: nat)
    requires Feasible(chunk) && k < |chunk|
    ensures Feasible(chunk[k..])
  {
    SizeOfSuffix(chunk, k);
  }

  lemma {:induction false} SameEnds(a: seq<Item>, b: seq<Item>, c: seq<Item>, x: Item)
    requires b != [] && a + b == c + [x]
    ensures b == b[..|b| - 1] + [x] && a + b[..|b| - 1] == c
  {
    assert (a + b)[|a + b| - 1] == x && (c + [x])[|c + [x]| - 1] == x;
    assert (a + b)[..|a + b| - 1] == a + b[..|b| - 1] && (c + [x])[..|c|] == c;
  }

  /** A cut without its last item. */
  function Before(other: seq<seq<Item>>): seq<seq<Item>>
    requires other != [] && Last(other) != []
  {
    var l := Last(other)[..|Last(other)| - 1];
    var rest := other[..|other| - 1];
    if l == [] then rest else rest + [l]
  }

  lemma {:induction false} WithoutLastItem(chunks: seq<seq<Item>>, items: seq<Item>, x: Item)
    requires IsCut(items + [x], chunks)
    ensures chunks != [] && Last(chunks) != [] && Last(chunks)[|Last(chunks)| - 1] == x
    ensures IsCut(items, Before(chunks))
  {
    var last := Last(chunks);
    var rest := chunks[..|chunks| - 1];
    assert last in chunks;
    var l := last[..|last| - 1];
    SameEnds(Joined(rest), last, items, x);
    if l != [] {
      assert (rest + [l])[..|rest|] == rest;
      assert Size(last) == Size(l) + x.weight;
    }
  }

  /** Two cuts of the same items end the same: of the two last chunks one is the end of the other. */
  lemma {:induction false} LastsAlign(items: seq<Item>, a: seq<seq<Item>>, b: seq<seq<Item>>)
    requires IsCut(items, a) && IsCut(items, b) && a != [] && b != [] && |Last(a)| <= |Last(b)|
    ensures Last(a) == Last(b)[|Last(b)| - |Last(a)|..]
  {
    var (la, lb) := (Last(a), Last(b));
    assert items[|items| - |la|..] == la && items[|items| - |lb|..] == lb;
  }

  function Full(chunk: seq<Item>, x: Item): bool {
    |chunk| >= MAX_SEALED_BATCH_ITEMS || Size(chunk) + x.weight > MAX_SEALED_BATCH_BYTES
  }

  /** The chunks with one more item. */
  function Pushed(chunks: seq<seq<Item>>, x: Item): seq<seq<Item>> {
    if chunks == [] || Full(Last(chunks), x) then chunks + [[x]]
    else chunks[..|chunks| - 1] + [Last(chunks) + [x]]
  }

  lemma {:induction false} JoinedMore(chunks: seq<seq<Item>>, x: Item)
    ensures Joined(Pushed(chunks, x)) == Joined(chunks) + [x]
  {
    var p := Pushed(chunks, x);
    assert p[..|p| - 1] == if chunks == [] || Full(Last(chunks), x) then chunks else chunks[..|chunks| - 1];
  }

  lemma {:induction false} PushedIsCut(items: seq<Item>, chunks: seq<seq<Item>>, x: Item)
    requires IsCut(items, chunks) && Eager(chunks)
    ensures IsCut(items + [x], Pushed(chunks, x)) && Eager(Pushed(chunks, x))
  {
    JoinedMore(chunks, x);
    var p := Pushed(chunks, x);
    if chunks != [] {
      assert Last(chunks) in chunks;
      FullIsInfeasible(Last(chunks), x);
    }
    forall c | c in p ensures Feasible(c) {
      if c !in chunks {
        assert c == [x] || (chunks != [] && c == Last(chunks) + [x]);
      }
    }
    forall k | 0 < k < |p| ensures p[k] != [] && !Feasible(p[k - 1] + [p[k][0]]) {
      if k < |chunks| {
        assert p[k - 1] == chunks[k - 1] && p[k][0] == chunks[k][0] by { assert chunks[k] in chunks; }
      }
    }
  }

  lemma {:induction false} FullIsInfeasible(chunk: seq<Item>, x: Item)
    requires chunk != []
    ensures Full(chunk, x) <==> !Feasible(chunk + [x])
  {
    assert (chunk + [x])[..|chunk|] == chunk;
  }

  /** What another cut without its last item has, against the chunks of the same items. */
  lemma {:induction false} NoRoomMeansOneMore(items: seq<Item>, chunks: seq<seq<Item>>, before: seq<seq<Item>>, x: Item)
    requires IsCut(items, chunks) && IsCut(items, before) && chunks != [] && before != []
    requires |Last(chunks)| <= |Last(before)| && Feasible(Last(before) + [x])
    ensures !Full(Last(chunks), x)
  {
    LastsAlign(items, chunks, before);
    var (a, b) := (Last(chunks), Last(before));
    assert a in chunks;
    SuffixFeasible(b + [x], |b| - |a|);
    assert (b + [x])[|b| - |a|..] == a + [x];
    FullIsInfeasible(a, x);
  }

  /** Taking each item while it fits stays ahead of every other way to cut. */
  lemma {:induction false} PushedIsLeast(items: seq<Item>, chunks: seq<seq<Item>>)
    requires items != []
    requires var n := |items| - 1; IsCut(items[..n], chunks) && Least(items[..n], chunks)
    ensures Least(items, Pushed(chunks, items[|items| - 1]))
  {
    var n := |items| - 1;
    assert items == items[..n] + [items[n]];
    forall other | IsCut(items, other)
      ensures var p := Pushed(chunks, items[n]); |p| <= |other| && (|p| == |other| && p != [] ==> |Last(p)| <= |Last(other)|)
    {
      StaysAhead(items[..n], chunks, items[n], other);
    }
  }

  lemma {:induction false} StaysAhead(items: seq<Item>, chunks: seq<seq<Item>>, x: Item, other: seq<seq<Item>>)
    requires IsCut(items, chunks) && Least(items, chunks) && IsCut(items + [x], other)
    ensures other != []
    ensures var p := Pushed(chunks, x); |p| <= |other| && (|p| == |other| ==> |Last(p)| <= |Last(other)|)
  {
    WithoutLastItem(other, items, x);
    assert IsCut(items, Before(other));
    if |Last(other)| > 1 && chunks != [] && |chunks| == |other| {
      RoomInTheLast(items, chunks, x, other);
    }
    Ahead(chunks, x, other, Before(other));
  }

  /** Counting: chunks no more than another cut's, with no more in the last where they are as many. */
  lemma {:induction false} Ahead(chunks: seq<seq<Item>>, x: Item, other: seq<seq<Item>>, before: seq<seq<Item>>)
    requires other != [] && Last(other) != [] && before == Before(other)
    requires |chunks| <= |before| && (|chunks| == |before| && chunks != [] ==> |Last(chunks)| <= |Last(before)|)
    requires |Last(other)| > 1 && chunks != [] && |chunks| == |other| ==> !Full(Last(chunks), x)
    ensures var p := Pushed(chunks, x); |p| <= |other| && (|p| == |other| ==> |Last(p)| <= |Last(other)|)
  {
  }

  lemma {:induction false} RoomInTheLast(items: seq<Item>, chunks: seq<seq<Item>>, x: Item, other: seq<seq<Item>>)
    requires IsCut(items, chunks) && chunks != [] && forall c :: c in other ==> Feasible(c)
    requires other != [] && |Last(other)| > 1 && IsCut(items, Before(other)) && |Last(chunks)| <= |Last(Before(other))|
    requires Last(other)[|Last(other)| - 1] == x
    ensures !Full(Last(chunks), x)
  {
    var l := Last(other)[..|Last(other)| - 1];
    assert Last(other) == l + [x];
    LastFeasible(other, l, x);
    assert Last(Before(other)) == l;
    NoRoomMeansOneMore(items, chunks, Before(other), x);
  }

  lemma {:induction false} LastFeasible(other: seq<seq<Item>>, l: seq<Item>, x: Item)
    requires other != [] && Last(other) == l + [x] && forall c :: c in other ==> Feasible(c)
    ensures Feasible(l + [x])
  {
    assert Last(other) in other;
  }

  lemma {:induction false} NothingIsLeast()
    ensures IsCut([], []) && Eager([]) && Least([], [])
  {
  }

  function Cut(items: seq<Item>): seq<seq<Item>> {
    if items == [] then [] else Pushed(Cut(items[..|items| - 1]), items[|items| - 1])
  }

  lemma {:induction false} PushedIsAll(items: seq<Item>, chunks: seq<seq<Item>>)
    requires items != []
    requires IsCut(items[..|items| - 1], chunks) && Eager(chunks)
    ensures IsCut(items, Pushed(chunks, items[|items| - 1])) && Eager(Pushed(chunks, items[|items| - 1]))
  {
    var n := |items| - 1;
    assert items == items[..n] + [items[n]];
    PushedIsCut(items[..n], chunks, items[n]);
  }

  /** The chunks are the items in order, each one request can carry unless it is a single item, and no
      cut of the items has fewer. */
  lemma {:induction false} CutIsLeast(items: seq<Item>)
    ensures IsCut(items, Cut(items)) && Eager(Cut(items)) && Least(items, Cut(items))
  {
    NothingIsLeast();
    if items != [] {
      var n := |items| - 1;
      CutIsLeast(items[..n]);
      PushedIsAll(items, Cut(items[..n]));
      PushedIsLeast(items, Cut(items[..n]));
    }
  }

  /** Conversely taking each item while it fits is the only cut that is eager: where each chunk ends is
      settled by the items alone. */
  lemma {:induction false} EagerIsUnique(items: seq<Item>, chunks: seq<seq<Item>>)
    requires IsCut(items, chunks) && Eager(chunks)
    ensures chunks == Cut(items)
  {
    JoinedIsNotEmpty(chunks);
    if items != [] {
      var n := |items| - 1;
      assert items == items[..n] + [items[n]];
      WithoutLastItem(chunks, items[..n], items[n]);
      EagerWithout(chunks, Before(chunks));
      EagerIsUnique(items[..n], Before(chunks));
      EagerIsPushed(chunks, Before(chunks), items[n]);
    }
  }

  lemma {:induction false} JoinedIsNotEmpty(chunks: seq<seq<Item>>)
    requires forall c :: c in chunks ==> Feasible(c)
    ensures Joined(chunks) == [] <==> chunks == []
  {
    if chunks != [] {
      assert Last(chunks) in chunks;
    }
  }

  lemma {:induction false} EagerWithout(chunks: seq<seq<Item>>, before: seq<seq<Item>>)
    requires chunks != [] && Last(chunks) != [] && Eager(chunks) && before == Before(chunks)
    ensures Eager(before)
  {
    forall k | 0 < k < |before| ensures before[k] != [] && !Feasible(before[k - 1] + [before[k][0]]) {
      assert chunks[k] != [] && !Feasible(chunks[k - 1] + [chunks[k][0]]);
    }
  }

  lemma {:induction false} EagerIsPushed(chunks: seq<seq<Item>>, before: seq<seq<Item>>, x: Item)
    requires chunks != [] && Last(chunks) != [] && Eager(chunks) && forall c :: c in chunks ==> Feasible(c)
    requires Last(chunks)[|Last(chunks)| - 1] == x && before == Before(chunks)
    ensures chunks == Pushed(before, x)
  {
    var l := Last(chunks)[..|Last(chunks)| - 1];
    var rest := chunks[..|chunks| - 1];
    assert Last(chunks) == l + [x];
    assert chunks == rest + [l + [x]] && Last(chunks) in chunks;
    if l == [] {
      assert l + [x] == [x];
      if rest != [] {
        assert Last(rest) == chunks[|chunks| - 2] && Last(rest) in chunks;
        FullIsInfeasible(Last(rest), x);
      }
    } else {
      FullIsInfeasible(l, x);
      assert before[..|before| - 1] == rest;
    }
  }

  /** A size kept in a machine word that stops at `top`. */
  function SatAdd(a: nat, b: nat, top: nat): nat {
    if a + b <= top then a + b else top
  }

  method BatchChunks(items: seq<Item>, top: nat) returns (chunks: seq<seq<Item>>)
    requires top > MAX_SEALED_BATCH_BYTES
    ensures chunks == Cut(items)
    ensures IsCut(items, chunks) && Eager(chunks) && Least(items, chunks)
  {
    chunks := [];
    var size := FRAME_BYTES;
    for k := 0 to |items|
      invariant chunks == Cut(items[..k])
      invariant chunks != [] ==> size == SatAdd(Size(Last(chunks)), 0, top)
    {
      assert items[..k + 1][..k] == items[..k];
      chunks, size := Push(chunks, size, items[k], top);
    }
    assert items[..|items|] == items;
    CutIsLeast(items);
  }

  method Push(was: seq<seq<Item>>, sizeWas: nat, x: Item, top: nat) returns (chunks: seq<seq<Item>>, size: nat)
    requires top > MAX_SEALED_BATCH_BYTES
    requires was != [] ==> sizeWas == SatAdd(Size(Last(was)), 0, top)
    ensures chunks == Pushed(was, x)
    ensures chunks != [] ==> size == SatAdd(Size(Last(chunks)), 0, top)
  {
    chunks, size := was, sizeWas;
    var full := chunks == [] || |Last(chunks)| >= MAX_SEALED_BATCH_ITEMS || SatAdd(size, x.weight, top) > MAX_SEALED_BATCH_BYTES;
    if full {
      chunks := chunks + [[]];
      size := FRAME_BYTES;
    }
    size := SatAdd(size, x.weight, top);
    var last := Last(chunks);
    assert (last + [x])[..|last|] == last;
    chunks := chunks[..|chunks| - 1] + [last + [x]];
  }
}
