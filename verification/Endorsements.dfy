/** The endorsements of a group's members: the newest two of each, the expiration some of them have in
    common, and what waits to be checked again. */
module Endorsements {
  import opened Common

  const KEPT_PER_MEMBER: nat := 2
  const USABLE_MARGIN_SECS: nat := 10 * 60
  const PAGES_PER_READ: nat := 20

  datatype Held = Held(expiration: nat, token: string)

  /** An uploaded endorsement, sealed; only the pseudonym and the expiration can be read. */
  datatype Blob = Blob(pseudonym: string, expiration: nat, sealed: string)

  predicate SameKey(a: Blob, b: Blob) {
    a.pseudonym == b.pseudonym && a.expiration == b.expiration
  }

  // ----- keeping -----

  predicate Sorted(held: seq<Held>) {
    forall j, k :: 0 <= j < k < |held| ==> held[j].expiration < held[k].expiration
  }

  function Without(held: seq<Held>, expiration: nat): seq<Held> {
    if held == [] then []
    else
      var rest := Without(held[..|held| - 1], expiration);
      var last := held[|held| - 1];
      if last.expiration == expiration then rest else rest + [last]
  }

  /** `h` in its place among sorted ones. */
  function Inserted(held: seq<Held>, h: Held): seq<Held> {
    if held == [] then [h]
    else
      var last := held[|held| - 1];
      if last.expiration <= h.expiration then held + [h] else Inserted(held[..|held| - 1], h) + [last]
  }

  function Newest(held: seq<Held>): seq<Held> {
    if |held| > KEPT_PER_MEMBER then held[|held| - KEPT_PER_MEMBER..] else held
  }

  function Kept(held: seq<Held>, h: Held): seq<Held> {
    Newest(Inserted(Without(held, h.expiration), h))
  }

  function KeptAll(offers: seq<Held>): seq<Held> {
    if offers == [] then [] else Kept(KeptAll(offers[..|offers| - 1]), offers[|offers| - 1])
  }

  function Expirations(held: seq<Held>): set<nat> {
    set h | h in held :: h.expiration
  }

  /** The last offer of an expiration. */
  predicate IsLatest(offers: seq<Held>, h: Held) {
    exists k :: 0 <= k < |offers| && offers[k] == h && forall j :: k < j < |offers| ==> offers[j].expiration != h.expiration
  }

  lemma {:induction false} SortedPrefix(held: seq<Held>)
    requires Sorted(held) && held != []
    ensures var n := |held| - 1; Sorted(held[..n]) && forall h :: h in held[..n] ==> h.expiration < held[n].expiration
  {
  }

  lemma {:induction false} SortedMore(held: seq<Held>, last: Held)
    requires Sorted(held) && forall h :: h in held ==> h.expiration < last.expiration
    ensures Sorted(held + [last])
  {
    forall j | 0 <= j < |held| ensures held[j].expiration < last.expiration {
      assert held[j] in held;
    }
  }

  lemma {:induction false} WithoutIs(held: seq<Held>, expiration: nat)
    requires Sorted(held)
    ensures Sorted(Without(held, expiration))
    ensures forall h :: h in Without(held, expiration) <==> h in held && h.expiration != expiration
  {
    if held != [] {
      var n := |held| - 1;
      WithoutIs(held[..n], expiration);
      assert held == held[..n] + [held[n]];
      SortedPrefix(held);
      SortedMore(Without(held[..n], expiration), held[n]);
    }
  }

  lemma {:induction false} InsertedIs(held: seq<Held>, h: Held)
    requires Sorted(held) && forall o :: o in held ==> o.expiration != h.expiration
    ensures Sorted(Inserted(held, h)) && |Inserted(held, h)| == |held| + 1
    ensures forall o :: o in Inserted(held, h) <==> o in held || o == h
  {
    if held != [] {
      var n := |held| - 1;
      assert held == held[..n] + [held[n]] && held[n] in held;
      SortedPrefix(held);
      if held[n].expiration > h.expiration {
        InsertedIs(held[..n], h);
        SortedMore(Inserted(held[..n], h), held[n]);
      } else {
        assert forall o :: o in held ==> o.expiration <= held[n].expiration;
        SortedMore(held, h);
      }
    }
  }

  /** The newest two of what was offered: sorted, as many as there are up to two, all offered, and
      nothing else offered is newer. */
  predicate AreNewest(held: seq<Held>, offers: seq<Held>) {
    && Sorted(held) && |held| <= KEPT_PER_MEMBER
    && (forall h :: h in held ==> IsLatest(offers, h))
    && (forall o :: o in offers && o.expiration !in Expirations(held) ==>
         |held| == KEPT_PER_MEMBER && forall h :: h in held ==> o.expiration < h.expiration)
  }

  lemma {:induction false} LatestStays(offers: seq<Held>, h: Held, o: Held)
    requires IsLatest(offers, h) && o.expiration != h.expiration
    ensures IsLatest(offers + [o], h)
  {
    var k :| 0 <= k < |offers| && offers[k] == h && forall j :: k < j < |offers| ==> offers[j].expiration != h.expiration;
    assert (offers + [o])[k] == h;
  }

  lemma {:induction false} LastIsLatest(offers: seq<Held>, h: Held)
    ensures IsLatest(offers + [h], h)
  {
    assert (offers + [h])[|offers|] == h;
  }

  lemma {:induction false} KeptIsNewest(held: seq<Held>, offers: seq<Held>, h: Held)
    requires AreNewest(held, offers)
    ensures AreNewest(Kept(held, h), offers + [h])
  {
    var kept := Kept(held, h);
    AllIs(held, h);
    forall o | o in kept ensures IsLatest(offers + [h], o) {
      KeptIsLatest(held, offers, h, o);
    }
    forall o | o in offers + [h] && o.expiration !in Expirations(kept)
      ensures |kept| == KEPT_PER_MEMBER && forall k :: k in kept ==> o.expiration < k.expiration
    {
      DroppedIsOlder(held, offers, h, o);
    }
  }

  lemma {:induction false} KeptIsLatest(held: seq<Held>, offers: seq<Held>, h: Held, o: Held)
    requires AreNewest(held, offers) && o in Kept(held, h)
    ensures IsLatest(offers + [h], o)
  {
    AllIs(held, h);
    assert o in Inserted(Without(held, h.expiration), h);
    if o == h {
      LastIsLatest(offers, h);
    } else {
      LatestStays(offers, o, h);
    }
  }

  lemma {:induction false} WithoutLength(held: seq<Held>, expiration: nat)
    requires Sorted(held)
    ensures |Without(held, expiration)| == |held| - if expiration in Expirations(held) then 1 else 0
  {
    if held != [] {
      var n := |held| - 1;
      SortedPrefix(held);
      WithoutLength(held[..n], expiration);
      LastExpiration(held);
    }
  }

  lemma {:induction false} LastExpiration(held: seq<Held>)
    requires Sorted(held) && held != []
    ensures var n := |held| - 1;
            && Expirations(held) == Expirations(held[..n]) + {held[n].expiration}
            && held[n].expiration !in Expirations(held[..n])
  {
    var n := |held| - 1;
    assert held == held[..n] + [held[n]];
  }

  lemma {:induction false} DroppedIsOlder(held: seq<Held>, offers: seq<Held>, h: Held, o: Held)
    requires AreNewest(held, offers) && o in offers + [h] && o.expiration !in Expirations(Kept(held, h))
    ensures var kept := Kept(held, h); |kept| == KEPT_PER_MEMBER && forall k :: k in kept ==> o.expiration < k.expiration
  {
    var all := Inserted(Without(held, h.expiration), h);
    AllIs(held, h);
    if o.expiration in Expirations(all) {
      DroppedIsFirst(all, o.expiration);
    } else {
      assert o.expiration !in Expirations(held) && o != h;
      assert |held| == KEPT_PER_MEMBER && forall k :: k in held ==> o.expiration < k.expiration;
      assert forall k :: k in all && k != h ==> o.expiration < k.expiration;
      if h.expiration in Expirations(held) {
        assert |all| == 2 && Kept(held, h) == all;
      } else {
        assert |all| == 3 && Kept(held, h) == all[1..];
        NewerThanFirst(all, h, o.expiration);
      }
    }
  }

  /** What `h` is kept among: it, and the held ones of another expiration. */
  lemma {:induction false} AllIs(held: seq<Held>, h: Held)
    requires Sorted(held) && |held| <= KEPT_PER_MEMBER
    ensures var all := Inserted(Without(held, h.expiration), h);
            && Sorted(all) && |all| == |held| + (if h.expiration in Expirations(held) then 0 else 1)
            && (forall k :: k in all <==> k == h || (k in held && k.expiration != h.expiration))
            && Expirations(all) == Expirations(held) + {h.expiration}
            && Kept(held, h) == Newest(all)
  {
    WithoutIs(held, h.expiration);
    WithoutLength(held, h.expiration);
    InsertedIs(Without(held, h.expiration), h);
    var all := Inserted(Without(held, h.expiration), h);
    assert h in all;
    forall e | e in Expirations(held) ensures e in Expirations(all) {
      var k :| k in held && k.expiration == e;
      if e != h.expiration {
        assert k in all;
      }
    }
  }

  lemma {:induction false} DroppedIsFirst(all: seq<Held>, e: nat)
    requires Sorted(all) && |all| <= 3 && e in Expirations(all) && e !in Expirations(Newest(all))
    ensures |Newest(all)| == KEPT_PER_MEMBER && forall k :: k in Newest(all) ==> e < k.expiration
  {
    var i :| 0 <= i < |all| && all[i].expiration == e;
    assert all[i] in all;
    if |all| == 3 {
      assert Newest(all) == [all[1], all[2]];
      assert all[1] in Newest(all) && all[2] in Newest(all);
      assert i == 0;
    }
  }

  lemma {:induction false} NewerThanFirst(all: seq<Held>, h: Held, e: nat)
    requires Sorted(all) && |all| == 3 && forall k :: k in all && k != h ==> e < k.expiration
    ensures forall k :: k in all[1..] ==> e < k.expiration
  {
    assert all[0] in all && all[1] in all && all[2] in all;
    assert all[1..] == [all[1], all[2]];
  }

  /** Whatever is offered for a member, in whatever order: what is kept is exactly the newest two
      distinct expirations offered so far, each as it was last offered. */
  lemma {:induction false} NewestTwoAreKept(offers: seq<Held>)
    ensures AreNewest(KeptAll(offers), offers)
  {
    if offers != [] {
      var n := |offers| - 1;
      NewestTwoAreKept(offers[..n]);
      KeptIsNewest(KeptAll(offers[..n]), offers[..n], offers[n]);
      assert offers == offers[..n] + [offers[n]];
    }
  }

  // ----- reading the members' blobs -----

  datatype Item = Item(order: nat, blob: Blob)

  datatype Page = Page(items: seq<Item>, nextAfter: nat, more: bool) | PageRefused | PageFailed

  datatype Checked = Good(token: string) | Bad | NoAnswer

  /** What surrounds one read: the verified members by pseudonym, this account, the clock in seconds, each
      account's server, and what checking a blob comes to. */
  datatype Context = Context(members: map<string, string>, me: string, now: nat, server: string -> Option<string>, check: Blob -> Checked)

  /** What becomes of a blob once it is looked at. */
  datatype Fate = WasKept | WasRefused | NotAMembers | HasExpired | HeldAlready | Deferred

  datatype Entry = Entry(blob: Blob, fate: Fate)

  datatype Book = Book(after: nat, members: map<string, seq<Held>>, retry: seq<Blob>)

  function HeldBy(members: map<string, seq<Held>>, account: string): seq<Held> {
    if account in members then members[account] else []
  }

  predicate Usable(expiration: nat, now: nat) {
    expiration > Saturated(now + USABLE_MARGIN_SECS)
  }

  function Saturated(n: nat): nat {
    if n <= U64_MAX then n else U64_MAX
  }

  predicate UsableAt(members: map<string, seq<Held>>, account: string, expiration: nat, now: nat) {
    exists h :: h in HeldBy(members, account) && h.expiration == expiration && Usable(expiration, now)
  }

  function WithoutKey(retry: seq<Blob>, b: Blob): seq<Blob> {
    if retry == [] then []
    else
      var rest := WithoutKey(retry[..|retry| - 1], b);
      var last := retry[|retry| - 1];
      if SameKey(last, b) then rest else rest + [last]
  }

  function Defer(book: Book, b: Blob): Book {
    book.(retry := WithoutKey(book.retry, b) + [b])
  }

  function Keep(book: Book, account: string, h: Held): Book {
    book.(members := book.members[account := Kept(HeldBy(book.members, account), h)])
  }

  /** A read under way: the book, the servers found unreachable, and what became of each blob so far. */
  datatype Reading = Reading(book: Book, unreachable: set<string>, log: seq<Entry>)

  function Note(s: Reading, b: Blob, fate: Fate): Reading {
    s.(log := s.log + [Entry(b, fate)])
  }

  /** A member's blob, checked unless its server was found unreachable before in this read. */
  function CheckBlob(ctx: Context, s: Reading, account: string, b: Blob): Reading {
    var server := ctx.server(account);
    if server.None? then Note(s, b, WasRefused)
    else if server.value in s.unreachable then Note(s.(book := Defer(s.book, b)), b, Deferred)
    else
      match ctx.check(b)
      case Good(token) => Note(s.(book := Keep(s.book, account, Held(b.expiration, token))), b, WasKept)
      case Bad => Note(s, b, WasRefused)
      case NoAnswer => Note(s.(book := Defer(s.book, b), unreachable := s.unreachable + {server.value}), b, Deferred)
  }

  function RetryBlob(ctx: Context, s: Reading, b: Blob): Reading {
    if b.pseudonym !in ctx.members then Note(s, b, NotAMembers)
    else
      var account := ctx.members[b.pseudonym];
      if b.expiration <= ctx.now then Note(s, b, HasExpired)
      else if UsableAt(s.book.members, account, b.expiration, ctx.now) then Note(s, b, HeldAlready)
      else CheckBlob(ctx, s, account, b)
  }

  function TakeBlob(ctx: Context, s: Reading, b: Blob): Reading {
    if b.pseudonym !in ctx.members || ctx.members[b.pseudonym] == ctx.me then Note(s, b, NotAMembers)
    else CheckBlob(ctx, s, ctx.members[b.pseudonym], b)
  }

  function Advance(s: Reading, to: nat): Reading {
    s.(book := s.book.(after := if to > s.book.after then to else s.book.after))
  }

  function RetryAll(ctx: Context, s: Reading, blobs: seq<Blob>): Reading {
    if blobs == [] then s else RetryBlob(ctx, RetryAll(ctx, s, blobs[..|blobs| - 1]), blobs[|blobs| - 1])
  }

  function TakeItems(ctx: Context, s: Reading, items: seq<Item>): Reading {
    if items == [] then s
    else
      var last := items[|items| - 1];
      Advance(TakeBlob(ctx, TakeItems(ctx, s, items[..|items| - 1]), last.blob), last.order)
  }

  function Pruned(members: map<string, seq<Held>>, accounts: set<string>, now: nat): map<string, seq<Held>> {
    map a | a in members && a in accounts && Alive(members[a], now) != [] :: Alive(members[a], now)
  }

  function Alive(held: seq<Held>, now: nat): seq<Held> {
    if held == [] then []
    else
      var rest := Alive(held[..|held| - 1], now);
      if held[|held| - 1].expiration > now then rest + [held[|held| - 1]] else rest
  }

  predicate AllAlive(held: seq<Held>, now: nat) {
    forall h :: h in held ==> h.expiration > now
  }

  lemma {:induction false} AliveIs(held: seq<Held>, now: nat)
    ensures forall h :: h in Alive(held, now) <==> h in held && h.expiration > now
  {
    if held != [] {
      AliveIs(held[..|held| - 1], now);
      assert held == held[..|held| - 1] + [held[|held| - 1]];
    }
  }

  // ----- nothing is lost -----

  predicate OnRetry(book: Book, b: Blob) {
    exists r :: r in book.retry && SameKey(r, b)
  }

  predicate Settled(log: seq<Entry>, k: nat) {
    k < |log| && (log[k].fate != Deferred || exists j :: k < j < |log| && SameKey(log[j].blob, log[k].blob) && log[j].fate != Deferred)
  }

  predicate OncePerKey(retry: seq<Blob>) {
    forall j, k :: 0 <= j < k < |retry| ==> !SameKey(retry[j], retry[k])
  }

  /** Every blob ever looked at was decided, then or when one of its pseudonym and expiration was looked at
      later, or waits on the retry list, which has one blob for each such pair. */
  ghost predicate NothingLost(s: Reading) {
    && OncePerKey(s.book.retry)
    && forall k :: 0 <= k < |s.log| ==> Settled(s.log, k) || OnRetry(s.book, s.log[k].blob)
  }

  lemma {:induction false} WithoutKeyIs(retry: seq<Blob>, b: Blob)
    ensures forall r :: r in WithoutKey(retry, b) <==> r in retry && !SameKey(r, b)
    ensures OncePerKey(retry) ==> OncePerKey(WithoutKey(retry, b))
  {
    if retry != [] {
      var n := |retry| - 1;
      WithoutKeyIs(retry[..n], b);
      assert retry == retry[..n] + [retry[n]];
      if OncePerKey(retry) {
        forall r | r in WithoutKey(retry[..n], b) ensures !SameKey(r, retry[n]) {
          var k :| 0 <= k < n && retry[k] == r;
        }
      }
    }
  }

  lemma {:induction false} DeferKeeps(book: Book, b: Blob)
    requires OncePerKey(book.retry)
    ensures OncePerKey(Defer(book, b).retry) && OnRetry(Defer(book, b), b)
    ensures forall o :: OnRetry(book, o) ==> OnRetry(Defer(book, b), o)
  {
    WithoutKeyIs(book.retry, b);
    var retry := Defer(book, b).retry;
    assert retry[|retry| - 1] == b && SameKey(b, b);
    forall k | 0 <= k < |retry| - 1 ensures !SameKey(retry[k], b) {
      assert retry[k] in WithoutKey(book.retry, b);
    }
    forall o | OnRetry(book, o) ensures OnRetry(Defer(book, b), o) {
      var r :| r in book.retry && SameKey(r, o);
      if SameKey(r, b) {
        assert b in retry && SameKey(b, o);
      } else {
        assert r in retry;
      }
    }
  }

  lemma {:induction false} SettledStays(log: seq<Entry>, k: nat, e: Entry)
    requires Settled(log, k)
    ensures Settled(log + [e], k)
  {
    var log' := log + [e];
    assert log'[k] == log[k];
    if log[k].fate == Deferred {
      var j :| k < j < |log| && SameKey(log[j].blob, log[k].blob) && log[j].fate != Deferred;
      assert log'[j] == log[j];
    }
  }

  /** As NothingLost, while the blobs `left` have been taken off the list to be looked at again. */
  ghost predicate NothingLostBut(s: Reading, left: seq<Blob>) {
    OncePerKey(s.book.retry) && forall k :: 0 <= k < |s.log| ==> Found(s, left, k)
  }

  ghost predicate Found(s: Reading, left: seq<Blob>, k: nat)
    requires k < |s.log|
  {
    Settled(s.log, k) || OnRetry(s.book, s.log[k].blob) || exists b :: b in left && SameKey(b, s.log[k].blob)
  }

  /** Noting what became of a blob: decided, it settles what waited under its key; deferred, it is on the
      list. */
  lemma {:induction false} NoteKeeps(s: Reading, s': Reading, b: Blob, fate: Fate, left: seq<Blob>)
    requires NothingLostBut(s, [b] + left) && s'.log == s.log + [Entry(b, fate)]
    requires OncePerKey(s'.book.retry) && forall o :: OnRetry(s.book, o) ==> OnRetry(s'.book, o)
    requires fate == Deferred ==> OnRetry(s'.book, b)
    ensures NothingLostBut(s', left)
  {
    var n := |s.log|;
    forall k | 0 <= k < |s'.log| ensures Found(s', left, k) {
      if k == n {
        assert s'.log[n] == Entry(b, fate);
      } else {
        assert s'.log[k] == s.log[k];
        assert Found(s, [b] + left, k);
        if Settled(s.log, k) {
          SettledStays(s.log, k, Entry(b, fate));
        } else if SameKey(b, s.log[k].blob) {
          SameKeyFound(s', b, fate, k);
        }
      }
    }
  }

  lemma {:induction false} SameKeyFound(s: Reading, b: Blob, fate: Fate, k: nat)
    requires k < |s.log| - 1 && s.log[|s.log| - 1] == Entry(b, fate) && SameKey(b, s.log[k].blob)
    requires fate == Deferred ==> OnRetry(s.book, b)
    ensures Settled(s.log, k) || OnRetry(s.book, s.log[k].blob)
  {
    var j := |s.log| - 1;
    if fate == Deferred {
      var r :| r in s.book.retry && SameKey(r, b);
      assert SameKey(r, s.log[k].blob);
    } else {
      assert SameKey(s.log[j].blob, s.log[k].blob);
    }
  }

  lemma {:induction false} CheckKeeps(ctx: Context, s: Reading, account: string, b: Blob, left: seq<Blob>)
    requires NothingLostBut(s, [b] + left)
    ensures NothingLostBut(CheckBlob(ctx, s, account, b), left)
  {
    DeferKeeps(s.book, b);
    var s' := CheckBlob(ctx, s, account, b);
    NoteKeeps(s, s', b, s'.log[|s'.log| - 1].fate, left);
  }

  lemma {:induction false} RetryKeeps(ctx: Context, s: Reading, b: Blob, left: seq<Blob>)
    requires NothingLostBut(s, [b] + left)
    ensures NothingLostBut(RetryBlob(ctx, s, b), left)
  {
    var s' := RetryBlob(ctx, s, b);
    if b.pseudonym in ctx.members && s'.log[|s'.log| - 1].fate !in {HasExpired, HeldAlready} {
      CheckKeeps(ctx, s, ctx.members[b.pseudonym], b, left);
    }
    NoteKeeps(s, Note(s, b, NotAMembers), b, NotAMembers, left);
    NoteKeeps(s, Note(s, b, HasExpired), b, HasExpired, left);
    NoteKeeps(s, Note(s, b, HeldAlready), b, HeldAlready, left);
  }

  lemma {:induction false} TakeKeeps(ctx: Context, s: Reading, b: Blob)
    requires NothingLost(s)
    ensures NothingLost(TakeBlob(ctx, s, b))
  {
    forall k | 0 <= k < |s.log| ensures Found(s, [b], k) {
    }
    assert [b] + [] == [b];
    NoteKeeps(s, Note(s, b, NotAMembers), b, NotAMembers, []);
    if b.pseudonym in ctx.members {
      CheckKeeps(ctx, s, ctx.members[b.pseudonym], b, []);
    }
    var s' := TakeBlob(ctx, s, b);
    forall k | 0 <= k < |s'.log| ensures Settled(s'.log, k) || OnRetry(s'.book, s'.log[k].blob) {
      assert Found(s', [], k);
    }
  }

  lemma {:induction false} NoneLeft(s: Reading)
    requires NothingLostBut(s, [])
    ensures NothingLost(s)
  {
    forall k | 0 <= k < |s.log| ensures Settled(s.log, k) || OnRetry(s.book, s.log[k].blob) {
      assert Found(s, [], k);
    }
  }

  /** The blobs of the first pages were all looked at, in their order, and the cursor is past them. */
  ghost predicate PagesTaken(pages: nat -> Page, taken: nat, before: seq<Entry>, log: seq<Entry>, after: nat) {
    && before <= log
    && (forall p :: 0 <= p < taken ==> pages(p).Page? && pages(p).nextAfter <= after && AllLookedAt(pages(p).items, before, log, after))
  }

  ghost predicate AllLookedAt(items: seq<Item>, before: seq<Entry>, log: seq<Entry>, after: nat) {
    forall i :: i in items ==> i.order <= after && LookedAt(i.blob, before, log)
  }

  ghost predicate LookedAt(b: Blob, before: seq<Entry>, log: seq<Entry>) {
    exists k :: |before| <= k < |log| && log[k].blob == b
  }

  lemma {:induction false} StaysLookedAt(items: seq<Item>, before: seq<Entry>, log: seq<Entry>, longer: seq<Entry>, after: nat, later: nat)
    requires AllLookedAt(items, before, log, after) && log <= longer && after <= later
    ensures AllLookedAt(items, before, longer, later)
  {
    forall i | i in items ensures LookedAt(i.blob, before, longer) {
      assert LookedAt(i.blob, before, log);
      var k :| |before| <= k < |log| && log[k].blob == i.blob;
      assert longer[k] == log[k];
    }
  }

  lemma {:induction false} OnePageMore(pages: nat -> Page, taken: nat, first: seq<Entry>, s: Reading, log: seq<Entry>, after: nat)
    requires PagesTaken(pages, taken, first, s.log, s.book.after) && pages(taken).Page?
    requires s.log <= log && |log| == |s.log| + |pages(taken).items| && s.book.after <= after && pages(taken).nextAfter <= after
    requires forall k :: 0 <= k < |pages(taken).items| ==> log[|s.log| + k].blob == pages(taken).items[k].blob
    requires forall i :: i in pages(taken).items ==> i.order <= after
    ensures PagesTaken(pages, taken + 1, first, log, after)
  {
    forall p | 0 <= p < taken + 1 ensures pages(p).Page? && pages(p).nextAfter <= after && AllLookedAt(pages(p).items, first, log, after) {
      if p < taken {
        StaysLookedAt(pages(p).items, first, s.log, log, s.book.after, after);
      } else {
        forall i | i in pages(p).items ensures LookedAt(i.blob, first, log) {
          var k :| 0 <= k < |pages(p).items| && pages(p).items[k] == i;
          assert log[|s.log| + k].blob == i.blob;
        }
      }
    }
  }

  lemma {:induction false} TakenItems(ctx: Context, s: Reading, items: seq<Item>)
    ensures var s' := TakeItems(ctx, s, items);
            && s.log <= s'.log && |s'.log| == |s.log| + |items|
            && (forall k :: 0 <= k < |items| ==> s'.log[|s.log| + k].blob == items[k].blob)
            && s.book.after <= s'.book.after && forall i :: i in items ==> i.order <= s'.book.after
  {
    if items != [] {
      var n := |items| - 1;
      TakenItems(ctx, s, items[..n]);
      assert items == items[..n] + [items[n]];
      OneEntry(ctx, TakeItems(ctx, s, items[..n]), items[n].blob);
    }
  }

  lemma {:induction false} OneEntry(ctx: Context, s: Reading, b: Blob)
    ensures var s' := TakeBlob(ctx, s, b);
            |s'.log| == |s.log| + 1 && s.log <= s'.log && s'.log[|s.log|].blob == b && s'.book.after == s.book.after
    ensures var s' := RetryBlob(ctx, s, b);
            |s'.log| == |s.log| + 1 && s.log <= s'.log && s'.log[|s.log|].blob == b && s'.book.after == s.book.after
  {
  }

  lemma {:induction false} RetriedLog(ctx: Context, s: Reading, blobs: seq<Blob>)
    ensures s.log <= RetryAll(ctx, s, blobs).log
  {
    if blobs != [] {
      RetriedLog(ctx, s, blobs[..|blobs| - 1]);
      OneEntry(ctx, RetryAll(ctx, s, blobs[..|blobs| - 1]), blobs[|blobs| - 1]);
    }
  }

  // ----- one unreachable server -----

  /** The server a blob's member is at: none for a stranger's, or an account that names none. */
  function ServerOf(ctx: Context, b: Blob): Option<string> {
    if b.pseudonym in ctx.members then ctx.server(ctx.members[b.pseudonym]) else None
  }

  /** A blob that comes to a check: nobody else's, not this account's, not expired or already held. */
  predicate ToCheck(e: Entry) {
    e.fate in {WasKept, WasRefused, Deferred}
  }

  /** A blob to check, of `server`, whose check gets no answer. */
  predicate Silent(ctx: Context, e: Entry, server: string) {
    ToCheck(e) && ServerOf(ctx, e.blob) == Some(server) && ctx.check(e.blob) == NoAnswer
  }

  predicate SilentAmong(ctx: Context, log: seq<Entry>, from: nat, to: nat, server: string) {
    exists j :: from <= j < to <= |log| && Silent(ctx, log[j], server)
  }

  /** What becomes of the blob at `k`, of those to check since the read began at `from`. */
  predicate DecidedAt(ctx: Context, log: seq<Entry>, from: nat, k: nat)
    requires k < |log|
  {
    ToCheck(log[k]) ==>
      var server := ServerOf(ctx, log[k].blob);
      var silent := server.Some? && SilentAmong(ctx, log, from, k + 1, server.value);
      && (log[k].fate == Deferred <==> silent)
      && (log[k].fate == WasKept <==> !silent && server.Some? && ctx.check(log[k].blob).Good?)
  }

  /** Since the read began, a blob to check is put off exactly when a check of one of its server's blobs,
      it or one before it, gets no answer; and otherwise decided by its own check alone. */
  predicate EachDecided(ctx: Context, log: seq<Entry>, from: nat) {
    from <= |log| && forall k :: from <= k < |log| ==> DecidedAt(ctx, log, from, k)
  }

  /** The servers found unreachable are those of the checks without an answer. */
  ghost predicate SilenceKnown(ctx: Context, s: Reading, from: nat) {
    && EachDecided(ctx, s.log, from)
    && forall server :: server in s.unreachable <==> SilentAmong(ctx, s.log, from, |s.log|, server)
  }

  lemma {:induction false} OneMoreEntry(ctx: Context, log: seq<Entry>, e: Entry, from: nat)
    requires EachDecided(ctx, log, from)
    ensures forall k :: from <= k < |log| ==> DecidedAt(ctx, log + [e], from, k)
    ensures forall server :: SilentAmong(ctx, log + [e], from, |log| + 1, server)
                         <==> SilentAmong(ctx, log, from, |log|, server) || Silent(ctx, e, server)
  {
    var longer := log + [e];
    assert longer[|log|] == e;
    assert forall j :: 0 <= j < |log| ==> longer[j] == log[j];
    forall k | from <= k < |log| ensures DecidedAt(ctx, longer, from, k) {
      assert DecidedAt(ctx, log, from, k);
      var server := ServerOf(ctx, log[k].blob);
      if server.Some? {
        SamePrefix(ctx, log, e, from, k + 1, server.value);
      }
    }
    forall server ensures SilentAmong(ctx, longer, from, |log| + 1, server)
                     <==> SilentAmong(ctx, log, from, |log|, server) || Silent(ctx, e, server)
    {
      SamePrefix(ctx, log, e, from, |log|, server);
      if Silent(ctx, e, server) {
        assert Silent(ctx, longer[|log|], server);
      }
      if SilentAmong(ctx, longer, from, |log|, server) {
        var j :| from <= j < |log| && Silent(ctx, longer[j], server);
        assert j < |log| + 1 <= |longer|;
      }
    }
  }

  lemma {:induction false} SamePrefix(ctx: Context, log: seq<Entry>, e: Entry, from: nat, to: nat, server: string)
    requires to <= |log|
    ensures SilentAmong(ctx, log + [e], from, to, server) <==> SilentAmong(ctx, log, from, to, server)
  {
    var longer := log + [e];
    assert forall j :: 0 <= j < |log| ==> longer[j] == log[j];
    if SilentAmong(ctx, log, from, to, server) {
      var j :| from <= j < to && Silent(ctx, log[j], server);
      assert Silent(ctx, longer[j], server);
    }
    if SilentAmong(ctx, longer, from, to, server) {
      var j :| from <= j < to && Silent(ctx, longer[j], server);
      assert Silent(ctx, log[j], server);
    }
  }

  lemma {:induction false} NotedKeepsSilence(ctx: Context, s: Reading, b: Blob, fate: Fate, from: nat)
    requires SilenceKnown(ctx, s, from) && fate !in {WasKept, WasRefused, Deferred}
    ensures SilenceKnown(ctx, Note(s, b, fate), from)
  {
    OneMoreEntry(ctx, s.log, Entry(b, fate), from);
  }

  lemma {:induction false} CheckedKeepsSilence(ctx: Context, s: Reading, b: Blob, from: nat)
    requires SilenceKnown(ctx, s, from) && b.pseudonym in ctx.members
    ensures SilenceKnown(ctx, CheckBlob(ctx, s, ctx.members[b.pseudonym], b), from)
  {
    var s' := CheckBlob(ctx, s, ctx.members[b.pseudonym], b);
    var e := s'.log[|s.log|];
    assert s'.log == s.log + [e];
    OneMoreEntry(ctx, s.log, e, from);
    assert DecidedAt(ctx, s'.log, from, |s.log|);
  }

  lemma {:induction false} RetriedKeepsSilence(ctx: Context, s: Reading, blobs: seq<Blob>, from: nat)
    requires SilenceKnown(ctx, s, from)
    ensures SilenceKnown(ctx, RetryAll(ctx, s, blobs), from)
  {
    if blobs != [] {
      var n := |blobs| - 1;
      var b, t := blobs[n], RetryAll(ctx, s, blobs[..n]);
      RetriedKeepsSilence(ctx, s, blobs[..n], from);
      NotedKeepsSilence(ctx, t, b, NotAMembers, from);
      NotedKeepsSilence(ctx, t, b, HasExpired, from);
      NotedKeepsSilence(ctx, t, b, HeldAlready, from);
      if b.pseudonym in ctx.members {
        CheckedKeepsSilence(ctx, t, b, from);
      }
    }
  }

  lemma {:induction false} TakenKeepsSilence(ctx: Context, s: Reading, items: seq<Item>, from: nat)
    requires SilenceKnown(ctx, s, from)
    ensures SilenceKnown(ctx, TakeItems(ctx, s, items), from)
  {
    if items != [] {
      var n := |items| - 1;
      var b, t := items[n].blob, TakeItems(ctx, s, items[..n]);
      TakenKeepsSilence(ctx, s, items[..n], from);
      NotedKeepsSilence(ctx, t, b, NotAMembers, from);
      if b.pseudonym in ctx.members {
        CheckedKeepsSilence(ctx, t, b, from);
      }
    }
  }

  /** So no server's silence holds up another's: a read in which no check of a server's blobs goes without an
      answer puts none of them off. */
  lemma {:induction false} OnlyTheSilentAreDeferred(ctx: Context, log: seq<Entry>, from: nat, k: nat, server: string)
    requires EachDecided(ctx, log, from) && from <= k < |log| && ServerOf(ctx, log[k].blob) == Some(server)
    requires forall j :: from <= j < |log| && ServerOf(ctx, log[j].blob) == Some(server) ==> ctx.check(log[j].blob) != NoAnswer
    ensures log[k].fate != Deferred
  {
    assert DecidedAt(ctx, log, from, k);
  }

  /** The record's endorsements, as a read works on them. */
  class GroupEndorsements {
    var after: nat
    var members: map<string, seq<Held>>
    var retry: seq<Blob>
    var unreachable: set<string>
    /** What became of each blob looked at, which the record does not keep. */
    ghost var log: seq<Entry>

    constructor ()
      ensures Value() == Reading(Book(0, map[], []), {}, [])
    {
      after, members, retry, unreachable, log := 0, map[], [], {}, [];
    }

    ghost function Value(): Reading
      reads this
    {
      Reading(Book(after, members, retry), unreachable, log)
    }

    method KeepFor(account: string, h: Held)
      modifies this
      ensures Value() == old(Value()).(book := Keep(old(Value()).book, account, h))
    {
      var held := if account in members then members[account] else [];
      held := Without(held, h.expiration);
      held := Inserted(held, h);
      if |held| > KEPT_PER_MEMBER {
        held := held[|held| - KEPT_PER_MEMBER..];
      }
      members := members[account := held];
    }

    method DeferBlob(b: Blob)
      modifies this
      ensures Value() == old(Value()).(book := Defer(old(Value()).book, b))
    {
      var kept: seq<Blob> := [];
      for k := 0 to |retry|
        invariant kept == WithoutKey(retry[..k], b)
      {
        assert retry[..k + 1][..k] == retry[..k];
        if !SameKey(retry[k], b) {
          kept := kept + [retry[k]];
        }
      }
      assert retry[..|retry|] == retry;
      retry := kept + [b];
    }

    method Check(ctx: Context, account: string, b: Blob)
      modifies this
      ensures Value() == CheckBlob(ctx, old(Value()), account, b)
    {
      var server := ctx.server(account);
      ghost var fate := WasRefused;
      if server.Some? {
        if server.value in unreachable {
          DeferBlob(b);
          fate := Deferred;
        } else {
          match ctx.check(b) {
            case Good(token) =>
              KeepFor(account, Held(b.expiration, token));
              fate := WasKept;
            case Bad =>
            case NoAnswer =>
              unreachable := unreachable + {server.value};
              DeferBlob(b);
              fate := Deferred;
          }
        }
      }
      log := log + [Entry(b, fate)];
    }

    /** A read begins with what earlier ones put off, in its order. */
    method RetryDeferred(ctx: Context)
      requires NothingLost(Value())
      modifies this
      ensures Value() == RetryAll(ctx, old(Value()).(book := old(Value()).book.(retry := [])), old(retry))
      ensures NothingLost(Value()) && after == old(after) && old(log) <= log
    {
      var blobs := retry;
      retry := [];
      ghost var start := Value();
      forall k | 0 <= k < |log| ensures Found(start, blobs, k) {
      }
      assert blobs[0..] == blobs;
      for k := 0 to |blobs|
        invariant Value() == RetryAll(ctx, start, blobs[..k]) && after == old(after)
        invariant NothingLostBut(Value(), blobs[k..])
      {
        var b := blobs[k];
        assert blobs[..k + 1][..k] == blobs[..k];
        assert [b] + blobs[k + 1..] == blobs[k..];
        RetryKeeps(ctx, Value(), b, blobs[k + 1..]);
        RetryOne(ctx, b);
      }
      assert blobs[..|blobs|] == blobs && blobs[|blobs|..] == [];
      NoneLeft(Value());
      RetriedLog(ctx, start, blobs);
    }

    method RetryOne(ctx: Context, b: Blob)
      modifies this
      ensures Value() == RetryBlob(ctx, old(Value()), b) && after == old(after)
    {
      ghost var fate := NotAMembers;
      if b.pseudonym in ctx.members {
        var account := ctx.members[b.pseudonym];
        if b.expiration <= ctx.now {
          fate := HasExpired;
        } else if UsableAt(members, account, b.expiration, ctx.now) {
          fate := HeldAlready;
        } else {
          Check(ctx, account, b);
          return;
        }
      }
      log := log + [Entry(b, fate)];
    }

    /** One page's blobs in order, the cursor following. */
    method TakePage(ctx: Context, items: seq<Item>)
      requires NothingLost(Value())
      modifies this
      ensures Value() == TakeItems(ctx, old(Value()), items)
      ensures NothingLost(Value())
    {
      ghost var start := Value();
      for k := 0 to |items|
        invariant Value() == TakeItems(ctx, start, items[..k]) && NothingLost(Value())
      {
        assert items[..k + 1][..k] == items[..k];
        var b := items[k].blob;
        TakeKeeps(ctx, Value(), b);
        if b.pseudonym !in ctx.members || ctx.members[b.pseudonym] == ctx.me {
          log := log + [Entry(b, NotAMembers)];
        } else {
          Check(ctx, ctx.members[b.pseudonym], b);
        }
        after := if items[k].order > after then items[k].order else after;
      }
      assert items[..|items|] == items;
    }

    /** One read of a group's endorsements: what was deferred, then at most twenty pages. */
    method Read(ctx: Context, pages: nat -> Page) returns (done: bool, taken: nat)
      requires NothingLost(Value())
      modifies this
      ensures NothingLost(Value()) && taken <= PAGES_PER_READ
      ensures old(after) <= after && PagesTaken(pages, taken, old(log), log, after)
      ensures EachDecided(ctx, log, |old(log)|)
      ensures done ==> forall a :: a in members ==> a in ctx.members.Values && members[a] != [] && AllAlive(members[a], ctx.now)
    {
      unreachable, taken := {}, 0;
      ghost var from := Value().(book := Value().book.(retry := []));
      RetriedKeepsSilence(ctx, from, retry, |log|);
      RetryDeferred(ctx);
      while taken < PAGES_PER_READ
        invariant taken <= PAGES_PER_READ && NothingLost(Value()) && old(after) <= after
        invariant SilenceKnown(ctx, Value(), |old(log)|)
        invariant PagesTaken(pages, taken, old(log), log, after)
        decreases PAGES_PER_READ - taken
      {
        match pages(taken) {
          case PageRefused => break;
          case PageFailed => return false, taken;
          case Page(items, nextAfter, more) =>
            TakeWhole(ctx, items, nextAfter, pages, taken, old(log));
            taken := taken + 1;
            if !more {
              break;
            }
        }
      }
      Prune(ctx);
      done := true;
    }

    method TakeWhole(ctx: Context, items: seq<Item>, nextAfter: nat, ghost pages: nat -> Page, ghost taken: nat, ghost first: seq<Entry>)
      requires NothingLost(Value()) && PagesTaken(pages, taken, first, log, after)
      requires pages(taken).Page? && pages(taken).items == items && pages(taken).nextAfter == nextAfter
      requires SilenceKnown(ctx, Value(), |first|)
      modifies this
      ensures SilenceKnown(ctx, Value(), |first|)
      ensures NothingLost(Value()) && old(after) <= after && PagesTaken(pages, taken + 1, first, log, after)
    {
      ghost var s := Value();
      TakePage(ctx, items);
      TakenItems(ctx, s, items);
      TakenKeepsSilence(ctx, s, items, |first|);
      after := if nextAfter > after then nextAfter else after;
      OnePageMore(pages, taken, first, s, log, after);
    }

    method Prune(ctx: Context)
      modifies this`members
      ensures members == Pruned(old(members), ctx.members.Values, ctx.now)
      ensures forall a :: a in members ==> a in ctx.members.Values && members[a] != [] && AllAlive(members[a], ctx.now)
    {
      forall a | a in members ensures AllAlive(Alive(members[a], ctx.now), ctx.now) {
        AliveIs(members[a], ctx.now);
      }
      members := map a | a in members && a in ctx.members.Values && Alive(members[a], ctx.now) != [] :: Alive(members[a], ctx.now);
    }

    /** A refused token's endorsement goes. */
    method Forget(account: string, expiration: nat)
      modifies this`members
      ensures members == if account !in old(members) then old(members)
                         else if Without(old(members)[account], expiration) == [] then old(members) - {account}
                         else old(members)[account := Without(old(members)[account], expiration)]
    {
      if account in members {
        var held := Without(members[account], expiration);
        members := members[account := held];
        if held == [] {
          members := members - {account};
        }
      }
    }

    /** What one request for all of `accounts` can use: the greatest of the usable expirations common to
        them, and none when there is none. */
    method SharedExpiration(accounts: seq<string>, now: nat) returns (shared: Option<nat>)
      ensures shared.Some? ==> AllHold(members, accounts, shared.value, now) && accounts != []
      ensures forall e: nat :: accounts != [] && AllHold(members, accounts, e, now) ==> shared.Some? && e <= shared.value
    {
      if accounts == [] {
        return None;
      }
      var common := UsableOf(members, accounts[0], now);
      for k := 1 to |accounts|
        invariant forall e: nat :: e in common <==> AllHold(members, accounts[..k], e, now)
      {
        assert accounts[..k + 1] == accounts[..k] + [accounts[k]];
        var held := UsableOf(members, accounts[k], now);
        common := common * held;
      }
      assert accounts[..|accounts|] == accounts;
      shared := Greatest(common);
    }
  }

  predicate AllHold(members: map<string, seq<Held>>, accounts: seq<string>, e: nat, now: nat) {
    forall a :: a in accounts ==> UsableAt(members, a, e, now)
  }

  /** The usable expirations an account holds. */
  function UsableOf(members: map<string, seq<Held>>, account: string, now: nat): (usable: set<nat>)
    ensures forall e: nat :: e in usable <==> UsableAt(members, account, e, now)
  {
    set h | h in HeldBy(members, account) && Usable(h.expiration, now) :: h.expiration
  }

  method Greatest(of: set<nat>) returns (g: Option<nat>)
    ensures g.None? <==> of == {}
    ensures g.Some? ==> g.value in of && forall e :: e in of ==> e <= g.value
  {
    g := None;
    var rest := of;
    while rest != {}
      invariant rest <= of && (g.None? <==> rest == of)
      invariant g.Some? ==> g.value in of && forall e :: e in of && e !in rest ==> e <= g.value
      decreases rest
    {
      var e :| e in rest;
      g := if g.None? || e > g.value then Some(e) else g;
      rest := rest - {e};
    }
  }

  // ----- what is held -----

  predicate NewestKept(held: seq<Held>) {
    Sorted(held) && |held| <= KEPT_PER_MEMBER
  }

  lemma {:induction false} KeptOrOlder(was: seq<Held>, h: Held)
    requires NewestKept(was)
    ensures var held := Kept(was, h);
            NewestKept(held) && (h in held || (|held| == KEPT_PER_MEMBER && forall o :: o in held ==> h.expiration < o.expiration))
  {
    forall o | o in was ensures IsLatest(was, o) {
      var k :| 0 <= k < |was| && was[k] == o;
    }
    KeptIsNewest(was, was, h);
    assert (was + [h])[|was|] == h;
    if h.expiration in Expirations(Kept(was, h)) {
      var k :| k in Kept(was, h) && k.expiration == h.expiration;
      AllIs(was, h);
      assert k in Inserted(Without(was, h.expiration), h);
    }
  }

  /** A blob that checks out is held by its member from then on, unless two newer ones are. */
  lemma {:induction false} GoodIsHeld(ctx: Context, s: Reading, b: Blob, account: string, server: string)
    requires b.pseudonym in ctx.members && ctx.members[b.pseudonym] == account != ctx.me && ctx.server(account) == Some(server)
    requires server !in s.unreachable && ctx.check(b).Good? && NewestKept(HeldBy(s.book.members, account))
    ensures var held := HeldBy(TakeBlob(ctx, s, b).book.members, account);
            && NewestKept(held)
            && (Held(b.expiration, ctx.check(b).token) in held
                || (|held| == KEPT_PER_MEMBER && forall h :: h in held ==> b.expiration < h.expiration))
  {
    var was := HeldBy(s.book.members, account);
    var h := Held(b.expiration, ctx.check(b).token);
    KeptOrOlder(was, h);
    assert TakeBlob(ctx, s, b).book.members[account] == Kept(was, h);
  }
}
