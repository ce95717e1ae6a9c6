/** The outbox of messages to single accounts: passes that keep each account's in order. */
module Outbox {
  import opened Common

  const TYPING_USEFUL_MS: int := 10_000
  const CALL_USEFUL_MS: int := 60_000

  /** What an entry carries: a message, or a control that may go without it. */
  datatype Kind = Ordinary | Typing | Call | Receipt | SessionControl | Resend

  datatype Entry = Entry(id: string, peer: string, kind: Kind, createdAt: int)

  predicate Optional(e: Entry) {
    e.kind != Ordinary
  }

  /** A typing notice or call signal too old to mean anything to whoever gets it. */
  predicate Expired(e: Entry, now: int) {
    || (e.kind == Typing && SaturatingSub(now, e.createdAt) > TYPING_USEFUL_MS)
    || (e.kind == Call && SaturatingSub(now, e.createdAt) > CALL_USEFUL_MS)
  }

  /** A pass under way: what stays queued, what was tried, delivered, failed, and who is waited for. */
  datatype Flush = Flush(left: seq<Entry>, tried: seq<Entry>, delivered: seq<Entry>, failed: seq<Entry>, waiting: set<string>)

  const START: Flush := Flush([], [], [], [], {})

  function Visit(f: Flush, e: Entry, now: int, works: string -> bool): Flush {
    if Expired(e, now) then f
    else if !Optional(e) && e.peer in f.waiting then f.(left := f.left + [e])
    else if works(e.id) then f.(tried := f.tried + [e], delivered := f.delivered + [e])
    else
      var kept := f.(left := f.left + [e], tried := f.tried + [e]);
      if Optional(e) then kept else kept.(failed := f.failed + [e], waiting := f.waiting + {e.peer})
  }

  function Pass(queue: seq<Entry>, now: int, works: string -> bool): Flush {
    if queue == [] then START
    else Visit(Pass(queue[..|queue| - 1], now, works), queue[|queue| - 1], now, works)
  }

  /** The messages among `entries` for one account, in order. */
  function MessagesTo(peer: string, entries: seq<Entry>): seq<Entry> {
    if entries == [] then []
    else
      var rest := MessagesTo(peer, entries[..|entries| - 1]);
      var last := entries[|entries| - 1];
      if last.peer == peer && !Optional(last) then rest + [last] else rest
  }

  lemma {:induction false} MessagesToMore(peer: string, entries: seq<Entry>, e: Entry)
    ensures MessagesTo(peer, entries + [e]) ==
            if e.peer == peer && !Optional(e) then MessagesTo(peer, entries) + [e] else MessagesTo(peer, entries)
  {
    assert (entries + [e])[..|entries|] == entries;
  }

  lemma {:induction false} Joined(a: seq<Entry>, b: seq<Entry>, c: seq<Entry>)
    ensures (a + b) + c == a + (b + c)
  {
  }

  lemma {:induction false} MessagesToAll(peer: string, a: seq<Entry>, b: seq<Entry>)
    ensures MessagesTo(peer, a + b) == MessagesTo(peer, a) + MessagesTo(peer, b)
  {
    if b == [] {
      assert a + b == a;
    } else {
      var n := |b| - 1;
      MessagesToAll(peer, a, b[..n]);
      assert b == b[..n] + [b[n]];
      Joined(a, b[..n], [b[n]]);
      MessagesToMore(peer, a + b[..n], b[n]);
      Joined(MessagesTo(peer, a), MessagesTo(peer, b[..n]), [b[n]]);
    }
  }

  class MessageOutbox {
    var queue: seq<Entry>

    constructor ()
      ensures queue == []
    {
      queue := [];
    }

    /** Tries every entry once, in order: a message that fails holds up the later ones to its account,
        and nothing else. */
    method FlushOutbox(now: int, works: string -> bool) returns (f: Flush)
      modifies this
      ensures f == Pass(old(queue), now, works) && queue == f.left
    {
      var left, tried, delivered, failed: seq<Entry> := [], [], [], [];
      var waiting := {};
      for k := 0 to |queue|
        invariant Flush(left, tried, delivered, failed, waiting) == Pass(queue[..k], now, works)
      {
        assert queue[..k + 1][..k] == queue[..k];
        var e := queue[k];
        if Expired(e, now) {
          continue;
        }
        if !Optional(e) && e.peer in waiting {
          left := left + [e];
          continue;
        }
        tried := tried + [e];
        if works(e.id) {
          delivered := delivered + [e];
        } else {
          left := left + [e];
          if !Optional(e) {
            waiting := waiting + {e.peer};
            failed := failed + [e];
          }
        }
      }
      assert queue[..|queue|] == queue;
      queue := left;
      f := Flush(left, tried, delivered, failed, waiting);
    }
  }

  // ----- what a pass does for one account -----

  /** One account's messages in a pass: those delivered come first in the queue, at most one failed, the
      one after them, and what is left is the rest of the queue. */
  ghost predicate InOrder(peer: string, queue: seq<Entry>, f: Flush) {
    Ordered(MessagesTo(peer, queue), MessagesTo(peer, f.delivered), MessagesTo(peer, f.failed), MessagesTo(peer, f.left),
            MessagesTo(peer, f.tried), peer in f.waiting)
  }

  predicate Ordered(queue: seq<Entry>, delivered: seq<Entry>, failed: seq<Entry>, left: seq<Entry>, tried: seq<Entry>, waits: bool) {
    && queue == delivered + left
    && tried == delivered + failed
    && failed <= left && |failed| <= 1
    && (failed != [] <==> waits)
    && (failed == [] ==> left == [])
  }

  lemma {:induction false} OrderedMore(queue: seq<Entry>, delivered: seq<Entry>, failed: seq<Entry>, left: seq<Entry>, tried: seq<Entry>, waits: bool, e: Entry)
    requires Ordered(queue, delivered, failed, left, tried, waits)
    ensures waits ==> Ordered(queue + [e], delivered, failed, left + [e], tried, waits)
    ensures !waits ==> Ordered(queue + [e], delivered + [e], failed, left, tried + [e], waits)
    ensures !waits ==> Ordered(queue + [e], delivered, failed + [e], left + [e], tried + [e], true)
  {
    assert queue + [e] == delivered + (left + [e]);
    if !waits {
      assert left == [] && failed == [] && queue == delivered == tried;
      assert queue + [e] == (delivered + [e]) + left;
      assert tried + [e] == (delivered + [e]) + failed == delivered + (failed + [e]);
    }
  }

  predicate IsMessageTo(peer: string, e: Entry) {
    e.peer == peer && !Optional(e)
  }

  lemma {:induction false} OthersDoNotMatter(peer: string, f: Flush, e: Entry, now: int, works: string -> bool)
    requires !IsMessageTo(peer, e)
    ensures var v := Visit(f, e, now, works);
            && MessagesTo(peer, v.left) == MessagesTo(peer, f.left) && MessagesTo(peer, v.tried) == MessagesTo(peer, f.tried)
            && MessagesTo(peer, v.delivered) == MessagesTo(peer, f.delivered)
            && MessagesTo(peer, v.failed) == MessagesTo(peer, f.failed)
            && (peer in v.waiting <==> peer in f.waiting)
  {
    if !Expired(e, now) && (Optional(e) || e.peer !in f.waiting) {
      MessagesToMore(peer, f.tried, e);
      if works(e.id) {
        MessagesToMore(peer, f.delivered, e);
      } else {
        MessagesToMore(peer, f.left, e);
        MessagesToMore(peer, f.failed, e);
      }
    } else {
      MessagesToMore(peer, f.left, e);
    }
  }

  lemma {:induction false} MessageVisited(peer: string, f: Flush, e: Entry, now: int, works: string -> bool)
    requires IsMessageTo(peer, e)
    ensures var v := Visit(f, e, now, works);
            var (left, tried, delivered, failed) :=
              (MessagesTo(peer, f.left), MessagesTo(peer, f.tried), MessagesTo(peer, f.delivered), MessagesTo(peer, f.failed));
            var visited := (MessagesTo(peer, v.left), MessagesTo(peer, v.tried), MessagesTo(peer, v.delivered), MessagesTo(peer, v.failed));
            if peer in f.waiting then visited == (left + [e], tried, delivered, failed) && peer in v.waiting
            else if works(e.id) then visited == (left, tried + [e], delivered + [e], failed) && peer !in v.waiting
            else visited == (left + [e], tried + [e], delivered, failed + [e]) && peer in v.waiting
  {
    MessagesToMore(peer, f.left, e);
    MessagesToMore(peer, f.tried, e);
    MessagesToMore(peer, f.delivered, e);
    MessagesToMore(peer, f.failed, e);
  }

  lemma {:induction false} VisitKeepsOrder(peer: string, queue: seq<Entry>, f: Flush, e: Entry, now: int, works: string -> bool)
    requires InOrder(peer, queue, f)
    ensures InOrder(peer, queue + [e], Visit(f, e, now, works))
  {
    MessagesToMore(peer, queue, e);
    if IsMessageTo(peer, e) {
      MessageVisited(peer, f, e, now, works);
      OrderedMore(MessagesTo(peer, queue), MessagesTo(peer, f.delivered), MessagesTo(peer, f.failed), MessagesTo(peer, f.left),
                  MessagesTo(peer, f.tried), peer in f.waiting, e);
    } else {
      OthersDoNotMatter(peer, f, e, now, works);
    }
  }

  /** In every pass the messages tried for an account are the first of its queue, all delivered but
      perhaps the last, whatever fails for others and whatever controls are queued between. */
  lemma {:induction false} PassKeepsOrder(peer: string, queue: seq<Entry>, now: int, works: string -> bool)
    ensures InOrder(peer, queue, Pass(queue, now, works))
  {
    if queue != [] {
      var n := |queue| - 1;
      PassKeepsOrder(peer, queue[..n], now, works);
      VisitKeepsOrder(peer, queue[..n], Pass(queue[..n], now, works), queue[n], now, works);
      assert queue == queue[..n] + [queue[n]];
    }
  }

  /** An earlier message to the same account has failed in this pass. */
  predicate BehindAFailure(queue: seq<Entry>, k: nat, works: string -> bool)
    requires k < |queue|
  {
    exists j :: 0 <= j < k && queue[j].peer == queue[k].peer && !Optional(queue[j]) && !works(queue[j].id)
  }

  lemma {:induction false} WaitingExactly(queue: seq<Entry>, now: int, works: string -> bool)
    ensures forall peer :: peer in Pass(queue, now, works).waiting <==>
      exists j :: 0 <= j < |queue| && queue[j].peer == peer && !Optional(queue[j]) && !works(queue[j].id)
  {
    if queue != [] {
      var n := |queue| - 1;
      WaitingExactly(queue[..n], now, works);
      var before := Pass(queue[..n], now, works);
      forall peer ensures peer in Pass(queue, now, works).waiting <==>
          exists j :: 0 <= j < |queue| && queue[j].peer == peer && !Optional(queue[j]) && !works(queue[j].id)
      {
        if peer in before.waiting {
          var j :| 0 <= j < n && queue[..n][j].peer == peer && !Optional(queue[..n][j]) && !works(queue[..n][j].id);
          assert queue[j] == queue[..n][j];
        }
        if exists j :: 0 <= j < |queue| && queue[j].peer == peer && !Optional(queue[j]) && !works(queue[j].id) {
          var j :| 0 <= j < |queue| && queue[j].peer == peer && !Optional(queue[j]) && !works(queue[j].id);
          if j < n {
            assert queue[..n][j] == queue[j];
          }
        }
      }
    }
  }

  /** Exactly which entries a pass tries: every one but a late signal, and a message behind one to the
      same account that failed. A control is never held up, and another account's failure never counts. */
  lemma {:induction false} TriedExactly(queue: seq<Entry>, now: int, works: string -> bool, k: nat)
    requires k < |queue|
    ensures var before := Pass(queue[..k], now, works);
            var after := Pass(queue[..k + 1], now, works);
            after.tried == if Expired(queue[k], now) || (!Optional(queue[k]) && BehindAFailure(queue, k, works))
                           then before.tried else before.tried + [queue[k]]
  {
    WaitingExactly(queue[..k], now, works);
    assert queue[..k + 1][..k] == queue[..k];
    var e := queue[k];
    assert e.peer in Pass(queue[..k], now, works).waiting <==> BehindAFailure(queue, k, works) by {
      if BehindAFailure(queue, k, works) {
        var j :| 0 <= j < k && queue[j].peer == e.peer && !Optional(queue[j]) && !works(queue[j].id);
        assert queue[..k][j] == queue[j];
      }
    }
  }

  // ----- over many passes -----

  datatype Event =
    | Queue(e: Entry)                              // written to the outbox, to go with a later pass
    | Flushed(now: int, works: string -> bool)
    | SendNow(e: Entry, goes: bool)                // written, and tried at once

  /** The queue, and everything delivered so far. */
  datatype World = World(queue: seq<Entry>, log: seq<Entry>)

  function Next(w: World, ev: Event): World {
    match ev
    case Queue(e) => w.(queue := w.queue + [e])
    case Flushed(now, works) => World(Pass(w.queue, now, works).left, w.log + Pass(w.queue, now, works).delivered)
    case SendNow(e, goes) => if goes then w.(log := w.log + [e]) else w.(queue := w.queue + [e])
  }

  function Written(es: seq<Event>): seq<Entry> {
    if es == [] then []
    else
      var rest := Written(es[..|es| - 1]);
      match es[|es| - 1]
      case Queue(e) => rest + [e]
      case Flushed(_, _) => rest
      case SendNow(e, _) => rest + [e]
  }

  ghost predicate Run(ws: seq<World>, es: seq<Event>) {
    && |ws| == |es| + 1
    && ws[0] == World([], [])
    && forall k :: 0 <= k < |es| ==> StepAt(ws, es, k)
  }

  predicate StepAt(ws: seq<World>, es: seq<Event>, k: nat)
    requires k < |es| && |ws| == |es| + 1
  {
    ws[k + 1] == Next(ws[k], es[k])
  }

  /** An event sends a message past one to the same account that waits. */
  predicate Overtakes(w: World, ev: Event, peer: string) {
    ev.SendNow? && ev.goes && ev.e.peer == peer && !Optional(ev.e) && MessagesTo(peer, w.queue) != []
  }

  /** One account's messages delivered and still queued are, together and in order, what was written. */
  predicate OrderKept(w: World, written: seq<Entry>, peer: string) {
    MessagesTo(peer, w.log) + MessagesTo(peer, w.queue) == MessagesTo(peer, written)
  }

  lemma {:induction false} EventKeepsOrder(w: World, ev: Event, peer: string, written: seq<Entry>)
    requires OrderKept(w, written, peer) && !Overtakes(w, ev, peer)
    ensures OrderKept(Next(w, ev), if ev.Flushed? then written else written + [ev.e], peer)
  {
    match ev {
      case Queue(e) => WritingKeepsOrder(peer, w.log, w.queue, written, e);
      case SendNow(e, goes) =>
        if goes {
          SendingKeepsOrder(peer, w.log, w.queue, written, e);
        } else {
          WritingKeepsOrder(peer, w.log, w.queue, written, e);
        }
      case Flushed(now, works) =>
        var f := Pass(w.queue, now, works);
        PassKeepsOrder(peer, w.queue, now, works);
        MessagesToAll(peer, w.log, f.delivered);
        Joined(MessagesTo(peer, w.log), MessagesTo(peer, f.delivered), MessagesTo(peer, f.left));
    }
  }

  lemma {:induction false} WritingKeepsOrder(peer: string, log: seq<Entry>, queue: seq<Entry>, written: seq<Entry>, e: Entry)
    requires MessagesTo(peer, log) + MessagesTo(peer, queue) == MessagesTo(peer, written)
    ensures MessagesTo(peer, log) + MessagesTo(peer, queue + [e]) == MessagesTo(peer, written + [e])
  {
    MessagesToMore(peer, queue, e);
    MessagesToMore(peer, written, e);
    if IsMessageTo(peer, e) {
      Joined(MessagesTo(peer, log), MessagesTo(peer, queue), [e]);
    }
  }

  lemma {:induction false} SendingKeepsOrder(peer: string, log: seq<Entry>, queue: seq<Entry>, written: seq<Entry>, e: Entry)
    requires MessagesTo(peer, log) + MessagesTo(peer, queue) == MessagesTo(peer, written)
    requires IsMessageTo(peer, e) ==> MessagesTo(peer, queue) == []
    ensures MessagesTo(peer, log + [e]) + MessagesTo(peer, queue) == MessagesTo(peer, written + [e])
  {
    MessagesToMore(peer, log, e);
    MessagesToMore(peer, written, e);
  }

  lemma {:induction false} WrittenMore(es: seq<Event>, k: nat)
    requires k < |es|
    ensures Written(es[..k + 1]) == if es[k].Flushed? then Written(es[..k]) else Written(es[..k]) + [es[k].e]
  {
    assert es[..k + 1][..k] == es[..k];
  }

  lemma {:induction false} StepKeepsOrder(ws: seq<World>, es: seq<Event>, peer: string, k: nat)
    requires Run(ws, es) && k < |es| && OrderKept(ws[k], Written(es[..k]), peer) && !Overtakes(ws[k], es[k], peer)
    ensures OrderKept(ws[k + 1], Written(es[..k + 1]), peer)
  {
    assert StepAt(ws, es, k);
    WrittenMore(es, k);
    EventKeepsOrder(ws[k], es[k], peer, Written(es[..k]));
  }

  /** Over any run in which no message is sent past one that waits, each account's messages are delivered in
      the order they were written, each once, and none is lost. */
  lemma {:induction false} DeliveredInOrder(ws: seq<World>, es: seq<Event>, peer: string, n: nat)
    requires Run(ws, es) && n <= |es| && forall k :: 0 <= k < n ==> !Overtakes(ws[k], es[k], peer)
    ensures OrderKept(ws[n], Written(es[..n]), peer)
  {
    if n > 0 {
      DeliveredInOrder(ws, es, peer, n - 1);
      StepKeepsOrder(ws, es, peer, n - 1);
    } else {
      assert es[..0] == [];
    }
  }

  // ----- when the order is lost -----

  /** `x` is somewhere before `y`. */
  predicate Before(entries: seq<Entry>, x: Entry, y: Entry) {
    exists i, j :: 0 <= i < j < |entries| && entries[i] == x && entries[j] == y
  }

  predicate Distinct(entries: seq<Entry>) {
    forall i, j :: 0 <= i < j < |entries| ==> entries[i] != entries[j]
  }

  lemma {:induction false} OneWayOnly(entries: seq<Entry>, x: Entry, y: Entry)
    requires Distinct(entries) && Before(entries, x, y)
    ensures !Before(entries, y, x)
  {
  }

  lemma {:induction false} BeforeInLonger(a: seq<Entry>, b: seq<Entry>, x: Entry, y: Entry)
    requires Before(a, x, y)
    ensures Before(a + b, x, y)
  {
    var i, j :| 0 <= i < j < |a| && a[i] == x && a[j] == y;
    assert (a + b)[i] == x && (a + b)[j] == y;
  }

  lemma {:induction false} MessagesAreEntries(peer: string, entries: seq<Entry>)
    ensures forall e :: e in MessagesTo(peer, entries) <==> e in entries && IsMessageTo(peer, e)
    ensures Distinct(entries) ==> Distinct(MessagesTo(peer, entries))
  {
    if entries != [] {
      var n := |entries| - 1;
      MessagesAreEntries(peer, entries[..n]);
      assert entries == entries[..n] + [entries[n]];
      if Distinct(entries) {
        assert entries[n] !in entries[..n];
      }
    }
  }

  /** `y` was delivered, and `x`, written before it, was not by then: it waits, or came after. */
  predicate Overtaken(w: World, peer: string, x: Entry, y: Entry) {
    Before(MessagesTo(peer, w.log) + MessagesTo(peer, w.queue), y, x) && y in MessagesTo(peer, w.log)
  }

  lemma {:induction false} LaterIsAfter(a: seq<Entry>, b: seq<Entry>, y: Entry, x: Entry)
    requires y in a && x in b
    ensures Before(a + b, y, x)
  {
    var i :| 0 <= i < |a| && a[i] == y;
    var j :| 0 <= j < |b| && b[j] == x;
    assert (a + b)[i] == y && (a + b)[|a| + j] == x;
  }

  /** Once overtaken, always: what is delivered stays before what is not. */
  lemma {:induction false} StaysOvertaken(w: World, ev: Event, peer: string, x: Entry, y: Entry)
    requires Overtaken(w, peer, x, y)
    ensures Overtaken(Next(w, ev), peer, x, y)
  {
    var (log, queue) := (MessagesTo(peer, w.log), MessagesTo(peer, w.queue));
    match ev {
      case Queue(e) =>
        MessagesToMore(peer, w.queue, e);
        BeforeInLonger(log + queue, MessagesTo(peer, [e]), y, x);
        MessagesToAll(peer, w.queue, [e]);
        Joined(log, queue, MessagesTo(peer, [e]));
      case Flushed(now, works) =>
        var f := Pass(w.queue, now, works);
        PassKeepsOrder(peer, w.queue, now, works);
        MessagesToAll(peer, w.log, f.delivered);
        Joined(log, MessagesTo(peer, f.delivered), MessagesTo(peer, f.left));
      case SendNow(e, goes) =>
        MessagesToAll(peer, w.log, [e]);
        MessagesToAll(peer, w.queue, [e]);
        if goes {
          StaysInLonger(log, queue, MessagesTo(peer, [e]), y, x);
        } else {
          BeforeInLonger(log + queue, MessagesTo(peer, [e]), y, x);
          Joined(log, queue, MessagesTo(peer, [e]));
        }
    }
  }

  lemma {:induction false} StaysInLonger(a: seq<Entry>, b: seq<Entry>, more: seq<Entry>, y: Entry, x: Entry)
    requires Before(a + b, y, x)
    ensures Before(a + more + b, y, x)
  {
    var i, j :| 0 <= i < j < |a + b| && (a + b)[i] == y && (a + b)[j] == x;
    var (i', j') := (if i < |a| then i else i + |more|, if j < |a| then j else j + |more|);
    assert (a + more + b)[i'] == y && (a + more + b)[j'] == x;
  }

  /** What was written before stays before. */
  lemma {:induction false} WrittenGrows(es: seq<Event>, m: nat, n: nat, peer: string, x: Entry, y: Entry)
    requires m <= n <= |es| && Before(MessagesTo(peer, Written(es[..m])), x, y)
    ensures Before(MessagesTo(peer, Written(es[..n])), x, y)
  {
    if m < n {
      WrittenGrows(es, m, n - 1, peer, x, y);
      assert es[..n][..n - 1] == es[..n - 1];
      var before := Written(es[..n - 1]);
      var more := if es[n - 1].Flushed? then [] else [es[n - 1].e];
      assert Written(es[..n]) == before + more;
      MessagesToAll(peer, before, more);
      BeforeInLonger(MessagesTo(peer, before), MessagesTo(peer, more), x, y);
    }
  }

  lemma {:induction false} OvertakenUntil(ws: seq<World>, es: seq<Event>, m: nat, n: nat, peer: string, x: Entry, y: Entry)
    requires Run(ws, es) && m <= n <= |es| && Overtaken(ws[m], peer, x, y)
    ensures Overtaken(ws[n], peer, x, y)
  {
    if m < n {
      OvertakenUntil(ws, es, m, n - 1, peer, x, y);
      assert StepAt(ws, es, n - 1);
      StaysOvertaken(ws[n - 1], es[n - 1], peer, x, y);
    }
  }

  /** The first overtaking: what it leaves, and the order in which the two were written. */
  lemma {:induction false} OvertakingLeaves(ws: seq<World>, es: seq<Event>, k: nat, peer: string) returns (x: Entry, y: Entry)
    requires Run(ws, es) && k < |es| && Overtakes(ws[k], es[k], peer)
    requires forall i :: 0 <= i < k ==> !Overtakes(ws[i], es[i], peer)
    ensures Overtaken(ws[k + 1], peer, x, y) && Before(MessagesTo(peer, Written(es[..k + 1])), x, y)
  {
    DeliveredInOrder(ws, es, peer, k);
    assert StepAt(ws, es, k);
    y := es[k].e;
    x := MessagesTo(peer, ws[k].queue)[0];
    SendLeavesOvertaken(ws[k], peer, x, y);
    assert es[..k + 1][..k] == es[..k];
    assert Written(es[..k + 1]) == Written(es[..k]) + [y];
    MessagesToMore(peer, Written(es[..k]), y);
    assert (MessagesTo(peer, ws[k].log) + MessagesTo(peer, ws[k].queue))[|MessagesTo(peer, ws[k].log)|] == x;
    LaterIsAfter(MessagesTo(peer, Written(es[..k])), [y], x, y);
  }

  lemma {:induction false} SendLeavesOvertaken(w: World, peer: string, x: Entry, y: Entry)
    requires IsMessageTo(peer, y) && x in MessagesTo(peer, w.queue)
    ensures Overtaken(w.(log := w.log + [y]), peer, x, y)
  {
    var log := MessagesTo(peer, w.log);
    MessagesToMore(peer, w.log, y);
    assert (log + [y])[|log|] == y;
    LaterIsAfter(log + [y], MessagesTo(peer, w.queue), y, x);
  }

  /** Exactly when an account's messages keep the order they were written in, each once and none lost, to
      the end of a run of distinct messages: when none was ever sent past one that waited. */
  lemma {:induction false} OrderKeptExactly(ws: seq<World>, es: seq<Event>, peer: string)
    requires Run(ws, es) && Distinct(Written(es))
    ensures OrderKept(ws[|es|], Written(es), peer) <==> forall k :: 0 <= k < |es| ==> !Overtakes(ws[k], es[k], peer)
  {
    assert es[..|es|] == es;
    if forall k :: 0 <= k < |es| ==> !Overtakes(ws[k], es[k], peer) {
      DeliveredInOrder(ws, es, peer, |es|);
    } else {
      var k := FirstOvertaking(ws, es, peer, |es|);
      var x, y := OvertakingLeaves(ws, es, k, peer);
      OvertakenUntil(ws, es, k + 1, |es|, peer, x, y);
      WrittenGrows(es, k + 1, |es|, peer, x, y);
      MessagesAreEntries(peer, Written(es));
      OneWayOnly(MessagesTo(peer, Written(es)), x, y);
    }
  }

  lemma {:induction false} FirstOvertaking(ws: seq<World>, es: seq<Event>, peer: string, n: nat) returns (k: nat)
    requires |ws| == |es| + 1 && n <= |es| && exists i :: 0 <= i < n && Overtakes(ws[i], es[i], peer)
    ensures k < n && Overtakes(ws[k], es[k], peer) && forall i :: 0 <= i < k ==> !Overtakes(ws[i], es[i], peer)
  {
    if exists i :: 0 <= i < n - 1 && Overtakes(ws[i], es[i], peer) {
      k := FirstOvertaking(ws, es, peer, n - 1);
    } else {
      k := n - 1;
    }
  }

  /** A message sent at once does overtake: the promise is of the passes only. Here the second message
      arrives, and the first only with the pass after. */
  lemma {:induction false} SendingNowOvertakes() returns (ws: seq<World>, es: seq<Event>, one: Entry, two: Entry)
    ensures Run(ws, es) && one.peer == two.peer && !Optional(one) && !Optional(two) && one != two
    ensures Written(es) == [one, two] && ws[|es|].log == [two, one]
  {
    one, two := Entry("1", "peer", Ordinary, 0), Entry("2", "peer", Ordinary, 1);
    var works: string -> bool := _ => true;
    es := [SendNow(one, false), SendNow(two, true), Flushed(2, works)];
    ws := [World([], []), World([one], []), World([one], [two]), World([], [two, one])];
    PassOfOne(one, 2, works);
    assert ws[3] == Next(ws[2], es[2]);
    assert es[..2] == [es[0], es[1]] && es[..2][..1] == [es[0]] && es[..1][..0] == [];
    assert Written([]) == [] && Written([es[0]]) == [one];
    assert Written(es[..2]) == [one, two];
  }

  lemma {:induction false} PassOfOne(e: Entry, now: int, works: string -> bool)
    requires !Optional(e) && works(e.id)
    ensures Pass([e], now, works).delivered == [e] && Pass([e], now, works).left == []
  {
    assert [e][..0] == [];
  }
}
