/** Reading a home's log page by page until the group's record is level with it. */
module GroupSync {
  import opened Common
  import opened GroupChain

  const LOG_PAGE: nat := 64
  const MAX_PAGES_PER_SYNC: nat := 256
  const NOT_FOUND_CONFIRM_MS: int := 7 * 24 * 60 * 60 * 1000

  /** An entry of the log: its change, when it reads, and its notary. */
  datatype Entry = Entry(change: Option<Change>, notary: Notary)

  datatype Page =
    | Page(entries: seq<Entry>, more: bool)
    | NotFound | Failed | Unreadable

  datatype WholeState = WholeState(state: State, latest: Change, notary: Notary) | NoMember | StateFailed | StateUnreadable

  /** What the home answers a catch-up with, page by page; the identity history it serves when asked
      again; and the clock at each page. */
  datatype Home = Home(pages: nat -> Page, whole: WholeState, history: Option<set<nat>>, now: nat -> int)

  datatype Sync =
    | Current(revision: nat) | Partial(revision: nat) | Gone | MaybeRemoved(since: int) | Unreachable | Refused | NoSuchGroup

  // ----- what a run of changes comes to -----

  function Extend(rules: Rules, v: Verified, changes: seq<Change>): Option<Verified> {
    if changes == [] then Some(v)
    else
      var n := |changes| - 1;
      var before := Extend(rules, v, changes[..n]);
      if before.None? then None
      else
        var next := CheckChange(rules, before.value, changes[n]);
        if next.Ok? then Some(Verified(next.value, HashOf(changes[n]))) else None
  }

  lemma {:induction false} ExtendRevision(rules: Rules, v: Verified, changes: seq<Change>)
    requires Extend(rules, v, changes).Some?
    ensures Extend(rules, v, changes).value.state.revision == v.state.revision + |changes|
  {
    if changes != [] {
      ExtendRevision(rules, v, changes[..|changes| - 1]);
    }
  }

  lemma {:induction false} ExtendTwice(rules: Rules, v: Verified, a: seq<Change>, b: seq<Change>)
    requires Extend(rules, v, a).Some?
    ensures Extend(rules, v, a + b) == Extend(rules, Extend(rules, v, a).value, b)
  {
    if b == [] {
      assert a + b == a;
    } else {
      var n := |b| - 1;
      ExtendTwice(rules, v, a, b[..n]);
      assert (a + b)[..|a + b| - 1] == a + b[..n];
    }
  }

  /** Replaying a chain further is extending what it had come to. */
  lemma {:induction false} ReplayExtends(rules: Rules, home: string, chain: seq<Change>, n: nat)
    requires 0 < n <= |chain| && Replay(rules, home, chain[..n]).Some?
    ensures Replay(rules, home, chain) == Extend(rules, Replay(rules, home, chain[..n]).value, chain[n..])
  {
    if n == |chain| {
      assert chain[..n] == chain;
    } else {
      var m := |chain| - 1;
      var (before, rest) := (chain[..m], chain[n..]);
      assert before[..n] == chain[..n];
      ReplayExtends(rules, home, before, n);
      ExtendMore(rules, Replay(rules, home, chain[..n]).value, before[n..], chain[m]);
      assert rest == before[n..] + [chain[m]];
    }
  }

  lemma {:induction false} ExtendMore(rules: Rules, v: Verified, changes: seq<Change>, x: Change)
    ensures Extend(rules, v, changes + [x]) ==
            var before := Extend(rules, v, changes);
            if before.None? then None
            else
              var next := CheckChange(rules, before.value, x);
              if next.Ok? then Some(Verified(next.value, HashOf(x))) else None
  {
    assert (changes + [x])[..|changes|] == changes;
  }

  /** `after` is `before` taken further by exactly `taken`: the same group's record, the state they come
      to from the state held, and notaries no older than the one before. */
  ghost predicate TakenFurther(rules: Rules, before: Record, taken: seq<Change>, after: Record) {
    && before.verified.Some?
    && after.verified == Extend(rules, before.verified.value, taken)
    && after.group == before.group && after.home == before.home
    && after.pseudonym == before.pseudonym && after.joinEpoch == before.joinEpoch && after.minRevision == before.minRevision
    && (taken == [] ==> after.status == before.status || after.status.Gone?)
    && Sound(after) && SignedBy(before) <= SignedBy(after)
  }

  lemma {:induction false} FurtherIsNotBack(rules: Rules, before: Record, taken: seq<Change>, after: Record)
    requires Sound(before) && TakenFurther(rules, before, taken, after)
    ensures NotBack(before, after) && Length(after) == Length(before) + |taken|
    ensures MayReplace(after, before)
  {
    ExtendRevision(rules, before.verified.value, taken);
  }

  lemma {:induction false} FurtherTwice(rules: Rules, before: Record, a: seq<Change>, mid: Record, b: seq<Change>, after: Record)
    requires TakenFurther(rules, before, a, mid) && TakenFurther(rules, mid, b, after)
    ensures TakenFurther(rules, before, a + b, after)
  {
    ExtendTwice(rules, before.verified.value, a, b);
  }

  /** The changes of a log's entries, as far as each reads. */
  function ChangesOf(entries: seq<Entry>): seq<Change> {
    if entries == [] then []
    else
      var n := |entries| - 1;
      ChangesOf(entries[..n]) + if entries[n].change.Some? then [entries[n].change.value] else []
  }

  function AllChanges(home: Home, pages: nat): seq<Change> {
    if pages == 0 then []
    else AllChanges(home, pages - 1) + if home.pages(pages - 1).Page? then ChangesOf(home.pages(pages - 1).entries) else []
  }

  predicate Reads(entries: seq<Entry>) {
    forall e :: e in entries ==> e.change.Some?
  }

  /** The pages so far were whole, with more to come after each. */
  ghost predicate Whole(home: Home, pages: nat) {
    forall k :: 0 <= k < pages ==> home.pages(k).Page? && Reads(home.pages(k).entries)
  }

  /** What each page was asked from: one past the revision the pages before it came to. */
  predicate AskedFrom(home: Home, first: nat, asked: seq<nat>) {
    forall k :: 0 <= k < |asked| ==> asked[k] == first + |AllChanges(home, k)|
  }

  /** What a catch-up asks and takes, whatever it ends in. */
  ghost predicate Caught(rules: Rules, home: Home, before: Record, asked: seq<nat>, pages: nat, after: Record) {
    && |asked| <= MAX_PAGES_PER_SYNC
    && pages <= |asked| <= pages + 1
    && AskedFrom(home, Length(before), asked)
    && Whole(home, pages)
    && TakenFurther(rules, before, AllChanges(home, pages), after)
  }

  /** The record after a "not found" at `now`. */
  function GoneAfter(r: Record, now: int): Record {
    var since := if r.notFoundSince.Some? then r.notFoundSince.value else now;
    r.(notFoundSince := Some(since), status := if now - since >= NOT_FOUND_CONFIRM_MS then Status.Gone else r.status)
  }

  lemma {:induction false} CaughtAsks(rules: Rules, home: Home, before: Record, asked: seq<nat>, read: Record)
    requires Sound(before) && Caught(rules, home, before, asked, |asked|, read) && |asked| < MAX_PAGES_PER_SYNC
    ensures read.verified.Some? && Caught(rules, home, before, asked + [read.verified.value.state.revision + 1], |asked|, read)
  {
    FurtherIsNotBack(rules, before, AllChanges(home, |asked|), read);
  }

  lemma {:induction false} CaughtStops(rules: Rules, home: Home, before: Record, asked: seq<nat>, k: nat, read: Record)
    requires Caught(rules, home, before, asked, k, read)
    ensures Caught(rules, home, before, asked, k, GoneAfter(read, home.now(k)))
  {
  }

  lemma {:induction false} CaughtMore(rules: Rules, home: Home, before: Record, asked: seq<nat>, k: nat, read: Record, after: Record)
    requires Sound(before) && Caught(rules, home, before, asked, k, read) && |asked| == k + 1
    requires home.pages(k).Page? && Reads(home.pages(k).entries) && TakenFurther(rules, read, ChangesOf(home.pages(k).entries), after)
    ensures Caught(rules, home, before, asked, k + 1, after)
    ensures after.verified.Some? && Length(after) == Length(before) + |AllChanges(home, k + 1)|
  {
    FurtherTwice(rules, before, AllChanges(home, k), read, ChangesOf(home.pages(k).entries), after);
    FurtherIsNotBack(rules, before, AllChanges(home, k + 1), after);
  }

  function NotFoundSays(r: Record): Sync {
    if r.status.Gone? || r.notFoundSince.None? then Sync.Gone else MaybeRemoved(r.notFoundSince.value)
  }

  /** Why a catch-up ended before its last page. */
  ghost predicate Stopped(home: Home, asked: seq<nat>, pages: nat, stop: Sync, after: Record) {
    && |asked| == pages + 1
    && var page := home.pages(pages);
       if page.NotFound? then stop == NotFoundSays(after) && after.notFoundSince.Some?
       else stop == if page.Failed? then Unreachable else Refused
  }

  /** A catch-up after `pages` pages: over, or with the record as it is stored, and finished when the last
      page had no more or the account is no longer in the group. */
  ghost predicate Reading(rules: Rules, home: Home, before: Record, asked: seq<nat>, pages: nat, stop: Option<Sync>, finished: bool,
                          mine: Record, stored: Record) {
    && Caught(rules, home, before, asked, pages, stored)
    && (if stop.Some? then Stopped(home, asked, pages, stop.value, stored)
        else && |asked| == pages && mine == stored
             && (finished ==> pages > 0 && (!home.pages(pages - 1).more || stored.status.Gone?)))
  }

  /** What one page comes to: taken whole and stored, or why the catch-up ends, the record stored as it
      was but for when the group was not found. */
  ghost predicate PageRead(rules: Rules, read: Record, page: Page, now: int, stop: Option<Sync>, mine: Record, stored: Record) {
    if stop.None? then
      page.Page? && Reads(page.entries) && TakenFurther(rules, read, ChangesOf(page.entries), mine) && stored == mine
    else if page.NotFound? then
      stored == GoneAfter(read, now) && stop.value == NotFoundSays(stored)
    else
      stored == read && stop.value == if page.Failed? then Unreachable else Refused
  }

  lemma {:induction false} OnePageRead(rules: Rules, home: Home, before: Record, was: seq<nat>, read: Record, stop: Option<Sync>, mine: Record, stored: Record)
    requires Sound(before) && Caught(rules, home, before, was, |was|, read) && |was| < MAX_PAGES_PER_SYNC && read.verified.Some?
    requires PageRead(rules, read, home.pages(|was|), home.now(|was|), stop, mine, stored)
    ensures var asked := was + [read.verified.value.state.revision + 1];
            var pages := if stop.Some? then |was| else |was| + 1;
            var finished := stop.None? && (!home.pages(|was|).more || mine.status.Gone?);
            Reading(rules, home, before, asked, pages, stop, finished, mine, stored)
  {
    var asked := was + [read.verified.value.state.revision + 1];
    CaughtAsks(rules, home, before, was, read);
    if stop.Some? {
      CaughtStops(rules, home, before, asked, |was|, read);
    } else {
      CaughtMore(rules, home, before, asked, |was|, read, mine);
    }
  }

  /** A whole page with nothing more to come. */
  predicate EndsWith(home: Home, k: nat) {
    home.pages(k).Page? && !home.pages(k).more
  }

  /** The catch-up's last page was whole, with nothing more to come. */
  ghost predicate UpToDate(home: Home, asked: seq<nat>, pages: nat, read: Record) {
    |asked| == pages > 0 && EndsWith(home, pages - 1) && !read.status.Gone?
  }

  class GroupEngine {
    var groups: map<string, Record>

    constructor (groups: map<string, Record>)
      ensures this.groups == groups
    {
      this.groups := groups;
    }

    /** A write of a record, refused when it would take the stored one back. */
    method SaveGroup(r: Record) returns (saved: bool)
      modifies this
      ensures saved <==> r.group in old(groups) ==> MayReplace(r, old(groups)[r.group])
      ensures groups == if saved then old(groups)[r.group := r] else old(groups)
    {
      saved := true;
      if r.group in groups {
        saved := MayReplace(r, groups[r.group]);
      }
      if saved {
        groups := groups[r.group := r];
      }
    }

    /** One change of a page; a notary by an identity not held yet has the history asked for, once. */
    method TakeEntry(rules: Rules, record: GroupRecord, e: Entry, history: Option<set<nat>>, was: bool) returns (ok: bool, refreshed: bool)
      requires Sound(record.Value()) && record.verified.Some?
      modifies record
      ensures ok ==> e.change.Some? && TakenFurther(rules, old(record.Value()), [e.change.value], record.Value())
      ensures was ==> refreshed
    {
      refreshed := was;
      if e.change.None? {
        return false, refreshed;
      }
      ghost var before := record.Value();
      var done := record.AcceptChange(rules, e.change.value, e.notary);
      if done == Err(BadNotary) && !refreshed {
        refreshed := true;
        if history.None? {
          return false, refreshed;
        }
        record.history := history.value;
        done := record.AcceptChange(rules, e.change.value, e.notary);
      }
      ok := done.Ok?;
      if ok {
        assert [e.change.value][..0] == [];
        assert Extend(rules, before.verified.value, []) == Some(before.verified.value);
      }
    }

    method TakePage(rules: Rules, record: GroupRecord, entries: seq<Entry>, history: Option<set<nat>>, was: bool) returns (ok: bool, refreshed: bool)
      requires Sound(record.Value()) && record.verified.Some?
      modifies record
      ensures ok ==> Reads(entries) && TakenFurther(rules, old(record.Value()), ChangesOf(entries), record.Value())
    {
      refreshed := was;
      ghost var before := record.Value();
      for k := 0 to |entries|
        invariant Reads(entries[..k])
        invariant TakenFurther(rules, before, ChangesOf(entries[..k]), record.Value())
      {
        ghost var mid := record.Value();
        assert entries[..k + 1][..k] == entries[..k] && entries[..k + 1] == entries[..k] + [entries[k]];
        ok, refreshed := TakeEntry(rules, record, entries[k], history, refreshed);
        if !ok {
          return;
        }
        FurtherTwice(rules, before, ChangesOf(entries[..k]), mid, [entries[k].change.value], record.Value());
      }
      assert entries[..|entries|] == entries;
      ok := true;
    }

    /** The home answered that the group is not found: perhaps a removal, once it has lasted a week. */
    method TakeNotFound(record: GroupRecord, now: int) returns (res: Sync)
      requires record.group in groups && groups[record.group] == record.Value()
      modifies this, record
      ensures record.Value() == GoneAfter(old(record.Value()), now)
      ensures groups == old(groups)[record.group := record.Value()]
      ensures res == NotFoundSays(record.Value())
    {
      var since := if record.notFoundSince.Some? then record.notFoundSince.value else now;
      record.notFoundSince := Some(since);
      if now - since >= NOT_FOUND_CONFIRM_MS {
        record.status := Status.Gone;
      }
      var saved := SaveGroup(record.Value());
      assert saved;
      return if record.status.Gone? then Sync.Gone else MaybeRemoved(since);
    }

    /** One page: taken whole and saved, or what the catch-up ends in, the record stored as it was. */
    method ReadPage(rules: Rules, record: GroupRecord, page: Page, history: Option<set<nat>>, now: int, was: bool)
      returns (stop: Option<Sync>, refreshed: bool)
      requires record.group in groups && groups[record.group] == record.Value()
      requires Sound(record.Value()) && record.verified.Some?
      modifies this, record
      ensures Stored(old(groups), record.group)
      ensures PageRead(rules, old(record.Value()), page, now, stop, record.Value(), groups[record.group])
    {
      refreshed := was;
      match page {
        case Failed =>
          return Some(Unreachable), refreshed;
        case Unreadable =>
          return Some(Refused), refreshed;
        case NotFound =>
          var notFound := TakeNotFound(record, now);
          return Some(notFound), refreshed;
        case Page(entries, more) =>
          if entries == [] && more {
            return Some(Refused), refreshed;
          }
          ghost var before := record.Value();
          var ok;
          ok, refreshed := TakePage(rules, record, entries, history, refreshed);
          if !ok {
            return Some(Refused), refreshed;
          }
          FurtherIsNotBack(rules, before, ChangesOf(entries), record.Value());
          record.notFoundSince, record.syncedAt := None, Some(now);
          var saved := SaveGroup(record.Value());
          assert saved;
          return None, refreshed;
      }
    }

    /** The pages of a catch-up: the record saved after each, until one has no more, the home answers
        otherwise, or this catch-up has asked enough. */
    method ReadPages(rules: Rules, record: GroupRecord, home: Home)
      returns (stop: Option<Sync>, asked: seq<nat>, pages: nat, finished: bool)
      requires record.group in groups && groups[record.group] == record.Value()
      requires Sound(record.Value()) && record.verified.Some?
      modifies this, record
      ensures Stored(old(groups), record.group)
      ensures Reading(rules, home, old(record.Value()), asked, pages, stop, finished, record.Value(), groups[record.group])
      ensures stop.None? && !finished ==> pages == MAX_PAGES_PER_SYNC
    {
      stop, asked, pages, finished := None, [], 0, false;
      ghost var before := record.Value();
      var refreshed := false;
      while stop.None? && !finished && pages < MAX_PAGES_PER_SYNC
        invariant Stored(old(groups), record.group)
        invariant Reading(rules, home, before, asked, pages, stop, finished, record.Value(), groups[record.group])
        decreases stop.None?, MAX_PAGES_PER_SYNC - pages
      {
        stop, asked, pages, finished, refreshed := AskPage(rules, record, home, asked, refreshed, before);
      }
    }

    method AskPage(rules: Rules, record: GroupRecord, home: Home, was: seq<nat>, r: bool, ghost before: Record)
      returns (stop: Option<Sync>, asked: seq<nat>, pages: nat, finished: bool, refreshed: bool)
      requires record.group in groups && Sound(before) && |was| < MAX_PAGES_PER_SYNC
      requires Reading(rules, home, before, was, |was|, None, false, record.Value(), groups[record.group])
      modifies this, record
      ensures Stored(old(groups), record.group)
      ensures Reading(rules, home, before, asked, pages, stop, finished, record.Value(), groups[record.group])
      ensures stop.None? ==> pages == |was| + 1
    {
      ghost var read := record.Value();
      asked, pages, finished := was + [record.verified.value.state.revision + 1], |was|, false;
      var page := home.pages(|was|);
      stop, refreshed := ReadPage(rules, record, page, home.history, home.now(|was|), r);
      if stop.None? {
        finished := !page.more || record.status.Gone?;
        pages := |was| + 1;
      }
      OnePageRead(rules, home, before, was, read, stop, record.Value(), groups[record.group]);
    }

    /** Only this group's record has changed in the store. */
    predicate Stored(was: map<string, Record>, group: string)
      reads this
    {
      groups.Keys == was.Keys && group in groups && forall g :: g in was && g != group ==> groups[g] == was[g]
    }

    /** A whole state, the history asked for again when its notary is by an identity not held yet. */
    method TakeState(rules: Rules, record: GroupRecord, state: State, latest: Change, notary: Notary, history: Option<set<nat>>)
      returns (done: bool)
      requires Sound(record.Value())
      modifies record
      ensures done ==>
                && Sound(record.Value()) && NotBack(old(record.Value()), record.Value())
                && Length(old(record.Value())) < Length(record.Value())
                && record.verified == Some(Verified(state, HashOf(latest)))
                && record.status == Member && notary.genuine
    {
      var accepted := record.AcceptState(rules, state, latest, notary);
      if accepted == Err(BadNotary) {
        if history.None? {
          return false;
        }
        record.history := history.value;
        accepted := record.AcceptState(rules, state, latest, notary);
      }
      done := accepted.Ok?;
    }

    method TakeWholeState(rules: Rules, record: GroupRecord, home: Home) returns (res: Sync)
      requires record.group in groups && groups[record.group] == record.Value() && Sound(record.Value())
      modifies this, record
      ensures groups.Keys == old(groups).Keys && NotBack(old(groups)[record.group], groups[record.group])
      ensures forall g :: g in old(groups) && g != record.group ==> groups[g] == old(groups)[g]
      ensures res.Current? ==>
                && home.whole.WholeState? && groups[record.group] == record.Value() && Sound(record.Value())
                && record.verified == Some(Verified(home.whole.state, HashOf(home.whole.latest)))
                && res.revision == record.verified.value.state.revision
                && Length(old(record.Value())) < Length(record.Value())
                && record.status == Member && home.whole.notary.genuine
      ensures res.Gone? || res.MaybeRemoved? ==>
                home.whole.NoMember? && groups == old(groups)[record.group := GoneAfter(old(record.Value()), home.now(0))]
      ensures !res.Current? && !res.Gone? && !res.MaybeRemoved? ==> groups == old(groups)
    {
      match home.whole {
        case StateFailed =>
          return Unreachable;
        case StateUnreadable =>
          return Refused;
        case NoMember =>
          res := TakeNotFound(record, home.now(0));
        case WholeState(state, latest, notary) =>
          var done := TakeState(rules, record, state, latest, notary, home.history);
          if !done {
            return Refused;
          }
          record.notFoundSince, record.syncedAt := None, Some(home.now(0));
          var saved := SaveGroup(record.Value());
          assert saved;
          return Sync.Current(state.revision);
      }
    }

    /** Catches a group up. */
    method SyncGroup(rules: Rules, group: string, home: Home) returns (res: Sync, asked: seq<nat>, pages: nat)
      requires group in groups ==> groups[group].group == group && Sound(groups[group])
      modifies this
      ensures groups.Keys == old(groups).Keys
      ensures forall g :: g in old(groups) && g != group ==> groups[g] == old(groups)[g]
      ensures group in old(groups) ==> NotBack(old(groups)[group], groups[group])
      ensures |asked| <= MAX_PAGES_PER_SYNC
      ensures group in old(groups) && old(groups)[group].verified.Some? && !old(groups)[group].status.Gone? ==>
                && Caught(rules, home, old(groups)[group], asked, pages, groups[group])
                && (res.Current? ==> UpToDate(home, asked, pages, groups[group]) && res.revision + 1 == Length(groups[group]))
                && (res.Partial? ==> pages == MAX_PAGES_PER_SYNC && res.revision + 1 == Length(groups[group]))
                && (res.Gone? ==> groups[group].status.Gone?)
                && (res.MaybeRemoved? ==> pages < |asked| && home.pages(pages).NotFound?)
    {
      asked, pages := [], 0;
      if group !in groups {
        return NoSuchGroup, asked, pages;
      }
      if groups[group].status.Gone? {
        return Sync.Gone, asked, pages;
      }
      var record := new GroupRecord(groups[group]);
      if record.verified.None? {
        res := TakeWholeState(rules, record, home);
        return;
      }
      var stop, finished;
      stop, asked, pages, finished := ReadPages(rules, record, home);
      FurtherIsNotBack(rules, old(groups)[group], AllChanges(home, pages), groups[group]);
      if stop.Some? {
        return stop.value, asked, pages;
      }
      if record.status.Gone? {
        return Sync.Gone, asked, pages;
      }
      var revision := record.verified.value.state.revision;
      res := if finished then Sync.Current(revision) else Partial(revision);
    }
  }

  // ----- against an honest home -----

  /** `page` is of `log` from `from` on: as many changes as are asked for at most, cut shorter when they are
      too large together, the first always among them; `more` when the log goes on. */
  predicate IsPageOf(page: Page, log: seq<Change>, from: nat) {
    && page.Page? && Reads(page.entries)
    && var end := from + |ChangesOf(page.entries)|;
       && end <= |log| && |ChangesOf(page.entries)| <= LOG_PAGE
       && (from < |log| ==> from < end)
       && ChangesOf(page.entries) == log[from..end]
       && page.more == (end < |log|)
  }

  /** A home's log has each change at its revision. */
  predicate Numbered(log: seq<Change>) {
    forall r :: 0 <= r < |log| ==> log[r].revision == r
  }

  /** Every page asked for is of the home's log as it then was, which only grows; `joined` is the revision
      this account joined at, as of each page. */
  ghost predicate HonestHome(home: Home, logs: seq<seq<Change>>, joined: seq<nat>, asked: seq<nat>) {
    && |logs| == |joined| == |asked|
    && (forall j, k :: 0 <= j < k < |logs| ==> logs[j] <= logs[k])
    && (forall k :: 0 <= k < |logs| ==> Numbered(logs[k]))
    && (forall k :: 0 <= k < |asked| ==> HonestPage(home, logs, joined, asked, k))
  }

  /** A member is shown the log only from where it joined. */
  predicate HonestPage(home: Home, logs: seq<seq<Change>>, joined: seq<nat>, asked: seq<nat>, k: nat)
    requires k < |asked| == |logs| == |joined|
  {
    joined[k] < |logs[k]| && IsPageOf(home.pages(k), logs[k], Max(asked[k], joined[k]))
  }

  /** Each page is of the log from where it was asked. */
  ghost predicate PlainPages(home: Home, logs: seq<seq<Change>>, asked: seq<nat>, pages: nat) {
    && pages <= |logs| == |asked|
    && (forall j, k :: 0 <= j < k < |logs| ==> logs[j] <= logs[k])
    && (forall k :: 0 <= k < pages ==> IsPlain(home, logs, asked, k))
  }

  predicate IsPlain(home: Home, logs: seq<seq<Change>>, asked: seq<nat>, k: nat)
    requires k < |asked| == |logs|
  {
    IsPageOf(home.pages(k), logs[k], asked[k])
  }

  /** Changes that extend a chain follow it, revision by revision. */
  lemma {:induction false} ExtendNumbers(rules: Rules, v: Verified, changes: seq<Change>, i: nat)
    requires Extend(rules, v, changes).Some? && i < |changes|
    ensures changes[i].revision == v.state.revision + 1 + i
  {
    var n := |changes| - 1;
    if i < n {
      ExtendNumbers(rules, v, changes[..n], i);
    } else {
      ExtendRevision(rules, v, changes[..n]);
    }
  }

  lemma {:induction false} PageIsAmongAll(home: Home, k: nat, pages: nat)
    requires k < pages && home.pages(k).Page?
    ensures AllChanges(home, k) + ChangesOf(home.pages(k).entries) <= AllChanges(home, pages)
  {
    if k < pages - 1 {
      PageIsAmongAll(home, k, pages - 1);
    }
  }

  /** A page that was taken is from where it was asked: the account had joined by then. */
  lemma {:induction false} TakenIsPlain(rules: Rules, home: Home, logs: seq<seq<Change>>, joined: seq<nat>, before: Record,
                                        asked: seq<nat>, pages: nat, after: Record, k: nat)
    requires Sound(before) && HonestHome(home, logs, joined, asked) && Caught(rules, home, before, asked, pages, after) && k < pages
    ensures joined[k] <= asked[k] && IsPlain(home, logs, asked, k)
  {
    assert HonestPage(home, logs, joined, asked, k) && Numbered(logs[k]);
    if joined[k] > asked[k] {
      var (all, i) := (AllChanges(home, pages), |AllChanges(home, k)|);
      var changes := ChangesOf(home.pages(k).entries);
      PageIsAmongAll(home, k, pages);
      assert changes[0] == logs[k][joined[k]] && (AllChanges(home, k) + changes)[i] == changes[0];
      assert all[i] == changes[0];
      ExtendNumbers(rules, before.verified.value, all, i);
    }
  }

  lemma {:induction false} AllTakenArePlain(rules: Rules, home: Home, logs: seq<seq<Change>>, joined: seq<nat>, before: Record,
                                            asked: seq<nat>, pages: nat, after: Record)
    requires Sound(before) && HonestHome(home, logs, joined, asked) && Caught(rules, home, before, asked, pages, after)
    ensures PlainPages(home, logs, asked, pages)
  {
    forall k | 0 <= k < pages ensures IsPlain(home, logs, asked, k) {
      TakenIsPlain(rules, home, logs, joined, before, asked, pages, after, k);
    }
  }

  /** A record from before its account joined anew gets nothing from the log: only a whole state can take
      it over what it is not shown. */
  lemma {:induction false} JoinedLaterTakesNothing(rules: Rules, home: Home, logs: seq<seq<Change>>, joined: seq<nat>, before: Record,
                                                   asked: seq<nat>, pages: nat, after: Record)
    requires Sound(before) && HonestHome(home, logs, joined, asked) && Caught(rules, home, before, asked, pages, after)
    requires asked != [] && Length(before) < joined[0]
    ensures pages == 0 && after.verified == before.verified
  {
    assert asked[0] == Length(before) + |AllChanges(home, 0)|;
    if pages > 0 {
      TakenIsPlain(rules, home, logs, joined, before, asked, pages, after, 0);
    }
  }

  /** The first pages hold the part of `log` from `first` on, to its end when nothing more is to come. */
  ghost predicate Covered(home: Home, log: seq<Change>, first: nat, k: nat) {
    && first + |AllChanges(home, k)| <= |log|
    && AllChanges(home, k) == log[first..first + |AllChanges(home, k)|]
  }

  lemma {:induction false} OnePageMore(home: Home, log: seq<Change>, longer: seq<Change>, first: nat, k: nat)
    requires Covered(home, log, first, k) && log <= longer
    requires IsPageOf(home.pages(k), longer, first + |AllChanges(home, k)|)
    ensures Covered(home, longer, first, k + 1)
    ensures EndsWith(home, k) ==> first + |AllChanges(home, k + 1)| == |longer|
  {
    var from := first + |AllChanges(home, k)|;
    var end := from + |ChangesOf(home.pages(k).entries)|;
    assert AllChanges(home, k) == longer[first..from];
    assert AllChanges(home, k + 1) == longer[first..from] + longer[from..end] == longer[first..end];
  }

  lemma {:induction false} PagesAreTheLog(home: Home, logs: seq<seq<Change>>, asked: seq<nat>, first: nat, k: nat)
    requires PlainPages(home, logs, asked, k) && AskedFrom(home, first, asked) && 0 < k
    ensures Covered(home, logs[k - 1], first, k)
    ensures EndsWith(home, k - 1) ==> first + |AllChanges(home, k)| == |logs[k - 1]|
  {
    assert IsPlain(home, logs, asked, k - 1);
    if k > 1 {
      PagesAreTheLog(home, logs, asked, first, k - 1);
      assert logs[k - 2] <= logs[k - 1];
      OnePageMore(home, logs[k - 2], logs[k - 1], first, k - 1);
    } else {
      assert AllChanges(home, 0) == [];
      OnePageMore(home, logs[0], logs[0], first, 0);
    }
  }

  lemma {:induction false} ReplayIs(rules: Rules, home: string, log: seq<Change>, held: Verified, n: nat)
    requires 0 < n <= |log| && Replay(rules, home, log[..n]) == Some(held)
    ensures Replay(rules, home, log) == Extend(rules, held, log[n..])
    ensures Replay(rules, home, log).Some? ==> Replay(rules, home, log).value.state.revision + 1 == |log|
  {
    ReplayExtends(rules, home, log, n);
    ReplayShape(rules, home, log[..n]);
    if Replay(rules, home, log).Some? {
      ExtendRevision(rules, held, log[n..]);
    }
  }

  /** A record that is a replay of the first of a log. */
  predicate OnLog(rules: Rules, r: Record, log: seq<Change>) {
    Sound(r) && r.verified.Some? && Length(r) <= |log| && r.verified == Replay(rules, r.home, log[..Length(r)])
  }

  /** An honest log's next change is taken exactly when its notary is the home's, over the state the
      chain comes to, by an identity this device follows and no older than the last; and then the record
      is a replay of one change more. */
  lemma {:induction false} NextOfLogIsTaken(rules: Rules, r: Record, log: seq<Change>, n: Notary)
    requires OnLog(rules, r, log) && Length(r) < |log| && log[Length(r)].group == r.group
    requires Replay(rules, r.home, log[..Length(r) + 1]).Some?
    ensures var next := Replay(rules, r.home, log[..Length(r) + 1]);
            var taken := Accepted(rules, r, log[Length(r)], n);
            && (taken.Ok? <==> Notarised(n, r.history, r.notarySequence, r.group, Length(r), HashOf(log[Length(r)]), next.value.state))
            && (taken.Ok? ==> taken.value.verified == next)
  {
    var k := Length(r);
    assert log[..k + 1][..k] == log[..k];
    ReplayShape(rules, r.home, log[..k]);
    ReplayShape(rules, r.home, log[..k + 1]);
  }

  /** Against an honest home, wherever it cuts its pages and whatever its log grows by between them, what a catch-up has read is
      the log: a record that was a replay of its first changes is, when the catch-up says it is current,
      a replay of the whole log as the last page found it. */
  lemma {:induction false} CurrentIsTheWholeLog(rules: Rules, home: Home, logs: seq<seq<Change>>, joined: seq<nat>, before: Record,
                                                asked: seq<nat>, pages: nat, after: Record)
    requires HonestHome(home, logs, joined, asked) && Caught(rules, home, before, asked, pages, after) && |asked| == pages > 0
    requires OnLog(rules, before, logs[0]) && EndsWith(home, pages - 1)
    ensures after.verified == Replay(rules, before.home, logs[pages - 1]) && Length(after) == |logs[pages - 1]|
  {
    AllTakenArePlain(rules, home, logs, joined, before, asked, pages, after);
    PagesToTheEnd(home, logs, asked, Length(before), pages);
    WholeLogTaken(rules, before, logs[pages - 1], after);
  }

  lemma {:induction false} PagesToTheEnd(home: Home, logs: seq<seq<Change>>, asked: seq<nat>, first: nat, pages: nat)
    requires PlainPages(home, logs, asked, pages) && AskedFrom(home, first, asked) && 0 < pages
    requires first <= |logs[0]| && EndsWith(home, pages - 1)
    ensures logs[0] <= logs[pages - 1] && AllChanges(home, pages) == logs[pages - 1][first..]
    ensures logs[pages - 1][..first] == logs[0][..first]
  {
    PagesAreTheLog(home, logs, asked, first, pages);
    CoveredToTheEnd(home, logs[pages - 1], first, pages);
    assert logs[0] <= logs[pages - 1] by { assert pages > 1 ==> logs[0] <= logs[pages - 1]; }
  }

  lemma {:induction false} CoveredToTheEnd(home: Home, log: seq<Change>, first: nat, k: nat)
    requires Covered(home, log, first, k) && first + |AllChanges(home, k)| == |log|
    ensures AllChanges(home, k) == log[first..]
  {
  }

  lemma {:induction false} WholeLogTaken(rules: Rules, before: Record, log: seq<Change>, after: Record)
    requires OnLog(rules, before, log) && TakenFurther(rules, before, log[Length(before)..], after)
    ensures after.verified == Replay(rules, before.home, log) && Length(after) == |log|
  {
    ReplayIs(rules, before.home, log, before.verified.value, Length(before));
  }
}
