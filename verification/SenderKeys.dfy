/** Who has been given this device's sender key for a group: the book kept of it, and when a key must
    give way to a new one. */
module SenderKeys {
  import opened Common
  import LegStates

  type Outcome = LegStates.Outcome
  type News = LegStates.News
  type Bundle = LegStates.Bundle

  const SENDER_KEY_MAX_AGE_MS: int := 90 * 24 * 60 * 60 * 1000
  const QUEUED_KEY_WAIT_MS: int := 60 * 60 * 1000

  datatype Device = Device(account: string, id: nat, registration: nat)

  /** One key: the devices that hold it, and when it was handed to this account's server for others. */
  datatype Book = Book(key: nat, createdAt: int, devices: set<Device>, queued: map<Device, int>)

  datatype Recipient = Recipient(account: string, bundles: seq<Bundle>)

  function DeviceOf(account: string, b: Bundle): Device {
    Device(account, b.device, b.registration)
  }

  function DevicesOf(account: string, bundles: seq<Bundle>): set<Device> {
    set b | b in bundles :: DeviceOf(account, b)
  }

  function Current(recipients: seq<Recipient>): set<Device> {
    if recipients == [] then {}
    else
      var last := recipients[|recipients| - 1];
      Current(recipients[..|recipients| - 1]) + DevicesOf(last.account, last.bundles)
  }

  lemma {:induction false} CurrentIs(recipients: seq<Recipient>)
    ensures forall r :: r in recipients ==> DevicesOf(r.account, r.bundles) <= Current(recipients)
    ensures forall d :: d in Current(recipients) ==> exists r :: r in recipients && d in DevicesOf(r.account, r.bundles)
  {
    if recipients != [] {
      var n := |recipients| - 1;
      CurrentIs(recipients[..n]);
      assert recipients == recipients[..n] + [recipients[n]];
    }
  }

  predicate MustRotate(book: Book, now: int, current: set<Device>) {
    SaturatingSub(now, book.createdAt) >= SENDER_KEY_MAX_AGE_MS || !(book.devices <= current)
  }

  predicate QueuedLately(book: Book, d: Device, now: int) {
    d in book.queued && SaturatingSub(now, book.queued[d]) < QUEUED_KEY_WAIT_MS
  }

  function Missing(book: Book, current: set<Device>, now: int): set<Device> {
    set d | d in current && d !in book.devices && !QueuedLately(book, d, now)
  }

  /** The devices of a recipient the key is handed to: those whose number one of the missing has. */
  function HandedTo(missing: set<Device>, r: Recipient): set<Device> {
    set d | d in DevicesOf(r.account, r.bundles) && exists m :: m in missing && m.account == d.account && m.id == d.id
  }

  function WithoutAccount(queued: map<Device, int>, account: string): map<Device, int> {
    map d | d in queued && d.account != account :: queued[d]
  }

  /** The book after one account's server answered for a key handed to `devices`. */
  function Answered(book: Book, account: string, devices: set<Device>, o: Option<Outcome>, now: int): Book {
    if o == Some(LegStates.Pending) then book.(queued := book.queued + map d | d in devices :: now)
    else if o == Some(LegStates.Delivered) then
      book.(devices := book.devices + devices, queued := book.queued - (book.devices + devices))
    else if o == Some(LegStates.DeviceMismatch) then book.(queued := WithoutAccount(book.queued, account))
    else book
  }

  /** What a pass over messages tells the book. */
  function Told(book: Book, n: News): Book {
    match n
    case Stored(account, ids) =>
      var held := book.devices + set d | d in book.queued && d.account == account && d.id in ids;
      book.(devices := held, queued := book.queued - held)
    case Mismatch(account) => book.(queued := WithoutAccount(book.queued, account))
    case TokenRefused(_, _) => book
  }

  function ToldAll(book: Book, news: seq<News>): Book {
    if news == [] then book else Told(ToldAll(book, news[..|news| - 1]), news[|news| - 1])
  }

  /** A repair handed the key to one device; the book has it from then on, unless it has that device
      already or the device's bundle is not `known`. */
  function Repaired(book: Book, d: Device, known: bool): Book {
    if !known || exists held :: held in book.devices && held.account == d.account && held.id == d.id then book
    else book.(devices := book.devices + {d})
  }

  // ----- handing the key out -----

  /** What a hand-out is made of: who the message goes to, the clock, the servers' answers, a new key. */
  datatype Occasion = Occasion(recipients: seq<Recipient>, now: int, answers: nat -> Option<Outcome>, newKey: nat)

  /** A new key is started for the occasion. */
  predicate Replaced(book: Option<Book>, o: Occasion) {
    book.None? || MustRotate(book.value, o.now, Current(o.recipients))
  }

  function StartOf(book: Option<Book>, o: Occasion): Book {
    if Replaced(book, o) then Book(o.newKey, o.now, {}, map[]) else book.value
  }

  function Handed(book: Option<Book>, o: Occasion, k: nat): set<Device>
    requires k < |o.recipients|
  {
    var start := StartOf(book, o);
    HandedTo(Missing(start, Current(o.recipients), o.now), o.recipients[k])
  }

  /** The book once the first `n` recipients' servers have answered. */
  function AfterAnswers(book: Option<Book>, o: Occasion, n: nat): Book
    requires n <= |o.recipients|
  {
    if n == 0 then StartOf(book, o)
    else
      var devices := Handed(book, o, n - 1);
      var before := AfterAnswers(book, o, n - 1);
      if devices == {} then before else Answered(before, o.recipients[n - 1].account, devices, o.answers(n - 1), o.now)
  }

  function AfterHandOut(book: Option<Book>, o: Occasion): Book {
    AfterAnswers(book, o, |o.recipients|)
  }

  lemma {:induction false} OneAnswerMore(book: Option<Book>, o: Occasion, k: nat)
    requires k < |o.recipients|
    ensures var (devices, before) := (Handed(book, o, k), AfterAnswers(book, o, k));
            AfterAnswers(book, o, k + 1) ==
            if devices == {} then before else Answered(before, o.recipients[k].account, devices, o.answers(k), o.now)
  {
  }

  /** `sends` is what goes to the first `n` recipients: nothing to one whose devices all have the key. */
  ghost predicate IsHandOut(book: Option<Book>, o: Occasion, n: nat, sends: map<nat, set<Device>>)
    requires n <= |o.recipients|
  {
    && (forall k: nat :: k in sends <==> k < n && Handed(book, o, k) != {})
    && (forall k: nat :: k in sends ==> sends[k] == Handed(book, o, k))
  }

  /** Whose key it is: the group's record, as far as the book goes. */
  class KeyKeeper {
    var book: Option<Book>

    constructor ()
      ensures book == None
    {
      book := None;
    }

    /** Gives the key to every current device without it, a new key first when it must; the book as the
        message is encrypted under it. A failure to seal hands nothing out and changes nothing stored. */
    method DistributeSenderKey(o: Occasion, seals: nat -> bool) returns (used: Option<Book>, sends: map<nat, set<Device>>)
      modifies this
      ensures used.None? <==> exists k :: 0 <= k < |o.recipients| && Handed(old(book), o, k) != {} && !seals(k)
      ensures used.None? ==> book == old(book) && sends == map[]
      ensures used.Some? ==> used.value == AfterHandOut(old(book), o) && IsHandOut(old(book), o, |o.recipients|, sends)
      ensures used.Some? ==> book == if Missing(StartOf(old(book), o), Current(o.recipients), o.now) == {} then old(book) else used
    {
      var current := Current(o.recipients);
      var start := if book.None? || MustRotate(book.value, o.now, current) then Book(o.newKey, o.now, {}, map[]) else book.value;
      var missing := Missing(start, current, o.now);
      if missing == {} {
        NoneMissing(book, o, |o.recipients|);
        return Some(start), map[];
      }
      var sealed;
      sealed, sends := SealAll(o, missing, seals, book);
      if !sealed {
        return None, map[];
      }
      var b := AnswerAll(o, start, sends, book);
      book := Some(b);
      used := book;
    }

    method AnswerAll(o: Occasion, start: Book, sends: map<nat, set<Device>>, ghost was: Option<Book>) returns (b: Book)
      requires start == StartOf(was, o) && IsHandOut(was, o, |o.recipients|, sends)
      ensures b == AfterHandOut(was, o)
    {
      b := start;
      for k := 0 to |o.recipients|
        invariant b == AfterAnswers(was, o, k)
      {
        OneAnswerMore(was, o, k);
        if k in sends {
          b := TakeAnswer(b, o.recipients[k].account, sends[k], o.answers(k), o.now);
        }
      }
    }

    method SealAll(o: Occasion, missing: set<Device>, seals: nat -> bool, ghost b: Option<Book>) returns (sealed: bool, sends: map<nat, set<Device>>)
      requires missing == Missing(StartOf(b, o), Current(o.recipients), o.now)
      ensures sealed <==> forall k :: 0 <= k < |o.recipients| && Handed(b, o, k) != {} ==> seals(k)
      ensures sealed ==> IsHandOut(b, o, |o.recipients|, sends)
    {
      sends := map[];
      for k := 0 to |o.recipients|
        invariant IsHandOut(b, o, k, sends)
        invariant forall j :: 0 <= j < k && Handed(b, o, j) != {} ==> seals(j)
      {
        var devices := HandedTo(missing, o.recipients[k]);
        assert devices == Handed(b, o, k);
        if devices != {} {
          if !seals(k) {
            return false, sends;
          }
          sends := sends[k := devices];
        }
      }
      sealed := true;
    }

    method TakeAnswer(b: Book, account: string, devices: set<Device>, o: Option<Outcome>, now: int) returns (b': Book)
      ensures b' == Answered(b, account, devices, o, now)
    {
      b' := b;
      if o.Some? {
        match o.value {
          case Pending => b' := b.(queued := b.queued + map d | d in devices :: now);
          case Delivered =>
            b' := b.(devices := b.devices + devices);
            b' := b'.(queued := b'.queued - b'.devices);
          case DeviceMismatch => b' := b.(queued := WithoutAccount(b.queued, account));
          case _ =>
        }
      }
    }

    method SettleQueuedKeys(news: seq<News>)
      modifies this
      ensures book == if old(book).None? then None else Some(ToldAll(old(book).value, news))
    {
      if book.None? {
        return;
      }
      var b := book.value;
      for k := 0 to |news|
        invariant b == ToldAll(book.value, news[..k])
      {
        assert news[..k + 1][..k] == news[..k];
        match news[k] {
          case Stored(account, ids) =>
            var arrived := set d | d in b.queued && d.account == account && d.id in ids;
            b := b.(devices := b.devices + arrived);
            b := b.(queued := b.queued - b.devices);
          case Mismatch(account) =>
            b := b.(queued := WithoutAccount(b.queued, account));
          case TokenRefused(_, _) =>
        }
      }
      assert news[..|news|] == news;
      book := Some(b);
    }
  }

  lemma {:induction false} NoneMissing(book: Option<Book>, o: Occasion, n: nat)
    requires n <= |o.recipients| && Missing(StartOf(book, o), Current(o.recipients), o.now) == {}
    ensures AfterAnswers(book, o, n) == StartOf(book, o)
    ensures forall k :: 0 <= k < |o.recipients| ==> Handed(book, o, k) == {}
  {
    if n > 0 {
      NoneMissing(book, o, n - 1);
    }
  }

  // ----- what holds at each encryption -----

  lemma {:induction false} HandedAreCurrent(book: Option<Book>, o: Occasion, k: nat)
    requires k < |o.recipients|
    ensures Handed(book, o, k) <= Current(o.recipients)
  {
    CurrentIs(o.recipients);
    assert o.recipients[k] in o.recipients;
  }

  lemma {:induction false} AnsweredKeeps(book: Book, account: string, devices: set<Device>, o: Option<Outcome>, now: int)
    ensures var b := Answered(book, account, devices, o, now);
            b.key == book.key && b.createdAt == book.createdAt && book.devices <= b.devices <= book.devices + devices
  {
  }

  lemma {:induction false} AnswersKeepCurrent(book: Option<Book>, o: Occasion, n: nat)
    requires n <= |o.recipients|
    ensures var b := AfterAnswers(book, o, n);
            b.devices <= Current(o.recipients) && b.key == StartOf(book, o).key && b.createdAt == StartOf(book, o).createdAt
            && StartOf(book, o).devices <= b.devices
  {
    if n > 0 {
      AnswersKeepCurrent(book, o, n - 1);
      HandedAreCurrent(book, o, n - 1);
      AnsweredKeeps(AfterAnswers(book, o, n - 1), o.recipients[n - 1].account, Handed(book, o, n - 1), o.answers(n - 1), o.now);
    }
  }

  /** Whatever the book was, and whatever the servers answer: when a message is encrypted, every device
      the book has as holding its key is one the message goes to, under the same registration, and the
      key is under 90 days old. A key not too old, held by current devices only, is kept. */
  lemma {:induction false} KeyIsCurrentAtEncryption(book: Option<Book>, o: Occasion)
    requires I64_MIN <= o.now <= I64_MAX
    ensures var b := AfterHandOut(book, o);
            && b.devices <= Current(o.recipients)
            && SaturatingSub(o.now, b.createdAt) < SENDER_KEY_MAX_AGE_MS
            && (b.key == o.newKey || (book.Some? && b.key == book.value.key && book.value.devices <= b.devices))
            && (book.Some? && book.value.devices <= Current(o.recipients) && SaturatingSub(o.now, book.value.createdAt) < SENDER_KEY_MAX_AGE_MS
                ==> b.key == book.value.key)
  {
    AnswersKeepCurrent(book, o, |o.recipients|);
  }

  /** No two current devices have one account and number: what a verified device list has. */
  ghost predicate OncePerDevice(current: set<Device>) {
    forall d, e :: d in current && e in current && d.account == e.account && d.id == e.id ==> d == e
  }

  /** The key is handed to exactly the current devices that neither hold it nor had it queued within
      the hour. */
  lemma {:induction false} HandedExactly(book: Option<Book>, o: Occasion, d: Device)
    requires OncePerDevice(Current(o.recipients))
    ensures (exists k :: 0 <= k < |o.recipients| && d in Handed(book, o, k)) <==>
            d in Missing(StartOf(book, o), Current(o.recipients), o.now)
  {
    var missing := Missing(StartOf(book, o), Current(o.recipients), o.now);
    CurrentIs(o.recipients);
    if d in missing {
      var r :| r in o.recipients && d in DevicesOf(r.account, r.bundles);
      var k :| 0 <= k < |o.recipients| && o.recipients[k] == r;
      assert d in Handed(book, o, k);
    }
    forall k | 0 <= k < |o.recipients| && d in Handed(book, o, k) ensures d in missing {
      HandedAreCurrent(book, o, k);
    }
  }

  // ----- over a history -----

  datatype Event = HandOut(o: Occasion) | Passed(news: seq<News>) | Repair(d: Device, known: bool)

  function Next(book: Book, e: Event): Book {
    match e
    case HandOut(o) => AfterHandOut(Some(book), o)
    case Passed(news) => ToldAll(book, news)
    case Repair(d, known) => Repaired(book, d, known)
  }

  predicate HasOrAwaits(book: Book, d: Device, since: int) {
    d in book.devices || (d in book.queued && book.queued[d] >= since)
  }

  /** Nothing in the event says that what was queued for the device's account may be refused, and the
      key is kept. */
  predicate Undisturbed(book: Book, e: Event, d: Device, since: int) {
    match e
    case HandOut(o) =>
      && StartOf(Some(book), o) == book && o.now >= since
      && forall k :: 0 <= k < |o.recipients| && o.recipients[k].account == d.account ==> o.answers(k) != Some(LegStates.DeviceMismatch)
    case Passed(news) => LegStates.Mismatch(d.account) !in news
    case Repair(_, _) => true
  }

  lemma {:induction false} AnswerLeavesIt(book: Book, account: string, devices: set<Device>, a: Option<Outcome>, now: int, d: Device, since: int)
    requires HasOrAwaits(book, d, since) && since <= now
    requires account == d.account ==> a != Some(LegStates.DeviceMismatch)
    ensures HasOrAwaits(Answered(book, account, devices, a, now), d, since)
  {
  }

  lemma {:induction false} AnswersLeaveIt(book: Book, o: Occasion, n: nat, d: Device, since: int)
    requires n <= |o.recipients| && HasOrAwaits(book, d, since) && Undisturbed(book, HandOut(o), d, since)
    ensures HasOrAwaits(AfterAnswers(Some(book), o, n), d, since)
  {
    if n > 0 {
      AnswersLeaveIt(book, o, n - 1, d, since);
      AnswerLeavesIt(AfterAnswers(Some(book), o, n - 1), o.recipients[n - 1].account, Handed(Some(book), o, n - 1), o.answers(n - 1), o.now, d, since);
    }
  }

  lemma {:induction false} NewsLeaveIt(book: Book, news: seq<News>, d: Device, since: int)
    requires HasOrAwaits(book, d, since) && LegStates.Mismatch(d.account) !in news
    ensures HasOrAwaits(ToldAll(book, news), d, since)
  {
    if news != [] {
      NewsLeaveIt(book, news[..|news| - 1], d, since);
    }
  }

  ghost predicate Run(books: seq<Book>, es: seq<Event>, d: Device, since: int) {
    && |books| == |es| + 1
    && forall k :: 0 <= k < |es| ==> Undisturbed(books[k], es[k], d, since) && books[k + 1] == Next(books[k], es[k])
  }

  lemma {:induction false} RunLeavesIt(books: seq<Book>, es: seq<Event>, d: Device, since: int)
    requires Run(books, es, d, since) && HasOrAwaits(books[0], d, since)
    ensures HasOrAwaits(books[|es|], d, since)
  {
    if es != [] {
      var n := |es| - 1;
      RunLeavesIt(books[..n + 1], es[..n], d, since);
      assert Undisturbed(books[n], es[n], d, since);
      match es[n] {
        case HandOut(o) => AnswersLeaveIt(books[n], o, |o.recipients|, d, since);
        case Passed(news) => NewsLeaveIt(books[n], news, d, since);
        case Repair(_, _) =>
      }
    }
  }

  lemma {:induction false} StillHeld(books: seq<Book>, es: seq<Event>, d: Device, since: int, o: Occasion, k: nat)
    requires Run(books, es, d, since) && HasOrAwaits(books[0], d, since)
    requires var last := books[|es|];
             && StartOf(Some(last), o) == last && OncePerDevice(Current(o.recipients)) && k < |o.recipients|
             && (SaturatingSub(o.now, since) < QUEUED_KEY_WAIT_MS || d in last.devices)
    ensures d !in Handed(Some(books[|es|]), o, k)
  {
    var last := books[|es|];
    RunLeavesIt(books, es, d, since);
    assert d !in Missing(last, Current(o.recipients), o.now);
    HandedExactly(Some(last), o, d);
  }

  predicate Took(a: Option<Outcome>) {
    a == Some(LegStates.Delivered) || a == Some(LegStates.Pending)
  }

  /** A hand-out a server took, stored or queued, is in the book after it, unless the account's devices
      were said to have changed in the same. */
  lemma {:induction false} HandOutIsRemembered(book: Option<Book>, o: Occasion, k: nat, d: Device, n: nat)
    requires k < n <= |o.recipients| && d in Handed(book, o, k) && Took(o.answers(k))
    requires forall j :: 0 <= j < |o.recipients| && o.recipients[j].account == d.account ==> o.answers(j) != Some(LegStates.DeviceMismatch)
    ensures HasOrAwaits(AfterAnswers(book, o, n), d, o.now)
  {
    var (j, before) := (n - 1, AfterAnswers(book, o, n - 1));
    if j == k {
      TakenIsHeld(before, o.recipients[k].account, Handed(book, o, k), o.answers(k), o.now, d);
    } else {
      HandOutIsRemembered(book, o, k, d, j);
      AnswerLeavesIt(before, o.recipients[j].account, Handed(book, o, j), o.answers(j), o.now, d, o.now);
    }
  }

  lemma {:induction false} TakenIsHeld(book: Book, account: string, devices: set<Device>, a: Option<Outcome>, now: int, d: Device)
    requires d in devices && Took(a)
    ensures HasOrAwaits(Answered(book, account, devices, a, now), d, now)
  {
  }

  /** A key a server took for a device is not handed to it again within the hour, and once stored never,
      over any history of hand-outs, passes and repairs that keeps the key and says nothing of the account's
      devices having changed. */
  lemma {:induction false} NotHandedTwice(book: Option<Book>, first: Occasion, j: nat, books: seq<Book>, es: seq<Event>, d: Device, o: Occasion, k: nat)
    requires j < |first.recipients| && d in Handed(book, first, j) && Took(first.answers(j))
    requires forall i :: 0 <= i < |first.recipients| && first.recipients[i].account == d.account ==> first.answers(i) != Some(LegStates.DeviceMismatch)
    requires Run(books, es, d, first.now) && books[0] == AfterHandOut(book, first)
    requires var last := books[|es|];
             && StartOf(Some(last), o) == last && OncePerDevice(Current(o.recipients)) && k < |o.recipients|
             && (SaturatingSub(o.now, first.now) < QUEUED_KEY_WAIT_MS || d in last.devices)
    ensures d !in Handed(Some(books[|es|]), o, k)
  {
    HandOutIsRemembered(book, first, j, d, |first.recipients|);
    StillHeld(books, es, d, first.now, o, k);
  }

  // ----- the order of what is told -----

  /** One thing at most is told of an account. */
  predicate OnePerAccount(news: seq<News>) {
    forall a, b :: a in news && b in news && a.account == b.account ==> a == b
  }

  predicate Arrives(news: seq<News>, d: Device) {
    exists n :: n in news && n.Stored? && n.account == d.account && d.id in n.devices
  }

  predicate AnyStored(news: seq<News>) {
    exists n :: n in news && n.Stored?
  }

  /** The book after `news` of which one at most is of any account: their order does not come into it. */
  function BookAfter(book: Book, news: seq<News>): Book {
    var held := book.devices + set d | d in book.queued && Arrives(news, d);
    book.(devices := held,
          queued := map d | d in book.queued && LegStates.Mismatch(d.account) !in news && !(AnyStored(news) && d in held) :: book.queued[d])
  }

  lemma {:induction false} ToldOne(book: Book, news: seq<News>, n: News)
    requires OnePerAccount(news + [n])
    ensures Told(BookAfter(book, news), n) == BookAfter(book, news + [n])
  {
    var all := news + [n];
    var (x, y) := (Told(BookAfter(book, news), n), BookAfter(book, all));
    HoldersTold(book, news, n);
    QueueTold(book, news, n);
  }

  lemma {:induction false} HoldersTold(book: Book, news: seq<News>, n: News)
    requires OnePerAccount(news + [n])
    ensures Told(BookAfter(book, news), n).devices == BookAfter(book, news + [n]).devices
  {
    var (x, y) := (Told(BookAfter(book, news), n), BookAfter(book, news + [n]));
    OneMoreTold(news, n);
    forall d ensures d in x.devices <==> d in y.devices {
      DeviceTold(book, news, n, d);
    }
  }

  lemma {:induction false} QueueTold(book: Book, news: seq<News>, n: News)
    requires OnePerAccount(news + [n])
    ensures Told(BookAfter(book, news), n).queued == BookAfter(book, news + [n]).queued
  {
    var (x, y) := (Told(BookAfter(book, news), n), BookAfter(book, news + [n]));
    OneMoreTold(news, n);
    HoldersTold(book, news, n);
    assert x.queued.Keys == y.queued.Keys;
  }

  lemma {:induction false} OneMoreTold(news: seq<News>, n: News)
    ensures var all := news + [n];
            && (forall a :: LegStates.Mismatch(a) in all <==> LegStates.Mismatch(a) in news || LegStates.Mismatch(a) == n)
            && (forall d :: Arrives(all, d) <==> Arrives(news, d) || Arrives([n], d))
            && (AnyStored(all) <==> AnyStored(news) || n.Stored?)
  {
    var all := news + [n];
    assert n in all && forall o :: o in all <==> o in news || o == n;
    forall d ensures Arrives(all, d) <==> Arrives(news, d) || Arrives([n], d) {
      if Arrives(news, d) {
        var o :| o in news && o.Stored? && o.account == d.account && d.id in o.devices;
        assert o in all;
      }
    }
  }

  /** A device one of them is told of has not been dropped or taken by what was told before. */
  lemma {:induction false} DeviceTold(book: Book, news: seq<News>, n: News, d: Device)
    requires OnePerAccount(news + [n])
    ensures d in Told(BookAfter(book, news), n).devices <==> d in book.devices || (d in book.queued && (Arrives(news, d) || Arrives([n], d)))
  {
    assert n in news + [n] && forall o :: o in news ==> o in news + [n];
    assert n in [n];
  }

  lemma {:induction false} ToldIsBookAfter(book: Book, news: seq<News>)
    requires OnePerAccount(news)
    ensures ToldAll(book, news) == if news == [] then book else BookAfter(book, news)
  {
    if news != [] {
      var n := |news| - 1;
      assert news == news[..n] + [news[n]];
      assert OnePerAccount(news[..n]);
      ToldIsBookAfter(book, news[..n]);
      BookAfterNone(book);
      ToldOne(book, news[..n], news[n]);
    }
  }

  lemma {:induction false} BookAfterNone(book: Book)
    ensures BookAfter(book, []) == book
  {
    assert BookAfter(book, []).queued == book.queued;
  }

  /** What is told of different accounts leaves one book, in whatever order and however often. */
  lemma {:induction false} ToldInAnyOrder(book: Book, a: seq<News>, b: seq<News>)
    requires OnePerAccount(a) && forall n :: n in a <==> n in b
    ensures ToldAll(book, a) == ToldAll(book, b)
  {
    ToldIsBookAfter(book, a);
    ToldIsBookAfter(book, b);
    BookAfterNone(book);
    assert BookAfter(book, a) == BookAfter(book, b);
  }

  lemma {:induction false} ToldOnAndOn(book: Book, a: seq<News>, b: seq<News>)
    ensures ToldAll(book, a + b) == ToldAll(ToldAll(book, a), b)
  {
    if b == [] {
      assert a + b == a;
    } else {
      var n := |b| - 1;
      ToldOnAndOn(book, a, b[..n]);
      assert (a + b)[..|a + b| - 1] == a + b[..n];
    }
  }

  // ----- what the book does not see -----

  /** A key over its history: the book, every device a server took it for or a repair handed it to, and
      those of them the book lost sight of, dropped from the queue over a mismatch or not entered. */
  datatype Trace = Trace(book: Book, taken: set<Device>, dropped: set<Device>)

  function QueuedOf(book: Book, account: string): set<Device> {
    set d | d in book.queued && d.account == account
  }

  function TraceAnswer(t: Trace, account: string, devices: set<Device>, a: Option<Outcome>, now: int): Trace {
    Trace(Answered(t.book, account, devices, a, now),
          if Took(a) then t.taken + devices else t.taken,
          if a == Some(LegStates.DeviceMismatch) then t.dropped + QueuedOf(t.book, account) else t.dropped)
  }

  function TraceNews(t: Trace, n: News): Trace {
    Trace(Told(t.book, n), t.taken, if n.Mismatch? then t.dropped + QueuedOf(t.book, n.account) else t.dropped)
  }

  function TraceAll(t: Trace, news: seq<News>): Trace {
    if news == [] then t else TraceNews(TraceAll(t, news[..|news| - 1]), news[|news| - 1])
  }

  function TraceRepair(t: Trace, d: Device, known: bool): Trace {
    var book := Repaired(t.book, d, known);
    Trace(book, t.taken + {d}, if d in book.devices then t.dropped else t.dropped + {d})
  }

  function BookOf(t: Option<Trace>): Option<Book> {
    if t.None? then None else Some(t.value.book)
  }

  /** The key a message is encrypted under, as the first `n` recipients' servers have answered. */
  function TraceUpTo(t: Option<Trace>, o: Occasion, n: nat): Trace
    requires n <= |o.recipients|
  {
    if n == 0 then
      if Replaced(BookOf(t), o) then Trace(StartOf(BookOf(t), o), {}, {}) else t.value
    else
      var devices := Handed(BookOf(t), o, n - 1);
      var before := TraceUpTo(t, o, n - 1);
      if devices == {} then before else TraceAnswer(before, o.recipients[n - 1].account, devices, o.answers(n - 1), o.now)
  }

  function TraceHandOut(t: Option<Trace>, o: Occasion): Trace {
    TraceUpTo(t, o, |o.recipients|)
  }

  /** The key as it is kept after a history: a hand-out with nobody to hand it to keeps nothing. */
  function KeptAfter(es: seq<Event>): Option<Trace> {
    if es == [] then None
    else
      var t := KeptAfter(es[..|es| - 1]);
      match es[|es| - 1]
      case HandOut(o) =>
        if Missing(StartOf(BookOf(t), o), Current(o.recipients), o.now) == {} then t else Some(TraceHandOut(t, o))
      case Passed(news) => if t.None? then None else Some(TraceAll(t.value, news))
      case Repair(d, known) => if t.None? then None else Some(TraceRepair(t.value, d, known))
  }

  lemma {:induction false} TraceHasTheBook(t: Option<Trace>, o: Occasion, n: nat)
    requires n <= |o.recipients|
    ensures TraceUpTo(t, o, n).book == AfterAnswers(BookOf(t), o, n)
  {
    if n > 0 {
      TraceHasTheBook(t, o, n - 1);
    }
  }

  /** The devices the key was taken for are those the book has as holding it, has queued, or lost. */
  predicate Whole(t: Trace) {
    t.taken == t.book.devices + t.book.queued.Keys + t.dropped
  }

  lemma {:induction false} AnswerKeepsWhole(t: Trace, account: string, devices: set<Device>, a: Option<Outcome>, now: int)
    requires Whole(t)
    ensures Whole(TraceAnswer(t, account, devices, a, now))
  {
  }

  lemma {:induction false} NewsKeepsWhole(t: Trace, news: seq<News>)
    requires Whole(t)
    ensures Whole(TraceAll(t, news))
  {
    if news != [] {
      NewsKeepsWhole(t, news[..|news| - 1]);
    }
  }

  lemma {:induction false} HandOutKeepsWhole(t: Option<Trace>, o: Occasion, n: nat)
    requires n <= |o.recipients| && (t.Some? ==> Whole(t.value))
    ensures Whole(TraceUpTo(t, o, n))
  {
    if n > 0 {
      HandOutKeepsWhole(t, o, n - 1);
      AnswerKeepsWhole(TraceUpTo(t, o, n - 1), o.recipients[n - 1].account, Handed(BookOf(t), o, n - 1), o.answers(n - 1), o.now);
    }
  }

  lemma {:induction false} HistoryIsWhole(es: seq<Event>)
    ensures KeptAfter(es).Some? ==> Whole(KeptAfter(es).value)
  {
    if es != [] {
      HistoryIsWhole(es[..|es| - 1]);
      var t := KeptAfter(es[..|es| - 1]);
      match es[|es| - 1] {
        case HandOut(o) => HandOutKeepsWhole(t, o, |o.recipients|);
        case Passed(news) =>
          if t.Some? {
            NewsKeepsWhole(t.value, news);
          }
        case Repair(_, _) =>
      }
    }
  }

  /** What a hand-out adds went to devices it is for. */
  lemma {:induction false} TakenSince(t: Option<Trace>, o: Occasion, n: nat)
    requires n <= |o.recipients|
    ensures var start := TraceUpTo(t, o, 0).taken;
            start <= TraceUpTo(t, o, n).taken <= start + Current(o.recipients)
  {
    if n > 0 {
      TakenSince(t, o, n - 1);
      HandedAreCurrent(BookOf(t), o, n - 1);
    }
  }

  /** Over any history of hand-outs, passes and repairs, exactly when every device the key of a message may
      have reached is one the message goes to: the key was replaced for it, or no device has left that the
      book, as it was before, had the key only queued for, or had lost sight of. A device it had as holding
      the key never has: the key is replaced then. */
  lemma {:induction false} HoldersAreCurrentExactly(es: seq<Event>, o: Occasion)
    ensures var t := KeptAfter(es);
            && TraceHandOut(t, o).book == AfterHandOut(BookOf(t), o)
            && (TraceHandOut(t, o).taken <= Current(o.recipients) <==>
                  || Replaced(BookOf(t), o)
                  || t.value.book.queued.Keys + t.value.dropped <= Current(o.recipients))
  {
    var t := KeptAfter(es);
    HistoryIsWhole(es);
    TraceHasTheBook(t, o, |o.recipients|);
    TakenSince(t, o, |o.recipients|);
  }

  // ----- when the book alone tells -----

  /** The book loses sight of no device: no server says that an account's devices changed, and a repair
      enters the device it went to. */
  predicate LosesNone(t: Option<Trace>, e: Event) {
    match e
    case HandOut(o) => forall k :: 0 <= k < |o.recipients| ==> o.answers(k) != Some(LegStates.DeviceMismatch)
    case Passed(news) => forall n :: n in news ==> !n.Mismatch?
    case Repair(d, known) => t.Some? ==> d in Repaired(t.value.book, d, known).devices
  }

  predicate LosesNoneAt(es: seq<Event>, k: nat)
    requires k < |es|
  {
    LosesNone(KeptAfter(es[..k]), es[k])
  }

  lemma {:induction false} AnswersDropNone(t: Option<Trace>, o: Occasion, n: nat)
    requires n <= |o.recipients| && LosesNone(t, HandOut(o)) && (t.Some? ==> t.value.dropped == {})
    ensures TraceUpTo(t, o, n).dropped == {}
  {
    if n > 0 {
      AnswersDropNone(t, o, n - 1);
    }
  }

  lemma {:induction false} NewsDropsNone(t: Trace, news: seq<News>)
    requires t.dropped == {} && forall n :: n in news ==> !n.Mismatch?
    ensures TraceAll(t, news).dropped == {}
  {
    if news != [] {
      NewsDropsNone(t, news[..|news| - 1]);
    }
  }

  lemma {:induction false} NoneDropped(es: seq<Event>, n: nat)
    requires n <= |es| && forall k :: 0 <= k < n ==> LosesNoneAt(es, k)
    ensures KeptAfter(es[..n]).Some? ==> KeptAfter(es[..n]).value.dropped == {}
  {
    if n > 0 {
      NoneDropped(es, n - 1);
      assert LosesNoneAt(es, n - 1);
      assert es[..n][..n - 1] == es[..n - 1];
      var t := KeptAfter(es[..n - 1]);
      match es[n - 1] {
        case HandOut(o) => AnswersDropNone(t, o, |o.recipients|);
        case Passed(news) =>
          if t.Some? {
            NewsDropsNone(t.value, news);
          }
        case Repair(_, _) =>
      }
    }
  }

  /** Where the book lost sight of no device, what it says of the queue decides: every device the key may
      have reached is one the message goes to exactly when the key is replaced or none queued has left. */
  lemma {:induction false} TheQueueTells(es: seq<Event>, o: Occasion)
    requires forall k :: 0 <= k < |es| ==> LosesNoneAt(es, k)
    ensures var t := KeptAfter(es);
            TraceHandOut(t, o).taken <= Current(o.recipients) <==>
              Replaced(BookOf(t), o) || t.value.book.queued.Keys <= Current(o.recipients)
  {
    HoldersAreCurrentExactly(es, o);
    NoneDropped(es, |es|);
    assert es[..|es|] == es;
  }

  /** Such a device there is: of two members handed the key, one's server stores it and the other's only
      queues it; the other leaves, and the next message goes out under the key that may yet reach it. */
  lemma {:induction false} QueuedKeyOutlivesMembership() returns (first: Occasion, next: Occasion, gone: Device)
    ensures var t := KeptAfter([HandOut(first)]);
            && t.Some? && gone in t.value.taken && gone !in Current(next.recipients)
            && gone in Current(first.recipients) && !Replaced(BookOf(t), next)
            && gone in TraceHandOut(t, next).taken && TraceHandOut(t, next).book.key == t.value.book.key
  {
    var (me, stays, leaves) := (Recipient("me", []), Recipient("stays", [LegStates.Bundle(1, 1)]), Recipient("leaves", [LegStates.Bundle(1, 2)]));
    gone := Device("leaves", 1, 2);
    var stored := Device("stays", 1, 1);
    first := Occasion([me, stays, leaves], 0, (k: nat) => if k == 1 then Some(LegStates.Delivered) else Some(LegStates.Pending), 1);
    next := Occasion([me, stays], 1, (k: nat) => None, 2);
    TwoAreHanded(first, me, stays, leaves);
    OneIsLeft(next, me, stays);
    var es := [HandOut(first)];
    assert es[..0] == [] && KeptAfter(es[..0]) == None;
    var t := TraceHandOut(None, first);
    assert KeptAfter(es) == Some(t);
    TakenSince(Some(t), next, 2);
    TraceHasTheBook(Some(t), next, 2);
    AnswersKeepCurrent(Some(t.book), next, 2);
  }

  lemma {:induction false} TwoAreHanded(o: Occasion, me: Recipient, stays: Recipient, leaves: Recipient)
    requires o.recipients == [me, stays, leaves] && o.now == 0 && o.newKey == 1
    requires me == Recipient("me", []) && stays == Recipient("stays", [LegStates.Bundle(1, 1)]) && leaves == Recipient("leaves", [LegStates.Bundle(1, 2)])
    requires o.answers(1) == Some(LegStates.Delivered) && o.answers(2) == Some(LegStates.Pending)
    ensures var (stored, gone) := (Device("stays", 1, 1), Device("leaves", 1, 2));
            && Current(o.recipients) == {stored, gone}
            && Missing(StartOf(None, o), Current(o.recipients), o.now) == {stored, gone}
            && TraceHandOut(None, o) == Trace(Book(1, 0, {stored}, map[gone := 0]), {stored, gone}, {})
  {
    var (stored, gone) := (Device("stays", 1, 1), Device("leaves", 1, 2));
    var rs := o.recipients;
    assert rs[..2] == [me, stays] && rs[..2][..1] == [me] && rs[..2][..1][..0] == [];
    OneDevice("stays", LegStates.Bundle(1, 1));
    OneDevice("leaves", LegStates.Bundle(1, 2));
    assert [me, stays][..1] == [me] && Current([me]) == {};
    assert Current([me, stays]) == {stored};
    assert Current(rs) == {stored, gone};
    assert Missing(StartOf(None, o), Current(rs), 0) == {stored, gone};
    assert Handed(None, o, 0) == {} && Handed(None, o, 1) == {stored} && Handed(None, o, 2) == {gone};
    assert TraceUpTo(None, o, 1) == Trace(Book(1, 0, {}, map[]), {}, {});
    assert TraceUpTo(None, o, 2) == Trace(Book(1, 0, {stored}, map[]), {stored}, {});
    assert TraceUpTo(None, o, 3).book.queued == map[gone := 0];
  }

  lemma {:induction false} OneDevice(account: string, b: Bundle)
    ensures DevicesOf(account, [b]) == {DeviceOf(account, b)}
  {
    assert b in [b];
  }

  lemma {:induction false} OneIsLeft(o: Occasion, me: Recipient, stays: Recipient)
    requires o.recipients == [me, stays] && me == Recipient("me", []) && stays == Recipient("stays", [LegStates.Bundle(1, 1)])
    ensures Current(o.recipients) == {Device("stays", 1, 1)}
  {
    assert o.recipients[..1] == [me] && [me][..0] == [];
    OneDevice("stays", LegStates.Bundle(1, 1));
    assert Current([me]) == {};
  }
}
