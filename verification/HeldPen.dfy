/** What a receive pass sets aside for later: who may keep how many, and
    which one is given up when a group's room is used up. */
module HeldPen {
  import opened Common

  const GROUP_HOLD_MS := 7 * 24 * 60 * 60 * 1000
  const MAX_HELD_PER_SENDER: nat := 32
  const MAX_HELD_PER_STRANGER: nat := 8
  const MAX_HELD_PER_GROUP: nat := 256

  /** An envelope set aside; `member` when its sender was of the verified state on arrival. */
  datatype Held = Held(sender: string, member: bool, id: string, envelope: string)

  datatype HoldDecision = Keep | KeepEvicting(id: string, envelope: string) | Drop

  /** A sender with envelopes waiting, as the full group looks for one to give up. */
  datatype Holder = Holder(member: bool, count: nat, sender: string)

  // ----- what the pen means -----

  function Count(held: seq<Held>, sender: string): nat {
    if held == [] then 0
    else Count(held[..|held| - 1], sender) + if held[|held| - 1].sender == sender then 1 else 0
  }

  function Cap(member: bool): nat {
    if member then MAX_HELD_PER_SENDER else MAX_HELD_PER_STRANGER
  }

  predicate TooOld(receivedAt: int, now: int) {
    SaturatingSub(now, receivedAt) >= GROUP_HOLD_MS
  }

  /** The senders of the first `n` envelopes, each once, in order of first appearance,
      with how many envelopes each has in the whole pen. */
  function HoldersUpTo(held: seq<Held>, n: nat): seq<Holder>
    requires n <= |held|
  {
    if n == 0 then []
    else
      var before := HoldersUpTo(held, n - 1);
      var h := held[n - 1];
      if Listed(before, h.sender) then before
      else before + [Holder(h.member, Count(held, h.sender), h.sender)]
  }

  predicate Listed(holders: seq<Holder>, sender: string) {
    exists i :: 0 <= i < |holders| && holders[i].sender == sender
  }

  /** Who may be asked to give one up for a sender that holds `mine`: a stranger for a
      member, else only a holder of the same standing with clearly more. */
  predicate Eligible(h: Holder, member: bool, mine: nat) {
    (member && !h.member) || (h.member == member && h.count > mine + 1)
  }

  /** Strangers before members, then the larger count. */
  predicate KeyAtMost(a: Holder, b: Holder) {
    if a.member == b.member then a.count <= b.count else a.member
  }

  /** The last greatest of the eligible holders, as `max_by_key` picks it. */
  function Victim(holders: seq<Holder>, member: bool, mine: nat): Option<Holder> {
    if holders == [] then None
    else
      var best := Victim(holders[..|holders| - 1], member, mine);
      var h := holders[|holders| - 1];
      if Eligible(h, member, mine) && (best.None? || KeyAtMost(best.value, h)) then Some(h) else best
  }

  /** The place of the sender's newest envelope. */
  function LastPlace(held: seq<Held>, sender: string): (i: nat)
    requires Count(held, sender) > 0
    ensures i < |held| && held[i].sender == sender
    ensures forall j :: i < j < |held| ==> held[j].sender != sender
  {
    if held[|held| - 1].sender == sender then |held| - 1
    else LastPlace(held[..|held| - 1], sender)
  }

  function Without(held: seq<Held>, i: nat): seq<Held>
    requires i < |held|
  {
    held[..i] + held[i + 1..]
  }

  /** What becomes of one offered envelope, and of the group's waiting ones. */
  datatype Outcome = Kept(after: seq<Held>) | Evicted(after: seq<Held>, gone: Held) | Dropped(after: seq<Held>)

  function Decision(o: Outcome): HoldDecision {
    match o
    case Kept(_) => Keep
    case Evicted(_, gone) => KeepEvicting(gone.id, gone.envelope)
    case Dropped(_) => Drop
  }

  function Offer(held: seq<Held>, e: Held, tooOld: bool): Outcome {
    var mine := Count(held, e.sender);
    if tooOld || mine >= Cap(e.member) then Dropped(held)
    else if |held| < MAX_HELD_PER_GROUP then Kept(held + [e])
    else
      match Victim(HoldersUpTo(held, |held|), e.member, mine)
      case None => Dropped(held)
      case Some(v) =>
        VictimIsAHolder(held, e.member, mine);
        var place := LastPlace(held, v.sender);
        Evicted(Without(held, place) + [e], held[place])
  }

  // ----- the pen as the engine keeps it -----

  class HeldEnvelopes {
    var byGroup: map<string, seq<Held>>

    constructor ()
      ensures byGroup == map[]
    {
      byGroup := map[];
    }

    function Of(group: string): seq<Held>
      reads this
    {
      if group in byGroup then byGroup[group] else []
    }

    /** Decides one envelope that would wait. */
    method Keep(group: string, sender: string, member: bool, id: string, envelope: string, receivedAt: int, now: int)
      returns (d: HoldDecision)
      modifies this
      ensures var o := Offer(old(Of(group)), Held(sender, member, id, envelope), TooOld(receivedAt, now));
              d == Decision(o) && Of(group) == o.after
      ensures forall other :: other != group ==> Of(other) == old(Of(other))
    {
      if SaturatingSub(now, receivedAt) >= GROUP_HOLD_MS {
        return HoldDecision.Drop;
      }
      var held := Of(group);
      byGroup := byGroup[group := held];
      var mine := CountOf(held, sender);
      if mine >= Cap(member) {
        return HoldDecision.Drop;
      }
      var entry := Held(sender, member, id, envelope);
      if |held| < MAX_HELD_PER_GROUP {
        byGroup := byGroup[group := held + [entry]];
        return HoldDecision.Keep;
      }
      var holders := HoldersOf(held);
      var victim := FindVictim(holders, member, mine);
      if victim.None? {
        return HoldDecision.Drop;
      }
      VictimIsAHolder(held, member, mine);
      var place := FindLast(held, victim.value.sender);
      byGroup := byGroup[group := Without(held, place) + [entry]];
      d := KeepEvicting(held[place].id, held[place].envelope);
    }
  }

  method CountOf(held: seq<Held>, sender: string) returns (n: nat)
    ensures n == Count(held, sender)
  {
    n := 0;
    for i := 0 to |held|
      invariant n == Count(held[..i], sender)
    {
      assert held[..i + 1][..i] == held[..i];
      if held[i].sender == sender {
        n := n + 1;
      }
    }
    assert held[..|held|] == held;
  }

  method HoldersOf(held: seq<Held>) returns (holders: seq<Holder>)
    ensures holders == HoldersUpTo(held, |held|)
  {
    holders := [];
    for i := 0 to |held|
      invariant holders == HoldersUpTo(held, i)
    {
      if !exists k :: 0 <= k < |holders| && holders[k].sender == held[i].sender {
        var n := CountOf(held, held[i].sender);
        holders := holders + [Holder(held[i].member, n, held[i].sender)];
      }
    }
  }

  method FindLast(held: seq<Held>, sender: string) returns (place: nat)
    requires Count(held, sender) > 0
    ensures place == LastPlace(held, sender)
  {
    place := |held| - 1;
    while held[place].sender != sender
      invariant LastPlace(held, sender) <= place < |held|
      decreases place
    {
      place := place - 1;
    }
  }

  method FindVictim(holders: seq<Holder>, member: bool, mine: nat) returns (best: Option<Holder>)
    ensures best == Victim(holders, member, mine)
  {
    best := None;
    for i := 0 to |holders|
      invariant best == Victim(holders[..i], member, mine)
    {
      assert holders[..i + 1][..i] == holders[..i];
      var h := holders[i];
      if Eligible(h, member, mine) && (best.None? || KeyAtMost(best.value, h)) {
        best := Some(h);
      }
    }
    assert holders[..|holders|] == holders;
  }

  // ----- the choice of a victim, said without the search -----

  /** `holders[k]` may give one up, no one comes before it, and no one after it ties with it. */
  ghost predicate LastGreatest(holders: seq<Holder>, k: nat, member: bool, mine: nat) {
    && k < |holders|
    && Eligible(holders[k], member, mine)
    && (forall i :: 0 <= i < |holders| && Eligible(holders[i], member, mine) ==> KeyAtMost(holders[i], holders[k]))
    && (forall i :: k < i < |holders| && Eligible(holders[i], member, mine) ==> !KeyAtMost(holders[k], holders[i]))
  }

  lemma {:induction false} VictimIsLastGreatest(holders: seq<Holder>, member: bool, mine: nat)
    ensures var v := Victim(holders, member, mine);
            if v.None? then forall i :: 0 <= i < |holders| ==> !Eligible(holders[i], member, mine)
            else exists k: nat :: LastGreatest(holders, k, member, mine) && holders[k] == v.value
  {
    if holders != [] {
      var init := holders[..|holders| - 1];
      VictimIsLastGreatest(init, member, mine);
      assert forall i :: 0 <= i < |init| ==> init[i] == holders[i];
      var best := Victim(init, member, mine);
      var h := holders[|holders| - 1];
      if Eligible(h, member, mine) && (best.None? || KeyAtMost(best.value, h)) {
        assert LastGreatest(holders, |holders| - 1, member, mine);
      } else if best.Some? {
        var k: nat :| LastGreatest(init, k, member, mine) && init[k] == best.value;
        assert LastGreatest(holders, k, member, mine);
      }
    }
  }

  lemma {:induction false} HoldersAreTheSenders(held: seq<Held>, n: nat)
    requires n <= |held|
    ensures var hs := HoldersUpTo(held, n);
            && (forall i :: 0 <= i < |hs| ==> exists j :: 0 <= j < n && hs[i] == Holder(held[j].member, Count(held, held[j].sender), held[j].sender))
            && (forall j :: 0 <= j < n ==> Listed(hs, held[j].sender))
  {
    if n > 0 {
      HoldersAreTheSenders(held, n - 1);
      var before := HoldersUpTo(held, n - 1);
      var hs := HoldersUpTo(held, n);
      forall j | 0 <= j < n ensures Listed(hs, held[j].sender) {
        if j < n - 1 {
          assert Listed(before, held[j].sender);
          var i :| 0 <= i < |before| && before[i].sender == held[j].sender;
          assert hs[i].sender == held[j].sender;
        } else if !Listed(before, held[j].sender) {
          assert hs[|before|].sender == held[j].sender;
        }
      }
    }
  }

  lemma {:induction false} CountPositive(held: seq<Held>, sender: string)
    ensures Count(held, sender) > 0 <==> exists i :: 0 <= i < |held| && held[i].sender == sender
  {
    if held != [] {
      var init := held[..|held| - 1];
      CountPositive(init, sender);
      assert forall i :: 0 <= i < |init| ==> init[i] == held[i];
      if exists i :: 0 <= i < |init| && init[i].sender == sender {
        var i :| 0 <= i < |init| && init[i].sender == sender;
        assert held[i].sender == sender;
      }
    }
  }

  lemma {:induction false} VictimIsAHolder(held: seq<Held>, member: bool, mine: nat)
    ensures var v := Victim(HoldersUpTo(held, |held|), member, mine);
            v.Some? ==>
              && Count(held, v.value.sender) == v.value.count > 0
              && Eligible(v.value, member, mine)
              && exists j :: 0 <= j < |held| && held[j].sender == v.value.sender && held[j].member == v.value.member
  {
    var hs := HoldersUpTo(held, |held|);
    VictimIsLastGreatest(hs, member, mine);
    HoldersAreTheSenders(held, |held|);
    var v := Victim(hs, member, mine);
    if v.Some? {
      CountPositive(held, v.value.sender);
    }
  }

  // ----- counting -----

  lemma {:induction false} CountOfConcat(a: seq<Held>, b: seq<Held>, sender: string)
    ensures Count(a + b, sender) == Count(a, sender) + Count(b, sender)
  {
    if b == [] {
      assert a + b == a;
    } else {
      CountOfConcat(a, b[..|b| - 1], sender);
      assert (a + b)[..|a + b| - 1] == a + b[..|b| - 1];
    }
  }

  lemma {:induction false} CountOfOne(h: Held, sender: string)
    ensures Count([h], sender) == if h.sender == sender then 1 else 0
  {
    assert [h][..0] == [];
  }

  lemma {:induction false} CountAfterRemoval(held: seq<Held>, i: nat, sender: string)
    requires i < |held|
    ensures Count(held, sender) == Count(Without(held, i), sender) + (if held[i].sender == sender then 1 else 0)
  {
    assert held == held[..i] + [held[i]] + held[i + 1..];
    CountOfConcat(held[..i] + [held[i]], held[i + 1..], sender);
    CountOfConcat(held[..i], [held[i]], sender);
    CountOfConcat(held[..i], held[i + 1..], sender);
    CountOfOne(held[i], sender);
  }

  /** How every sender's count moves with one offer. */
  lemma {:induction false} CountAfterOffer(held: seq<Held>, e: Held, tooOld: bool, sender: string)
    ensures var o := Offer(held, e, tooOld);
            var came := if o.Dropped? || e.sender != sender then 0 else 1;
            var went := if o.Evicted? && o.gone.sender == sender then 1 else 0;
            Count(o.after, sender) == Count(held, sender) + came - went
  {
    var o := Offer(held, e, tooOld);
    CountOfOne(e, sender);
    match o
    case Kept(_) => CountOfConcat(held, [e], sender);
    case Dropped(_) =>
    case Evicted(_, _) =>
      var v := Victim(HoldersUpTo(held, |held|), e.member, Count(held, e.sender)).value;
      VictimIsAHolder(held, e.member, Count(held, e.sender));
      var place := LastPlace(held, v.sender);
      CountAfterRemoval(held, place, sender);
      CountOfConcat(Without(held, place), [e], sender);
  }

  // ----- limits over a pass -----

  /** One offer of a pass. */
  datatype Arrival = Arrival(entry: Held, tooOld: bool)

  /** The pen holds no more than it may, each sender filed under its standing. */
  ghost predicate Within(held: seq<Held>, standing: string -> bool) {
    && |held| <= MAX_HELD_PER_GROUP
    && (forall i :: 0 <= i < |held| ==> held[i].member == standing(held[i].sender))
    && (forall s: string :: Count(held, s) <= Cap(standing(s)))
  }

  lemma {:induction false} OfferKeepsWithin(held: seq<Held>, e: Held, tooOld: bool, standing: string -> bool)
    requires Within(held, standing) && e.member == standing(e.sender)
    ensures Within(Offer(held, e, tooOld).after, standing)
  {
    var after := Offer(held, e, tooOld).after;
    forall s: string ensures Count(after, s) <= Cap(standing(s)) {
      CountAfterOffer(held, e, tooOld, s);
    }
  }

  /** What a pass leaves waiting, and what it gave up: refused on arrival or evicted later. */
  datatype Pass = Pass(waiting: seq<Held>, dropped: multiset<Held>, evicted: multiset<Held>)

  function Take(p: Pass, a: Arrival): Pass {
    match Offer(p.waiting, a.entry, a.tooOld)
    case Kept(after) => p.(waiting := after)
    case Evicted(after, gone) => p.(waiting := after, evicted := p.evicted + multiset{gone})
    case Dropped(_) => p.(dropped := p.dropped + multiset{a.entry})
  }

  function RunPass(held: seq<Held>, arrivals: seq<Arrival>): Pass {
    if arrivals == [] then Pass(held, multiset{}, multiset{})
    else Take(RunPass(held, arrivals[..|arrivals| - 1]), arrivals[|arrivals| - 1])
  }

  function Entries(arrivals: seq<Arrival>): multiset<Held> {
    if arrivals == [] then multiset{}
    else Entries(arrivals[..|arrivals| - 1]) + multiset{arrivals[|arrivals| - 1].entry}
  }

  /** Over any pass every offered envelope is exactly one of waiting, dropped or evicted. */
  lemma {:induction false} PassLosesNothing(held: seq<Held>, arrivals: seq<Arrival>)
    ensures var p := RunPass(held, arrivals);
            multiset(p.waiting) + p.dropped + p.evicted == multiset(held) + Entries(arrivals)
  {
    if arrivals != [] {
      var n := |arrivals| - 1;
      PassLosesNothing(held, arrivals[..n]);
      TakeAccounts(RunPass(held, arrivals[..n]), arrivals[n]);
    }
  }

  lemma {:induction false} TakeAccounts(p: Pass, a: Arrival)
    ensures var t := Take(p, a);
            multiset(t.waiting) + t.dropped + t.evicted == multiset(p.waiting) + p.dropped + p.evicted + multiset{a.entry}
  {
    OfferMovesOne(p.waiting, a.entry, a.tooOld);
    match Offer(p.waiting, a.entry, a.tooOld)
    case Kept(after) =>
    case Dropped(_) =>
    case Evicted(after, gone) => Exchange(multiset(after), gone, multiset(p.waiting), a.entry, p.dropped, p.evicted);
  }

  lemma {:induction false} Exchange(after: multiset<Held>, gone: Held, before: multiset<Held>, e: Held, dropped: multiset<Held>, evicted: multiset<Held>)
    requires after + multiset{gone} == before + multiset{e}
    ensures after + dropped + (evicted + multiset{gone}) == before + dropped + evicted + multiset{e}
  {
    assert after + dropped + (evicted + multiset{gone}) == (after + multiset{gone}) + dropped + evicted;
  }

  lemma {:induction false} OfferMovesOne(held: seq<Held>, e: Held, tooOld: bool)
    ensures var o := Offer(held, e, tooOld);
            match o
            case Kept(after) => multiset(after) == multiset(held) + multiset{e}
            case Evicted(after, gone) => multiset(after) + multiset{gone} == multiset(held) + multiset{e}
            case Dropped(after) => after == held
  {
    var o := Offer(held, e, tooOld);
    if o.Evicted? {
      var v := Victim(HoldersUpTo(held, |held|), e.member, Count(held, e.sender)).value;
      VictimIsAHolder(held, e.member, Count(held, e.sender));
      var place := LastPlace(held, v.sender);
      assert held == held[..place] + [held[place]] + held[place + 1..];
    }
  }

  /** Over any pass in which no sender's standing changes, the limits hold throughout. */
  lemma {:induction false} PassStaysWithin(held: seq<Held>, arrivals: seq<Arrival>, standing: string -> bool)
    requires Within(held, standing)
    requires forall i :: 0 <= i < |arrivals| ==> arrivals[i].entry.member == standing(arrivals[i].entry.sender)
    ensures Within(RunPass(held, arrivals).waiting, standing)
  {
    if arrivals != [] {
      var before := arrivals[..|arrivals| - 1];
      assert forall i :: 0 <= i < |before| ==> before[i] == arrivals[i];
      PassStaysWithin(held, before, standing);
      var a := arrivals[|arrivals| - 1];
      OfferKeepsWithin(RunPass(held, before).waiting, a.entry, a.tooOld, standing);
    }
  }

  /** Even when standings change within the pass, no sender has more than a member may and
      the group has no more than it may. */
  lemma {:induction false} PassIsBounded(arrivals: seq<Arrival>, sender: string)
    ensures var w := RunPass([], arrivals).waiting;
            |w| <= MAX_HELD_PER_GROUP && Count(w, sender) <= MAX_HELD_PER_SENDER
  {
    if arrivals != [] {
      var before := arrivals[..|arrivals| - 1];
      PassIsBounded(before, sender);
      var a := arrivals[|arrivals| - 1];
      CountAfterOffer(RunPass([], before).waiting, a.entry, a.tooOld, sender);
    }
  }

  // ----- members' room -----

  function Members(held: seq<Held>): nat {
    if held == [] then 0
    else Members(held[..|held| - 1]) + if held[|held| - 1].member then 1 else 0
  }

  lemma {:induction false} MembersOfConcat(a: seq<Held>, b: seq<Held>)
    ensures Members(a + b) == Members(a) + Members(b)
  {
    if b == [] {
      assert a + b == a;
    } else {
      MembersOfConcat(a, b[..|b| - 1]);
      assert (a + b)[..|a + b| - 1] == a + b[..|b| - 1];
    }
  }

  lemma {:induction false} MembersAfterOffer(held: seq<Held>, e: Held, tooOld: bool)
    ensures var o := Offer(held, e, tooOld);
            var came := if !o.Dropped? && e.member then 1 else 0;
            var went := if o.Evicted? && o.gone.member then 1 else 0;
            Members(o.after) == Members(held) + came - went
  {
    var o := Offer(held, e, tooOld);
    assert [e][..0] == [];
    match o
    case Kept(_) => MembersOfConcat(held, [e]);
    case Dropped(_) =>
    case Evicted(_, _) =>
      var v := Victim(HoldersUpTo(held, |held|), e.member, Count(held, e.sender)).value;
      VictimIsAHolder(held, e.member, Count(held, e.sender));
      var place := LastPlace(held, v.sender);
      assert held == held[..place] + [held[place]] + held[place + 1..];
      assert [held[place]][..0] == [];
      MembersOfConcat(held[..place] + [held[place]], held[place + 1..]);
      MembersOfConcat(held[..place], [held[place]]);
      MembersOfConcat(held[..place], held[place + 1..]);
      MembersOfConcat(Without(held, place), [e]);
  }

  /** The newest envelope of whoever is asked for one is a member's. */
  predicate AsksAMembers(held: seq<Held>, e: Held) {
    var victim := Victim(HoldersUpTo(held, |held|), e.member, Count(held, e.sender));
    victim.Some? && Count(held, victim.value.sender) > 0 && held[LastPlace(held, victim.value.sender)].member
  }

  /** A sender with a stranger's envelope waiting and a member's. */
  ghost predicate Turned(held: seq<Held>, sender: string) {
    (exists i :: 0 <= i < |held| && held[i].sender == sender && !held[i].member)
    && (exists i :: 0 <= i < |held| && held[i].sender == sender && held[i].member)
  }

  /** Exactly when an arrival costs the members an envelope, whatever the standings did: it is a stranger's
      below its limit, to a full pen, and the newest of the one asked for an envelope is a member's. That
      one then turned from stranger to member while its envelopes waited. */
  lemma {:induction false} ArrivalCostsExactly(held: seq<Held>, e: Held, tooOld: bool)
    ensures Members(Offer(held, e, tooOld).after) < Members(held) <==>
              && !e.member && !tooOld && Count(held, e.sender) < MAX_HELD_PER_STRANGER && |held| >= MAX_HELD_PER_GROUP
              && AsksAMembers(held, e)
    ensures !e.member && AsksAMembers(held, e) ==>
              Turned(held, Victim(HoldersUpTo(held, |held|), e.member, Count(held, e.sender)).value.sender)
  {
    MembersAfterOffer(held, e, tooOld);
    VictimIsAHolder(held, e.member, Count(held, e.sender));
  }

  /** A stranger's arrival never costs a member an envelope, and a member's never does so
      while a stranger has one. */
  lemma {:induction false} StrangersTakeNoMembersRoom(held: seq<Held>, e: Held, tooOld: bool, standing: string -> bool)
    requires Within(held, standing) && e.member == standing(e.sender)
    ensures !e.member ==> Members(Offer(held, e, tooOld).after) >= Members(held)
    ensures e.member && Members(held) < |held| ==> Members(Offer(held, e, tooOld).after) >= Members(held)
  {
    MembersAfterOffer(held, e, tooOld);
    var o := Offer(held, e, tooOld);
    if o.Evicted? {
      var mine := Count(held, e.sender);
      var hs := HoldersUpTo(held, |held|);
      VictimIsAHolder(held, e.member, mine);
      VictimIsLastGreatest(hs, e.member, mine);
      HoldersAreTheSenders(held, |held|);
      if e.member && Members(held) < |held| {
        var j := AStranger(held);
        assert Listed(hs, held[j].sender);
      }
    }
  }

  lemma {:induction false} AStranger(held: seq<Held>) returns (j: nat)
    requires Members(held) < |held|
    ensures j < |held| && !held[j].member
  {
    if !held[|held| - 1].member {
      j := |held| - 1;
    } else {
      j := AStranger(held[..|held| - 1]);
    }
  }

  function Name(k: nat): string { seq(k + 2, _ => 'm') }

  /** `n` members' envelopes, one of each. */
  function Fill(n: nat): seq<Held> {
    if n == 0 then [] else Fill(n - 1) + [Held(Name(n - 1), true, "", "")]
  }

  lemma {:induction false} FillCounts(n: nat, s: string)
    ensures |Fill(n)| == n && (forall i :: 0 <= i < n ==> Fill(n)[i].member)
    ensures Count(Fill(n), s) <= 1 && (|s| < 2 || |s| >= n + 2 ==> Count(Fill(n), s) == 0)
  {
    if n > 0 {
      FillCounts(n - 1, s);
      assert Fill(n)[..n - 1] == Fill(n - 1);
      assert |Name(n - 1)| == n + 1;
    }
  }

  /** The standings must not change within a pass: here a sender that turned from stranger to
      member has a member's envelope given up for a stranger's. */
  lemma {:induction false} AChangedStandingCostsAMember() returns (held: seq<Held>, e: Held)
    ensures |held| == MAX_HELD_PER_GROUP && (forall s: string :: Count(held, s) <= MAX_HELD_PER_SENDER)
    ensures !e.member && Members(Offer(held, e, false).after) < Members(held)
  {
    var n: nat := MAX_HELD_PER_GROUP - 2;
    var fill := Fill(n);
    e := Held("z", false, "", "");
    held := fill + [Held("a", false, "", ""), Held("a", true, "", "")];
    forall s: string ensures Count(fill, s) <= MAX_HELD_PER_SENDER && (|s| == 1 ==> Count(fill, s) == 0) {
      FillCounts(n, s);
    }
    FillCounts(n, "z");
    TheTurnedGivesOneUp(fill, held, e);
  }

  lemma {:induction false} TheTurnedGivesOneUp(fill: seq<Held>, held: seq<Held>, e: Held)
    requires |fill| == MAX_HELD_PER_GROUP - 2
    requires forall i :: 0 <= i < |fill| ==> fill[i].member
    requires forall s: string :: Count(fill, s) <= MAX_HELD_PER_SENDER && (|s| == 1 ==> Count(fill, s) == 0)
    requires held == fill + [Held("a", false, "", ""), Held("a", true, "", "")]
    requires e == Held("z", false, "", "")
    ensures forall s: string :: Count(held, s) <= MAX_HELD_PER_SENDER
    ensures Members(Offer(held, e, false).after) < Members(held)
  {
    var turned := [Held("a", false, "", ""), Held("a", true, "", "")];
    assert turned[..1] == [turned[0]];
    forall s: string
      ensures Count(held, s) == Count(fill, s) + (if s == "a" then 2 else 0) <= MAX_HELD_PER_SENDER
    {
      CountOfConcat(fill, turned, s);
      CountOfOne(turned[0], s);
    }
    assert |"a"| == 1 && |"z"| == 1;
    TheTurnedIsPicked(fill, held);
    VictimIsAHolder(held, false, 0);
    MembersAfterOffer(held, e, false);
  }

  lemma {:induction false} TheTurnedIsPicked(fill: seq<Held>, held: seq<Held>)
    requires forall i :: 0 <= i < |fill| ==> fill[i].member
    requires held == fill + [Held("a", false, "", ""), Held("a", true, "", "")]
    requires Count(fill, "a") == 0 && Count(held, "a") == 2
    ensures var v := Victim(HoldersUpTo(held, |held|), false, 0); v.Some? && v.value.sender == "a"
  {
    var hs := HoldersUpTo(held, |held|);
    var before := HoldersUpTo(held, |fill|);
    CountPositive(fill, "a");
    HoldersAreTheSenders(held, |fill|);
    assert !Listed(before, "a");
    TheTurnedIsListed(held, |fill|, before);
    assert Eligible(hs[|before|], false, 0);
    VictimIsLastGreatest(hs, false, 0);
    var k: nat :| LastGreatest(hs, k, false, 0) && hs[k] == Victim(hs, false, 0).value;
    OnlyStranger(held, |fill|, hs, k);
  }

  lemma {:induction false} OnlyStranger(held: seq<Held>, n: nat, hs: seq<Holder>, k: nat)
    requires n < |held| && hs == HoldersUpTo(held, |held|) && k < |hs| && !hs[k].member
    requires forall i :: 0 <= i < |held| && i != n ==> held[i].member
    ensures hs[k].sender == held[n].sender
  {
    HoldersAreTheSenders(held, |held|);
  }

  lemma {:induction false} TheTurnedIsListed(held: seq<Held>, n: nat, before: seq<Holder>)
    requires |held| == n + 2 && before == HoldersUpTo(held, n) && !Listed(before, "a")
    requires held[n] == Held("a", false, "", "") && held[n + 1] == Held("a", true, "", "") && Count(held, "a") == 2
    ensures HoldersUpTo(held, n + 2) == before + [Holder(false, 2, "a")]
  {
    assert HoldersUpTo(held, n + 1) == before + [Holder(false, 2, "a")];
    assert HoldersUpTo(held, n + 1)[|before|].sender == "a";
  }

  // ----- fairness -----

  /** The squares of the senders' counts, summed. */
  function SumOfSquares(held: seq<Held>): nat {
    CountSum(held, held)
  }

  /** Each sender of `items` contributes its count in `held`, once for every item of theirs. */
  function CountSum(items: seq<Held>, held: seq<Held>): nat {
    if items == [] then 0
    else CountSum(items[..|items| - 1], held) + Count(held, items[|items| - 1].sender)
  }

  lemma {:induction false} CountSumOfConcat(a: seq<Held>, b: seq<Held>, held: seq<Held>)
    ensures CountSum(a + b, held) == CountSum(a, held) + CountSum(b, held)
  {
    if b == [] {
      assert a + b == a;
    } else {
      CountSumOfConcat(a, b[..|b| - 1], held);
      assert (a + b)[..|a + b| - 1] == a + b[..|b| - 1];
    }
  }

  lemma {:induction false} CountSumSplits(items: seq<Held>, a: seq<Held>, b: seq<Held>)
    ensures CountSum(items, a + b) == CountSum(items, a) + CountSum(items, b)
  {
    if items != [] {
      CountSumSplits(items[..|items| - 1], a, b);
      CountOfConcat(a, b, items[|items| - 1].sender);
    }
  }

  lemma {:induction false} CountSumOverOne(items: seq<Held>, h: Held)
    ensures CountSum(items, [h]) == Count(items, h.sender)
  {
    if items != [] {
      CountSumOverOne(items[..|items| - 1], h);
      CountOfOne(h, items[|items| - 1].sender);
    }
  }

  lemma {:induction false} SquaresAfterRemoval(held: seq<Held>, i: nat)
    requires i < |held|
    ensures SumOfSquares(held) == SumOfSquares(Without(held, i)) + 2 * Count(held, held[i].sender) - 1
  {
    var (a, h, b) := (held[..i], held[i], held[i + 1..]);
    var rest := a + b;
    assert held == a + [h] + b;
    assert [h][..0] == [];
    forall s: string ensures Count(held, s) == Count(rest + [h], s) {
      CountAfterRemoval(held, i, s);
      CountOfConcat(rest, [h], s);
      CountOfOne(h, s);
    }
    SameCountsSameSum(held, held, rest + [h]);
    CountSumOfConcat(a + [h], b, rest + [h]);
    CountSumOfConcat(a, [h], rest + [h]);
    CountSumOfConcat(a, b, rest + [h]);
    CountSumSplits(rest, rest, [h]);
    CountSumOverOne(rest, h);
    CountOfConcat(rest, [h], h.sender);
    CountOfOne(h, h.sender);
  }

  lemma {:induction false} SameCountsSameSum(items: seq<Held>, a: seq<Held>, b: seq<Held>)
    requires forall s: string :: Count(a, s) == Count(b, s)
    ensures CountSum(items, a) == CountSum(items, b)
  {
    if items != [] {
      SameCountsSameSum(items[..|items| - 1], a, b);
    }
  }

  /** An eviction among senders of one standing makes the shares strictly more even. */
  lemma {:induction false} EvictionEvensOut(held: seq<Held>, e: Held, tooOld: bool, standing: string -> bool)
    requires Within(held, standing) && e.member == standing(e.sender)
    requires var o := Offer(held, e, tooOld); o.Evicted? && o.gone.member == e.member
    ensures SumOfSquares(Offer(held, e, tooOld).after) < SumOfSquares(held)
  {
    var mine := Count(held, e.sender);
    VictimIsAHolder(held, e.member, mine);
    var v := Victim(HoldersUpTo(held, |held|), e.member, mine).value;
    var place := LastPlace(held, v.sender);
    var rest := Without(held, place);
    SquaresAfterRemoval(held, place);
    SquaresAfterRemoval(rest + [e], |rest|);
    assert Without(rest + [e], |rest|) == rest;
    CountAfterRemoval(held, place, e.sender);
    CountOfConcat(rest, [e], e.sender);
    CountOfOne(e, e.sender);
  }

  function Senders(held: seq<Held>): set<string> {
    set i | 0 <= i < |held| :: held[i].sender
  }

  /** No sender above `most` means at least |held| / most of them. */
  lemma {:induction false} EnoughSenders(held: seq<Held>, senders: set<string>, most: nat)
    requires forall i :: 0 <= i < |held| ==> held[i].sender in senders
    requires forall s :: s in senders ==> Count(held, s) <= most
    ensures |held| <= |senders| * most
    decreases |held|
  {
    if held == [] {
      Times(|senders|, most);
    } else {
      var s := held[0].sender;
      var rest := Others(held, s);
      forall t | t in senders - {s} ensures Count(rest, t) <= most {
        OthersCounts(held, s, t);
      }
      CountPositive(held, s);
      OthersCounts(held, s, s);
      EnoughSenders(rest, senders - {s}, most);
      Times(|senders - {s}|, most);
      assert |senders| == |senders - {s}| + 1;
    }
  }

  lemma {:induction false} Times(n: nat, most: nat)
    ensures n * most >= 0 && (n + 1) * most == n * most + most
  {
  }

  function Others(held: seq<Held>, s: string): (r: seq<Held>)
    ensures forall i :: 0 <= i < |r| ==> r[i] in held && r[i].sender != s
  {
    if held == [] then []
    else
      var r := Others(held[..|held| - 1], s);
      if held[|held| - 1].sender == s then r else r + [held[|held| - 1]]
  }

  lemma {:induction false} OthersCounts(held: seq<Held>, s: string, t: string)
    ensures |held| == |Others(held, s)| + Count(held, s)
    ensures t != s ==> Count(Others(held, s), t) == Count(held, t)
  {
    if held != [] {
      var h := held[|held| - 1];
      var r := Others(held[..|held| - 1], s);
      OthersCounts(held[..|held| - 1], s, t);
      if h.sender != s {
        assert (r + [h])[..|r|] == r;
      }
    }
  }

  /** A fresh envelope of a member below its limit is dropped exactly when the group is full,
      no stranger has one waiting, and no sender has more than one more than it: so the room
      is shared by at least 256 / (mine + 1) members. */
  lemma {:induction false} MemberDroppedOnlyWhenShared(held: seq<Held>, e: Held, standing: string -> bool)
    requires Within(held, standing) && e.member && standing(e.sender)
    requires Count(held, e.sender) < MAX_HELD_PER_SENDER
    ensures Offer(held, e, false).Dropped? <==>
            && |held| == MAX_HELD_PER_GROUP
            && (forall i :: 0 <= i < |held| ==> held[i].member && Count(held, held[i].sender) <= Count(held, e.sender) + 1)
    ensures Offer(held, e, false).Dropped? ==>
            && (forall s :: s in Senders(held) ==> standing(s))
            && MAX_HELD_PER_GROUP <= |Senders(held)| * (Count(held, e.sender) + 1)
  {
    var mine := Count(held, e.sender);
    DroppedExactly(held, e, standing);
    if Offer(held, e, false).Dropped? {
      forall s | s in Senders(held) ensures Count(held, s) <= mine + 1 && standing(s) {
        var i :| 0 <= i < |held| && held[i].sender == s;
      }
      EnoughSenders(held, Senders(held), mine + 1);
    }
  }

  /** Whoever offers it, a fresh envelope below its sender's limit is dropped exactly when the
      group is full and nobody may be asked to give one up for it. */
  lemma {:induction false} DroppedExactly(held: seq<Held>, e: Held, standing: string -> bool)
    requires Within(held, standing) && e.member == standing(e.sender)
    requires Count(held, e.sender) < Cap(e.member)
    ensures Offer(held, e, false).Dropped? <==>
            && |held| == MAX_HELD_PER_GROUP
            && MayKeepAll(held, e.member, Count(held, e.sender))
  {
    NobodyToAsk(held, e.member, Count(held, e.sender), standing);
  }

  predicate MayKeepAll(held: seq<Held>, member: bool, mine: nat) {
    forall i :: 0 <= i < |held| ==>
      (member ==> held[i].member) && (held[i].member == member ==> Count(held, held[i].sender) <= mine + 1)
  }

  lemma {:induction false} NobodyToAsk(held: seq<Held>, member: bool, mine: nat, standing: string -> bool)
    requires Within(held, standing)
    ensures Victim(HoldersUpTo(held, |held|), member, mine).None? <==> MayKeepAll(held, member, mine)
  {
    var hs := HoldersUpTo(held, |held|);
    HoldersAreTheSenders(held, |held|);
    VictimIsLastGreatest(hs, member, mine);
    if Victim(hs, member, mine).None? {
      forall i | 0 <= i < |held|
        ensures (member ==> held[i].member) && (held[i].member == member ==> Count(held, held[i].sender) <= mine + 1)
      {
        HolderOf(held, hs, i, standing);
        var k :| 0 <= k < |hs| && hs[k] == Holder(held[i].member, Count(held, held[i].sender), held[i].sender);
        assert !Eligible(hs[k], member, mine);
      }
    }
  }

  lemma {:induction false} HolderOf(held: seq<Held>, hs: seq<Holder>, i: nat, standing: string -> bool)
    requires Within(held, standing) && hs == HoldersUpTo(held, |held|) && i < |held|
    ensures exists k :: 0 <= k < |hs| && hs[k] == Holder(held[i].member, Count(held, held[i].sender), held[i].sender)
  {
    HoldersAreTheSenders(held, |held|);
    assert Listed(hs, held[i].sender);
  }
}
