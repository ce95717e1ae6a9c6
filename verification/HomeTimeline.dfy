/** The timeline's answers of an honest home are what catching up with one comes to. */
module HomeTimeline {
  import opened Common
  import opened GroupChain
  import GroupSync
  import GroupTimeline

  /** A chain of which every change is one the device takes. */
  ghost predicate Replays(rules: Rules, home: string, chain: seq<Change>) {
    forall r :: 0 < r <= |chain| ==> ReplaysTo(rules, home, chain, r)
  }

  predicate ReplaysTo(rules: Rules, home: string, chain: seq<Change>, r: nat)
    requires r <= |chain|
  {
    Replay(rules, home, chain[..r]).Some?
  }

  function PlaceAt(rules: Rules, home: string, chain: seq<Change>, r: nat): Verified
    requires r < |chain| && ReplaysTo(rules, home, chain, r + 1)
  {
    Replay(rules, home, chain[..r + 1]).value
  }

  /** The states and heads a chain comes to, one for each revision. */
  ghost function Places(rules: Rules, home: string, chain: seq<Change>): seq<Verified>
    requires Replays(rules, home, chain)
  {
    seq(|chain|, r requires 0 <= r < |chain| => PlaceAt(rules, home, chain, r))
  }

  lemma {:induction false} PlacesAreInPlace(rules: Rules, home: string, chain: seq<Change>)
    requires Replays(rules, home, chain)
    ensures GroupTimeline.InPlace(Places(rules, home, chain))
  {
    forall r | 0 <= r < |chain| ensures Places(rules, home, chain)[r].state.revision == r {
      assert ReplaysTo(rules, home, chain, r + 1);
      ReplayShape(rules, home, chain[..r + 1]);
    }
  }

  /** Whatever pages a catch-up with an honest home gets through while the home's log grows, the record is
      then at a place of the chain as the last page found it, at or past its own: the latest, when nothing
      more was to come. So a catch-up is one of the timeline's two answers, and `Reached` is one that says
      it is current. */
  lemma {:induction false} CatchUpIsAnAnswer(rules: Rules, home: GroupSync.Home, logs: seq<seq<Change>>, joined: seq<nat>, before: Record,
                                             asked: seq<nat>, after: Record, w: GroupTimeline.World)
    returns (answer: GroupTimeline.HomeAnswer)
    requires asked != [] && GroupSync.HonestHome(home, logs, joined, asked)
    requires GroupSync.Caught(rules, home, before, asked, |asked|, after) && GroupSync.OnLog(rules, before, logs[0])
    requires Replays(rules, before.home, logs[|asked| - 1]) && w.log == Places(rules, before.home, logs[|asked| - 1])
    requires w.verified + 1 == Length(before)
    ensures w.verified < |w.log| && GroupTimeline.InPlace(w.log) && before.verified == Some(w.log[w.verified])
    ensures after.verified == Some(w.log[GroupTimeline.AnsweredRevision(w, answer)])
    ensures answer.Reached? <==> GroupSync.EndsWith(home, |asked| - 1)
  {
    var end := CaughtOnTheChain(rules, home, logs, joined, before, asked, after);
    answer := AnswerAtItsPlace(rules, before, logs[|asked| - 1], end, after, w, GroupSync.EndsWith(home, |asked| - 1));
  }

  lemma {:induction false} AnswerAtItsPlace(rules: Rules, before: Record, chain: seq<Change>, end: nat, after: Record,
                                            w: GroupTimeline.World, latest: bool)
    returns (answer: GroupTimeline.HomeAnswer)
    requires Replays(rules, before.home, chain) && 0 < Length(before) <= end <= |chain| && (latest ==> end == |chain|)
    requires before.verified == Replay(rules, before.home, chain[..Length(before)])
    requires after.verified == Replay(rules, before.home, chain[..end])
    requires w.log == Places(rules, before.home, chain) && w.verified + 1 == Length(before)
    ensures w.verified < |w.log| && GroupTimeline.InPlace(w.log) && before.verified == Some(w.log[w.verified])
    ensures after.verified == Some(w.log[GroupTimeline.AnsweredRevision(w, answer)])
    ensures answer.Reached? <==> latest
  {
    OnThePlaces(rules, before, chain, end, after);
    answer := AnswerFor(w, end, latest);
  }

  lemma {:induction false} CaughtOnTheChain(rules: Rules, home: GroupSync.Home, logs: seq<seq<Change>>, joined: seq<nat>, before: Record,
                                            asked: seq<nat>, after: Record)
    returns (end: nat)
    requires asked != [] && GroupSync.HonestHome(home, logs, joined, asked)
    requires GroupSync.Caught(rules, home, before, asked, |asked|, after) && GroupSync.OnLog(rules, before, logs[0])
    ensures var chain := logs[|asked| - 1];
            && 0 < Length(before) <= end <= |chain|
            && before.verified == Replay(rules, before.home, chain[..Length(before)])
            && after.verified == Replay(rules, before.home, chain[..end])
            && (GroupSync.EndsWith(home, |asked| - 1) ==> end == |chain|)
  {
    StartsOnTheChain(rules, logs, before, |asked|);
    GroupSync.AllTakenArePlain(rules, home, logs, joined, before, asked, |asked|, after);
    end := ReadSoFar(rules, home, logs, before, asked, after);
  }

  lemma {:induction false} OnThePlaces(rules: Rules, before: Record, chain: seq<Change>, end: nat, after: Record)
    requires Replays(rules, before.home, chain) && 0 < Length(before) <= end <= |chain|
    requires before.verified == Replay(rules, before.home, chain[..Length(before)])
    requires after.verified == Replay(rules, before.home, chain[..end])
    ensures var places := Places(rules, before.home, chain);
            && GroupTimeline.InPlace(places)
            && before.verified == Some(places[Length(before) - 1]) && after.verified == Some(places[end - 1])
  {
    PlacesAreInPlace(rules, before.home, chain);
    AtItsPlace(rules, before.home, chain, Length(before));
    AtItsPlace(rules, before.home, chain, end);
  }

  /** How far a catch-up has read its home's log. */
  lemma {:induction false} ReadSoFar(rules: Rules, home: GroupSync.Home, logs: seq<seq<Change>>, before: Record,
                                     asked: seq<nat>, after: Record)
    returns (end: nat)
    requires asked != [] && GroupSync.PlainPages(home, logs, asked, |asked|) && Sound(before) && before.verified.Some?
    requires var chain := logs[|asked| - 1];
             Length(before) <= |chain| && before.verified == Replay(rules, before.home, chain[..Length(before)])
    requires GroupSync.AskedFrom(home, Length(before), asked)
    requires GroupSync.TakenFurther(rules, before, GroupSync.AllChanges(home, |asked|), after)
    ensures var chain := logs[|asked| - 1];
            && Length(before) <= end <= |chain| && after.verified == Replay(rules, before.home, chain[..end])
            && (GroupSync.EndsWith(home, |asked| - 1) ==> end == |chain|)
  {
    var (pages, n) := (|asked|, Length(before));
    end := n + |GroupSync.AllChanges(home, pages)|;
    GroupSync.PagesAreTheLog(home, logs, asked, n, pages);
    PartTaken(rules, before, logs[pages - 1], n, end, GroupSync.AllChanges(home, pages), after);
  }

  lemma {:induction false} AnswerFor(w: GroupTimeline.World, end: nat, latest: bool) returns (answer: GroupTimeline.HomeAnswer)
    requires w.verified + 1 <= end <= |w.log| && (latest ==> end == |w.log|)
    ensures GroupTimeline.AnsweredRevision(w, answer) == end - 1
    ensures answer.Reached? <==> latest
  {
    answer := if latest then GroupTimeline.Reached else GroupTimeline.Stopped(end - 1);
  }

  lemma {:induction false} AtItsPlace(rules: Rules, home: string, chain: seq<Change>, n: nat)
    requires Replays(rules, home, chain) && 0 < n <= |chain|
    ensures Replay(rules, home, chain[..n]) == Some(Places(rules, home, chain)[n - 1])
  {
    assert ReplaysTo(rules, home, chain, n);
  }

  lemma {:induction false} PartTaken(rules: Rules, before: Record, chain: seq<Change>, n: nat, end: nat, all: seq<Change>, after: Record)
    requires Sound(before) && before.verified.Some? && n == Length(before) <= end <= |chain| && all == chain[n..end]
    requires before.verified == Replay(rules, before.home, chain[..n]) && GroupSync.TakenFurther(rules, before, all, after)
    ensures after.verified == Replay(rules, before.home, chain[..end])
  {
    var read := chain[..end];
    assert read[n..] == all && read[..n] == chain[..n];
    GroupSync.WholeLogTaken(rules, before, read, after);
  }

  lemma {:induction false} StartsOnTheChain(rules: Rules, logs: seq<seq<Change>>, before: Record, pages: nat)
    requires 0 < pages <= |logs| && (forall j, k :: 0 <= j < k < |logs| ==> logs[j] <= logs[k])
    requires GroupSync.OnLog(rules, before, logs[0])
    ensures var chain := logs[pages - 1];
            Length(before) <= |chain| && before.verified == Replay(rules, before.home, chain[..Length(before)])
  {
    assert pages > 1 ==> logs[0] <= logs[pages - 1];
    assert logs[pages - 1][..Length(before)] == logs[0][..Length(before)];
  }
}
