/** Rounds of syncs of an unchanged cloud: the first one places every file and prunes the rest, and
    no later one undoes that (internal/strm/writer.go). */
module LibraryRounds {
  import opened Paths
  import opened Library
  import opened LibrarySafety
  import opened LibraryConvergence

  // ----- steady libraries -----

  /** Every file is placed. */
  ghost predicate Steady(s: State, all: seq<Item>) {
    Healthy(s) && forall i :: 0 <= i < |all| ==> SteadyItem(s, all[i])
  }

  ghost predicate SteadyItem(s: State, it: Item) {
    StrmItem(it) && Placed(s, it)
  }

  lemma SteadyIsSettled(s: State, all: seq<Item>)
    requires Steady(s, all)
    ensures Settled(s, all)
  {
    forall i | 0 <= i < |all|
      ensures SettledItem(s, all[i])
    {
      assert SteadyItem(s, all[i]);
    }
  }

  /** A step for one of the files keeps the library steady, whether it relocates or not. */
  lemma StepStaysSteady(r: Roots, s: State, all: seq<Item>, it: Item, stamp: int)
    requires Steady(s, all) && DistinctKeys(all) && it in all
    ensures Steady(Step(r, s, it, stamp), all)
  {
    var t := Step(r, s, it, stamp);
    var j :| 0 <= j < |all| && all[j] == it;
    SteadyIsSettled(s, all);
    StepStaysSettled(r, s, all, it, stamp);
    assert SteadyItem(s, all[j]);
    hide Step, Placed, StrmItem, Touches;
    StepPlaces(r, s, it, stamp);
    StepTouches(r, s, it, stamp);
    forall i | 0 <= i < |all|
      ensures SteadyItem(t, all[i])
    {
      assert SteadyItem(s, all[i]);
      if i != j {
        assert all[i].key != all[j].key;
        PlacedSurvives(s, it, t, all[i]);
      }
    }
  }

  lemma {:induction false} RunStaysSteady(r: Roots, s: State, all: seq<Item>, items: seq<Item>, stamp: int)
    requires Steady(s, all) && DistinctKeys(all) && Among(items, all)
    ensures Steady(Run(r, s, items, stamp), all)
  {
    if items == [] {
    } else {
      hide Step, Steady, DistinctKeys;
      var front, last := items[..|items| - 1], items[|items| - 1];
      RunStaysSteady(r, s, all, front, stamp);
      StepStaysSteady(r, Run(r, s, front, stamp), all, last, stamp);
    }
  }

  lemma RemovalKeepsSteady(s: State, doomed: set<Key>, it: Item)
    requires Healthy(s) && doomed <= s.rows.Keys && SteadyItem(s, it) && it.key !in doomed
    ensures SteadyItem(RemoveRows(s, doomed), it)
  {
    RemoveRowsKeeps(s, doomed);
    hide RemoveRows, Shaped;
    var t := RemoveRows(s, doomed);
    assert t.rows[it.key] == s.rows[it.key] && SameAt(s.disk, t.disk, s.rows[it.key].strmPath);
  }

  /** A sync of an unchanged cloud keeps the library steady. */
  lemma SyncStaysSteady(r: Roots, s: State, all: seq<Item>, e: Event)
    requires Steady(s, all) && DistinctKeys(all) && SeesCloud(e, all)
    ensures Steady(Apply(r, s, e), all)
  {
    var ran, t := Run(r, s, e.items, e.stamp), Apply(r, s, e);
    var doomed := Stale(ran.rows, e.name, Seen(e.items), e.syncStart);
    RunStaysSteady(r, s, all, e.items, e.stamp);
    assert t == RemoveRows(ran, doomed) && doomed <= ran.rows.Keys;
    assert forall i :: 0 <= i < |all| ==> all[i].key !in doomed;
    hide Run, RemoveRows, Stale, SteadyItem, DistinctKeys, Apply;
    RemoveRowsKeeps(ran, doomed);
    forall i | 0 <= i < |all|
      ensures SteadyItem(t, all[i])
    {
      RemovalKeepsSteady(ran, doomed, all[i]);
    }
  }

  lemma {:induction false} SyncsStaySteady(r: Roots, s: State, all: seq<Item>, events: seq<Event>)
    requires Steady(s, all) && DistinctKeys(all) && AllSeeCloud(events, all)
    ensures Steady(After(r, s, events), all)
  {
    if events == [] {
    } else {
      hide Steady, SeesCloud, Apply, DistinctKeys;
      var front, last := events[..|events| - 1], events[|events| - 1];
      assert forall i :: 0 <= i < |front| ==> front[i] == events[i];
      SyncsStaySteady(r, s, all, front);
      SyncStaysSteady(r, After(r, s, front), all, last);
    }
  }

  // ----- nothing to prune -----

  /** Everything the provider's rows stand for is in the cloud still. */
  ghost predicate AllSeen(s: State, e: Event) {
    e.SyncEvent? ==> forall k :: k in s.rows && k.provider == e.name ==> SeenKey(k) in Seen(e.items)
  }

  ghost predicate NothingToPrune(s: State, events: seq<Event>) {
    forall i :: 0 <= i < |events| ==> AllSeen(s, events[i])
  }

  lemma NothingStale(ran: State, e: Event)
    requires e.SyncEvent? && AllSeen(ran, e)
    ensures RemoveRows(ran, Stale(ran.rows, e.name, Seen(e.items), e.syncStart)) == ran
  {
    hide SeenKey, Seen;
    assert Stale(ran.rows, e.name, Seen(e.items), e.syncStart) == {};
    assert ran.rows - {} == ran.rows && ran.disk - {} == ran.disk;
  }

  /** AllSeen is about the keys of the rows alone. */
  lemma SeenAlike(s: State, t: State, e: Event)
    requires AllSeen(s, e) && t.rows.Keys <= s.rows.Keys
    ensures AllSeen(t, e)
  {
  }

  lemma RunKeepsKeys(r: Roots, s: State, all: seq<Item>, items: seq<Item>, stamp: int)
    requires Steady(s, all) && Among(items, all)
    ensures Run(r, s, items, stamp).rows.Keys <= s.rows.Keys
  {
    var t := Run(r, s, items, stamp);
    forall k | k in t.rows
      ensures k in s.rows
    {
      RunKeys(r, s, items, stamp, k);
      if InItems(items, k) {
        var i :| 0 <= i < |items| && items[i].key == k;
        assert items[i] in all;
        var j :| 0 <= j < |all| && all[j] == items[i];
        assert SteadyItem(s, all[j]);
      }
    }
  }

  /** With nothing to prune, a sync of an unchanged steady cloud is its run, and tracks no new files. */
  lemma SyncIsRun(r: Roots, s: State, all: seq<Item>, e: Event)
    requires Steady(s, all) && SeesCloud(e, all) && AllSeen(s, e)
    ensures Apply(r, s, e) == Run(r, s, e.items, e.stamp)
    ensures Apply(r, s, e).rows.Keys <= s.rows.Keys
  {
    var ran := Run(r, s, e.items, e.stamp);
    RunKeepsKeys(r, s, all, e.items, e.stamp);
    assert Apply(r, s, e) == RemoveRows(ran, Stale(ran.rows, e.name, Seen(e.items), e.syncStart));
    hide Run, RemoveRows, Stale, Steady, AllSeen, SeesCloud, Apply, Seen;
    SeenAlike(s, ran, e);
    NothingStale(ran, e);
  }

  lemma {:induction false} SyncsKeepKeys(r: Roots, s: State, all: seq<Item>, events: seq<Event>)
    requires Steady(s, all) && DistinctKeys(all) && AllSeeCloud(events, all) && NothingToPrune(s, events)
    ensures After(r, s, events).rows.Keys <= s.rows.Keys
  {
    if events == [] {
    } else {
      hide Steady, SeesCloud, Apply, DistinctKeys, AllSeen;
      var front, last := events[..|events| - 1], events[|events| - 1];
      assert forall i :: 0 <= i < |front| ==> front[i] == events[i];
      SyncsKeepKeys(r, s, all, front);
      SyncsStaySteady(r, s, all, front);
      SeenAlike(s, After(r, s, front), last);
      SyncIsRun(r, After(r, s, front), all, last);
    }
  }

  // ----- between rounds -----

  /** The same syncs again, at any later times. */
  ghost predicate Repeats(again: seq<Event>, round: seq<Event>) {
    |again| == |round| && forall i :: 0 <= i < |round| ==> SameSync(again[i], round[i])
  }

  predicate SameSync(again: Event, e: Event) {
    e.SyncEvent? && again.SyncEvent? && again.name == e.name && again.items == e.items
  }

  lemma RepeatsSeeCloud(again: seq<Event>, round: seq<Event>, all: seq<Item>)
    requires Repeats(again, round) && AllSeeCloud(round, all)
    ensures AllSeeCloud(again, all)
  {
    hide Among, Seen;
    forall i | 0 <= i < |again|
      ensures SeesCloud(again[i], all)
    {
      assert SameSync(again[i], round[i]) && SeesCloud(round[i], all);
    }
  }

  /** What holds between rounds: every file is placed and nothing is left to prune. */
  ghost predicate BetweenRounds(s: State, all: seq<Item>, round: seq<Event>) {
    Steady(s, all) && DistinctKeys(all) && AllSeeCloud(round, all) && NothingToPrune(s, round)
  }

  lemma ReadyAlike(s: State, all: seq<Item>, round: seq<Event>, again: seq<Event>)
    requires BetweenRounds(s, all, round) && Repeats(again, round)
    ensures BetweenRounds(s, all, again)
  {
    RepeatsSeeCloud(again, round, all);
    hide Steady, AllSeeCloud, DistinctKeys, Seen, SeenKey;
    forall i | 0 <= i < |again|
      ensures AllSeen(s, again[i])
    {
      assert SameSync(again[i], round[i]) && AllSeen(s, round[i]);
    }
  }

  /** Within a round, too. */
  lemma ReadyWithin(r: Roots, s: State, all: seq<Item>, round: seq<Event>)
    requires BetweenRounds(s, all, round) && round != []
    ensures var front, last := round[..|round| - 1], round[|round| - 1];
            BetweenRounds(s, all, front) && BetweenRounds(After(r, s, front), all, [last])
  {
    var front, last := round[..|round| - 1], round[|round| - 1];
    assert forall i :: 0 <= i < |front| ==> front[i] == round[i];
    assert AllSeen(s, last) && SeesCloud(last, all);
    hide Steady, SeesCloud, DistinctKeys, AllSeen, After;
    assert AllSeeCloud(front, all);
    SyncsStaySteady(r, s, all, front);
    SyncsKeepKeys(r, s, all, front);
    SeenAlike(s, After(r, s, front), last);
  }

  /** A round keeps that up, and its relocations lower the sum of ranks. */
  lemma RoundKeepsReady(r: Roots, s: State, all: seq<Item>, round: seq<Event>, again: seq<Event>)
    requires BetweenRounds(s, all, round) && Repeats(again, round)
    ensures BetweenRounds(After(r, s, again), all, round)
    ensures RankSum(After(r, s, again).rows, all) + TotalMoves(r, s, again) <= RankSum(s.rows, all)
  {
    var t := After(r, s, again);
    ReadyAlike(s, all, round, again);
    SyncsStaySteady(r, s, all, again);
    SyncsKeepKeys(r, s, all, again);
    SteadyIsSettled(s, all);
    hide Steady, Settled, After, DistinctKeys, RankSum, TotalMoves, AllSeeCloud, Repeats;
    SyncsConverge(r, s, all, again);
    forall i | 0 <= i < |round|
      ensures AllSeen(t, round[i])
    {
      SeenAlike(s, t, round[i]);
    }
  }

  // ----- the first round -----

  /** The files of a round's snapshots. */
  function ItemsOf(round: seq<Event>): seq<Item> {
    if round == [] then []
    else ItemsOf(round[..|round| - 1]) + (if round[|round| - 1].SyncEvent? then round[|round| - 1].items else [])
  }

  ghost predicate ProperRound(round: seq<Event>) {
    && (forall i :: 0 <= i < |round| ==> round[i].SyncEvent? && WellFormed(round[i]))
    && (forall i, j :: 0 <= i < j < |round| ==> round[i].name != round[j].name)
  }

  ghost predicate Syncs(round: seq<Event>, name: string) {
    exists i :: 0 <= i < |round| && round[i].SyncEvent? && round[i].name == name
  }

  /** What the first round needs: one owner per path, and a candidate for every file when its turn
      comes. */
  ghost predicate RoundReady(r: Roots, s: State, round: seq<Event>) {
    Healthy(s) && ProperRound(round) && SmoothRun(r, s, round)
  }

  /** A sync places its provider's files, whatever else the library holds. */
  lemma SyncMakesSteady(r: Roots, s: State, e: Event, i: nat)
    requires e.SyncEvent? && WellFormed(e) && Healthy(s) && SmoothEvent(r, s, e) && i < |e.items|
    ensures Healthy(Apply(r, s, e)) && SteadyItem(Apply(r, s, e), e.items[i])
  {
    SyncOutcome(r, s, e.name, e.items, e.syncStart, e.stamp);
    assert Apply(r, s, e) == Sync(r, s, e.name, e.items, e.syncStart, e.stamp);
    hide Apply, Sync, Placed, Smooth;
  }

  /** And it leaves the other providers' files placed. */
  lemma SyncLeavesSteady(r: Roots, s: State, e: Event, other: Item)
    requires e.SyncEvent? && WellFormed(e) && Healthy(s) && SmoothEvent(r, s, e)
    requires SteadyItem(s, other) && other.key.provider != e.name
    ensures SteadyItem(Apply(r, s, e), other)
  {
    var k, t := other.key, Apply(r, s, e);
    RunKeys(r, s, e.items, e.stamp, k);
    assert s.HasCopy(k) <==> t.HasCopy(k);
    SyncOutcome(r, s, e.name, e.items, e.syncStart, e.stamp);
    assert t == Sync(r, s, e.name, e.items, e.syncStart, e.stamp);
    hide Apply, Sync, Healthy, Smooth;
    assert t.rows[k] == s.rows[k] && SameAt(s.disk, t.disk, s.rows[k].strmPath);
  }

  lemma ProperFront(round: seq<Event>)
    requires round != [] && ProperRound(round)
    ensures ProperRound(round[..|round| - 1]) && !Syncs(round[..|round| - 1], round[|round| - 1].name)
  {
  }

  lemma SmoothRunFront(r: Roots, s: State, round: seq<Event>)
    requires round != [] && SmoothRun(r, s, round)
    ensures SmoothRun(r, s, round[..|round| - 1])
    ensures SmoothEvent(r, After(r, s, round[..|round| - 1]), round[|round| - 1])
  {
    hide After, SmoothEvent, WellFormed;
    var front := round[..|round| - 1];
    forall i | 0 <= i < |front|
      ensures WellFormed(front[i]) && SmoothEvent(r, After(r, s, front[..i]), front[i])
    {
      assert front[..i] == round[..i];
    }
    assert SmoothEvent(r, After(r, s, round[..|round| - 1]), round[|round| - 1]);
  }

  lemma RoundReadyFront(r: Roots, s: State, round: seq<Event>)
    requires round != [] && RoundReady(r, s, round)
    ensures RoundReady(r, s, round[..|round| - 1]) && Healthy(After(r, s, round[..|round| - 1]))
  {
    hide SmoothRun, ProperRound;
    ProperFront(round);
    SmoothRunFront(r, s, round);
    RunsStayHealthy(r, s, round[..|round| - 1]);
  }

  /** Until its provider's turn comes, a file's row stays as it is. */
  lemma {:induction false} RoundLeavesRows(r: Roots, s: State, round: seq<Event>, k: Key)
    requires RoundReady(r, s, round) && !Syncs(round, k.provider)
    ensures var t := After(r, s, round); (k in s.rows <==> k in t.rows) && (k in s.rows ==> t.rows[k] == s.rows[k])
  {
    if round == [] {
    } else {
      var front, last := round[..|round| - 1], round[|round| - 1];
      assert last.SyncEvent? && WellFormed(last) && last.name != k.provider;
      assert !Syncs(front, k.provider);
      SmoothRunFront(r, s, round);
      RoundReadyFront(r, s, round);
      hide RoundReady, Syncs, Smooth;
      RoundLeavesRows(r, s, front, k);
      SyncOutcome(r, After(r, s, front), last.name, last.items, last.syncStart, last.stamp);
    }
  }

  lemma ItemsOfLast(round: seq<Event>, all: seq<Item>, i: nat)
    requires round != [] && round[|round| - 1].SyncEvent? && all == ItemsOf(round) && i < |all|
    ensures var others, last := ItemsOf(round[..|round| - 1]), round[|round| - 1];
            if i < |others| then all[i] == others[i]
                else i - |others| < |last.items| && all[i] == last.items[i - |others|]
  {
  }

  lemma {:induction false} ItemsOfSynced(round: seq<Event>, i: nat)
    requires ProperRound(round) && i < |ItemsOf(round)|
    ensures Syncs(round, ItemsOf(round)[i].key.provider)
  {
    if round == [] {
    } else {
      var front, last, others := round[..|round| - 1], round[|round| - 1], ItemsOf(round[..|round| - 1]);
      ProperFront(round);
      ItemsOfLast(round, ItemsOf(round), i);
      if i < |others| {
        ItemsOfSynced(front, i);
        var j :| 0 <= j < |front| && front[j].SyncEvent? && front[j].name == others[i].key.provider;
        assert round[j] == front[j];
      } else {
        assert last.items[i - |others|].key.provider == last.name;
      }
    }
  }

  /** After one round over every provider every file is placed, whatever was there before. */
  lemma {:induction false} FirstRoundMakesSteady(r: Roots, s: State, round: seq<Event>)
    requires RoundReady(r, s, round)
    ensures Steady(After(r, s, round), ItemsOf(round))
  {
    if round == [] {
    } else {
      var front, last := round[..|round| - 1], round[|round| - 1];
      var mid, t, all, others := After(r, s, front), After(r, s, round), ItemsOf(round), ItemsOf(front);
      assert last.SyncEvent? && WellFormed(last) && t == Apply(r, mid, last) && ProperRound(round);
      RoundReadyFront(r, s, round);
      ProperFront(round);
      SmoothRunFront(r, s, round);
      RunsStayHealthy(r, s, round);
      hide RoundReady, SmoothEvent, Apply, After, SteadyItem, WellFormed, ProperRound, ItemsOf;
      FirstRoundMakesSteady(r, s, front);
      forall i | 0 <= i < |all|
        ensures SteadyItem(t, all[i])
      {
        ItemsOfLast(round, all, i);
        if i < |others| {
          assert SteadyItem(mid, others[i]);
          ItemsOfSynced(front, i);
          SyncLeavesSteady(r, mid, last, others[i]);
        } else {
          SyncMakesSteady(r, mid, last, i - |others|);
        }
      }
    }
  }

  /** No row of a provider was written after its sync began. */
  ghost predicate NoFutureRows(s: State, round: seq<Event>) {
    forall i, k :: 0 <= i < |round| && k in s.rows && round[i].SyncEvent? && k.provider == round[i].name
                   ==> s.rows[k].updatedAt * NANOS <= round[i].syncStart
  }

  lemma OwnRowsSeen(r: Roots, s: State, e: Event)
    requires e.SyncEvent?
    requires forall k :: k in s.rows && k.provider == e.name ==> s.rows[k].updatedAt * NANOS <= e.syncStart
    ensures AllSeen(Apply(r, s, e), e)
  {
    var t := Apply(r, s, e);
    forall k | k in t.rows && k.provider == e.name
      ensures SeenKey(k) in Seen(e.items)
    {
      SyncRows(r, s, e.name, e.items, e.syncStart, e.stamp, k);
      if InItems(e.items, k) {
        var i :| 0 <= i < |e.items| && e.items[i].key == k;
        assert SeenKey(e.items[i].key) in Seen(e.items);
      }
    }
  }

  lemma SeenByOwnRows(s: State, t: State, e: Event)
    requires AllSeen(s, e) && forall k: Key :: e.SyncEvent? && k.provider == e.name && k in t.rows ==> k in s.rows
    ensures AllSeen(t, e)
  {
  }

  lemma NoFutureFront(s: State, round: seq<Event>)
    requires round != [] && NoFutureRows(s, round)
    ensures NoFutureRows(s, round[..|round| - 1])
  {
  }

  lemma {:induction false} FirstRoundPrunes(r: Roots, s: State, round: seq<Event>)
    requires RoundReady(r, s, round) && NoFutureRows(s, round)
    ensures NothingToPrune(After(r, s, round), round)
  {
    hide RoundReady, NoFutureRows, After, AllSeen;
    if round == [] {
    } else {
      var front, n := round[..|round| - 1], |round| - 1;
      RoundReadyFront(r, s, round);
      NoFutureFront(s, round);
      FirstRoundPrunes(r, s, front);
      forall i | 0 <= i < |round|
        ensures AllSeen(After(r, s, round), round[i])
      {
        if i < n {
          assert AllSeen(After(r, s, front), front[i]);
          EarlierStaysSeen(r, s, round, i);
        } else {
          LatestIsSeen(r, s, round);
        }
      }
    }
  }

  lemma LatestIsSeen(r: Roots, s: State, round: seq<Event>)
    requires round != [] && RoundReady(r, s, round) && NoFutureRows(s, round)
    ensures AllSeen(After(r, s, round), round[|round| - 1])
  {
    var front, last := round[..|round| - 1], round[|round| - 1];
    var mid := After(r, s, front);
    assert last.SyncEvent? && After(r, s, round) == Apply(r, mid, last);
    RoundReadyFront(r, s, round);
    ProperFront(round);
    hide RoundReady, After, Apply, Syncs;
    forall k | k in mid.rows && k.provider == last.name
      ensures mid.rows[k].updatedAt * NANOS <= last.syncStart
    {
      RoundLeavesRows(r, s, front, k);
      assert round[|round| - 1].name == k.provider;
    }
    OwnRowsSeen(r, mid, last);
  }

  lemma EarlierStaysSeen(r: Roots, s: State, round: seq<Event>, i: nat)
    requires RoundReady(r, s, round) && i < |round| - 1 && AllSeen(After(r, s, round[..|round| - 1]), round[i])
    ensures AllSeen(After(r, s, round), round[i])
  {
    var front, last, e := round[..|round| - 1], round[|round| - 1], round[i];
    var mid := After(r, s, front);
    assert last.SyncEvent? && e.SyncEvent? && WellFormed(last) && e.name != last.name;
    assert After(r, s, round) == Apply(r, mid, last);
    RoundReadyFront(r, s, round);
    SmoothRunFront(r, s, round);
    hide RoundReady, After, AllSeen, Smooth;
    SyncOutcome(r, mid, last.name, last.items, last.syncStart, last.stamp);
    SeenByOwnRows(mid, After(r, s, round), e);
  }

  lemma {:induction false} ItemsAreDistinct(round: seq<Event>)
    requires ProperRound(round)
    ensures DistinctKeys(ItemsOf(round))
  {
    if round == [] {
    } else {
      var front, last := round[..|round| - 1], round[|round| - 1];
      var all, others := ItemsOf(round), ItemsOf(front);
      ProperFront(round);
      ItemsAreDistinct(front);
      forall i, j | 0 <= i < j < |all|
        ensures all[i].key != all[j].key
      {
        ItemsOfLast(round, all, i);
        ItemsOfLast(round, all, j);
        if i < |others| <= j {
          ItemsOfSynced(front, i);
          assert last.items[j - |others|].key.provider == last.name;
        }
      }
    }
  }

  lemma AmongConcat(a: seq<Item>, b: seq<Item>, c: seq<Item>)
    ensures Among(b, a + b) && (Among(c, a) ==> Among(c, a + b))
  {
    forall i | 0 <= i < |b|
      ensures b[i] in a + b
    {
      assert (a + b)[|a| + i] == b[i];
    }
  }

  lemma {:induction false} ItemsContain(round: seq<Event>, i: nat)
    requires i < |round| && round[i].SyncEvent?
    ensures Among(round[i].items, ItemsOf(round))
  {
    var front, last := round[..|round| - 1], round[|round| - 1];
    assert ItemsOf(round) == ItemsOf(front) + (if last.SyncEvent? then last.items else []);
    AmongConcat(ItemsOf(front), if last.SyncEvent? then last.items else [], round[i].items);
    hide ItemsOf, Among;
    if i == |round| - 1 {
    } else {
      assert front[i] == round[i];
      ItemsContain(front, i);
    }
  }

  lemma {:induction false} ItemsOfProvider(round: seq<Event>, e: Event, it: Item)
    requires ProperRound(round) && e in round && it in ItemsOf(round) && it.key.provider == e.name
    ensures it in e.items
  {
    if round == [] {
    } else {
      var front, last := round[..|round| - 1], round[|round| - 1];
      ProperFront(round);
      if it in last.items {
        var i :| 0 <= i < |round| && round[i] == e;
        assert last.name == it.key.provider;
      } else {
        assert it in ItemsOf(front);
        var j :| 0 <= j < |ItemsOf(front)| && ItemsOf(front)[j] == it;
        ItemsOfSynced(front, j);
        assert e in front;
        ItemsOfProvider(front, e, it);
      }
    }
  }

  lemma RoundSeesCloud(round: seq<Event>)
    requires ProperRound(round)
    ensures AllSeeCloud(round, ItemsOf(round))
  {
    var all := ItemsOf(round);
    forall i | 0 <= i < |round|
      ensures SeesCloud(round[i], all)
    {
      var e := round[i];
      ItemsContain(round, i);
      forall j | 0 <= j < |all| && all[j].key.provider == e.name
        ensures SeenKey(all[j].key) in Seen(e.items)
      {
        ItemsOfProvider(round, e, all[j]);
        var n :| 0 <= n < |e.items| && e.items[n] == all[j];
        assert SeenKey(e.items[n].key) in Seen(e.items);
      }
    }
  }

  /** One round over all providers, from any healthy library, places every file and leaves nothing to
      prune. */
  lemma FirstRoundReady(r: Roots, s: State, round: seq<Event>)
    requires RoundReady(r, s, round) && NoFutureRows(s, round)
    ensures BetweenRounds(After(r, s, round), ItemsOf(round), round)
  {
    hide After, NoFutureRows, AllSeeCloud, Steady, DistinctKeys, NothingToPrune;
    FirstRoundMakesSteady(r, s, round);
    FirstRoundPrunes(r, s, round);
    ItemsAreDistinct(round);
    RoundSeesCloud(round);
  }
}
