/** Syncs of an unchanged cloud: ranks in the candidate lists only fall, so only finitely many syncs
    relocate anything (internal/strm/writer.go). */
module LibraryConvergence {
  import opened Paths
  import opened Library
  import opened LibrarySafety

  // ----- ranks -----

  function IndexOf(paths: seq<string>, p: string): (i: nat)
    ensures i <= |paths|
    ensures i < |paths| <==> p in paths
    ensures i < |paths| ==> paths[i] == p
    ensures forall j :: 0 <= j < i ==> paths[j] != p
  {
    if paths == [] || paths[0] == p then 0 else 1 + IndexOf(paths[1..], p)
  }

  /** How far down its own candidate list a file currently sits. */
  function Rank(rows: map<Key, Row>, it: Item): nat {
    if it.key in rows then IndexOf(Candidates(it), rows[it.key].strmPath) else |Candidates(it)|
  }

  function RankSum(rows: map<Key, Row>, all: seq<Item>): nat {
    if all == [] then 0 else RankSum(rows, all[..|all| - 1]) + Rank(rows, all[|all| - 1])
  }

  /** Every file of the cloud is tracked at one of its own candidates. */
  ghost predicate Settled(s: State, all: seq<Item>) {
    && Healthy(s)
    && forall i :: 0 <= i < |all| ==> SettledItem(s, all[i])
  }

  ghost predicate SettledItem(s: State, it: Item) {
    StrmItem(it) && it.key in s.rows && s.rows[it.key].strmPath in Candidates(it)
  }

  /** A settled file never runs out of alternates; its rank never rises, and a relocation
      lowers it. */
  lemma StepRank(r: Roots, s: State, it: Item, stamp: int)
    requires Healthy(s) && SettledItem(s, it)
    ensures !Exhausted(s.rows, it)
    ensures var t := Step(r, s, it, stamp);
            SettledItem(t, it) && Rank(t.rows, it) <= Rank(s.rows, it)
            && (Relocates(s, it) ==> Rank(t.rows, it) < Rank(s.rows, it))
            && (!Relocates(s, it) ==> t.rows[it.key].strmPath == s.rows[it.key].strmPath)
  {
    var paths, current := Candidates(it), s.rows[it.key].strmPath;
    var m := IndexOf(paths, current);
    assert Free(s.rows, it.key, paths[m]);
    var i := FirstFree(s.rows, it.key, paths);
    assert i <= m;
    StepRowsAre(r, s, it, stamp);
    assert IndexOf(paths, paths[i]) <= i;
  }

  /** The same row, or none, on both sides. */
  ghost predicate SameRow(rows1: map<Key, Row>, rows2: map<Key, Row>, k: Key) {
    (k in rows1 <==> k in rows2) && (k in rows1 ==> rows1[k] == rows2[k])
  }

  lemma {:induction false} RankSumLocal(rows1: map<Key, Row>, rows2: map<Key, Row>, all: seq<Item>, j: nat)
    requires j < |all| && DistinctKeys(all)
    requires forall k :: k != all[j].key ==> SameRow(rows1, rows2, k)
    ensures RankSum(rows2, all) + Rank(rows1, all[j]) == RankSum(rows1, all) + Rank(rows2, all[j])
  {
    var front, last := all[..|all| - 1], all[|all| - 1];
    forall i | 0 <= i < |all| && i != j
      ensures Rank(rows1, all[i]) == Rank(rows2, all[i])
    {
      assert all[i].key != all[j].key && SameRow(rows1, rows2, all[i].key);
    }
    hide Rank, SameRow;
    if j == |all| - 1 {
      RankSumSame(rows1, rows2, front);
    } else {
      RankSumLocal(rows1, rows2, front, j);
    }
  }

  lemma {:induction false} RankSumSame(rows1: map<Key, Row>, rows2: map<Key, Row>, all: seq<Item>)
    requires forall i :: 0 <= i < |all| ==> Rank(rows1, all[i]) == Rank(rows2, all[i])
    ensures RankSum(rows1, all) == RankSum(rows2, all)
  {
    if all == [] {
    } else {
      RankSumSame(rows1, rows2, all[..|all| - 1]);
    }
  }

  lemma {:induction false} RankSumBound(rows: map<Key, Row>, all: seq<Item>)
    requires forall i :: 0 <= i < |all| ==> Rank(rows, all[i]) <= 10
    ensures RankSum(rows, all) <= 10 * |all|
  {
    if all == [] {
    } else {
      var front := all[..|all| - 1];
      assert forall i :: 0 <= i < |front| ==> front[i] == all[i];
      assert Rank(rows, all[|all| - 1]) <= 10;
      RankSumBound(rows, front);
    }
  }

  // ----- one run -----

  function Relocations(r: Roots, s: State, items: seq<Item>, stamp: int): nat {
    if items == [] then 0
    else
      var front := items[..|items| - 1];
      Relocations(r, s, front, stamp)
      + if Relocates(Run(r, s, front, stamp), items[|items| - 1]) then 1 else 0
  }

  ghost predicate Among(items: seq<Item>, all: seq<Item>) {
    forall i :: 0 <= i < |items| ==> items[i] in all
  }

  lemma StepStaysSettled(r: Roots, s: State, all: seq<Item>, it: Item, stamp: int)
    requires Settled(s, all) && DistinctKeys(all) && it in all
    ensures var t := Step(r, s, it, stamp);
            && Settled(t, all)
            && (forall i :: 0 <= i < |all| ==> Rank(t.rows, all[i]) <= Rank(s.rows, all[i]))
            && RankSum(t.rows, all) + (if Relocates(s, it) then 1 else 0) <= RankSum(s.rows, all)
  {
    var j :| 0 <= j < |all| && all[j] == it;
    assert SettledItem(s, all[j]);
    StepRank(r, s, it, stamp);
    StepKeepsDistinct(r, s, it, stamp);
    StepKeepsShape(r, s, it, stamp);
    StepOffKey(r, s, it, stamp);
    UpdateStaysSettled(s, Step(r, s, it, stamp), all, j);
  }

  lemma StepOffKey(r: Roots, s: State, it: Item, stamp: int)
    ensures var rows := Step(r, s, it, stamp).rows;
            forall k :: k != it.key ==> SameRow(s.rows, rows, k)
  {
    StepRowsAre(r, s, it, stamp);
  }

  lemma UpdateStaysSettled(s: State, t: State, all: seq<Item>, j: nat)
    requires Settled(s, all) && DistinctKeys(all) && j < |all|
    requires forall k :: k != all[j].key ==> SameRow(s.rows, t.rows, k)
    requires SettledItem(t, all[j]) && Rank(t.rows, all[j]) <= Rank(s.rows, all[j]) && Healthy(t)
    ensures Settled(t, all)
    ensures forall i :: 0 <= i < |all| ==> Rank(t.rows, all[i]) <= Rank(s.rows, all[i])
    ensures RankSum(t.rows, all) + Rank(s.rows, all[j]) == RankSum(s.rows, all) + Rank(t.rows, all[j])
  {
    assert SettledItem(s, all[j]);
    forall i | 0 <= i < |all|
      ensures SettledItem(t, all[i]) && Rank(t.rows, all[i]) <= Rank(s.rows, all[i])
    {
      assert SettledItem(s, all[i]);
      assert i != j ==> all[i].key != all[j].key && SameRow(s.rows, t.rows, all[i].key);
    }
    RankSumLocal(s.rows, t.rows, all, j);
  }

  /** Over a run no rank rises, and each relocation lowers the sum of ranks. */
  lemma {:induction false} RunStaysSettled(r: Roots, s: State, all: seq<Item>, items: seq<Item>, stamp: int)
    requires Settled(s, all) && DistinctKeys(all) && Among(items, all)
    ensures var t := Run(r, s, items, stamp);
            && Settled(t, all)
            && (forall i :: 0 <= i < |all| ==> Rank(t.rows, all[i]) <= Rank(s.rows, all[i]))
            && RankSum(t.rows, all) + Relocations(r, s, items, stamp) <= RankSum(s.rows, all)
  {
    if items == [] {
    } else {
      var front, last := items[..|items| - 1], items[|items| - 1];
      RunStaysSettled(r, s, all, front, stamp);
      StepStaysSettled(r, Run(r, s, front, stamp), all, last, stamp);
    }
  }

  // ----- any schedule of syncs over an unchanged cloud -----

  /** A sync of one provider whose snapshot is that provider's share of the cloud. */
  ghost predicate SeesCloud(e: Event, all: seq<Item>) {
    && e.SyncEvent?
    && Among(e.items, all)
    && forall i :: 0 <= i < |all| && all[i].key.provider == e.name ==> SeenKey(all[i].key) in Seen(e.items)
  }

  ghost predicate AllSeeCloud(events: seq<Event>, all: seq<Item>) {
    forall i :: 0 <= i < |events| ==> SeesCloud(events[i], all)
  }

  function Moves(r: Roots, s: State, e: Event): nat {
    if e.SyncEvent? then Relocations(r, s, e.items, e.stamp) else 0
  }

  function TotalMoves(r: Roots, s: State, events: seq<Event>): nat {
    if events == [] then 0
    else
      var front := events[..|events| - 1];
      TotalMoves(r, s, front) + Moves(r, After(r, s, front), events[|events| - 1])
  }

  /** How many of the syncs relocated something. */
  function MovingSyncs(r: Roots, s: State, events: seq<Event>): nat {
    if events == [] then 0
    else
      var front := events[..|events| - 1];
      MovingSyncs(r, s, front) + if Moves(r, After(r, s, front), events[|events| - 1]) > 0 then 1 else 0
  }

  lemma SnapshotStaysSettled(r: Roots, s: State, all: seq<Item>, e: Event)
    requires Settled(s, all) && DistinctKeys(all) && SeesCloud(e, all)
    ensures var t := Apply(r, s, e);
            && Settled(t, all)
            && (forall i :: 0 <= i < |all| ==> Rank(t.rows, all[i]) <= Rank(s.rows, all[i]))
            && RankSum(t.rows, all) + Moves(r, s, e) <= RankSum(s.rows, all)
  {
    var ran, t := Run(r, s, e.items, e.stamp), Apply(r, s, e);
    RunStaysSettled(r, s, all, e.items, e.stamp);
    var doomed := Stale(ran.rows, e.name, Seen(e.items), e.syncStart);
    RemoveRowsKeeps(ran, doomed);
    forall i | 0 <= i < |all|
      ensures SettledItem(t, all[i]) && Rank(t.rows, all[i]) == Rank(ran.rows, all[i])
    {
      assert SettledItem(ran, all[i]);
      assert all[i].key !in doomed;
    }
    RankSumSame(ran.rows, t.rows, all);
  }

  /** On an unchanged cloud, over every schedule of syncs: no rank ever rises, and the number of
      relocations, hence of syncs that relocate, is at most the initial sum of ranks. */
  lemma {:induction false} SyncsConverge(r: Roots, s: State, all: seq<Item>, events: seq<Event>)
    requires Settled(s, all) && DistinctKeys(all) && AllSeeCloud(events, all)
    ensures var t := After(r, s, events);
            && Settled(t, all)
            && (forall i :: 0 <= i < |all| ==> Rank(t.rows, all[i]) <= Rank(s.rows, all[i]))
            && RankSum(t.rows, all) + TotalMoves(r, s, events) <= RankSum(s.rows, all)
            && MovingSyncs(r, s, events) <= TotalMoves(r, s, events)
  {
    if events == [] {
    } else {
      var front, last := events[..|events| - 1], events[|events| - 1];
      SyncsConverge(r, s, all, front);
      SnapshotStaysSettled(r, After(r, s, front), all, last);
    }
  }

  /** uniquePath has ten alternates, so at most ten syncs per file ever relocate anything. */
  lemma TenMovesPerFile(r: Roots, s: State, all: seq<Item>, events: seq<Event>)
    requires Settled(s, all) && DistinctKeys(all) && AllSeeCloud(events, all)
    requires forall i :: 0 <= i < |all| ==> |all[i].alternates| == 10
    ensures MovingSyncs(r, s, events) <= TotalMoves(r, s, events) <= 10 * |all|
  {
    SyncsConverge(r, s, all, events);
    forall i | 0 <= i < |all|
      ensures Rank(s.rows, all[i]) <= 10
    {
      assert SettledItem(s, all[i]);
    }
    RankSumBound(s.rows, all);
  }

  // ----- what a sync reports -----

  /** How many of the files are new to the library. */
  function NewFiles(s: State, items: seq<Item>): nat {
    if items == [] then 0
    else NewFiles(s, items[..|items| - 1]) + if items[|items| - 1].key in s.rows then 0 else 1
  }

  /** How many were tracked before, and have no finished copy. */
  function OldFiles(s: State, items: seq<Item>): nat {
    if items == [] then 0
    else
      var k := items[|items| - 1].key;
      OldFiles(s, items[..|items| - 1]) + if k in s.rows && !s.HasCopy(k) then 1 else 0
  }

  /** Over distinct files a sync reports as created the new ones, as updated the old ones without a copy
      and once more those that it relocates, and as removed the rows it prunes. */
  lemma {:induction false} RunReportCounts(r: Roots, s: State, items: seq<Item>, stamp: int)
    requires DistinctKeys(items)
    ensures var report := RunReport(r, s, items, stamp);
            && report.created == NewFiles(s, items)
            && report.updated == OldFiles(s, items) + Relocations(r, s, items, stamp)
  {
    if items == [] {
    } else {
      var front, last := items[..|items| - 1], items[|items| - 1];
      assert forall i :: 0 <= i < |front| ==> front[i] == items[i];
      assert !InItems(front, last.key);
      RunReportCounts(r, s, front, stamp);
      RunKeys(r, s, front, stamp, last.key);
    }
  }

  /** What the cloud has is seen. */
  lemma VisitedIsSeen(items: seq<Item>, k: Key)
    requires InItems(items, k)
    ensures SeenKey(k) in Seen(items)
  {
    var i :| 0 <= i < |items| && items[i].key == k;
    assert SeenKey(items[i].key) in Seen(items);
  }

  /** The rows that go are the provider's rows that it held before and the cloud no longer has. */
  lemma SyncReportCounts(r: Roots, s: State, name: string, items: seq<Item>, syncStart: int, stamp: int)
    requires DistinctKeys(items)
    ensures var report := SyncReport(r, s, name, items, syncStart, stamp);
            var gone := s.rows.Keys - Sync(r, s, name, items, syncStart, stamp).rows.Keys;
            && report.created == NewFiles(s, items)
            && report.updated == OldFiles(s, items) + Relocations(r, s, items, stamp)
            && report.removed == |gone|
  {
    var ran := Run(r, s, items, stamp);
    var doomed := Stale(ran.rows, name, Seen(items), syncStart);
    RunReportCounts(r, s, items, stamp);
    forall k
      ensures k in ran.rows <==> k in s.rows || InItems(items, k)
    {
      RunKeys(r, s, items, stamp, k);
    }
    forall k | InItems(items, k)
      ensures k !in doomed
    {
      VisitedIsSeen(items, k);
    }
    assert s.rows.Keys - (ran.rows - doomed).Keys == doomed;
  }
}
