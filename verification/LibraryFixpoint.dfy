/** Repeated rounds of syncs of an unchanged cloud come to rest: the rows after at most ten rounds per
    file, the finished copies after one or two more per file, wherever they were; from then on every
    round writes nothing and changes nothing but time stamps (internal/strm/writer.go,
    internal/strm/local.go). */
module LibraryFixpoint {
  import opened Text
  import opened Paths
  import opened Library
  import opened LibrarySafety
  import opened LibraryCopies
  import opened LibraryConvergence
  import opened LibraryRounds

  // ----- how often a copy is moved -----

  /** How often a copy is moved yet while its file stays at path: a move within the library can end
      in the download folder, and then there is one more. */
  function Hops(r: Roots, c: Copy, path: string, srcPath: string): (n: nat)
    ensures n <= 2
    ensures n == 0 <==> CopyWanted(r, c, path, srcPath) == c.localPath
  {
    var next := CopyWanted(r, c, path, srcPath);
    if next == c.localPath then 0
    else 1 + (if CopyWanted(r, c.(localPath := next), path, srcPath) == next then 0 else 1)
  }

  lemma WantedLiesInRoot(r: Roots, c: Copy, path: string, srcPath: string)
    requires CopyWanted(r, c, path, srcPath) != c.localPath
    ensures var root := CopyRoot(r, c.localPath);
            (root == r.downloads || root == r.library) && Within(root, CopyWanted(r, c, path, srcPath))
  {
  }

  lemma HopsFall(r: Roots, c: Copy, path: string, srcPath: string)
    ensures var next := CopyWanted(r, c, path, srcPath);
            next != c.localPath ==> Hops(r, c.(localPath := next), path, srcPath) < Hops(r, c, path, srcPath)
  {
    var next := CopyWanted(r, c, path, srcPath);
    if next != c.localPath {
      var moved := c.(localPath := next);
      var again := CopyWanted(r, moved, path, srcPath);
      WantedLiesInRoot(r, c, path, srcPath);
      if again != next {
        WantedLiesInRoot(r, moved, path, srcPath);
        assert CopyRoot(r, next) == r.downloads == CopyRoot(r, again);
      }
    }
  }

  /** Inside the library, and outside a separate download folder, one move is enough. */
  lemma OneHop(r: Roots, c: Copy, path: string, srcPath: string)
    requires LibraryPath(r, path)
    ensures Hops(r, c, path, srcPath) <= 1
  {
    hide CopyHome, LibraryPath;
    if CopyWanted(r, c, path, srcPath) != c.localPath {
      RootIsOneOfTwo(r, c.localPath);
      CopyHomeStays(r, CopyRoot(r, c.localPath), path, srcPath);
    }
  }

  function CopyRank(r: Roots, s: State, it: Item): nat {
    if s.HasCopy(it.key) && it.key in s.rows then
      Hops(r, s.copies[it.key], s.rows[it.key].strmPath, it.filePath)
    else 0
  }

  function CopyRankSum(r: Roots, s: State, all: seq<Item>): nat {
    if all == [] then 0 else CopyRankSum(r, s, all[..|all| - 1]) + CopyRank(r, s, all[|all| - 1])
  }

  /** Two libraries that rank all copies but the j-th alike. */
  lemma {:induction false} CopyRankSumDiffers(r: Roots, s: State, t: State, all: seq<Item>, j: nat)
    requires forall i :: 0 <= i < |all| && i != j ==> CopyRank(r, s, all[i]) == CopyRank(r, t, all[i])
    ensures if j < |all| then
              CopyRankSum(r, t, all) + CopyRank(r, s, all[j]) == CopyRankSum(r, s, all) + CopyRank(r, t, all[j])
            else CopyRankSum(r, t, all) == CopyRankSum(r, s, all)
  {
    hide CopyRank;
    if all == [] {
    } else {
      CopyRankSumDiffers(r, s, t, all[..|all| - 1], j);
    }
  }

  /** The most copy moves a cloud can need once its rows rest. */
  ghost function MostHops(r: Roots, all: seq<Item>): nat {
    if forall i :: 0 <= i < |all| ==> LibraryItem(r, all[i]) then |all| else 2 * |all|
  }

  lemma {:induction false} CopyRankSumBound(r: Roots, s: State, all: seq<Item>, most: nat)
    requires forall i :: 0 <= i < |all| ==> CopyRank(r, s, all[i]) <= most
    ensures CopyRankSum(r, s, all) <= most * |all|
  {
    hide CopyRank;
    if all == [] {
    } else {
      var front := all[..|all| - 1];
      assert forall i :: 0 <= i < |front| ==> front[i] == all[i];
      assert CopyRank(r, s, all[|all| - 1]) <= most;
      CopyRankSumBound(r, s, front, most);
      assert most * |all| == most * |front| + most;
    }
  }

  lemma CopiesAreBounded(r: Roots, s: State, all: seq<Item>)
    requires Steady(s, all)
    ensures CopyRankSum(r, s, all) <= MostHops(r, all)
  {
    var inside := forall i :: 0 <= i < |all| ==> LibraryItem(r, all[i]);
    forall i | 0 <= i < |all|
      ensures CopyRank(r, s, all[i]) <= if inside then 1 else 2
    {
      if inside {
        assert SteadyItem(s, all[i]) && LibraryItem(r, all[i]);
        hide Hops, LibraryPath;
        if s.HasCopy(all[i].key) {
          OneHop(r, s.copies[all[i].key], s.rows[all[i].key].strmPath, all[i].filePath);
        }
      }
    }
    CopyRankSumBound(r, s, all, if inside then 1 else 2);
  }

  /** How many copies a run, a sync and a sequence of syncs rename. */
  function CopyMoves(r: Roots, s: State, items: seq<Item>, stamp: int): nat {
    if items == [] then 0
    else
      var front := items[..|items| - 1];
      CopyMoves(r, s, front, stamp) + if MovesCopy(r, Run(r, s, front, stamp), items[|items| - 1]) then 1 else 0
  }

  function SyncCopyMoves(r: Roots, s: State, e: Event): nat {
    if e.SyncEvent? then CopyMoves(r, s, e.items, e.stamp) else 0
  }

  function TotalCopyMoves(r: Roots, s: State, events: seq<Event>): nat {
    if events == [] then 0
    else
      var front := events[..|events| - 1];
      TotalCopyMoves(r, s, front) + SyncCopyMoves(r, After(r, s, front), events[|events| - 1])
  }

  // ----- quiet syncs -----

  /** The same rows but for time stamps, and the same .strm files, without a write. */
  ghost predicate SameStrms(s: State, t: State) {
    && t.writes == s.writes && t.rows.Keys == s.rows.Keys
    && (forall k :: k in s.rows ==> t.rows[k] == s.rows[k].(updatedAt := t.rows[k].updatedAt))
    && (forall p :: HasSuffix(p, STRM) ==> SameAt(s.disk, t.disk, p))
    && (forall k :: s.HasCopy(k) <==> t.HasCopy(k))
  }

  /** The same copies and the same disk, too. */
  ghost predicate SameButStamps(s: State, t: State) {
    SameStrms(s, t) && t.disk == s.disk && t.copies == s.copies
  }

  lemma SameReflexive(s: State)
    ensures SameButStamps(s, s)
  {
  }

  lemma StrmsTransitive(s: State, t: State, u: State)
    requires SameStrms(s, t) && SameStrms(t, u)
    ensures SameStrms(s, u)
  {
    forall p | HasSuffix(p, STRM)
      ensures SameAt(s.disk, u.disk, p)
    {
      assert SameAt(s.disk, t.disk, p) && SameAt(t.disk, u.disk, p);
    }
  }

  lemma SameTransitive(s: State, t: State, u: State)
    requires SameButStamps(s, t) && SameButStamps(t, u)
    ensures SameButStamps(s, u)
  {
    StrmsTransitive(s, t, u);
  }

  /** A step that does not relocate its file writes nothing and leaves all .strm files as they are,
      whatever happens to the copy. */
  lemma QuietStep(r: Roots, s: State, it: Item, stamp: int)
    requires Healthy(s) && SteadyItem(s, it) && !Relocates(s, it)
    ensures SameStrms(s, Step(r, s, it, stamp))
    ensures UniquePath(s.rows, it) == s.rows[it.key].strmPath
  {
    var t, path := Step(r, s, it, stamp), s.rows[it.key].strmPath;
    assert path != "" && path == UniquePath(s.rows, it);
    QuietWrites(r, s, it, stamp);
    StepPlaces(r, s, it, stamp);
    StepTouches(r, s, it, stamp);
    hide Step, UniquePath, StrmItem, Shaped;
    assert SameAt(s.disk, t.disk, path);
  }

  lemma QuietWrites(r: Roots, s: State, it: Item, stamp: int)
    requires Placed(s, it) && !Relocates(s, it) && UniquePath(s.rows, it) == s.rows[it.key].strmPath
    ensures Step(r, s, it, stamp).writes == s.writes
  {
    hide UniquePath, CopyWanted;
  }

  /** And one that leaves the copy where it is changes nothing but the time stamp. */
  lemma StillStep(r: Roots, s: State, it: Item, stamp: int)
    requires Healthy(s) && SteadyItem(s, it) && !Relocates(s, it) && !MovesCopy(r, s, it)
    ensures SameButStamps(s, Step(r, s, it, stamp))
  {
    var t, path := Step(r, s, it, stamp), s.rows[it.key].strmPath;
    QuietStep(r, s, it, stamp);
    hide CopyWanted, UniquePath, SameStrms, Shaped;
    if s.HasCopy(it.key) {
      assert path !in s.disk && s.disk - {path} == s.disk;
    }
  }

  /** A step that does not relocate its file moves the copy only as far as its hops allow. */
  lemma StepCopyRank(r: Roots, s: State, all: seq<Item>, it: Item, stamp: int)
    requires Steady(s, all) && DistinctKeys(all) && it in all && !Relocates(s, it)
    ensures var t := Step(r, s, it, stamp);
            CopyRankSum(r, t, all) + (if MovesCopy(r, s, it) then 1 else 0) <= CopyRankSum(r, s, all)
  {
    var t := Step(r, s, it, stamp);
    var j :| 0 <= j < |all| && all[j] == it;
    assert SteadyItem(s, all[j]);
    QuietStep(r, s, it, stamp);
    StepOnCopies(r, s, it, stamp);
    if s.HasCopy(it.key) {
      HopsFall(r, s.copies[it.key], s.rows[it.key].strmPath, it.filePath);
    }
    hide Step, Hops, CopyWanted, UniquePath, Steady, SteadyItem, Relocates;
    forall i | 0 <= i < |all| && i != j
      ensures CopyRank(r, s, all[i]) == CopyRank(r, t, all[i])
    {
      assert all[i].key != it.key;
    }
    CopyRankSumDiffers(r, s, t, all, j);
  }

  /** Over a run that relocates nothing: no .strm is written, copies are renamed only as often as
      their hops allow, and when none is, nothing changes but time stamps. */
  lemma {:induction false} QuietRun(r: Roots, s: State, all: seq<Item>, items: seq<Item>, stamp: int)
    requires Steady(s, all) && DistinctKeys(all) && Among(items, all) && Relocations(r, s, items, stamp) == 0
    ensures var t := Run(r, s, items, stamp);
            && SameStrms(s, t)
            && CopyRankSum(r, t, all) + CopyMoves(r, s, items, stamp) <= CopyRankSum(r, s, all)
            && (CopyMoves(r, s, items, stamp) == 0 ==> SameButStamps(s, t))
  {
    if items == [] {
    } else {
      hide Step, Steady, SteadyItem, Relocates, MovesCopy, SameStrms, SameButStamps, CopyRankSum, DistinctKeys;
      var front, last := items[..|items| - 1], items[|items| - 1];
      QuietRun(r, s, all, front, stamp);
      RunStaysSteady(r, s, all, front, stamp);
      QuietNext(r, s, Run(r, s, front, stamp), all, last, stamp);
    }
  }

  lemma QuietNext(r: Roots, s: State, mid: State, all: seq<Item>, it: Item, stamp: int)
    requires Steady(mid, all) && DistinctKeys(all) && it in all && SameStrms(s, mid) && !Relocates(mid, it)
    ensures var t := Step(r, mid, it, stamp);
            && SameStrms(s, t)
            && CopyRankSum(r, t, all) + (if MovesCopy(r, mid, it) then 1 else 0) <= CopyRankSum(r, mid, all)
            && (SameButStamps(s, mid) && !MovesCopy(r, mid, it) ==> SameButStamps(s, t))
  {
    var j :| 0 <= j < |all| && all[j] == it;
    assert SteadyItem(mid, all[j]) && Healthy(mid);
    hide Step, Steady, SteadyItem, Healthy, Relocates, MovesCopy, SameStrms, SameButStamps, CopyRankSum, DistinctKeys;
    StepCopyRank(r, mid, all, it, stamp);
    QuietStep(r, mid, it, stamp);
    StrmsTransitive(s, mid, Step(r, mid, it, stamp));
    if SameButStamps(s, mid) && !MovesCopy(r, mid, it) {
      StillStep(r, mid, it, stamp);
      SameTransitive(s, mid, Step(r, mid, it, stamp));
    }
  }

  /** The same over syncs of an unchanged cloud that find nothing to relocate and nothing to prune. */
  lemma {:induction false} QuietSyncs(r: Roots, s: State, all: seq<Item>, events: seq<Event>)
    requires BetweenRounds(s, all, events) && TotalMoves(r, s, events) == 0
    ensures var t := After(r, s, events);
            && SameStrms(s, t)
            && CopyRankSum(r, t, all) + TotalCopyMoves(r, s, events) <= CopyRankSum(r, s, all)
            && (TotalCopyMoves(r, s, events) == 0 ==> SameButStamps(s, t))
  {
    if events == [] {
    } else {
      hide BetweenRounds, Apply, Moves, SyncCopyMoves, SameStrms, SameButStamps, CopyRankSum;
      var front, last := events[..|events| - 1], events[|events| - 1];
      var mid := After(r, s, front);
      ReadyWithin(r, s, all, events);
      QuietSyncs(r, s, all, front);
      QuietSync(r, mid, all, last);
      StrmsTransitive(s, mid, Apply(r, mid, last));
      if TotalCopyMoves(r, s, events) == 0 {
        SameTransitive(s, mid, Apply(r, mid, last));
      }
    }
  }

  /** A sync that finds nothing to relocate and nothing to prune writes no .strm and changes no row but
      for its time stamp; when it renames no copy either, it changes nothing else. */
  lemma QuietSync(r: Roots, s: State, all: seq<Item>, e: Event)
    requires BetweenRounds(s, all, [e]) && Moves(r, s, e) == 0
    ensures var t := Apply(r, s, e);
            && SameStrms(s, t)
            && CopyRankSum(r, t, all) + SyncCopyMoves(r, s, e) <= CopyRankSum(r, s, all)
            && (SyncCopyMoves(r, s, e) == 0 ==> SameButStamps(s, t))
  {
    assert SeesCloud([e][0], all) && AllSeen(s, [e][0]);
    hide Run, Steady, AllSeen, Apply, Seen, SameStrms, SameButStamps, CopyRankSum, DistinctKeys, Relocations, CopyMoves;
    SyncIsRun(r, s, all, e);
    QuietRun(r, s, all, e.items, e.stamp);
  }

  // ----- what a sync does depends on -----

  /** Whether a step relocates depends on the paths of the rows alone. */
  ghost predicate SamePaths(rows1: map<Key, Row>, rows2: map<Key, Row>) {
    rows1.Keys == rows2.Keys && forall k :: k in rows1 ==> rows1[k].strmPath == rows2[k].strmPath
  }

  lemma {:induction false} FirstFreeSame(rows1: map<Key, Row>, rows2: map<Key, Row>, k: Key, paths: seq<string>)
    requires SamePaths(rows1, rows2)
    ensures FirstFree(rows1, k, paths) == FirstFree(rows2, k, paths)
  {
    if paths == [] {
    } else {
      assert Free(rows1, k, paths[0]) <==> Free(rows2, k, paths[0]);
      FirstFreeSame(rows1, rows2, k, paths[1..]);
    }
  }

  lemma PathSame(rows1: map<Key, Row>, rows2: map<Key, Row>, it: Item)
    requires SamePaths(rows1, rows2)
    ensures UniquePath(rows1, it) == UniquePath(rows2, it)
  {
    FirstFreeSame(rows1, rows2, it.key, Candidates(it));
  }

  lemma SameHavePaths(s: State, t: State)
    requires SameStrms(s, t)
    ensures SamePaths(s.rows, t.rows)
  {
  }

  /** The same copies, disk and count of writes. */
  predicate SameStores(s: State, t: State) {
    s.disk == t.disk && s.copies == t.copies && s.writes == t.writes
  }

  lemma KeepCopyAlike(r: Roots, s: State, t: State, it: Item, path: string)
    requires SameStores(s, t) && s.HasCopy(it.key)
    ensures SameStores(KeepCopy(r, s, it, path), KeepCopy(r, t, it, path))
  {
    hide CopyWanted;
  }

  lemma StepIgnoresStamps(r: Roots, s: State, t: State, it: Item, stamp1: int, stamp2: int)
    requires SameStores(s, t) && SamePaths(s.rows, t.rows) && UniquePath(s.rows, it) == UniquePath(t.rows, it)
    ensures SameStores(Step(r, s, it, stamp1), Step(r, t, it, stamp2))
    ensures MovesCopy(r, s, it) <==> MovesCopy(r, t, it)
  {
    hide CopyWanted, UniquePath, KeepCopy;
    var path := UniquePath(s.rows, it);
    var s', t' := Upsert(RemoveOld(s, it), it, path, stamp1), Upsert(RemoveOld(t, it), it, path, stamp2);
    assert SameStores(s', t');
    if s.HasCopy(it.key) {
      KeepCopyAlike(r, s', t', it, path);
    }
  }

  lemma StepPathsAlike(r: Roots, s: State, t: State, it: Item, stamp1: int, stamp2: int)
    requires SamePaths(s.rows, t.rows)
    ensures Relocates(s, it) <==> Relocates(t, it)
    ensures SamePaths(Step(r, s, it, stamp1).rows, Step(r, t, it, stamp2).rows)
  {
    PathSame(s.rows, t.rows, it);
    StepRowsAre(r, s, it, stamp1);
    StepRowsAre(r, t, it, stamp2);
    hide Step, UniquePath;
  }

  lemma StepAlike(r: Roots, s: State, t: State, it: Item, stamp1: int, stamp2: int)
    requires SameButStamps(s, t)
    ensures MovesCopy(r, s, it) <==> MovesCopy(r, t, it)
    ensures SameButStamps(Step(r, s, it, stamp1), Step(r, t, it, stamp2))
  {
    hide SamePaths;
    SameHavePaths(s, t);
    PathSame(s.rows, t.rows, it);
    StepRowsAre(r, s, it, stamp1);
    StepRowsAre(r, t, it, stamp2);
    hide Step, UniquePath, MovesCopy;
    StepIgnoresStamps(r, s, t, it, stamp1, stamp2);
  }

  lemma {:induction false} RunAlike(r: Roots, s: State, t: State, items: seq<Item>, stamp1: int, stamp2: int)
    requires SamePaths(s.rows, t.rows)
    ensures Relocations(r, s, items, stamp1) == Relocations(r, t, items, stamp2)
    ensures SamePaths(Run(r, s, items, stamp1).rows, Run(r, t, items, stamp2).rows)
    ensures SameButStamps(s, t) ==>
              CopyMoves(r, s, items, stamp1) == CopyMoves(r, t, items, stamp2)
              && SameButStamps(Run(r, s, items, stamp1), Run(r, t, items, stamp2))
  {
    if items == [] {
    } else {
      hide Step, Relocates, MovesCopy, SamePaths, SameButStamps;
      var front, last := items[..|items| - 1], items[|items| - 1];
      RunAlike(r, s, t, front, stamp1, stamp2);
      StepPathsAlike(r, Run(r, s, front, stamp1), Run(r, t, front, stamp2), last, stamp1, stamp2);
      if SameButStamps(s, t) {
        StepAlike(r, Run(r, s, front, stamp1), Run(r, t, front, stamp2), last, stamp1, stamp2);
      }
    }
  }

  lemma SyncAlike(r: Roots, s: State, t: State, all: seq<Item>, e: Event, e': Event)
    requires BetweenRounds(s, all, [e]) && BetweenRounds(t, all, [e']) && SameSync(e', e) && SamePaths(s.rows, t.rows)
    ensures Moves(r, s, e) == Moves(r, t, e') && SamePaths(Apply(r, s, e).rows, Apply(r, t, e').rows)
    ensures SameButStamps(s, t) ==>
              SyncCopyMoves(r, s, e) == SyncCopyMoves(r, t, e') && SameButStamps(Apply(r, s, e), Apply(r, t, e'))
  {
    assert SeesCloud([e][0], all) && AllSeen(s, [e][0]) && SeesCloud([e'][0], all) && AllSeen(t, [e'][0]);
    hide Run, Steady, AllSeen, SeesCloud, Apply, SamePaths, SameButStamps, DistinctKeys, Relocations, CopyMoves;
    SyncIsRun(r, s, all, e);
    SyncIsRun(r, t, all, e');
    RunAlike(r, s, t, e.items, e.stamp, e'.stamp);
  }

  lemma RepeatsFront(again: seq<Event>, round: seq<Event>)
    requires round != [] && Repeats(again, round)
    ensures Repeats(again[..|again| - 1], round[..|round| - 1])
    ensures again != [] && SameSync(again[|again| - 1], round[|round| - 1])
  {
    var n := |round| - 1;
    forall i | 0 <= i < n
      ensures SameSync(again[..n][i], round[..n][i])
    {
      assert SameSync(again[i], round[i]);
    }
  }

  /** Whether a round relocates anything depends on the paths of the rows; and rounds do the same to
      libraries that differ in time stamps only. */
  lemma {:induction false} RoundAlike(r: Roots, s: State, t: State, all: seq<Item>, round: seq<Event>,
      again: seq<Event>)
    requires BetweenRounds(s, all, round) && BetweenRounds(t, all, round) && Repeats(again, round)
    requires SamePaths(s.rows, t.rows)
    ensures TotalMoves(r, s, round) == TotalMoves(r, t, again)
    ensures SamePaths(After(r, s, round).rows, After(r, t, again).rows)
    ensures SameButStamps(s, t) ==>
              TotalCopyMoves(r, s, round) == TotalCopyMoves(r, t, again)
              && SameButStamps(After(r, s, round), After(r, t, again))
  {
    if round == [] {
    } else {
      hide BetweenRounds, Apply, Moves, SyncCopyMoves, SamePaths, SameButStamps, SameSync, Repeats;
      var front, last := round[..|round| - 1], round[|round| - 1];
      var front', last' := again[..|again| - 1], again[|again| - 1];
      ReadyAlike(t, all, round, again);
      ReadyWithin(r, s, all, round);
      ReadyWithin(r, t, all, round);
      RepeatsFront(again, round);
      ReadyWithin(r, t, all, again);
      RoundAlike(r, s, t, all, front, front');
      SyncAlike(r, After(r, s, front), After(r, t, front'), all, last, last');
    }
  }

  /** Once a round of syncs over an unchanged cloud relocates no file and renames no copy, every
      repetition of it does the same, which is nothing but set time stamps. */
  lemma QuietRoundIsFixpoint(r: Roots, s: State, all: seq<Item>, round: seq<Event>, again: seq<Event>)
    requires BetweenRounds(s, all, round) && Repeats(again, round)
    requires TotalMoves(r, s, round) == 0 && TotalCopyMoves(r, s, round) == 0
    ensures var t := After(r, s, round);
            && SameButStamps(s, t) && SameButStamps(t, After(r, t, again))
            && TotalMoves(r, t, again) == 0 && TotalCopyMoves(r, t, again) == 0
  {
    var t := After(r, s, round);
    RepeatsItself(again, round);
    hide After, TotalMoves, TotalCopyMoves, BetweenRounds, SameStrms, Repeats;
    QuietSyncs(r, s, all, round);
    SameHavePaths(s, t);
    RoundKeepsReady(r, s, all, round, round);
    RoundAlike(r, s, t, all, round, again);
    ReadyAlike(t, all, round, again);
    QuietSyncs(r, t, all, again);
  }

  lemma RepeatsItself(again: seq<Event>, round: seq<Event>)
    requires Repeats(again, round)
    ensures Repeats(round, round)
  {
    assert forall i :: 0 <= i < |round| ==> SameSync(again[i], round[i]);
  }

  // ----- coming to rest -----

  /** After the first n rounds. */
  function AfterRounds(r: Roots, s: State, rounds: seq<seq<Event>>, n: nat): State
    requires n <= |rounds|
  {
    if n == 0 then s else After(r, AfterRounds(r, s, rounds, n - 1), rounds[n - 1])
  }

  /** Rounds of the same syncs. */
  ghost predicate Rounds(rounds: seq<seq<Event>>, round: seq<Event>) {
    forall i :: 0 <= i < |rounds| ==> Repeats(rounds[i], round)
  }

  /** From round i on no file is relocated, no .strm written and no row changed but for its stamp. */
  ghost predicate RowsRest(r: Roots, s: State, rounds: seq<seq<Event>>, i: nat)
    requires i <= |rounds|
  {
    forall j :: i <= j <= |rounds| ==> RowsRestAt(r, s, rounds, i, j)
  }

  ghost predicate RowsRestAt(r: Roots, s: State, rounds: seq<seq<Event>>, i: nat, j: nat)
    requires i <= |rounds| && j <= |rounds|
  {
    var t := AfterRounds(r, s, rounds, j);
    SameStrms(AfterRounds(r, s, rounds, i), t) && (j < |rounds| ==> TotalMoves(r, t, rounds[j]) == 0)
  }

  /** From round i on nothing happens at all but time stamps. */
  ghost predicate AtRest(r: Roots, s: State, rounds: seq<seq<Event>>, i: nat)
    requires i <= |rounds|
  {
    forall j :: i <= j <= |rounds| ==> RestsAt(r, s, rounds, i, j)
  }

  ghost predicate RestsAt(r: Roots, s: State, rounds: seq<seq<Event>>, i: nat, j: nat)
    requires i <= |rounds| && j <= |rounds|
  {
    var t := AfterRounds(r, s, rounds, j);
    && SameButStamps(AfterRounds(r, s, rounds, i), t)
    && (j < |rounds| ==> TotalMoves(r, t, rounds[j]) == 0 && TotalCopyMoves(r, t, rounds[j]) == 0)
  }

  lemma {:induction false} ReadyAt(r: Roots, s: State, all: seq<Item>, round: seq<Event>, rounds: seq<seq<Event>>,
      n: nat)
    requires BetweenRounds(s, all, round) && Rounds(rounds, round) && n <= |rounds|
    ensures BetweenRounds(AfterRounds(r, s, rounds, n), all, round)
    ensures n < |rounds| ==> BetweenRounds(AfterRounds(r, s, rounds, n), all, rounds[n])
  {
    hide BetweenRounds, After, Repeats;
    if n > 0 {
      ReadyAt(r, s, all, round, rounds, n - 1);
      RoundKeepsReady(r, AfterRounds(r, s, rounds, n - 1), all, round, rounds[n - 1]);
    }
    if n < |rounds| {
      ReadyAlike(AfterRounds(r, s, rounds, n), all, round, rounds[n]);
    }
  }

  lemma RankIsBounded(s: State, all: seq<Item>)
    requires Steady(s, all) && forall j :: 0 <= j < |all| ==> |all[j].alternates| == 10
    ensures RankSum(s.rows, all) <= 10 * |all|
  {
    SteadyIsSettled(s, all);
    forall i | 0 <= i < |all|
      ensures Rank(s.rows, all[i]) <= 10
    {
      assert SettledItem(s, all[i]);
    }
    RankSumBound(s.rows, all);
  }

  /** As long as each round relocates something, there are no more of them than the sum of ranks. */
  lemma SomeRoundRelocatesNothing(r: Roots, s: State, all: seq<Item>, round: seq<Event>, rounds: seq<seq<Event>>)
    returns (i: nat)
    requires BetweenRounds(s, all, round) && Rounds(rounds, round) && |rounds| > RankSum(s.rows, all)
    ensures i <= RankSum(s.rows, all) && TotalMoves(r, AfterRounds(r, s, rounds, i), rounds[i]) == 0
  {
    hide After, TotalMoves, BetweenRounds, Repeats, RankSum;
    i := 0;
    while TotalMoves(r, AfterRounds(r, s, rounds, i), rounds[i]) > 0
      invariant i < |rounds| && RankSum(AfterRounds(r, s, rounds, i).rows, all) + i <= RankSum(s.rows, all)
      decreases |rounds| - i
    {
      ReadyAt(r, s, all, round, rounds, i);
      RoundKeepsReady(r, AfterRounds(r, s, rounds, i), all, round, rounds[i]);
      i := i + 1;
    }
  }

  lemma RepeatsEach(rounds: seq<seq<Event>>, round: seq<Event>, i: nat, j: nat)
    requires Rounds(rounds, round) && i < |rounds| && j < |rounds|
    ensures Repeats(rounds[j], rounds[i])
  {
    assert Repeats(rounds[i], round) && Repeats(rounds[j], round);
    forall k | 0 <= k < |round|
      ensures SameSync(rounds[j][k], rounds[i][k])
    {
      assert SameSync(rounds[i][k], round[k]) && SameSync(rounds[j][k], round[k]);
    }
  }

  /** The library before round j, and the one before a round i like it, are ready for that round. */
  lemma BothReady(r: Roots, s: State, all: seq<Item>, round: seq<Event>, rounds: seq<seq<Event>>, i: nat, j: nat)
    requires BetweenRounds(s, all, round) && Rounds(rounds, round) && i < |rounds| && j < |rounds|
    ensures BetweenRounds(AfterRounds(r, s, rounds, i), all, rounds[i])
    ensures BetweenRounds(AfterRounds(r, s, rounds, j), all, rounds[i])
    ensures BetweenRounds(AfterRounds(r, s, rounds, j), all, rounds[j])
    ensures Repeats(rounds[j], rounds[i])
  {
    hide BetweenRounds, After, Repeats, Rounds, AfterRounds;
    RepeatsEach(rounds, round, i, j);
    RepeatsEach(rounds, round, j, i);
    ReadyAt(r, s, all, round, rounds, i);
    ReadyAt(r, s, all, round, rounds, j);
    ReadyAlike(AfterRounds(r, s, rounds, j), all, rounds[j], rounds[i]);
  }

  lemma {:induction false} RowsRestOn(r: Roots, s: State, all: seq<Item>, round: seq<Event>, rounds: seq<seq<Event>>,
                                      i: nat, j: nat)
    requires BetweenRounds(s, all, round) && Rounds(rounds, round) && i < |rounds| && i <= j <= |rounds|
    requires TotalMoves(r, AfterRounds(r, s, rounds, i), rounds[i]) == 0
    ensures RowsRestAt(r, s, rounds, i, j)
    decreases j
  {
    hide After, TotalMoves, BetweenRounds, Repeats, Rounds, SameStrms, SamePaths;
    var start, t := AfterRounds(r, s, rounds, i), AfterRounds(r, s, rounds, j);
    if j == i {
      SameReflexive(start);
    } else {
      var k: nat := j - 1;
      var mid := AfterRounds(r, s, rounds, k);
      RowsRestOn(r, s, all, round, rounds, i, k);
      BothReady(r, s, all, round, rounds, i, k);
      QuietSyncs(r, mid, all, rounds[k]);
      StrmsTransitive(start, mid, t);
    }
    if j < |rounds| {
      BothReady(r, s, all, round, rounds, i, j);
      SameHavePaths(start, t);
      RoundAlike(r, start, t, all, rounds[i], rounds[j]);
    }
  }

  /** Once the rows rest, each further round that renames a copy uses up one of the hops left. */
  lemma SomeRoundRenamesNothing(r: Roots, s: State, all: seq<Item>, round: seq<Event>, rounds: seq<seq<Event>>,
      start: nat)
    returns (i: nat)
    requires BetweenRounds(s, all, round) && Rounds(rounds, round) && start <= |rounds| && RowsRest(r, s, rounds, start)
    requires |rounds| > start + CopyRankSum(r, AfterRounds(r, s, rounds, start), all)
    ensures start <= i <= start + CopyRankSum(r, AfterRounds(r, s, rounds, start), all)
    ensures TotalCopyMoves(r, AfterRounds(r, s, rounds, i), rounds[i]) == 0
  {
    hide After, TotalMoves, TotalCopyMoves, BetweenRounds, Repeats, CopyRankSum, SameStrms, SameButStamps;
    i := start;
    while TotalCopyMoves(r, AfterRounds(r, s, rounds, i), rounds[i]) > 0
      invariant start <= i < |rounds|
      invariant CopyRankSum(r, AfterRounds(r, s, rounds, i), all) + (i - start)
                <= CopyRankSum(r, AfterRounds(r, s, rounds, start), all)
      decreases |rounds| - i
    {
      assert RowsRestAt(r, s, rounds, start, i);
      ReadyAt(r, s, all, round, rounds, i);
      QuietSyncs(r, AfterRounds(r, s, rounds, i), all, rounds[i]);
      i := i + 1;
    }
  }

  lemma {:induction false} RestsOn(r: Roots, s: State, all: seq<Item>, round: seq<Event>, rounds: seq<seq<Event>>,
                                   i: nat, j: nat)
    requires BetweenRounds(s, all, round) && Rounds(rounds, round) && i < |rounds| && i <= j <= |rounds|
    requires TotalMoves(r, AfterRounds(r, s, rounds, i), rounds[i]) == 0
    requires TotalCopyMoves(r, AfterRounds(r, s, rounds, i), rounds[i]) == 0
    ensures RestsAt(r, s, rounds, i, j)
    decreases j
  {
    hide After, TotalMoves, TotalCopyMoves, BetweenRounds, Repeats, Rounds, SameStrms, SamePaths;
    var start, t := AfterRounds(r, s, rounds, i), AfterRounds(r, s, rounds, j);
    if j == i {
      SameReflexive(start);
    } else {
      var k: nat := j - 1;
      var mid := AfterRounds(r, s, rounds, k);
      RestsOn(r, s, all, round, rounds, i, k);
      BothReady(r, s, all, round, rounds, i, k);
      QuietSyncs(r, mid, all, rounds[k]);
      SameTransitive(start, mid, t);
    }
    if j < |rounds| {
      BothReady(r, s, all, round, rounds, i, j);
      SameHavePaths(start, t);
      RoundAlike(r, start, t, all, rounds[i], rounds[j]);
    }
  }

  /** From a placed library with nothing to prune, whatever the copies: among any rounds that sync the
      same cloud of n files, at most 10 * n relocate anything, and at most one more per file, or two for
      files outside the library, rename a copy. Then all is at rest. */
  lemma RoundsComeToRest(r: Roots, s: State, all: seq<Item>, round: seq<Event>, rounds: seq<seq<Event>>)
    returns (i: nat, j: nat)
    requires BetweenRounds(s, all, round) && Rounds(rounds, round) && |rounds| > 10 * |all| + MostHops(r, all)
    requires forall m :: 0 <= m < |all| ==> |all[m].alternates| == 10
    ensures i <= 10 * |all| && RowsRest(r, s, rounds, i)
    ensures i <= j <= i + MostHops(r, all) && AtRest(r, s, rounds, j)
  {
    RankIsBounded(s, all);
    hide AfterRounds, TotalMoves, TotalCopyMoves, BetweenRounds, SameButStamps, SameStrms, Rounds;
    hide RankSum, CopyRankSum, MostHops;
    i := SomeRoundRelocatesNothing(r, s, all, round, rounds);
    forall k | i <= k <= |rounds|
      ensures RowsRestAt(r, s, rounds, i, k)
    {
      RowsRestOn(r, s, all, round, rounds, i, k);
    }
    ReadyIsSteady(r, s, all, round, rounds, i);
    CopiesAreBounded(r, AfterRounds(r, s, rounds, i), all);
    j := SomeRoundRenamesNothing(r, s, all, round, rounds, i);
    assert RowsRestAt(r, s, rounds, i, j);
    forall k | j <= k <= |rounds|
      ensures RestsAt(r, s, rounds, j, k)
    {
      RestsOn(r, s, all, round, rounds, j, k);
    }
  }

  lemma ReadyIsSteady(r: Roots, s: State, all: seq<Item>, round: seq<Event>, rounds: seq<seq<Event>>, n: nat)
    requires BetweenRounds(s, all, round) && Rounds(rounds, round) && n <= |rounds|
    ensures Steady(AfterRounds(r, s, rounds, n), all)
  {
    ReadyAt(r, s, all, round, rounds, n);
  }

  // ----- where the copies rest -----

  /** The recorded copy of a file is where a sync wants it, or is missing, so that no sync can rename
      it. */
  predicate CopyRests(r: Roots, s: State, it: Item) {
    it.key in s.rows && s.HasCopy(it.key) ==>
      var c := s.copies[it.key];
      CopyWanted(r, c, s.rows[it.key].strmPath, it.filePath) == c.localPath || c.localPath !in s.disk
  }

  ghost predicate CopiesRest(r: Roots, s: State, all: seq<Item>) {
    forall m :: 0 <= m < |all| ==> CopyRests(r, s, all[m])
  }

  lemma UnmovedRests(r: Roots, s: State, all: seq<Item>, it: Item)
    requires Steady(s, all) && it in all && !Relocates(s, it) && !MovesCopy(r, s, it)
    ensures CopyRests(r, s, it)
  {
    var j :| 0 <= j < |all| && all[j] == it;
    assert SteadyItem(s, all[j]);
    QuietStep(r, s, it, 0);
    hide UniquePath, CopyWanted;
  }

  lemma {:induction false} RunFindsRest(r: Roots, s: State, all: seq<Item>, items: seq<Item>, stamp: int, it: Item)
    requires Steady(s, all) && DistinctKeys(all) && Among(items, all) && it in items
    requires Relocations(r, s, items, stamp) == 0 && CopyMoves(r, s, items, stamp) == 0
    ensures CopyRests(r, s, it)
  {
    var front, last := items[..|items| - 1], items[|items| - 1];
    if it in front {
      hide Steady, DistinctKeys, Step, CopyRests;
      RunFindsRest(r, s, all, front, stamp, it);
    } else {
      var mid := Run(r, s, front, stamp);
      assert it == last && it in all;
      hide Steady, DistinctKeys, Run, CopyRests, Relocates, MovesCopy, SameStrms;
      QuietRun(r, s, all, front, stamp);
      SameHavePaths(s, mid);
      StepPathsAlike(r, s, mid, it, stamp, stamp);
      StepAlike(r, s, mid, it, stamp, stamp);
      UnmovedRests(r, s, all, it);
    }
  }

  lemma SyncFindsRest(r: Roots, s: State, all: seq<Item>, e: Event, it: Item)
    requires BetweenRounds(s, all, [e]) && e.SyncEvent? && it in e.items
    requires Moves(r, s, e) == 0 && SyncCopyMoves(r, s, e) == 0
    ensures CopyRests(r, s, it)
  {
    assert SeesCloud([e][0], all);
    hide Steady, DistinctKeys, Seen, SeenKey, CopyRests, Relocations, CopyMoves;
    RunFindsRest(r, s, all, e.items, e.stamp, it);
  }

  lemma QuietLast(r: Roots, s: State, events: seq<Event>)
    requires events != [] && TotalMoves(r, s, events) == 0 && TotalCopyMoves(r, s, events) == 0
    ensures var front, last := events[..|events| - 1], events[|events| - 1];
            && TotalMoves(r, s, front) == 0 && TotalCopyMoves(r, s, front) == 0
            && Moves(r, After(r, s, front), last) == 0 && SyncCopyMoves(r, After(r, s, front), last) == 0
  {
  }

  lemma {:induction false} SyncsFindRest(r: Roots, s: State, all: seq<Item>, events: seq<Event>, e: Event, it: Item)
    requires BetweenRounds(s, all, events) && e in events && e.SyncEvent? && it in e.items
    requires TotalMoves(r, s, events) == 0 && TotalCopyMoves(r, s, events) == 0
    ensures CopyRests(r, s, it)
  {
    var front, last := events[..|events| - 1], events[|events| - 1];
    var mid := After(r, s, front);
    QuietLast(r, s, events);
    ReadyWithin(r, s, all, events);
    hide *;
    if e == last {
      QuietSyncs(r, s, all, front);
      SyncFindsRest(r, mid, all, last, it);
      RestsAlike(r, mid, s, it);
    } else {
      SyncsFindRest(r, s, all, front, e, it);
    }
  }

  lemma RestsAlike(r: Roots, s: State, t: State, it: Item)
    requires SameButStamps(t, s) && CopyRests(r, s, it)
    ensures CopyRests(r, t, it)
  {
    hide CopyWanted;
  }

  lemma {:induction false} RoundVisits(round: seq<Event>, it: Item) returns (i: nat)
    requires ProperRound(round) && it in ItemsOf(round)
    ensures i < |round| && round[i].SyncEvent? && it in round[i].items
  {
    i := |round| - 1;
    if it !in round[i].items {
      var front := round[..i];
      ProperFront(round);
      i := RoundVisits(front, it);
    }
  }

  /** A round that does nothing finds every copy at rest. */
  lemma RoundFindsRest(r: Roots, s: State, round: seq<Event>, again: seq<Event>)
    requires BetweenRounds(s, ItemsOf(round), again) && ProperRound(round) && Repeats(again, round)
    requires TotalMoves(r, s, again) == 0 && TotalCopyMoves(r, s, again) == 0
    ensures CopiesRest(r, s, ItemsOf(round))
  {
    hide BetweenRounds, TotalMoves, TotalCopyMoves, CopyRests, ItemsOf, ProperRound;
    forall m | 0 <= m < |ItemsOf(round)|
      ensures CopyRests(r, s, ItemsOf(round)[m])
    {
      var i := RoundVisits(round, ItemsOf(round)[m]);
      assert SameSync(again[i], round[i]);
      SyncsFindRest(r, s, ItemsOf(round), again, again[i], ItemsOf(round)[m]);
    }
  }

  /** Every finished copy that is on disk, under the library or the download folder, of a file laid out
      in the library, is at its row's place. */
  ghost predicate CopiesHome(r: Roots, s: State, all: seq<Item>) {
    forall m :: 0 <= m < |all| ==> (CanBeHome(r, s, all[m]) ==> Home(r, s, all[m].key))
  }

  ghost predicate CanBeHome(r: Roots, s: State, it: Item) {
    && LibraryItem(r, it) && s.HasCopy(it.key) && s.copies[it.key].status.Done?
    && CopyRoot(r, s.copies[it.key].localPath) != "" && s.copies[it.key].localPath in s.disk
  }

  lemma RestingIsHome(r: Roots, s: State, it: Item)
    requires SteadyItem(s, it) && CopyRests(r, s, it)
    ensures CanBeHome(r, s, it) ==> Home(r, s, it.key)
  {
    hide CopyRoot, CopyHome;
  }

  lemma RestingAreHome(r: Roots, s: State, all: seq<Item>)
    requires Steady(s, all) && CopiesRest(r, s, all)
    ensures CopiesHome(r, s, all)
  {
    hide SteadyItem, CopyRests, CanBeHome, Home;
    forall m | 0 <= m < |all|
      ensures CanBeHome(r, s, all[m]) ==> Home(r, s, all[m].key)
    {
      RestingIsHome(r, s, all[m]);
    }
  }

  // ----- copies that are at home already -----

  /** The candidates of every file lie in the library, and its finished copy, if any, is at home. */
  ghost predicate DoneAreHome(r: Roots, s: State, all: seq<Item>) {
    forall i :: 0 <= i < |all| ==> LibraryItem(r, all[i]) && DoneIsHome(r, s, all[i].key)
  }

  /** A sync keeps a finished copy at home as long as its file stays tracked. */
  lemma SyncKeepsDoneHome(r: Roots, s: State, e: Event, k: Key)
    requires e.SyncEvent? && RunReady(r, s, e.items, e.stamp) && DoneIsHome(r, s, k)
    requires k in s.rows ==> k in Apply(r, s, e).rows
    ensures DoneIsHome(r, Apply(r, s, e), k)
  {
    var ran := Run(r, s, e.items, e.stamp);
    var doomed := Stale(ran.rows, e.name, Seen(e.items), e.syncStart);
    RunReadyIsShaped(r, s, e.items, e.stamp);
    RunKeepsStatus(r, s, e.items, e.stamp, k);
    assert Apply(r, s, e) == RemoveRows(ran, doomed);
    if s.HasCopy(k) {
      hide Run, Apply, RemoveRows, Stale, RunReady, Shaped;
      PruneKeepsHome(r, ran, doomed, k);
      if s.copies[k].status.Done? {
        RunKeepsDone(r, s, e.items, e.stamp, k);
      }
    }
  }

  lemma SeenStays(r: Roots, s: State, all: seq<Item>, e: Event, it: Item)
    requires SeesCloud(e, all) && it in all && it.key in s.rows
    ensures it.key in Apply(r, s, e).rows
  {
    var i :| 0 <= i < |all| && all[i] == it;
    RunKeys(r, s, e.items, e.stamp, it.key);
  }

  lemma CloudRunReady(r: Roots, s: State, all: seq<Item>, e: Event)
    requires Healthy(s) && DoneAreHome(r, s, all) && SeesCloud(e, all) && WellFormed(e) && SmoothEvent(r, s, e)
    ensures RunReady(r, s, e.items, e.stamp)
  {
    forall i | 0 <= i < |e.items|
      ensures LibraryItem(r, e.items[i]) && DoneIsHome(r, s, e.items[i].key)
    {
      var j :| 0 <= j < |all| && all[j] == e.items[i];
    }
  }

  /** Over any smooth syncs of an unchanged cloud the finished copies of its files stay at home,
      whatever copies other files have; from the first sync on. */
  lemma {:induction false} SyncsKeepDoneHome(r: Roots, s: State, all: seq<Item>, events: seq<Event>)
    requires Healthy(s) && SmoothRun(r, s, events) && AllSeeCloud(events, all) && DoneAreHome(r, s, all)
    ensures DoneAreHome(r, After(r, s, events), all)
  {
    if events == [] {
    } else {
      var front, last := events[..|events| - 1], events[|events| - 1];
      var mid := After(r, s, front);
      assert forall i :: 0 <= i < |front| ==> front[i] == events[i];
      assert SeesCloud(last, all) && WellFormed(last);
      SmoothRunFront(r, s, events);
      hide SmoothRun, SmoothEvent, SeesCloud, WellFormed, LibraryItem, DoneIsHome, RunReady, Apply, Healthy;
      RunsStayHealthy(r, s, front);
      SyncsKeepDoneHome(r, s, all, front);
      CloudRunReady(r, mid, all, last);
      forall i | 0 <= i < |all|
        ensures DoneIsHome(r, Apply(r, mid, last), all[i].key)
      {
        if all[i].key in mid.rows {
          SeenStays(r, mid, all, last, all[i]);
        }
        SyncKeepsDoneHome(r, mid, last, all[i].key);
      }
    }
  }

  // ----- from any library -----

  /** From any healthy library, whatever its copies: after one round over all providers at most ten
      further rounds per file relocate anything; after at most one more per file, or two for files
      outside the library, everything is at rest for good, and every copy is where the syncs want it
      or missing: at home, if it can be. */
  lemma CloudComesToRest(r: Roots, s: State, round: seq<Event>, rounds: seq<seq<Event>>) returns (i: nat, j: nat)
    requires RoundReady(r, s, round) && NoFutureRows(s, round) && Rounds(rounds, round)
    requires |rounds| > 10 * |ItemsOf(round)| + MostHops(r, ItemsOf(round))
    requires forall m :: 0 <= m < |ItemsOf(round)| ==> |ItemsOf(round)[m].alternates| == 10
    ensures var first, all := After(r, s, round), ItemsOf(round);
            && i <= 10 * |all| && RowsRest(r, first, rounds, i)
            && i <= j <= i + MostHops(r, all) && AtRest(r, first, rounds, j)
            && CopiesRest(r, AfterRounds(r, first, rounds, j), all)
            && CopiesHome(r, AfterRounds(r, first, rounds, j), all)
  {
    hide After, AtRest, RowsRest, NoFutureRows, BetweenRounds, CopiesRest, CopiesHome, AfterRounds, ItemsOf, MostHops;
    hide Steady;
    var first, all := After(r, s, round), ItemsOf(round);
    FirstRoundReady(r, s, round);
    i, j := RoundsComeToRest(r, first, all, round, rounds);
    RestAt(r, first, rounds, j);
    ReadyAt(r, first, all, round, rounds, j);
    RoundFindsRest(r, AfterRounds(r, first, rounds, j), round, rounds[j]);
    ReadyIsSteady(r, first, all, round, rounds, j);
    RestingAreHome(r, AfterRounds(r, first, rounds, j), all);
  }

  lemma RestAt(r: Roots, s: State, rounds: seq<seq<Event>>, j: nat)
    requires j < |rounds| && AtRest(r, s, rounds, j)
    ensures var t := AfterRounds(r, s, rounds, j);
            TotalMoves(r, t, rounds[j]) == 0 && TotalCopyMoves(r, t, rounds[j]) == 0
  {
    hide AfterRounds, TotalMoves, TotalCopyMoves, SameButStamps;
    assert RestsAt(r, s, rounds, j, j);
  }
}
