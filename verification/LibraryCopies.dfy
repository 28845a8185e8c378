/** Downloaded copies across syncs: when a sync keeps every recorded copy, when it does not, and that
    removing rows never touches one (internal/strm/local.go). */
module LibraryCopies {
  import opened Text
  import opened Paths
  import opened Library
  import opened LibrarySafety

  /** A .strm path of the library that the download folder does not contain. */
  predicate LibraryPath(r: Roots, path: string) {
    && HasSuffix(path, STRM)
    && Within(r.library, path)
    && (r.downloads == r.library || !Within(r.downloads, path))
  }

  ghost predicate LibraryItem(r: Roots, it: Item) {
    forall p :: p in Candidates(it) ==> LibraryPath(r, p)
  }

  /** The copy of k is on disk, where k's row puts it under the copy's own root. */
  ghost predicate Home(r: Roots, s: State, k: Key) {
    && k in s.rows && k in s.copies
    && LibraryPath(r, s.rows[k].strmPath)
    && CopyRoot(r, s.copies[k].localPath) != ""
    && s.copies[k].localPath == CopyHome(r, CopyRoot(r, s.copies[k].localPath), s.rows[k].strmPath, s.rows[k].filePath)
    && s.copies[k].localPath in s.disk
  }

  ghost predicate AllHome(r: Roots, s: State) {
    forall k :: s.HasCopy(k) ==> Home(r, s, k)
  }

  /** A finished copy of k, one that no Move is at work on, is at home. */
  ghost predicate DoneIsHome(r: Roots, s: State, k: Key) {
    s.HasCopy(k) && s.copies[k].status.Done? ==> Home(r, s, k)
  }

  /** A copy that a Move is at work on is still where the item's place in the library puts it; a sync
      does not relocate such a copy. */
  ghost predicate MovingStaysHome(r: Roots, s: State, it: Item) {
    s.HasCopy(it.key) && s.copies[it.key].status.Moving? ==>
      var path, local := UniquePath(s.rows, it), s.copies[it.key].localPath;
      Within(r.library, path) && CopyHome(r, CopyRoot(r, local), path, it.filePath) == local
  }

  ghost predicate AllOnDisk(s: State) {
    forall k :: s.HasCopy(k) ==> s.copies[k].localPath in s.disk
  }

  /** Every recorded copy of s is still recorded in t, with the same content. */
  ghost predicate CopiesKept(s: State, t: State) {
    forall k :: s.HasCopy(k) ==>
      && t.HasCopy(k)
      && s.copies[k].localPath in s.disk && t.copies[k].localPath in t.disk
      && t.disk[t.copies[k].localPath] == s.disk[s.copies[k].localPath]
  }

  /** A copy's place under a root is again under that root. */
  lemma CopyHomeStays(r: Roots, root: string, strmPath: string, srcPath: string)
    requires LibraryPath(r, strmPath)
    requires root == r.downloads || (root == r.library && r.downloads != r.library)
    ensures CopyRoot(r, CopyHome(r, root, strmPath, srcPath)) == root
  {
    var local := LocalPathFor(strmPath, srcPath);
    LocalPathWithin(r.library, strmPath, srcPath);
    var rel := Rel(r.library, local);
    assert Within(root, Join(root, rel));
    if Within(r.downloads, local) {
      LocalPathInside(r.downloads, strmPath, srcPath);
    }
  }

  lemma LocalPathInside(root: string, strmPath: string, srcPath: string)
    requires HasSuffix(strmPath, STRM) && Within(root, LocalPathFor(strmPath, srcPath))
    ensures Within(root, strmPath)
  {
    var stem, local := TrimSuffix(strmPath, STRM), LocalPathFor(strmPath, srcPath);
    assert strmPath == stem + STRM && local == stem + CopyExt(srcPath);
    assert local[|root|] == '/';
    assert root + "/" == local[..|root| + 1] == strmPath[..|root| + 1];
  }

  lemma RootIsOneOfTwo(r: Roots, path: string)
    requires CopyRoot(r, path) != ""
    ensures CopyRoot(r, path) == r.downloads || (CopyRoot(r, path) == r.library && r.downloads != r.library)
  {
  }

  /** Two copies at home never share a place, and a free .strm path's copy place is free too. */
  lemma HomesApart(r: Roots, s: State, k: Key, root: string, strmPath: string, srcPath: string)
    requires Home(r, s, k) && LibraryPath(r, strmPath)
    requires root == r.downloads || (root == r.library && r.downloads != r.library)
    requires s.rows[k].strmPath != strmPath
    ensures s.copies[k].localPath != CopyHome(r, root, strmPath, srcPath)
  {
    var row, local := s.rows[k], s.copies[k].localPath;
    CopyHomeStays(r, root, strmPath, srcPath);
    if local == CopyHome(r, root, strmPath, srcPath) {
      CopyHomeInjective(r, root, row.strmPath, row.filePath, strmPath, srcPath);
    }
  }

  predicate MovesCopy(r: Roots, s: State, it: Item) {
    && s.HasCopy(it.key)
    && var c := s.copies[it.key];
       CopyWanted(r, c, UniquePath(s.rows, it), it.filePath) != c.localPath && c.localPath in s.disk
  }

  /** What a step does to the copies and to every path that is not a .strm path. */
  lemma StepOnCopies(r: Roots, s: State, it: Item, stamp: int)
    requires Shaped(s) && StrmItem(it)
    ensures !MovesCopy(r, s, it) ==>
              var t := Step(r, s, it, stamp);
              t.copies == s.copies && forall p :: !HasSuffix(p, STRM) ==> SameAt(s.disk, t.disk, p)
    ensures MovesCopy(r, s, it) ==>
              var t, c := Step(r, s, it, stamp), s.copies[it.key];
              var wanted := CopyWanted(r, c, UniquePath(s.rows, it), it.filePath);
              && t.copies == s.copies[it.key := c.(localPath := wanted)]
              && wanted in t.disk && t.disk[wanted] == s.disk[c.localPath] && c.localPath !in t.disk
              && forall p :: !HasSuffix(p, STRM) && p != c.localPath && p != wanted ==> SameAt(s.disk, t.disk, p)
  {
    var path := UniquePath(s.rows, it);
    var placed := Upsert(RemoveOld(s, it), it, path, stamp);
    UniquePathIsCandidate(s.rows, it);
    assert forall p :: !HasSuffix(p, STRM) ==> SameAt(s.disk, placed.disk, p);
    if s.HasCopy(it.key) {
      CopyWantedIsNotStrm(r, s.copies[it.key], path, it.filePath);
      KeepCopyMoves(r, placed, it, path);
    }
  }

  lemma KeepCopyMoves(r: Roots, s: State, it: Item, path: string)
    requires s.HasCopy(it.key) && HasSuffix(path, STRM)
    requires !HasSuffix(CopyWanted(r, s.copies[it.key], path, it.filePath), STRM)
    ensures var t, c := KeepCopy(r, s, it, path), s.copies[it.key];
            var wanted := CopyWanted(r, c, path, it.filePath);
            if wanted != c.localPath && c.localPath in s.disk then
              && t.copies == s.copies[it.key := c.(localPath := wanted)]
              && wanted in t.disk && t.disk[wanted] == s.disk[c.localPath] && c.localPath !in t.disk
              && forall p :: !HasSuffix(p, STRM) && p != c.localPath && p != wanted ==> SameAt(s.disk, t.disk, p)
            else
              t.copies == s.copies && forall p :: !HasSuffix(p, STRM) ==> SameAt(s.disk, t.disk, p)
  {
  }

  // ----- copies at home -----

  /** A step keeps the copy it is about, and leaves it at home. */
  lemma StepKeepsOwnCopy(r: Roots, s: State, it: Item, stamp: int)
    requires Healthy(s) && LibraryItem(r, it) && s.HasCopy(it.key) && Home(r, s, it.key) && MovingStaysHome(r, s, it)
    ensures var t := Step(r, s, it, stamp);
            Home(r, t, it.key) && t.disk[t.copies[it.key].localPath] == s.disk[s.copies[it.key].localPath]
  {
    var c, path := s.copies[it.key], UniquePath(s.rows, it);
    var root := CopyRoot(r, c.localPath);
    UniquePathIsCandidate(s.rows, it);
    RootIsOneOfTwo(r, c.localPath);
    CopyHomeStays(r, root, path, it.filePath);
    StepTouches(r, s, it, stamp);
    StepOnCopies(r, s, it, stamp);
  }

  /** A step for one file keeps another file's copy that is at home, and leaves it there. */
  lemma StepKeepsOtherCopy(r: Roots, s: State, it: Item, stamp: int, k: Key)
    requires Healthy(s) && LibraryItem(r, it) && !Exhausted(s.rows, it) && DoneIsHome(r, s, it.key)
    requires s.HasCopy(k) && k != it.key && Home(r, s, k)
    ensures var t := Step(r, s, it, stamp);
            Home(r, t, k) && t.disk[t.copies[k].localPath] == s.disk[s.copies[k].localPath]
  {
    var path := UniquePath(s.rows, it);
    UniquePathIsCandidate(s.rows, it);
    StepTouches(r, s, it, stamp);
    StepOnCopies(r, s, it, stamp);
    if MovesCopy(r, s, it) {
      var c := s.copies[it.key];
      var root := CopyRoot(r, c.localPath);
      assert Home(r, s, it.key);
      RootIsOneOfTwo(r, c.localPath);
      HomesApart(r, s, k, root, path, it.filePath);
      HomesApart(r, s, k, root, s.rows[it.key].strmPath, s.rows[it.key].filePath);
    }
  }

  lemma StepKeepsStatus(r: Roots, s: State, it: Item, stamp: int, k: Key)
    requires Shaped(s) && StrmItem(it)
    ensures s.HasCopy(k) <==> Step(r, s, it, stamp).HasCopy(k)
    ensures s.HasCopy(k) ==> Step(r, s, it, stamp).copies[k].status == s.copies[k].status
  {
    hide Step;
    StepOnCopies(r, s, it, stamp);
    StepKeys(r, s, it, stamp, k);
  }

  /** A step keeps any copy at home, whatever other copies are about, as long as the copy it is about
      is at home too or a Move is at work on that one. */
  lemma StepKeepsHome(r: Roots, s: State, it: Item, stamp: int, k: Key)
    requires Healthy(s) && LibraryItem(r, it) && !Exhausted(s.rows, it) && DoneIsHome(r, s, it.key)
    requires s.HasCopy(k) && Home(r, s, k) && (k == it.key ==> MovingStaysHome(r, s, it))
    ensures var t := Step(r, s, it, stamp);
            t.HasCopy(k) && t.copies[k].status == s.copies[k].status && Home(r, t, k)
            && t.disk[t.copies[k].localPath] == s.disk[s.copies[k].localPath]
  {
    hide Step, Home, MovingStaysHome, DoneIsHome, UniquePath;
    StepKeepsStatus(r, s, it, stamp, k);
    if k == it.key {
      StepKeepsOwnCopy(r, s, it, stamp);
    } else {
      StepKeepsOtherCopy(r, s, it, stamp, k);
    }
  }

  /** With all copies at home a step keeps every one, and leaves it at home. */
  lemma StepKeepsCopies(r: Roots, s: State, it: Item, stamp: int)
    requires Healthy(s) && LibraryItem(r, it) && !Exhausted(s.rows, it) && AllHome(r, s) && MovingStaysHome(r, s, it)
    ensures AllHome(r, Step(r, s, it, stamp)) && CopiesKept(s, Step(r, s, it, stamp))
  {
    hide Step, MovingStaysHome, Exhausted;
    LibraryItemsAreStrm(r, [it]);
    assert StrmItem([it][0]);
    HomesAreOnDisk(r, s);
    HomesAreOnDisk(r, Step(r, s, it, stamp));
    forall k
      ensures s.HasCopy(k) <==> Step(r, s, it, stamp).HasCopy(k)
    {
      StepKeepsStatus(r, s, it, stamp, k);
    }
    forall k | s.HasCopy(k)
      ensures HomeAndKept(r, s, Step(r, s, it, stamp), k)
    {
      hide Home, Shaped;
      assert Home(r, s, k);
      StepKeepsHome(r, s, it, stamp, k);
    }
  }

  /** The copy of k still has its content, and is at home. */
  ghost predicate HomeAndKept(r: Roots, s: State, t: State, k: Key)
    requires s.HasCopy(k)
  {
    && t.HasCopy(k) && t.copies[k].status == s.copies[k].status && Home(r, t, k)
    && s.copies[k].localPath in s.disk
    && t.disk[t.copies[k].localPath] == s.disk[s.copies[k].localPath]
  }

  /** No copy that a Move is at work on changes its place in the library during a run. */
  ghost predicate MovingStay(r: Roots, s: State, items: seq<Item>, stamp: int) {
    forall i :: 0 <= i < |items| ==> MovingStaysHome(r, Run(r, s, items[..i], stamp), items[i])
  }

  /** A run over distinct files of the library that never exhausts their alternates. */
  ghost predicate RunFit(r: Roots, s: State, items: seq<Item>, stamp: int) {
    && Healthy(s) && DistinctKeys(items) && Smooth(r, s, items, stamp)
    && forall i :: 0 <= i < |items| ==> LibraryItem(r, items[i])
  }

  /** And all its finished copies are at home. */
  ghost predicate RunReady(r: Roots, s: State, items: seq<Item>, stamp: int) {
    RunFit(r, s, items, stamp) && forall i :: 0 <= i < |items| ==> DoneIsHome(r, s, items[i].key)
  }

  lemma RunFitFront(r: Roots, s: State, items: seq<Item>, stamp: int)
    requires items != [] && RunFit(r, s, items, stamp)
    ensures RunFit(r, s, items[..|items| - 1], stamp)
    ensures Healthy(Run(r, s, items[..|items| - 1], stamp))
    ensures !Exhausted(Run(r, s, items[..|items| - 1], stamp).rows, items[|items| - 1])
    ensures LibraryItem(r, items[|items| - 1]) && !InItems(items[..|items| - 1], items[|items| - 1].key)
  {
    var front := items[..|items| - 1];
    SmoothFront(r, s, items, stamp);
    assert forall i :: 0 <= i < |front| ==> front[i] == items[i];
    LibraryItemsAreStrm(r, front);
    RunPlaces(r, s, front, stamp);
  }

  lemma RunReadyFront(r: Roots, s: State, items: seq<Item>, stamp: int)
    requires items != [] && RunReady(r, s, items, stamp)
    ensures RunReady(r, s, items[..|items| - 1], stamp)
    ensures Healthy(Run(r, s, items[..|items| - 1], stamp))
    ensures !Exhausted(Run(r, s, items[..|items| - 1], stamp).rows, items[|items| - 1])
    ensures LibraryItem(r, items[|items| - 1]) && DoneIsHome(r, s, items[|items| - 1].key)
  {
    hide RunFit, DoneIsHome;
    RunFitFront(r, s, items, stamp);
  }

  lemma LibraryItemsAreStrm(r: Roots, items: seq<Item>)
    requires forall i :: 0 <= i < |items| ==> LibraryItem(r, items[i])
    ensures StrmItems(items)
  {
    forall i | 0 <= i < |items|
      ensures StrmItem(items[i])
    {
      assert LibraryItem(r, items[i]);
    }
  }

  /** When the finished copies it visits are at home, a run keeps every finished copy at home, whatever
      the Moves in progress and the copies of other files are. */
  lemma {:induction false} RunKeepsDone(r: Roots, s: State, items: seq<Item>, stamp: int, k: Key)
    requires RunReady(r, s, items, stamp) && s.HasCopy(k) && s.copies[k].status.Done? && Home(r, s, k)
    ensures HomeAndKept(r, s, Run(r, s, items, stamp), k)
    decreases |items|, 1
  {
    if items == [] {
    } else {
      hide Step, Home, DoneIsHome, RunReady, LibraryItem;
      var front, last := items[..|items| - 1], items[|items| - 1];
      var mid := Run(r, s, front, stamp);
      RunReadyFront(r, s, items, stamp);
      RunKeepsDone(r, s, front, stamp, k);
      LastIsHome(r, s, items, stamp);
      DoneStays(r, mid, last);
      StepKeepsHome(r, mid, last, stamp, k);
    }
  }

  /** A finished copy is no copy that a Move is at work on. */
  lemma DoneStays(r: Roots, s: State, it: Item)
    ensures s.HasCopy(it.key) && s.copies[it.key].status.Done? ==> MovingStaysHome(r, s, it)
  {
  }

  lemma {:induction false} RunKeepsStatus(r: Roots, s: State, items: seq<Item>, stamp: int, k: Key)
    requires Shaped(s) && StrmItems(items)
    ensures var t := Run(r, s, items, stamp);
            && Shaped(t) && (s.HasCopy(k) <==> t.HasCopy(k))
            && (s.HasCopy(k) ==> t.copies[k].status == s.copies[k].status)
  {
    if items == [] {
    } else {
      hide Step, Shaped;
      var front, last := items[..|items| - 1], items[|items| - 1];
      assert forall i :: 0 <= i < |front| ==> front[i] == items[i];
      RunKeepsStatus(r, s, front, stamp, k);
      StepKeepsShape(r, Run(r, s, front, stamp), last, stamp);
      StepKeepsStatus(r, Run(r, s, front, stamp), last, stamp, k);
    }
  }

  /** When its turn comes, the last item's finished copy is at home. */
  lemma {:induction false} LastIsHome(r: Roots, s: State, items: seq<Item>, stamp: int)
    requires items != [] && RunReady(r, s, items, stamp)
    ensures DoneIsHome(r, Run(r, s, items[..|items| - 1], stamp), items[|items| - 1].key)
    decreases |items|, 0
  {
    hide Run, RunReady, Home;
    var front, last := items[..|items| - 1], items[|items| - 1];
    var mid := Run(r, s, front, stamp);
    RunReadyFront(r, s, items, stamp);
    RunReadyIsShaped(r, s, front, stamp);
    RunKeepsStatus(r, s, front, stamp, last.key);
    if s.HasCopy(last.key) && s.copies[last.key].status.Done? {
      RunKeepsDone(r, s, front, stamp, last.key);
    }
  }

  /** A run keeps every copy at home, also of files with a Move in progress, as long as those do not
      change their place in the library. */
  lemma {:induction false} RunKeepsHome(r: Roots, s: State, items: seq<Item>, stamp: int, k: Key)
    requires RunReady(r, s, items, stamp) && MovingStay(r, s, items, stamp) && s.HasCopy(k) && Home(r, s, k)
    ensures HomeAndKept(r, s, Run(r, s, items, stamp), k)
  {
    if items == [] {
    } else {
      var front, last := items[..|items| - 1], items[|items| - 1];
      var mid := Run(r, s, front, stamp);
      MovingStayFront(r, s, items, stamp);
      hide Step, Home, DoneIsHome, RunReady, LibraryItem, MovingStay, MovingStaysHome;
      RunReadyFront(r, s, items, stamp);
      RunKeepsHome(r, s, front, stamp, k);
      LastIsHome(r, s, items, stamp);
      StepKeepsHome(r, mid, last, stamp, k);
    }
  }

  lemma MovingStayFront(r: Roots, s: State, items: seq<Item>, stamp: int)
    requires items != [] && MovingStay(r, s, items, stamp)
    ensures MovingStay(r, s, items[..|items| - 1], stamp)
    ensures MovingStaysHome(r, Run(r, s, items[..|items| - 1], stamp), items[|items| - 1])
  {
    hide Run, MovingStaysHome;
    var front := items[..|items| - 1];
    forall i | 0 <= i < |front|
      ensures MovingStaysHome(r, Run(r, s, front[..i], stamp), front[i])
    {
      assert front[..i] == items[..i];
    }
  }

  /** Copies all at home stay at home over a run in which no file with a Move in progress changes
      its place, and keep their contents. */
  lemma RunKeepsCopies(r: Roots, s: State, items: seq<Item>, stamp: int)
    requires RunReady(r, s, items, stamp) && MovingStay(r, s, items, stamp) && AllHome(r, s)
    ensures AllHome(r, Run(r, s, items, stamp)) && CopiesKept(s, Run(r, s, items, stamp))
  {
    hide Run, RunReady, MovingStay, Home;
    var t := Run(r, s, items, stamp);
    forall k | s.HasCopy(k)
      ensures HomeAndKept(r, s, t, k)
    {
      RunKeepsHome(r, s, items, stamp, k);
    }
    forall k
      ensures t.HasCopy(k) ==> s.HasCopy(k)
    {
      RunReadyIsShaped(r, s, items, stamp);
      RunKeepsStatus(r, s, items, stamp, k);
    }
    HomesAreOnDisk(r, t);
  }

  lemma RunFitIsShaped(r: Roots, s: State, items: seq<Item>, stamp: int)
    requires RunFit(r, s, items, stamp)
    ensures Shaped(s) && StrmItems(items)
  {
    LibraryItemsAreStrm(r, items);
  }

  lemma RunReadyIsShaped(r: Roots, s: State, items: seq<Item>, stamp: int)
    requires RunReady(r, s, items, stamp)
    ensures Shaped(s) && StrmItems(items)
  {
    LibraryItemsAreStrm(r, items);
  }

  lemma HomesAreOnDisk(r: Roots, s: State)
    ensures forall k :: Home(r, s, k) ==> k in s.copies && s.copies[k].localPath in s.disk
  {
  }

  // ----- exactly when a finished copy at home is lost -----

  /** Where a sync wants the copy of the i-th file of a run. */
  function Goal(r: Roots, s: State, items: seq<Item>, stamp: int, i: nat): string
    requires i < |items| && s.HasCopy(items[i].key)
  {
    var it := items[i];
    CopyWanted(r, s.copies[it.key], UniquePath(Run(r, s, items[..i], stamp).rows, it), it.filePath)
  }

  /** Where the record of k points after a run, when the copy is on disk at its file's turn: nobody
      else's turn changes it. */
  function Place(r: Roots, s: State, items: seq<Item>, stamp: int, k: Key): string
    requires s.HasCopy(k)
  {
    if items == [] then s.copies[k].localPath
    else if items[|items| - 1].key == k then Goal(r, s, items, stamp, |items| - 1)
    else Place(r, s, items[..|items| - 1], stamp, k)
  }

  /** The i-th file's copy is recorded where k's is by then, and has to go elsewhere. */
  predicate Takes(r: Roots, s: State, items: seq<Item>, stamp: int, i: nat, k: Key)
    requires i < |items| && s.HasCopy(k)
  {
    var j := items[i].key;
    && j != k && s.HasCopy(j)
    && s.copies[j].localPath == Place(r, s, items[..i], stamp, k)
    && s.copies[j].localPath != Goal(r, s, items, stamp, i)
  }

  ghost predicate Untaken(r: Roots, s: State, items: seq<Item>, stamp: int, k: Key)
    requires s.HasCopy(k)
  {
    forall i :: 0 <= i < |items| ==> !Takes(r, s, items, stamp, i, k)
  }

  lemma TakesFront(r: Roots, s: State, items: seq<Item>, stamp: int, i: nat, k: Key)
    requires i < |items| - 1 && s.HasCopy(k)
    ensures Takes(r, s, items[..|items| - 1], stamp, i, k) <==> Takes(r, s, items, stamp, i, k)
  {
    hide CopyWanted, Run, UniquePath, Place;
    var front := items[..|items| - 1];
    assert front[..i] == items[..i] && front[i] == items[i];
  }

  lemma UntakenLast(r: Roots, s: State, items: seq<Item>, stamp: int, k: Key)
    requires items != [] && s.HasCopy(k)
    ensures var front := items[..|items| - 1];
            Untaken(r, s, items, stamp, k) <==>
            Untaken(r, s, front, stamp, k) && !Takes(r, s, items, stamp, |items| - 1, k)
  {
    hide Takes;
    var front := items[..|items| - 1];
    forall i | 0 <= i < |front|
      ensures Takes(r, s, front, stamp, i, k) <==> Takes(r, s, items, stamp, i, k)
    {
      TakesFront(r, s, items, stamp, i, k);
    }
  }

  /** Only its own file's turn changes a record. */
  lemma {:induction false} RunKeepsRecord(r: Roots, s: State, items: seq<Item>, stamp: int, k: Key)
    requires Shaped(s) && StrmItems(items) && s.HasCopy(k) && !InItems(items, k)
    ensures var t := Run(r, s, items, stamp);
            t.HasCopy(k) && t.copies[k] == s.copies[k]
  {
    if items == [] {
    } else {
      var front, last := items[..|items| - 1], items[|items| - 1];
      assert forall i :: 0 <= i < |front| ==> front[i] == items[i];
      InItemsLast(items, k);
      hide Step, Shaped, InItems, MovesCopy;
      RunKeepsRecord(r, s, front, stamp, k);
      RunKeepsStatus(r, s, front, stamp, k);
      StepOnCopies(r, Run(r, s, front, stamp), last, stamp);
    }
  }

  /** A step for another file leaves a copy at home alone unless it takes that very file away: no
      copy is ever moved onto it. */
  lemma StepKeepsHomeIff(r: Roots, s: State, it: Item, stamp: int, k: Key)
    requires Healthy(s) && LibraryItem(r, it) && !Exhausted(s.rows, it)
    requires s.HasCopy(k) && Home(r, s, k) && k != it.key
    ensures var t := Step(r, s, it, stamp);
            t.copies[k] == s.copies[k]
            && if MovesCopy(r, s, it) && s.copies[it.key].localPath == s.copies[k].localPath then !Home(r, t, k)
               else Home(r, t, k) && t.disk[t.copies[k].localPath] == s.disk[s.copies[k].localPath]
  {
    var path := UniquePath(s.rows, it);
    UniquePathIsCandidate(s.rows, it);
    StepTouches(r, s, it, stamp);
    StepOnCopies(r, s, it, stamp);
    if MovesCopy(r, s, it) {
      RootIsOneOfTwo(r, s.copies[it.key].localPath);
      HomesApart(r, s, k, CopyRoot(r, s.copies[it.key].localPath), path, it.filePath);
    }
  }

  /** And it brings no copy home. */
  lemma StepBringsNoneHome(r: Roots, s: State, it: Item, stamp: int, k: Key)
    requires Healthy(s) && LibraryItem(r, it) && !Exhausted(s.rows, it)
    requires s.HasCopy(k) && !Home(r, s, k) && k != it.key
    ensures !Home(r, Step(r, s, it, stamp), k)
  {
    var path, t := UniquePath(s.rows, it), Step(r, s, it, stamp);
    UniquePathIsCandidate(s.rows, it);
    StepTouches(r, s, it, stamp);
    StepOnCopies(r, s, it, stamp);
    hide Step, UniquePath, CopyHome;
    if Home(r, t, k) && MovesCopy(r, s, it) {
      RootIsOneOfTwo(r, s.copies[it.key].localPath);
      HomesApart(r, t, k, CopyRoot(r, s.copies[it.key].localPath), path, it.filePath);
    }
  }

  /** Up to its own turn, a file's record is the one before the run. */
  lemma LastIsRecorded(r: Roots, s: State, items: seq<Item>, stamp: int)
    requires RunFit(r, s, items, stamp) && items != []
    ensures var mid, it := Run(r, s, items[..|items| - 1], stamp), items[|items| - 1];
            && Healthy(mid) && LibraryItem(r, it) && StrmItem(it) && !Exhausted(mid.rows, it)
            && (mid.HasCopy(it.key) <==> s.HasCopy(it.key))
            && (s.HasCopy(it.key) ==> mid.copies[it.key] == s.copies[it.key])
  {
    var front, last := items[..|items| - 1], items[|items| - 1];
    RunFitFront(r, s, items, stamp);
    RunFitIsShaped(r, s, items, stamp);
    assert forall i :: 0 <= i < |front| ==> front[i] == items[i];
    assert StrmItem(last);
    hide Run, RunFit, LibraryItem, InItems, Exhausted, DistinctKeys, StrmItem, Shaped;
    if s.HasCopy(last.key) {
      RunKeepsRecord(r, s, front, stamp, last.key);
    }
    RunKeys(r, s, front, stamp, last.key);
  }

  /** What the next step does to a finished copy that has stayed at home: k is its key. */
  lemma NextKeepsDone(r: Roots, s: State, mid: State, items: seq<Item>, stamp: int, k: Key)
    requires RunFit(r, s, items, stamp) && items != [] && s.HasCopy(k) && s.copies[k].status.Done?
    requires mid == Run(r, s, items[..|items| - 1], stamp) && HomeAndKept(r, s, mid, k)
    requires mid.copies[k].localPath == Place(r, s, items[..|items| - 1], stamp, k)
    ensures var t := Step(r, mid, items[|items| - 1], stamp);
            if Takes(r, s, items, stamp, |items| - 1, k) then !Home(r, t, k)
            else HomeAndKept(r, s, t, k) && t.copies[k].localPath == Place(r, s, items, stamp, k)
  {
    var last := items[|items| - 1];
    hide Run, RunFit, Home, LibraryItem, UniquePath, CopyWanted, Exhausted, Step, Shaped, DistinctKeys, StrmItem;
    LastIsRecorded(r, s, items, stamp);
    StepKeepsStatus(r, mid, last, stamp, k);
    HomesAreOnDisk(r, mid);
    if last.key == k {
      DoneStays(r, mid, last);
      StepKeepsOwnCopy(r, mid, last, stamp);
      OwnCopyGoes(r, mid, last, stamp);
    } else {
      StepKeepsHomeIff(r, mid, last, stamp, k);
    }
  }

  lemma OwnCopyGoes(r: Roots, s: State, it: Item, stamp: int)
    requires Shaped(s) && StrmItem(it) && s.HasCopy(it.key) && s.copies[it.key].localPath in s.disk
    ensures Step(r, s, it, stamp).copies[it.key].localPath
            == CopyWanted(r, s.copies[it.key], UniquePath(s.rows, it), it.filePath)
  {
    StepOnCopies(r, s, it, stamp);
  }

  /** A file that has gone missing is not renamed. */
  lemma MissingStays(r: Roots, s: State, it: Item, stamp: int)
    requires Shaped(s) && StrmItem(it) && s.HasCopy(it.key) && s.copies[it.key].localPath !in s.disk
    ensures !Home(r, Step(r, s, it, stamp), it.key)
  {
    StepOnCopies(r, s, it, stamp);
  }

  /** A run leaves a finished copy that was at home at home, with its content, if and only if no other
      file's copy is recorded at the same place and has to go elsewhere; whatever else is recorded. */
  lemma {:induction false} RunKeepsDoneIff(r: Roots, s: State, items: seq<Item>, stamp: int, k: Key)
    requires RunFit(r, s, items, stamp) && s.HasCopy(k) && s.copies[k].status.Done? && Home(r, s, k)
    ensures var t := Run(r, s, items, stamp);
            if Untaken(r, s, items, stamp, k) then
              HomeAndKept(r, s, t, k) && t.copies[k].localPath == Place(r, s, items, stamp, k)
            else !Home(r, t, k)
  {
    if items == [] {
    } else {
      var front, last := items[..|items| - 1], items[|items| - 1];
      var mid := Run(r, s, front, stamp);
      assert Run(r, s, items, stamp) == Step(r, mid, last, stamp);
      hide Step, Run, Home, RunFit, LibraryItem, Untaken, Takes, Place, Shaped, InItems;
      RunFitFront(r, s, items, stamp);
      UntakenLast(r, s, items, stamp, k);
      RunKeepsDoneIff(r, s, front, stamp, k);
      if Untaken(r, s, front, stamp, k) {
        NextKeepsDone(r, s, mid, items, stamp, k);
      } else {
        NextStaysAway(r, s, mid, items, stamp, k);
      }
    }
  }

  lemma NextStaysAway(r: Roots, s: State, mid: State, items: seq<Item>, stamp: int, k: Key)
    requires RunFit(r, s, items, stamp) && items != [] && s.HasCopy(k) && Home(r, s, k)
    requires mid == Run(r, s, items[..|items| - 1], stamp) && !Home(r, mid, k)
    ensures !Home(r, Step(r, mid, items[|items| - 1], stamp), k)
  {
    var front, last := items[..|items| - 1], items[|items| - 1];
    RunFitFront(r, s, items, stamp);
    RunFitIsShaped(r, s, items, stamp);
    assert forall i :: 0 <= i < |front| ==> front[i] == items[i];
    RunKeys(r, s, front, stamp, k);
    RunKeepsStatus(r, s, front, stamp, k);
    hide Run, RunFit, Step, LibraryItem, InItems, Exhausted, Shaped;
    if last.key == k {
      RunKeepsRecord(r, s, front, stamp, k);
      assert mid.rows[k] == s.rows[k] && mid.copies[k] == s.copies[k];
      MissingStays(r, mid, last, stamp);
    } else {
      StepBringsNoneHome(r, mid, last, stamp, k);
    }
  }

  /** A prune touches no copy. */
  lemma PruneKeepsCopies(s: State, doomed: set<Key>)
    requires Shaped(s) && doomed <= s.rows.Keys
    ensures var t := RemoveRows(s, doomed);
            t.copies == s.copies && forall k :: s.HasCopy(k) ==> SameAt(s.disk, t.disk, s.copies[k].localPath)
  {
  }

  lemma PrunedAlike(s: State, ran: State, doomed: set<Key>)
    requires Shaped(ran) && doomed <= ran.rows.Keys
    ensures CopiesKept(s, RemoveRows(ran, doomed)) <==> CopiesKept(s, ran)
  {
    hide RemoveRows, Shaped;
    PruneKeepsCopies(ran, doomed);
    var t := RemoveRows(ran, doomed);
    assert forall k :: t.HasCopy(k) <==> ran.HasCopy(k);
    assert forall k :: ran.HasCopy(k) ==> SameAt(ran.disk, t.disk, ran.copies[k].localPath);
  }

  lemma SyncKeepsAsRun(r: Roots, s: State, name: string, items: seq<Item>, syncStart: int, stamp: int)
    requires Shaped(s) && StrmItems(items)
    ensures CopiesKept(s, Sync(r, s, name, items, syncStart, stamp)) <==> CopiesKept(s, Run(r, s, items, stamp))
  {
    hide Run, CopiesKept, RemoveRows, Shaped;
    var ran := Run(r, s, items, stamp);
    RunKeepsStatus(r, s, items, stamp, Key("", "", ""));
    PrunedAlike(s, ran, Stale(ran.rows, name, Seen(items), syncStart));
  }

  /** When every copy is at home and no file with a Move in progress changes its place, a sync
      deletes and overwrites no recorded copy. */
  lemma SyncKeepsCopies(r: Roots, s: State, name: string, items: seq<Item>, syncStart: int, stamp: int)
    requires RunReady(r, s, items, stamp) && MovingStay(r, s, items, stamp) && AllHome(r, s)
    ensures CopiesKept(s, Sync(r, s, name, items, syncStart, stamp))
  {
    hide Run, Sync, RunReady, CopiesKept;
    RunKeepsCopies(r, s, items, stamp);
    RunReadyIsShaped(r, s, items, stamp);
    SyncKeepsAsRun(r, s, name, items, syncStart, stamp);
  }

  /** A sync keeps a finished copy that is at home if and only if no other file's copy is recorded at
      the same place and has to go elsewhere; whatever else is recorded: orphans, copies elsewhere,
      missing files and Moves in progress. */
  lemma SyncKeepsDoneCopies(r: Roots, s: State, name: string, items: seq<Item>, syncStart: int, stamp: int, k: Key)
    requires RunFit(r, s, items, stamp)
    requires s.HasCopy(k) && s.copies[k].status.Done? && Home(r, s, k)
    ensures var t := Sync(r, s, name, items, syncStart, stamp);
            if Untaken(r, s, items, stamp, k) then
              && t.HasCopy(k) && t.copies[k].localPath in t.disk
              && t.disk[t.copies[k].localPath] == s.disk[s.copies[k].localPath]
              && (k in t.rows ==> Home(r, t, k))
            else !Home(r, t, k)
  {
    var ran := Run(r, s, items, stamp);
    var doomed := Stale(ran.rows, name, Seen(items), syncStart);
    RunKeepsDoneIff(r, s, items, stamp, k);
    RunFitIsShaped(r, s, items, stamp);
    RunKeepsStatus(r, s, items, stamp, k);
    hide Run, RemoveRows, Shaped, RunFit, Home, Untaken, Stale;
    PruneKeepsHome(r, ran, doomed, k);
  }

  /** A prune touches no copy, and leaves those at home there whose rows it leaves. */
  lemma PruneKeepsHome(r: Roots, s: State, doomed: set<Key>, k: Key)
    requires Shaped(s) && doomed <= s.rows.Keys && s.HasCopy(k)
    ensures var t := RemoveRows(s, doomed);
            && t.copies == s.copies && SameAt(s.disk, t.disk, s.copies[k].localPath)
            && (Home(r, t, k) <==> Home(r, s, k) && k in t.rows)
  {
    var t := RemoveRows(s, doomed);
    PruneKeepsCopies(s, doomed);
    assert forall k :: k in t.rows ==> k in s.rows && t.rows[k] == s.rows[k];
    hide RemoveRows, Shaped, LibraryPath, CopyHome;
  }

  /** With all visited finished copies at home no copy is taken away. */
  lemma ReadyIsUntaken(r: Roots, s: State, items: seq<Item>, stamp: int, k: Key)
    requires RunReady(r, s, items, stamp) && s.HasCopy(k) && s.copies[k].status.Done? && Home(r, s, k)
    ensures Untaken(r, s, items, stamp, k)
  {
    hide Run, Home, Untaken;
    RunKeepsDone(r, s, items, stamp, k);
    RunKeepsDoneIff(r, s, items, stamp, k);
  }

  /** Removing a torrent or wiping the library keeps every recorded copy, wherever it sits. */
  lemma RemovalsKeepCopies(r: Roots, s: State, e: Event)
    requires Healthy(s) && !e.SyncEvent?
    requires forall k :: s.HasCopy(k) ==> s.copies[k].localPath in s.disk
    ensures CopiesKept(s, Apply(r, s, e))
  {
    match e
    case RemoveTorrent(name, torrent) => RemoveRowsKeeps(s, TorrentRows(s.rows, name, torrent));
    case Wipe => RemoveRowsKeeps(s, s.rows.Keys);
  }

  /** What SyncResult reports adds up: rows created minus rows removed is the change in size. */
  lemma ReportBalances(r: Roots, s: State, name: string, items: seq<Item>, syncStart: int, stamp: int)
    ensures var res := SyncReport(r, s, name, items, syncStart, stamp);
            |Sync(r, s, name, items, syncStart, stamp).rows| == |s.rows| + res.created - res.removed
  {
    var ran := Run(r, s, items, stamp);
    var doomed := Stale(ran.rows, name, Seen(items), syncStart);
    RunReportBalances(r, s, items, stamp);
    assert (ran.rows - doomed).Keys == ran.rows.Keys - doomed;
    assert |(ran.rows - doomed).Keys| == |ran.rows.Keys| - |doomed|;
  }

  lemma {:induction false} RunReportBalances(r: Roots, s: State, items: seq<Item>, stamp: int)
    ensures |Run(r, s, items, stamp).rows| == |s.rows| + RunReport(r, s, items, stamp).created
  {
    if items == [] {
    } else {
      var front, last := items[..|items| - 1], items[|items| - 1];
      RunReportBalances(r, s, front, stamp);
      StepSize(r, Run(r, s, front, stamp), last, stamp);
    }
  }

  lemma StepSize(r: Roots, s: State, it: Item, stamp: int)
    ensures |Step(r, s, it, stamp).rows| == |s.rows| + Report(s, it).created
  {
    StepRowsAre(r, s, it, stamp);
    MapUpdateSize(s.rows, it.key, Row(it.torrentName, it.filePath, it.size, UniquePath(s.rows, it), stamp));
  }

  lemma MapUpdateSize<K, V>(m: map<K, V>, k: K, v: V)
    ensures |m[k := v]| == |m| + if k in m then 0 else 1
  {
    assert m[k := v].Keys == m.Keys + {k};
    assert |m[k := v]| == |m[k := v].Keys| && |m| == |m.Keys|;
  }

  // ----- the places of copies, in words -----

  /** A sync that relocates a copy puts it below the root it is under already, where its file's .strm is
      below the library, with the file's own extension; nothing stays behind. */
  lemma RelocatedPlace(r: Roots, s: State, it: Item, stamp: int, rel: string, ext: string)
    requires Shaped(s) && StrmItem(it) && MovesCopy(r, s, it)
    requires UniquePath(s.rows, it) == r.library + "/" + rel + ".strm" && KeepsExt(it.filePath, ext)
    ensures var t, from := Step(r, s, it, stamp), s.copies[it.key].localPath;
            var root := if Within(r.downloads, from) then r.downloads else r.library;
            var to := root + "/" + rel + ext;
            && t.copies == s.copies[it.key := s.copies[it.key].(localPath := to)]
            && to in t.disk && t.disk[to] == s.disk[from] && from !in t.disk
  {
    var c := s.copies[it.key];
    hide Step, UniquePath, CopyHome, KeepsExt, Shaped, StrmItem;
    CopyHomeText(r, CopyRoot(r, c.localPath), rel, it.filePath, ext);
    StepOnCopies(r, s, it, stamp);
  }

  // ----- keeping a file and giving it up again -----

  /** PromoteLocal's checks: the row has a path in the library and the download is on disk. */
  predicate CanPromote(r: Roots, s: State, k: Key, tmp: string) {
    k in s.rows && Within(r.library, s.rows[k].strmPath) && tmp in s.disk
  }

  function PromoteDest(r: Roots, row: Row): (dest: string)
    requires Within(r.library, row.strmPath)
    ensures Within(r.downloads, dest)
  {
    LocalPathWithin(r.library, row.strmPath, row.filePath);
    CopyHome(r, r.downloads, row.strmPath, row.filePath)
  }

  /** PromoteLocal and SetLocalDone: the finished download takes the place of the .strm. */
  function Promote(r: Roots, s: State, k: Key, tmp: string): State
    requires CanPromote(r, s, k, tmp)
  {
    var dest := PromoteDest(r, s.rows[k]);
    s.(disk := (s.disk - {tmp})[dest := s.disk[tmp]] - {s.rows[k].strmPath},
       copies := s.copies[k := Copy(Done, dest)])
  }

  /** The finished download goes below the download folder, where the .strm was below the library, with
      the file's own extension; the .strm and the staging file are gone. */
  lemma PromotedPlace(r: Roots, s: State, k: Key, tmp: string, rel: string, ext: string)
    requires CanPromote(r, s, k, tmp)
    requires s.rows[k].strmPath == r.library + "/" + rel + ".strm" && KeepsExt(s.rows[k].filePath, ext)
    ensures var t, dest := Promote(r, s, k, tmp), r.downloads + "/" + rel + ext;
            && t.copies == s.copies[k := Copy(Done, dest)] && t.rows == s.rows
            && dest in t.disk && t.disk[dest] == s.disk[tmp]
            && s.rows[k].strmPath !in t.disk && (tmp != dest ==> tmp !in t.disk)
  {
    hide CopyHome, KeepsExt;
    CopyHomeText(r, r.downloads, rel, s.rows[k].filePath, ext);
    CopyHomeIsNotStrm(r, r.downloads, s.rows[k].strmPath, s.rows[k].filePath);
    SuffixOfConcat(r.library + "/" + rel, STRM, STRM);
  }

  /** Manager.Remove for a finished copy: forget it, delete it and write the .strm back. */
  function GiveUp(r: Roots, s: State, k: Key, url: string): State
    requires s.HasCopy(k) && CopyRoot(r, s.copies[k].localPath) != ""
  {
    var deleted := s.(copies := s.copies - {k}, disk := s.disk - {s.copies[k].localPath});
    if k in s.rows then WriteStrm(deleted, s.rows[k].strmPath, url) else deleted
  }

  /** Keeping a file and giving it up again restores the library exactly, apart from the consumed
      download and from whatever was at the copy's place before: that is lost. */
  lemma KeepThenGiveUp(r: Roots, s: State, k: Key, tmp: string, url: string)
    requires r.downloads != "" && CanPromote(r, s, k, tmp) && k !in s.copies && HasSuffix(s.rows[k].strmPath, STRM)
    requires s.rows[k].strmPath in s.disk && s.disk[s.rows[k].strmPath] == url && tmp != s.rows[k].strmPath
    ensures var dest, kept := PromoteDest(r, s.rows[k]), Promote(r, s, k, tmp);
            && kept.HasCopy(k) && s.rows[k].strmPath !in kept.disk
            && dest in kept.disk && kept.disk[dest] == s.disk[tmp]
            && CopyRoot(r, dest) != ""
            && GiveUp(r, kept, k, url) == s.(disk := s.disk - {tmp, dest}, writes := s.writes + 1)
    ensures tmp != PromoteDest(r, s.rows[k]) ==>
              (PromoteDest(r, s.rows[k]) !in s.disk <==>
               GiveUp(r, Promote(r, s, k, tmp), k, url).disk == s.disk - {tmp})
  {
    var row, dest, kept := s.rows[k], PromoteDest(r, s.rows[k]), Promote(r, s, k, tmp);
    CopyHomeIsNotStrm(r, r.downloads, row.strmPath, row.filePath);
    var back := GiveUp(r, kept, k, url);
    assert back.disk == s.disk - {tmp, dest};
    assert back.copies == s.copies;
  }
}
