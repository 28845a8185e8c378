/** Exactly when a sync loses a recorded copy: it relocates another one onto it, or away from it when
    both are recorded at the same place (internal/strm/local.go). */
module CopyLosses {
  import opened Text
  import opened Paths
  import opened Library
  import opened LibrarySafety
  import opened LibraryCopies

  // ----- one step -----

  /** The step relocates its copy, and k's recorded copy is the very file that goes, or sits where it
      goes with other content. */
  predicate Harms(r: Roots, s: State, it: Item, k: Key) {
    && MovesCopy(r, s, it) && k != it.key && s.HasCopy(k)
    && var from, at := s.copies[it.key].localPath, s.copies[k].localPath;
       || at == from
       || (at == CopyWanted(r, s.copies[it.key], UniquePath(s.rows, it), it.filePath) && at in s.disk
           && s.disk[from] != s.disk[at])
  }

  ghost predicate HarmsNobody(r: Roots, s: State, it: Item) {
    forall k :: !Harms(r, s, it, k)
  }

  /** The copy of k is as recorded, with the content it had. */
  predicate CopyKept(s: State, t: State, k: Key)
    requires s.HasCopy(k)
  {
    && t.HasCopy(k)
    && s.copies[k].localPath in s.disk && t.copies[k].localPath in t.disk
    && t.disk[t.copies[k].localPath] == s.disk[s.copies[k].localPath]
  }

  lemma StepKeepsCopyIff(r: Roots, s: State, it: Item, stamp: int, k: Key)
    requires Shaped(s) && StrmItem(it) && s.HasCopy(k) && s.copies[k].localPath in s.disk
    ensures CopyKept(s, Step(r, s, it, stamp), k) <==> !Harms(r, s, it, k)
  {
    hide Step, CopyWanted, UniquePath;
    StepOnCopies(r, s, it, stamp);
    StepKeys(r, s, it, stamp, k);
    if MovesCopy(r, s, it) {
      var c := s.copies[it.key];
      CopyWantedIsNotStrm(r, c, UniquePath(s.rows, it), it.filePath);
    }
  }

  lemma StepKeepsCopiesIff(r: Roots, s: State, it: Item, stamp: int)
    requires Shaped(s) && StrmItem(it) && AllOnDisk(s)
    ensures CopiesKept(s, Step(r, s, it, stamp)) <==> HarmsNobody(r, s, it)
  {
    hide Step, Harms;
    var t := Step(r, s, it, stamp);
    forall k | s.HasCopy(k)
      ensures CopyKept(s, t, k) <==> !Harms(r, s, it, k)
    {
      StepKeepsCopyIff(r, s, it, stamp, k);
    }
    HarmsNeedsCopy(r, s, it);
  }

  lemma HarmsNeedsCopy(r: Roots, s: State, it: Item)
    ensures forall k :: Harms(r, s, it, k) ==> s.HasCopy(k)
  {
  }

  // ----- a run -----

  ghost predicate NeverHarms(r: Roots, s: State, items: seq<Item>, stamp: int) {
    forall i :: 0 <= i < |items| ==> HarmsNobody(r, Run(r, s, items[..i], stamp), items[i])
  }

  ghost predicate KeptThroughout(r: Roots, s: State, items: seq<Item>, stamp: int) {
    forall n :: 0 <= n <= |items| ==> CopiesKept(s, Run(r, s, items[..n], stamp))
  }

  lemma NeverHarmsLast(r: Roots, s: State, items: seq<Item>, stamp: int)
    requires items != []
    ensures var front := items[..|items| - 1];
            NeverHarms(r, s, items, stamp) <==>
            NeverHarms(r, s, front, stamp) && HarmsNobody(r, Run(r, s, front, stamp), items[|items| - 1])
  {
    hide Run, HarmsNobody;
    var front := items[..|items| - 1];
    assert forall i :: 0 <= i < |front| ==> front[..i] == items[..i] && front[i] == items[i];
    if NeverHarms(r, s, items, stamp) {
      forall i | 0 <= i < |front|
        ensures HarmsNobody(r, Run(r, s, front[..i], stamp), front[i])
      {
        assert HarmsNobody(r, Run(r, s, items[..i], stamp), items[i]);
      }
    }
  }

  lemma KeptThroughoutLast(r: Roots, s: State, items: seq<Item>, stamp: int)
    requires items != []
    ensures KeptThroughout(r, s, items, stamp) <==>
            KeptThroughout(r, s, items[..|items| - 1], stamp) && CopiesKept(s, Run(r, s, items, stamp))
  {
    hide Run, CopiesKept;
    var front := items[..|items| - 1];
    assert items[..|items|] == items;
    if KeptThroughout(r, s, items, stamp) {
      forall n | 0 <= n <= |front|
        ensures CopiesKept(s, Run(r, s, front[..n], stamp))
      {
        assert front[..n] == items[..n];
      }
      assert CopiesKept(s, Run(r, s, items[..|items|], stamp));
    }
    if KeptThroughout(r, s, front, stamp) && CopiesKept(s, Run(r, s, items, stamp)) {
      forall n | 0 <= n <= |items|
        ensures CopiesKept(s, Run(r, s, items[..n], stamp))
      {
        assert n < |items| ==> front[..n] == items[..n];
      }
    }
  }

  /** Kept up to here, a step keeps the copies as they were at first exactly when it keeps them as
      they are. */
  lemma KeptSince(s: State, mid: State, t: State)
    requires CopiesKept(s, mid) && forall k :: s.HasCopy(k) <==> mid.HasCopy(k)
    ensures AllOnDisk(mid) && (CopiesKept(s, t) <==> CopiesKept(mid, t))
  {
  }

  lemma RunKeepsRecords(r: Roots, s: State, items: seq<Item>, stamp: int)
    requires Shaped(s) && StrmItems(items)
    ensures var t := Run(r, s, items, stamp);
            Shaped(t) && forall k :: s.HasCopy(k) <==> t.HasCopy(k)
  {
    hide Run, Shaped;
    forall k
      ensures s.HasCopy(k) <==> Run(r, s, items, stamp).HasCopy(k)
    {
      RunKeepsStatus(r, s, items, stamp, k);
    }
    RunKeepsStatus(r, s, items, stamp, Key("", "", ""));
  }

  /** At every point of a run all recorded copies have kept their contents, if and only if no step
      relocated one onto another, or away from where another was recorded too. */
  lemma {:induction false} RunSparesCopiesIff(r: Roots, s: State, items: seq<Item>, stamp: int)
    requires Shaped(s) && StrmItems(items) && AllOnDisk(s)
    ensures KeptThroughout(r, s, items, stamp) <==> NeverHarms(r, s, items, stamp)
  {
    if items == [] {
    } else {
      var front, last := items[..|items| - 1], items[|items| - 1];
      var mid := Run(r, s, front, stamp);
      assert items[|items| - 1] == last && forall i :: 0 <= i < |front| ==> front[i] == items[i];
      assert KeptThroughout(r, s, front, stamp) ==> CopiesKept(s, mid) by {
        assert front[..|front|] == front;
      }
      assert Run(r, s, items, stamp) == Step(r, mid, last, stamp);
      assert StrmItem(last);
      hide Run, Step, CopiesKept, HarmsNobody, NeverHarms, KeptThroughout, Shaped, StrmItem;
      RunSparesCopiesIff(r, s, front, stamp);
      NeverHarmsLast(r, s, items, stamp);
      KeptThroughoutLast(r, s, items, stamp);
      RunKeepsRecords(r, s, front, stamp);
      if CopiesKept(s, mid) {
        KeptSince(s, mid, Step(r, mid, last, stamp));
        StepKeepsCopiesIff(r, mid, last, stamp);
      }
    }
  }

  // ----- the end of a sync -----

  /** No two recorded copies have the same content. */
  ghost predicate DistinctContents(s: State) {
    AllOnDisk(s) && forall j, k :: s.HasCopy(j) && s.HasCopy(k) && j != k ==>
      s.disk[s.copies[j].localPath] != s.disk[s.copies[k].localPath]
  }

  /** No recorded copy has this content. */
  ghost predicate Gone(t: State, content: string) {
    forall j :: t.HasCopy(j) && t.copies[j].localPath in t.disk ==> t.disk[t.copies[j].localPath] != content
  }

  lemma StepStaysGone(r: Roots, s: State, it: Item, stamp: int, content: string)
    requires Shaped(s) && StrmItem(it) && Gone(s, content)
    ensures Gone(Step(r, s, it, stamp), content)
  {
    hide Step, CopyWanted, UniquePath;
    var t := Step(r, s, it, stamp);
    StepOnCopies(r, s, it, stamp);
    forall j | t.HasCopy(j) && t.copies[j].localPath in t.disk
      ensures t.disk[t.copies[j].localPath] != content
    {
      StepKeys(r, s, it, stamp, j);
      if MovesCopy(r, s, it) {
        CopyWantedIsNotStrm(r, s.copies[it.key], UniquePath(s.rows, it), it.filePath);
      }
      assert s.HasCopy(j) && !HasSuffix(s.copies[j].localPath, STRM);
    }
  }

  lemma {:induction false} RunStaysGone(r: Roots, s: State, items: seq<Item>, stamp: int, content: string)
    requires Shaped(s) && StrmItems(items) && Gone(s, content)
    ensures Gone(Run(r, s, items, stamp), content)
  {
    if items == [] {
    } else {
      hide Step, Gone, Shaped;
      var front, last := items[..|items| - 1], items[|items| - 1];
      assert forall i :: 0 <= i < |front| ==> front[i] == items[i];
      RunStaysGone(r, s, front, stamp, content);
      RunKeepsRecords(r, s, front, stamp);
      StepStaysGone(r, Run(r, s, front, stamp), last, stamp, content);
    }
  }

  /** With all contents different, a harmed copy's content is gone. */
  lemma HarmLoses(r: Roots, s: State, it: Item, stamp: int, k: Key)
    requires Shaped(s) && StrmItem(it) && DistinctContents(s) && Harms(r, s, it, k)
    ensures Gone(Step(r, s, it, stamp), s.disk[s.copies[k].localPath])
  {
    hide Step, CopyWanted, UniquePath;
    var t, content := Step(r, s, it, stamp), s.disk[s.copies[k].localPath];
    StepOnCopies(r, s, it, stamp);
    CopyWantedIsNotStrm(r, s.copies[it.key], UniquePath(s.rows, it), it.filePath);
    forall j | t.HasCopy(j) && t.copies[j].localPath in t.disk
      ensures t.disk[t.copies[j].localPath] != content
    {
      StepKeys(r, s, it, stamp, j);
    }
  }

  lemma KeptStaysDistinct(s: State, mid: State)
    requires DistinctContents(s) && CopiesKept(s, mid) && forall k :: s.HasCopy(k) <==> mid.HasCopy(k)
    ensures DistinctContents(mid)
  {
  }

  /** A run with a harmful step ends with a copy's content gone. */
  lemma {:induction false} HarmIsFinal(r: Roots, s: State, items: seq<Item>, stamp: int) returns (k: Key)
    requires Shaped(s) && StrmItems(items) && DistinctContents(s) && !NeverHarms(r, s, items, stamp)
    ensures s.HasCopy(k) && Gone(Run(r, s, items, stamp), s.disk[s.copies[k].localPath])
  {
    if items == [] {
      k := Key("", "", "");
    } else {
      var front, last := items[..|items| - 1], items[|items| - 1];
      var mid := Run(r, s, front, stamp);
      assert forall i :: 0 <= i < |front| ==> front[i] == items[i];
      assert Run(r, s, items, stamp) == Step(r, mid, last, stamp) && StrmItem(last);
      hide Run, Step, NeverHarms, Shaped, StrmItem;
      NeverHarmsLast(r, s, items, stamp);
      RunKeepsRecords(r, s, front, stamp);
      if NeverHarms(r, s, front, stamp) {
        RunSparesCopiesIff(r, s, front, stamp);
        FrontIsKept(r, s, front, stamp);
        KeptStaysDistinct(s, mid);
        k :| Harms(r, mid, last, k);
        HarmLoses(r, mid, last, stamp, k);
        HarmsNeedsCopy(r, mid, last);
      } else {
        k := HarmIsFinal(r, s, front, stamp);
        StepStaysGone(r, mid, last, stamp, s.disk[s.copies[k].localPath]);
      }
    }
  }

  lemma FrontIsKept(r: Roots, s: State, items: seq<Item>, stamp: int)
    requires KeptThroughout(r, s, items, stamp)
    ensures CopiesKept(s, Run(r, s, items, stamp))
  {
    assert items[..|items|] == items;
  }

  /** A sync of files with different contents keeps every recorded copy if and only if none of its
      steps relocates one onto another, or away from where another is recorded too. */
  lemma SyncKeepsCopiesIff(r: Roots, s: State, name: string, items: seq<Item>, syncStart: int, stamp: int)
    requires Shaped(s) && StrmItems(items) && DistinctContents(s)
    ensures CopiesKept(s, Sync(r, s, name, items, syncStart, stamp)) <==> NeverHarms(r, s, items, stamp)
  {
    hide Run, Sync, NeverHarms, Shaped, StrmItems;
    SyncKeepsAsRun(r, s, name, items, syncStart, stamp);
    if NeverHarms(r, s, items, stamp) {
      RunSparesCopiesIff(r, s, items, stamp);
      FrontIsKept(r, s, items, stamp);
    } else {
      var k := HarmIsFinal(r, s, items, stamp);
      assert !CopiesKept(s, Run(r, s, items, stamp));
    }
  }

  // ----- the same, read off the copies at the start -----

  /** The i-th file's copy has to go elsewhere, and k's is recorded where it is, or where it goes with
      other content. All of it is about the copies and contents before the run and the paths its files
      get. */
  ghost predicate Clashes(r: Roots, s: State, items: seq<Item>, stamp: int, i: nat, k: Key)
    requires i < |items| && AllOnDisk(s)
  {
    var j := items[i].key;
    && j != k && s.HasCopy(j) && s.HasCopy(k) && Goal(r, s, items, stamp, i) != s.copies[j].localPath
    && var from, at := s.copies[j].localPath, Place(r, s, items[..i], stamp, k);
       at == from || (at == Goal(r, s, items, stamp, i) && s.disk[from] != s.disk[s.copies[k].localPath])
  }

  ghost predicate NoClash(r: Roots, s: State, items: seq<Item>, stamp: int, i: nat)
    requires i < |items| && AllOnDisk(s)
  {
    forall k :: !Clashes(r, s, items, stamp, i, k)
  }

  ghost predicate NeverClashes(r: Roots, s: State, items: seq<Item>, stamp: int)
    requires AllOnDisk(s)
  {
    forall i :: 0 <= i < |items| ==> NoClash(r, s, items, stamp, i)
  }

  lemma NeverClashesLast(r: Roots, s: State, items: seq<Item>, stamp: int)
    requires items != [] && AllOnDisk(s)
    ensures var front := items[..|items| - 1];
            NeverClashes(r, s, items, stamp) <==>
            NeverClashes(r, s, front, stamp) && NoClash(r, s, items, stamp, |items| - 1)
  {
    var front := items[..|items| - 1];
    hide AllOnDisk, NoClash, Clashes, Goal, Place, Run;
    forall i | 0 <= i < |front|
      ensures NoClash(r, s, front, stamp, i) <==> NoClash(r, s, items, stamp, i)
    {
      ClashesFront(r, s, items, stamp, i);
    }
    if NeverClashes(r, s, items, stamp) {
      forall i | 0 <= i < |front|
        ensures NoClash(r, s, front, stamp, i)
      {
        assert NoClash(r, s, items, stamp, i);
      }
    }
  }

  lemma ClashesFront(r: Roots, s: State, items: seq<Item>, stamp: int, i: nat)
    requires i < |items| - 1 && AllOnDisk(s)
    ensures NoClash(r, s, items[..|items| - 1], stamp, i) <==> NoClash(r, s, items, stamp, i)
  {
    hide CopyWanted, Run, UniquePath, Place;
    var front := items[..|items| - 1];
    assert front[..i] == items[..i];
    assert forall k :: Clashes(r, s, front, stamp, i, k) <==> Clashes(r, s, items, stamp, i, k);
  }

  /** Every record points where Place says. */
  ghost predicate AsPlaced(r: Roots, s: State, t: State, items: seq<Item>, stamp: int) {
    forall k :: s.HasCopy(k) ==> t.HasCopy(k) && t.copies[k].localPath == Place(r, s, items, stamp, k)
  }

  /** The next step does harm exactly when there is a clash. */
  lemma NextHarmsIff(r: Roots, s: State, mid: State, items: seq<Item>, stamp: int, k: Key)
    requires Shaped(s) && StrmItems(items) && DistinctKeys(items) && items != [] && AllOnDisk(s)
    requires mid == Run(r, s, items[..|items| - 1], stamp) && CopiesKept(s, mid)
    requires AsPlaced(r, s, mid, items[..|items| - 1], stamp)
    ensures Harms(r, mid, items[|items| - 1], k) <==> Clashes(r, s, items, stamp, |items| - 1, k)
  {
    var front, last := items[..|items| - 1], items[|items| - 1];
    assert forall i :: 0 <= i < |front| ==> front[i] == items[i];
    RunKeepsRecords(r, s, front, stamp);
    if s.HasCopy(last.key) {
      assert !InItems(front, last.key);
      RunKeepsRecord(r, s, front, stamp, last.key);
    }
    hide Run, UniquePath, CopyWanted, Shaped, StrmItems, DistinctKeys, InItems, Place;
  }

  lemma NextIsPlaced(r: Roots, s: State, mid: State, items: seq<Item>, stamp: int, k: Key)
    requires Shaped(s) && StrmItems(items) && DistinctKeys(items) && items != [] && AllOnDisk(s)
    requires mid == Run(r, s, items[..|items| - 1], stamp) && CopiesKept(s, mid)
    requires AsPlaced(r, s, mid, items[..|items| - 1], stamp) && s.HasCopy(k)
    ensures var t := Step(r, mid, items[|items| - 1], stamp);
            t.HasCopy(k) && t.copies[k].localPath == Place(r, s, items, stamp, k)
  {
    var front, last := items[..|items| - 1], items[|items| - 1];
    assert forall i :: 0 <= i < |front| ==> front[i] == items[i];
    RunKeepsRecords(r, s, front, stamp);
    assert StrmItem(last);
    hide Step, Run, UniquePath, CopyWanted, Shaped, StrmItems, StrmItem;
    StepOnCopies(r, mid, last, stamp);
    StepKeys(r, mid, last, stamp, k);
    if k == last.key {
      assert !InItems(front, k);
      RunKeepsRecord(r, s, front, stamp, k);
    }
  }

  lemma NextAgrees(r: Roots, s: State, mid: State, items: seq<Item>, stamp: int)
    requires Shaped(s) && StrmItems(items) && DistinctKeys(items) && items != [] && AllOnDisk(s)
    requires mid == Run(r, s, items[..|items| - 1], stamp) && CopiesKept(s, mid)
    requires AsPlaced(r, s, mid, items[..|items| - 1], stamp)
    ensures HarmsNobody(r, mid, items[|items| - 1]) <==> NoClash(r, s, items, stamp, |items| - 1)
  {
    hide Run, Place, Goal, AllOnDisk, Shaped, StrmItems, DistinctKeys, CopiesKept, AsPlaced, Clashes, Harms;
    var last, n := items[|items| - 1], |items| - 1;
    forall k
      ensures Harms(r, mid, last, k) <==> Clashes(r, s, items, stamp, n, k)
    {
      NextHarmsIff(r, s, mid, items, stamp, k);
    }
  }

  lemma NextAsPlaced(r: Roots, s: State, mid: State, items: seq<Item>, stamp: int)
    requires Shaped(s) && StrmItems(items) && DistinctKeys(items) && items != [] && AllOnDisk(s)
    requires mid == Run(r, s, items[..|items| - 1], stamp) && CopiesKept(s, mid)
    requires AsPlaced(r, s, mid, items[..|items| - 1], stamp)
    ensures AsPlaced(r, s, Step(r, mid, items[|items| - 1], stamp), items, stamp)
  {
    var t := Step(r, mid, items[|items| - 1], stamp);
    hide Step, Run, Place, Goal, AllOnDisk, Shaped, StrmItems, DistinctKeys, CopiesKept;
    forall k | s.HasCopy(k)
      ensures t.HasCopy(k) && t.copies[k].localPath == Place(r, s, items, stamp, k)
    {
      NextIsPlaced(r, s, mid, items, stamp, k);
    }
  }

  /** Whether a run over distinct files does harm is decided by the copies before it and the paths its
      files get. */
  lemma {:induction false} NeverHarmsIff(r: Roots, s: State, items: seq<Item>, stamp: int)
    requires Shaped(s) && StrmItems(items) && DistinctKeys(items) && AllOnDisk(s)
    ensures NeverHarms(r, s, items, stamp) <==> NeverClashes(r, s, items, stamp)
    ensures NeverHarms(r, s, items, stamp) ==> AsPlaced(r, s, Run(r, s, items, stamp), items, stamp)
  {
    if items == [] {
    } else {
      var front, last := items[..|items| - 1], items[|items| - 1];
      var mid := Run(r, s, front, stamp);
      assert front + [last] == items;
      assert Run(r, s, items, stamp) == Step(r, mid, last, stamp);
      hide *;
      FrontKeeps(front, last);
      NeverHarmsIff(r, s, front, stamp);
      NeverHarmsLast(r, s, items, stamp);
      NeverClashesLast(r, s, items, stamp);
      if NeverHarms(r, s, front, stamp) {
        RunSparesCopiesIff(r, s, front, stamp);
        FrontIsKept(r, s, front, stamp);
        NextAgrees(r, s, mid, items, stamp);
        NextAsPlaced(r, s, mid, items, stamp);
      }
    }
  }

  /** So a sync of distinct files, of copies with different contents, keeps every recorded copy if and
      only if no file's copy that has to go elsewhere meets another's, where it is or where it goes. */
  lemma SyncKeepsCopiesExactly(r: Roots, s: State, name: string, items: seq<Item>, syncStart: int, stamp: int)
    requires Shaped(s) && StrmItems(items) && DistinctKeys(items) && DistinctContents(s)
    ensures CopiesKept(s, Sync(r, s, name, items, syncStart, stamp)) <==> NeverClashes(r, s, items, stamp)
  {
    hide Run, Sync, NeverHarms, NeverClashes, CopiesKept, Shaped, StrmItems, DistinctKeys;
    SyncKeepsCopiesIff(r, s, name, items, syncStart, stamp);
    NeverHarmsIff(r, s, items, stamp);
  }
}
