/** What every sync, prune, torrent removal and wipe keeps: one owner per .strm path, the other
    files' .strm contents, and every downloaded copy. */
module LibrarySafety {
  import opened Text
  import opened Paths
  import opened Library

  /** No two tracked rows share a .strm path ("" is a row without one). */
  ghost predicate Distinct(rows: map<Key, Row>) {
    forall k1, k2 :: k1 in rows && k2 in rows && k1 != k2 && rows[k1].strmPath == rows[k2].strmPath ==>
        rows[k1].strmPath == ""
  }

  /** Tracked paths are .strm paths, and no recorded copy is named like one. */
  ghost predicate Shaped(s: State) {
    && (forall k :: k in s.rows && s.rows[k].strmPath != "" ==> HasSuffix(s.rows[k].strmPath, STRM))
    && (forall k :: k in s.copies && s.copies[k].HasCopy() ==> !HasSuffix(s.copies[k].localPath, STRM))
  }

  ghost predicate Healthy(s: State) {
    Distinct(s.rows) && Shaped(s)
  }

  ghost predicate StrmItem(it: Item) {
    forall p :: p in Candidates(it) ==> HasSuffix(p, STRM)
  }

  ghost predicate StrmItems(items: seq<Item>) {
    forall i :: 0 <= i < |items| ==> StrmItem(items[i])
  }

  ghost predicate DistinctKeys(items: seq<Item>) {
    forall i, j :: 0 <= i < j < |items| ==> items[i].key != items[j].key
  }

  lemma UniquePathIsCandidate(rows: map<Key, Row>, it: Item)
    ensures UniquePath(rows, it) in Candidates(it)
    ensures if Exhausted(rows, it) then UniquePath(rows, it) == it.want else Free(rows, it.key, UniquePath(rows, it))
  {
    assert it.want == Candidates(it)[0];
  }

  lemma CopyWantedIsNotStrm(r: Roots, c: Copy, path: string, srcPath: string)
    requires !HasSuffix(c.localPath, STRM)
    ensures !HasSuffix(CopyWanted(r, c, path, srcPath), STRM)
  {
    if Within(r.library, path) {
      CopyHomeIsNotStrm(r, CopyRoot(r, c.localPath), path, srcPath);
    }
  }

  // ----- one step -----

  lemma StepRowsAre(r: Roots, s: State, it: Item, stamp: int)
    ensures Step(r, s, it, stamp).rows ==
            s.rows[it.key := Row(it.torrentName, it.filePath, it.size, UniquePath(s.rows, it), stamp)]
  {
  }

  /** A step breaks distinctness exactly when every candidate belongs to somebody else. */
  lemma StepKeepsDistinct(r: Roots, s: State, it: Item, stamp: int)
    requires Distinct(s.rows) && StrmItem(it)
    ensures Distinct(Step(r, s, it, stamp).rows) <==> !Exhausted(s.rows, it)
  {
    hide Step, UniquePath;
    UniquePathIsCandidate(s.rows, it);
    StepRowsAre(r, s, it, stamp);
    var rows := Step(r, s, it, stamp).rows;
    assert rows[it.key].strmPath == UniquePath(s.rows, it) != "";
    if Exhausted(s.rows, it) {
      assert !Free(s.rows, it.key, Candidates(it)[0]);
      var k :| k in s.rows && k != it.key && s.rows[k].strmPath == it.want;
      assert k in rows && rows[k].strmPath == rows[it.key].strmPath;
    }
  }

  lemma StepKeepsShape(r: Roots, s: State, it: Item, stamp: int)
    requires Shaped(s) && StrmItem(it)
    ensures Shaped(Step(r, s, it, stamp))
  {
    UniquePathIsCandidate(s.rows, it);
    if s.HasCopy(it.key) {
      CopyWantedIsNotStrm(r, s.copies[it.key], UniquePath(s.rows, it), it.filePath);
    }
  }

  /** After its step a file has exactly its own URL at its path, or nothing when a finished copy
      stands in for it. */
  ghost predicate Placed(s: State, it: Item) {
    && it.key in s.rows
    && s.rows[it.key].strmPath in Candidates(it)
    && s.rows[it.key] == Row(it.torrentName, it.filePath, it.size, s.rows[it.key].strmPath, s.rows[it.key].updatedAt)
    && if s.HasCopy(it.key) then s.rows[it.key].strmPath !in s.disk
       else s.rows[it.key].strmPath in s.disk && s.disk[s.rows[it.key].strmPath] == it.url
  }

  lemma StepPlaces(r: Roots, s: State, it: Item, stamp: int)
    requires StrmItem(it)
    ensures Placed(Step(r, s, it, stamp), it)
  {
    UniquePathIsCandidate(s.rows, it);
  }

  /** The same content, or absence, at one path. */
  ghost predicate SameAt(d1: map<string, string>, d2: map<string, string>, path: string) {
    (path in d1 <==> path in d2) && (path in d1 ==> d1[path] == d2[path])
  }

  /** All a step for it can have changed: its own row, its old and its new .strm, and paths that
      are not .strm paths. */
  ghost predicate Touches(s: State, it: Item, t: State) {
    && it.key in t.rows
    && t.rows.Keys == s.rows.Keys + {it.key}
    && (forall k :: k in s.rows && k != it.key ==> t.rows[k] == s.rows[k])
    && (forall k :: t.HasCopy(k) <==> s.HasCopy(k))
    && (forall p ::
          HasSuffix(p, STRM) && p != t.rows[it.key].strmPath && !(it.key in s.rows && p == s.rows[it.key].strmPath)
          ==> SameAt(s.disk, t.disk, p))
  }

  lemma StepTouches(r: Roots, s: State, it: Item, stamp: int)
    requires Shaped(s)
    ensures Touches(s, it, Step(r, s, it, stamp))
    ensures Step(r, s, it, stamp).rows[it.key]
        == Row(it.torrentName, it.filePath, it.size, UniquePath(s.rows, it), stamp)
  {
    var path := UniquePath(s.rows, it);
    var placed := Upsert(RemoveOld(s, it), it, path, stamp);
    PlacedTouches(s, it, path, stamp);
    if s.HasCopy(it.key) {
      KeepCopyTouches(r, placed, it, path);
      TouchesThen(s, it, placed, KeepCopy(r, placed, it, path));
    } else {
      TouchesThen(s, it, placed, WriteStrm(placed, path, it.url));
    }
  }

  lemma PlacedTouches(s: State, it: Item, path: string, stamp: int)
    ensures Touches(s, it, Upsert(RemoveOld(s, it), it, path, stamp))
  {
  }

  lemma TouchesThen(s: State, it: Item, mid: State, t: State)
    requires Touches(s, it, mid) && t.rows == mid.rows
    requires forall k :: t.HasCopy(k) <==> mid.HasCopy(k)
    requires forall p :: HasSuffix(p, STRM) && p != mid.rows[it.key].strmPath ==> SameAt(mid.disk, t.disk, p)
    ensures Touches(s, it, t)
  {
  }

  lemma KeepCopyTouches(r: Roots, s: State, it: Item, path: string)
    requires s.HasCopy(it.key)
    requires !HasSuffix(s.copies[it.key].localPath, STRM)
    ensures var t := KeepCopy(r, s, it, path);
            t.rows == s.rows && (forall k :: t.HasCopy(k) <==> s.HasCopy(k))
            && forall p :: HasSuffix(p, STRM) && p != path ==> SameAt(s.disk, t.disk, p)
  {
    hide CopyHome, CopyRoot, Within;
    CopyWantedIsNotStrm(r, s.copies[it.key], path, it.filePath);
  }

  /** What a step for one file leaves of another file's placement. */
  lemma PlacedSurvives(s: State, it: Item, t: State, other: Item)
    requires Touches(s, it, t) && Distinct(s.rows) && Distinct(t.rows)
    requires StrmItem(other) && other.key != it.key && Placed(s, other)
    ensures Placed(t, other) && t.rows[other.key] == s.rows[other.key]
  {
    var path := s.rows[other.key].strmPath;
    assert HasSuffix(path, STRM) && path != "";
    assert SameAt(s.disk, t.disk, path);
  }

  /** A step for one file leaves every other row's .strm alone. */
  lemma StepLeavesOthers(r: Roots, s: State, it: Item, stamp: int, k: Key)
    requires Healthy(s) && StrmItem(it) && !Exhausted(s.rows, it)
    requires k in s.rows && k != it.key
    ensures var t := Step(r, s, it, stamp);
            k in t.rows && t.rows[k] == s.rows[k] && t.HasCopy(k) == s.HasCopy(k)
            && (s.rows[k].strmPath != "" ==> SameAt(s.disk, t.disk, s.rows[k].strmPath))
  {
    UniquePathIsCandidate(s.rows, it);
    StepTouches(r, s, it, stamp);
  }

  // ----- a run over a list of files -----

  /** No step of the run found all its candidates taken. */
  ghost predicate Smooth(r: Roots, s: State, items: seq<Item>, stamp: int) {
    forall i :: 0 <= i < |items| ==> !Exhausted(Run(r, s, items[..i], stamp).rows, items[i])
  }

  lemma SmoothFront(r: Roots, s: State, items: seq<Item>, stamp: int)
    requires items != [] && Smooth(r, s, items, stamp)
    ensures Smooth(r, s, items[..|items| - 1], stamp)
    ensures !Exhausted(Run(r, s, items[..|items| - 1], stamp).rows, items[|items| - 1])
  {
    hide Run, Exhausted;
    var front := items[..|items| - 1];
    forall i | 0 <= i < |front|
      ensures !Exhausted(Run(r, s, front[..i], stamp).rows, front[i])
    {
      assert front[..i] == items[..i];
    }
  }

  /** Every file of the run ends up placed; later files do not undo earlier ones. */
  lemma {:induction false} RunPlaces(r: Roots, s: State, items: seq<Item>, stamp: int)
    requires Healthy(s) && StrmItems(items) && DistinctKeys(items) && Smooth(r, s, items, stamp)
    ensures Healthy(Run(r, s, items, stamp))
    ensures forall i :: 0 <= i < |items| ==> PlacedAt(Run(r, s, items, stamp), items[i], stamp)
  {
    if items == [] {
    } else {
      hide Step, Smooth, Healthy, PlacedAt, StrmItems, DistinctKeys;
      var front, last := items[..|items| - 1], items[|items| - 1];
      assert front + [last] == items;
      SmoothFront(r, s, items, stamp);
      FrontKeeps(front, last);
      RunPlaces(r, s, front, stamp);
      LastPlaces(r, Run(r, s, front, stamp), front, last, stamp);
    }
  }

  lemma FrontKeeps(front: seq<Item>, last: Item)
    requires StrmItems(front + [last]) && DistinctKeys(front + [last])
    ensures StrmItems(front) && DistinctKeys(front)
  {
    var items := front + [last];
    assert forall i :: 0 <= i < |front| ==> items[i] == front[i];
  }

  /** Placed, by a step with this time stamp. */
  ghost predicate PlacedAt(s: State, it: Item, stamp: int) {
    Placed(s, it) && s.rows[it.key].updatedAt == stamp
  }

  lemma LastPlaces(r: Roots, s: State, front: seq<Item>, last: Item, stamp: int)
    requires Healthy(s) && StrmItems(front + [last]) && DistinctKeys(front + [last]) && !Exhausted(s.rows, last)
    requires forall i :: 0 <= i < |front| ==> PlacedAt(s, front[i], stamp)
    ensures var t := Step(r, s, last, stamp);
            Healthy(t) && forall i :: 0 <= i < |front + [last]| ==> PlacedAt(t, (front + [last])[i], stamp)
  {
    var t := Step(r, s, last, stamp);
    var items := front + [last];
    assert StrmItem(items[|front|]);
    StepKeepsDistinct(r, s, last, stamp);
    StepKeepsShape(r, s, last, stamp);
    StepPlaces(r, s, last, stamp);
    StepTouches(r, s, last, stamp);
    forall i | 0 <= i < |items|
      ensures PlacedAt(t, items[i], stamp)
    {
      if i < |front| {
        assert items[i] == front[i] && items[|front|] == last;
        assert StrmItem(items[i]);
        assert PlacedAt(s, front[i], stamp);
        PlacedSurvives(s, last, t, items[i]);
      }
    }
  }

  ghost predicate InItems(items: seq<Item>, k: Key) {
    exists i :: 0 <= i < |items| && items[i].key == k
  }

  /** The rows after a run: the old ones and the files of the run. */
  lemma {:induction false} RunKeys(r: Roots, s: State, items: seq<Item>, stamp: int, k: Key)
    ensures k in Run(r, s, items, stamp).rows <==> k in s.rows || InItems(items, k)
    ensures !InItems(items, k) && k in s.rows ==> Run(r, s, items, stamp).rows[k] == s.rows[k]
    ensures Run(r, s, items, stamp).HasCopy(k) == s.HasCopy(k)
  {
    if items == [] {
    } else {
      var front, last := items[..|items| - 1], items[|items| - 1];
      RunKeys(r, s, front, stamp, k);
      InItemsLast(items, k);
      StepKeys(r, Run(r, s, front, stamp), last, stamp, k);
    }
  }

  lemma StepKeys(r: Roots, s: State, it: Item, stamp: int, k: Key)
    ensures k in Step(r, s, it, stamp).rows <==> k in s.rows || k == it.key
    ensures k != it.key && k in s.rows ==> Step(r, s, it, stamp).rows[k] == s.rows[k]
    ensures Step(r, s, it, stamp).HasCopy(k) == s.HasCopy(k)
  {
  }

  lemma InItemsLast(items: seq<Item>, k: Key)
    requires items != []
    ensures InItems(items, k) <==> InItems(items[..|items| - 1], k) || k == items[|items| - 1].key
  {
    var front := items[..|items| - 1];
    if InItems(front, k) {
      var i :| 0 <= i < |front| && front[i].key == k;
      assert items[i].key == k;
    }
    if InItems(items, k) {
      var i :| 0 <= i < |items| && items[i].key == k;
      if i < |front| {
        assert front[i].key == k;
      }
    }
  }

  /** A run leaves the rows and the .strm files of everything not in it alone. */
  lemma {:induction false} RunLeavesOthers(r: Roots, s: State, items: seq<Item>, stamp: int, k: Key)
    requires Healthy(s) && StrmItems(items) && DistinctKeys(items) && Smooth(r, s, items, stamp)
    requires k in s.rows && !InItems(items, k)
    ensures var t := Run(r, s, items, stamp);
            k in t.rows && t.rows[k] == s.rows[k]
            && (s.rows[k].strmPath != "" ==> SameAt(s.disk, t.disk, s.rows[k].strmPath))
  {
    if items == [] {
    } else {
      var front, last := items[..|items| - 1], items[|items| - 1];
      SmoothFront(r, s, items, stamp);
      InItemsLast(items, k);
      assert forall i :: 0 <= i < |front| ==> front[i] == items[i];
      RunLeavesOthers(r, s, front, stamp, k);
      RunPlaces(r, s, front, stamp);
      StepLeavesOthers(r, Run(r, s, front, stamp), last, stamp, k);
    }
  }

  /** A path that was tracked is, after the run, tracked or not on disk. */
  ghost predicate TrackedOrGone(s: State, path: string) {
    path in s.disk ==> exists k :: k in s.rows && s.rows[k].strmPath == path
  }

  lemma {:induction false} RunTidies(r: Roots, s: State, items: seq<Item>, stamp: int, path: string)
    requires Shaped(s) && StrmItems(items) && HasSuffix(path, STRM) && TrackedOrGone(s, path)
    ensures TrackedOrGone(Run(r, s, items, stamp), path) && Shaped(Run(r, s, items, stamp))
  {
    if items == [] {
    } else {
      var front, last := items[..|items| - 1], items[|items| - 1];
      RunTidies(r, s, front, stamp, path);
      StepTidies(r, Run(r, s, front, stamp), last, stamp, path);
    }
  }

  /** Relocating deletes the old .strm. */
  lemma StepLeavesOldPath(r: Roots, s: State, it: Item, stamp: int)
    requires Shaped(s) && StrmItem(it) && it.key in s.rows
    requires HasSuffix(s.rows[it.key].strmPath, STRM) && s.rows[it.key].strmPath != UniquePath(s.rows, it)
    ensures s.rows[it.key].strmPath !in Step(r, s, it, stamp).disk
  {
    if s.HasCopy(it.key) {
      CopyWantedIsNotStrm(r, s.copies[it.key], UniquePath(s.rows, it), it.filePath);
    }
  }

  lemma StepTidies(r: Roots, s: State, it: Item, stamp: int, path: string)
    requires Shaped(s) && StrmItem(it) && HasSuffix(path, STRM) && TrackedOrGone(s, path)
    ensures TrackedOrGone(Step(r, s, it, stamp), path) && Shaped(Step(r, s, it, stamp))
  {
    hide Step, UniquePath, Shaped;
    var t := Step(r, s, it, stamp);
    StepKeepsShape(r, s, it, stamp);
    StepTouches(r, s, it, stamp);
    if path in t.disk && path != t.rows[it.key].strmPath {
      if it.key in s.rows && s.rows[it.key].strmPath == path {
        StepLeavesOldPath(r, s, it, stamp);
      }
      assert SameAt(s.disk, t.disk, path);
      var k :| k in s.rows && s.rows[k].strmPath == path;
      assert k in t.rows && t.rows[k].strmPath == path;
    }
  }

  // ----- a whole sync -----

  /** Which of the provider's rows exist after a sync. */
  lemma SyncRows(r: Roots, s: State, name: string, items: seq<Item>, syncStart: int, stamp: int, k: Key)
    requires k.provider == name
    ensures k in Sync(r, s, name, items, syncStart, stamp).rows <==>
            InItems(items, k)
            || (k in s.rows && (SeenKey(k) in Seen(items) || s.rows[k].updatedAt * NANOS > syncStart))
  {
    RunKeys(r, s, items, stamp, k);
    if InItems(items, k) {
      var i :| 0 <= i < |items| && items[i].key == k;
      assert SeenKey(items[i].key) in Seen(items);
    }
  }

  /** The other torrent's ID ends in a slash and some text, and this file's ID starts with that
      text and a slash. */
  ghost predicate Overlaps(k1: Key, k2: Key) {
    exists x: string :: k2.torrent == k1.torrent + "/" + x && k1.file == x + "/" + k2.file
  }

  lemma ShorterTorrent(k1: Key, k2: Key)
    requires SeenKey(k1) == SeenKey(k2) && |k1.torrent| < |k2.torrent|
    ensures Overlaps(k1, k2)
  {
    var s, m, n := SeenKey(k1), |k1.torrent|, |k2.torrent|;
    var x := k2.torrent[m + 1..];
    assert s[..m] == k1.torrent && s[..n] == k2.torrent && s[m] == '/' && s[n] == '/';
    assert k2.torrent == s[..m] + [s[m]] + s[m + 1..n];
    assert x == s[m + 1..n];
    assert k1.file == s[m + 1..] == s[m + 1..n] + [s[n]] + s[n + 1..];
    assert k2.file == s[n + 1..];
    assert k1.file == x + "/" + k2.file;
  }

  lemma OverlapLooksSame(k1: Key, k2: Key)
    requires Overlaps(k1, k2)
    ensures SeenKey(k1) == SeenKey(k2) && k1 != k2
  {
    var x: string :| k2.torrent == k1.torrent + "/" + x && k1.file == x + "/" + k2.file;
    assert k1.torrent + "/" + (x + "/" + k2.file) == (k1.torrent + "/" + x) + "/" + k2.file;
    assert |k1.torrent| < |k2.torrent|;
  }

  /** Exactly when two keys of a provider look the same to the prune loop. */
  lemma SeenKeyCollides(k1: Key, k2: Key)
    requires k1.provider == k2.provider
    ensures SeenKey(k1) == SeenKey(k2) && k1 != k2 <==> Overlaps(k1, k2) || Overlaps(k2, k1)
  {
    if Overlaps(k1, k2) {
      OverlapLooksSame(k1, k2);
    }
    if Overlaps(k2, k1) {
      OverlapLooksSame(k2, k1);
    }
    if SeenKey(k1) == SeenKey(k2) {
      if |k1.torrent| < |k2.torrent| {
        ShorterTorrent(k1, k2);
      } else if |k2.torrent| < |k1.torrent| {
        ShorterTorrent(k2, k1);
      } else {
        var s, m := SeenKey(k1), |k1.torrent|;
        assert k1.torrent == s[..m] == k2.torrent && k1.file == s[m + 1..] == k2.file;
      }
    }
  }

  /** So slash-free file IDs are enough, whatever the torrent IDs. */
  lemma SeenKeyInjective(k1: Key, k2: Key)
    requires '/' !in k1.file && '/' !in k2.file && k1.provider == k2.provider
    requires SeenKey(k1) == SeenKey(k2)
    ensures k1 == k2
  {
    hide SeenKey;
    SeenKeyCollides(k1, k2);
  }

  /** With slash-free file IDs and no row from the future, the provider's rows after a sync are
      exactly the files of the snapshot. */
  lemma SyncMirrorsSnapshot(r: Roots, s: State, name: string, items: seq<Item>, syncStart: int, stamp: int)
    requires forall k :: k in s.rows ==> '/' !in k.file && s.rows[k].updatedAt * NANOS <= syncStart
    requires forall i :: 0 <= i < |items| ==> '/' !in items[i].key.file && items[i].key.provider == name
    ensures forall k: Key :: k.provider == name ==>
              (k in Sync(r, s, name, items, syncStart, stamp).rows <==> InItems(items, k))
  {
    forall k: Key | k.provider == name
      ensures k in Sync(r, s, name, items, syncStart, stamp).rows <==> InItems(items, k)
    {
      SyncRows(r, s, name, items, syncStart, stamp, k);
      if k in s.rows && SeenKey(k) in Seen(items) {
        var i :| 0 <= i < |items| && SeenKey(items[i].key) == SeenKey(k);
        SeenKeyInjective(k, items[i].key);
      }
    }
  }

  /** A slash in a file ID can keep a vanished file: the two keys below look the same. TorBox IDs
      that arrive as strings are taken as they are. */
  lemma SlashKeepsVanishedRow(r: Roots, row: Row, others: seq<string>, url: string)
    requires row.updatedAt == 0 && |others| == 10
    ensures var gone := Key("torbox", "a", "b/c");
            var it := Item(Key("torbox", "a/b", "c"), "", "", 0, "x.strm", others, url);
            gone in Sync(r, State(map[gone := row], map[], map[], 0), "torbox", [it], 1, 1).rows
            && !InItems([it], gone)
  {
    var gone := Key("torbox", "a", "b/c");
    var it := Item(Key("torbox", "a/b", "c"), "", "", 0, "x.strm", others, url);
    assert [it][0] == it;
    assert SeenKey(gone) == "a/b/c" == SeenKey(it.key);
    assert SeenKey([it][0].key) in Seen([it]);
    SyncRows(r, State(map[gone := row], map[], map[], 0), "torbox", [it], 1, 1, gone);
  }

  /** One sync: every file of the snapshot is placed, the other providers' rows and .strm files
      are unchanged, the rows stay healthy, and every path the library tracked before is still
      tracked or gone from disk. */
  lemma SyncOutcome(r: Roots, s: State, name: string, items: seq<Item>, syncStart: int, stamp: int)
    requires Healthy(s) && StrmItems(items) && DistinctKeys(items) && Smooth(r, s, items, stamp)
    requires forall i :: 0 <= i < |items| ==> items[i].key.provider == name
    ensures var t := Sync(r, s, name, items, syncStart, stamp);
            && Healthy(t)
            && (forall i :: 0 <= i < |items| ==> Placed(t, items[i]))
            && (forall k: Key :: k.provider != name ==> (k in s.rows <==> k in t.rows))
            && (forall k :: k in s.rows && k.provider != name ==>
                  t.rows[k] == s.rows[k] && (s.rows[k].strmPath != "" ==> SameAt(s.disk, t.disk, s.rows[k].strmPath)))
            && (forall k :: k in s.rows && s.rows[k].strmPath != "" ==> TrackedOrGone(t, s.rows[k].strmPath))
  {
    var ran := Run(r, s, items, stamp);
    var t := Sync(r, s, name, items, syncStart, stamp);
    var doomed := Stale(ran.rows, name, Seen(items), syncStart);
    RunPlaces(r, s, items, stamp);
    RemoveRowsKeeps(ran, doomed);
    forall i | 0 <= i < |items|
      ensures Placed(t, items[i])
    {
      assert PlacedAt(ran, items[i], stamp);
      assert SeenKey(items[i].key) in Seen(items);
      assert items[i].key !in doomed;
      assert StrmItem(items[i]);
      assert SameAt(ran.disk, t.disk, ran.rows[items[i].key].strmPath);
    }
    forall k: Key | k.provider != name
      ensures k in s.rows <==> k in t.rows
    {
      RunKeys(r, s, items, stamp, k);
    }
    forall k | k in s.rows && k.provider != name
      ensures k in t.rows && t.rows[k] == s.rows[k]
          && (s.rows[k].strmPath != "" ==> SameAt(s.disk, t.disk, s.rows[k].strmPath))
    {
      RunLeavesOthers(r, s, items, stamp, k);
    }
    forall k | k in s.rows && s.rows[k].strmPath != ""
      ensures TrackedOrGone(t, s.rows[k].strmPath)
    {
      RunTidies(r, s, items, stamp, s.rows[k].strmPath);
      RemoveRowsTidies(ran, doomed, s.rows[k].strmPath);
    }
  }

  // ----- prune, torrent removal, wipe -----

  /** Removing rows touches no surviving row's .strm and nothing that is not a .strm. */
  lemma RemoveRowsKeeps(s: State, doomed: set<Key>)
    requires Healthy(s) && doomed <= s.rows.Keys
    ensures var t := RemoveRows(s, doomed);
            && Healthy(t) && t.copies == s.copies
            && t.rows == s.rows - doomed
            && (forall k :: k in t.rows && s.rows[k].strmPath != "" ==> SameAt(s.disk, t.disk, s.rows[k].strmPath))
            && (forall k :: k in doomed && s.rows[k].strmPath != "" ==> s.rows[k].strmPath !in t.disk)
            && (forall p :: !HasSuffix(p, STRM) ==> SameAt(s.disk, t.disk, p))
  {
  }

  /** Which rows a removal takes. */
  lemma RemovalsTake(r: Roots, s: State, name: string, torrent: string)
    ensures var t := Apply(r, s, RemoveTorrent(name, torrent));
            && (forall k :: k in t.rows <==> k in s.rows && !(k.provider == name && k.torrent == torrent))
            && (forall k :: k in s.rows && k !in t.rows && s.rows[k].strmPath != "" ==> s.rows[k].strmPath !in t.disk)
    ensures var t := Apply(r, s, Wipe);
            && t.rows == map[]
            && (forall k :: k in s.rows && s.rows[k].strmPath != "" ==> s.rows[k].strmPath !in t.disk)
  {
  }

  lemma RemoveRowsTidies(s: State, doomed: set<Key>, path: string)
    requires doomed <= s.rows.Keys && path != "" && TrackedOrGone(s, path)
    ensures TrackedOrGone(RemoveRows(s, doomed), path)
  {
    var t := RemoveRows(s, doomed);
    if path in t.disk {
      var k :| k in s.rows && s.rows[k].strmPath == path;
      assert k !in doomed;
      assert k in t.rows && t.rows[k].strmPath == path;
    }
  }

  // ----- every run -----

  ghost predicate WellFormed(e: Event) {
    e.SyncEvent? ==>
      StrmItems(e.items) && DistinctKeys(e.items) && forall i :: 0 <= i < |e.items| ==>
          e.items[i].key.provider == e.name
  }

  ghost predicate SmoothEvent(r: Roots, s: State, e: Event) {
    e.SyncEvent? ==> Smooth(r, s, e.items, e.stamp)
  }

  ghost predicate SmoothRun(r: Roots, s: State, events: seq<Event>) {
    forall i :: 0 <= i < |events| ==> WellFormed(events[i]) && SmoothEvent(r, After(r, s, events[..i]), events[i])
  }

  lemma EventKeepsHealthy(r: Roots, s: State, e: Event)
    requires Healthy(s) && WellFormed(e) && SmoothEvent(r, s, e)
    ensures Healthy(Apply(r, s, e))
  {
    match e
    case SyncEvent(name, items, syncStart, stamp) => SyncOutcome(r, s, name, items, syncStart, stamp);
    case RemoveTorrent(name, torrent) => RemoveRowsKeeps(s, TorrentRows(s.rows, name, torrent));
    case Wipe => RemoveRowsKeeps(s, s.rows.Keys);
  }

  /** Over every run of syncs of any providers, torrent removals and wipes, each .strm path has
      at most one owner, unless a sync ran out of alternates. */
  lemma {:induction false} RunsStayHealthy(r: Roots, s: State, events: seq<Event>)
    requires Healthy(s) && SmoothRun(r, s, events)
    ensures Healthy(After(r, s, events))
  {
    if events == [] {
    } else {
      var front, last := events[..|events| - 1], events[|events| - 1];
      forall i | 0 <= i < |front|
        ensures WellFormed(front[i]) && SmoothEvent(r, After(r, s, front[..i]), front[i])
      {
        assert front[..i] == events[..i] && front[i] == events[i];
      }
      RunsStayHealthy(r, s, front);
      EventKeepsHealthy(r, After(r, s, front), last);
    }
  }
}
