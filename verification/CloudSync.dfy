/** The main results about a sync, stated for a provider's snapshot rather than for a list of
    items. */
module CloudSync {
  import opened Wrappers
  import opened Text
  import opened Paths
  import opened Library
  import opened LibrarySafety
  import opened LibraryCopies
  import opened LibraryRounds
  import opened LibraryFixpoint
  import opened LibraryNames
  import opened Snapshot

  ghost predicate DistinctFiles(t: Torrent) {
    forall i, j :: 0 <= i < j < |t.files| ==> t.files[i].id != t.files[j].id
  }

  /** Torrent IDs are distinct, and so are the file IDs of each torrent. */
  ghost predicate DistinctSnapshot(torrents: seq<Torrent>) {
    && (forall i, j :: 0 <= i < j < |torrents| ==> torrents[i].id != torrents[j].id)
    && forall i :: 0 <= i < |torrents| ==> DistinctFiles(torrents[i])
  }

  /** The selected file of a ready torrent that a key stands for. */
  ghost predicate Wanted(cfg: Config, name: string, hints: Hints, torrents: seq<Torrent>, k: Key) {
    exists t :: t in torrents && t.status.Ready? && WantedFrom(cfg, name, t, HintFor(hints, name, t), k)
  }

  ghost predicate WantedFrom(cfg: Config, name: string, t: Torrent, hint: Option<Hint>, k: Key) {
    exists j :: 0 <= j < |t.files| && Selected(cfg, t, hint, t.files[j]) && k == Key(name, t.id, t.files[j].id)
  }

  // ----- the items of a snapshot -----

  lemma FileKeys(cfg: Config, name: string, t: Torrent, f: File, hint: Option<Hint>, it: Item)
    requires it in ItemsOfFile(cfg, name, t, f, hint)
    ensures it.key == Key(name, t.id, f.id) && |it.alternates| == 10 && Selected(cfg, t, hint, f)
    ensures it == ItemOf(cfg, name, t, f, hint)
  {
  }

  lemma {:induction false} FileItemsDistinct(cfg: Config, name: string, t: Torrent, hint: Option<Hint>, n: nat)
    requires n <= |t.files| && DistinctFiles(t)
    ensures DistinctKeys(FileItems(cfg, name, t, hint, n))
  {
    hide ItemsOfFile;
    if n == 0 {
    } else {
      FileItemsDistinct(cfg, name, t, hint, n - 1);
      var front, last := FileItems(cfg, name, t, hint, n - 1), ItemsOfFile(cfg, name, t, t.files[n - 1], hint);
      forall x, y | x in front && y in last
        ensures x.key != y.key
      {
        KeysApart(cfg, name, t, hint, n, x, y);
      }
      AtMostOne(cfg, name, t, t.files[n - 1], hint);
      DistinctConcat(front, last);
    }
  }

  lemma AtMostOne(cfg: Config, name: string, t: Torrent, f: File, hint: Option<Hint>)
    ensures DistinctKeys(ItemsOfFile(cfg, name, t, f, hint))
  {
  }

  lemma KeysApart(cfg: Config, name: string, t: Torrent, hint: Option<Hint>, n: nat, x: Item, y: Item)
    requires 0 < n <= |t.files| && DistinctFiles(t)
    requires x in FileItems(cfg, name, t, hint, n - 1) && y in ItemsOfFile(cfg, name, t, t.files[n - 1], hint)
    ensures x.key != y.key
  {
    hide ItemsOfFile, ItemOf;
    FileItemsFrom(cfg, name, t, hint, n - 1, x);
    var j :| 0 <= j < n - 1 && x in ItemsOfFile(cfg, name, t, t.files[j], hint);
    FileKeys(cfg, name, t, t.files[j], hint, x);
    FileKeys(cfg, name, t, t.files[n - 1], hint, y);
  }

  lemma DistinctConcat(a: seq<Item>, b: seq<Item>)
    requires DistinctKeys(a) && DistinctKeys(b) && forall x, y :: x in a && y in b ==> x.key != y.key
    ensures DistinctKeys(a + b)
  {
    var c := a + b;
    forall i, j | 0 <= i < j < |c|
      ensures c[i].key != c[j].key
    {
      assert i < |a| ==> c[i] in a;
      assert j >= |a| ==> c[j] in b;
      assert i >= |a| ==> c[i] == b[i - |a|] && c[j] == b[j - |a|];
    }
  }

  /** Where an item of a snapshot comes from. */
  lemma ItemSource(cfg: Config, name: string, hints: Hints, torrents: seq<Torrent>, it: Item)
    returns (t: Torrent, j: nat)
    requires it in SnapshotItems(cfg, name, hints, torrents)
    ensures t in torrents && t.status.Ready? && j < |t.files|
        && it in ItemsOfFile(cfg, name, t, t.files[j], HintFor(hints, name, t))
    ensures it.key == Key(name, t.id, t.files[j].id) && |it.alternates| == 10
  {
    SnapshotItemsFrom(cfg, name, hints, torrents, it);
    t :| t in torrents && t.status.Ready? && FromFiles(cfg, name, t, HintFor(hints, name, t), |t.files|, it);
    j :| 0 <= j < |t.files| && it in ItemsOfFile(cfg, name, t, t.files[j], HintFor(hints, name, t));
    FileKeys(cfg, name, t, t.files[j], HintFor(hints, name, t), it);
  }

  lemma {:induction false} SnapshotDistinct(cfg: Config, name: string, hints: Hints, torrents: seq<Torrent>)
    requires DistinctSnapshot(torrents)
    ensures DistinctKeys(SnapshotItems(cfg, name, hints, torrents))
  {
    hide ItemsOfFile;
    if torrents == [] {
    } else {
      var front, last := torrents[..|torrents| - 1], torrents[|torrents| - 1];
      assert DistinctSnapshot(front);
      SnapshotDistinct(cfg, name, hints, front);
      FileItemsDistinct(cfg, name, last, HintFor(hints, name, last), |last.files|);
      var a, b := SnapshotItems(cfg, name, hints, front), TorrentItems(cfg, name, hints, last);
      forall x, y | x in a && y in b
        ensures x.key != y.key
      {
        var t, _ := ItemSource(cfg, name, hints, front, x);
        FileItemsFrom(cfg, name, last, HintFor(hints, name, last), |last.files|, y);
        var j :| 0 <= j < |last.files| && y in ItemsOfFile(cfg, name, last, last.files[j], HintFor(hints, name, last));
        FileKeys(cfg, name, last, last.files[j], HintFor(hints, name, last), y);
        var i :| 0 <= i < |front| && front[i] == t;
        assert torrents[i] == t;
      }
      DistinctConcat(a, b);
    }
  }

  /** The keys of a snapshot's items are its wanted files. */
  lemma SnapshotKeys(cfg: Config, name: string, hints: Hints, torrents: seq<Torrent>, k: Key)
    ensures InItems(SnapshotItems(cfg, name, hints, torrents), k) <==> Wanted(cfg, name, hints, torrents, k)
  {
    var items := SnapshotItems(cfg, name, hints, torrents);
    if InItems(items, k) {
      var i :| 0 <= i < |items| && items[i].key == k;
      var t, j := ItemSource(cfg, name, hints, torrents, items[i]);
      FileKeys(cfg, name, t, t.files[j], HintFor(hints, name, t), items[i]);
      assert WantedFrom(cfg, name, t, HintFor(hints, name, t), k);
    }
    if Wanted(cfg, name, hints, torrents, k) {
      var t :| t in torrents && t.status.Ready? && WantedFrom(cfg, name, t, HintFor(hints, name, t), k);
      WantedIsItem(cfg, name, hints, torrents, t, k);
    }
  }

  lemma WantedIsItem(cfg: Config, name: string, hints: Hints, torrents: seq<Torrent>, t: Torrent, k: Key)
    requires t in torrents && t.status.Ready? && WantedFrom(cfg, name, t, HintFor(hints, name, t), k)
    ensures InItems(SnapshotItems(cfg, name, hints, torrents), k)
  {
    var hint, items := HintFor(hints, name, t), SnapshotItems(cfg, name, hints, torrents);
    var j :| 0 <= j < |t.files| && Selected(cfg, t, hint, t.files[j]) && k == Key(name, t.id, t.files[j].id);
    var it := ItemsOfFile(cfg, name, t, t.files[j], hint)[0];
    FileKeys(cfg, name, t, t.files[j], hint, it);
    assert FromFiles(cfg, name, t, hint, |t.files|, it);
    SnapshotItemsFrom(cfg, name, hints, torrents, it);
    var i :| 0 <= i < |items| && items[i] == it;
  }

  // ----- cleanly named snapshots -----

  /** Every file of the snapshot has a clean key and is laid out at a clean name. */
  ghost predicate CleanSnapshot(cfg: Config, name: string, hints: Hints, torrents: seq<Torrent>) {
    forall t, f :: t in torrents && f in t.files ==> CleanFile(cfg, name, hints, t, f)
  }

  ghost predicate CleanFile(cfg: Config, name: string, hints: Hints, t: Torrent, f: File) {
    var p := cfg.layout(t, f, HintFor(hints, name, t));
    CleanKey(Key(name, t.id, f.id)) && CleanName(BasePath(cfg, p), p.version)
  }

  lemma CleanSnapshotItems(cfg: Config, name: string, hints: Hints, torrents: seq<Torrent>)
    requires LawfulSprintf(cfg.sprintf) && CleanSnapshot(cfg, name, hints, torrents)
    ensures CleanItems(cfg, SnapshotItems(cfg, name, hints, torrents))
  {
    var items := SnapshotItems(cfg, name, hints, torrents);
    forall i | 0 <= i < |items|
      ensures StrmItem(items[i]) && exists base, version :: CleanItem(cfg, items[i], base, version)
    {
      var t, j := ItemSource(cfg, name, hints, torrents, items[i]);
      var hint := HintFor(hints, name, t);
      FileKeys(cfg, name, t, t.files[j], hint, items[i]);
      assert CleanFile(cfg, name, hints, t, t.files[j]);
      CleanItemIsStrm(cfg, name, t, t.files[j], hint);
    }
  }

  lemma CleanItemIsStrm(cfg: Config, name: string, t: Torrent, f: File, hint: Option<Hint>)
    requires LawfulSprintf(cfg.sprintf) && CleanKey(Key(name, t.id, f.id))
    requires CleanName(BasePath(cfg, cfg.layout(t, f, hint)), cfg.layout(t, f, hint).version)
    ensures var it, p := ItemOf(cfg, name, t, f, hint), cfg.layout(t, f, hint);
            CleanItem(cfg, it, BasePath(cfg, p), p.version) && StrmItem(it)
  {
    var it, p := ItemOf(cfg, name, t, f, hint), cfg.layout(t, f, hint);
    var base := BasePath(cfg, p);
    assert CleanItem(cfg, it, base, p.version);
    forall path | path in Candidates(it)
      ensures HasSuffix(path, STRM)
    {
      CandidateShape(cfg, it, base, p.version, path);
      var middle :| Extends(path, TrimSuffix(base, STRM), middle);
      SuffixOfConcat(TrimSuffix(base, STRM) + middle, STRM, STRM);
    }
  }

  // ----- the result of a sync -----

  /** One error-free sync of a cleanly named cloud, from any healthy library and whatever is on
      disk: the provider's rows become exactly the wanted files, each with its own URL at its own
      path (or nothing, when a finished copy stands in), the other providers' rows and .strm files
      are untouched, and no formerly tracked path is left on disk untracked. */
  lemma SyncMirrorsCloud(cfg: Config, s: State, name: string, hints: Hints, torrents: seq<Torrent>, syncStart: int,
      stamp: int)
    requires LawfulSprintf(cfg.sprintf) && CleanSnapshot(cfg, name, hints, torrents) && DistinctSnapshot(torrents)
    requires Healthy(s) && AllOwned(s.rows)
    requires forall k :: k in s.rows ==> s.rows[k].updatedAt * NANOS <= syncStart
    ensures var items := SnapshotItems(cfg, name, hints, torrents);
            var t := Sync(cfg.roots, s, name, items, syncStart, stamp);
            && Healthy(t)
            && (forall k: Key :: k.provider == name ==> (k in t.rows <==> Wanted(cfg, name, hints, torrents, k)))
            && (forall i :: 0 <= i < |items| ==> Placed(t, items[i]))
            && (forall k: Key :: k.provider == name && k in t.rows ==> Streams(cfg, t, k))
            && (forall k: Key :: k.provider != name ==> (k in s.rows <==> k in t.rows))
            && (forall k :: k in s.rows && k.provider != name ==>
                  t.rows[k] == s.rows[k] && (s.rows[k].strmPath != "" ==> SameAt(s.disk, t.disk, s.rows[k].strmPath)))
            && (forall k :: k in s.rows && s.rows[k].strmPath != "" ==> TrackedOrGone(t, s.rows[k].strmPath))
  {
    var items := SnapshotItems(cfg, name, hints, torrents);
    CleanSnapshotItems(cfg, name, hints, torrents);
    SnapshotDistinct(cfg, name, hints, torrents);
    RunStaysOwned(cfg, s, items, stamp);
    forall i | 0 <= i < |items|
      ensures items[i].key.provider == name && StrmItem(items[i]) && '/' !in items[i].key.file
    {
      var t, j := ItemSource(cfg, name, hints, torrents, items[i]);
      assert CleanFile(cfg, name, hints, t, t.files[j]);
    }
    SyncOutcome(cfg.roots, s, name, items, syncStart, stamp);
    SyncMirrorsSnapshot(cfg.roots, s, name, items, syncStart, stamp);
    forall k: Key | k.provider == name
      ensures InItems(items, k) <==> Wanted(cfg, name, hints, torrents, k)
    {
      SnapshotKeys(cfg, name, hints, torrents, k);
    }
    forall k: Key | k.provider == name && InItems(items, k)
      ensures Streams(cfg, Sync(cfg.roots, s, name, items, syncStart, stamp), k)
    {
      var i :| 0 <= i < |items| && items[i].key == k;
      ItemStreams(cfg, name, hints, torrents, items[i]);
    }
  }

  /** The .strm of a row holds the URL that streams the row's file, or is gone when a copy stands in. */
  ghost predicate Streams(cfg: Config, s: State, k: Key)
    requires k in s.rows
  {
    var p := s.rows[k].strmPath;
    if s.HasCopy(k) then p !in s.disk else p in s.disk && s.disk[p] == cfg.streamURL(k)
  }

  lemma ItemStreams(cfg: Config, name: string, hints: Hints, torrents: seq<Torrent>, it: Item)
    requires it in SnapshotItems(cfg, name, hints, torrents)
    ensures it.url == cfg.streamURL(it.key)
  {
    var t, j := ItemSource(cfg, name, hints, torrents, it);
  }

  /** The path a file of a clean cloud is recorded at when its turn comes. */
  lemma StepChooses(cfg: Config, s: State, name: string, hints: Hints, t: Torrent, f: File, stem: string, stamp: int)
    requires LawfulSprintf(cfg.sprintf) && CleanFile(cfg, name, hints, t, f)
    requires cfg.roots.library + "/" + cfg.layout(t, f, HintFor(hints, name, t)).relPath == stem + ".strm"
    ensures var k, hint := Key(name, t.id, f.id), HintFor(hints, name, t);
            var rows := Step(cfg.roots, s, ItemOf(cfg, name, t, f, hint), stamp).rows;
            k in rows && Chosen(s.rows, k, stem, cfg.layout(t, f, hint).version, rows[k].strmPath)
  {
    var hint := HintFor(hints, name, t);
    var it, p := ItemOf(cfg, name, t, f, hint), cfg.layout(t, f, hint);
    CleanItemIsStrm(cfg, name, t, f, hint);
    StepRowsAre(cfg.roots, s, it, stamp);
    assert BasePath(cfg, p) == stem + ".strm";
    hide Step, CleanItem, Chosen, UniquePath;
    PathChosen(cfg, s.rows, it, stem, p.version);
  }

  // ----- which files get a row, in names and sizes -----

  /** A media name, and a size that is unknown or within the limits that are set; 1048576 bytes to the
      megabyte. */
  predicate Admitted(cfg: Config, f: File) {
    && cfg.isMedia(f.path)
    && (f.size > 0 ==> (cfg.minFileMB > 0 ==> cfg.minFileMB * 1048576 <= f.size)
                       && (cfg.maxFileMB > 0 ==> f.size <= cfg.maxFileMB * 1048576))
  }

  /** The i-th file of a torrent is to have a row: with a hint the first largest admitted file, without
      one every admitted file of unknown size or of three tenths at least of every other. */
  ghost predicate Tracked(cfg: Config, t: Torrent, hinted: bool, i: nat)
    requires i < |t.files|
  {
    var f := t.files[i];
    && Admitted(cfg, f)
    && if hinted then
         forall j :: 0 <= j < |t.files| && Admitted(cfg, t.files[j]) ==>
           t.files[j].size <= f.size && (j < i ==> t.files[j].size < f.size)
       else
         f.size == 0 || forall j :: 0 <= j < |t.files| && Admitted(cfg, t.files[j]) ==>
             10 * f.size >= 3 * t.files[j].size
  }

  lemma SelectedBySize(cfg: Config, t: Torrent, hint: Option<Hint>, i: nat)
    requires i < |t.files| && DistinctFiles(t) && forall j :: 0 <= j < |t.files| ==> t.files[j].size >= 0
    ensures Selected(cfg, t, hint, t.files[i]) <==> Tracked(cfg, t, hint.Some?, i)
  {
    assert forall f: File :: IsVideo(cfg, f) <==> Admitted(cfg, f);
    hide IsVideo, Admitted, Selected, Primary, LargestVideo;
    if hint.Some? {
      HintedTorrentGivesLargest(cfg, t, hint.value, i);
    } else {
      UnhintedTorrentGivesFeatures(cfg, t, t.files[i]);
    }
  }

  /** In a snapshot with distinct IDs a key stands for one file only. */
  lemma WantedIsSelected(cfg: Config, name: string, hints: Hints, torrents: seq<Torrent>, t: Torrent, i: nat)
    requires DistinctSnapshot(torrents) && t in torrents && i < |t.files|
    ensures Wanted(cfg, name, hints, torrents, Key(name, t.id, t.files[i].id)) <==>
            t.status.Ready? && Selected(cfg, t, HintFor(hints, name, t), t.files[i])
  {
    var k := Key(name, t.id, t.files[i].id);
    hide Selected;
    assert DistinctFiles(t);
    if t.status.Ready? && Selected(cfg, t, HintFor(hints, name, t), t.files[i]) {
      assert WantedFrom(cfg, name, t, HintFor(hints, name, t), k);
    }
    if Wanted(cfg, name, hints, torrents, k) {
      var u :| u in torrents && u.status.Ready? && WantedFrom(cfg, name, u, HintFor(hints, name, u), k);
      assert u == t;
    }
  }

  /** The row of a visited file says what the file is. */
  lemma {:induction false} RunRecords(r: Roots, s: State, items: seq<Item>, stamp: int, i: nat)
    requires DistinctKeys(items) && i < |items|
    ensures var row, it := Run(r, s, items, stamp).rows, items[i];
            it.key in row && row[it.key].torrentName == it.torrentName && row[it.key].filePath == it.filePath
            && row[it.key].size == it.size && row[it.key].updatedAt == stamp
  {
    var front, last := items[..|items| - 1], items[|items| - 1];
    assert Run(r, s, items, stamp) == Step(r, Run(r, s, front, stamp), last, stamp);
    hide Run, Step, UniquePath;
    StepRowsAre(r, Run(r, s, front, stamp), last, stamp);
    if i < |front| {
      assert front[i] == items[i] && items[i].key != last.key;
      RunRecords(r, s, front, stamp, i);
    }
  }

  /** Exactly which files of a cloud have a row after a sync, and what the row says, told by names and
      sizes. */
  lemma SyncTracks(cfg: Config, s: State, name: string, hints: Hints, torrents: seq<Torrent>, syncStart: int,
      stamp: int,
                   t: Torrent, i: nat)
    requires DistinctSnapshot(torrents) && t in torrents && i < |t.files|
    requires forall u, f :: u in torrents && f in u.files ==> '/' !in f.id && f.size >= 0
    requires forall k :: k in s.rows ==> '/' !in k.file && s.rows[k].updatedAt * NANOS <= syncStart
    ensures var rows := Sync(cfg.roots, s, name, SnapshotItems(cfg, name, hints, torrents), syncStart, stamp).rows;
            var f, k := t.files[i], Key(name, t.id, t.files[i].id);
            && (k in rows <==> t.status.Ready? && Tracked(cfg, t, (name, t.id) in hints, i))
            && (k in rows ==> rows[k].torrentName == t.name && rows[k].filePath == f.path && rows[k].size == f.size)
  {
    var items, f, k := SnapshotItems(cfg, name, hints, torrents), t.files[i], Key(name, t.id, t.files[i].id);
    var hint := HintFor(hints, name, t);
    assert DistinctFiles(t) && forall j :: 0 <= j < |t.files| ==> t.files[j] in t.files;
    forall j | 0 <= j < |items|
      ensures '/' !in items[j].key.file && items[j].key.provider == name
    {
      var u, n := ItemSource(cfg, name, hints, torrents, items[j]);
    }
    SelectedBySize(cfg, t, hint, i);
    WantedIsSelected(cfg, name, hints, torrents, t, i);
    SnapshotKeys(cfg, name, hints, torrents, k);
    SnapshotDistinct(cfg, name, hints, torrents);
    hide Sync, Selected, Tracked, Wanted, SnapshotItems, DistinctSnapshot;
    SyncMirrorsSnapshot(cfg.roots, s, name, items, syncStart, stamp);
    if InItems(items, k) {
      TrackedRow(cfg, s, name, hints, torrents, syncStart, stamp, t, i);
    }
  }

  lemma TrackedRow(cfg: Config, s: State, name: string, hints: Hints, torrents: seq<Torrent>, syncStart: int,
      stamp: int,
                   t: Torrent, i: nat)
    requires DistinctSnapshot(torrents) && t in torrents && i < |t.files|
    requires InItems(SnapshotItems(cfg, name, hints, torrents), Key(name, t.id, t.files[i].id))
    ensures var rows := Sync(cfg.roots, s, name, SnapshotItems(cfg, name, hints, torrents), syncStart, stamp).rows;
            var f, k := t.files[i], Key(name, t.id, t.files[i].id);
            k in rows ==> rows[k].torrentName == t.name && rows[k].filePath == f.path && rows[k].size == f.size
  {
    var items, k := SnapshotItems(cfg, name, hints, torrents), Key(name, t.id, t.files[i].id);
    var n :| 0 <= n < |items| && items[n].key == k;
    var u, j := ItemSource(cfg, name, hints, torrents, items[n]);
    FileKeys(cfg, name, u, u.files[j], HintFor(hints, name, u), items[n]);
    assert u == t && DistinctFiles(t) && j == i;
    SnapshotDistinct(cfg, name, hints, torrents);
    RunRecords(cfg.roots, s, items, stamp, n);
    hide Run, SnapshotItems, Selected, Stale;
  }

  ghost predicate OthersNotAdmitted(cfg: Config, t: Torrent, i: nat) {
    forall j :: 0 <= j < |t.files| && j != i ==> !Admitted(cfg, t.files[j])
  }

  /** A file under the minimum size, or over the maximum, gets no row; the only file of a ready torrent
      that is admitted gets one, hint or no hint. */
  lemma LimitsDecide(cfg: Config, s: State, name: string, hints: Hints, torrents: seq<Torrent>, syncStart: int,
      stamp: int,
                     t: Torrent, i: nat)
    requires DistinctSnapshot(torrents) && t in torrents && i < |t.files|
    requires forall u, f :: u in torrents && f in u.files ==> '/' !in f.id && f.size >= 0
    requires forall k :: k in s.rows ==> '/' !in k.file && s.rows[k].updatedAt * NANOS <= syncStart
    ensures var rows := Sync(cfg.roots, s, name, SnapshotItems(cfg, name, hints, torrents), syncStart, stamp).rows;
            var f, k := t.files[i], Key(name, t.id, t.files[i].id);
            && (f.size > 0 && cfg.minFileMB > 0 && f.size < cfg.minFileMB * 1048576 ==> k !in rows)
            && (f.size > 0 && cfg.maxFileMB > 0 && f.size > cfg.maxFileMB * 1048576 ==> k !in rows)
            && (!cfg.isMedia(f.path) ==> k !in rows)
            && (t.status.Ready? && Admitted(cfg, f) && OthersNotAdmitted(cfg, t, i) ==> k in rows)
  {
    assert t.files[i] in t.files;
    hide Sync, SnapshotItems;
    SyncTracks(cfg, s, name, hints, torrents, syncStart, stamp, t, i);
  }

  // ----- copies -----

  /** Every file of the snapshot is laid out inside the library and outside a separate download
      folder. */
  ghost predicate InLibrary(cfg: Config, name: string, hints: Hints, torrents: seq<Torrent>) {
    forall t, f :: t in torrents && f in t.files ==> FileInLibrary(cfg, name, hints, t, f)
  }

  predicate FileInLibrary(cfg: Config, name: string, hints: Hints, t: Torrent, f: File) {
    LibraryPath(cfg.roots, BasePath(cfg, cfg.layout(t, f, HintFor(hints, name, t))))
  }

  lemma SnapshotInLibrary(cfg: Config, name: string, hints: Hints, torrents: seq<Torrent>)
    requires LawfulSprintf(cfg.sprintf)
    requires CleanSnapshot(cfg, name, hints, torrents) && InLibrary(cfg, name, hints, torrents)
    ensures forall it :: it in SnapshotItems(cfg, name, hints, torrents) ==> LibraryItem(cfg.roots, it)
  {
    forall it | it in SnapshotItems(cfg, name, hints, torrents)
      ensures LibraryItem(cfg.roots, it)
    {
      var t, j := ItemSource(cfg, name, hints, torrents, it);
      var f, hint := t.files[j], HintFor(hints, name, t);
      var p := cfg.layout(t, f, hint);
      FileKeys(cfg, name, t, f, hint, it);
      assert CleanFile(cfg, name, hints, t, f) && FileInLibrary(cfg, name, hints, t, f);
      CleanItemIsStrm(cfg, name, t, f, hint);
      CleanItemIsLibraryItem(cfg, it, BasePath(cfg, p), p.version);
    }
  }

  /** A provider and what its cloud holds. */
  datatype Cloud = Cloud(name: string, torrents: seq<Torrent>)

  /** All of it is cleanly named. */
  ghost predicate CleanCloud(cfg: Config, hints: Hints, c: Cloud) {
    CleanSnapshot(cfg, c.name, hints, c.torrents) && DistinctSnapshot(c.torrents)
  }

  /** And laid out in the library. */
  ghost predicate CloudInLibrary(cfg: Config, hints: Hints, c: Cloud) {
    InLibrary(cfg, c.name, hints, c.torrents)
  }

  function CloudItems(cfg: Config, hints: Hints, c: Cloud): seq<Item> {
    SnapshotItems(cfg, c.name, hints, c.torrents)
  }

  lemma CloudIsProper(cfg: Config, hints: Hints, c: Cloud)
    requires LawfulSprintf(cfg.sprintf) && CleanCloud(cfg, hints, c)
    ensures var items := CloudItems(cfg, hints, c);
            && DistinctKeys(items) && StrmItems(items) && CleanItems(cfg, items)
            && forall i :: 0 <= i < |items| ==> items[i].key.provider == c.name && |items[i].alternates| == 10
  {
    var items := CloudItems(cfg, hints, c);
    CleanSnapshotItems(cfg, c.name, hints, c.torrents);
    SnapshotDistinct(cfg, c.name, hints, c.torrents);
    forall i | 0 <= i < |items|
      ensures items[i].key.provider == c.name && |items[i].alternates| == 10
    {
      var t, j := ItemSource(cfg, c.name, hints, c.torrents, items[i]);
    }
  }

  lemma CloudLiesInLibrary(cfg: Config, hints: Hints, c: Cloud)
    requires LawfulSprintf(cfg.sprintf) && CleanCloud(cfg, hints, c) && CloudInLibrary(cfg, hints, c)
    ensures forall it :: it in CloudItems(cfg, hints, c) ==> LibraryItem(cfg.roots, it)
  {
    SnapshotInLibrary(cfg, c.name, hints, c.torrents);
  }

  lemma CloudRunIsReady(cfg: Config, s: State, hints: Hints, c: Cloud, stamp: int)
    requires LawfulSprintf(cfg.sprintf) && CleanCloud(cfg, hints, c) && CloudInLibrary(cfg, hints, c)
    requires Healthy(s) && AllOwned(s.rows)
    requires forall it :: it in CloudItems(cfg, hints, c) ==> DoneIsHome(cfg.roots, s, it.key)
    ensures RunReady(cfg.roots, s, CloudItems(cfg, hints, c), stamp)
  {
    var items := CloudItems(cfg, hints, c);
    hide CleanCloud, CleanItems, DoneIsHome, LibraryItem, Smooth, CloudItems, CloudInLibrary;
    CloudIsProper(cfg, hints, c);
    CloudLiesInLibrary(cfg, hints, c);
    RunStaysOwned(cfg, s, items, stamp);
    assert forall i :: 0 <= i < |items| ==> items[i] in items;
  }

  /** One sync of a clean cloud deletes and overwrites no recorded copy, when all are at home and no
      file with a Move in progress changes its place. */
  lemma CloudSyncKeepsCopies(cfg: Config, s: State, hints: Hints, c: Cloud, syncStart: int, stamp: int)
    requires LawfulSprintf(cfg.sprintf) && CleanCloud(cfg, hints, c) && CloudInLibrary(cfg, hints, c)
    requires Healthy(s) && AllOwned(s.rows)
    requires AllHome(cfg.roots, s) && MovingStay(cfg.roots, s, CloudItems(cfg, hints, c), stamp)
    ensures CopiesKept(s, Sync(cfg.roots, s, c.name, CloudItems(cfg, hints, c), syncStart, stamp))
  {
    hide CleanCloud, Home, Sync, CopiesKept, MovingStay, CloudItems, CloudInLibrary;
    CloudRunIsReady(cfg, s, hints, c, stamp);
    SyncKeepsCopies(cfg.roots, s, c.name, CloudItems(cfg, hints, c), syncStart, stamp);
  }

  // ----- repeated syncs -----

  ghost predicate SyncsOf(cfg: Config, hints: Hints, clouds: seq<Cloud>, round: seq<Event>) {
    && |round| == |clouds|
    && (forall i, j :: 0 <= i < j < |clouds| ==> clouds[i].name != clouds[j].name)
    && forall i :: 0 <= i < |clouds| ==> CleanCloud(cfg, hints, clouds[i]) && SyncOf(cfg, hints, clouds[i], round[i])
  }

  predicate SyncOf(cfg: Config, hints: Hints, c: Cloud, e: Event) {
    e.SyncEvent? && e.name == c.name && e.items == CloudItems(cfg, hints, c)
  }

  lemma SyncIsClean(cfg: Config, hints: Hints, c: Cloud, e: Event)
    requires LawfulSprintf(cfg.sprintf) && CleanCloud(cfg, hints, c) && SyncOf(cfg, hints, c, e)
    ensures CleanEvent(cfg, e) && e.SyncEvent? && e.name == c.name
    ensures forall i :: 0 <= i < |e.items| ==> |e.items[i].alternates| == 10
  {
    hide CleanCloud, CleanItems, LibraryItem, CloudItems;
    CloudIsProper(cfg, hints, c);
  }

  lemma RoundIsClean(cfg: Config, hints: Hints, clouds: seq<Cloud>, round: seq<Event>)
    requires LawfulSprintf(cfg.sprintf) && SyncsOf(cfg, hints, clouds, round)
    ensures ProperRound(round) && forall i :: 0 <= i < |round| ==> CleanEvent(cfg, round[i])
  {
    hide CleanCloud, SyncOf;
    forall i | 0 <= i < |round|
      ensures CleanEvent(cfg, round[i]) && round[i].SyncEvent? && round[i].name == clouds[i].name
    {
      SyncIsClean(cfg, hints, clouds[i], round[i]);
    }
  }

  lemma RoundIsReady(cfg: Config, s: State, hints: Hints, clouds: seq<Cloud>, round: seq<Event>)
    requires LawfulSprintf(cfg.sprintf) && SyncsOf(cfg, hints, clouds, round) && Healthy(s) && AllOwned(s.rows)
    ensures RoundReady(cfg.roots, s, round)
  {
    hide CleanCloud, SyncOf;
    RoundIsClean(cfg, hints, clouds, round);
    CleanRunsAreSmooth(cfg, s, round);
  }

  lemma {:induction false} TenAlternates(cfg: Config, hints: Hints, clouds: seq<Cloud>, round: seq<Event>, i: nat)
    requires LawfulSprintf(cfg.sprintf) && SyncsOf(cfg, hints, clouds, round) && i < |ItemsOf(round)|
    ensures |ItemsOf(round)[i].alternates| == 10
  {
    var n := |round| - 1;
    if n < 0 {
    } else {
      assert SyncsOf(cfg, hints, clouds[..n], round[..n]) && CleanCloud(cfg, hints, clouds[n]);
      assert SyncOf(cfg, hints, clouds[n], round[n]);
      hide CleanCloud, SyncOf, SyncsOf, ItemsOf, LawfulSprintf;
      SyncIsClean(cfg, hints, clouds[n], round[n]);
      ItemsOfLast(round, ItemsOf(round), i);
      if i < |ItemsOf(round[..n])| {
        TenAlternates(cfg, hints, clouds[..n], round[..n], i);
      }
    }
  }

  lemma {:induction false} RoundInLibrary(cfg: Config, hints: Hints, clouds: seq<Cloud>, round: seq<Event>, it: Item)
    requires LawfulSprintf(cfg.sprintf) && SyncsOf(cfg, hints, clouds, round) && it in ItemsOf(round)
    requires forall c :: c in clouds ==> CloudInLibrary(cfg, hints, c)
    ensures LibraryItem(cfg.roots, it)
  {
    RoundIsClean(cfg, hints, clouds, round);
    hide CleanCloud, CloudInLibrary, LibraryItem, CloudItems, ItemsOf;
    var i := RoundVisits(round, it);
    CloudLiesInLibrary(cfg, hints, clouds[i]);
  }

  /** Syncing the same clean clouds over and over, from any healthy library and whatever its copies:
      after the first round at most ten rounds per file relocate anything; with at most one more per
      file (two, when files are laid out in the download folder) every finished copy is where the
      syncs want it or missing, and from then on every round writes nothing, deletes nothing and
      changes nothing but time stamps. */
  lemma CloudsComeToRest(cfg: Config, s: State, hints: Hints, clouds: seq<Cloud>, round: seq<Event>,
      rounds: seq<seq<Event>>)
    returns (i: nat, j: nat)
    requires LawfulSprintf(cfg.sprintf) && SyncsOf(cfg, hints, clouds, round) && Healthy(s) && AllOwned(s.rows)
    requires NoFutureRows(s, round) && Rounds(rounds, round)
    requires |rounds| > 10 * |ItemsOf(round)| + MostHops(cfg.roots, ItemsOf(round))
    ensures var first, all := After(cfg.roots, s, round), ItemsOf(round);
            && i <= 10 * |all| && RowsRest(cfg.roots, first, rounds, i)
            && i <= j <= i + MostHops(cfg.roots, all) && AtRest(cfg.roots, first, rounds, j)
            && CopiesRest(cfg.roots, AfterRounds(cfg.roots, first, rounds, j), all)
            && CopiesHome(cfg.roots, AfterRounds(cfg.roots, first, rounds, j), all)
    ensures (forall c :: c in clouds ==> CloudInLibrary(cfg, hints, c)) ==> j <= 11 * |ItemsOf(round)|
    ensures j <= 12 * |ItemsOf(round)|
  {
    var all := ItemsOf(round);
    assert MostHops(cfg.roots, all) <= 2 * |all|;
    if forall c :: c in clouds ==> CloudInLibrary(cfg, hints, c) {
      forall m | 0 <= m < |all|
        ensures LibraryItem(cfg.roots, all[m])
      {
        RoundInLibrary(cfg, hints, clouds, round, all[m]);
      }
      assert MostHops(cfg.roots, all) == |all|;
    }
    hide SyncsOf, AtRest, RowsRest, CopiesRest, CopiesHome, After, AfterRounds, Rounds, NoFutureRows, ItemsOf;
    hide RoundReady, MostHops, CloudInLibrary;
    RoundIsReady(cfg, s, hints, clouds, round);
    forall m | 0 <= m < |all|
      ensures |all[m].alternates| == 10
    {
      TenAlternates(cfg, hints, clouds, round, m);
    }
    i, j := CloudComesToRest(cfg.roots, s, round, rounds);
  }
}
