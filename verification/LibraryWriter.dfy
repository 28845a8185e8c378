/** The writer as the program runs it: loops over torrents, files, candidates and rows that
    update the stores in place, proved equal to the functions of module Library
    (internal/strm/writer.go). */
module LibraryWriter {
  import opened Wrappers
  import opened Text
  import opened Paths
  import opened Library
  import LibraryCopies
  import opened Snapshot

  class Writer {
    const cfg: Config
    var files: map<Key, Row>
    var copies: map<Key, Copy>
    var disk: map<string, string>
    var writes: nat
    var hints: Hints

    ghost function View(): State
      reads this
    {
      State(files, copies, disk, writes)
    }

    constructor (cfg: Config)
      ensures this.cfg == cfg && View() == State(map[], map[], map[], 0) && hints == map[]
    {
      this.cfg := cfg;
      files, copies, disk, writes, hints := map[], map[], map[], 0, map[];
    }

    // ----- the files table -----

    method StrmPathTakenByOther(k: Key, path: string) returns (taken: bool)
      ensures taken == !Free(files, k, path)
    {
      taken := exists k' :: k' in files && k' != k && files[k'].strmPath == path;
    }

    method UpsertFile(k: Key, row: Row) returns (created: bool)
      modifies `files
      ensures files == old(files)[k := row]
      ensures created == (k !in old(files))
    {
      created := k !in files;
      files := files[k := row];
    }

    // ----- .strm files -----

    method WriteStrm(path: string, url: string)
      modifies `disk, `writes
      ensures View() == Library.WriteStrm(old(View()), path, url)
    {
      if path in disk && disk[path] == url {
        return;
      }
      disk := disk[path := url];
      writes := writes + 1;
    }

    method RemoveStrmFile(path: string)
      modifies `disk
      ensures disk == old(disk) - {path}
    {
      disk := disk - {path};
    }

    method UniquePath(k: Key, base: string, version: string) returns (path: string)
      ensures path == Pick(files, k, WantedPath(base, version), Alternates(cfg, base, version, k))
    {
      var ext := Ext(base);
      var stem := TrimSuffix(base, ext);
      var want, numbered := base, stem + " - Version %d" + ext;
      if version != "" {
        want := stem + " - " + version + ext;
        numbered := stem + " - " + version + " (%d)" + ext;
      }
      PickFirst(files, k, want, Alternates(cfg, base, version, k));
      var taken := StrmPathTakenByOther(k, want);
      if !taken {
        return want;
      }
      var candidates: seq<string> := [];
      for n := 2 to 10
        invariant candidates == Numbered(cfg, numbered, n)
      {
        candidates := candidates + [cfg.sprintf(numbered, n)];
      }
      var tail := TrimSuffix(want, ext);
      var torrentTag, fileTag := k.provider + "-" + k.torrent, k.provider + "-" + k.torrent + "-" + k.file;
      candidates := candidates + [tail + " [" + torrentTag + "]" + ext, tail + " [" + fileTag + "]" + ext];
      path := FirstUnowned(k, want, candidates);
    }

    /** The second loop of uniquePath, entered when the wanted path is taken. */
    method FirstUnowned(k: Key, want: string, candidates: seq<string>) returns (path: string)
      requires !Free(files, k, want)
      ensures path == Pick(files, k, want, candidates)
    {
      hide Free, Pick;
      PickFirst(files, k, want, candidates);
      for i := 0 to |candidates|
        invariant forall j :: 0 <= j < i ==> !Free(files, k, candidates[j])
      {
        var taken := StrmPathTakenByOther(k, candidates[i]);
        if !taken {
          return candidates[i];
        }
      }
      path := want;
    }

    // ----- finished copies -----

    /** keepLocal: whether a finished copy stands in for the .strm at path. */
    method KeepLocal(ghost it: Item, k: Key, filePath: string, path: string) returns (kept: bool)
      requires it.key == k && it.filePath == filePath
      modifies `copies, `disk
      ensures kept == old(View()).HasCopy(k)
      ensures View() == if kept then KeepCopy(cfg.roots, old(View()), it, path) else old(View())
    {
      if k !in copies || !copies[k].HasCopy() {
        return false;
      }
      var c := copies[k];
      var root := CopyRoot(cfg.roots, c.localPath);
      if Within(cfg.roots.library, path) && root != "" && c.status.Done? {
        var wanted := CopyHome(cfg.roots, root, path, filePath);
        if c.localPath != wanted && c.localPath in disk {
          disk := (disk - {c.localPath})[wanted := disk[c.localPath]];
          copies := copies[k := c.(localPath := wanted)];
        }
      }
      disk := disk - {path};
      kept := true;
    }

    /** PromoteLocal followed by SetLocalDone; false when the checks or the rename fail. */
    method PromoteLocal(k: Key, tmp: string) returns (done: bool)
      modifies `copies, `disk
      ensures done == LibraryCopies.CanPromote(cfg.roots, old(View()), k, tmp)
      ensures done <==> k in files && Within(cfg.roots.library, files[k].strmPath) && tmp in old(disk)
      ensures View() == if done then LibraryCopies.Promote(cfg.roots, old(View()), k, tmp) else old(View())
    {
      if k !in files || !Within(cfg.roots.library, files[k].strmPath) {
        return false;
      }
      LocalPathWithin(cfg.roots.library, files[k].strmPath, files[k].filePath);
      var rel := Rel(cfg.roots.library, LocalPathFor(files[k].strmPath, files[k].filePath));
      var dest := Join(cfg.roots.downloads, rel);
      if tmp !in disk {
        return false;
      }
      disk := (disk - {tmp})[dest := disk[tmp]];
      disk := disk - {files[k].strmPath};
      copies := copies[k := Copy(Done, dest)];
      done := true;
    }

    /** Manager.Remove on a finished copy: DeleteLocal, then RemoveLocalCopy. */
    method RemoveLocalCopy(k: Key) returns (ok: bool)
      requires k in copies && copies[k].HasCopy()
      modifies `copies, `disk, `writes
      ensures ok == (CopyRoot(cfg.roots, old(copies[k].localPath)) != "")
      ensures View() == if ok then LibraryCopies.GiveUp(cfg.roots, old(View()), k, cfg.streamURL(k))
                        else old(View()).(copies := old(copies) - {k})
      ensures cfg.roots.library != "" && cfg.roots.downloads != "" ==>
                (ok <==> Within(cfg.roots.library, old(copies[k].localPath))
                         || Within(cfg.roots.downloads, old(copies[k].localPath)))
      ensures k !in copies && (ok && k in files ==> (files[k].strmPath, cfg.streamURL(k)) in disk.Items)
      ensures forall p :: p in disk && !(k in files && p == files[k].strmPath) ==>
                p in old(disk) && disk[p] == old(disk)[p] && (ok ==> p != old(copies[k].localPath))
    {
      var c := copies[k];
      copies := copies - {k};
      if CopyRoot(cfg.roots, c.localPath) == "" {
        return false;
      }
      disk := disk - {c.localPath};
      if k in files {
        WriteStrm(files[k].strmPath, cfg.streamURL(k));
      }
      ok := true;
    }

    // ----- a sync -----

    /** The body of the file loop, for a selected file. */
    method SyncFile(name: string, t: Torrent, f: File, hint: Option<Hint>, stamp: int, res: SyncResult)
      returns (res': SyncResult)
      modifies `files, `copies, `disk, `writes
      ensures var it := ItemOf(cfg, name, t, f, hint);
              View() == Step(cfg.roots, old(View()), it, stamp) && res' == Add(res, Report(old(View()), it))
    {
      ghost var it := ItemOf(cfg, name, t, f, hint);
      var k := Key(name, t.id, f.id);
      var p := cfg.layout(t, f, hint);
      var path := UniquePath(k, BasePath(cfg, p), p.version);
      assert path == Library.UniquePath(files, it);
      res' := res;
      if k in files && files[k].strmPath != "" && files[k].strmPath != path {
        RemoveStrmFile(files[k].strmPath);
        res' := res'.(updated := res'.updated + 1);
      }
      var created := UpsertFile(k, Row(t.name, f.path, f.size, path, stamp));
      var kept := KeepLocal(it, k, f.path, path);
      if kept {
        if created {
          res' := res'.(created := res'.created + 1);
        }
        return;
      }
      WriteStrm(path, cfg.streamURL(k));
      if created {
        res' := res'.(created := res'.created + 1);
      } else {
        res' := res'.(updated := res'.updated + 1);
      }
    }

    /** The ID of the largest video, for a torrent with a hint. */
    method PrimaryFile(ts: seq<File>) returns (id: string)
      ensures id == Primary(cfg, ts).1
    {
      var bestSize := -1;
      id := "";
      for i := 0 to |ts|
        invariant (bestSize, id) == Primary(cfg, ts[..i])
      {
        assert ts[..i + 1][..i] == ts[..i];
        if IsVideo(cfg, ts[i]) && ts[i].size > bestSize {
          bestSize, id := ts[i].size, ts[i].id;
        }
      }
      assert ts[..|ts|] == ts;
    }

    /** The size of the largest video, for a torrent without one. */
    method MaxVideoSize(ts: seq<File>) returns (size: int)
      ensures size == LargestVideo(cfg, ts)
    {
      size := 0;
      for i := 0 to |ts|
        invariant size == LargestVideo(cfg, ts[..i])
      {
        assert ts[..i + 1][..i] == ts[..i];
        if IsVideo(cfg, ts[i]) && ts[i].size > size {
          size := ts[i].size;
        }
      }
      assert ts[..|ts|] == ts;
    }

    /** The body of the file loop: the selection tests, then the file's step. */
    method VisitFile(name: string, t: Torrent, f: File, hint: Option<Hint>, primary: string, largest: int, stamp: int,
                     seen: set<string>, res: SyncResult, ghost start: State, ghost done: seq<Item>)
      returns (seen': set<string>, res': SyncResult)
      requires hint.Some? ==> primary == Primary(cfg, t.files).1
      requires hint.None? ==> largest == LargestVideo(cfg, t.files)
      requires Progress(cfg.roots, start, done, stamp, View(), seen, res)
      modifies `files, `copies, `disk, `writes
      ensures Progress(cfg.roots, start, done + ItemsOfFile(cfg, name, t, f, hint), stamp, View(), seen', res')
    {
      hide Progress, Step, Report, Alternates;
      seen', res' := seen, res;
      if !IsVideo(cfg, f)
         || (hint.Some? && f.id != primary)
         || (hint.None? && largest > 0 && f.size > 0 && 10 * f.size < 3 * largest) {
        assert ItemsOfFile(cfg, name, t, f, hint) == [];
        assert done + [] == done;
        return;
      }
      ghost var it := ItemOf(cfg, name, t, f, hint);
      assert ItemsOfFile(cfg, name, t, f, hint) == [it];
      ProgressLast(cfg.roots, start, done, it, stamp, View(), seen', res');
      seen' := seen' + {t.id + "/" + f.id};
      res' := SyncFile(name, t, f, hint, stamp, res');
    }

    /** SyncProvider's file loop. */
    method VisitFiles(name: string, t: Torrent, hint: Option<Hint>, primary: string, largest: int, stamp: int,
                      seen: set<string>, res: SyncResult, ghost start: State, ghost before: seq<Item>)
      returns (seen': set<string>, res': SyncResult)
      requires hint.Some? ==> primary == Primary(cfg, t.files).1
      requires hint.None? ==> largest == LargestVideo(cfg, t.files)
      requires Progress(cfg.roots, start, before, stamp, View(), seen, res)
      modifies `files, `copies, `disk, `writes
      ensures Progress(cfg.roots, start, before + FileItems(cfg, name, t, hint, |t.files|), stamp, View(), seen', res')
    {
      hide ItemsOfFile, Progress;
      seen', res' := seen, res;
      assert before + FileItems(cfg, name, t, hint, 0) == before;
      for j := 0 to |t.files|
        invariant Progress(cfg.roots, start, before + FileItems(cfg, name, t, hint, j), stamp, View(), seen', res')
      {
        ghost var done := before + FileItems(cfg, name, t, hint, j);
        FileItemsNext(cfg, name, t, hint, j, before);
        seen', res' := VisitFile(name, t, t.files[j], hint, primary, largest, stamp, seen', res', start, done);
      }
    }

    /** One ready torrent of a sync. */
    method SyncTorrent(name: string, t: Torrent, stamp: int, seen: set<string>, res: SyncResult,
                       ghost start: State, ghost before: seq<Item>)
      returns (seen': set<string>, res': SyncResult)
      requires t.status.Ready?
      requires Progress(cfg.roots, start, before, stamp, View(), seen, res)
      modifies `files, `copies, `disk, `writes
      ensures Progress(cfg.roots, start, before + TorrentItems(cfg, name, hints, t), stamp, View(), seen', res')
    {
      var hint := if (name, t.id) in hints then Some(hints[(name, t.id)]) else None;
      var primary, largest := "", 0;
      if hint.Some? {
        primary := PrimaryFile(t.files);
      } else {
        largest := MaxVideoSize(t.files);
      }
      seen', res' := VisitFiles(name, t, hint, primary, largest, stamp, seen, res, start, before);
    }

    method SyncProvider(name: string, torrents: seq<Torrent>, syncStart: int, stamp: int) returns (res: SyncResult)
      modifies `files, `copies, `disk, `writes
      ensures var items := SnapshotItems(cfg, name, hints, torrents);
              && View() == Sync(cfg.roots, old(View()), name, items, syncStart, stamp)
              && res == SyncReport(cfg.roots, old(View()), name, items, syncStart, stamp)
    {
      ghost var start := View();
      var seen: set<string> := {};
      res := SyncResult(0, 0, 0);
      for i := 0 to |torrents|
        invariant Progress(cfg.roots, start, SnapshotItems(cfg, name, hints, torrents[..i]), stamp, View(), seen, res)
      {
        ghost var before := SnapshotItems(cfg, name, hints, torrents[..i]);
        assert torrents[..i + 1][..i] == torrents[..i];
        assert SnapshotItems(cfg, name, hints, torrents[..i + 1])
            == before + TorrentItems(cfg, name, hints, torrents[i]);
        if torrents[i].status != Ready {
          assert before + [] == before;
          continue;
        }
        seen, res := SyncTorrent(name, torrents[i], stamp, seen, res, start, before);
      }
      assert torrents[..|torrents|] == torrents;
      var removed := Prune(name, seen, syncStart);
      res := res.(removed := removed);
    }

    /** The prune loop: rows in whatever order the query returns them. */
    method Prune(name: string, seen: set<string>, syncStart: int) returns (removed: nat)
      modifies `files, `disk
      ensures View() == RemoveRows(old(View()), Stale(old(files), name, seen, syncStart))
      ensures removed == |Stale(old(files), name, seen, syncStart)|
    {
      hide RemoveRows, Unwanted;
      var tracked := files;
      var todo := set k | k in files && k.provider == name;
      ghost var stale := Stale(files, name, seen, syncStart);
      ghost var gone: set<Key> := {};
      removed := 0;
      assert stale - todo == {};
      RemoveNone(View());
      while todo != {}
        invariant todo <= (set k | k in tracked && k.provider == name)
        invariant gone == stale - todo
        invariant View() == RemoveRows(old(View()), gone) && removed == |gone|
      {
        var k :| k in todo;
        todo := todo - {k};
        if !Unwanted(k, tracked[k], seen, syncStart) {
          continue;
        }
        RemoveOneMore(old(View()), gone, k);
        RemoveStrm(k, tracked[k]);
        gone := gone + {k};
        removed := removed + 1;
      }
      assert stale - todo == stale;
    }

    // ----- removals -----

    /** removeStrm, for a row as the caller listed it. */
    method RemoveStrm(k: Key, row: Row)
      modifies `files, `disk
      ensures files == old(files) - {k}
      ensures disk == if row.strmPath != "" then old(disk) - {row.strmPath} else old(disk)
    {
      if row.strmPath != "" {
        RemoveStrmFile(row.strmPath);
      }
      files := files - {k};
    }

    method RemoveTorrent(name: string, torrent: string)
      modifies `files, `disk
      ensures View() == RemoveRows(old(View()), TorrentRows(old(files), name, torrent))
      ensures forall k :: k in files <==> k in old(files) && !(k.provider == name && k.torrent == torrent)
      ensures forall k :: k in files ==> files[k] == old(files)[k]
    {
      var tracked := files;
      var todo := set k | k in files && k.provider == name;
      ghost var gone: set<Key> := {};
      while todo != {}
        invariant todo <= (set k | k in tracked && k.provider == name)
        invariant gone == TorrentRows(old(files), name, torrent) - todo
        invariant View() == RemoveRows(old(View()), gone)
      {
        var k :| k in todo;
        todo := todo - {k};
        if k.torrent != torrent {
          continue;
        }
        RemoveStrm(k, tracked[k]);
        RemoveOneMore(old(View()), gone, k);
        gone := gone + {k};
      }
      assert gone == TorrentRows(old(files), name, torrent);
    }

    method WipeLibrary() returns (removed: nat)
      modifies `files, `disk
      ensures View() == RemoveRows(old(View()), old(files).Keys)
      ensures removed == |old(files)| && files == map[]
    {
      var tracked := files;
      var todo := tracked.Keys;
      ghost var gone: set<Key> := {};
      removed := 0;
      while todo != {}
        invariant todo <= tracked.Keys
        invariant gone == tracked.Keys - todo
        invariant View() == RemoveRows(old(View()), gone) && removed == |gone|
      {
        var k :| k in todo;
        todo := todo - {k};
        RemoveStrm(k, tracked[k]);
        RemoveOneMore(old(View()), gone, k);
        gone := gone + {k};
        removed := removed + 1;
      }
      assert gone == tracked.Keys;
    }
  }

  // ----- the loops' bookkeeping -----

  /** Pick is determined by which paths are taken. */
  lemma PickFirst(rows: map<Key, Row>, k: Key, want: string, alternates: seq<string>)
    ensures Free(rows, k, want) ==> Pick(rows, k, want, alternates) == want
    ensures !Free(rows, k, want) ==>
              forall i :: 0 <= i < |alternates| && Free(rows, k, alternates[i])
                          && (forall j :: 0 <= j < i ==> !Free(rows, k, alternates[j]))
                ==> Pick(rows, k, want, alternates) == alternates[i]
    ensures (!Free(rows, k, want) && forall j :: 0 <= j < |alternates| ==> !Free(rows, k, alternates[j]))
            ==> Pick(rows, k, want, alternates) == want
  {
    hide Free;
    var paths := [want] + alternates;
    var m := FirstFree(rows, k, paths);
    assert paths[0] == want && forall j :: 0 <= j < |alternates| ==> paths[j + 1] == alternates[j];
    if !Free(rows, k, want) {
      forall i | 0 <= i < |alternates| && Free(rows, k, alternates[i])
          && (forall j :: 0 <= j < i ==> !Free(rows, k, alternates[j]))
        ensures m == i + 1
      {
        FirstOfRest(rows, k, paths, alternates, i);
      }
    }
  }

  lemma FirstOfRest(rows: map<Key, Row>, k: Key, paths: seq<string>, alternates: seq<string>, i: nat)
    requires |paths| == |alternates| + 1 && forall j :: 0 <= j < |alternates| ==> paths[j + 1] == alternates[j]
    requires i < |alternates| && Free(rows, k, alternates[i]) && !Free(rows, k, paths[0])
    requires forall j :: 0 <= j < i ==> !Free(rows, k, alternates[j])
    ensures FirstFree(rows, k, paths) == i + 1
  {
    hide Free;
    var m := FirstFree(rows, k, paths);
    assert Free(rows, k, paths[i + 1]);
    assert 0 < m <= i + 1;
    assert Free(rows, k, paths[m]);
    assert paths[m] == alternates[m - 1];
  }

  lemma FileItemsNext(cfg: Config, name: string, t: Torrent, hint: Option<Hint>, j: nat, before: seq<Item>)
    requires j < |t.files|
    ensures before + FileItems(cfg, name, t, hint, j + 1) ==
            before + FileItems(cfg, name, t, hint, j) + ItemsOfFile(cfg, name, t, t.files[j], hint)
  {
    hide ItemsOfFile;
  }

  /** Where the loops of a sync stand after a list of items. */
  ghost predicate Progress(r: Roots, start: State, items: seq<Item>, stamp: int, s: State, seen: set<string>,
      res: SyncResult)
  {
    s == Run(r, start, items, stamp) && res == RunReport(r, start, items, stamp) && seen == Seen(items)
  }

  lemma ProgressLast(r: Roots, start: State, items: seq<Item>, it: Item, stamp: int, s: State, seen: set<string>,
      res: SyncResult)
    requires Progress(r, start, items, stamp, s, seen, res)
    ensures Progress(r, start, items + [it], stamp, Step(r, s, it, stamp), seen + {SeenKey(it.key)},
        Add(res, Report(s, it)))
  {
    RunLast(r, start, items, it, stamp);
    SeenLast(items, it);
  }

  lemma RunLast(r: Roots, s: State, items: seq<Item>, it: Item, stamp: int)
    ensures Run(r, s, items + [it], stamp) == Step(r, Run(r, s, items, stamp), it, stamp)
    ensures RunReport(r, s, items + [it], stamp) ==
            Add(RunReport(r, s, items, stamp), Report(Run(r, s, items, stamp), it))
  {
    assert (items + [it])[..|items|] == items;
  }

  lemma SeenLast(items: seq<Item>, it: Item)
    ensures Seen(items + [it]) == Seen(items) + {SeenKey(it.key)}
  {
    var all := items + [it];
    forall x | x in Seen(items) + {SeenKey(it.key)}
      ensures x in Seen(all)
    {
      if x in Seen(items) {
        var i :| 0 <= i < |items| && x == SeenKey(items[i].key);
        assert x == SeenKey(all[i].key);
      } else {
        assert x == SeenKey(all[|items|].key);
      }
    }
  }

  lemma RemoveNone(s: State)
    ensures RemoveRows(s, {}) == s
  {
    assert s.disk - {} == s.disk;
  }

  lemma RemoveOneMore(s: State, gone: set<Key>, k: Key)
    requires gone <= s.rows.Keys && k in s.rows && k !in gone
    ensures var one, path := RemoveRows(s, gone), s.rows[k].strmPath;
            RemoveRows(s, gone + {k})
            == one.(rows := one.rows - {k}, disk := if path != "" then one.disk - {path} else one.disk)
  {
    var one, two, path := RemoveRows(s, gone), RemoveRows(s, gone + {k}), s.rows[k].strmPath;
    assert two.rows == one.rows - {k};
    var paths1 := set g | g in gone && s.rows[g].strmPath != "" :: s.rows[g].strmPath;
    var paths2 := set g | g in gone + {k} && s.rows[g].strmPath != "" :: s.rows[g].strmPath;
    assert paths2 == if path != "" then paths1 + {path} else paths1;
  }
}
