/** From a provider's cloud snapshot to library items: which files count, and the candidate
    paths of each (internal/strm/writer.go). */
module Snapshot {
  import opened Wrappers
  import opened Text
  import opened Paths
  import opened Library

  datatype TorrentStatus = Ready | NotReady

  datatype File = File(id: string, path: string, size: int)

  datatype Torrent = Torrent(id: string, name: string, status: TorrentStatus, files: seq<File>)

  datatype Hint = Hint(kind: string, title: string, year: int, season: int, episode: int)

  /** A library-relative .strm path and the version label, "" for none. */
  datatype Placement = Placement(relPath: string, version: string)

  /** isMedia is the name half of isVideo (extras folders and suffixes, extension list); layout
      is the naming of one file; sprintf is fmt.Sprintf with one integer argument. */
  datatype Config = Config(roots: Roots,
                           isMedia: string -> bool, minFileMB: int, maxFileMB: int,
                           layout: (Torrent, File, Option<Hint>) -> Placement,
                           streamURL: Key -> string,
                           sprintf: (string, nat) -> string)

  const MB := 1024 * 1024

  predicate IsVideo(cfg: Config, f: File) {
    && cfg.isMedia(f.path)
    && !(cfg.minFileMB > 0 && f.size > 0 && f.size < cfg.minFileMB * MB)
    && !(cfg.maxFileMB > 0 && f.size > 0 && f.size > cfg.maxFileMB * MB)
  }

  // ----- which files -----

  /** The size and ID of the first largest video; (-1, "") when there is none. */
  function Primary(cfg: Config, files: seq<File>): (int, string) {
    if files == [] then (-1, "")
    else
      var best := Primary(cfg, files[..|files| - 1]);
      var f := files[|files| - 1];
      if IsVideo(cfg, f) && f.size > best.0 then (f.size, f.id) else best
  }

  function LargestVideo(cfg: Config, files: seq<File>): int {
    if files == [] then 0
    else
      var best := LargestVideo(cfg, files[..|files| - 1]);
      var f := files[|files| - 1];
      if IsVideo(cfg, f) && f.size > best then f.size else best
  }

  /** The tests at the head of SyncProvider's file loop, with the size ratio 0.3 as 3/10. */
  predicate Selected(cfg: Config, t: Torrent, hint: Option<Hint>, f: File) {
    && IsVideo(cfg, f)
    && (hint.Some? ==> f.id == Primary(cfg, t.files).1)
    && (hint.None? ==> !(LargestVideo(cfg, t.files) > 0 && f.size > 0 && 10 * f.size < 3 * LargestVideo(cfg, t.files)))
  }

  lemma {:induction false} PrimaryIsLargest(cfg: Config, files: seq<File>)
    requires forall i :: 0 <= i < |files| ==> files[i].size >= 0
    ensures forall i :: 0 <= i < |files| && IsVideo(cfg, files[i]) ==> files[i].size <= Primary(cfg, files).0
    ensures Primary(cfg, files).0 >= 0 ==>
              exists i :: 0 <= i < |files| && IsVideo(cfg, files[i])
                  && (files[i].size, files[i].id) == Primary(cfg, files)
                          && forall j :: 0 <= j < i && IsVideo(cfg, files[j]) ==> files[j].size < files[i].size
    ensures Primary(cfg, files).0 >= -1
  {
    if files == [] {
    } else {
      var front, last := files[..|files| - 1], files[|files| - 1];
      assert forall i :: 0 <= i < |front| ==> front[i] == files[i];
      PrimaryIsLargest(cfg, front);
      if IsVideo(cfg, last) && last.size > Primary(cfg, front).0 {
        assert files[|files| - 1] == last;
      } else if Primary(cfg, files).0 >= 0 {
        var i :| 0 <= i < |front| && IsVideo(cfg, front[i]) && (front[i].size, front[i].id) == Primary(cfg, front)
                 && forall j :: 0 <= j < i && IsVideo(cfg, front[j]) ==> front[j].size < front[i].size;
        assert files[i] == front[i];
      }
    }
  }

  lemma {:induction false} LargestVideoBounds(cfg: Config, files: seq<File>)
    ensures LargestVideo(cfg, files) >= 0
    ensures forall i :: 0 <= i < |files| && IsVideo(cfg, files[i]) ==> files[i].size <= LargestVideo(cfg, files)
    ensures LargestVideo(cfg, files) > 0 ==>
              exists i :: 0 <= i < |files| && IsVideo(cfg, files[i]) && files[i].size == LargestVideo(cfg, files)
  {
    if files == [] {
    } else {
      var front := files[..|files| - 1];
      LargestVideoBounds(cfg, front);
      assert forall i :: 0 <= i < |front| ==> front[i] == files[i];
      if LargestVideo(cfg, files) > 0 && LargestVideo(cfg, files) == LargestVideo(cfg, front) {
        var i :| 0 <= i < |front| && IsVideo(cfg, front[i]) && front[i].size == LargestVideo(cfg, front);
        assert files[i] == front[i];
      }
    }
  }

  /** With a hint, a torrent with distinct file IDs and known sizes contributes exactly its first
      largest video. */
  lemma HintedTorrentGivesLargest(cfg: Config, t: Torrent, hint: Hint, i: nat)
    requires i < |t.files| && forall j :: 0 <= j < |t.files| ==> t.files[j].size >= 0
    requires forall j, k :: 0 <= j < k < |t.files| ==> t.files[j].id != t.files[k].id
    ensures Selected(cfg, t, Some(hint), t.files[i]) <==>
            IsVideo(cfg, t.files[i])
            && (forall j :: 0 <= j < |t.files| && IsVideo(cfg, t.files[j]) ==> t.files[j].size <= t.files[i].size)
            && (forall j :: 0 <= j < i && IsVideo(cfg, t.files[j]) ==> t.files[j].size < t.files[i].size)
  {
    PrimaryIsLargest(cfg, t.files);
    if IsVideo(cfg, t.files[i]) {
      var p :| 0 <= p < |t.files| && IsVideo(cfg, t.files[p])
               && (t.files[p].size, t.files[p].id) == Primary(cfg, t.files)
               && forall j :: 0 <= j < p && IsVideo(cfg, t.files[j]) ==> t.files[j].size < t.files[p].size;
      assert t.files[i].id == t.files[p].id <==> i == p;
    }
  }

  /** Without a hint, a torrent contributes its videos of unknown size and those of at least
      three tenths of every video in it. */
  lemma UnhintedTorrentGivesFeatures(cfg: Config, t: Torrent, f: File)
    requires f in t.files
    ensures Selected(cfg, t, None, f) <==>
            IsVideo(cfg, f)
            && (f.size <= 0 || forall g :: g in t.files && IsVideo(cfg, g) ==> 10 * f.size >= 3 * g.size)
  {
    LargestVideoBounds(cfg, t.files);
    forall g | g in t.files && IsVideo(cfg, g)
      ensures g.size <= LargestVideo(cfg, t.files)
    {
      var i :| 0 <= i < |t.files| && t.files[i] == g;
    }
  }

  // ----- which paths -----

  function WantedPath(base: string, version: string): string {
    if version == "" then base else TrimSuffix(base, Ext(base)) + " - " + version + Ext(base)
  }

  /** The format string of the numbered alternates. */
  function NumberedPattern(base: string, version: string): string {
    var stem := TrimSuffix(base, Ext(base));
    if version == "" then stem + " - Version %d" + Ext(base)
    else stem + " - " + version + " (%d)" + Ext(base)
  }

  function TorrentTag(k: Key): string {
    k.provider + "-" + k.torrent
  }

  function FileTag(k: Key): string {
    k.provider + "-" + k.torrent + "-" + k.file
  }

  function TaggedPath(base: string, version: string, tag: string): string {
    TrimSuffix(WantedPath(base, version), Ext(base)) + " [" + tag + "]" + Ext(base)
  }

  /** The alternates numbered 2 to n - 1. */
  function Numbered(cfg: Config, pattern: string, n: nat): (a: seq<string>)
    requires n >= 2
    ensures |a| == n - 2
    ensures forall i :: 0 <= i < |a| ==> a[i] == cfg.sprintf(pattern, i + 2)
  {
    if n == 2 then [] else Numbered(cfg, pattern, n - 1) + [cfg.sprintf(pattern, n - 1)]
  }

  /** uniquePath's alternates, in its order. */
  function Alternates(cfg: Config, base: string, version: string, k: Key): (a: seq<string>)
    ensures |a| == 10
  {
    Numbered(cfg, NumberedPattern(base, version), 10)
    + [TaggedPath(base, version, TorrentTag(k)), TaggedPath(base, version, FileTag(k))]
  }

  function BasePath(cfg: Config, p: Placement): string {
    Join(cfg.roots.library, p.relPath)
  }

  function ItemOf(cfg: Config, name: string, t: Torrent, f: File, hint: Option<Hint>): Item {
    var k := Key(name, t.id, f.id);
    var p := cfg.layout(t, f, hint);
    var base := BasePath(cfg, p);
    Item(k, t.name, f.path, f.size, WantedPath(base, p.version), Alternates(cfg, base, p.version, k), cfg.streamURL(k))
  }

  // ----- the items of a snapshot, in loop order -----

  type Hints = map<(string, string), Hint>

  function HintFor(hints: Hints, name: string, t: Torrent): Option<Hint> {
    if (name, t.id) in hints then Some(hints[(name, t.id)]) else None
  }

  function ItemsOfFile(cfg: Config, name: string, t: Torrent, f: File, hint: Option<Hint>): seq<Item> {
    if Selected(cfg, t, hint, f) then [ItemOf(cfg, name, t, f, hint)] else []
  }

  /** Items of the first n files of a torrent. */
  function FileItems(cfg: Config, name: string, t: Torrent, hint: Option<Hint>, n: nat): seq<Item>
    requires n <= |t.files|
  {
    if n == 0 then []
    else
      FileItems(cfg, name, t, hint, n - 1) + ItemsOfFile(cfg, name, t, t.files[n - 1], hint)
  }

  function TorrentItems(cfg: Config, name: string, hints: Hints, t: Torrent): seq<Item> {
    if t.status.Ready? then FileItems(cfg, name, t, HintFor(hints, name, t), |t.files|) else []
  }

  function SnapshotItems(cfg: Config, name: string, hints: Hints, torrents: seq<Torrent>): seq<Item> {
    if torrents == [] then []
    else SnapshotItems(cfg, name, hints, torrents[..|torrents| - 1])
         + TorrentItems(cfg, name, hints, torrents[|torrents| - 1])
  }

  /** it belongs to a file of a ready torrent of the snapshot. */
  ghost predicate FromSnapshot(cfg: Config, name: string, hints: Hints, torrents: seq<Torrent>, it: Item) {
    exists t :: t in torrents && t.status.Ready? && FromFiles(cfg, name, t, HintFor(hints, name, t), |t.files|, it)
  }

  ghost predicate FromFiles(cfg: Config, name: string, t: Torrent, hint: Option<Hint>, n: nat, it: Item)
    requires n <= |t.files|
  {
    exists j :: 0 <= j < n && it in ItemsOfFile(cfg, name, t, t.files[j], hint)
  }

  lemma {:induction false} FileItemsFrom(cfg: Config, name: string, t: Torrent, hint: Option<Hint>, n: nat, it: Item)
    requires n <= |t.files|
    ensures it in FileItems(cfg, name, t, hint, n) <==> FromFiles(cfg, name, t, hint, n, it)
  {
    hide ItemsOfFile;
    if n == 0 {
    } else {
      FileItemsFrom(cfg, name, t, hint, n - 1, it);
      FromFilesLast(cfg, name, t, hint, n, it);
      InConcat(FileItems(cfg, name, t, hint, n - 1), ItemsOfFile(cfg, name, t, t.files[n - 1], hint), it);
    }
  }

  lemma InConcat<T>(a: seq<T>, b: seq<T>, x: T)
    ensures x in a + b <==> x in a || x in b
  {
  }

  lemma FromFilesLast(cfg: Config, name: string, t: Torrent, hint: Option<Hint>, n: nat, it: Item)
    requires 0 < n <= |t.files|
    ensures FromFiles(cfg, name, t, hint, n, it) <==>
            FromFiles(cfg, name, t, hint, n - 1, it) || it in ItemsOfFile(cfg, name, t, t.files[n - 1], hint)
  {
  }

  /** The items of a snapshot are exactly those of the selected files of its ready torrents. */
  lemma {:induction false} SnapshotItemsFrom(cfg: Config, name: string, hints: Hints, torrents: seq<Torrent>, it: Item)
    ensures it in SnapshotItems(cfg, name, hints, torrents) <==> FromSnapshot(cfg, name, hints, torrents, it)
  {
    if torrents == [] {
    } else {
      hide FileItems, FromFiles;
      var front, last := torrents[..|torrents| - 1], torrents[|torrents| - 1];
      SnapshotItemsFrom(cfg, name, hints, front, it);
      FileItemsFrom(cfg, name, last, HintFor(hints, name, last), |last.files|, it);
      InConcat(SnapshotItems(cfg, name, hints, front), TorrentItems(cfg, name, hints, last), it);
      FromSnapshotLast(cfg, name, hints, torrents, it);
    }
  }

  lemma FromSnapshotLast(cfg: Config, name: string, hints: Hints, torrents: seq<Torrent>, it: Item)
    requires torrents != []
    ensures var front, last := torrents[..|torrents| - 1], torrents[|torrents| - 1];
            FromSnapshot(cfg, name, hints, torrents, it) <==>
            FromSnapshot(cfg, name, hints, front, it)
            || (last.status.Ready? && FromFiles(cfg, name, last, HintFor(hints, name, last), |last.files|, it))
  {
    hide FromFiles, HintFor;
    var front, last := torrents[..|torrents| - 1], torrents[|torrents| - 1];
    assert forall t :: t in torrents <==> t in front || t == last by {
      assert torrents == front + [last];
    }
  }
}
