/** The library's three stores (the files table, the local_files table and the disk) and what
    one sync, prune, torrent removal or wipe does to them (internal/strm/writer.go). */
module Library {
  import opened Paths

  datatype Key = Key(provider: string, torrent: string, file: string)

  /** One row of the files table. updatedAt is in whole seconds. */
  datatype Row = Row(torrentName: string, filePath: string, size: int, strmPath: string, updatedAt: int)

  datatype Status = Queued | Downloading | Done | Failed | Moving

  /** The part of a local_files row a sync looks at. */
  datatype Copy = Copy(status: Status, localPath: string) {
    predicate HasCopy() {
      status.Done? || status.Moving?
    }
  }

  /** disk maps a path to the file's content; writes counts calls of os.WriteFile. */
  datatype State = State(rows: map<Key, Row>, copies: map<Key, Copy>, disk: map<string, string>, writes: nat) {
    predicate HasCopy(k: Key) {
      k in copies && copies[k].HasCopy()
    }
  }

  /** A file that belongs in the library: the path it wants, the alternates in order of
      preference, and what its .strm holds. */
  datatype Item = Item(key: Key, torrentName: string, filePath: string, size: int,
                       want: string, alternates: seq<string>, url: string)

  function Candidates(it: Item): seq<string> {
    [it.want] + it.alternates
  }

  // ----- choosing a path -----

  /** pathIsFree: no other row owns the path. */
  predicate Free(rows: map<Key, Row>, k: Key, path: string) {
    forall k' :: k' in rows && k' != k ==> rows[k'].strmPath != path
  }

  /** Index of the first free path, or the number of paths when none is free. */
  function FirstFree(rows: map<Key, Row>, k: Key, paths: seq<string>): (i: nat)
    ensures i <= |paths|
    ensures i < |paths| ==> Free(rows, k, paths[i])
    ensures forall j :: 0 <= j < i ==> !Free(rows, k, paths[j])
  {
    if paths == [] || Free(rows, k, paths[0]) then 0 else 1 + FirstFree(rows, k, paths[1..])
  }

  predicate Exhausted(rows: map<Key, Row>, it: Item) {
    FirstFree(rows, it.key, Candidates(it)) == |Candidates(it)|
  }

  /** The first free path, or the wanted one when there is none. */
  function Pick(rows: map<Key, Row>, k: Key, want: string, alternates: seq<string>): string {
    var paths := [want] + alternates;
    var i := FirstFree(rows, k, paths);
    if i < |paths| then paths[i] else want
  }

  /** uniquePath. */
  function UniquePath(rows: map<Key, Row>, it: Item): string {
    Pick(rows, it.key, it.want, it.alternates)
  }

  // ----- one file of a sync -----

  predicate Relocates(s: State, it: Item) {
    it.key in s.rows && s.rows[it.key].strmPath != "" && s.rows[it.key].strmPath != UniquePath(s.rows, it)
  }

  function RemoveOld(s: State, it: Item): State {
    if Relocates(s, it) then s.(disk := s.disk - {s.rows[it.key].strmPath}) else s
  }

  /** UpsertFile, for an item placed at path. */
  function Upsert(s: State, it: Item, path: string, stamp: int): State {
    s.(rows := s.rows[it.key := Row(it.torrentName, it.filePath, it.size, path, stamp)])
  }

  /** writeStrm: leaves a file that already holds the URL alone. */
  function WriteStrm(s: State, path: string, url: string): State {
    if path in s.disk && s.disk[path] == url then s
    else s.(disk := s.disk[path := url], writes := s.writes + 1)
  }

  /** Where keepLocal wants the finished copy of an item placed at path; the place it already
      has when it must not follow the layout. */
  function CopyWanted(r: Roots, c: Copy, path: string, srcPath: string): string {
    var root := CopyRoot(r, c.localPath);
    if Within(r.library, path) && root != "" && c.status.Done? then CopyHome(r, root, path, srcPath)
    else c.localPath
  }

  /** keepLocal for a key with a finished copy: rename the copy when the layout moved it, then
      drop the .strm it replaces. A missing source file fails the rename and changes nothing. */
  function KeepCopy(r: Roots, s: State, it: Item, path: string): State
    requires s.HasCopy(it.key)
  {
    var c := s.copies[it.key];
    var wanted := CopyWanted(r, c, path, it.filePath);
    var moved :=
      if wanted != c.localPath && c.localPath in s.disk then
        s.(disk := (s.disk - {c.localPath})[wanted := s.disk[c.localPath]],
           copies := s.copies[it.key := c.(localPath := wanted)])
      else s;
    moved.(disk := moved.disk - {path})
  }

  /** The body of SyncProvider's file loop for one selected file. */
  function Step(r: Roots, s: State, it: Item, stamp: int): State {
    var path := UniquePath(s.rows, it);
    var placed := Upsert(RemoveOld(s, it), it, path, stamp);
    if s.HasCopy(it.key) then KeepCopy(r, placed, it, path) else WriteStrm(placed, path, it.url)
  }

  // ----- a whole sync -----

  function Run(r: Roots, s: State, items: seq<Item>, stamp: int): State {
    if items == [] then s
    else Step(r, Run(r, s, items[..|items| - 1], stamp), items[|items| - 1], stamp)
  }

  /** The text SyncProvider keeps in its "seen" set. */
  function SeenKey(k: Key): string {
    k.torrent + "/" + k.file
  }

  function Seen(items: seq<Item>): set<string> {
    set i | 0 <= i < |items| :: SeenKey(items[i].key)
  }

  const NANOS := 1_000_000_000

  /** The rows the prune loop removes: this provider's, not seen, and not touched after the
      sync began (whole seconds against nanoseconds). */
  function Stale(rows: map<Key, Row>, name: string, seen: set<string>, syncStart: int): set<Key> {
    set k | k in rows && k.provider == name && Unwanted(k, rows[k], seen, syncStart)
  }

  predicate Unwanted(k: Key, row: Row, seen: set<string>, syncStart: int) {
    SeenKey(k) !in seen && row.updatedAt * NANOS <= syncStart
  }

  /** removeStrm for a set of rows. */
  function RemoveRows(s: State, doomed: set<Key>): State
    requires doomed <= s.rows.Keys
  {
    s.(rows := s.rows - doomed,
       disk := s.disk - (set k | k in doomed && s.rows[k].strmPath != "" :: s.rows[k].strmPath))
  }

  function Sync(r: Roots, s: State, name: string, items: seq<Item>, syncStart: int, stamp: int): State {
    var ran := Run(r, s, items, stamp);
    RemoveRows(ran, Stale(ran.rows, name, Seen(items), syncStart))
  }

  function TorrentRows(rows: map<Key, Row>, name: string, torrent: string): set<Key> {
    set k | k in rows && k.provider == name && k.torrent == torrent
  }

  // ----- what a sync reports -----

  datatype SyncResult = SyncResult(created: nat, updated: nat, removed: nat)

  /** What one file adds to the report: a relocation counts as an update, and so does every
      .strm that was not new. */
  function Report(s: State, it: Item): SyncResult {
    var isNew := it.key !in s.rows;
    SyncResult(if isNew then 1 else 0,
               (if Relocates(s, it) then 1 else 0) + (if isNew || s.HasCopy(it.key) then 0 else 1),
               0)
  }

  function Add(a: SyncResult, b: SyncResult): SyncResult {
    SyncResult(a.created + b.created, a.updated + b.updated, a.removed + b.removed)
  }

  function RunReport(r: Roots, s: State, items: seq<Item>, stamp: int): SyncResult {
    if items == [] then SyncResult(0, 0, 0)
    else
      var front := items[..|items| - 1];
      Add(RunReport(r, s, front, stamp), Report(Run(r, s, front, stamp), items[|items| - 1]))
  }

  function SyncReport(r: Roots, s: State, name: string, items: seq<Item>, syncStart: int, stamp: int): SyncResult {
    var ran := Run(r, s, items, stamp);
    RunReport(r, s, items, stamp).(removed := |Stale(ran.rows, name, Seen(items), syncStart)|)
  }

  // ----- runs -----

  datatype Event =
    | SyncEvent(name: string, items: seq<Item>, syncStart: int, stamp: int)
    | RemoveTorrent(name: string, torrent: string)
    | Wipe

  function Apply(r: Roots, s: State, e: Event): State {
    match e
    case SyncEvent(name, items, syncStart, stamp) => Sync(r, s, name, items, syncStart, stamp)
    case RemoveTorrent(name, torrent) => RemoveRows(s, TorrentRows(s.rows, name, torrent))
    case Wipe => RemoveRows(s, s.rows.Keys)
  }

  function After(r: Roots, s: State, events: seq<Event>): State {
    if events == [] then s
    else Apply(r, After(r, s, events[..|events| - 1]), events[|events| - 1])
  }
}
