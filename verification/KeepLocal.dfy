/** One "keep local" entry under any number of concurrent downloads, Moves and Removes, sync
    relocations, crashes and restarts, one SQL statement, rename, delete or write per step
    (internal/download/download.go, internal/strm/local.go, internal/store/local.go). */
module KeepLocal {
  import opened Wrappers
  import opened Library
  import opened Paths

  type Content = seq<int>

  /** The entry's local_files row; path counts only while it has a copy. */
  datatype Entry = Entry(status: Status, path: string) {
    predicate HasCopy() {
      status.Done? || status.Moving?
    }
  }

  /** Where a Move stands. */
  datatype MovePhase =
    | Snapped                                        // has read the row, not started
    | Started                                        // row set to moving, waiting for its turn
    | Opened(src: Content)                           // source opened
    | Clear(src: Content)                            // space checked, destination absent
    | Copying(src: Content, done: nat, linked: bool) // linked: its staging file still has its name
    | Renamed                                        // copy renamed to the destination
    | Cleanup(stale: string)                         // row settled; this file goes next
    | Failing                                        // error path: the staging file goes next
    | Ending                                         // error path: EndMove goes next

  /** Where a worker stands with the download it has claimed. */
  datatype WorkPhase =
    | Ready                                          // about to look at the .part file
    | Asking(offset: nat)                            // request for the rest sent
    | Writing(pos: nat, linked: bool)                // appending to the .part file
    | Fetched                                        // an attempt succeeded
    | Sized                                          // size checked
    | Alive                                          // row still there
    | Promoted(dest: string)                         // renamed into place
    | GivingUp                                       // SetLocalFailed goes next
    | Quitting                                       // told to stop, and has noticed

  /** Where a Remove stands. */
  datatype RemovePhase = Seen | Forgotten | Cancelled | Unstaged

  /** Whether a download has been told to stop, by a Remove or by the program's end. */
  datatype Notice = Running | Removed | Stopping

  datatype Proc =
    | Mover(src: string, dest: string, mphase: MovePhase, cancelled: bool)
    | Worker(wphase: WorkPhase, notice: Notice)
    | Remover(snapshot: Entry, rphase: RemovePhase)

  /** part is the staging file that downloads and Moves share. */
  datatype World = World(row: Option<Entry>, disk: map<string, Content>, part: Option<Content>, procs: map<nat, Proc>)

  /** The file in the cloud, and whether its size is on record. */
  datatype Remote = Remote(content: Content, sizeKnown: bool)

  /** What the next step of a process meets. */
  datatype Choice =
    | Plain
    | Upto(n: nat)              // a copy or transfer gets this far
    | PartialContent            // 206
    | Whole                     // 200
    | Unsatisfiable             // 416
    | To(path: string)          // where the file's library row puts the copy, under the download folder

  datatype Event =
    | Enqueue
    | Claim(p: nat)
    | BeginMove(p: nat)
    | BeginRemove(p: nat)
    | Go(p: nat, c: Choice)
    | Err(p: nat, retry: bool)  // the next step of p fails; a download may try again
    | Cancel(p: nat, q: nat)    // remover p cancels process q
    | Relocate(to: string)      // a sync follows a layout change
    | Crash                     // every process dies; the restart resets the row
    | Shutdown                  // every process is told to stop; what is left of it ends in the crash

  // ----- which steps are possible -----

  predicate CanMove(m: Proc, c: Choice)
    requires m.Mover?
  {
    match m.mphase
    case Copying(src, done, _) =>
      if done == |src| then c.Plain? else c.Upto? && !m.cancelled && done < c.n <= |src|
    case _ => c.Plain?
  }

  predicate CanWork(roots: Roots, r: Remote, m: Proc, c: Choice)
    requires m.Worker?
  {
    match m.wphase
    case Asking(offset) => c.Whole? || c.Unsatisfiable? || (c.PartialContent? && 0 < offset < |r.content|)
    case Writing(pos, _) =>
      if pos >= |r.content| then c.Plain? else c.Upto? && m.notice.Running? && pos < c.n <= |r.content|
    case Alive => c.To? && Within(roots.downloads, c.path)
    case _ => c.Plain?
  }

  /** The points where a process can meet an error. */
  predicate CanFail(m: Proc) {
    match m
    case Mover(_, _, Started, cancelled) => cancelled
    case Mover(_, _, phase, _) => phase.Opened? || phase.Clear? || phase.Copying? || phase.Renamed?
    case Worker(phase, _) => phase.Ready? || phase.Asking? || phase.Writing? || phase.Alive? || phase.Promoted?
    case Remover(_, _) => false
  }

  predicate CanTake(roots: Roots, r: Remote, w: World, e: Event) {
    match e
    case Enqueue => true
    case Claim(p) => p !in w.procs && w.row.Some? && w.row.value.status.Queued?
    case BeginMove(p) =>
      p !in w.procs && w.row.Some? && w.row.value.status.Done? && MoveTarget(roots, w.row.value.path) != ""
    case BeginRemove(p) => p !in w.procs && w.row.Some?
    case Go(p, c) =>
      && p in w.procs
      && (match w.procs[p]
          case Mover(_, _, _, _) => CanMove(w.procs[p], c)
          case Worker(_, _) => CanWork(roots, r, w.procs[p], c)
          case Remover(_, _) => c.Plain?)
    case Err(p, _) => p in w.procs && CanFail(w.procs[p])
    case Cancel(p, q) => p in w.procs && w.procs[p].Remover? && w.procs[p].rphase.Forgotten? && q in w.procs
    case Relocate(to) =>
      && w.row.Some? && w.row.value.status.Done? && w.row.value.path in w.disk
      && (Within(roots.downloads, w.row.value.path) ==> Within(roots.downloads, to))
    case Crash => true
    case Shutdown => true
  }

  // ----- what they do -----

  function Put(w: World, p: nat, m: Proc): World {
    w.(procs := w.procs[p := m])
  }

  function Quit(w: World, p: nat): World {
    w.(procs := w.procs - {p})
  }

  /** The staging file loses its name: whoever writes it keeps writing to nowhere. */
  function Unstage(w: World): World {
    w.(part := None, procs := map p | p in w.procs :: Unlink(w.procs[p]))
  }

  function Unlink(m: Proc): Proc {
    if m.Mover? && m.mphase.Copying? then m.(mphase := m.mphase.(linked := false))
    else if m.Worker? && m.wphase.Writing? then m.(wphase := m.wphase.(linked := false))
    else m
  }

  function Told(m: Proc, why: Notice): Proc {
    match m
    case Mover(_, _, _, _) => m.(cancelled := true)
    case Worker(_, notice) => m.(notice := if notice.Stopping? then Stopping else why)
    case Remover(_, _) => m
  }

  function MoverGo(w: World, p: nat, c: Choice): World
    requires p in w.procs && w.procs[p].Mover? && CanMove(w.procs[p], c)
  {
    var m := w.procs[p];
    match m.mphase
    case Snapped =>
      if w.row.Some? && w.row.value.status.Done? then
        Put(w.(row := Some(w.row.value.(status := Moving))), p, m.(mphase := Started))
      else Quit(w, p)
    case Started => Put(w, p, m.(mphase := if m.src in w.disk then Opened(w.disk[m.src]) else Failing))
    case Opened(src) => Put(w, p, m.(mphase := if m.dest in w.disk then Failing else Clear(src)))
    case Clear(src) => Put(w.(part := Some([])), p, m.(mphase := Copying(src, 0, true)))
    case Copying(src, done, linked) =>
      if done < |src| then
        Put(w.(part := if linked then Some(src[..c.n]) else w.part), p, m.(mphase := Copying(src, c.n, linked)))
      else if w.part.Some? then
        Put(Unstage(w.(disk := w.disk[m.dest := w.part.value])), p, m.(mphase := Renamed))
      else Put(w, p, m.(mphase := Failing))
    case Renamed =>
      if w.row.Some? && w.row.value.status.Moving? then
        Put(w.(row := Some(Entry(Done, m.dest))), p, m.(mphase := Cleanup(m.src)))
      else Put(w, p, m.(mphase := Cleanup(m.dest)))
    case Cleanup(stale) => Quit(w.(disk := w.disk - {stale}), p)
    case Failing => Put(Unstage(w), p, m.(mphase := Ending))
    case Ending =>
      if !m.cancelled && w.row.Some? && w.row.value.status.Moving? then
        Quit(w.(row := Some(w.row.value.(status := Done))), p)
      else Quit(w, p)
  }

  function PartLen(w: World): nat {
    if w.part.Some? then |w.part.value| else 0
  }

  function WorkerGo(roots: Roots, r: Remote, w: World, p: nat, c: Choice): World
    requires p in w.procs && w.procs[p].Worker? && CanWork(roots, r, w.procs[p], c)
  {
    var m, full := w.procs[p], |r.content|;
    match m.wphase
    case Ready =>
      if r.sizeKnown && full > 0 && PartLen(w) == full then Put(w, p, m.(wphase := Fetched))
      else if r.sizeKnown && full > 0 && PartLen(w) > full then Put(Unstage(w), p, Requests(m, 0))
      else Put(w, p, Requests(m, PartLen(w)))
    case Asking(offset) =>
      if c.PartialContent? then
        Put(w.(part := if w.part.Some? then w.part else Some([])), p, m.(wphase := Writing(offset, true)))
      else if c.Whole? then Put(w.(part := Some([])), p, m.(wphase := Writing(0, true)))
      else Put(Unstage(w), p, m.(wphase := if m.notice.Running? then Ready else Quitting))
    case Writing(pos, linked) =>
      if pos < full then
        Put(w.(part := if linked && w.part.Some? then Some(w.part.value + r.content[pos..c.n]) else w.part),
            p, m.(wphase := Writing(c.n, linked)))
      else Put(w, p, m.(wphase := Fetched))
    case Fetched =>
      if !m.notice.Running? then Put(w, p, m.(wphase := Quitting))
      else if w.part.None? then Put(w, p, m.(wphase := GivingUp))
      else if r.sizeKnown && full > 0 && PartLen(w) != full then Put(Unstage(w), p, m.(wphase := GivingUp))
      else Put(w, p, m.(wphase := Sized))
    case Sized =>
      if w.row.Some? && m.notice.Running? then Put(w, p, m.(wphase := Alive)) else Put(Unstage(w), p, GivesUp(m))
    case Alive =>
      if w.part.Some? then
        Put(Unstage(w.(disk := w.disk[c.path := w.part.value])), p, m.(wphase := Promoted(c.path)))
      else Put(w, p, GivesUp(m))
    case Promoted(dest) =>
      Quit(if w.row.Some? && m.notice.Running? then w.(row := Some(Entry(Done, dest))) else w, p)
    case GivingUp => Quit(if w.row.Some? then w.(row := Some(w.row.value.(status := Failed))) else w, p)
    case Quitting => Quit(if m.notice.Stopping? then w else Unstage(w), p)
  }

  /** A download asks for the rest of the file; the request of one that has been told to stop fails. */
  function Requests(m: Proc, offset: nat): Proc
    requires m.Worker?
  {
    m.(wphase := if m.notice.Running? then Asking(offset) else Quitting)
  }

  /** How a download ends that cannot go on. */
  function GivesUp(m: Proc): Proc
    requires m.Worker?
  {
    m.(wphase := if m.notice.Running? then GivingUp else Quitting)
  }

  function RemoverGo(w: World, p: nat): World
    requires p in w.procs && w.procs[p].Remover?
  {
    var m := w.procs[p];
    match m.rphase
    case Seen => Put(w.(row := None), p, m.(rphase := Forgotten))
    case Forgotten => Put(w, p, m.(rphase := Cancelled))
    case Cancelled => Put(Unstage(w), p, m.(rphase := Unstaged))
    case Unstaged => Quit(if m.snapshot.HasCopy() then w.(disk := w.disk - {m.snapshot.path}) else w, p)
  }

  /** Inside the attempt loop of download. */
  predicate Attempting(m: Proc) {
    m.Worker? && (m.wphase.Ready? || m.wphase.Asking? || m.wphase.Writing?)
  }

  function Fails(w: World, p: nat, retry: bool): World
    requires p in w.procs && CanFail(w.procs[p])
  {
    var m := w.procs[p];
    if m.Mover? then
      if m.mphase.Started? then Quit(w, p) else Put(w, p, m.(mphase := Failing))
    else
      Put(w, p, if m.notice.Running? && retry && Attempting(m) then m.(wphase := Ready) else GivesUp(m))
  }

  /** ResetInterruptedLocal. */
  function ResetRow(row: Entry): Entry {
    match row.status
    case Downloading => row.(status := Queued)
    case Moving => row.(status := Done)
    case _ => row
  }

  function Take(roots: Roots, r: Remote, w: World, e: Event): World
    requires CanTake(roots, r, w, e)
  {
    match e
    case Enqueue =>
      if w.row.None? then w.(row := Some(Entry(Queued, "")))
      else if w.row.value.status.Failed? then w.(row := Some(w.row.value.(status := Queued)))
      else w
    case Claim(p) => Put(w.(row := Some(w.row.value.(status := Downloading))), p, Worker(Ready, Running))
    case BeginMove(p) => Put(w, p, Mover(w.row.value.path, MoveTarget(roots, w.row.value.path), Snapped, false))
    case BeginRemove(p) => Put(w, p, Remover(w.row.value, Seen))
    case Go(p, c) =>
      (match w.procs[p]
       case Mover(_, _, _, _) => MoverGo(w, p, c)
       case Worker(_, _) => WorkerGo(roots, r, w, p, c)
       case Remover(_, _) => RemoverGo(w, p))
    case Err(p, retry) => Fails(w, p, retry)
    case Cancel(p, q) => Put(Put(w, q, Told(w.procs[q], Removed)), p, w.procs[p].(rphase := Cancelled))
    case Relocate(to) =>
      var from := w.row.value.path;
      w.(disk := (w.disk - {from})[to := w.disk[from]], row := Some(Entry(Done, to)))
    case Crash => w.(procs := map[], row := if w.row.Some? then Some(ResetRow(w.row.value)) else None)
    case Shutdown => w.(procs := map p | p in w.procs :: Told(w.procs[p], Stopping))
  }

  // ----- the invariant -----

  /** Between StartMove and the row's return to done. */
  predicate Active(m: Proc) {
    m.Mover? && !m.mphase.Snapped? && !m.mphase.Cleanup?
  }

  ghost predicate MoverOk(roots: Roots, r: Remote, w: World, m: Proc)
    requires m.Mover? && w.row.Some?
  {
    && w.row.value.HasCopy()
    && Within(roots.downloads, m.dest) && !Within(roots.downloads, m.src)
    && (m.src in w.disk ==> w.disk[m.src] == r.content)
    && (Active(m) ==> w.row.value.status.Moving?)
    && match m.mphase
       case Opened(src) => src == r.content
       case Clear(src) => src == r.content
       case Copying(src, done, linked) =>
         src == r.content && done <= |src| && w.part == if linked then Some(src[..done]) else None
       case Renamed => m.dest in w.disk && w.disk[m.dest] == r.content
       case Cleanup(stale) => Within(roots.downloads, w.row.value.path) && !Within(roots.downloads, stale)
       case _ => true
  }

  /** A file of known size that is one byte over and over: however it is pieced together, at the right
      size it is right. */
  predicate Constant(r: Remote) {
    r.sizeKnown && forall i :: 0 <= i < |r.content| ==> r.content[i] == r.content[0]
  }

  /** Files for which it does not matter when the staging file is deleted under a download. */
  predicate Sturdy(r: Remote) {
    |r.content| < 2 || Constant(r)
  }

  /** Staging files that a download completes to the right content or starts over. */
  predicate HarmlessPart(r: Remote, part: Option<Content>) {
    || part.None? || part.value <= r.content
    || |part.value| > |r.content| || (|part.value| == |r.content| && !r.sizeKnown)
  }

  /** No staging file, or the whole file in it. */
  predicate Settled(r: Remote, part: Option<Content>) {
    part.None? || part.value == r.content
  }

  /** Removes that do no harm to an entry that is queued: those that have not deleted the row yet, and
      those that have nothing left to delete that matters. New copies go to the download folder. */
  predicate HarmlessRemover(roots: Roots, r: Remote, m: Proc) {
    m.Remover? && (m.rphase.Seen? || ((m.snapshot.HasCopy() ==> !Within(roots.downloads, m.snapshot.path))
                                      && (m.rphase.Unstaged? || Sturdy(r))))
  }

  /** Downloads that do no harm to an entry that is queued: those that have been told to stop and can do
      no more than delete or promote a staging file for which that does not matter. */
  predicate HarmlessWorker(r: Remote, m: Proc) {
    && m.Worker? && !m.notice.Running? && Sturdy(r)
    && !m.wphase.GivingUp? && (m.wphase.Asking? ==> r.content == [])
  }

  predicate HarmlessProc(roots: Roots, r: Remote, m: Proc) {
    HarmlessRemover(roots, r, m) || HarmlessWorker(r, m)
  }

  /** A copy on record is in the download folder. */
  predicate CopyInDownloads(roots: Roots, w: World) {
    w.row.Some? && w.row.value.HasCopy() ==> Within(roots.downloads, w.row.value.path)
  }

  /** A download of the entry's past: the row may be any. */
  predicate LeftOk(roots: Roots, r: Remote, w: World)
    requires w.row.Some?
  {
    CopyInDownloads(roots, w) && (w.row.value.HasCopy() ==> Settled(r, w.part))
  }

  /** The download that has claimed the row. */
  ghost predicate LiveOk(roots: Roots, r: Remote, w: World, m: Proc)
    requires m.Worker? && w.row.Some?
  {
    && w.row.value.status.Downloading?
    && match m.wphase
       case Asking(offset) =>
         if w.part.Some? then r.content == [] || offset == |w.part.value| else 0 < offset < |r.content| ==> Constant(r)
       case Writing(pos, linked) =>
         if r.content == [] then Settled(r, w.part)
         else pos <= |r.content| && if linked then w.part.Some? && Written(r, w.part.value, pos) else w.part.None?
       case Fetched => w.part.Some? ==> w.part.value == r.content || (Constant(r) && w.part.value <= r.content)
       case Sized => Settled(r, w.part)
       case Alive => Settled(r, w.part)
       case Promoted(dest) =>
         Within(roots.downloads, dest) && dest in w.disk && w.disk[dest] == r.content && Settled(r, w.part)
       case _ => true
  }

  ghost predicate WorkerOk(roots: Roots, r: Remote, w: World, m: Proc)
    requires m.Worker? && w.row.Some?
  {
    if HarmlessWorker(r, m) then LeftOk(roots, r, w) else LiveOk(roots, r, w, m)
  }

  predicate RemoverOk(roots: Roots, r: Remote, w: World, m: Proc)
    requires m.Remover? && w.row.Some?
  {
    HarmlessRemover(roots, r, m) && (!m.rphase.Seen? && m.snapshot.HasCopy() ==> CopyInDownloads(roots, w))
  }

  /** What a download at a given position has in its staging file. */
  predicate Written(r: Remote, part: Content, pos: nat)
    requires pos <= |r.content|
  {
    part == r.content[..pos] || (Constant(r) && part <= r.content && |part| <= pos)
  }

  ghost predicate ProcOk(roots: Roots, r: Remote, w: World, m: Proc)
    requires w.row.Some?
  {
    match m
    case Mover(_, _, _, _) => MoverOk(roots, r, w, m)
    case Worker(_, _) => WorkerOk(roots, r, w, m)
    case Remover(_, _) => RemoverOk(roots, r, w, m)
  }

  /** Processes that never coexist while the entry has a row. */
  predicate Exclusive(r: Remote, m1: Proc, m2: Proc) {
    || (Active(m1) && Active(m2)) || (m1.Worker? && m2.Mover?) || (m1.Mover? && m2.Worker?)
    || (m1.Worker? && m2.Worker? && !HarmlessWorker(r, m1) && !HarmlessWorker(r, m2))
  }

  ghost predicate Good(roots: Roots, r: Remote, w: World)
    requires w.row.Some?
  {
    && (w.row.value.HasCopy() ==> w.row.value.path in w.disk && w.disk[w.row.value.path] == r.content)
    && HarmlessPart(r, w.part)
    && (forall p :: p in w.procs ==> ProcOk(roots, r, w, w.procs[p]))
    && (forall p, q :: p in w.procs && q in w.procs && Exclusive(r, w.procs[p], w.procs[q]) ==> p == q)
  }

  ghost predicate Inv(roots: Roots, r: Remote, w: World) {
    w.row.Some? ==> Good(roots, r, w)
  }

  /** A row that is done or moving has the complete file at its recorded path. */
  ghost predicate Playable(r: Remote, w: World) {
    w.row.Some? && w.row.value.HasCopy() ==>
      w.row.value.path in w.disk && w.disk[w.row.value.path] == r.content
  }

  /** An entry without a row is queued afresh only when nothing harmful of its past is left over: no
      Move, no download that has not been told to stop or can still do harm, no Remove with something
      to delete yet, and no staging file that a download would build on and that is not a prefix. */
  predicate Guarded(roots: Roots, r: Remote, w: World, e: Event) {
    e.Enqueue? && w.row.None? ==> Harmless(roots, r, w)
  }

  predicate Harmless(roots: Roots, r: Remote, w: World) {
    HarmlessPart(r, w.part) && forall p :: p in w.procs ==> HarmlessProc(roots, r, w.procs[p])
  }

  // ----- every step keeps it -----

  /** Only an enqueue creates a row. */
  lemma NoRowStays(roots: Roots, r: Remote, w: World, e: Event)
    requires CanTake(roots, r, w, e) && w.row.None? && !e.Enqueue?
    ensures Take(roots, r, w, e).row.None?
  {
  }

  /** What mover p's step does to the other processes: nothing that matters to them. */
  lemma OthersKeep(roots: Roots, r: Remote, w: World, t: World, p: nat)
    requires w.row.Some? && Good(roots, r, w) && p in w.procs && w.procs[p].Mover?
    requires t.row.Some? && t.row.value.HasCopy()
    requires forall q :: q in t.procs && q != p ==> q in w.procs && t.procs[q] == w.procs[q]
    requires t.part != w.part || t.row != w.row ==> forall q :: q in w.procs && q != p ==> !Active(w.procs[q])
    requires Within(roots.downloads, w.row.value.path) ==> Within(roots.downloads, t.row.value.path)
    requires forall f :: f in t.disk ==> (f in w.disk && t.disk[f] == w.disk[f]) || t.disk[f] == r.content
    requires forall f :: f in w.disk && Within(roots.downloads, f) ==>
                           f in t.disk && (t.disk[f] == w.disk[f] || t.disk[f] == r.content)
    ensures forall q :: q in t.procs && q != p ==> ProcOk(roots, r, t, t.procs[q])
  {
    assert ProcOk(roots, r, w, w.procs[p]);
    forall q | q in t.procs && q != p
      ensures ProcOk(roots, r, t, t.procs[q])
    {
      assert ProcOk(roots, r, w, w.procs[q]);
    }
  }

  /** At most one mover is active, so an active one is alone with the row and the staging file. */
  lemma ActiveIsAlone(roots: Roots, r: Remote, w: World, p: nat)
    requires w.row.Some? && Good(roots, r, w) && p in w.procs && w.procs[p].Mover?
    requires Active(w.procs[p]) || !w.row.value.status.Moving?
    ensures forall q :: q in w.procs && q != p ==> !Active(w.procs[q])
  {
    forall q | q in w.procs && q != p
      ensures !Active(w.procs[q])
    {
      assert ProcOk(roots, r, w, w.procs[q]);
      assert Active(w.procs[p]) && Active(w.procs[q]) ==> Exclusive(r, w.procs[p], w.procs[q]);
    }
  }

  lemma MoverKeeps(roots: Roots, r: Remote, w: World, p: nat, c: Choice)
    requires w.row.Some? && Good(roots, r, w) && p in w.procs && w.procs[p].Mover? && CanMove(w.procs[p], c)
    ensures Inv(roots, r, MoverGo(w, p, c))
  {
    match w.procs[p].mphase
    case Snapped => BeginningKeeps(roots, r, w, p, c);
    case Failing => FailingKeeps(roots, r, w, p);
    case Copying(src, done, _) =>
      if done < |src| {
        CopyingKeeps(roots, r, w, p, c);
      } else {
        CopiedKeeps(roots, r, w, p, c);
      }
    case Renamed => SettlingKeeps(roots, r, w, p, c);
    case Cleanup(_) => SettlingKeeps(roots, r, w, p, c);
    case Ending => SettlingKeeps(roots, r, w, p, c);
    case Clear(_) => ClearKeeps(roots, r, w, p, c);
    case _ => OpeningKeeps(roots, r, w, p, c);
  }

  lemma CopyingKeeps(roots: Roots, r: Remote, w: World, p: nat, c: Choice)
    requires w.row.Some? && Good(roots, r, w) && p in w.procs && w.procs[p].Mover? && CanMove(w.procs[p], c)
    requires w.procs[p].mphase.Copying? && w.procs[p].mphase.done < |w.procs[p].mphase.src|
    ensures Inv(roots, r, MoverGo(w, p, c))
  {
    hide Within, Written, Sturdy, HarmlessWorker, HarmlessRemover, LiveOk, LeftOk, RemoverOk, WorkerGo;
    assert ProcOk(roots, r, w, w.procs[p]);
    ActiveIsAlone(roots, r, w, p);
    OthersKeep(roots, r, w, MoverGo(w, p, c), p);
  }

  /** Nobody else has the staging file open while a Move is active. */
  lemma NobodyElseWrites(roots: Roots, r: Remote, w: World, p: nat)
    requires w.row.Some? && Good(roots, r, w) && p in w.procs && Active(w.procs[p])
    ensures forall q :: q in w.procs && q != p ==> Unlink(w.procs[q]) == w.procs[q] && !Active(w.procs[q])
  {
    hide ProcOk, HarmlessWorker;
    forall q | q in w.procs && q != p
      ensures Unlink(w.procs[q]) == w.procs[q] && !Active(w.procs[q])
    {
      assert !Exclusive(r, w.procs[p], w.procs[q]);
    }
  }

  /** A Move that has copied everything renames its staging file, if that is still there. */
  lemma CopiedKeeps(roots: Roots, r: Remote, w: World, p: nat, c: Choice)
    requires w.row.Some? && Good(roots, r, w) && p in w.procs && w.procs[p].Mover? && CanMove(w.procs[p], c)
    requires w.procs[p].mphase.Copying? && w.procs[p].mphase.done >= |w.procs[p].mphase.src|
    ensures Inv(roots, r, MoverGo(w, p, c))
  {
    var m := w.procs[p];
    assert ProcOk(roots, r, w, m);
    assert r.content[..|r.content|] == r.content;
    NobodyElseWrites(roots, r, w, p);
    hide Within, Written, Sturdy, HarmlessWorker, HarmlessRemover, LiveOk, LeftOk, RemoverOk, WorkerGo, Good, Inv;
    if w.part.Some? {
      var t := World(w.row, w.disk[m.dest := r.content], None, w.procs[p := m.(mphase := Renamed)]);
      assert MoverGo(w, p, c) == t;
      RenamedKeeps(roots, r, w, t, p);
    } else {
      var t := w.(procs := w.procs[p := m.(mphase := Failing)]);
      assert MoverGo(w, p, c) == t;
      NotRenamedKeeps(roots, r, w, t, p);
    }
  }

  lemma RenamedKeeps(roots: Roots, r: Remote, w: World, t: World, p: nat)
    requires w.row.Some? && Good(roots, r, w) && p in w.procs && w.procs[p].Mover? && w.procs[p].mphase.Copying?
    requires forall q :: q in w.procs && q != p ==> !Active(w.procs[q])
    requires var m := w.procs[p];
             t == World(w.row, w.disk[m.dest := r.content], None, w.procs[p := m.(mphase := Renamed)])
    ensures Inv(roots, r, t)
  {
    hide Within, Written, Sturdy, HarmlessWorker, HarmlessRemover, LiveOk, LeftOk, RemoverOk, WorkerGo, MoverGo;
    assert ProcOk(roots, r, w, w.procs[p]);
    OthersKeep(roots, r, w, t, p);
  }

  lemma NotRenamedKeeps(roots: Roots, r: Remote, w: World, t: World, p: nat)
    requires w.row.Some? && Good(roots, r, w) && p in w.procs && w.procs[p].Mover? && w.procs[p].mphase.Copying?
    requires t == w.(procs := w.procs[p := w.procs[p].(mphase := Failing)])
    ensures Inv(roots, r, t)
  {
    hide Within, Written, Sturdy, HarmlessWorker, HarmlessRemover, LiveOk, LeftOk, RemoverOk, WorkerGo, MoverGo;
    assert ProcOk(roots, r, w, w.procs[p]);
    OthersKeep(roots, r, w, t, p);
  }

  lemma SettlingKeeps(roots: Roots, r: Remote, w: World, p: nat, c: Choice)
    requires w.row.Some? && Good(roots, r, w) && p in w.procs && w.procs[p].Mover? && CanMove(w.procs[p], c)
    requires w.procs[p].mphase.Renamed? || w.procs[p].mphase.Cleanup? || w.procs[p].mphase.Ending?
    ensures Inv(roots, r, MoverGo(w, p, c))
  {
    hide Within, Written, Sturdy, HarmlessWorker, HarmlessRemover, LiveOk, LeftOk, RemoverOk, WorkerGo;
    assert ProcOk(roots, r, w, w.procs[p]);
    if Active(w.procs[p]) {
      ActiveIsAlone(roots, r, w, p);
    }
    OthersKeep(roots, r, w, MoverGo(w, p, c), p);
  }

  lemma BeginningKeeps(roots: Roots, r: Remote, w: World, p: nat, c: Choice)
    requires w.row.Some? && Good(roots, r, w) && p in w.procs && w.procs[p].Mover? && CanMove(w.procs[p], c)
    requires w.procs[p].mphase.Snapped?
    ensures Inv(roots, r, MoverGo(w, p, c))
  {
    hide Within, Written, Sturdy, HarmlessWorker, HarmlessRemover, LiveOk, LeftOk, RemoverOk, WorkerGo;
    assert ProcOk(roots, r, w, w.procs[p]);
    if !w.row.value.status.Moving? {
      ActiveIsAlone(roots, r, w, p);
    }
    OthersKeep(roots, r, w, MoverGo(w, p, c), p);
  }

  lemma OpeningKeeps(roots: Roots, r: Remote, w: World, p: nat, c: Choice)
    requires w.row.Some? && Good(roots, r, w) && p in w.procs && w.procs[p].Mover? && CanMove(w.procs[p], c)
    requires w.procs[p].mphase.Started? || w.procs[p].mphase.Opened?
    ensures Inv(roots, r, MoverGo(w, p, c))
  {
    hide Within, Written, Sturdy, HarmlessWorker, HarmlessRemover, LiveOk, LeftOk, RemoverOk, WorkerGo;
    assert ProcOk(roots, r, w, w.procs[p]);
    ActiveIsAlone(roots, r, w, p);
    OthersKeep(roots, r, w, MoverGo(w, p, c), p);
  }

  lemma ClearKeeps(roots: Roots, r: Remote, w: World, p: nat, c: Choice)
    requires w.row.Some? && Good(roots, r, w) && p in w.procs && w.procs[p].Mover? && CanMove(w.procs[p], c)
    requires w.procs[p].mphase.Clear?
    ensures Inv(roots, r, MoverGo(w, p, c))
  {
    hide Within, Written, Sturdy, HarmlessWorker, HarmlessRemover, LiveOk, LeftOk, RemoverOk, WorkerGo;
    assert ProcOk(roots, r, w, w.procs[p]);
    ActiveIsAlone(roots, r, w, p);
    OthersKeep(roots, r, w, MoverGo(w, p, c), p);
  }

  lemma FailingKeeps(roots: Roots, r: Remote, w: World, p: nat)
    requires w.row.Some? && Good(roots, r, w) && p in w.procs && w.procs[p].Mover? && w.procs[p].mphase.Failing?
    ensures Inv(roots, r, MoverGo(w, p, Plain))
  {
    hide Within, Written, Sturdy, HarmlessWorker, HarmlessRemover, LiveOk, LeftOk, WorkerGo;
    var t := MoverGo(w, p, Plain);
    assert ProcOk(roots, r, w, w.procs[p]);
    ActiveIsAlone(roots, r, w, p);
    forall q | q in t.procs
      ensures ProcOk(roots, r, t, t.procs[q])
    {
      assert ProcOk(roots, r, w, w.procs[q]);
    }
  }

  /** A download at work has the row to itself: besides it there are only harmless leftovers. */
  lemma LiveIsAlone(roots: Roots, r: Remote, w: World, p: nat)
    requires w.row.Some? && Good(roots, r, w) && p in w.procs && w.procs[p].Worker? && !HarmlessWorker(r, w.procs[p])
    ensures LiveOk(roots, r, w, w.procs[p])
    ensures forall q :: q in w.procs && q != p ==> HarmlessProc(roots, r, w.procs[q])
  {
    hide Sturdy;
    assert ProcOk(roots, r, w, w.procs[p]);
    forall q | q in w.procs && q != p
      ensures HarmlessProc(roots, r, w.procs[q])
    {
      assert ProcOk(roots, r, w, w.procs[q]);
      assert !Exclusive(r, w.procs[p], w.procs[q]);
    }
  }

  /** The same process, but for its link to the staging file. */
  predicate SameOrUnlinked(m: Proc, m': Proc) {
    m' == m || m' == Unlink(m)
  }

  lemma UnlinkedIsHarmless(roots: Roots, r: Remote, m: Proc)
    ensures HarmlessWorker(r, Unlink(m)) <==> HarmlessWorker(r, m)
    ensures HarmlessWorker(r, m) ==> m.Worker?
    ensures Unlink(m).Worker? <==> m.Worker?
    ensures Unlink(m).Mover? <==> m.Mover?
    ensures m.Remover? ==> Unlink(m) == m
  {
  }

  /** Put together again after a step of a download at work: its own part of the invariant. */
  lemma LiveIsEnough(roots: Roots, r: Remote, w: World, t: World, p: nat)
    requires forall q :: q in w.procs && q != p ==> HarmlessProc(roots, r, w.procs[q])
    requires forall q :: q in t.procs && q != p ==> q in w.procs && SameOrUnlinked(w.procs[q], t.procs[q])
    requires HarmlessPart(r, t.part) && t.row.Some?
    requires t.row.value.HasCopy() ==>
               && t.row.value.path in t.disk && t.disk[t.row.value.path] == r.content
               && LeftOk(roots, r, t)
    requires p in t.procs ==> t.procs[p].Worker? && WorkerOk(roots, r, t, t.procs[p])
    ensures Inv(roots, r, t)
  {
    hide Sturdy, HarmlessPart, Settled, Within, HarmlessWorker;
    forall q | q in t.procs && q != p
      ensures ProcOk(roots, r, t, t.procs[q]) && !t.procs[q].Mover?
      ensures t.procs[q].Worker? ==> HarmlessWorker(r, t.procs[q])
    {
      UnlinkedIsHarmless(roots, r, w.procs[q]);
      assert HarmlessProc(roots, r, w.procs[q]);
    }
  }

  /** More of the remote file is appended. */
  lemma WrittenGrows(r: Remote, part: Content, pos: nat, n: nat)
    requires pos <= n <= |r.content| && Written(r, part, pos)
    ensures Written(r, part + r.content[pos..n], n)
  {
    if part == r.content[..pos] {
      assert part + r.content[pos..n] == r.content[..n];
    } else {
      ConstantPieces(r, part, pos, n);
    }
  }

  lemma ConstantPieces(r: Remote, part: Content, pos: nat, n: nat)
    requires Constant(r) && part <= r.content && |part| <= pos <= n <= |r.content|
    ensures part + r.content[pos..n] <= r.content
  {
    var longer := part + r.content[pos..n];
    assert forall i :: 0 <= i < |longer| ==> longer[i] == r.content[0] == r.content[i];
  }

  lemma WritingKeeps(roots: Roots, r: Remote, w: World, p: nat, c: Choice)
    requires w.row.Some? && Good(roots, r, w) && p in w.procs && w.procs[p].Worker? && !HarmlessWorker(r, w.procs[p])
    requires CanWork(roots, r, w.procs[p], c) && w.procs[p].wphase.Writing?
    ensures Inv(roots, r, WorkerGo(roots, r, w, p, c))
  {
    hide Constant, Within, MoverOk, Exclusive, HarmlessRemover, HarmlessProc;
    LiveIsAlone(roots, r, w, p);
    var phase, t := w.procs[p].wphase, WorkerGo(roots, r, w, p, c);
    assert r.content[..|r.content|] == r.content;
    if c.Upto? && w.part.Some? && r.content != [] && phase.linked {
      WrittenGrows(r, w.part.value, phase.pos, c.n);
    }
    LiveIsEnough(roots, r, w, t, p);
  }

  /** What a download finds when it looks at the staging file. */
  lemma LookKeeps(roots: Roots, r: Remote, w: World, p: nat, c: Choice)
    requires w.row.Some? && Good(roots, r, w) && p in w.procs && w.procs[p].Worker? && !HarmlessWorker(r, w.procs[p])
    requires CanWork(roots, r, w.procs[p], c) && w.procs[p].wphase.Ready?
    ensures Inv(roots, r, WorkerGo(roots, r, w, p, c))
  {
    hide Constant, Within, MoverOk, Exclusive, HarmlessRemover, HarmlessProc, Written;
    LiveIsAlone(roots, r, w, p);
    assert r.content[..|r.content|] == r.content;
    LiveIsEnough(roots, r, w, WorkerGo(roots, r, w, p, c), p);
  }

  /** What the answer to its request does. */
  lemma AnswerKeeps(roots: Roots, r: Remote, w: World, p: nat, c: Choice)
    requires w.row.Some? && Good(roots, r, w) && p in w.procs && w.procs[p].Worker? && !HarmlessWorker(r, w.procs[p])
    requires CanWork(roots, r, w.procs[p], c) && w.procs[p].wphase.Asking?
    ensures Inv(roots, r, WorkerGo(roots, r, w, p, c))
  {
    hide Constant, Within, MoverOk, Exclusive, HarmlessRemover, HarmlessProc;
    LiveIsAlone(roots, r, w, p);
    assert r.content[..0] == [];
    assert w.part.Some? && w.part.value <= r.content ==> w.part.value == r.content[..|w.part.value|];
    if c.PartialContent? && w.part.None? {
      assert Written(r, [], w.procs[p].wphase.offset);
    }
    LiveIsEnough(roots, r, w, WorkerGo(roots, r, w, p, c), p);
  }

  lemma FinishingKeeps(roots: Roots, r: Remote, w: World, p: nat, c: Choice)
    requires w.row.Some? && Good(roots, r, w) && p in w.procs && w.procs[p].Worker? && !HarmlessWorker(r, w.procs[p])
    requires CanWork(roots, r, w.procs[p], c)
    requires w.procs[p].wphase.Fetched? || w.procs[p].wphase.Sized?
    ensures Inv(roots, r, WorkerGo(roots, r, w, p, c))
  {
    hide Constant, Within, MoverOk, Exclusive, Written, HarmlessRemover, HarmlessProc;
    var t := WorkerGo(roots, r, w, p, c);
    LiveIsAlone(roots, r, w, p);
    assert Constant(r) ==> r.sizeKnown by {
      ConstantSize(r);
    }
    LiveIsEnough(roots, r, w, t, p);
  }

  lemma PromotingKeeps(roots: Roots, r: Remote, w: World, p: nat, c: Choice)
    requires w.row.Some? && Good(roots, r, w) && p in w.procs && w.procs[p].Worker? && !HarmlessWorker(r, w.procs[p])
    requires CanWork(roots, r, w.procs[p], c)
    requires w.procs[p].wphase.Alive? || w.procs[p].wphase.Promoted?
    ensures Inv(roots, r, WorkerGo(roots, r, w, p, c))
  {
    hide Constant, Within, MoverOk, Exclusive, Written, HarmlessRemover, HarmlessProc;
    var t := WorkerGo(roots, r, w, p, c);
    LiveIsAlone(roots, r, w, p);
    LiveIsEnough(roots, r, w, t, p);
  }

  lemma EndingKeeps(roots: Roots, r: Remote, w: World, p: nat, c: Choice)
    requires w.row.Some? && Good(roots, r, w) && p in w.procs && w.procs[p].Worker? && !HarmlessWorker(r, w.procs[p])
    requires CanWork(roots, r, w.procs[p], c)
    requires w.procs[p].wphase.GivingUp? || w.procs[p].wphase.Quitting?
    ensures Inv(roots, r, WorkerGo(roots, r, w, p, c))
  {
    hide Constant, Within, MoverOk, Exclusive, Written, HarmlessRemover, HarmlessProc;
    var t := WorkerGo(roots, r, w, p, c);
    LiveIsAlone(roots, r, w, p);
    LiveIsEnough(roots, r, w, t, p);
  }

  lemma ConstantSize(r: Remote)
    ensures Constant(r) ==> r.sizeKnown
  {
  }

  // ----- downloads of the past -----

  /** The disk after the staging file is renamed to a path. */
  function Onto(w: World, dest: string): map<string, Content>
    requires w.part.Some?
  {
    w.disk[dest := w.part.value]
  }

  ghost predicate SameOrOnto(w: World, t: World) {
    t.disk == w.disk || (w.part.Some? && exists dest :: t.disk == Onto(w, dest))
  }

  /** A leftover download deletes the staging file under another process, or renames it. */
  lemma UnstagedKeeps(roots: Roots, r: Remote, w: World, t: World, m: Proc)
    requires w.row.Some? && t.row == w.row && t.part.None? && ProcOk(roots, r, w, m) && Sturdy(r) && !m.Mover?
    requires SameOrOnto(w, t)
    ensures ProcOk(roots, r, t, Unlink(m))
  {
    hide Within, Written;
    UnlinkedIsHarmless(roots, r, m);
  }

  /** With an empty file it can also empty it. */
  lemma EmptiedKeeps(roots: Roots, r: Remote, w: World, t: World, m: Proc)
    requires w.row.Some? && t.row == w.row && t.disk == w.disk && t.part == Some([]) && r.content == []
    requires ProcOk(roots, r, w, m) && !m.Mover?
    ensures ProcOk(roots, r, t, m)
  {
    hide Within, Written;
  }

  /** The others are as they were; and if p is there still, it is harmless. */
  predicate OthersSame(r: Remote, w: World, t: World, p: nat) {
    && (forall q :: q in t.procs && q != p ==> q in w.procs && t.procs[q] == w.procs[q])
    && (p in t.procs ==> HarmlessWorker(r, t.procs[p]))
  }

  predicate OthersUnlinked(r: Remote, w: World, t: World, p: nat) {
    && (forall q :: q in t.procs && q != p ==> q in w.procs && t.procs[q] == Unlink(w.procs[q]))
    && (p in t.procs ==> HarmlessWorker(r, t.procs[p]))
  }

  /** All a harmless download can do: nothing that shows, ... */
  predicate Nothing(r: Remote, w: World, t: World, p: nat) {
    t.row == w.row && t.part == w.part && t.disk == w.disk && OthersSame(r, w, t, p)
  }

  /** ... delete or rename the staging file, ... */
  ghost predicate Unstages(r: Remote, w: World, t: World, p: nat) {
    && t.row == w.row && t.part.None? && OthersUnlinked(r, w, t, p)
    && SameOrOnto(w, t)
  }

  /** ... or empty that of an empty file. */
  predicate Empties(r: Remote, w: World, t: World, p: nat) {
    t.row == w.row && t.part == Some([]) && r.content == [] && t.disk == w.disk && OthersSame(r, w, t, p)
  }

  /** It stays harmless whatever becomes of its link, and never asks for anything again. */
  lemma StaysHarmless(r: Remote, m: Proc, phase: WorkPhase)
    requires HarmlessWorker(r, m) && !phase.GivingUp? && !phase.Asking?
    ensures m.Worker? && !m.notice.Running? && Sturdy(r) && HarmlessWorker(r, m.(wphase := phase))
    ensures !m.wphase.GivingUp? && (m.wphase.Asking? ==> r.content == [])
  {
  }

  lemma LeftSteps(roots: Roots, r: Remote, w: World, p: nat, c: Choice)
    requires w.row.Some? && p in w.procs && HarmlessWorker(r, w.procs[p]) && CanWork(roots, r, w.procs[p], c)
    ensures var t := WorkerGo(roots, r, w, p, c); Nothing(r, w, t, p) || Unstages(r, w, t, p) || Empties(r, w, t, p)
  {
    var m, t := w.procs[p], WorkerGo(roots, r, w, p, c);
    StaysHarmless(r, m, Quitting);
    StaysHarmless(r, m, Fetched);
    hide HarmlessWorker, Sturdy, Within, Unlink;
    match m.wphase
    case Asking(offset) =>
      StaysHarmless(r, m, Writing(offset, true));
      StaysHarmless(r, m, Writing(0, true));
    case Alive =>
      StaysHarmless(r, m, Promoted(c.path));
      if w.part.Some? {
        assert t.disk == Onto(w, c.path);
      }
    case _ =>
  }

  lemma LeftKeeps(roots: Roots, r: Remote, w: World, t: World, p: nat)
    requires w.row.Some? && Good(roots, r, w) && p in w.procs && HarmlessWorker(r, w.procs[p])
    requires Nothing(r, w, t, p) || Unstages(r, w, t, p) || Empties(r, w, t, p)
    ensures Inv(roots, r, t)
  {
    hide Within, HarmlessWorker, Sturdy, Constant, LiveOk, MoverOk, RemoverOk;
    StaysHarmless(r, w.procs[p], Quitting);
    assert ProcOk(roots, r, w, w.procs[p]);
    LeftKeepsRest(roots, r, w, t, p);
    forall q | q in t.procs
      ensures ProcOk(roots, r, t, t.procs[q])
    {
      if q != p {
        assert ProcOk(roots, r, w, w.procs[q]) && !Exclusive(r, w.procs[p], w.procs[q]);
        LeftKeepsOther(roots, r, w, t, p, q);
      } else {
        UnlinkedIsHarmless(roots, r, t.procs[p]);
      }
    }
  }

  /** The row's copy, the staging file, and who is there. */
  lemma LeftKeepsRest(roots: Roots, r: Remote, w: World, t: World, p: nat)
    requires w.row.Some? && Good(roots, r, w) && p in w.procs && HarmlessWorker(r, w.procs[p])
    requires Nothing(r, w, t, p) || Unstages(r, w, t, p) || Empties(r, w, t, p)
    ensures t.row.Some? && HarmlessPart(r, t.part) && LeftOk(roots, r, t)
    ensures t.row.value.HasCopy() ==> t.row.value.path in t.disk && t.disk[t.row.value.path] == r.content
    ensures forall q1, q2 :: q1 in t.procs && q2 in t.procs && Exclusive(r, t.procs[q1], t.procs[q2]) ==> q1 == q2
  {
    hide Within, HarmlessWorker, Sturdy, Constant, LiveOk, MoverOk, RemoverOk;
    StaysHarmless(r, w.procs[p], Quitting);
    assert ProcOk(roots, r, w, w.procs[p]);
    forall q1, q2 | q1 in t.procs && q2 in t.procs && Exclusive(r, t.procs[q1], t.procs[q2])
      ensures q1 == q2
    {
      LeftKeepsExclusive(roots, r, w, t, p, q1, q2);
    }
  }

  lemma LeftKeepsExclusive(roots: Roots, r: Remote, w: World, t: World, p: nat, q1: nat, q2: nat)
    requires w.row.Some? && Good(roots, r, w) && p in w.procs && HarmlessWorker(r, w.procs[p])
    requires OthersSame(r, w, t, p) || OthersUnlinked(r, w, t, p)
    requires q1 in t.procs && q2 in t.procs && Exclusive(r, t.procs[q1], t.procs[q2])
    ensures q1 == q2
  {
    hide HarmlessWorker, ProcOk;
    StaysHarmless(r, w.procs[p], Quitting);
    UnlinkedIsHarmless(roots, r, t.procs[q1]);
    UnlinkedIsHarmless(roots, r, t.procs[q2]);
    UnlinkedIsHarmless(roots, r, w.procs[q1]);
    UnlinkedIsHarmless(roots, r, w.procs[q2]);
    assert Exclusive(r, w.procs[q1], w.procs[q2]);
  }

  lemma LeftKeepsOther(roots: Roots, r: Remote, w: World, t: World, p: nat, q: nat)
    requires w.row.Some? && q in w.procs && q in t.procs && q != p && Sturdy(r)
    requires ProcOk(roots, r, w, w.procs[q]) && !w.procs[q].Mover?
    requires Nothing(r, w, t, p) || Unstages(r, w, t, p) || Empties(r, w, t, p)
    ensures ProcOk(roots, r, t, t.procs[q])
  {
    hide Within, HarmlessWorker, Sturdy, LiveOk;
    if Nothing(r, w, t, p) {
      SameKeeps(roots, r, w, t, w.procs[q]);
    } else if Unstages(r, w, t, p) {
      UnstagedKeeps(roots, r, w, t, w.procs[q]);
    } else {
      EmptiedKeeps(roots, r, w, t, w.procs[q]);
    }
  }

  lemma SameKeeps(roots: Roots, r: Remote, w: World, t: World, m: Proc)
    requires w.row.Some? && t.row == w.row && t.part == w.part && t.disk == w.disk && ProcOk(roots, r, w, m)
    ensures ProcOk(roots, r, t, m)
  {
  }

  lemma WorkerKeeps(roots: Roots, r: Remote, w: World, p: nat, c: Choice)
    requires w.row.Some? && Good(roots, r, w) && p in w.procs && w.procs[p].Worker?
    requires CanWork(roots, r, w.procs[p], c)
    ensures Inv(roots, r, WorkerGo(roots, r, w, p, c))
  {
    hide WorkerGo, Good, HarmlessWorker;
    if HarmlessWorker(r, w.procs[p]) {
      LeftSteps(roots, r, w, p, c);
      LeftKeeps(roots, r, w, WorkerGo(roots, r, w, p, c), p);
    } else {
      match w.procs[p].wphase
      case Writing(_, _) => WritingKeeps(roots, r, w, p, c);
      case Ready => LookKeeps(roots, r, w, p, c);
      case Asking(_) => AnswerKeeps(roots, r, w, p, c);
      case Fetched => FinishingKeeps(roots, r, w, p, c);
      case Sized => FinishingKeeps(roots, r, w, p, c);
      case Alive => PromotingKeeps(roots, r, w, p, c);
      case Promoted(_) => PromotingKeeps(roots, r, w, p, c);
      case _ => EndingKeeps(roots, r, w, p, c);
    }
  }

  lemma StepKeeps(roots: Roots, r: Remote, w: World, e: Event)
    requires Inv(roots, r, w) && CanTake(roots, r, w, e) && Guarded(roots, r, w, e)
    ensures Inv(roots, r, Take(roots, r, w, e))
  {
    if w.row.None? {
      if !e.Enqueue? {
        NoRowStays(roots, r, w, e);
      }
    } else if e.Go? && w.procs[e.p].Mover? {
      MoverKeeps(roots, r, w, e.p, e.c);
    } else if e.Go? && w.procs[e.p].Worker? {
      WorkerKeeps(roots, r, w, e.p, e.c);
    } else {
      OtherKeeps(roots, r, w, e);
    }
  }

  lemma OtherKeeps(roots: Roots, r: Remote, w: World, e: Event)
    requires w.row.Some? && Good(roots, r, w) && CanTake(roots, r, w, e)
    requires e.Go? ==> w.procs[e.p].Remover?
    ensures Inv(roots, r, Take(roots, r, w, e))
  {
    match e
    case Relocate(_) => RelocateKeeps(roots, r, w, e);
    case Err(_, _) => ErrKeeps(roots, r, w, e);
    case Enqueue => StartKeeps(roots, r, w, e);
    case Claim(_) => ClaimKeeps(roots, r, w, e);
    case BeginMove(_) => StartKeeps(roots, r, w, e);
    case BeginRemove(_) => StartKeeps(roots, r, w, e);
    case Crash => StopKeeps(roots, r, w, e);
    case Shutdown => StopKeeps(roots, r, w, e);
    case Cancel(_, _) => TellingKeeps(roots, r, w, e);
    case Go(p, _) => RemoverKeeps(roots, r, w, p);
  }

  /** Telling a process to stop changes nothing yet. */
  lemma TellingKeeps(roots: Roots, r: Remote, w: World, e: Event)
    requires w.row.Some? && Good(roots, r, w) && CanTake(roots, r, w, e) && e.Cancel?
    ensures Inv(roots, r, Take(roots, r, w, e))
  {
    hide MoverGo, WorkerGo, RemoverGo, Fails, Sturdy, Within, Written, HarmlessPart, Constant, Told, HarmlessWorker;
    var t := Take(roots, r, w, e);
    assert ProcOk(roots, r, w, w.procs[e.p]);
    forall q | q in t.procs
      ensures ProcOk(roots, r, t, t.procs[q])
    {
      assert ProcOk(roots, r, w, w.procs[q]);
      ToldKeeps(roots, r, w, t, w.procs[q], Removed);
    }
    forall q1, q2 | q1 in t.procs && q2 in t.procs && Exclusive(r, t.procs[q1], t.procs[q2])
      ensures q1 == q2
    {
      ToldIsAlike(r, w.procs[q1], Removed);
      ToldIsAlike(r, w.procs[q2], Removed);
      assert Exclusive(r, w.procs[q1], w.procs[q2]);
    }
  }

  lemma ToldKeeps(roots: Roots, r: Remote, w: World, t: World, m: Proc, why: Notice)
    requires w.row.Some? && t.row == w.row && t.disk == w.disk && t.part == w.part && ProcOk(roots, r, w, m)
    requires !why.Running?
    ensures ProcOk(roots, r, t, m) && ProcOk(roots, r, t, Told(m, why))
  {
    hide Within, Written, Sturdy, Constant;
  }

  /** Being told makes nobody a rival. */
  lemma ToldIsAlike(r: Remote, m: Proc, why: Notice)
    ensures var m' := Told(m, why);
            && Active(m') == Active(m) && m'.Worker? == m.Worker? && m'.Mover? == m.Mover? && m'.Remover? == m.Remover?
            && (why != Running && HarmlessWorker(r, m) ==> HarmlessWorker(r, m'))
  {
    hide Sturdy;
  }

  /** A Remove that has something in the download folder to delete yet has not deleted the row; one
      that has not may lose the staging file to whoever is at work on it. */
  lemma RemoverKeeps(roots: Roots, r: Remote, w: World, p: nat)
    requires w.row.Some? && Good(roots, r, w) && p in w.procs && w.procs[p].Remover?
    ensures Inv(roots, r, RemoverGo(w, p))
  {
    var m := w.procs[p];
    assert ProcOk(roots, r, w, m);
    match m.rphase
    case Seen =>
    case Cancelled => UnstagingKeeps(roots, r, w, p);
    case _ => RemoverKeepsOthers(roots, r, w, p);
  }

  lemma RemoverKeepsOthers(roots: Roots, r: Remote, w: World, p: nat)
    requires w.row.Some? && Good(roots, r, w) && p in w.procs && w.procs[p].Remover?
    requires w.procs[p].rphase.Forgotten? || w.procs[p].rphase.Unstaged?
    ensures Inv(roots, r, RemoverGo(w, p))
  {
    hide Sturdy, Within, Written, HarmlessPart, HarmlessWorker, LiveOk, MoverOk;
    var m, t := w.procs[p], RemoverGo(w, p);
    assert ProcOk(roots, r, w, m);
    forall q | q in t.procs
      ensures ProcOk(roots, r, t, t.procs[q])
    {
      assert ProcOk(roots, r, w, w.procs[q]);
      if q != p {
        DeletionKeeps(roots, r, w, t, w.procs[q], m.snapshot.path);
      }
    }
  }

  /** A file outside the download folder goes. */
  lemma DeletionKeeps(roots: Roots, r: Remote, w: World, t: World, m: Proc, gone: string)
    requires w.row.Some? && t.row == w.row && t.part == w.part && ProcOk(roots, r, w, m)
    requires t.disk == w.disk || (t.disk == w.disk - {gone} && !Within(roots.downloads, gone))
    ensures ProcOk(roots, r, t, m)
  {
    hide Within, Written, Sturdy, HarmlessWorker;
  }

  lemma UnlinkKeeps(roots: Roots, r: Remote, w: World, t: World, m: Proc)
    requires w.row.Some? && t.row == w.row && t.disk == w.disk && t.part.None?
    requires ProcOk(roots, r, w, m) && Sturdy(r)
    ensures ProcOk(roots, r, t, Unlink(m))
  {
    hide Within, Written;
  }

  lemma UnstagingKeeps(roots: Roots, r: Remote, w: World, p: nat)
    requires w.row.Some? && Good(roots, r, w) && p in w.procs && w.procs[p].Remover? && w.procs[p].rphase.Cancelled?
    ensures Inv(roots, r, RemoverGo(w, p))
  {
    var m, t := w.procs[p], RemoverGo(w, p);
    assert ProcOk(roots, r, w, m);
    assert Sturdy(r);
    hide Sturdy, Within, Written, WorkerOk, MoverOk, HarmlessWorker;
    forall q | q in t.procs
      ensures ProcOk(roots, r, t, t.procs[q])
    {
      assert ProcOk(roots, r, w, w.procs[q]);
      if q != p {
        UnlinkKeeps(roots, r, w, t, w.procs[q]);
      }
    }
    forall q1, q2 | q1 in t.procs && q2 in t.procs && Exclusive(r, t.procs[q1], t.procs[q2])
      ensures q1 == q2
    {
      UnlinkedIsHarmless(roots, r, w.procs[q1]);
      UnlinkedIsHarmless(roots, r, w.procs[q2]);
      assert Exclusive(r, w.procs[q1], w.procs[q2]);
    }
  }

  lemma StartKeeps(roots: Roots, r: Remote, w: World, e: Event)
    requires w.row.Some? && Good(roots, r, w) && CanTake(roots, r, w, e)
    requires e.Enqueue? || e.BeginMove? || e.BeginRemove?
    ensures Inv(roots, r, Take(roots, r, w, e))
  {
    hide MoverGo, WorkerGo, RemoverGo, Fails, Written, Sturdy, HarmlessPart, Constant, HarmlessWorker;
    var t := Take(roots, r, w, e);
    forall q | q in t.procs
      ensures ProcOk(roots, r, t, t.procs[q])
    {
      if q in w.procs {
        assert ProcOk(roots, r, w, w.procs[q]);
      }
    }
    assert e.BeginMove? ==> forall q :: q in w.procs ==> ProcOk(roots, r, w, w.procs[q]);
  }

  /** A queued row has no Move and no download at work. */
  lemma ClaimKeeps(roots: Roots, r: Remote, w: World, e: Event)
    requires w.row.Some? && Good(roots, r, w) && CanTake(roots, r, w, e) && e.Claim?
    ensures Inv(roots, r, Take(roots, r, w, e))
  {
    var t := Take(roots, r, w, e);
    assert !HarmlessWorker(r, Worker(Ready, Running));
    hide MoverGo, WorkerGo, RemoverGo, Fails, Written, Sturdy, HarmlessPart, Constant, HarmlessWorker;
    forall q | q in t.procs
      ensures ProcOk(roots, r, t, t.procs[q])
      ensures q != e.p ==> !t.procs[q].Mover? && (t.procs[q].Worker? ==> HarmlessWorker(r, t.procs[q]))
    {
      if q != e.p {
        assert ProcOk(roots, r, w, w.procs[q]);
      }
    }
  }

  lemma StopKeeps(roots: Roots, r: Remote, w: World, e: Event)
    requires w.row.Some? && Good(roots, r, w) && (e.Crash? || e.Shutdown?)
    ensures Inv(roots, r, Take(roots, r, w, e))
  {
    hide MoverGo, WorkerGo, RemoverGo, Fails, Written, Sturdy, HarmlessPart, Constant, Told, HarmlessWorker, Within;
    var t := Take(roots, r, w, e);
    forall q | q in t.procs
      ensures ProcOk(roots, r, t, t.procs[q])
    {
      assert ProcOk(roots, r, w, w.procs[q]);
      ToldKeeps(roots, r, w, t, w.procs[q], Stopping);
    }
    forall q1, q2 | q1 in t.procs && q2 in t.procs && Exclusive(r, t.procs[q1], t.procs[q2])
      ensures q1 == q2
    {
      ToldIsAlike(r, w.procs[q1], Stopping);
      ToldIsAlike(r, w.procs[q2], Stopping);
      assert Exclusive(r, w.procs[q1], w.procs[q2]);
    }
  }

  lemma ErrKeeps(roots: Roots, r: Remote, w: World, e: Event)
    requires w.row.Some? && Good(roots, r, w) && CanTake(roots, r, w, e) && e.Err?
    ensures Inv(roots, r, Take(roots, r, w, e))
  {
    hide MoverGo, WorkerGo, RemoverGo, Written, Sturdy, HarmlessPart, Constant, Within;
    var t := Take(roots, r, w, e);
    assert ProcOk(roots, r, w, w.procs[e.p]);
    forall q | q in t.procs
      ensures ProcOk(roots, r, t, t.procs[q])
    {
      assert ProcOk(roots, r, w, w.procs[q]);
    }
  }

  lemma RelocateKeeps(roots: Roots, r: Remote, w: World, e: Event)
    requires w.row.Some? && Good(roots, r, w) && CanTake(roots, r, w, e) && e.Relocate?
    ensures Inv(roots, r, Take(roots, r, w, e))
  {
    hide MoverGo, WorkerGo, RemoverGo, Fails, Written, Sturdy, HarmlessPart, Constant;
    var t := Take(roots, r, w, e);
    forall q | q in t.procs
      ensures ProcOk(roots, r, t, t.procs[q])
    {
      assert ProcOk(roots, r, w, w.procs[q]);
    }
  }

  // ----- every run -----

  function RunFrom(roots: Roots, r: Remote, w: World, events: seq<Event>): Option<World> {
    if events == [] then Some(w)
    else
      var front := RunFrom(roots, r, w, events[..|events| - 1]);
      if front.Some? && CanTake(roots, r, front.value, events[|events| - 1])
        then Some(Take(roots, r, front.value, events[|events| - 1])) else None
  }

  ghost predicate AllGuarded(roots: Roots, r: Remote, w: World, events: seq<Event>) {
    forall i :: 0 <= i < |events| ==>
      var before := RunFrom(roots, r, w, events[..i]);
      before.Some? ==> Guarded(roots, r, before.value, events[i])
  }

  /** In every interleaving of downloads, Moves, Removes, relocations, crashes and restarts, a row
      that is done or moving has the complete file at its path, and while the entry has a row its
      staging file is one that a download completes to the right content or starts over. Relocations
      here are of this entry's copy; another entry's copy that a sync relocates onto this one is no
      step of the machine. */
  lemma {:induction false} AlwaysPlayable(roots: Roots, r: Remote, w: World, events: seq<Event>)
    requires Inv(roots, r, w) && AllGuarded(roots, r, w, events)
    requires RunFrom(roots, r, w, events).Some?
    ensures var t := RunFrom(roots, r, w, events).value;
            Inv(roots, r, t) && Playable(r, t) && (t.row.Some? ==> HarmlessPart(r, t.part))
  {
    if events == [] {
    } else {
      var front, n := events[..|events| - 1], |events| - 1;
      forall i | 0 <= i < |front|
        ensures var before := RunFrom(roots, r, w, front[..i]);
                before.Some? ==> Guarded(roots, r, before.value, front[i])
      {
        assert front[..i] == events[..i];
      }
      AlwaysPlayable(roots, r, w, front);
      assert events[..n] == front;
      StepKeeps(roots, r, RunFrom(roots, r, w, front).value, events[n]);
    }
  }

  /** When there is a staging file, it is a prefix of the remote file. */
  predicate StagingIsPrefix(r: Remote, w: World) {
    w.part.Some? ==> w.part.value <= r.content
  }

  lemma StepKeepsPrefix(roots: Roots, r: Remote, w: World, e: Event)
    requires w.row.Some? && Good(roots, r, w) && CanTake(roots, r, w, e) && StagingIsPrefix(r, w)
    ensures StagingIsPrefix(r, Take(roots, r, w, e))
  {
    hide Sturdy, Constant, Within, HarmlessPart;
    if e.Go? {
      var m := w.procs[e.p];
      assert ProcOk(roots, r, w, m);
      if m.Worker? && m.wphase.Writing? && e.c.Upto? && w.part.Some? {
        WrittenGrows(r, w.part.value, m.wphase.pos, e.c.n);
        WrittenIsPrefix(r, w.part.value + r.content[m.wphase.pos..e.c.n], e.c.n);
      }
    }
  }

  lemma WrittenIsPrefix(r: Remote, part: Content, pos: nat)
    requires pos <= |r.content| && Written(r, part, pos)
    ensures part <= r.content
  {
  }

  /** No entry without a row is queued afresh with a staging file that is not a prefix. */
  ghost predicate PrefixesQueued(roots: Roots, r: Remote, w: World, events: seq<Event>) {
    forall i :: 0 <= i < |events| ==>
      var before := RunFrom(roots, r, w, events[..i]);
      before.Some? && before.value.row.None? && events[i].Enqueue? ==> StagingIsPrefix(r, before.value)
  }

  /** Then, in every interleaving, while the entry has a row its staging file is a prefix. */
  lemma {:induction false} AlwaysPrefix(roots: Roots, r: Remote, w: World, events: seq<Event>)
    requires Inv(roots, r, w) && AllGuarded(roots, r, w, events) && PrefixesQueued(roots, r, w, events)
    requires RunFrom(roots, r, w, events).Some? && (w.row.Some? ==> StagingIsPrefix(r, w))
    ensures var t := RunFrom(roots, r, w, events).value; t.row.Some? ==> StagingIsPrefix(r, t)
  {
    if events == [] {
    } else {
      hide Take, CanTake, Good, StagingIsPrefix, Guarded;
      var front, n := events[..|events| - 1], |events| - 1;
      GuardedFront(roots, r, w, events);
      assert events[..n] == front;
      var mid := RunFrom(roots, r, w, front).value;
      AlwaysPrefix(roots, r, w, front);
      AlwaysPlayable(roots, r, w, front);
      if mid.row.Some? {
        StepKeepsPrefix(roots, r, mid, events[n]);
      } else if events[n].Enqueue? {
        EnqueueKeepsPart(roots, r, mid);
      } else {
        NoRowStays(roots, r, mid, events[n]);
      }
    }
  }

  lemma EnqueueKeepsPart(roots: Roots, r: Remote, w: World)
    ensures StagingIsPrefix(r, Take(roots, r, w, Enqueue)) <==> StagingIsPrefix(r, w)
  {
  }

  lemma GuardedFront(roots: Roots, r: Remote, w: World, events: seq<Event>)
    requires events != []
    ensures AllGuarded(roots, r, w, events) ==> AllGuarded(roots, r, w, events[..|events| - 1])
    ensures PrefixesQueued(roots, r, w, events) ==> PrefixesQueued(roots, r, w, events[..|events| - 1])
  {
    hide RunFrom, Guarded, StagingIsPrefix;
    var front := events[..|events| - 1];
    forall i | 0 <= i < |front|
      ensures front[..i] == events[..i] && front[i] == events[i]
    {
    }
  }

  /** Runs start with nothing, or with a finished copy at rest. */
  lemma StartsAreSafe(roots: Roots, r: Remote, w: World, path: string)
    requires w.procs == map[] && w.part.None?
    requires w.row.None? || (w.row == Some(Entry(Done, path)) && w.disk == map[path := r.content])
    ensures Inv(roots, r, w)
  {
  }
}
