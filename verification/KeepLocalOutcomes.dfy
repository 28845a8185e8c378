/** How the processes of a "keep local" entry end when nobody interferes, and what a Move does on its way
    out whatever else happens (internal/download/download.go, internal/strm/local.go). */
module KeepLocalOutcomes {
  import opened Wrappers
  import opened Library
  import opened Paths
  import opened KeepLocal
  import opened KeepLocalRuns

  /** Only p takes steps: it goes on, or meets an error. */
  ghost predicate OnlyBy(p: nat, events: seq<KeepLocal.Event>) {
    forall i :: 0 <= i < |events| ==> (events[i].Go? && events[i].p == p) || (events[i].Err? && events[i].p == p)
  }

  ghost predicate ErrorFree(events: seq<KeepLocal.Event>) {
    forall i :: 0 <= i < |events| ==> !events[i].Err?
  }

  lemma OnlyByFront(p: nat, events: seq<KeepLocal.Event>)
    requires events != [] && OnlyBy(p, events)
    ensures var front, last := events[..|events| - 1], events[|events| - 1];
            OnlyBy(p, front) && ((last.Go? && last.p == p) || (last.Err? && last.p == p))
    ensures ErrorFree(events) <==> ErrorFree(events[..|events| - 1]) && !events[|events| - 1].Err?
  {
  }

  /** The run one step shorter. */
  lemma RunFront(roots: Roots, r: Remote, w: World, first: KeepLocal.Event, events: seq<KeepLocal.Event>)
    requires events != [] && RunFrom(roots, r, w, [first] + events).Some?
    ensures var front, last := events[..|events| - 1], events[|events| - 1];
            var mid := RunFrom(roots, r, w, [first] + front);
            && mid.Some? && CanTake(roots, r, mid.value, last)
            && RunFrom(roots, r, w, [first] + events) == Some(Take(roots, r, mid.value, last))
  {
    var all := [first] + events;
    assert all[..|all| - 1] == [first] + events[..|events| - 1];
    hide Take, CanTake;
  }

  lemma RunOfFirst(roots: Roots, r: Remote, w: World, first: KeepLocal.Event)
    requires RunFrom(roots, r, w, [first] + []).Some?
    ensures CanTake(roots, r, w, first) && RunFrom(roots, r, w, [first] + []) == Some(Take(roots, r, w, first))
  {
    assert [first] + [] == [first] && [first][..0] == [];
    hide Take, CanTake;
    assert RunFrom(roots, r, w, [first][..0]) == Some(w);
  }

  // ----- a Move alone -----

  /** A Move that is done: row, copy and nothing else changed. */
  function Moved(w: World, src: string, dest: string, c: Content): World {
    World(Some(Entry(Done, dest)), w.disk[dest := c] - {src}, None, map[])
  }

  /** How a Move ends: done, or with everything as it was, but perhaps a stray copy at a place that was
      free; done without fail when it meets no error and its destination is free. */
  predicate MoveEnd(w: World, t: World, src: string, dest: string, c: Content, clean: bool) {
    || (t == Moved(w, src, dest, c) && dest !in w.disk)
    || (!(clean && dest !in w.disk)
        && (t == w || (dest !in w.disk && !clean && t == w.(disk := w.disk[dest := c]))))
  }

  /** Where it stands before. */
  predicate MoveStage(w: World, t: World, src: string, dest: string, c: Content, phase: MovePhase, clean: bool) {
    match phase
    case Snapped => t.row == w.row && t.disk == w.disk && t.part.None?
    case Started => t.row == Some(Entry(Moving, src)) && t.disk == w.disk && t.part.None?
    case Opened(s) => t.row == Some(Entry(Moving, src)) && t.disk == w.disk && t.part.None? && s == c
    case Clear(s) => t.row == Some(Entry(Moving, src)) && t.disk == w.disk && t.part.None? && s == c && dest !in w.disk
    case Copying(s, done, linked) =>
      && t.row == Some(Entry(Moving, src)) && t.disk == w.disk && dest !in w.disk
      && s == c && done <= |c| && linked && t.part == Some(c[..done])
    case Renamed => t.row == Some(Entry(Moving, src)) && t.disk == w.disk[dest := c] && t.part.None? && dest !in w.disk
    case Cleanup(stale) =>
      stale == src && t.row == Some(Entry(Done, dest)) && t.disk == w.disk[dest := c] && t.part.None? && dest !in w.disk
    case _ =>
      && t.row == Some(Entry(Moving, src)) && !(clean && dest !in w.disk)
      && (t.disk == w.disk || (dest !in w.disk && !clean && t.disk == w.disk[dest := c]))
      && (phase.Ending? ==> t.part.None?)
  }

  predicate MoveAlone(w: World, t: World, p: nat, src: string, dest: string, c: Content, clean: bool) {
    if p in t.procs then
      && t.procs[p].Mover? && t.procs == map[p := Mover(src, dest, t.procs[p].mphase, false)]
      && MoveStage(w, t, src, dest, c, t.procs[p].mphase, clean)
    else t.procs == map[] && MoveEnd(w, t, src, dest, c, clean)
  }

  lemma MoveErrs(roots: Roots, r: Remote, w: World, t: World, p: nat, src: string, dest: string, c: Content,
                 clean: bool, retry: bool)
    requires MoveAlone(w, t, p, src, dest, c, clean) && CanTake(roots, r, t, Err(p, retry))
    ensures MoveAlone(w, Take(roots, r, t, Err(p, retry)), p, src, dest, c, false)
  {
    hide WorkerGo, RemoverGo, MoverGo;
    assert p in t.procs;
  }

  lemma MoveSteps(roots: Roots, r: Remote, w: World, t: World, p: nat, src: string, dest: string, c: Content,
                  clean: bool, choice: Choice)
    requires MoveAlone(w, t, p, src, dest, c, clean) && CanTake(roots, r, t, Go(p, choice))
    requires w == World(Some(Entry(Done, src)), w.disk, None, map[]) && src in w.disk && w.disk[src] == c
    ensures MoveAlone(w, Take(roots, r, t, Go(p, choice)), p, src, dest, c, clean)
  {
    hide WorkerGo, RemoverGo, Fails;
    assert c[..|c|] == c && c[..0] == [];
    assert p in t.procs;
  }

  /** A Move that nobody interferes with ends, however it goes, with the copy recorded where it is: at its
      destination, the source deleted, or untouched at its source; and it overwrites nothing. */
  lemma {:induction false} LoneMoveEnds(roots: Roots, r: Remote, w: World, events: seq<KeepLocal.Event>, p: nat,
                                        src: string, dest: string, c: Content)
    requires w == World(Some(Entry(Done, src)), w.disk, None, map[]) && src in w.disk && w.disk[src] == c
    requires dest == MoveTarget(roots, src) != "" && OnlyBy(p, events)
    requires RunFrom(roots, r, w, [BeginMove(p)] + events).Some?
    ensures MoveAlone(w, RunFrom(roots, r, w, [BeginMove(p)] + events).value, p, src, dest, c, ErrorFree(events))
  {
    if events == [] {
      RunOfFirst(roots, r, w, BeginMove(p));
    } else {
      hide RunFrom, CanTake, Take, MoveTarget, MoveAlone;
      var front, last := events[..|events| - 1], events[|events| - 1];
      OnlyByFront(p, events);
      RunFront(roots, r, w, BeginMove(p), events);
      LoneMoveEnds(roots, r, w, front, p, src, dest, c);
      var mid, clean := RunFrom(roots, r, w, [BeginMove(p)] + front).value, ErrorFree(front);
      if last.Err? {
        MoveErrs(roots, r, w, mid, p, src, dest, c, clean, last.retry);
      } else {
        MoveSteps(roots, r, w, mid, p, src, dest, c, clean, last.c);
      }
    }
  }

  /** And it can go well, when its destination is free. */
  lemma MoveSucceeds(roots: Roots, r: Remote, w: World, p: nat, src: string, dest: string, c: Content)
    requires Movable(roots, w, src, dest, c)
    ensures var t := Moved(w, src, dest, c);
            && Reaches(roots, r, w, t)
            && t.row == Some(Entry(Done, dest)) && dest in t.disk && t.disk[dest] == c && src !in t.disk
            && t.procs == map[]
  {
    hide WorkerGo, RemoverGo, Fails, Reaches, MoveTarget;
    Starts(roots, r, w);
    MoveRenames(roots, r, w, w, p, src, dest, c);
    var disk := w.disk[dest := c];
    var settled := World(Some(Entry(Done, dest)), disk, None, map[p := Mover(src, dest, Cleanup(src), false)]);
    Steps(roots, r, w, MoveAt(disk, None, Moving, p, src, dest, Renamed), Go(p, Plain), settled);
    Steps(roots, r, w, settled, Go(p, Plain), Moved(w, src, dest, c));
  }

  // ----- a Move on its way out, in any run -----

  /** After the first n events. */
  function StateAt(roots: Roots, r: Remote, w: World, events: seq<KeepLocal.Event>, n: nat): (t: World)
    requires n <= |events| && RunFrom(roots, r, w, events[..n]).Some?
  {
    RunFrom(roots, r, w, events[..n]).value
  }

  lemma {:induction false} PrefixRuns(roots: Roots, r: Remote, w: World, events: seq<KeepLocal.Event>, n: nat)
    requires n <= |events| && RunFrom(roots, r, w, events).Some?
    ensures RunFrom(roots, r, w, events[..n]).Some?
    decreases |events|
  {
    if n == |events| {
      assert events[..n] == events;
    } else {
      var front := events[..|events| - 1];
      assert front[..n] == events[..n];
      hide Take, CanTake;
      PrefixRuns(roots, r, w, front, n);
    }
  }

  lemma StateAfter(roots: Roots, r: Remote, w: World, events: seq<KeepLocal.Event>, n: nat)
    requires n < |events| && RunFrom(roots, r, w, events).Some?
    ensures RunFrom(roots, r, w, events[..n]).Some? && RunFrom(roots, r, w, events[..n + 1]).Some?
    ensures var t := StateAt(roots, r, w, events, n);
            CanTake(roots, r, t, events[n]) && StateAt(roots, r, w, events, n + 1) == Take(roots, r, t, events[n])
  {
    hide Take, CanTake;
    PrefixRuns(roots, r, w, events, n);
    PrefixRuns(roots, r, w, events, n + 1);
    assert events[..n + 1][..n] == events[..n];
  }

  /** Process p is a Move that has settled its row and has a file to delete. */
  predicate HasToDelete(t: World, p: nat, stale: string) {
    p in t.procs && t.procs[p].Mover? && t.procs[p].mphase == Cleanup(stale)
  }

  /** Whatever happens meanwhile, it stays so until the program dies or the file is deleted. */
  lemma DeletionWaits(roots: Roots, r: Remote, t: World, e: KeepLocal.Event, p: nat, stale: string)
    requires HasToDelete(t, p, stale) && CanTake(roots, r, t, e)
    ensures var t' := Take(roots, r, t, e);
            || HasToDelete(t', p, stale)
            || (p !in t'.procs && (e.Crash? || (e.Go? && e.p == p && stale !in t'.disk)))
  {
    hide WorkerGo;
    match e
    case Go(q, c) =>
      if t.procs[q].Worker? {
        OthersAfterWorker(roots, r, t, q, c, p);
      }
    case _ =>
  }

  lemma OthersAfterWorker(roots: Roots, r: Remote, t: World, q: nat, c: Choice, p: nat)
    requires q in t.procs && t.procs[q].Worker? && CanWork(roots, r, t.procs[q], c) && p in t.procs && p != q
    ensures var t' := WorkerGo(roots, r, t, q, c);
            p in t'.procs && (t'.procs[p] == t.procs[p] || t'.procs[p] == Unlink(t.procs[p]))
  {
  }

  lemma MoveSettles(roots: Roots, r: Remote, t: World, p: nat)
    requires p in t.procs && t.procs[p].Mover? && t.procs[p].mphase.Renamed? && CanTake(roots, r, t, Go(p, Plain))
    ensures var m := t.procs[p];
            HasToDelete(Take(roots, r, t, Go(p, Plain)), p,
                        if t.row.Some? && t.row.value.status.Moving? then m.src else m.dest)
  {
    hide WorkerGo, RemoverGo;
  }

  /** Over any run, with whatever else going on: a Move that comes to settle its row and later ends has
      deleted the old copy, when the row was still moving, and its own when it was not. */
  lemma SettledMoveDeletes(roots: Roots, r: Remote, w: World, events: seq<KeepLocal.Event>,
                           i: nat, j: nat, p: nat)
    requires RunFrom(roots, r, w, events).Some? && i < j < |events|
    requires forall m :: i <= m <= j ==> RunFrom(roots, r, w, events[..m]).Some?
                                         && p in StateAt(roots, r, w, events, m).procs
    requires StateAt(roots, r, w, events, i).procs[p].Mover? && StateAt(roots, r, w, events, i).procs[p].mphase.Renamed?
    requires events[i] == Go(p, Plain) && !events[j].Crash?
    requires RunFrom(roots, r, w, events[..j + 1]).Some? && p !in StateAt(roots, r, w, events, j + 1).procs
    ensures var before, after := StateAt(roots, r, w, events, i), StateAt(roots, r, w, events, j + 1);
            var m := before.procs[p];
            (if before.row.Some? && before.row.value.status.Moving? then m.src else m.dest) !in after.disk
  {
    hide RunFrom, CanTake, Take, StateAt;
    var before := StateAt(roots, r, w, events, i);
    var m := before.procs[p];
    var stale := if before.row.Some? && before.row.value.status.Moving? then m.src else m.dest;
    StateAfter(roots, r, w, events, i);
    MoveSettles(roots, r, before, p);
    var n := i + 1;
    while n < j
      invariant i < n <= j && HasToDelete(StateAt(roots, r, w, events, n), p, stale)
    {
      StateAfter(roots, r, w, events, n);
      DeletionWaits(roots, r, StateAt(roots, r, w, events, n), events[n], p, stale);
      n := n + 1;
    }
    StateAfter(roots, r, w, events, j);
    DeletionWaits(roots, r, StateAt(roots, r, w, events, j), events[j], p, stale);
  }

  // ----- a Remove alone -----

  /** The entry is forgotten: no row, no staging file, and no finished copy. */
  function Forgone(w: World): World
    requires w.row.Some?
  {
    World(None, if w.row.value.HasCopy() then w.disk - {w.row.value.path} else w.disk, None, map[])
  }

  predicate RemoveAlone(w: World, t: World, p: nat)
    requires w.row.Some?
  {
    if p in t.procs then
      && t.procs[p].Remover? && t.procs == map[p := Remover(w.row.value, t.procs[p].rphase)] && t.disk == w.disk
      && t.row == (if t.procs[p].rphase.Seen? then w.row else None)
      && t.part == (if t.procs[p].rphase.Unstaged? then None else w.part)
    else t == Forgone(w)
  }

  /** A Remove that nobody interferes with ends with the row, the staging file and the finished copy
      gone, and nothing else. */
  lemma {:induction false} LoneRemoveEnds(roots: Roots, r: Remote, w: World, events: seq<KeepLocal.Event>, p: nat)
    requires w.row.Some? && w.procs == map[] && OnlyBy(p, events)
    requires RunFrom(roots, r, w, [BeginRemove(p)] + events).Some?
    ensures RemoveAlone(w, RunFrom(roots, r, w, [BeginRemove(p)] + events).value, p)
  {
    if events == [] {
      RunOfFirst(roots, r, w, BeginRemove(p));
    } else {
      hide RunFrom, CanTake, Take, RemoveAlone;
      var front, last := events[..|events| - 1], events[|events| - 1];
      OnlyByFront(p, events);
      RunFront(roots, r, w, BeginRemove(p), events);
      LoneRemoveEnds(roots, r, w, front, p);
      RemoveStep(roots, r, w, RunFrom(roots, r, w, [BeginRemove(p)] + front).value, p, last);
    }
  }

  lemma RemoveStep(roots: Roots, r: Remote, w: World, t: World, p: nat, e: KeepLocal.Event)
    requires w.row.Some? && RemoveAlone(w, t, p) && CanTake(roots, r, t, e)
    requires (e.Go? && e.p == p) || (e.Err? && e.p == p)
    ensures RemoveAlone(w, Take(roots, r, t, e), p)
  {
    hide WorkerGo, MoverGo, Fails;
  }

  // ----- a download alone -----

  /** The disk as it was, or with the whole file at some place, and a staging file a later download can
      build on. */
  ghost predicate NothingSpoilt(r: Remote, w: World, t: World) {
    && HarmlessPart(r, t.part)
    && (t.disk == w.disk || (t.part.None? && exists dest :: t.disk == With(w, dest, r.content)))
  }

  function With(w: World, dest: string, c: Content): map<string, Content> {
    w.disk[dest := c]
  }

  ghost predicate DownloadStage(roots: Roots, r: Remote, w: World, t: World, phase: WorkPhase) {
    match phase
    case Ready => t.disk == w.disk && HarmlessPart(r, t.part)
    case Asking(offset) => t.disk == w.disk && HarmlessPart(r, t.part) && offset == PartLen(t)
    case Writing(pos, linked) => t.disk == w.disk && pos <= |r.content| && linked && t.part == Some(r.content[..pos])
    case Promoted(dest) => Within(roots.downloads, dest) && t.disk == With(w, dest, r.content) && t.part.None?
    case GivingUp => NothingSpoilt(r, w, t)
    case Quitting => false
    case _ => t.disk == w.disk && t.part == Some(r.content)
  }

  /** A download ends with the whole file in the download folder and its row done there, or failed with
      nothing spoilt; done without fail when it meets no error. */
  ghost predicate DownloadEnd(roots: Roots, r: Remote, w: World, t: World, clean: bool)
    requires w.row.Some?
  {
    || (exists dest :: Within(roots.downloads, dest)
                       && t == World(Some(Entry(Done, dest)), With(w, dest, r.content), None, map[]))
    || (!clean && t.procs == map[] && t.row == Some(Entry(Failed, w.row.value.path)) && NothingSpoilt(r, w, t))
  }

  ghost predicate DownloadAlone(roots: Roots, r: Remote, w: World, t: World, p: nat, clean: bool)
    requires w.row.Some?
  {
    if p in t.procs then
      && t.procs[p].Worker? && t.procs == map[p := Worker(t.procs[p].wphase, Running)]
      && t.row == Some(Entry(Downloading, w.row.value.path))
      && DownloadStage(roots, r, w, t, t.procs[p].wphase) && (clean ==> !t.procs[p].wphase.GivingUp?)
    else DownloadEnd(roots, r, w, t, clean)
  }

  lemma DownloadLooks(roots: Roots, r: Remote, w: World, t: World, p: nat, clean: bool, c: Choice)
    requires w.row.Some? && p in t.procs && DownloadAlone(roots, r, w, t, p, clean) && CanTake(roots, r, t, Go(p, c))
    requires var phase := t.procs[p].wphase; phase.Ready? || phase.Asking?
    ensures DownloadAlone(roots, r, w, Take(roots, r, t, Go(p, c)), p, clean)
  {
    hide MoverGo, RemoverGo, Within, Fails;
    assert r.content[..|r.content|] == r.content && r.content[..0] == [];
    var phase, t' := t.procs[p].wphase, Take(roots, r, t, Go(p, c));
    assert t.part.Some? && t.part.value <= r.content ==> t.part.value == r.content[..|t.part.value|];
    assert t'.procs == map[p := t'.procs[p]];
  }

  lemma DownloadReceives(roots: Roots, r: Remote, w: World, t: World, p: nat, clean: bool, c: Choice)
    requires w.row.Some? && p in t.procs && DownloadAlone(roots, r, w, t, p, clean) && CanTake(roots, r, t, Go(p, c))
    requires var phase := t.procs[p].wphase; phase.Writing? || phase.Fetched? || phase.Sized?
    ensures DownloadAlone(roots, r, w, Take(roots, r, t, Go(p, c)), p, clean)
  {
    hide MoverGo, RemoverGo, Within, Fails;
    assert r.content[..|r.content|] == r.content;
    var phase, t' := t.procs[p].wphase, Take(roots, r, t, Go(p, c));
    if phase.Writing? && phase.pos < |r.content| {
      assert r.content[..phase.pos] + r.content[phase.pos..c.n] == r.content[..c.n];
    }
    assert t'.procs == map[p := t'.procs[p]];
  }

  lemma DownloadFinishes(roots: Roots, r: Remote, w: World, t: World, p: nat, clean: bool, c: Choice)
    requires w.row.Some? && p in t.procs && DownloadAlone(roots, r, w, t, p, clean) && CanTake(roots, r, t, Go(p, c))
    requires var phase := t.procs[p].wphase; phase.Alive? || phase.Promoted? || phase.GivingUp? || phase.Quitting?
    ensures DownloadAlone(roots, r, w, Take(roots, r, t, Go(p, c)), p, clean)
  {
    hide MoverGo, RemoverGo, Within, Fails;
    var phase, t' := t.procs[p].wphase, Take(roots, r, t, Go(p, c));
    match phase
    case Alive =>
      assert t'.disk == With(w, c.path, r.content) && t'.procs == map[p := t'.procs[p]];
    case Promoted(dest) =>
      assert t' == World(Some(Entry(Done, dest)), With(w, dest, r.content), None, map[]);
    case GivingUp =>
      assert t.procs - {p} == map[];
    case _ =>
  }

  lemma DownloadErrs(roots: Roots, r: Remote, w: World, t: World, p: nat, e: KeepLocal.Event)
    requires w.row.Some? && p in t.procs && DownloadAlone(roots, r, w, t, p, false) && CanTake(roots, r, t, e)
    requires e.Err? && e.p == p
    ensures DownloadAlone(roots, r, w, Take(roots, r, t, e), p, false)
  {
    hide MoverGo, RemoverGo, WorkerGo, Within;
  }

  lemma DownloadGoesOn(roots: Roots, r: Remote, w: World, t: World, p: nat, clean: bool, e: KeepLocal.Event)
    requires w.row.Some? && p in t.procs && DownloadAlone(roots, r, w, t, p, clean) && CanTake(roots, r, t, e)
    requires (e.Go? && e.p == p) || (e.Err? && e.p == p)
    ensures DownloadAlone(roots, r, w, Take(roots, r, t, e), p, clean && !e.Err?)
  {
    assert t.procs[p].Worker?;
    hide Take, CanTake;
    if e.Go? {
      hide DownloadAlone;
      match t.procs[p].wphase
      case Ready => DownloadLooks(roots, r, w, t, p, clean, e.c);
      case Asking(_) => DownloadLooks(roots, r, w, t, p, clean, e.c);
      case Writing(_, _) => DownloadReceives(roots, r, w, t, p, clean, e.c);
      case Fetched => DownloadReceives(roots, r, w, t, p, clean, e.c);
      case Sized => DownloadReceives(roots, r, w, t, p, clean, e.c);
      case _ => DownloadFinishes(roots, r, w, t, p, clean, e.c);
    } else {
      DownloadErrs(roots, r, w, t, p, e);
    }
  }

  /** A download that nobody interferes with ends so, whatever the server answers and wherever it fails. */
  lemma {:induction false} LoneDownloadEnds(roots: Roots, r: Remote, w: World, events: seq<KeepLocal.Event>, p: nat)
    requires w.row.Some? && w.row.value.status.Queued? && w.procs == map[] && HarmlessPart(r, w.part)
    requires OnlyBy(p, events)
    requires RunFrom(roots, r, w, [Claim(p)] + events).Some?
    ensures DownloadAlone(roots, r, w, RunFrom(roots, r, w, [Claim(p)] + events).value, p, ErrorFree(events))
  {
    if events == [] {
      RunOfFirst(roots, r, w, Claim(p));
    } else {
      hide RunFrom, Take, DownloadAlone;
      var front, last := events[..|events| - 1], events[|events| - 1];
      OnlyByFront(p, events);
      RunFront(roots, r, w, Claim(p), events);
      LoneDownloadEnds(roots, r, w, front, p);
      DownloadGoesOn(roots, r, w, RunFrom(roots, r, w, [Claim(p)] + front).value, p, ErrorFree(front), last);
    }
  }

  // ----- interruptions -----

  /** A download that has been told that the program ends, with row, disk and staging file as they were. */
  predicate StoppedAt(w: World, t: World, p: nat) {
    && t.row == w.row && t.disk == w.disk && t.part == w.part
    && if p in t.procs then
         && t.procs[p].Worker? && t.procs == map[p := Worker(t.procs[p].wphase, Stopping)]
         && var phase := t.procs[p].wphase; phase.Ready? || phase.Writing? || phase.Fetched? || phase.Quitting?
       else t.procs == map[]
  }

  lemma StoppedStep(roots: Roots, r: Remote, w: World, t: World, p: nat, e: KeepLocal.Event)
    requires StoppedAt(w, t, p) && CanTake(roots, r, t, e) && ((e.Go? && e.p == p) || (e.Err? && e.p == p))
    requires !(r.sizeKnown && 0 < |r.content| < PartLen(w))
    ensures StoppedAt(w, Take(roots, r, t, e), p)
  {
    hide MoverGo, RemoverGo;
  }

  /** A download that is stopped when the program ends, before it asks, while it receives or when it has
      all, loses nothing: however it comes to its end, after the restart it is queued again with every
      byte it had. */
  lemma {:induction false} StopKeepsPart(roots: Roots, r: Remote, w: World, events: seq<KeepLocal.Event>, p: nat,
                                         phase: WorkPhase)
    requires w.row.Some? && w.row.value.status.Downloading? && w.procs == map[p := Worker(phase, Running)]
    requires phase.Ready? || phase.Writing? || phase.Fetched?
    requires !(r.sizeKnown && 0 < |r.content| < PartLen(w))
    requires OnlyBy(p, events) && RunFrom(roots, r, w, [Shutdown] + events).Some?
    ensures var t := RunFrom(roots, r, w, [Shutdown] + events).value;
            && StoppedAt(w, t, p)
            && Take(roots, r, t, Crash) == World(Some(Entry(Queued, w.row.value.path)), w.disk, w.part, map[])
  {
    if events == [] {
      RunOfFirst(roots, r, w, Shutdown);
    } else {
      hide RunFrom, MoverGo, WorkerGo, RemoverGo, StoppedAt;
      var front, last := events[..|events| - 1], events[|events| - 1];
      OnlyByFront(p, events);
      RunFront(roots, r, w, Shutdown, events);
      StopKeepsPart(roots, r, w, front, p, phase);
      StoppedStep(roots, r, w, RunFrom(roots, r, w, [Shutdown] + front).value, p, last);
      StoppedRestarts(roots, r, w, RunFrom(roots, r, w, [Shutdown] + events).value, p);
    }
  }

  lemma StoppedRestarts(roots: Roots, r: Remote, w: World, t: World, p: nat)
    requires StoppedAt(w, t, p) && w.row.Some? && w.row.value.status.Downloading?
    ensures Take(roots, r, t, Crash) == World(Some(Entry(Queued, w.row.value.path)), w.disk, w.part, map[])
  {
  }

  lemma RunTwo(roots: Roots, r: Remote, w: World, e1: KeepLocal.Event, e2: KeepLocal.Event)
    requires CanTake(roots, r, w, e1) && CanTake(roots, r, Take(roots, r, w, e1), e2)
    ensures RunFrom(roots, r, w, [e1, e2]) == Some(Take(roots, r, Take(roots, r, w, e1), e2))
  {
    assert [e1, e2][..1] == [e1] && [e1][..0] == [];
    hide Take, CanTake;
    assert RunFrom(roots, r, w, [e1][..0]) == Some(w);
    assert RunFrom(roots, r, w, [e1]) == Some(Take(roots, r, w, e1));
  }

  /** What has arrived and has the wrong size is deleted, and the entry has failed. */
  lemma WrongSizeIsDeleted(roots: Roots, r: Remote, w: World, p: nat, c: Content)
    requires w.row.Some? && w.procs == map[p := Worker(WorkPhase.Fetched, Running)] && w.part == Some(c)
    requires r.sizeKnown && 0 < |r.content| != |c|
    ensures RunFrom(roots, r, w, [Go(p, Plain), Go(p, Plain)]) ==
            Some(World(Some(Entry(Failed, w.row.value.path)), w.disk, None, map[]))
  {
    hide RunFrom, MoverGo, RemoverGo, Fails;
    RunTwo(roots, r, w, Go(p, Plain), Go(p, Plain));
  }

  /** A resume that the server turns down starts over from nothing. */
  lemma RefusedResumeStartsOver(roots: Roots, r: Remote, w: World, p: nat, offset: nat)
    requires w.procs == map[p := Worker(Asking(offset), Running)]
    ensures RunFrom(roots, r, w, [Go(p, Unsatisfiable), Go(p, Plain)]) ==
            Some(w.(part := None, procs := map[p := Worker(Asking(0), Running)]))
  {
    hide RunFrom, MoverGo, RemoverGo, Fails;
    var mid := w.(part := None, procs := map[p := Worker(WorkPhase.Ready, Running)]);
    assert Take(roots, r, w, Go(p, Unsatisfiable)) == mid;
    assert Take(roots, r, mid, Go(p, Plain)).procs == map[p := Worker(Asking(0), Running)];
    RunTwo(roots, r, w, Go(p, Unsatisfiable), Go(p, Plain));
  }

  /** A Move that is cancelled while it waits for its turn touches nothing. */
  lemma CancelledMoveTouchesNothing(roots: Roots, r: Remote, w: World, p: nat, src: string, dest: string, retry: bool)
    requires w.procs == map[p := Mover(src, dest, Started, true)]
    ensures CanTake(roots, r, w, Err(p, retry)) && Take(roots, r, w, Err(p, retry)) == w.(procs := map[])
  {
  }

  /** For a download told both that its entry is removed and that the program ends, the latter counts,
      in whichever order it is told. */
  lemma EndOutweighsRemoval(roots: Roots, r: Remote, w: World, p: nat, q: nat, phase: WorkPhase, e: Entry)
    requires p != q && w.procs == map[p := Worker(phase, Running), q := Remover(e, Forgotten)]
    ensures var told := Some(w.(procs := map[p := Worker(phase, Stopping), q := Remover(e, RemovePhase.Cancelled)]));
            RunFrom(roots, r, w, [Shutdown, Cancel(q, p)]) == told == RunFrom(roots, r, w, [Cancel(q, p), Shutdown])
  {
    EndThenRemoval(roots, r, w, p, q, phase, e);
    RemovalThenEnd(roots, r, w, p, q, phase, e);
  }

  lemma EndThenRemoval(roots: Roots, r: Remote, w: World, p: nat, q: nat, phase: WorkPhase, e: Entry)
    requires p != q && w.procs == map[p := Worker(phase, Running), q := Remover(e, Forgotten)]
    ensures RunFrom(roots, r, w, [Shutdown, Cancel(q, p)]) ==
            Some(w.(procs := map[p := Worker(phase, Stopping), q := Remover(e, RemovePhase.Cancelled)]))
  {
    hide RunFrom, MoverGo, WorkerGo, RemoverGo, Fails;
    var mid := w.(procs := map[p := Worker(phase, Stopping), q := Remover(e, Forgotten)]);
    assert Take(roots, r, w, Shutdown) == mid;
    RunTwo(roots, r, w, Shutdown, Cancel(q, p));
    assert Take(roots, r, mid, Cancel(q, p)).procs ==
           map[p := Worker(phase, Stopping), q := Remover(e, RemovePhase.Cancelled)];
  }

  lemma RemovalThenEnd(roots: Roots, r: Remote, w: World, p: nat, q: nat, phase: WorkPhase, e: Entry)
    requires p != q && w.procs == map[p := Worker(phase, Running), q := Remover(e, Forgotten)]
    ensures RunFrom(roots, r, w, [Cancel(q, p), Shutdown]) ==
            Some(w.(procs := map[p := Worker(phase, Stopping), q := Remover(e, RemovePhase.Cancelled)]))
  {
    hide RunFrom, MoverGo, WorkerGo, RemoverGo, Fails;
    var mid := w.(procs := map[p := Worker(phase, Notice.Removed), q := Remover(e, RemovePhase.Cancelled)]);
    assert Take(roots, r, w, Cancel(q, p)) == mid;
    RunTwo(roots, r, w, Cancel(q, p), Shutdown);
    assert Take(roots, r, mid, Shutdown).procs ==
           map[p := Worker(phase, Stopping), q := Remover(e, RemovePhase.Cancelled)];
  }
}
