/** Runs of the "keep local" machine, put together a step at a time: downloads to the end or part of
    the way, and Removes (internal/download/download.go). */
module KeepLocalRuns {
  import opened Wrappers
  import opened Library
  import opened Paths
  import opened KeepLocal

  /** t is reached from w without any further enqueue that leftovers make unsafe. */
  ghost predicate Reaches(roots: Roots, r: Remote, w: World, t: World) {
    exists events :: AllGuarded(roots, r, w, events) && RunFrom(roots, r, w, events) == Some(t)
  }

  lemma Starts(roots: Roots, r: Remote, w: World)
    ensures Reaches(roots, r, w, w)
  {
    assert AllGuarded(roots, r, w, []) && RunFrom(roots, r, w, []) == Some(w);
  }

  lemma Steps(roots: Roots, r: Remote, w: World, t: World, e: KeepLocal.Event, t': World)
    requires Reaches(roots, r, w, t) && CanTake(roots, r, t, e) && Guarded(roots, r, t, e)
    requires var next := Take(roots, r, t, e);
             next.row == t'.row && next.disk == t'.disk && next.part == t'.part && next.procs == t'.procs
    ensures Reaches(roots, r, w, t')
  {
    var events :| AllGuarded(roots, r, w, events) && RunFrom(roots, r, w, events) == Some(t);
    var longer := events + [e];
    GuardedLonger(roots, r, w, events, t, e);
    assert longer[..|longer| - 1] == events;
    assert RunFrom(roots, r, w, longer) == Some(t');
  }

  lemma GuardedLonger(roots: Roots, r: Remote, w: World, events: seq<KeepLocal.Event>, t: World, e: KeepLocal.Event)
    requires AllGuarded(roots, r, w, events) && RunFrom(roots, r, w, events) == Some(t) && Guarded(roots, r, t, e)
    ensures AllGuarded(roots, r, w, events + [e])
  {
    hide RunFrom, Guarded;
    var longer := events + [e];
    forall i | 0 <= i < |longer|
      ensures var before := RunFrom(roots, r, w, longer[..i]);
              before.Some? ==> Guarded(roots, r, before.value, longer[i])
    {
      if i < |events| {
        assert longer[..i] == events[..i];
      } else {
        assert longer[..i] == events;
      }
    }
  }

  /** What an enqueue makes of an entry without a row. */
  function Requeued(w: World): World {
    w.(row := Some(Entry(Queued, "")))
  }

  lemma RequeuedIsEnqueued(roots: Roots, r: Remote, w: World)
    requires w.row.None?
    ensures Take(roots, r, w, Enqueue) == Requeued(w)
  {
  }

  /** Nobody among these writes to the staging file. */
  predicate Unlinked(procs: map<nat, Proc>) {
    forall p :: p in procs ==> Unlink(procs[p]) == procs[p]
  }

  /** An uncancelled download in its given phase, beside other processes. */
  function DownloadAt(t: World, part: Option<Content>, others: map<nat, Proc>, p: nat, phase: WorkPhase): World {
    World(t.row, t.disk, part, others[p := Worker(phase, Running)])
  }

  /** What a download has is promoted, whatever it holds, if its size is right or not on record. */
  lemma FetchedGoesOn(roots: Roots, r: Remote, w: World, t: World, others: map<nat, Proc>, p: nat)
    requires Reaches(roots, r, w, t) && p !in others && t.procs == others[p := Worker(Fetched, Running)]
    requires t.row.Some? && t.part.Some? && (!r.sizeKnown || |t.part.value| == |r.content|)
    ensures Reaches(roots, r, w, DownloadAt(t, t.part, others, p, Alive))
  {
    hide MoverGo, RemoverGo, Fails, Reaches;
    Steps(roots, r, w, t, Go(p, Plain), DownloadAt(t, t.part, others, p, Sized));
    Steps(roots, r, w, DownloadAt(t, t.part, others, p, Sized), Go(p, Plain), DownloadAt(t, t.part, others, p, Alive));
  }

  lemma AlivePromotes(roots: Roots, r: Remote, w: World, t: World, others: map<nat, Proc>, p: nat, dest: string)
    requires Reaches(roots, r, w, DownloadAt(t, t.part, others, p, Alive)) && p !in others
    requires Unlinked(others) && Within(roots.downloads, dest) && t.part.Some?
    ensures Reaches(roots, r, w, DownloadAt(t.(disk := t.disk[dest := t.part.value]), None, others, p, Promoted(dest)))
  {
    hide MoverGo, RemoverGo, Fails, Reaches, Within;
    Steps(roots, r, w, DownloadAt(t, t.part, others, p, Alive), Go(p, To(dest)),
          DownloadAt(t.(disk := t.disk[dest := t.part.value]), None, others, p, Promoted(dest)));
  }

  lemma FetchedPromotes(roots: Roots, r: Remote, w: World, t: World, others: map<nat, Proc>, p: nat, dest: string)
    requires Reaches(roots, r, w, t) && p !in others && t.procs == others[p := Worker(Fetched, Running)]
    requires t.row.Some? && t.part.Some? && (!r.sizeKnown || |t.part.value| == |r.content|)
    requires Unlinked(others) && Within(roots.downloads, dest)
    ensures Reaches(roots, r, w, DownloadAt(t.(disk := t.disk[dest := t.part.value]), None, others, p, Promoted(dest)))
  {
    hide Reaches, Within;
    FetchedGoesOn(roots, r, w, t, others, p);
    AlivePromotes(roots, r, w, t, others, p, dest);
  }

  lemma PromotedEnds(roots: Roots, r: Remote, w: World, t: World, others: map<nat, Proc>, p: nat, dest: string)
    requires Reaches(roots, r, w, DownloadAt(t, None, others, p, Promoted(dest))) && p !in others && t.row.Some?
    ensures Reaches(roots, r, w, World(Some(Entry(Done, dest)), t.disk, None, others))
  {
    hide MoverGo, RemoverGo, Fails, Reaches;
    Steps(roots, r, w, DownloadAt(t, None, others, p, Promoted(dest)), Go(p, Plain),
          World(Some(Entry(Done, dest)), t.disk, None, others));
  }

  /** The record of a promoted download fails, and the entry is queued once more, its staging file
      gone. */
  lemma PromotedRestarts(roots: Roots, r: Remote, w: World, t: World, others: map<nat, Proc>, p: nat, dest: string,
      path: string)
    requires Reaches(roots, r, w, DownloadAt(t, None, others, p, Promoted(dest))) && p !in others
    requires t.row == Some(Entry(Downloading, path))
    ensures Reaches(roots, r, w, World(Some(Entry(Queued, path)), t.disk, None, others))
  {
    hide MoverGo, RemoverGo, Reaches;
    Steps(roots, r, w, DownloadAt(t, None, others, p, Promoted(dest)), Err(p, false),
          DownloadAt(t, None, others, p, GivingUp));
    Steps(roots, r, w, DownloadAt(t, None, others, p, GivingUp), Go(p, Plain),
          World(Some(Entry(Failed, path)), t.disk, None, others));
    Steps(roots, r, w, World(Some(Entry(Failed, path)), t.disk, None, others), Enqueue,
          World(Some(Entry(Queued, path)), t.disk, None, others));
  }

  /** A 200 answer brings the whole file. */
  lemma WholeArrives(roots: Roots, r: Remote, w: World, t: World, part: Option<Content>, others: map<nat, Proc>,
      p: nat, k: nat)
    requires Reaches(roots, r, w, DownloadAt(t, part, others, p, Asking(k))) && p !in others
    ensures Reaches(roots, r, w, DownloadAt(t, Some(r.content), others, p, Fetched))
  {
    hide MoverGo, RemoverGo, Fails, Reaches;
    var n := |r.content|;
    assert [] + r.content[0..n] == r.content;
    Steps(roots, r, w, DownloadAt(t, part, others, p, Asking(k)), Go(p, Whole),
          DownloadAt(t, Some([]), others, p, Writing(0, true)));
    if n > 0 {
      Steps(roots, r, w, DownloadAt(t, Some([]), others, p, Writing(0, true)), Go(p, Upto(n)),
            DownloadAt(t, Some(r.content), others, p, Writing(n, true)));
    }
    Steps(roots, r, w, DownloadAt(t, Some(r.content), others, p, Writing(n, true)), Go(p, Plain),
          DownloadAt(t, Some(r.content), others, p, Fetched));
  }

  /** A download that finds a staging file of the recorded size takes it as it is. */
  predicate TakenAsIs(r: Remote, part: Option<Content>) {
    r.sizeKnown && part.Some? && |part.value| == |r.content| > 0
  }

  /** Any other it starts over. */
  lemma LookThenWhole(roots: Roots, r: Remote, w: World, t: World, others: map<nat, Proc>, p: nat)
    requires Reaches(roots, r, w, DownloadAt(t, t.part, others, p, Ready)) && p !in others && Unlinked(others)
    requires !TakenAsIs(r, t.part)
    ensures Reaches(roots, r, w, DownloadAt(t, Some(r.content), others, p, Fetched))
  {
    hide MoverGo, RemoverGo, Fails, Reaches;
    var n, l := |r.content|, PartLen(t);
    var look := DownloadAt(t, t.part, others, p, Ready);
    assert PartLen(look) == l;
    if r.sizeKnown && n > 0 && l > n {
      Steps(roots, r, w, look, Go(p, Plain), DownloadAt(t, None, others, p, Asking(0)));
      WholeArrives(roots, r, w, t, None, others, p, 0);
    } else {
      Steps(roots, r, w, look, Go(p, Plain), DownloadAt(t, t.part, others, p, Asking(l)));
      WholeArrives(roots, r, w, t, t.part, others, p, l);
    }
  }

  /** From any queued entry a download can get as far as having something to rename into place. */
  lemma ReachesAlive(roots: Roots, r: Remote, w: World, t: World, p: nat, path: string) returns (x: Content)
    requires Reaches(roots, r, w, t) && t.row == Some(Entry(Queued, path)) && p !in t.procs && Unlinked(t.procs)
    ensures Reaches(roots, r, w, DownloadAt(World(Some(Entry(Downloading, path)), t.disk, Some(x), t.procs),
                                            Some(x), t.procs, p, Alive))
    ensures !TakenAsIs(r, t.part) ==> x == r.content
  {
    hide MoverGo, RemoverGo, Fails, Reaches;
    var others, claimed := t.procs, t.(row := Some(Entry(Downloading, path)));
    Steps(roots, r, w, t, Claim(p), DownloadAt(claimed, t.part, others, p, Ready));
    if TakenAsIs(r, t.part) {
      x := t.part.value;
      Steps(roots, r, w, DownloadAt(claimed, t.part, others, p, Ready), Go(p, Plain),
            DownloadAt(claimed, t.part, others, p, Fetched));
    } else {
      x := r.content;
      LookThenWhole(roots, r, w, claimed, others, p);
    }
    FetchedGoesOn(roots, r, w, DownloadAt(claimed, Some(x), others, p, Fetched), others, p);
  }

  /** And of renaming it. */
  lemma ReachesPromoted(roots: Roots, r: Remote, w: World, t: World, p: nat, dest: string, path: string)
    returns (x: Content)
    requires Reaches(roots, r, w, t) && t.row == Some(Entry(Queued, path)) && p !in t.procs && Unlinked(t.procs)
    requires Within(roots.downloads, dest)
    ensures Reaches(roots, r, w, DownloadAt(World(Some(Entry(Downloading, path)), t.disk[dest := x], None, t.procs),
                                            None, t.procs, p, Promoted(dest)))
    ensures !TakenAsIs(r, t.part) ==> x == r.content
  {
    hide Reaches, Within;
    x := ReachesAlive(roots, r, w, t, p, path);
    AlivePromotes(roots, r, w, World(Some(Entry(Downloading, path)), t.disk, Some(x), t.procs), t.procs, p, dest);
  }

  /** One download to the end. */
  lemma DownloadEnds(roots: Roots, r: Remote, w: World, t: World, p: nat, dest: string, path: string)
    returns (x: Content)
    requires Reaches(roots, r, w, t) && t.row == Some(Entry(Queued, path)) && p !in t.procs && Unlinked(t.procs)
    requires Within(roots.downloads, dest)
    ensures Reaches(roots, r, w, World(Some(Entry(Done, dest)), t.disk[dest := x], None, t.procs))
    ensures !TakenAsIs(r, t.part) ==> x == r.content
  {
    hide Reaches;
    x := ReachesPromoted(roots, r, w, t, p, dest, path);
    PromotedEnds(roots, r, w, World(Some(Entry(Downloading, path)), t.disk[dest := x], None, t.procs), t.procs, p,
        dest);
  }

  // ----- Removes -----

  /** A Remove, beside other processes. */
  function RemoveAt(row: Option<Entry>, t: World, snapshot: Entry, p: nat, phase: RemovePhase): World {
    World(row, t.disk, t.part, t.procs[p := Remover(snapshot, phase)])
  }

  /** A Remove begins and deletes the row. */
  lemma RemoveForgets(roots: Roots, r: Remote, w: World, t: World, p: nat)
    requires Reaches(roots, r, w, t) && t.row.Some? && p !in t.procs
    ensures Reaches(roots, r, w, RemoveAt(None, t, t.row.value, p, Forgotten))
  {
    hide MoverGo, WorkerGo, Fails, Reaches;
    Steps(roots, r, w, t, BeginRemove(p), RemoveAt(t.row, t, t.row.value, p, Seen));
    Steps(roots, r, w, RemoveAt(t.row, t, t.row.value, p, Seen), Go(p, Plain),
          RemoveAt(None, t, t.row.value, p, Forgotten));
  }

  /** It finds nobody to cancel, ... */
  lemma RemoveCancelsNobody(roots: Roots, r: Remote, w: World, t: World, snapshot: Entry, p: nat)
    requires Reaches(roots, r, w, RemoveAt(None, t, snapshot, p, Forgotten))
    ensures Reaches(roots, r, w, RemoveAt(None, t, snapshot, p, Cancelled))
  {
    hide MoverGo, WorkerGo, Fails, Reaches;
    Steps(roots, r, w, RemoveAt(None, t, snapshot, p, Forgotten), Go(p, Plain),
          RemoveAt(None, t, snapshot, p, Cancelled));
  }

  /** ... or cancels a process. */
  lemma RemoveCancelsOne(roots: Roots, r: Remote, w: World, t: World, snapshot: Entry, p: nat, q: nat)
    requires Reaches(roots, r, w, RemoveAt(None, t, snapshot, p, Forgotten)) && q in t.procs && p !in t.procs
    ensures Reaches(roots, r, w, RemoveAt(None, t.(procs := t.procs[q := Told(t.procs[q], Removed)]),
                                          snapshot, p, Cancelled))
  {
    hide MoverGo, WorkerGo, RemoverGo, Fails, Reaches, Told;
    Steps(roots, r, w, RemoveAt(None, t, snapshot, p, Forgotten), KeepLocal.Event.Cancel(p, q),
          RemoveAt(None, t.(procs := t.procs[q := Told(t.procs[q], Removed)]), snapshot, p, Cancelled));
  }

  /** A Remove runs up to the point where only the copy is left to delete. */
  lemma RemoveUnstages(roots: Roots, r: Remote, w: World, t: World, p: nat)
    requires Reaches(roots, r, w, t) && t.row.Some? && t.part.None? && t.procs == map[]
    ensures Reaches(roots, r, w, RemoveAt(None, t, t.row.value, p, Unstaged))
  {
    hide MoverGo, WorkerGo, Fails, Reaches;
    var entry := t.row.value;
    RemoveForgets(roots, r, w, t, p);
    RemoveCancelsNobody(roots, r, w, t, entry, p);
    Steps(roots, r, w, RemoveAt(None, t, entry, p, Cancelled), Go(p, Plain), RemoveAt(None, t, entry, p, Unstaged));
  }

  /** A number that no process has. */
  lemma {:induction false} Above(ps: set<nat>) returns (m: nat)
    ensures forall p :: p in ps ==> p < m
    decreases |ps|
  {
    if ps == {} {
      m := 0;
    } else {
      var p :| p in ps;
      m := Above(ps - {p});
      assert ps == (ps - {p}) + {p};
      m := if p < m then m else p + 1;
    }
  }

  /** A Remove that has deleted the row goes on, up to its look at the copy. */
  lemma RemoveGoesOn(roots: Roots, r: Remote, w: World, t: World, q: nat) returns (part: Option<Content>)
    requires Reaches(roots, r, w, t) && q in t.procs && Unlinked(t.procs)
    requires t.procs[q].Remover? && !t.procs[q].rphase.Seen?
    ensures Reaches(roots, r, w, World(t.row, t.disk, part, t.procs[q := Remover(t.procs[q].snapshot, Unstaged)]))
  {
    hide MoverGo, WorkerGo, Fails, Reaches;
    var m := t.procs[q];
    part := t.part;
    if m.rphase.Unstaged? {
      assert t.procs[q := Remover(m.snapshot, Unstaged)] == t.procs;
      assert t == World(t.row, t.disk, part, t.procs[q := Remover(m.snapshot, Unstaged)]);
    } else {
      var cancelled := World(t.row, t.disk, t.part, t.procs[q := Remover(m.snapshot, Cancelled)]);
      RemoveCancels(roots, r, w, t, q);
      part := None;
      Steps(roots, r, w, cancelled, Go(q, Plain),
          World(t.row, t.disk, None, t.procs[q := Remover(m.snapshot, Unstaged)]));
    }
  }

  lemma RemoveCancels(roots: Roots, r: Remote, w: World, t: World, q: nat)
    requires Reaches(roots, r, w, t) && q in t.procs && t.procs[q].Remover?
    requires t.procs[q].rphase.Forgotten? || t.procs[q].rphase.Cancelled?
    ensures Reaches(roots, r, w, World(t.row, t.disk, t.part, t.procs[q := Remover(t.procs[q].snapshot, Cancelled)]))
  {
    hide MoverGo, WorkerGo, Fails, Reaches;
    var m := t.procs[q];
    if m.rphase.Forgotten? {
      Steps(roots, r, w, t, Go(q, Plain), World(t.row, t.disk, t.part, t.procs[q := Remover(m.snapshot, Cancelled)]));
    } else {
      assert t.procs[q := Remover(m.snapshot, Cancelled)] == t.procs;
      assert t == World(t.row, t.disk, t.part, t.procs[q := Remover(m.snapshot, Cancelled)]);
    }
  }

  // ----- Moves -----

  /** A Move, alone, in its given phase. */
  function MoveAt(disk: map<string, Content>, part: Option<Content>, status: Status, p: nat,
                  src: string, dest: string, phase: MovePhase): World
  {
    World(Some(Entry(status, src)), disk, part, map[p := Mover(src, dest, phase, false)])
  }

  /** A finished copy at rest that can be moved, its destination free. */
  predicate Movable(roots: Roots, t: World, src: string, dest: string, c: Content) {
    && t == World(Some(Entry(Done, src)), t.disk, None, map[])
    && dest == MoveTarget(roots, src) != "" && src in t.disk && t.disk[src] == c && dest !in t.disk
  }

  lemma MoveOpens(roots: Roots, r: Remote, w: World, t: World, p: nat, src: string, dest: string, c: Content)
    requires Reaches(roots, r, w, t) && Movable(roots, t, src, dest, c)
    ensures Reaches(roots, r, w, MoveAt(t.disk, None, Moving, p, src, dest, Clear(c)))
  {
    hide WorkerGo, RemoverGo, Fails, Reaches, MoveTarget;
    var disk := t.disk;
    Steps(roots, r, w, t, BeginMove(p), MoveAt(disk, None, Done, p, src, dest, Snapped));
    Steps(roots, r, w, MoveAt(disk, None, Done, p, src, dest, Snapped), Go(p, Plain),
          MoveAt(disk, None, Moving, p, src, dest, Started));
    Steps(roots, r, w, MoveAt(disk, None, Moving, p, src, dest, Started), Go(p, Plain),
          MoveAt(disk, None, Moving, p, src, dest, Opened(c)));
    Steps(roots, r, w, MoveAt(disk, None, Moving, p, src, dest, Opened(c)), Go(p, Plain),
          MoveAt(disk, None, Moving, p, src, dest, Clear(c)));
  }

  lemma MoveRenames(roots: Roots, r: Remote, w: World, t: World, p: nat, src: string, dest: string, c: Content)
    requires Reaches(roots, r, w, t) && Movable(roots, t, src, dest, c)
    ensures Reaches(roots, r, w, MoveAt(t.disk[dest := c], None, Moving, p, src, dest, Renamed))
  {
    hide WorkerGo, RemoverGo, Fails, Reaches, MoveTarget;
    var n, disk := |c|, t.disk;
    assert c[..n] == c;
    MoveOpens(roots, r, w, t, p, src, dest, c);
    Steps(roots, r, w, MoveAt(disk, None, Moving, p, src, dest, Clear(c)), Go(p, Plain),
          MoveAt(disk, Some([]), Moving, p, src, dest, Copying(c, 0, true)));
    if n > 0 {
      Steps(roots, r, w, MoveAt(disk, Some([]), Moving, p, src, dest, Copying(c, 0, true)), Go(p, Upto(n)),
            MoveAt(disk, Some(c), Moving, p, src, dest, Copying(c, n, true)));
    }
    Steps(roots, r, w, MoveAt(disk, Some(c), Moving, p, src, dest, Copying(c, n, true)), Go(p, Plain),
          MoveAt(disk[dest := c], None, Moving, p, src, dest, Renamed));
  }
}
