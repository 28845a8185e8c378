/** What goes wrong in a "keep local" entry that is queued afresh while something of its past is
    left over: exactly when a Remove in flight, a download that a Remove has cancelled or a leftover
    staging file does harm, and whole runs from a clean start that lose or corrupt a copy
    (internal/download/download.go). */
module KeepLocalRaces {
  import opened Wrappers
  import opened Library
  import opened Paths
  import opened KeepLocal
  import opened KeepLocalRuns

  // ----- what can be left over -----

  /** What Removes leave behind: themselves, and downloads that they have told to stop. */
  predicate OfRemoves(procs: map<nat, Proc>) {
    forall p :: p in procs ==> procs[p].Remover? || CancelledDownload(procs[p])
  }

  predicate CancelledDownload(m: Proc) {
    m.Worker? && m.notice.Removed?
  }

  /** A Remove that has deleted the row has a finished copy in the download folder to delete yet. */
  predicate DeletesCopy(roots: Roots, m: Proc) {
    m.Remover? && !m.rphase.Seen? && m.snapshot.HasCopy() && Within(roots.downloads, m.snapshot.path)
  }

  /** A Remove that has deleted the row, or a cancelled download, has yet to delete the staging file. */
  predicate DeletesStaging(m: Proc) {
    || (m.Remover? && (m.rphase.Forgotten? || m.rphase.Cancelled?))
    || (CancelledDownload(m) && !m.wphase.GivingUp?)
  }

  /** A cancelled download whose reply may be in hand can empty the staging file yet. */
  predicate EmptiesStaging(m: Proc) {
    CancelledDownload(m) && m.wphase.Asking?
  }

  /** A cancelled download is about to mark the row failed. */
  predicate FailsRow(m: Proc) {
    CancelledDownload(m) && m.wphase.GivingUp?
  }

  /** What is wrong with a leftover that is not harmless. */
  lemma Harmful(roots: Roots, r: Remote, m: Proc)
    requires m.Remover? || CancelledDownload(m)
    ensures HarmlessProc(roots, r, m) <==>
            && !DeletesCopy(roots, m) && (DeletesStaging(m) ==> Sturdy(r))
            && (EmptiesStaging(m) ==> r.content == []) && !FailsRow(m)
  {
  }

  /** A cancelled download that has the staging file open stops. */
  lemma WriterStops(roots: Roots, r: Remote, w: World, t: World, p: nat) returns (t': World)
    requires Reaches(roots, r, w, t) && OfRemoves(t.procs) && p in Writers(t.procs)
    ensures Reaches(roots, r, w, t') && t' == t.(procs := t.procs[p := Worker(Quitting, Removed)])
    ensures WriterStopped(t.procs[p], t'.procs[p]) && OfRemoves(t'.procs) && |Writers(t'.procs)| < |Writers(t.procs)|
  {
    hide MoverGo, WorkerGo, RemoverGo, Reaches;
    t' := t.(procs := t.procs[p := Worker(Quitting, Removed)]);
    Steps(roots, r, w, t, Err(p, false), t');
    assert Writers(t'.procs) == Writers(t.procs) - {p};
  }

  /** Until none has. */
  lemma {:induction false} LinksGo(roots: Roots, r: Remote, w: World, t: World) returns (t': World)
    requires Reaches(roots, r, w, t) && OfRemoves(t.procs)
    ensures Reaches(roots, r, w, t') && t' == t.(procs := t'.procs) && t'.procs.Keys == t.procs.Keys
    ensures OfRemoves(t'.procs) && Unlinked(t'.procs)
    ensures forall p :: p in t.procs ==> t'.procs[p] == t.procs[p] || WriterStopped(t.procs[p], t'.procs[p])
    decreases |Writers(t.procs)|
  {
    if Writers(t.procs) == {} {
      t' := t;
      assert forall p :: p in t.procs ==> p !in Writers(t.procs);
    } else {
      var p :| p in Writers(t.procs);
      hide Reaches, OfRemoves, Unlinked;
      var next := WriterStops(roots, r, w, t, p);
      t' := LinksGo(roots, r, w, next);
    }
  }

  function Writers(procs: map<nat, Proc>): set<nat> {
    set p | p in procs && Unlink(procs[p]) != procs[p]
  }

  predicate WriterStopped(m: Proc, m': Proc) {
    CancelledDownload(m) && m.wphase.Writing? && m' == Worker(Quitting, Removed)
  }

  lemma StoppedIsAlike(roots: Roots, m: Proc, m': Proc)
    requires WriterStopped(m, m')
    ensures DeletesCopy(roots, m') <==> DeletesCopy(roots, m)
    ensures DeletesStaging(m') <==> DeletesStaging(m)
    ensures EmptiesStaging(m') <==> EmptiesStaging(m)
    ensures FailsRow(m') <==> FailsRow(m)
  {
  }

  /** A place in the download folder. */
  function PlaceFor(roots: Roots, name: string): (path: string)
    requires name != ""
    ensures Within(roots.downloads, path)
  {
    Join(roots.downloads, name)
  }

  lemma TwoPlaces(roots: Roots)
    ensures PlaceFor(roots, "copy") != PlaceFor(roots, "other")
  {
    var n := |roots.downloads| + 1;
    assert PlaceFor(roots, "copy")[n] != PlaceFor(roots, "other")[n];
  }

  // ----- a Remove with a copy to delete -----

  lemma CopyIsDeleted(roots: Roots, r: Remote, w: World, t: World, q: nat) returns (lost: World)
    requires Reaches(roots, r, w, t) && t.row == Some(Entry(Queued, "")) && Unlinked(t.procs)
    requires q in t.procs && DeletesCopy(roots, t.procs[q])
    ensures Reaches(roots, r, w, lost) && !Playable(r, lost)
  {
    hide MoverGo, WorkerGo, Fails, Reaches, Within;
    var m := t.procs[q];
    var p := Above(t.procs.Keys);
    var part := RemoveGoesOn(roots, r, w, t, q);
    var procs := t.procs[q := Remover(m.snapshot, Unstaged)];
    var waiting := World(Some(Entry(Queued, "")), t.disk, part, procs);
    var x := DownloadEnds(roots, r, w, waiting, p, m.snapshot.path, "");
    var again := World(Some(Entry(Done, m.snapshot.path)), t.disk[m.snapshot.path := x], None, procs);
    lost := World(again.row, again.disk - {m.snapshot.path}, None, procs - {q});
    Steps(roots, r, w, again, Go(q, Plain), lost);
  }

  // ----- a cancelled download about to mark the row failed -----

  /** The row of a download that has renamed its copy into place is marked failed, and the entry is
      queued once more. */
  lemma RowFails(roots: Roots, r: Remote, w: World, t: World, others: map<nat, Proc>, p: nat, q: nat, at: string)
    requires Reaches(roots, r, w, DownloadAt(t, None, others, p, Promoted(at))) && p !in others
    requires t.row == Some(Entry(Downloading, "")) && q in others && FailsRow(others[q])
    ensures Reaches(roots, r, w, DownloadAt(t.(row := Some(Entry(Queued, ""))), None, others - {q}, p, Promoted(at)))
  {
    hide MoverGo, RemoverGo, Fails, Reaches;
    var failed := DownloadAt(t.(row := Some(Entry(Failed, ""))), None, others - {q}, p, Promoted(at));
    Steps(roots, r, w, DownloadAt(t, None, others, p, Promoted(at)), Go(q, Plain), failed);
    Steps(roots, r, w, failed, Enqueue, failed.(row := Some(Entry(Queued, ""))));
  }

  /** A sync relocates a finished copy, and then another download records its old place. */
  lemma OldPlaceRecorded(roots: Roots, r: Remote, w: World, disk: map<string, Content>, others: map<nat, Proc>, p: nat,
                         at: string, to: string)
    returns (lost: World)
    requires Reaches(roots, r, w, World(Some(Entry(Done, at)), disk, None, others[p := Worker(Promoted(at), Running)]))
    requires p !in others && at in disk && at != to && Within(roots.downloads, to)
    ensures Reaches(roots, r, w, lost) && !Playable(r, lost)
  {
    hide MoverGo, RemoverGo, Fails, Reaches, Within;
    var procs := others[p := Worker(Promoted(at), Running)];
    var moved := World(Some(Entry(Done, to)), (disk - {at})[to := disk[at]], None, procs);
    Steps(roots, r, w, World(Some(Entry(Done, at)), disk, None, procs), Relocate(to), moved);
    lost := moved.(row := Some(Entry(Done, at)), procs := others);
    Steps(roots, r, w, moved, Go(p, Plain), lost);
  }

  /** A download has renamed its copy into place when its row is marked failed: the entry is queued once
      more, a second download finishes, a sync relocates its copy, and then the first records the old
      place. */
  lemma FailureHarms(roots: Roots, r: Remote, w: World, t: World, q: nat) returns (lost: World)
    requires Reaches(roots, r, w, t) && t.row == Some(Entry(Queued, "")) && Unlinked(t.procs)
    requires q in t.procs && FailsRow(t.procs[q])
    ensures Reaches(roots, r, w, lost) && !Playable(r, lost)
  {
    hide MoverGo, WorkerGo, RemoverGo, Fails, Reaches, Within;
    var at, to := PlaceFor(roots, "copy"), PlaceFor(roots, "other");
    TwoPlaces(roots);
    var p := Above(t.procs.Keys);
    var x := ReachesPromoted(roots, r, w, t, p, at, "");
    var disk, others := t.disk[at := x], t.procs - {q};
    RowFails(roots, r, w, World(Some(Entry(Downloading, "")), disk, None, t.procs), t.procs, p, q, at);
    var procs := others[p := Worker(Promoted(at), Running)];
    var y := DownloadEnds(roots, r, w, World(Some(Entry(Queued, "")), disk, None, procs), p + 1, at, "");
    lost := OldPlaceRecorded(roots, r, w, disk[at := y], others, p, at, to);
  }

  // ----- a cancelled download with a reply in hand -----

  /** The whole file begins to arrive for it after all, and empties the staging file that another download
      is about to rename into place. */
  lemma EmptyingHarms(roots: Roots, r: Remote, w: World, t: World, q: nat) returns (lost: World)
    requires Reaches(roots, r, w, t) && t.row == Some(Entry(Queued, "")) && Unlinked(t.procs)
    requires q in t.procs && EmptiesStaging(t.procs[q]) && r.content != []
    ensures Reaches(roots, r, w, lost) && !Playable(r, lost)
  {
    hide MoverGo, RemoverGo, Fails, Reaches, Within;
    var p := Above(t.procs.Keys);
    var x := ReachesAlive(roots, r, w, t, p, "");
    var row, linked := Some(Entry(Downloading, "")), t.procs[q := Worker(Writing(0, true), Removed)];
    Steps(roots, r, w, World(row, t.disk, Some(x), t.procs[p := Worker(Alive, Running)]), Go(q, Whole),
          World(row, t.disk, Some([]), linked[p := Worker(Alive, Running)]));
    lost := EmptyIsPromoted(roots, r, w, t, row, p, q);
  }

  lemma EmptyIsPromoted(roots: Roots, r: Remote, w: World, t: World, row: Option<Entry>, p: nat, q: nat)
    returns (lost: World)
    requires row == Some(Entry(Downloading, "")) && r.content != []
    requires p !in t.procs && q in t.procs && Unlinked(t.procs)
    requires Reaches(roots, r, w, World(row, t.disk, Some([]),
                                        t.procs[q := Worker(Writing(0, true), Removed)][p := Worker(Alive, Running)]))
    ensures Reaches(roots, r, w, lost) && !Playable(r, lost)
  {
    hide MoverGo, RemoverGo, Fails, Reaches, Within;
    var at, linked := PlaceFor(roots, "copy"), t.procs[q := Worker(Writing(0, true), Removed)];
    var gone := t.procs[q := Worker(Writing(0, false), Removed)];
    var renamed := World(row, t.disk[at := []], None, gone[p := Worker(Promoted(at), Running)]);
    Steps(roots, r, w, World(row, t.disk, Some([]), linked[p := Worker(Alive, Running)]), Go(p, To(at)), renamed);
    lost := World(Some(Entry(Done, at)), t.disk[at := []], None, gone);
    Steps(roots, r, w, renamed, Go(p, Plain), lost);
  }

  // ----- a staging file to delete -----

  /** Its next step deletes the staging file. */
  predicate DeletesNext(m: Proc) {
    (m.Remover? && m.rphase.Cancelled?) || (CancelledDownload(m) && m.wphase.Quitting?)
  }

  function AfterDelete(procs: map<nat, Proc>, q: nat): map<nat, Proc>
    requires q in procs
  {
    if procs[q].Remover? then procs[q := Remover(procs[q].snapshot, Unstaged)] else procs - {q}
  }

  lemma Deletes(roots: Roots, r: Remote, w: World, t: World, q: nat)
    requires Reaches(roots, r, w, t) && Unlinked(t.procs) && q in t.procs && DeletesNext(t.procs[q])
    ensures Reaches(roots, r, w, World(t.row, t.disk, None, AfterDelete(t.procs, q)))
  {
    hide MoverGo, Fails, Reaches;
    Steps(roots, r, w, t, Go(q, Plain), World(t.row, t.disk, None, AfterDelete(t.procs, q)));
  }

  lemma AfterDeleteUnlinked(procs: map<nat, Proc>, q: nat)
    requires Unlinked(procs) && q in procs
    ensures Unlinked(AfterDelete(procs, q))
  {
  }

  /** Every leftover that deletes the staging file gets to the point where that comes next. */
  lemma ComesToDelete(roots: Roots, r: Remote, w: World, t: World, q: nat) returns (t': World)
    requires Reaches(roots, r, w, t) && Unlinked(t.procs) && q in t.procs && DeletesStaging(t.procs[q])
    ensures Reaches(roots, r, w, t') && t'.row == t.row && t'.disk == t.disk && t'.procs.Keys == t.procs.Keys
    ensures Unlinked(t'.procs) && DeletesNext(t'.procs[q])
  {
    hide MoverGo, RemoverGo, Reaches;
    var m := t.procs[q];
    if m.Remover? {
      RemoveCancels(roots, r, w, t, q);
      t' := World(t.row, t.disk, t.part, t.procs[q := Remover(m.snapshot, Cancelled)]);
    } else if m.wphase.Quitting? {
      t' := t;
    } else if m.wphase.Sized? {
      t' := World(t.row, t.disk, None, t.procs[q := Worker(Quitting, Removed)]);
      Steps(roots, r, w, t, Go(q, Plain), t');
    } else {
      t' := World(t.row, t.disk, t.part, t.procs[q := Worker(Quitting, Removed)]);
      Steps(roots, r, w, t, if m.wphase.Fetched? then Go(q, Plain) else Err(q, false), t');
    }
  }

  /** A byte that gives a file away that is pieced together. */
  lemma Giveaway(r: Remote) returns (o: nat)
    requires !Sturdy(r)
    ensures 0 < o < |r.content| && (r.sizeKnown ==> r.content[o] != r.content[0])
  {
    if r.sizeKnown {
      o :| 0 <= o < |r.content| && r.content[o] != r.content[0];
    } else {
      o := 1;
    }
  }

  /** A download gets as far as byte o, is interrupted and looks again, and then its staging file is
      deleted: it goes on writing at byte o into an empty one. */
  lemma StagingIsDeleted(roots: Roots, r: Remote, w: World, t: World, q: nat, p: nat, o: nat, path: string)
    requires Reaches(roots, r, w, t) && t.row == Some(Entry(Queued, path)) && t.part.None? && Unlinked(t.procs)
    requires q in t.procs && DeletesNext(t.procs[q]) && p !in t.procs && 0 < o < |r.content|
    ensures Reaches(roots, r, w, DownloadAt(t.(row := Some(Entry(Downloading, path))), Some([]),
                                            AfterDelete(t.procs, q), p, Writing(o, true)))
  {
    hide MoverGo, RemoverGo, Fails, Reaches;
    var others, later := t.procs, AfterDelete(t.procs, q);
    var claimed := t.(row := Some(Entry(Downloading, path)));
    PartlyWritten(roots, r, w, t, p, o, path);
    var asking := DownloadAt(claimed, Some(r.content[..o]), others, p, Asking(o));
    Deletes(roots, r, w, asking, q);
    assert AfterDelete(asking.procs, q) == later[p := Worker(Asking(o), Running)];
    Steps(roots, r, w, DownloadAt(claimed, None, later, p, Asking(o)), Go(p, PartialContent),
          DownloadAt(claimed, Some([]), later, p, Writing(o, true)));
  }

  lemma PartlyWritten(roots: Roots, r: Remote, w: World, t: World, p: nat, o: nat, path: string)
    requires Reaches(roots, r, w, t) && t.row == Some(Entry(Queued, path)) && t.part.None? && p !in t.procs
    requires 0 < o < |r.content|
    ensures Reaches(roots, r, w, DownloadAt(t.(row := Some(Entry(Downloading, path))), Some(r.content[..o]),
                                            t.procs, p, Asking(o)))
  {
    hide MoverGo, RemoverGo, Reaches;
    var others, claimed := t.procs, t.(row := Some(Entry(Downloading, path)));
    assert [] + r.content[0..o] == r.content[..o];
    Steps(roots, r, w, t, Claim(p), DownloadAt(claimed, None, others, p, Ready));
    Steps(roots, r, w, DownloadAt(claimed, None, others, p, Ready), Go(p, Plain),
        DownloadAt(claimed, None, others, p, Asking(0)));
    Steps(roots, r, w, DownloadAt(claimed, None, others, p, Asking(0)), Go(p, Whole),
          DownloadAt(claimed, Some([]), others, p, Writing(0, true)));
    Steps(roots, r, w, DownloadAt(claimed, Some([]), others, p, Writing(0, true)), Go(p, Upto(o)),
          DownloadAt(claimed, Some(r.content[..o]), others, p, Writing(o, true)));
    LooksAgain(roots, r, w, claimed, r.content[..o], others, p, o);
  }

  /** An interrupted download looks at its staging file again. */
  lemma LooksAgain(roots: Roots, r: Remote, w: World, t: World, part: Content, others: map<nat, Proc>, p: nat, pos: nat)
    requires Reaches(roots, r, w, DownloadAt(t, Some(part), others, p, Writing(pos, true))) && p !in others
    requires 0 < |part| < |r.content|
    ensures Reaches(roots, r, w, DownloadAt(t, Some(part), others, p, Asking(|part|)))
  {
    hide MoverGo, RemoverGo, Reaches;
    Steps(roots, r, w, DownloadAt(t, Some(part), others, p, Writing(pos, true)), Err(p, true),
          DownloadAt(t, Some(part), others, p, Ready));
    Steps(roots, r, w, DownloadAt(t, Some(part), others, p, Ready), Go(p, Plain),
          DownloadAt(t, Some(part), others, p, Asking(|part|)));
  }

  /** A resumed download fetches the rest. */
  lemma RestArrives(roots: Roots, r: Remote, w: World, t: World, part: Content, others: map<nat, Proc>, p: nat,
      pos: nat)
    requires Reaches(roots, r, w, DownloadAt(t, Some(part), others, p, Writing(pos, true))) && p !in others
    requires pos < |r.content|
    ensures Reaches(roots, r, w, DownloadAt(t, Some(part + r.content[pos..]), others, p, Fetched))
  {
    hide MoverGo, RemoverGo, Fails, Reaches;
    var n := |r.content|;
    assert r.content[pos..n] == r.content[pos..];
    Steps(roots, r, w, DownloadAt(t, Some(part), others, p, Writing(pos, true)), Go(p, Upto(n)),
          DownloadAt(t, Some(part + r.content[pos..]), others, p, Writing(n, true)));
    Steps(roots, r, w, DownloadAt(t, Some(part + r.content[pos..]), others, p, Writing(n, true)), Go(p, Plain),
          DownloadAt(t, Some(part + r.content[pos..]), others, p, Fetched));
  }

  /** Whatever a download of the right size or of unknown size has fetched is the entry's copy then. */
  lemma FetchedEnds(roots: Roots, r: Remote, w: World, t: World, part: Content, others: map<nat, Proc>, p: nat,
      dest: string)
    requires Reaches(roots, r, w, DownloadAt(t, Some(part), others, p, Fetched)) && p !in others && t.row.Some?
    requires (!r.sizeKnown || |part| == |r.content|) && Unlinked(others) && Within(roots.downloads, dest)
    ensures Reaches(roots, r, w, World(Some(Entry(Done, dest)), t.disk[dest := part], None, others))
  {
    hide Reaches, Within;
    FetchedPromotes(roots, r, w, DownloadAt(t, Some(part), others, p, Fetched), others, p, dest);
    PromotedEnds(roots, r, w, t.(disk := t.disk[dest := part]), others, p, dest);
  }

  /** With the size unknown the tail of the file is promoted. */
  lemma TailIsPromoted(roots: Roots, r: Remote, w: World, t: World, others: map<nat, Proc>, p: nat, o: nat)
    returns (lost: World)
    requires Reaches(roots, r, w, DownloadAt(t, Some([]), others, p, Writing(o, true))) && p !in others && t.row.Some?
    requires !r.sizeKnown && 0 < o < |r.content| && Unlinked(others)
    ensures Reaches(roots, r, w, lost) && !Playable(r, lost)
  {
    hide Reaches, Within;
    var at := PlaceFor(roots, "copy");
    RestArrives(roots, r, w, t, [], others, p, o);
    FetchedEnds(roots, r, w, t, [] + r.content[o..], others, p, at);
    lost := World(Some(Entry(Done, at)), t.disk[at := [] + r.content[o..]], None, others);
    assert |[] + r.content[o..]| < |r.content|;
  }

  /** With the size known one byte of the tail is kept, and the rest of the file appended to it. */
  lemma PiecesArePromoted(roots: Roots, r: Remote, w: World, t: World, others: map<nat, Proc>, p: nat, o: nat)
    returns (lost: World)
    requires Reaches(roots, r, w, DownloadAt(t, Some([]), others, p, Writing(o, true))) && p !in others && t.row.Some?
    requires 0 < o < |r.content| && r.content[o] != r.content[0] && Unlinked(others)
    ensures Reaches(roots, r, w, lost) && !Playable(r, lost)
  {
    hide MoverGo, RemoverGo, Fails, Reaches, Within;
    var at := PlaceFor(roots, "copy");
    var byte := [r.content[o]];
    assert [] + r.content[o..o + 1] == byte;
    Steps(roots, r, w, DownloadAt(t, Some([]), others, p, Writing(o, true)), Go(p, Upto(o + 1)),
          DownloadAt(t, Some(byte), others, p, Writing(o + 1, true)));
    LooksAgain(roots, r, w, t, byte, others, p, o + 1);
    Steps(roots, r, w, DownloadAt(t, Some(byte), others, p, Asking(1)), Go(p, PartialContent),
          DownloadAt(t, Some(byte), others, p, Writing(1, true)));
    RestArrives(roots, r, w, t, byte, others, p, 1);
    FetchedEnds(roots, r, w, t, byte + r.content[1..], others, p, at);
    lost := World(Some(Entry(Done, at)), t.disk[at := byte + r.content[1..]], None, others);
    assert (byte + r.content[1..])[0] != r.content[0];
  }

  lemma StagingHarms(roots: Roots, r: Remote, w: World, t: World, q: nat) returns (lost: World)
    requires Reaches(roots, r, w, t) && t.row == Some(Entry(Queued, "")) && Unlinked(t.procs)
    requires q in t.procs && DeletesStaging(t.procs[q]) && !Sturdy(r)
    ensures Reaches(roots, r, w, lost) && !Playable(r, lost)
  {
    hide MoverGo, WorkerGo, RemoverGo, Fails, Reaches, Within, DeletesNext, DeletesStaging;
    var at := PlaceFor(roots, "other");
    var ready := ComesToDelete(roots, r, w, t, q);
    var p := Above(ready.procs.Keys);
    var x := ReachesPromoted(roots, r, w, ready, p, at, "");
    var disk := t.disk[at := x];
    PromotedRestarts(roots, r, w, World(Some(Entry(Downloading, "")), disk, None, ready.procs), ready.procs, p, at, "");
    var o := Giveaway(r);
    var queued := World(Some(Entry(Queued, "")), disk, None, ready.procs);
    StagingIsDeleted(roots, r, w, queued, q, p, o, "");
    var later, claimed := AfterDelete(ready.procs, q), queued.(row := Some(Entry(Downloading, "")));
    AfterDeleteUnlinked(ready.procs, q);
    if r.sizeKnown {
      lost := PiecesArePromoted(roots, r, w, claimed, later, p, o);
    } else {
      lost := TailIsPromoted(roots, r, w, claimed, later, p, o);
    }
  }

  // ----- a staging file left over -----

  /** A leftover that a download builds on and that is wrong is promoted at the right size. */
  lemma LeftoverIsPromoted(roots: Roots, r: Remote, w: World, t: World) returns (lost: World)
    requires Reaches(roots, r, w, t) && t.row == Some(Entry(Queued, "")) && Unlinked(t.procs)
    requires !HarmlessPart(r, t.part)
    ensures Reaches(roots, r, w, lost) && !Playable(r, lost)
  {
    hide MoverGo, RemoverGo, Fails, Reaches, Within;
    var at := PlaceFor(roots, "copy");
    var p := Above(t.procs.Keys);
    var bad, n := t.part.value, |r.content|;
    var claimed := t.(row := Some(Entry(Downloading, "")));
    var whole := bad + r.content[|bad|..];
    Steps(roots, r, w, t, Claim(p), DownloadAt(claimed, Some(bad), t.procs, p, Ready));
    if |bad| < n {
      Steps(roots, r, w, DownloadAt(claimed, Some(bad), t.procs, p, Ready), Go(p, Plain),
            DownloadAt(claimed, Some(bad), t.procs, p, Asking(|bad|)));
      Steps(roots, r, w, DownloadAt(claimed, Some(bad), t.procs, p, Asking(|bad|)), Go(p, PartialContent),
            DownloadAt(claimed, Some(bad), t.procs, p, Writing(|bad|, true)));
      RestArrives(roots, r, w, claimed, bad, t.procs, p, |bad|);
    } else {
      assert whole == bad;
      Steps(roots, r, w, DownloadAt(claimed, Some(bad), t.procs, p, Ready), Go(p, Plain),
            DownloadAt(claimed, Some(bad), t.procs, p, Fetched));
    }
    FetchedEnds(roots, r, w, claimed, whole, t.procs, p, at);
    lost := World(Some(Entry(Done, at)), t.disk[at := whole], None, t.procs);
    assert whole[..|bad|] == bad;
  }

  // ----- exactly when an enqueue does harm -----

  lemma HarmlessStaysPlayable(roots: Roots, r: Remote, w: World, t: World)
    requires w.row.None? && Harmless(roots, r, w) && Reaches(roots, r, Requeued(w), t)
    ensures Playable(r, t)
  {
    QueuedIsGood(roots, r, w);
    var events :| AllGuarded(roots, r, Requeued(w), events) && RunFrom(roots, r, Requeued(w), events) == Some(t);
    AlwaysPlayable(roots, r, Requeued(w), events);
  }

  lemma QueuedIsGood(roots: Roots, r: Remote, w: World)
    requires w.row.None? && Harmless(roots, r, w)
    ensures Inv(roots, r, Requeued(w))
  {
    hide HarmlessPart, Sturdy, Within;
  }

  /** From an entry just queued, with what Removes leave behind, one harmful leftover is enough. */
  lemma OneHarms(roots: Roots, r: Remote, w: World, t: World, q: nat) returns (lost: World)
    requires Reaches(roots, r, w, t) && t.row == Some(Entry(Queued, "")) && Unlinked(t.procs)
    requires q in t.procs && (t.procs[q].Remover? || CancelledDownload(t.procs[q]))
    requires !HarmlessProc(roots, r, t.procs[q])
    ensures Reaches(roots, r, w, lost) && !Playable(r, lost)
  {
    Harmful(roots, r, t.procs[q]);
    hide Reaches, Playable, DeletesCopy, DeletesStaging, EmptiesStaging, FailsRow, Sturdy, HarmlessProc, Unlinked;
    if DeletesCopy(roots, t.procs[q]) {
      lost := CopyIsDeleted(roots, r, w, t, q);
    } else if FailsRow(t.procs[q]) {
      lost := FailureHarms(roots, r, w, t, q);
    } else if DeletesStaging(t.procs[q]) && !Sturdy(r) {
      lost := StagingHarms(roots, r, w, t, q);
    } else {
      lost := EmptyingHarms(roots, r, w, t, q);
    }
  }

  lemma HarmDone(roots: Roots, r: Remote, w: World) returns (lost: World)
    requires w.row.None? && OfRemoves(w.procs) && !Harmless(roots, r, w)
    ensures Reaches(roots, r, Requeued(w), lost) && !Playable(r, lost)
  {
    hide Reaches, Playable, HarmlessPart, Unlinked, WriterStopped;
    Starts(roots, r, Requeued(w));
    var t := LinksGo(roots, r, Requeued(w), Requeued(w));
    if HarmlessPart(r, w.part) {
      var q :| q in w.procs && !HarmlessProc(roots, r, w.procs[q]);
      StillHarmful(roots, r, w.procs[q], t.procs[q]);
      lost := OneHarms(roots, r, Requeued(w), t, q);
    } else {
      lost := LeftoverIsPromoted(roots, r, Requeued(w), t);
    }
  }

  lemma StillHarmful(roots: Roots, r: Remote, m: Proc, m': Proc)
    requires !HarmlessProc(roots, r, m) && (m' == m || WriterStopped(m, m')) && (m.Remover? || CancelledDownload(m))
    ensures !HarmlessProc(roots, r, m')
  {
    hide Sturdy;
  }

  /** With nothing in flight but Removes and downloads that a Remove has cancelled, queueing an entry
      afresh can lead to a missing or wrong file at a done row's path if and only if
      - a Remove has a copy in the download folder to delete yet,
      - one of them has the staging file to delete and the remote file is not sturdy,
      - a cancelled download has its reply in hand and the file is not empty,
      - a cancelled download is about to mark the row failed, or
      - a wrong staging file is left that a download would build on. */
  lemma EnqueueHarmsIff(roots: Roots, r: Remote, w: World)
    requires w.row.None? && OfRemoves(w.procs)
    ensures (exists t :: Reaches(roots, r, Take(roots, r, w, Enqueue), t) && !Playable(r, t)) <==>
            || (exists q :: q in w.procs && DeletesCopy(roots, w.procs[q]))
            || (!Sturdy(r) && exists q :: q in w.procs && DeletesStaging(w.procs[q]))
            || (r.content != [] && exists q :: q in w.procs && EmptiesStaging(w.procs[q]))
            || (exists q :: q in w.procs && FailsRow(w.procs[q]))
            || !HarmlessPart(r, w.part)
  {
    RequeuedIsEnqueued(roots, r, w);
    forall q | q in w.procs
      ensures HarmlessProc(roots, r, w.procs[q]) <==>
              && !DeletesCopy(roots, w.procs[q]) && (DeletesStaging(w.procs[q]) ==> Sturdy(r))
              && (EmptiesStaging(w.procs[q]) ==> r.content == []) && !FailsRow(w.procs[q])
    {
      Harmful(roots, r, w.procs[q]);
    }
    hide Reaches, Playable, HarmlessProc, HarmlessPart, Sturdy, Take;
    hide DeletesCopy, DeletesStaging, EmptiesStaging, FailsRow;
    if Harmless(roots, r, w) {
      forall t | Reaches(roots, r, Requeued(w), t)
        ensures Playable(r, t)
      {
        HarmlessStaysPlayable(roots, r, w, t);
      }
    } else {
      var t := HarmDone(roots, r, w);
    }
  }

  /** For an idle entry only the staging file counts: it does harm exactly when it is no longer than
      the remote file, a download takes or continues it, and it is no prefix. */
  lemma LeftoverHarmsIff(roots: Roots, r: Remote, w: World)
    requires w.row.None? && w.procs == map[]
    ensures (exists t :: Reaches(roots, r, Take(roots, r, w, Enqueue), t) && !Playable(r, t)) <==>
            w.part.Some? && !(w.part.value <= r.content)
            && (|w.part.value| < |r.content| || (|w.part.value| == |r.content| && r.sizeKnown))
  {
    hide Reaches, Playable, Take;
    EnqueueHarmsIff(roots, r, w);
  }

  // ----- whole runs -----

  /** From start to a world whose entry has just been queued afresh, and on to a row whose file is
      missing or wrong: the one enqueue in between is to blame. */
  ghost predicate EnqueueHarms(roots: Roots, r: Remote, start: World) {
    exists w: World, t: World :: w.row.None? && Reaches(roots, r, start, w)
                                 && Reaches(roots, r, Take(roots, r, w, Enqueue), t) && !Playable(r, t)
  }

  lemma Harms(roots: Roots, r: Remote, start: World, w: World, t: World)
    requires w.row.None? && Reaches(roots, r, start, w) && Reaches(roots, r, Requeued(w), t) && !Playable(r, t)
    ensures EnqueueHarms(roots, r, start)
  {
    hide Reaches, Playable, Take;
    RequeuedIsEnqueued(roots, r, w);
  }

  /** From a finished copy at rest in the download folder: remove it, queue it again at once, and the
      Remove deletes the second download. */
  lemma FreshCopyIsLost(roots: Roots, r: Remote, path: string)
    requires Within(roots.downloads, path)
    ensures var start := World(Some(Entry(Done, path)), map[path := r.content], None, map[]);
            Inv(roots, r, start) && EnqueueHarms(roots, r, start)
  {
    hide MoverGo, WorkerGo, RemoverGo, Fails, Reaches, EnqueueHarms;
    var start := World(Some(Entry(Done, path)), map[path := r.content], None, map[]);
    var w := RemoveAt(None, start, Entry(Done, path), 0, Unstaged);
    Starts(roots, r, start);
    RemoveUnstages(roots, r, start, start, 0);
    Starts(roots, r, Requeued(w));
    var lost := CopyIsDeleted(roots, r, Requeued(w), Requeued(w), 0);
    Harms(roots, r, start, w, lost);
  }

  /** A Remove overtakes a Move that has renamed its copy: it cancels the Move, too late, and
      deletes the copy at the old place. */
  lemma RemoveOvertakes(roots: Roots, r: Remote, start: World, disk: map<string, Content>, src: string, dest: string)
    requires Reaches(roots, r, start, MoveAt(disk, None, Moving, 0, src, dest, Renamed))
    ensures Reaches(roots, r, start, World(None, disk - {src}, None, map[0 := Mover(src, dest, Renamed, true)]))
  {
    hide MoverGo, WorkerGo, Fails, Reaches;
    var t, entry := MoveAt(disk, None, Moving, 0, src, dest, Renamed), Entry(Moving, src);
    var told := t.(procs := map[0 := Mover(src, dest, Renamed, true)]);
    RemoveForgets(roots, r, start, t, 2);
    RemoveCancelsOne(roots, r, start, t, entry, 2, 0);
    assert t.procs[0 := Told(t.procs[0], Removed)] == told.procs;
    RemoveFinishes(roots, r, start, told, entry);
  }

  lemma RemoveFinishes(roots: Roots, r: Remote, start: World, t: World, entry: Entry)
    requires 2 !in t.procs && t.part.None? && entry.HasCopy() && forall p :: p in t.procs ==>
        Unlink(t.procs[p]) == t.procs[p]
    requires Reaches(roots, r, start, RemoveAt(None, t, entry, 2, Cancelled))
    ensures Reaches(roots, r, start, World(None, t.disk - {entry.path}, None, t.procs))
  {
    Steps(roots, r, start, RemoveAt(None, t, entry, 2, Cancelled), Go(2, Plain), RemoveAt(None, t, entry, 2, Unstaged));
    Steps(roots, r, start, RemoveAt(None, t, entry, 2, Unstaged), Go(2, Plain),
          World(None, t.disk - {entry.path}, None, t.procs));
  }

  /** From a finished copy at rest: move it, remove it just after the rename, queue it again, and
      the Move deletes the download that took its place. */
  lemma MovedCopyIsLost(roots: Roots, r: Remote, src: string, dest: string)
    requires dest == MoveTarget(roots, src) != "" && dest != src
    ensures var start := World(Some(Entry(Done, src)), map[src := r.content], None, map[]);
            Inv(roots, r, start) && EnqueueHarms(roots, r, start)
  {
    hide MoverGo, WorkerGo, RemoverGo, Fails, Reaches, EnqueueHarms, MoveTarget;
    var start := World(Some(Entry(Done, src)), map[src := r.content], None, map[]);
    var w := World(None, start.disk[dest := r.content] - {src}, None, map[0 := Mover(src, dest, Renamed, true)]);
    Starts(roots, r, start);
    MoveRenames(roots, r, start, start, 0, src, dest, r.content);
    RemoveOvertakes(roots, r, start, start.disk[dest := r.content], src, dest);
    var lost := MoveSettles(roots, r, w, src, dest);
    Harms(roots, r, start, w, lost);
  }

  lemma MoveSettles(roots: Roots, r: Remote, w: World, src: string, dest: string) returns (lost: World)
    requires w.row.None? && w.part.None? && w.procs == map[0 := Mover(src, dest, Renamed, true)]
    requires Within(roots.downloads, dest)
    ensures Reaches(roots, r, Requeued(w), lost) && !Playable(r, lost)
  {
    hide WorkerGo, RemoverGo, Fails, Reaches;
    var claimed := w.(row := Some(Entry(Downloading, "")));
    Starts(roots, r, Requeued(w));
    Steps(roots, r, Requeued(w), Requeued(w), Claim(1), DownloadAt(claimed, None, w.procs, 1, Ready));
    FreshLook(roots, r, Requeued(w), claimed, w.procs, 1);
    WholeArrives(roots, r, Requeued(w), claimed, None, w.procs, 1, 0);
    FetchedEnds(roots, r, Requeued(w), claimed, r.content, w.procs, 1, dest);
    var again := World(Some(Entry(Done, dest)), w.disk[dest := r.content], None, w.procs);
    var settled := again.(procs := map[0 := Mover(src, dest, Cleanup(dest), true)]);
    Steps(roots, r, Requeued(w), again, Go(0, Plain), settled);
    lost := Take(roots, r, settled, Go(0, Plain));
    Steps(roots, r, Requeued(w), settled, Go(0, Plain), lost);
  }

  lemma FreshLook(roots: Roots, r: Remote, w: World, t: World, others: map<nat, Proc>, p: nat)
    requires Reaches(roots, r, w, DownloadAt(t, None, others, p, Ready)) && p !in others
    ensures Reaches(roots, r, w, DownloadAt(t, None, others, p, Asking(0)))
  {
    hide MoverGo, RemoverGo, Fails, Reaches;
    Steps(roots, r, w, DownloadAt(t, None, others, p, Ready), Go(p, Plain), DownloadAt(t, None, others, p, Asking(0)));
  }

  /** A wrong leftover comes about: from nothing, a download is interrupted in the middle, its
      successor is overtaken by a Remove and then by a crash. */
  lemma WrongContentIsPromoted(roots: Roots, r: Remote)
    requires r.content == [7, 8]
    ensures Inv(roots, r, World(None, map[], None, map[])) && EnqueueHarms(roots, r, World(None, map[], None, map[]))
  {
    hide MoverGo, WorkerGo, RemoverGo, Fails, Reaches, EnqueueHarms;
    var start, w := World(None, map[], None, map[]), World(None, map[], Some([8]), map[]);
    var claimed := start.(row := Some(Entry(Downloading, "")));
    Starts(roots, r, start);
    HalfWritten(roots, r, start, claimed);
    TailOvertaken(roots, r, start, claimed, claimed.row.value);
    TailWritten(roots, r, start, claimed, claimed.row.value);
    assert [8][0] != r.content[0];
    Starts(roots, r, Requeued(w));
    var t := LeftoverIsPromoted(roots, r, Requeued(w), Requeued(w));
    Harms(roots, r, start, w, t);
  }

  /** A crash leaves half of the file in the .part file ... */
  lemma HalfWritten(roots: Roots, r: Remote, start: World, claimed: World)
    requires r.content == [7, 8] && start == World(None, map[], None, map[]) && Reaches(roots, r, start, start)
    requires claimed == start.(row := Some(Entry(Downloading, "")))
    ensures Reaches(roots, r, start, World(Some(Entry(Queued, "")), map[], Some([7]), map[]))
  {
    hide MoverGo, RemoverGo, Fails, Reaches;
    var queued := start.(row := Some(Entry(Queued, "")));
    Steps(roots, r, start, start, Enqueue, queued);
    Steps(roots, r, start, queued, Claim(1), DownloadAt(claimed, None, map[], 1, Ready));
    Steps(roots, r, start, DownloadAt(claimed, None, map[], 1, Ready), Go(1, Plain),
          DownloadAt(claimed, None, map[], 1, Asking(0)));
    Steps(roots, r, start, DownloadAt(claimed, None, map[], 1, Asking(0)), Go(1, Whole),
          DownloadAt(claimed, Some([]), map[], 1, Writing(0, true)));
    assert [] + r.content[0..1] == [7];
    Steps(roots, r, start, DownloadAt(claimed, Some([]), map[], 1, Writing(0, true)), Go(1, Upto(1)),
          DownloadAt(claimed, Some([7]), map[], 1, Writing(1, true)));
    Steps(roots, r, start, DownloadAt(claimed, Some([7]), map[], 1, Writing(1, true)), Crash,
        queued.(part := Some([7])));
  }

  /** ... a Remove deletes it between the next worker's look at it ... */
  lemma TailOvertaken(roots: Roots, r: Remote, start: World, claimed: World, entry: Entry)
    requires r.content == [7, 8] && start == World(None, map[], None, map[]) && entry == Entry(Downloading, "")
    requires claimed == start.(row := Some(entry))
    requires Reaches(roots, r, start, World(Some(Entry(Queued, "")), map[], Some([7]), map[]))
    ensures Reaches(roots, r, start, RemoveAt(None, DownloadAt(claimed, None, map[], 1, Asking(1)), entry, 2, Unstaged))
  {
    hide MoverGo, Fails, Reaches;
    var t0 := DownloadAt(claimed, Some([7]), map[], 1, Ready);
    Steps(roots, r, start, World(Some(Entry(Queued, "")), map[], Some([7]), map[]), Claim(1), t0);
    RemoveForgets(roots, r, start, t0, 2);
    RemoveCancelsNobody(roots, r, start, t0, entry, 2);
    var t1 := DownloadAt(claimed, Some([7]), map[], 1, Asking(1));
    Steps(roots, r, start, RemoveAt(None, t0, entry, 2, Cancelled), Go(1, Plain),
        RemoveAt(None, t1, entry, 2, Cancelled));
    Steps(roots, r, start, RemoveAt(None, t1, entry, 2, Cancelled), Go(2, Plain),
          RemoveAt(None, DownloadAt(claimed, None, map[], 1, Asking(1)), entry, 2, Unstaged));
  }

  /** ... and its open, and another crash leaves the other half. */
  lemma TailWritten(roots: Roots, r: Remote, start: World, claimed: World, entry: Entry)
    requires r.content == [7, 8] && start == World(None, map[], None, map[]) && entry == Entry(Downloading, "")
    requires claimed == start.(row := Some(entry))
    requires Reaches(roots, r, start,
        RemoveAt(None, DownloadAt(claimed, None, map[], 1, Asking(1)), entry, 2, Unstaged))
    ensures Reaches(roots, r, start, World(None, map[], Some([8]), map[]))
  {
    hide MoverGo, Fails, Reaches;
    var t2 := DownloadAt(claimed, None, map[], 1, Asking(1));
    var t3 := DownloadAt(claimed, Some([]), map[], 1, Writing(1, true));
    Steps(roots, r, start, RemoveAt(None, t2, entry, 2, Unstaged), Go(1, PartialContent),
        RemoveAt(None, t3, entry, 2, Unstaged));
    var t4 := DownloadAt(claimed, Some([8]), map[], 1, Writing(2, true));
    assert [] + r.content[1..2] == [8];
    Steps(roots, r, start, RemoveAt(None, t3, entry, 2, Unstaged), Go(1, Upto(2)),
        RemoveAt(None, t4, entry, 2, Unstaged));
    Steps(roots, r, start, RemoveAt(None, t4, entry, 2, Unstaged), Crash, World(None, map[], Some([8]), map[]));
  }

  // ----- a cancelled download -----

  /** The entry has been removed and that Remove is over, but the download it has cancelled is not: it
      has the staging file, which the Remove has deleted already, to delete once more. */
  function CancelledLeft(): World {
    World(None, map[], None, map[0 := Worker(Writing(1, false), Removed)])
  }

  /** From nothing: queue a file, begin to download it and remove it. The Remove is over; what is left is
      the cancelled download, and when the entry is queued again it deletes the staging file of the next
      one. */
  lemma CancelledDownloadHarms(roots: Roots, r: Remote) returns (t: World)
    requires !Sturdy(r)
    ensures Inv(roots, r, World(None, map[], None, map[]))
    ensures Reaches(roots, r, World(None, map[], None, map[]), CancelledLeft())
    ensures Reaches(roots, r, Take(roots, r, CancelledLeft(), Enqueue), t) && !Playable(r, t)
  {
    assert |r.content| >= 2;
    assert !HarmlessProc(roots, r, CancelledLeft().procs[0]);
    hide Reaches, Sturdy;
    var start := World(None, map[], None, map[]);
    Starts(roots, r, start);
    OneByteWritten(roots, r, start);
    RemoveEnds(roots, r, start);
    hide Playable;
    t := HarmDone(roots, r, CancelledLeft());
  }

  /** A download at its second byte. */
  lemma OneByteWritten(roots: Roots, r: Remote, start: World)
    requires start == World(None, map[], None, map[]) && Reaches(roots, r, start, start) && |r.content| >= 2
    ensures Reaches(roots, r, start, DownloadAt(start.(row := Some(Entry(Downloading, ""))), Some(r.content[..1]),
                                                map[], 0, Writing(1, true)))
  {
    hide MoverGo, RemoverGo, Fails, Reaches;
    var queued, claimed := start.(row := Some(Entry(Queued, ""))), start.(row := Some(Entry(Downloading, "")));
    Steps(roots, r, start, start, Enqueue, queued);
    Steps(roots, r, start, queued, Claim(0), DownloadAt(claimed, None, map[], 0, Ready));
    FreshLook(roots, r, start, claimed, map[], 0);
    Steps(roots, r, start, DownloadAt(claimed, None, map[], 0, Asking(0)), Go(0, Whole),
          DownloadAt(claimed, Some([]), map[], 0, Writing(0, true)));
    assert [] + r.content[0..1] == r.content[..1];
    Steps(roots, r, start, DownloadAt(claimed, Some([]), map[], 0, Writing(0, true)), Go(0, Upto(1)),
          DownloadAt(claimed, Some(r.content[..1]), map[], 0, Writing(1, true)));
  }

  /** A Remove from beginning to end. */
  lemma RemoveEnds(roots: Roots, r: Remote, start: World)
    requires start == World(None, map[], None, map[]) && |r.content| >= 2
    requires Reaches(roots, r, start, DownloadAt(start.(row := Some(Entry(Downloading, ""))), Some(r.content[..1]),
                                                 map[], 0, Writing(1, true)))
    ensures Reaches(roots, r, start, CancelledLeft())
  {
    hide MoverGo, WorkerGo, Fails, Reaches;
    var entry, part := Entry(Downloading, ""), Some(r.content[..1]);
    var t := DownloadAt(start.(row := Some(entry)), part, map[], 0, Writing(1, true));
    var told := t.(procs := map[0 := Worker(Writing(1, true), Removed)]);
    var alone := CancelledLeft();
    RemoveForgets(roots, r, start, t, 2);
    RemoveCancelsOne(roots, r, start, t, entry, 2, 0);
    assert t.procs[0 := Told(t.procs[0], Removed)] == told.procs;
    Steps(roots, r, start, RemoveAt(None, told, entry, 2, Cancelled), Go(2, Plain),
        RemoveAt(None, alone, entry, 2, Unstaged));
    Steps(roots, r, start, RemoveAt(None, alone, entry, 2, Unstaged), Go(2, Plain), alone);
  }
}
