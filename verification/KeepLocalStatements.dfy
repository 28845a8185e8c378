/** The row of the "keep local" machine is a row of the local_files table, and each of its steps is one
    of the table's statements or none (internal/store/local.go). */
module KeepLocalStatements {
  import opened Wrappers
  import opened Library
  import opened Paths
  import KeepLocal
  import LocalFiles

  /** What the machine sees of a table. */
  function RowOf(t: LocalFiles.Table, k: Key): Option<KeepLocal.Entry> {
    if k in t then Some(KeepLocal.Entry(t[k].status, t[k].localPath)) else None
  }

  /** The statement behind a process's step. */
  function StatementOf(m: KeepLocal.Proc, k: Key): Option<LocalFiles.Op> {
    match m
    case Mover(src, dest, phase, cancelled) =>
      (match phase
       case Snapped => Some(LocalFiles.Op.StartMove(k))
       case Renamed => Some(LocalFiles.Op.FinishMove(k, dest))
       case Ending => if cancelled then None else Some(LocalFiles.Op.EndMove(k, "move failed"))
       case _ => None)
    case Worker(phase, notice) =>
      (match phase
       case Promoted(dest) => if notice.Running? then Some(LocalFiles.Finish(k, dest, 0)) else None
       case GivingUp => Some(LocalFiles.Fail(k, "download failed"))
       case _ => None)
    case Remover(_, phase) => if phase.Seen? then Some(LocalFiles.Delete(k)) else None
  }

  function Statement(w: KeepLocal.World, e: KeepLocal.Event, k: Key, now: int): Option<LocalFiles.Op> {
    match e
    case Enqueue => Some(LocalFiles.Enqueue(k, 0, now))
    case Claim(_) => Some(LocalFiles.Claim(k))
    case Go(p, _) => if p in w.procs then StatementOf(w.procs[p], k) else None
    case Relocate(to) => Some(LocalFiles.SetPath(k, to))
    case Crash => Some(LocalFiles.Reset)
    case _ => None
  }

  function ExecSome(t: LocalFiles.Table, op: Option<LocalFiles.Op>): LocalFiles.Table {
    if op.Some? then LocalFiles.Exec(t, op.value) else t
  }

  /** A step of a process. */
  lemma ProcessSteps(t: LocalFiles.Table, k: Key, roots: Roots, r: KeepLocal.Remote, w: KeepLocal.World, p: nat,
      c: KeepLocal.Choice)
    requires RowOf(t, k) == w.row && KeepLocal.CanTake(roots, r, w, KeepLocal.Go(p, c))
    ensures RowOf(ExecSome(t, StatementOf(w.procs[p], k)), k) == KeepLocal.Take(roots, r, w, KeepLocal.Go(p, c)).row
  {
  }

  /** Every step of the machine does to the entry's row what its statement does to the table. */
  lemma StepsAreStatements(t: LocalFiles.Table, k: Key, roots: Roots, r: KeepLocal.Remote, w: KeepLocal.World,
                           e: KeepLocal.Event, now: int)
    requires RowOf(t, k) == w.row && KeepLocal.CanTake(roots, r, w, e)
    ensures RowOf(ExecSome(t, Statement(w, e, k, now)), k) == KeepLocal.Take(roots, r, w, e).row
  {
    match e
    case Go(p, c) => ProcessSteps(t, k, roots, r, w, p, c);
    case _ =>
  }

  /** The statements of a run's events, in order. */
  function StatementsOf(roots: Roots, r: KeepLocal.Remote, w: KeepLocal.World, events: seq<KeepLocal.Event>, k: Key,
      now: int)
    : seq<LocalFiles.Op>
    requires KeepLocal.RunFrom(roots, r, w, events).Some?
  {
    if events == [] then []
    else
      var front, last := events[..|events| - 1], events[|events| - 1];
      var op := Statement(KeepLocal.RunFrom(roots, r, w, front).value, last, k, now);
      StatementsOf(roots, r, w, front, k, now) + if op.Some? then [op.value] else []
  }

  /** No other entry waits to be claimed, or will after a restart. */
  ghost predicate OnlyOneWaits(t: LocalFiles.Table, k: Key) {
    forall k' :: k' in t && k' != k ==> !t[k'].status.Queued? && !t[k'].status.Downloading?
  }

  /** A statement about k leaves the others so. */
  lemma OthersStillWaitNot(t: LocalFiles.Table, w: KeepLocal.World, e: KeepLocal.Event, k: Key, now: int)
    requires OnlyOneWaits(t, k)
    ensures OnlyOneWaits(ExecSome(t, Statement(w, e, k, now)), k)
  {
  }

  /** A claim that the machine can make is one that the table can make. */
  lemma StatementIsPossible(t: LocalFiles.Table, k: Key, roots: Roots, r: KeepLocal.Remote, w: KeepLocal.World,
                            e: KeepLocal.Event, now: int)
    requires RowOf(t, k) == w.row && KeepLocal.CanTake(roots, r, w, e) && OnlyOneWaits(t, k)
    ensures var op := Statement(w, e, k, now); op.Some? ==> LocalFiles.Possible(t, op.value)
  {
  }

  lemma TraceGrows(t: LocalFiles.Table, ops: seq<LocalFiles.Op>, op: LocalFiles.Op)
    requires LocalFiles.Trace(t, ops) && LocalFiles.Possible(LocalFiles.ExecAll(t, ops), op)
    ensures LocalFiles.Trace(t, ops + [op])
  {
    hide LocalFiles.ExecAll, LocalFiles.Possible;
    var longer := ops + [op];
    forall i | 0 <= i < |longer|
      ensures LocalFiles.Possible(LocalFiles.ExecAll(t, longer[..i]), longer[i])
    {
      assert longer[..i] == if i < |ops| then ops[..i] else ops;
    }
  }

  lemma ExecLonger(t: LocalFiles.Table, ops: seq<LocalFiles.Op>, op: Option<LocalFiles.Op>)
    ensures LocalFiles.ExecAll(t, ops + if op.Some? then [op.value] else []) == ExecSome(LocalFiles.ExecAll(t, ops), op)
  {
    if op.Some? {
      assert (ops + [op.value])[..|ops|] == ops;
    } else {
      assert ops + [] == ops;
    }
  }

  /** So every run of the machine is a run of its events' statements on the table; and the table could
      have taken that run, as long as no other entry waits. */
  lemma {:induction false} RunsAreStatements(t: LocalFiles.Table, k: Key, roots: Roots, r: KeepLocal.Remote,
                                             w: KeepLocal.World, events: seq<KeepLocal.Event>, now: int)
    requires RowOf(t, k) == w.row && KeepLocal.RunFrom(roots, r, w, events).Some?
    ensures var ops := StatementsOf(roots, r, w, events, k, now);
            && RowOf(LocalFiles.ExecAll(t, ops), k) == KeepLocal.RunFrom(roots, r, w, events).value.row
            && (OnlyOneWaits(t, k) ==> LocalFiles.Trace(t, ops) && OnlyOneWaits(LocalFiles.ExecAll(t, ops), k))
  {
    if events == [] {
    } else {
      hide KeepLocal.Take, KeepLocal.CanTake, LocalFiles.Exec, RowOf, Statement, OnlyOneWaits, LocalFiles.ExecAll;
      hide LocalFiles.Trace;
      var front, last := events[..|events| - 1], events[|events| - 1];
      var mid := KeepLocal.RunFrom(roots, r, w, front).value;
      var before := StatementsOf(roots, r, w, front, k, now);
      var reached, op := LocalFiles.ExecAll(t, before), Statement(mid, last, k, now);
      assert StatementsOf(roots, r, w, events, k, now) == before + if op.Some? then [op.value] else [];
      assert KeepLocal.CanTake(roots, r, mid, last);
      assert KeepLocal.RunFrom(roots, r, w, events).value == KeepLocal.Take(roots, r, mid, last);
      hide *;
      RunsAreStatements(t, k, roots, r, w, front, now);
      StepsAreStatements(reached, k, roots, r, mid, last, now);
      ExecLonger(t, before, op);
      if OnlyOneWaits(t, k) {
        OthersStillWaitNot(reached, mid, last, k, now);
        StatementIsPossible(reached, k, roots, r, mid, last, now);
        if op.Some? {
          TraceGrows(t, before, op.value);
        } else {
          assert before + [] == before;
        }
      }
    }
  }

  /** In particular the machine never claims the entry twice by itself: between the statements of two
      claims lies a successful enqueue or a restart. */
  lemma MachineClaimsAreSeparated(t: LocalFiles.Table, k: Key, roots: Roots, r: KeepLocal.Remote, w: KeepLocal.World,
                                  events: seq<KeepLocal.Event>, now: int, i: nat, j: nat)
    requires RowOf(t, k) == w.row && KeepLocal.RunFrom(roots, r, w, events).Some? && OnlyOneWaits(t, k)
    requires i < j < |StatementsOf(roots, r, w, events, k, now)|
    requires StatementsOf(roots, r, w, events, k, now)[i] == LocalFiles.Claim(k)
    requires StatementsOf(roots, r, w, events, k, now)[j] == LocalFiles.Claim(k)
    ensures exists m :: i < m < j
              && LocalFiles.Requeues(LocalFiles.ExecAll(t, StatementsOf(roots, r, w, events, k, now)[..m]),
                                     StatementsOf(roots, r, w, events, k, now)[m], k)
  {
    hide StatementsOf, LocalFiles.ExecAll, LocalFiles.Trace, LocalFiles.Requeues;
    RunsAreStatements(t, k, roots, r, w, events, now);
    LocalFiles.ClaimsAreSeparated(t, StatementsOf(roots, r, w, events, k, now), i, j, k);
  }
}
