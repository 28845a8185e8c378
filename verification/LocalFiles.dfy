/** The local_files table: each statement as a method, and what holds over every sequence of
    statements whatever the workers, users and restarts do (internal/store/local.go). */
module LocalFiles {
  import opened Library

  datatype LocalRow = LocalRow(status: Status, localPath: string, size: int, bytesDone: int, error: string,
      createdAt: int)

  type Table = map<Key, LocalRow>

  /** The statements; Claim names the row that ClaimNextLocal returned. */
  datatype Op =
    | Enqueue(k: Key, size: int, now: int)
    | Claim(k: Key)
    | Reset
    | StartMove(k: Key)
    | FinishMove(k: Key, path: string)
    | EndMove(k: Key, reason: string)
    | Progress(k: Key, done: int)
    | Fail(k: Key, reason: string)
    | Finish(k: Key, path: string, size: int)
    | SetPath(k: Key, path: string)
    | Delete(k: Key)

  predicate Is(t: Table, k: Key, st: Status) {
    k in t && t[k].status == st
  }

  function ResetRow(r: LocalRow): LocalRow {
    match r.status
    case Downloading => r.(status := Queued)
    case Moving => r.(status := Done, bytesDone := r.size)
    case _ => r
  }

  function Exec(t: Table, op: Op): Table {
    match op
    case Enqueue(k, size, now) =>
      if k !in t then t[k := LocalRow(Queued, "", size, 0, "", now)]
      else if t[k].status.Failed? then t[k := t[k].(status := Queued, error := "")]
      else t
    case Claim(k) => if k in t then t[k := t[k].(status := Downloading, error := "")] else t
    case Reset => map k | k in t :: ResetRow(t[k])
    case StartMove(k) => if Is(t, k, Done) then t[k := t[k].(status := Moving, bytesDone := 0, error := "")] else t
    case FinishMove(k, path) =>
      if Is(t, k, Moving) then t[k := t[k].(status := Done, localPath := path, bytesDone := t[k].size, error := "")]
          else t
    case EndMove(k, reason) =>
      if Is(t, k, Moving) then t[k := t[k].(status := Done, bytesDone := t[k].size, error := reason)] else t
    case Progress(k, done) => if k in t then t[k := t[k].(bytesDone := done)] else t
    case Fail(k, reason) => if k in t then t[k := t[k].(status := Failed, error := reason)] else t
    case Finish(k, path, size) =>
      if k in t then t[k := t[k].(status := Done, localPath := path, bytesDone := size, error := "")] else t
    case SetPath(k, path) => if k in t then t[k := t[k].(localPath := path)] else t
    case Delete(k) => t - {k}
  }

  /** Whether the statement can have happened: only a claim needs a row, the oldest queued one. */
  predicate Possible(t: Table, op: Op) {
    op.Claim? ==> Is(t, op.k, Queued) && forall k :: k in t && Is(t, k, Queued) ==> t[op.k].createdAt <= t[k].createdAt
  }

  /** The statement touched no row but k's. */
  ghost predicate OnlyRow(t: Table, u: Table, k: Key) {
    forall q :: q != k ==> (q in u <==> q in t) && (q in t ==> u[q] == t[q])
  }

  class LocalStore {
    var rows: Table

    constructor ()
      ensures rows == map[]
    {
      rows := map[];
    }

    method EnqueueLocal(k: Key, size: int, now: int) returns (queued: bool)
      modifies this
      ensures rows == Exec(old(rows), Enqueue(k, size, now))
      ensures queued == (k !in old(rows) || old(rows)[k].status.Failed?)
      ensures OnlyRow(old(rows), rows, k) && k in rows
      ensures k !in old(rows) ==> rows[k] == LocalRow(Queued, "", size, 0, "", now)
      ensures k in old(rows) ==>
                rows[k] == if queued then old(rows)[k].(status := Queued, error := "") else old(rows)[k]
    {
      if k !in rows {
        rows := rows[k := LocalRow(Queued, "", size, 0, "", now)];
        return true;
      }
      queued := rows[k].status.Failed?;
      if queued {
        rows := rows[k := rows[k].(status := Queued, error := "")];
      }
    }

    /** Claims the oldest queued row, if there is one. */
    method ClaimNextLocal() returns (found: bool, k: Key)
      modifies this
      ensures found == exists q :: q in old(rows) && Is(old(rows), q, Queued)
      ensures found ==> Possible(old(rows), Claim(k)) && rows == Exec(old(rows), Claim(k))
      ensures !found ==> rows == old(rows)
      ensures found ==> OnlyRow(old(rows), rows, k) && k in rows && Is(old(rows), k, Queued)
                        && rows[k] == old(rows)[k].(status := Downloading, error := "")
      ensures found ==> forall q :: Is(old(rows), q, Queued) ==> old(rows)[k].createdAt <= old(rows)[q].createdAt
    {
      k := Key("", "", "");
      found := false;
      var todo := rows.Keys;
      while todo != {}
        invariant todo <= rows.Keys
        invariant found ==> Is(rows, k, Queued) && k !in todo
        invariant forall q :: q in rows && q !in todo && Is(rows, q, Queued) ==>
            found && rows[k].createdAt <= rows[q].createdAt
      {
        var q :| q in todo;
        todo := todo - {q};
        if rows[q].status.Queued? && (!found || rows[q].createdAt < rows[k].createdAt) {
          found, k := true, q;
        }
      }
      if found {
        assert Is(old(rows), k, Queued);
        rows := rows[k := rows[k].(status := Downloading, error := "")];
      }
    }

    method ResetInterruptedLocal()
      modifies this
      ensures rows == Exec(old(rows), Reset)
      ensures rows.Keys == old(rows).Keys
      ensures forall k :: k in rows ==>
                rows[k] == if Is(old(rows), k, Downloading) then old(rows)[k].(status := Queued)
                           else if Is(old(rows), k, Moving) then
                             old(rows)[k].(status := Done, bytesDone := old(rows)[k].size)
                           else old(rows)[k]
    {
      rows := map k | k in rows :: if rows[k].status.Downloading? then rows[k].(status := Queued) else rows[k];
      rows := map k | k in rows :: if rows[k].status.Moving? then rows[k].(status := Done, bytesDone := rows[k].size)
          else rows[k];
    }

    method StartMove(k: Key) returns (ok: bool)
      modifies this
      ensures rows == Exec(old(rows), Op.StartMove(k)) && ok == Is(old(rows), k, Done)
      ensures !ok ==> rows == old(rows)
      ensures ok ==> OnlyRow(old(rows), rows, k) && k in rows
                     && rows[k] == old(rows)[k].(status := Moving, bytesDone := 0, error := "")
    {
      ok := k in rows && rows[k].status.Done?;
      if ok {
        rows := rows[k := rows[k].(status := Moving, bytesDone := 0, error := "")];
      }
    }

    method FinishMove(k: Key, path: string) returns (ok: bool)
      modifies this
      ensures rows == Exec(old(rows), Op.FinishMove(k, path)) && ok == Is(old(rows), k, Moving)
      ensures !ok ==> rows == old(rows)
      ensures ok ==>
                && OnlyRow(old(rows), rows, k) && k in rows
                && rows[k] ==
                   old(rows)[k].(status := Done, localPath := path, bytesDone := old(rows)[k].size, error := "")
    {
      ok := k in rows && rows[k].status.Moving?;
      if ok {
        rows := rows[k := rows[k].(status := Done, localPath := path, bytesDone := rows[k].size, error := "")];
      }
    }

    method EndMove(k: Key, reason: string)
      modifies this
      ensures rows == Exec(old(rows), Op.EndMove(k, reason))
      ensures if Is(old(rows), k, Moving) then
                && OnlyRow(old(rows), rows, k) && k in rows
                && rows[k] == old(rows)[k].(status := Done, bytesDone := old(rows)[k].size, error := reason)
              else rows == old(rows)
    {
      if k in rows && rows[k].status.Moving? {
        rows := rows[k := rows[k].(status := Done, bytesDone := rows[k].size, error := reason)];
      }
    }

    method SetLocalProgress(k: Key, done: int)
      modifies this
      ensures rows == Exec(old(rows), Progress(k, done))
      ensures OnlyRow(old(rows), rows, k) && (k in rows <==> k in old(rows))
      ensures k in rows ==> rows[k] == old(rows)[k].(bytesDone := done)
    {
      if k in rows {
        rows := rows[k := rows[k].(bytesDone := done)];
      }
    }

    method SetLocalFailed(k: Key, reason: string)
      modifies this
      ensures rows == Exec(old(rows), Fail(k, reason))
      ensures OnlyRow(old(rows), rows, k) && (k in rows <==> k in old(rows))
      ensures k in rows ==> rows[k] == old(rows)[k].(status := Failed, error := reason)
    {
      if k in rows {
        rows := rows[k := rows[k].(status := Failed, error := reason)];
      }
    }

    method SetLocalDone(k: Key, path: string, size: int)
      modifies this
      ensures rows == Exec(old(rows), Finish(k, path, size))
      ensures OnlyRow(old(rows), rows, k) && (k in rows <==> k in old(rows))
      ensures k in rows ==> rows[k] == old(rows)[k].(status := Done, localPath := path, bytesDone := size, error := "")
    {
      if k in rows {
        rows := rows[k := rows[k].(status := Done, localPath := path, bytesDone := size, error := "")];
      }
    }

    method SetLocalPath(k: Key, path: string)
      modifies this
      ensures rows == Exec(old(rows), SetPath(k, path))
      ensures OnlyRow(old(rows), rows, k) && (k in rows <==> k in old(rows))
      ensures k in rows ==> rows[k] == old(rows)[k].(localPath := path)
    {
      if k in rows {
        rows := rows[k := rows[k].(localPath := path)];
      }
    }

    method DeleteLocal(k: Key)
      modifies this
      ensures rows == Exec(old(rows), Delete(k))
      ensures OnlyRow(old(rows), rows, k) && k !in rows
    {
      rows := rows - {k};
    }
  }

  // ----- every sequence of statements -----

  function ExecAll(t: Table, ops: seq<Op>): Table {
    if ops == [] then t else Exec(ExecAll(t, ops[..|ops| - 1]), ops[|ops| - 1])
  }

  ghost predicate Trace(t: Table, ops: seq<Op>) {
    forall i :: 0 <= i < |ops| ==> Possible(ExecAll(t, ops[..i]), ops[i])
  }

  /** A statement that can put k back in the queue: an enqueue that reports success, or the reset
      at a restart. */
  predicate Requeues(t: Table, op: Op, k: Key) {
    op.Reset? || (op.Enqueue? && op.k == k && (k !in t || t[k].status.Failed?))
  }

  lemma ExecStep(t: Table, ops: seq<Op>, n: nat)
    requires n < |ops|
    ensures ExecAll(t, ops[..n + 1]) == Exec(ExecAll(t, ops[..n]), ops[n])
  {
    assert ops[..n + 1][..n] == ops[..n];
  }

  /** A row is queued after a statement only if it was before or the statement re-queued it. */
  lemma StepQueues(t: Table, op: Op, k: Key)
    requires Is(Exec(t, op), k, Queued)
    ensures op != Claim(k) && (Is(t, k, Queued) || Requeues(t, op, k))
  {
  }

  /** After a claim of k, k is queued again only if something re-queued it since. */
  lemma {:induction false} QueuedAgain(t: Table, ops: seq<Op>, i: nat, n: nat, k: Key)
    requires i < n <= |ops| && ops[i] == Claim(k)
    requires Is(ExecAll(t, ops[..n]), k, Queued)
    ensures exists m :: i < m < n && Requeues(ExecAll(t, ops[..m]), ops[m], k)
    decreases n
  {
    ExecStep(t, ops, n - 1);
    StepQueues(ExecAll(t, ops[..n - 1]), ops[n - 1], k);
    if !Requeues(ExecAll(t, ops[..n - 1]), ops[n - 1], k) {
      QueuedAgain(t, ops, i, n - 1, k);
    }
  }

  /** No file is handed out twice by itself: between two claims of one key lies a successful
      enqueue of that key or a restart. */
  lemma ClaimsAreSeparated(t: Table, ops: seq<Op>, i: nat, j: nat, k: Key)
    requires Trace(t, ops) && i < j < |ops| && ops[i] == Claim(k) && ops[j] == Claim(k)
    ensures exists m :: i < m < j && Requeues(ExecAll(t, ops[..m]), ops[m], k)
  {
    assert Possible(ExecAll(t, ops[..j]), ops[j]);
    QueuedAgain(t, ops, i, j, k);
  }

  /** A removed entry does not come back by itself: only an enqueue of its key creates it. */
  lemma {:induction false} OnlyEnqueueCreates(t: Table, ops: seq<Op>, i: nat, n: nat, k: Key)
    requires i <= n <= |ops|
    requires k !in ExecAll(t, ops[..i]) && k in ExecAll(t, ops[..n])
    ensures exists m :: i <= m < n && ops[m].Enqueue? && ops[m].k == k && k !in ExecAll(t, ops[..m])
    decreases n
  {
    if i == n {
    } else {
      ExecStep(t, ops, n - 1);
      if k in ExecAll(t, ops[..n - 1]) {
        OnlyEnqueueCreates(t, ops, i, n - 1, k);
      } else {
        assert ops[n - 1].Enqueue? && ops[n - 1].k == k;
      }
    }
  }

  /** After a restart's reset nothing is in progress, and no finished copy was given up. */
  lemma ResetLeavesNothingInProgress(t: Table, k: Key)
    ensures var r := Exec(t, Reset);
            && (k in r <==> k in t)
            && !Is(r, k, Downloading) && !Is(r, k, Moving)
            && (k in t ==> r[k].localPath == t[k].localPath)
            && (Is(r, k, Done) <==> Is(t, k, Done) || Is(t, k, Moving))
            && (Is(r, k, Queued) <==> Is(t, k, Queued) || Is(t, k, Downloading))
  {
    if k in t {
      assert Exec(t, Reset)[k] == ResetRow(t[k]);
    }
  }

  // ----- first come, first served -----

  /** No statement but a removal and a new enqueue changes when an entry was queued or how large it
      is. */
  lemma StepKeepsAge(t: Table, op: Op, k: Key)
    requires k in t && op != Delete(k)
    ensures k in Exec(t, op) && Exec(t, op)[k].createdAt == t[k].createdAt && Exec(t, op)[k].size == t[k].size
  {
  }

  /** k is queued afresh by the i-th statement and not removed up to the n-th. */
  ghost predicate QueuedAt(t: Table, ops: seq<Op>, i: nat, n: nat, k: Key, size: int, now: int) {
    && i < n <= |ops| && ops[i] == Enqueue(k, size, now) && k !in ExecAll(t, ops[..i])
    && forall m :: i < m < n ==> ops[m] != Delete(k)
  }

  lemma {:induction false} KeepsAge(t: Table, ops: seq<Op>, i: nat, n: nat, k: Key, size: int, now: int)
    requires QueuedAt(t, ops, i, n, k, size, now)
    ensures var rows := ExecAll(t, ops[..n]);
            k in rows && rows[k].createdAt == now && rows[k].size == size
    decreases n
  {
    ExecStep(t, ops, n - 1);
    if n - 1 > i {
      KeepsAge(t, ops, i, n - 1, k, size, now);
      StepKeepsAge(ExecAll(t, ops[..n - 1]), ops[n - 1], k);
    }
  }

  /** Of two entries that wait, the one queued first is claimed first. */
  lemma FirstComeFirstServed(t: Table, ops: seq<Op>, i1: nat, i2: nat, n: nat, k1: Key, k2: Key,
                             size1: int, size2: int, now1: int, now2: int)
    requires Trace(t, ops) && n < |ops| && ops[n] == Claim(k2) && now1 < now2
    requires QueuedAt(t, ops, i1, n, k1, size1, now1) && QueuedAt(t, ops, i2, n, k2, size2, now2)
    ensures !Is(ExecAll(t, ops[..n]), k1, Queued)
  {
    KeepsAge(t, ops, i1, n, k1, size1, now1);
    KeepsAge(t, ops, i2, n, k2, size2, now2);
    assert Possible(ExecAll(t, ops[..n]), ops[n]);
  }

  // ----- what a row says -----

  /** What the user sees of a row: a reason is shown only for a failure or a move that failed, and
      what is done or moving has a path. */
  predicate RowOk(row: LocalRow) {
    && (row.error != "" ==> row.status.Failed? || row.status.Done?)
    && (row.status.Moving? || row.status.Done? ==> row.localPath != "")
  }

  ghost predicate RowsOk(t: Table) {
    forall k :: k in t ==> RowOk(t[k])
  }

  /** Paths that are recorded are not empty. */
  predicate RealPath(op: Op) {
    op.FinishMove? || op.Finish? || op.SetPath? ==> op.path != ""
  }

  /** Whatever the order of the statements, a finished copy has its path, and no entry that waits or is
      under way shows the reason of an earlier failure. */
  lemma {:induction false} RowsStayOk(t: Table, ops: seq<Op>)
    requires RowsOk(t) && Trace(t, ops) && forall i :: 0 <= i < |ops| ==> RealPath(ops[i])
    ensures RowsOk(ExecAll(t, ops))
  {
    hide Exec;
    if ops == [] {
    } else {
      var front, last := ops[..|ops| - 1], ops[|ops| - 1];
      forall i | 0 <= i < |front|
        ensures Possible(ExecAll(t, front[..i]), front[i])
      {
        assert front[..i] == ops[..i];
      }
      RowsStayOk(t, front);
      StepKeepsRowsOk(ExecAll(t, front), last);
    }
  }

  lemma StepKeepsRowsOk(t: Table, op: Op)
    requires RowsOk(t) && RealPath(op)
    ensures RowsOk(Exec(t, op))
  {
  }

  /** The path of a row is the one recorded last. */
  lemma StepKeepsPath(t: Table, op: Op, k: Key)
    requires k in t && k in Exec(t, op)
    ensures Exec(t, op)[k].localPath == t[k].localPath
            || ((op.Finish? || op.SetPath? || (op.FinishMove? && t[k].status.Moving?))
                && op.k == k && Exec(t, op)[k].localPath == op.path)
  {
  }
}
