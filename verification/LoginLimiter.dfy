/** The login limiter: how many failures any window can hold, and that dropping stale entries is
    invisible (internal/auth/auth.go). */
module LoginLimiter {
  import opened Wrappers
  import opened Text

  /** lockedUntil is None before the first lock-out. */
  datatype Entry = Entry(failures: nat, first: real, lockedUntil: Option<real>)

  type Entries = map<string, Entry>

  const GC_SIZE := 1024

  /** Params(maxFailures, window): lock a key out after this many failures in a window. */
  datatype Params = Params(maxFailures: nat, window: real)

  // ----- one key -----

  /** The time left until a key may try again; None when it may now. */
  function Wait(e: Option<Entry>, now: real): Option<real> {
    if e.Some? && e.value.lockedUntil.Some? && now < e.value.lockedUntil.value then
      Some(e.value.lockedUntil.value - now)
    else None
  }

  predicate Expired(p: Params, e: Entry, now: real) {
    now - e.first > p.window
  }

  function Failed(p: Params, e: Option<Entry>, now: real): Entry {
    var counted :=
      if e.None? || Expired(p, e.value, now) then Entry(1, now, None)
      else e.value.(failures := e.value.failures + 1);
    if counted.failures >= p.maxFailures then counted.(lockedUntil := Some(now + p.window)) else counted
  }

  // ----- all keys -----

  function Get(m: Entries, k: string): Option<Entry> {
    if k in m then Some(m[k]) else None
  }

  /** What gc drops: past its window and not locked out. */
  predicate Stale(p: Params, e: Entry, now: real) {
    Expired(p, e, now) && (e.lockedUntil.None? || now > e.lockedUntil.value)
  }

  function Gc(p: Params, m: Entries, now: real): Entries {
    if |m| < GC_SIZE then m else map k | k in m && !Stale(p, m[k], now) :: m[k]
  }

  function AfterFail(p: Params, m: Entries, k: string, now: real): Entries {
    var kept := Gc(p, m, now);
    kept[k := Failed(p, Get(kept, k), now)]
  }

  class Limiter {
    const p: Params
    var entries: Entries

    constructor (maxFailures: nat, window: real)
      ensures p == Params(maxFailures, window) && entries == map[]
    {
      p := Params(maxFailures, window);
      entries := map[];
    }

    method Allowed(k: string, now: real) returns (ok: bool, wait: real)
      ensures ok == Wait(Get(entries, k), now).None?
      ensures !ok ==> wait == Wait(Get(entries, k), now).value && wait > 0.0
      ensures ok ==> wait == 0.0
    {
      if k !in entries {
        return true, 0.0;
      }
      var e := entries[k];
      if e.lockedUntil.Some? && now < e.lockedUntil.value {
        return false, e.lockedUntil.value - now;
      }
      return true, 0.0;
    }

    method Fail(k: string, now: real)
      modifies this
      ensures entries == AfterFail(p, old(entries), k, now)
    {
      DropStale(now);
      if k !in entries || now - entries[k].first > p.window {
        entries := entries[k := Entry(0, now, None)];
      }
      entries := entries[k := entries[k].(failures := entries[k].failures + 1)];
      if entries[k].failures >= p.maxFailures {
        entries := entries[k := entries[k].(lockedUntil := Some(now + p.window))];
      }
    }

    method Reset(k: string)
      modifies this
      ensures entries == old(entries) - {k}
    {
      entries := entries - {k};
    }

    /** gc: visits the entries in any order. */
    method DropStale(now: real)
      modifies this
      ensures entries == Gc(p, old(entries), now)
    {
      if |entries| < GC_SIZE {
        return;
      }
      var todo := entries.Keys;
      while todo != {}
        invariant todo <= entries.Keys
        invariant entries == map k | k in old(entries) && (k in todo || !Stale(p, old(entries)[k], now)) ::
            old(entries)[k]
      {
        var k :| k in todo;
        todo := todo - {k};
        var e := entries[k];
        if now - e.first > p.window && (e.lockedUntil.None? || now > e.lockedUntil.value) {
          entries := entries - {k};
        }
      }
    }
  }

  // ----- gc is invisible -----

  datatype Event = Fail(k: string, at: real) | Reset(k: string, at: real)

  ghost predicate Ordered(events: seq<Event>) {
    forall i, j :: 0 <= i <= j < |events| ==> events[i].at <= events[j].at
  }

  /** The limiter as it is. */
  function Run(p: Params, events: seq<Event>): Entries {
    if events == [] then map[]
    else
      var m := Run(p, events[..|events| - 1]);
      match events[|events| - 1]
      case Fail(k, at) => AfterFail(p, m, k, at)
      case Reset(k, _) => m - {k}
  }

  /** The same limiter without gc. */
  function RunIdeal(p: Params, events: seq<Event>): Entries {
    if events == [] then map[]
    else
      var m := RunIdeal(p, events[..|events| - 1]);
      match events[|events| - 1]
      case Fail(k, at) => m[k := Failed(p, Get(m, k), at)]
      case Reset(k, _) => m - {k}
  }

  /** The two maps differ only in entries that are stale by now. */
  ghost predicate Agree(p: Params, m: Entries, ideal: Entries, now: real) {
    && (forall k :: k in m ==> k in ideal && m[k] == ideal[k])
    && (forall k :: k in ideal && k !in m ==> Stale(p, ideal[k], now))
  }

  lemma FailAgrees(p: Params, m: Entries, ideal: Entries, k: string, now: real)
    requires Agree(p, m, ideal, now)
    ensures Agree(p, AfterFail(p, m, k, now), ideal[k := Failed(p, Get(ideal, k), now)], now)
  {
    var kept := Gc(p, m, now);
    assert Agree(p, kept, ideal, now);
    assert Failed(p, Get(kept, k), now) == Failed(p, Get(ideal, k), now);
  }

  lemma {:induction false} RunsAgree(p: Params, events: seq<Event>, now: real)
    requires Ordered(events) && (events != [] ==> events[|events| - 1].at <= now)
    ensures Agree(p, Run(p, events), RunIdeal(p, events), now)
  {
    if events == [] {
    } else {
      var front, last := events[..|events| - 1], events[|events| - 1];
      RunsAgree(p, front, last.at);
      if last.Fail? {
        FailAgrees(p, Run(p, front), RunIdeal(p, front), last.k, last.at);
      }
    }
  }

  /** Dropping entries is invisible: after any run, at any later time, every key gets the same
      answer and the same wait as from a limiter that never drops anything. */
  lemma GcIsInvisible(p: Params, events: seq<Event>, k: string, now: real)
    requires Ordered(events) && (events != [] ==> events[|events| - 1].at <= now)
    ensures Wait(Get(Run(p, events), k), now) == Wait(Get(RunIdeal(p, events), k), now)
  {
    RunsAgree(p, events, now);
  }

  /** n clients that fail once each, all at time 0. */
  function Crowd(n: nat): (events: seq<Event>)
    ensures |events| == n && forall i :: 0 <= i < n ==> events[i] == Fail(Itoa(i), 0.0)
  {
    if n == 0 then [] else Crowd(n - 1) + [Fail(Itoa(n - 1), 0.0)]
  }

  ghost predicate CrowdEntries(p: Params, m: Entries, n: nat) {
    |m| == n && forall k :: k in m ==> Value(k) < n && m[k] == Failed(p, None, 0.0)
  }

  lemma CrowdGrows(p: Params, m: Entries, n: nat)
    requires CrowdEntries(p, m, n)
    ensures CrowdEntries(p, m[Itoa(n) := Failed(p, None, 0.0)], n + 1)
  {
    assert Itoa(n) !in m;
  }

  /** At that time nothing is stale yet. */
  lemma CrowdStays(p: Params, m: Entries, n: nat)
    requires p.window > 0.0 && CrowdEntries(p, m, n)
    ensures AfterFail(p, m, Itoa(n), 0.0) == m[Itoa(n) := Failed(p, None, 0.0)]
  {
    assert Itoa(n) !in m;
    assert forall k :: k in m ==> !Stale(p, m[k], 0.0);
    assert Gc(p, m, 0.0) == m;
  }

  lemma CrowdIsDropped(p: Params, m: Entries, n: nat)
    requires CrowdEntries(p, m, n) && n >= GC_SIZE
    ensures Gc(p, m, p.window + 1.0) == map[]
  {
    assert forall k :: k in m ==> Stale(p, m[k], p.window + 1.0);
  }

  lemma RunLast(p: Params, front: seq<Event>, k: string, at: real)
    ensures Run(p, front + [Fail(k, at)]) == AfterFail(p, Run(p, front), k, at)
    ensures RunIdeal(p, front + [Fail(k, at)]) ==
            RunIdeal(p, front)[k := Failed(p, Get(RunIdeal(p, front), k), at)]
  {
    assert (front + [Fail(k, at)])[..|front|] == front;
  }

  lemma CrowdUnfolds(n: nat)
    requires n > 0
    ensures Crowd(n) == Crowd(n - 1) + [Fail(Itoa(n - 1), 0.0)]
  {
  }

  lemma NextClient(p: Params, front: seq<Event>, n: nat)
    requires p.window > 0.0 && Run(p, front) == RunIdeal(p, front) && CrowdEntries(p, Run(p, front), n)
    ensures var events := front + [Fail(Itoa(n), 0.0)];
            Run(p, events) == RunIdeal(p, events) && CrowdEntries(p, Run(p, events), n + 1)
  {
    RunLast(p, front, Itoa(n), 0.0);
    hide Run, RunIdeal, Failed;
    CrowdStays(p, Run(p, front), n);
    CrowdGrows(p, Run(p, front), n);
    assert Itoa(n) !in Run(p, front);
  }

  lemma NobodyYet(p: Params)
    ensures Crowd(0) == [] && Run(p, []) == RunIdeal(p, []) && CrowdEntries(p, Run(p, []), 0)
  {
  }

  lemma {:induction false} CrowdRuns(p: Params, n: nat)
    requires p.window > 0.0
    ensures Run(p, Crowd(n)) == RunIdeal(p, Crowd(n)) && CrowdEntries(p, Run(p, Crowd(n)), n)
  {
    hide Run, RunIdeal, Crowd, CrowdEntries, Failed;
    if n == 0 {
      NobodyYet(p);
    } else {
      CrowdRuns(p, n - 1);
      CrowdUnfolds(n);
      NextClient(p, Crowd(n - 1), n - 1);
    }
  }

  lemma CrowdIsOrdered(n: nat, late: real)
    requires late > 0.0
    ensures Ordered(Crowd(n) + [Fail("late", late)])
  {
    hide Crowd;
  }

  lemma LateFailure(p: Params, front: seq<Event>, n: nat, late: real)
    requires p.window > 0.0 && late == p.window + 1.0 && n >= GC_SIZE
    requires Run(p, front) == RunIdeal(p, front) && CrowdEntries(p, Run(p, front), n)
    ensures Run(p, front + [Fail("late", late)]) == map["late" := Failed(p, None, late)]
    ensures RunIdeal(p, front + [Fail("late", late)]).Keys == Run(p, front).Keys + {"late"}
  {
    RunLast(p, front, "late", late);
    hide Run, RunIdeal, Failed;
    CrowdIsDropped(p, Run(p, front), n);
  }

  lemma SubsetSize(a: set<string>, b: set<string>)
    requires a <= b
    ensures |a| <= |b|
  {
    assert b == a + (b - a);
  }

  lemma MoreThanOne(m: Entries, k: string)
    requires |m| > 1
    ensures m.Keys + {k} != {k}
  {
    assert |m| == |m.Keys|;
    if m.Keys <= {k} {
      SubsetSize(m.Keys, {k});
    }
  }

  /** The maps do differ: after a crowd of 1024 or more has failed, one failure past their window
      drops all of their entries, and the limiter that drops nothing still has them. */
  lemma GcDrops(p: Params, n: nat)
    requires p.window > 0.0 && n >= GC_SIZE
    ensures var events := Crowd(n) + [Fail("late", p.window + 1.0)];
            Ordered(events) && Run(p, events).Keys == {"late"} && |RunIdeal(p, events)| >= n
            && Run(p, events) != RunIdeal(p, events)
  {
    hide Run, RunIdeal, Failed, Ordered, Crowd;
    CrowdRuns(p, n);
    CrowdIsOrdered(n, p.window + 1.0);
    LateFailure(p, Crowd(n), n, p.window + 1.0);
    MoreThanOne(Run(p, Crowd(n)), "late");
    CrowdRemembered(p, Run(p, Crowd(n)), RunIdeal(p, Crowd(n) + [Fail("late", p.window + 1.0)]));
  }

  lemma CrowdRemembered(p: Params, m: Entries, ideal: Entries)
    requires ideal.Keys == m.Keys + {"late"}
    ensures |ideal| >= |m|
  {
    assert m.Keys <= ideal.Keys;
    SubsetSize(m.Keys, ideal.Keys);
    assert |m| == |m.Keys| && |ideal| == |ideal.Keys|;
  }

  // ----- failures in a window -----

  /** The times of the failures of one key. */
  function FailTimes(events: seq<Event>, k: string): seq<real> {
    if events == [] then []
    else
      var last := events[|events| - 1];
      FailTimes(events[..|events| - 1], k) + if last.Fail? && last.k == k then [last.at] else []
  }

  function EntryAfter(p: Params, times: seq<real>): Option<Entry> {
    if times == [] then None
    else Some(Failed(p, EntryAfter(p, times[..|times| - 1]), times[|times| - 1]))
  }

  ghost predicate Sorted(times: seq<real>) {
    forall i, j :: 0 <= i <= j < |times| ==> times[i] <= times[j]
  }

  ghost predicate NoResets(events: seq<Event>, k: string) {
    forall i :: 0 <= i < |events| ==> !(events[i].Reset? && events[i].k == k)
  }

  /** Every failure of k was reported while k was allowed to try. */
  ghost predicate Disciplined(p: Params, events: seq<Event>, k: string) {
    forall i :: 0 <= i < |events| ==> AllowedEvent(p, events, k, i)
  }

  predicate AllowedEvent(p: Params, events: seq<Event>, k: string, i: nat)
    requires i < |events|
  {
    events[i].Fail? && events[i].k == k ==> Wait(Get(Run(p, events[..i]), k), events[i].at).None?
  }

  ghost predicate DisciplinedTimes(p: Params, times: seq<real>) {
    forall i :: 0 <= i < |times| ==> AllowedTime(p, times, i)
  }

  predicate AllowedTime(p: Params, times: seq<real>, i: nat)
    requires i < |times|
  {
    Wait(EntryAfter(p, times[..i]), times[i]).None?
  }

  lemma DisciplinedLast(p: Params, front: seq<real>, t: real)
    requires DisciplinedTimes(p, front) && Wait(EntryAfter(p, front), t).None?
    ensures DisciplinedTimes(p, front + [t])
    ensures EntryAfter(p, front + [t]) == Some(Failed(p, EntryAfter(p, front), t))
  {
    var times := front + [t];
    assert times[..|front|] == front;
    forall i | 0 <= i < |times|
      ensures AllowedTime(p, times, i)
    {
      assert i < |front| ==> times[..i] == front[..i] && AllowedTime(p, front, i);
    }
  }

  /** Sorted times that end by now stay sorted with now behind them. */
  ghost predicate SortedUpTo(times: seq<real>, now: real) {
    Sorted(times) && forall i :: 0 <= i < |times| ==> times[i] <= now
  }

  lemma DisciplinedFront(p: Params, events: seq<Event>, k: string)
    requires events != [] && Disciplined(p, events, k)
    ensures Disciplined(p, events[..|events| - 1], k)
    ensures AllowedEvent(p, events, k, |events| - 1)
  {
    var front := events[..|events| - 1];
    forall i | 0 <= i < |front|
      ensures AllowedEvent(p, front, k, i)
    {
      assert front[..i] == events[..i] && AllowedEvent(p, events, k, i);
    }
  }

  /** A run seen by one key. */
  lemma {:induction false} Project(p: Params, events: seq<Event>, k: string, now: real)
    requires Ordered(events) && NoResets(events, k) && Disciplined(p, events, k)
    requires events != [] ==> events[|events| - 1].at <= now
    ensures Get(RunIdeal(p, events), k) == EntryAfter(p, FailTimes(events, k))
    ensures DisciplinedTimes(p, FailTimes(events, k)) && SortedUpTo(FailTimes(events, k), now)
  {
    hide Failed, AllowedTime, Wait;
    if events == [] {
    } else {
      var front, last := events[..|events| - 1], events[|events| - 1];
      DisciplinedFront(p, events, k);
      Project(p, front, k, last.at);
      if last.Fail? && last.k == k {
        GcIsInvisible(p, front, k, last.at);
        DisciplinedLast(p, FailTimes(front, k), last.at);
      } else {
        IdealElsewhere(p, events, k);
      }
    }
  }

  lemma IdealElsewhere(p: Params, events: seq<Event>, k: string)
    requires events != [] && events[|events| - 1].k != k
    ensures Get(RunIdeal(p, events), k) == Get(RunIdeal(p, events[..|events| - 1]), k)
    ensures FailTimes(events, k) == FailTimes(events[..|events| - 1], k)
  {
  }

  // The entry after failure j (from 0), as its count and the start of its window.

  function EntryAt(p: Params, times: seq<real>, j: nat): Entry
    requires j < |times|
  {
    Failed(p, EntryAfter(p, times[..j]), times[j])
  }

  lemma EntryAtNext(p: Params, times: seq<real>, j: nat)
    requires j < |times|
    ensures EntryAfter(p, times[..j + 1]) == Some(EntryAt(p, times, j))
  {
    assert times[..j + 1][..j] == times[..j];
  }

  /** A window's entry starts at the failure that opened it. */
  lemma {:induction false} EntryBasics(p: Params, times: seq<real>, j: nat)
    requires j < |times|
    ensures var e := EntryAt(p, times, j); e.failures >= 1 && (e.failures == 1 ==> e.first == times[j])
  {
    if j == 0 {
    } else {
      EntryBasics(p, times, j - 1);
      EntryAtNext(p, times, j - 1);
    }
  }

  /** Another failure less than a window later means the earlier one did not lock the key. */
  lemma NotLocked(p: Params, times: seq<real>, j: nat)
    requires j + 1 < |times| && AllowedTime(p, times, j + 1) && times[j + 1] < times[j] + p.window
    ensures EntryAt(p, times, j).failures < p.maxFailures
  {
    EntryAtNext(p, times, j);
  }

  /** The window of failure i is still open at failure j and counts everything between. */
  ghost predicate SameWindow(p: Params, times: seq<real>, i: nat, j: nat)
    requires i <= j < |times|
  {
    EntryAt(p, times, j).first == EntryAt(p, times, i).first
    && EntryAt(p, times, j).failures == EntryAt(p, times, i).failures + (j - i)
  }

  /** Failure s opened the window of failure j, and i's own window held too few failures before
      it to lock the key. */
  ghost predicate NewWindow(p: Params, times: seq<real>, i: nat, j: nat, s: nat)
    requires i <= j < |times|
  {
    i < s <= j && EntryAt(p, times, j).first == times[s] && EntryAt(p, times, j).failures == j - s + 1
    && s - i + 2 <= p.maxFailures
  }

  lemma {:induction false} CountsOn(p: Params, times: seq<real>, i: nat, j: nat)
    requires Sorted(times) && DisciplinedTimes(p, times) && i <= j < |times|
    requires times[j] < times[i] + p.window
    ensures SameWindow(p, times, i, j) || exists s: nat :: NewWindow(p, times, i, j, s)
    decreases j
  {
    if i == j {
    } else {
      assert times[i] <= times[j - 1] <= times[j];
      CountsOn(p, times, i, j - 1);
      assert AllowedTime(p, times, j);
      if SameWindow(p, times, i, j - 1) {
        SameWindowNext(p, times, i, j);
      } else {
        var s: nat :| NewWindow(p, times, i, j - 1, s);
        assert times[i] <= times[s];
        NewWindowNext(p, times, i, j, s);
      }
    }
  }

  lemma SameWindowNext(p: Params, times: seq<real>, i: nat, j: nat)
    requires i < j < |times| && AllowedTime(p, times, j) && times[i] <= times[j - 1] && times[j] < times[i] + p.window
    requires SameWindow(p, times, i, j - 1)
    ensures SameWindow(p, times, i, j) || NewWindow(p, times, i, j, j)
  {
    EntryAtNext(p, times, j - 1);
    EntryBasics(p, times, i);
    NotLocked(p, times, j - 1);
  }

  lemma NewWindowNext(p: Params, times: seq<real>, i: nat, j: nat, s: nat)
    requires i < s < j < |times| && times[i] <= times[s] && times[j] < times[i] + p.window
    requires NewWindow(p, times, i, j - 1, s)
    ensures NewWindow(p, times, i, j, s)
  {
    EntryAtNext(p, times, j - 1);
  }

  /** Any 2 * maxFailures - 1 failures in a row span at least a window. */
  lemma FailuresSpanWindow(p: Params, times: seq<real>, i: nat, j: nat)
    requires p.maxFailures >= 2 && p.window > 0.0 && Sorted(times) && DisciplinedTimes(p, times)
    requires j == i + 2 * p.maxFailures - 2 && j < |times|
    ensures times[j] >= times[i] + p.window
  {
    if times[j] < times[i] + p.window {
      assert times[i] <= times[j - 1] <= times[j];
      CountsOn(p, times, i, j - 1);
      assert AllowedTime(p, times, j);
      NotLocked(p, times, j - 1);
      EntryBasics(p, times, i);
    }
  }

  /** How many of the times lie in [a, b). */
  function CountIn(times: seq<real>, a: real, b: real): nat {
    if times == [] then 0
    else CountIn(times[..|times| - 1], a, b) + if a <= times[|times| - 1] < b then 1 else 0
  }

  /** In a sorted sequence, n hits in a window mean n hits in a row, the last one at its end. */
  lemma {:induction false} HitsInARow(times: seq<real>, a: real, b: real)
    requires Sorted(times)
    ensures var n := CountIn(times, a, b);
            n > 0 ==> exists lo: nat :: lo + n <= |times| && a <= times[lo] && times[lo + n - 1] < b
    ensures CountIn(times, a, b) > 0 && times[|times| - 1] < b ==> a <= times[|times| - CountIn(times, a, b)]
  {
    if times == [] {
    } else {
      var front, last, n := times[..|times| - 1], times[|times| - 1], CountIn(times, a, b);
      HitsInARow(front, a, b);
      if a <= last < b {
        if n > 1 {
          assert front[|front| - 1] <= last;
          assert times[|times| - n] == front[|front| - (n - 1)];
        }
        assert (|times| - n) + n <= |times| && a <= times[|times| - n] && times[|times| - n + n - 1] < b;
      } else if n > 0 {
        var lo: nat :| lo + n <= |front| && a <= front[lo] && front[lo + n - 1] < b;
        assert times[lo] == front[lo] && times[lo + n - 1] == front[lo + n - 1];
        assert times[lo] <= last;
      }
    }
  }

  lemma HitsFit(p: Params, times: seq<real>, lo: nat, hits: nat, from: real)
    requires p.maxFailures >= 2 && p.window > 0.0 && Sorted(times) && DisciplinedTimes(p, times)
    requires 0 < hits && lo + hits <= |times| && from <= times[lo] && times[lo + hits - 1] < from + p.window
    ensures hits <= 2 * p.maxFailures - 2
  {
    var n := 2 * p.maxFailures - 2;
    if hits > n {
      assert times[lo + n] <= times[lo + hits - 1];
      FailuresSpanWindow(p, times, lo, lo + n);
    }
  }

  lemma TimesBound(p: Params, times: seq<real>, from: real)
    requires p.maxFailures >= 2 && p.window > 0.0 && Sorted(times) && DisciplinedTimes(p, times)
    ensures CountIn(times, from, from + p.window) <= 2 * p.maxFailures - 2
  {
    hide CountIn, Sorted, DisciplinedTimes;
    var hits := CountIn(times, from, from + p.window);
    HitsInARow(times, from, from + p.window);
    if hits > 0 {
      var lo: nat :| lo + hits <= |times| && from <= times[lo] && times[lo + hits - 1] < from + p.window;
      HitsFit(p, times, lo, hits, from);
    }
  }

  /** If failures of a key are reported only while it is allowed and it never resets, any half-open
      window of the limiter's length holds at most 2 * maxFailures - 2 of them. */
  lemma WindowBound(p: Params, events: seq<Event>, k: string, from: real)
    requires p.maxFailures >= 2 && p.window > 0.0
    requires Ordered(events) && NoResets(events, k) && Disciplined(p, events, k)
    ensures CountIn(FailTimes(events, k), from, from + p.window) <= 2 * p.maxFailures - 2
  {
    Project(p, events, k, if events == [] then 0.0 else events[|events| - 1].at);
    TimesBound(p, FailTimes(events, k), from);
  }

  // ----- the bound is reached -----

  /** One failure at 0, maxFailures - 2 at the end of its window, then maxFailures a moment later. */
  function EdgeTime(p: Params, i: nat): real {
    if i == 0 then 0.0 else if i + 2 <= p.maxFailures then p.window else p.window + p.window / 2.0
  }

  function EdgeTimes(p: Params, n: nat): (times: seq<real>)
    ensures |times| == n
    ensures forall i :: 0 <= i < n ==> times[i] == EdgeTime(p, i)
  {
    if n == 0 then [] else EdgeTimes(p, n - 1) + [EdgeTime(p, n - 1)]
  }

  function EdgeEntry(p: Params, n: nat): Option<Entry>
    requires p.maxFailures >= 2
  {
    var m := p.maxFailures;
    if n == 0 then None
    else if n < m then Some(Entry(n, 0.0, None))
    else Some(Entry(n - m + 1, EdgeTime(p, m - 1),
                    if n - m + 1 >= m then Some(EdgeTime(p, m - 1) + p.window) else None))
  }

  lemma EdgeStep(p: Params, n: nat)
    requires p.maxFailures >= 2 && p.window > 0.0 && 0 < n < 2 * p.maxFailures
    ensures EdgeEntry(p, n) == Some(Failed(p, EdgeEntry(p, n - 1), EdgeTime(p, n - 1)))
    ensures Wait(EdgeEntry(p, n - 1), EdgeTime(p, n - 1)).None?
  {
  }

  lemma CountLast(front: seq<real>, t: real, a: real, b: real)
    ensures CountIn(front + [t], a, b) == CountIn(front, a, b) + if a <= t < b then 1 else 0
  {
    assert (front + [t])[..|front|] == front;
  }

  lemma {:induction false} EdgeEntries(p: Params, n: nat)
    requires p.maxFailures >= 2 && p.window > 0.0 && n < 2 * p.maxFailures
    ensures EntryAfter(p, EdgeTimes(p, n)) == EdgeEntry(p, n)
  {
    if n == 0 {
    } else {
      EdgeEntries(p, n - 1);
      EdgeStep(p, n);
      LastEntry(p, EdgeTimes(p, n - 1), EdgeTime(p, n - 1));
    }
  }

  lemma LastEntry(p: Params, front: seq<real>, t: real)
    ensures EntryAfter(p, front + [t]) == Some(Failed(p, EntryAfter(p, front), t))
  {
    assert (front + [t])[..|front|] == front;
  }

  lemma EdgeUnfolds(p: Params, n: nat)
    requires n > 0
    ensures EdgeTimes(p, n) == EdgeTimes(p, n - 1) + [EdgeTime(p, n - 1)]
  {
  }

  lemma {:induction false} EdgeDisciplined(p: Params, n: nat)
    requires p.maxFailures >= 2 && p.window > 0.0 && n < 2 * p.maxFailures
    ensures DisciplinedTimes(p, EdgeTimes(p, n))
  {
    hide Failed, EdgeEntry, EdgeTime, Wait, EntryAfter, AllowedTime;
    if n == 0 {
    } else {
      EdgeDisciplined(p, n - 1);
      EdgeEntries(p, n - 1);
      EdgeStep(p, n);
      EdgeUnfolds(p, n);
      hide EdgeTimes, DisciplinedTimes;
      DisciplinedLast(p, EdgeTimes(p, n - 1), EdgeTime(p, n - 1));
    }
  }

  lemma {:induction false} EdgeCount(p: Params, n: nat)
    requires p.maxFailures >= 2 && p.window > 0.0 && n < 2 * p.maxFailures
    ensures CountIn(EdgeTimes(p, n), p.window, p.window + p.window) == if n == 0 then 0 else n - 1
  {
    if n == 0 {
    } else {
      EdgeCount(p, n - 1);
      CountLast(EdgeTimes(p, n - 1), EdgeTime(p, n - 1), p.window, p.window + p.window);
    }
  }

  lemma EdgeSorted(p: Params, n: nat)
    requires p.window > 0.0
    ensures Sorted(EdgeTimes(p, n))
  {
  }

  /** The failures of one key at given times. */
  function Failures(k: string, times: seq<real>): (events: seq<Event>)
    ensures |events| == |times| && forall i :: 0 <= i < |times| ==> events[i] == Fail(k, times[i])
  {
    if times == [] then [] else Failures(k, times[..|times| - 1]) + [Fail(k, times[|times| - 1])]
  }

  lemma FailuresUpTo(k: string, times: seq<real>, i: nat)
    requires i <= |times|
    ensures Failures(k, times)[..i] == Failures(k, times[..i])
  {
  }

  lemma {:induction false} FailuresRun(p: Params, k: string, times: seq<real>)
    ensures FailTimes(Failures(k, times), k) == times
    ensures Get(RunIdeal(p, Failures(k, times)), k) == EntryAfter(p, times)
  {
    if times == [] {
    } else {
      var n := |times| - 1;
      FailuresRun(p, k, times[..n]);
      FailuresUpTo(k, times, n);
    }
  }

  /** A key whose failures come at disciplined times was allowed each time, by the limiter as it is. */
  lemma FailuresAllowed(p: Params, k: string, times: seq<real>)
    requires Sorted(times) && DisciplinedTimes(p, times)
    ensures Ordered(Failures(k, times)) && Disciplined(p, Failures(k, times), k)
  {
    var events := Failures(k, times);
    forall i | 0 <= i < |events|
      ensures AllowedEvent(p, events, k, i)
    {
      AllowedThen(p, k, times, i);
    }
  }

  lemma AllowedThen(p: Params, k: string, times: seq<real>, i: nat)
    requires Sorted(times) && DisciplinedTimes(p, times) && i < |times|
    ensures AllowedEvent(p, Failures(k, times), k, i)
  {
    var before := times[..i];
    assert AllowedTime(p, times, i);
    assert Ordered(Failures(k, before)) by {
      assert forall j :: 0 <= j < i ==> before[j] == times[j];
    }
    assert i > 0 ==> before[i - 1] <= times[i];
    hide DisciplinedTimes, Sorted, Ordered, Failed, Run, RunIdeal, EntryAfter, FailTimes, Wait;
    FailuresUpTo(k, times, i);
    FailuresRun(p, k, before);
    GcIsInvisible(p, Failures(k, before), k, times[i]);
  }

  lemma FailuresDoNotReset(k: string, times: seq<real>)
    ensures NoResets(Failures(k, times), k)
  {
    assert forall i :: 0 <= i < |times| ==> Failures(k, times)[i].Fail?;
  }

  /** The first n of the edge's failures are a disciplined run, and all but one fall into one window. */
  lemma EdgeRuns(p: Params, k: string, n: nat)
    requires p.maxFailures >= 2 && p.window > 0.0 && 0 < n < 2 * p.maxFailures
    ensures var events := Failures(k, EdgeTimes(p, n));
            && Ordered(events) && NoResets(events, k) && Disciplined(p, events, k)
            && CountIn(FailTimes(events, k), p.window, p.window + p.window) == n - 1
  {
    FailuresDoNotReset(k, EdgeTimes(p, n));
    hide *;
    EdgeSorted(p, n);
    EdgeDisciplined(p, n);
    EdgeCount(p, n);
    FailuresAllowed(p, k, EdgeTimes(p, n));
    FailuresRun(p, k, EdgeTimes(p, n));
  }

  /** Two windows' worth of failures, less two, can fall into one window, each reported while the
      limiter allowed the key: for the dashboard's 5 in 15 minutes that is 8. */
  lemma BoundIsReached(p: Params, k: string)
    requires p.maxFailures >= 2 && p.window > 0.0
    ensures var events := Failures(k, EdgeTimes(p, 2 * p.maxFailures - 1));
            Ordered(events) && NoResets(events, k) && Disciplined(p, events, k)
            && CountIn(FailTimes(events, k), p.window, p.window + p.window) == 2 * p.maxFailures - 2
  {
    hide *;
    EdgeRuns(p, k, 2 * p.maxFailures - 1);
  }

  // ----- how long a key waits -----

  /** What the limiter that drops nothing knows of a key that was never reset. */
  lemma {:induction false} OwnFailures(p: Params, events: seq<Event>, k: string)
    requires NoResets(events, k)
    ensures Get(RunIdeal(p, events), k) == EntryAfter(p, FailTimes(events, k))
  {
    hide Failed;
    if events == [] {
    } else {
      var front, last := events[..|events| - 1], events[|events| - 1];
      assert NoResets(front, k);
      OwnFailures(p, front, k);
      var times := FailTimes(front, k);
      assert (times + [last.at])[..|times|] == times;
      if last.k != k {
        IdealElsewhere(p, events, k);
      }
    }
  }

  /** A reset forgets all that went before. */
  lemma {:induction false} ResetForgets(p: Params, before: seq<Event>, k: string, at: real, later: seq<Event>)
    ensures Get(RunIdeal(p, before + [Reset(k, at)] + later), k) == Get(RunIdeal(p, later), k)
  {
    hide Failed;
    var events := before + [Reset(k, at)] + later;
    if later == [] {
      assert events[|events| - 1] == Reset(k, at);
    } else {
      var front, last := later[..|later| - 1], later[|later| - 1];
      ResetForgets(p, before, k, at, front);
      assert events[..|events| - 1] == before + [Reset(k, at)] + front && events[|events| - 1] == last;
    }
  }

  /** The failure from which a key's failures are counted: the first one, until one comes more than a
      window after it. */
  function CountStart(p: Params, times: seq<real>): (start: nat)
    requires times != []
    ensures start < |times|
  {
    if |times| == 1 then 0
    else
      var start := CountStart(p, times[..|times| - 1]);
      if times[|times| - 1] - times[start] > p.window then |times| - 1 else start
  }

  /** Among ordered times: no pause since then, and only times more than a window before then. */
  lemma {:induction false} CountStartsAfterPause(p: Params, times: seq<real>, from: nat)
    requires Sorted(times) && from < |times| && times[|times| - 1] - times[from] <= p.window
    requires forall i :: 0 <= i < from ==> times[from] - times[i] > p.window
    ensures CountStart(p, times) == from
  {
    if |times| == 1 {
    } else {
      var front := times[..|times| - 1];
      assert Sorted(front);
      if from < |front| {
        assert front[|front| - 1] <= times[|times| - 1];
        CountStartsAfterPause(p, front, from);
      }
    }
  }

  lemma {:induction false} EntryCounts(p: Params, times: seq<real>)
    requires times != []
    ensures var n := |times| - CountStart(p, times);
            EntryAfter(p, times) ==
            Some(Entry(n, times[CountStart(p, times)],
                       if n >= p.maxFailures then Some(times[|times| - 1] + p.window) else None))
  {
    if |times| == 1 {
    } else {
      EntryCounts(p, times[..|times| - 1]);
    }
  }

  /** The wait, in times: a key with fewer failures counted than the limit may try at once; from the
      limit on it waits until a window after its last failure, whatever the other keys did. */
  lemma WaitIsFromLastFailure(p: Params, events: seq<Event>, k: string, now: real)
    requires Ordered(events) && NoResets(events, k) && (events != [] ==> events[|events| - 1].at <= now)
    ensures var times := FailTimes(events, k);
            Wait(Get(Run(p, events), k), now) ==
            if times == [] then None
            else
              var free := times[|times| - 1] + p.window;
              if |times| - CountStart(p, times) >= p.maxFailures && now < free then Some(free - now) else None
  {
    hide Failed, Run, RunIdeal;
    GcIsInvisible(p, events, k, now);
    OwnFailures(p, events, k);
    if FailTimes(events, k) != [] {
      EntryCounts(p, FailTimes(events, k));
    }
  }

  /** After a successful login the same counts only what came since. */
  lemma WaitAfterReset(p: Params, before: seq<Event>, k: string, at: real, later: seq<Event>, now: real)
    requires var events := before + [Reset(k, at)] + later; Ordered(events) && events[|events| - 1].at <= now
    ensures Wait(Get(Run(p, before + [Reset(k, at)] + later), k), now) == Wait(Get(Run(p, later), k), now)
  {
    hide Wait, Run, RunIdeal;
    var events := before + [Reset(k, at)] + later;
    assert forall i :: 0 <= i < |later| ==> later[i] == events[|before| + 1 + i];
    GcIsInvisible(p, events, k, now);
    GcIsInvisible(p, later, k, now);
    ResetForgets(p, before, k, at, later);
  }
}
