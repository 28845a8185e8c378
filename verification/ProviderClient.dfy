/** The shared HTTP client's retry loop around the limiter: how many requests any stretch of time can
    see (internal/provider/provider.go). */
module ProviderClient {
  import opened TokenBucket

  const MAX_RETRIES := 4
  const TOO_MANY_REQUESTS := 429

  /** The wait the server asks for: no header, one that does not parse, or a number of seconds. */
  datatype RetryAfter = Absent | Unparsable | Seconds(d: real)

  /** What an attempt with a permit meets. */
  datatype Reply =
    | BodyGone                 // the request body could not be re-read; nothing is sent
    | NetworkError(ctxDone: bool)
    | Response(status: nat, retryAfter: RetryAfter, ctxDone: bool)   // ctxDone: while sleeping after it

  datatype Result = Ok(status: nat) | Failed | GaveUp | Denied

  /** A response that ends the loop with success. */
  predicate Good(a: Reply) {
    a.Response? && a.status != TOO_MANY_REQUESTS && a.status < 500
  }

  /** A reply after which the caller may send again. */
  predicate Retried(a: Reply, noServerRetries: bool) {
    a.NetworkError? || (a.Response? && (a.status == TOO_MANY_REQUESTS || (a.status >= 500 && !noServerRetries)))
  }

  /** One after which it does, unless it was the last attempt: no context ends during the sleep. */
  predicate GoesOn(a: Reply, noServerRetries: bool) {
    Retried(a, noServerRetries) && !a.ctxDone
  }

  // ----- requests and permits -----

  /** Every request was sent under the permit of a turn of its own. */
  ghost predicate Licensed(b: Bucket, turns: seq<real>, sent: set<nat>) {
    forall i :: i in sent ==> i < |turns| && Granted(b, turns, i)
  }

  lemma GrantedStays(b: Bucket, turns: seq<real>, longer: seq<real>, i: nat)
    requires turns <= longer && i < |turns|
    ensures Granted(b, turns, i) == Granted(b, longer, i)
  {
    assert turns[..i] == longer[..i];
  }

  lemma LicensedStays(b: Bucket, turns: seq<real>, longer: seq<real>, sent: set<nat>)
    requires turns <= longer && Licensed(b, turns, sent)
    ensures Licensed(b, longer, sent)
  {
    forall i | i in sent
      ensures i < |longer| && Granted(b, longer, i)
    {
      GrantedStays(b, turns, longer, i);
    }
  }

  lemma LicensedBoth(b: Bucket, turns: seq<real>, sent: set<nat>, more: set<nat>)
    requires Licensed(b, turns, sent) && Licensed(b, turns, more)
    ensures Licensed(b, turns, sent + more)
  {
    hide Granted;
  }

  lemma LicensedBefore(b: Bucket, turns: seq<real>, sent: set<nat>)
    requires Licensed(b, turns, sent)
    ensures forall i :: i in sent ==> i < |turns|
  {
    hide Granted;
  }

  lemma TakeLicence(b: Bucket, turns: seq<real>, sent: set<nat>, turn: nat)
    requires Licensed(b, turns, sent) && turn < |turns| && Granted(b, turns, turn)
    ensures Licensed(b, turns, sent + {turn})
  {
    hide Granted;
  }

  /** Licensed requests of a range of turns are at most the permits given in it. */
  lemma {:induction false} AtMostPermits(b: Bucket, turns: seq<real>, sent: set<nat>, i: nat, j: nat)
    requires Licensed(b, turns, sent) && i <= j <= |turns| && forall k :: k in sent ==> i <= k < j
    ensures |sent| <= Permits(b, turns, i, j)
    decreases j
  {
    hide Granted;
    if i == j {
      assert sent == {};
    } else {
      AtMostPermits(b, turns, sent - {j - 1}, i, j - 1);
      assert j - 1 in sent ==> Granted(b, turns, j - 1) && |sent| == |sent - {j - 1}| + 1;
      assert j - 1 !in sent ==> sent - {j - 1} == sent;
    }
  }

  lemma {:induction false} Bounds(sent: set<nat>) returns (lo: nat, hi: nat)
    requires sent != {}
    ensures lo in sent && hi in sent && forall k :: k in sent ==> lo <= k <= hi
    decreases |sent|
  {
    var k :| k in sent;
    var rest := sent - {k};
    if rest == {} {
      assert sent == {k};
      lo, hi := k, k;
    } else {
      lo, hi := Bounds(rest);
      assert sent == rest + {k};
      lo, hi := if k < lo then k else lo, if k > hi then k else hi;
    }
  }

  /** The requests sent between from and from + w, by the times of their permits. */
  function InWindow(turns: seq<real>, sent: set<nat>, from: real, w: real): set<nat> {
    set i | i in sent && i < |turns| && from <= turns[i] <= from + w
  }

  /** Any window of length w sees at most max + refill * w requests, all callers and all retries
      together. */
  lemma RequestsInWindow(b: Bucket, turns: seq<real>, sent: set<nat>, from: real, w: real)
    requires Valid(b) && !b.used && b.tokens == b.max && Ordered(turns) && Licensed(b, turns, sent) && w >= 0.0
    ensures |InWindow(turns, sent, from, w)| as real <= b.max + Inflow(b.refill, 0.0, w)
  {
    var inside := InWindow(turns, sent, from, w);
    if inside == {} {
      InflowGrows(b.refill, 0.0, w);
    } else {
      var lo, hi := Bounds(inside);
      AtMostPermits(b, turns, inside, lo, hi + 1);
      WindowBound(b, turns, lo, hi + 1, w);
    }
  }

  // ----- the client -----

  /** The turns of one call: licensed, among those from lo to hi, one after another. */
  ghost predicate InTurn(mine: seq<nat>, sent: set<nat>, lo: nat, hi: nat) {
    && (forall i :: 0 <= i < |mine| ==> lo <= mine[i] < hi && mine[i] in sent)
    && (forall i, j :: 0 <= i < j < |mine| ==> mine[i] < mine[j])
  }

  lemma NextTurn(mine: seq<nat>, sent: set<nat>, lo: nat, hi: nat, turn: nat)
    requires InTurn(mine, sent, lo, hi) && lo <= hi <= turn
    ensures InTurn(mine + [turn], sent + {turn}, lo, turn + 1)
  {
  }

  lemma StillInTurn(mine: seq<nat>, sent: set<nat>, more: set<nat>, lo: nat, hi: nat, later: nat)
    requires InTurn(mine, sent, lo, hi) && sent <= more && hi <= later
    ensures InTurn(mine, more, lo, later)
  {
  }

  class Client {
    const limiter: Limiter
    /** The turns under whose permits requests were sent, by this and other callers. */
    ghost var sent: set<nat>

    ghost predicate Valid()
      reads this, limiter
    {
      limiter.Ok() && Licensed(New(limiter.rpm), limiter.turns, sent)
    }

    constructor (limiter: Limiter)
      requires limiter.Ok()
      ensures Valid() && this.limiter == limiter && sent == {}
    {
      this.limiter := limiter;
      sent := {};
    }

    /** At most twice the configured requests leave in any minute. */
    lemma RequestsPerMinute(from: real)
      requires Valid() && limiter.rpm > 0
      ensures |InWindow(limiter.turns, sent, from, 60.0)| <= 2 * limiter.rpm
    {
      RequestsInWindow(New(limiter.rpm), limiter.turns, sent, from, 60.0);
      assert Inflow(New(limiter.rpm).refill, 0.0, 60.0) == limiter.rpm as real;
    }

    /** Other callers send requests, each under a permit that nobody has used and that is not own. */
    ghost method OthersSend(own: set<nat>)
      requires Valid()
      modifies `sent
      ensures Valid() && old(sent) <= sent && (sent - old(sent)) * own == {}
    {
      var more: set<nat> :| more * (own + sent) == {} && Licensed(New(limiter.rpm), limiter.turns, more);
      LicensedBoth(New(limiter.rpm), limiter.turns, sent, more);
      sent := sent + more;
    }

    /** Sleeping, while others go on; a call's own turns stay its own. */
    method Sleep(d: real, ghost mine: seq<nat>, ghost from: nat)
      requires Valid() && InTurn(mine, sent, from, |limiter.turns|)
      modifies `sent, limiter
      ensures Valid() && old(sent) <= sent && old(limiter.turns) <= limiter.turns
      ensures InTurn(mine, sent, from, |limiter.turns|)
    {
      ghost var turns := limiter.turns;
      limiter.Elapse(if d > 0.0 then d else 0.0, false);
      LicensedStays(New(limiter.rpm), turns, limiter.turns, sent);
      OthersSend({});
    }

    /** One permit, or none. */
    method Acquire(ghost mine: seq<nat>, ghost from: nat) returns (permit: bool, ghost turn: nat)
      requires Valid() && InTurn(mine, sent, from, |limiter.turns|)
      modifies `sent, limiter
      ensures Valid() && old(sent) <= sent && old(limiter.turns) < limiter.turns
      ensures InTurn(mine, sent, from, turn)
      ensures turn == |limiter.turns| - 1 && turn !in sent
      ensures permit == Granted(New(limiter.rpm), limiter.turns, turn)
    {
      hide Granted, Licensed, Ordered, After, New;
      ghost var turns := limiter.turns;
      LicensedBefore(New(limiter.rpm), turns, sent);
      var res, _ := limiter.Wait(false);
      LicensedStays(New(limiter.rpm), turns, limiter.turns, sent);
      permit, turn := res.Permit?, |limiter.turns| - 1;
      ghost var before := sent;
      OthersSend({turn});
      assert turn !in before;
      assert turn in sent ==> turn in (sent - before) * {turn};
    }

    /** Do: each request is sent under a permit that the limiter gave to this call for it alone, at
        most five are sent, one after another, and exactly as many as it takes to meet a reply that
        is not retried. */
    method Do(replies: seq<Reply>, noServerRetries: bool) returns (res: Result, ghost mine: seq<nat>)
      requires Valid() && |replies| == MAX_RETRIES + 1 && !replies[0].BodyGone?
      modifies `sent, limiter
      ensures Valid() && old(sent) <= sent && old(limiter.turns) < limiter.turns
      ensures |mine| <= 5 && InTurn(mine, sent, |old(limiter.turns)|, |limiter.turns|)
      ensures forall i :: 0 <= i < |mine| - 1 ==> GoesOn(replies[i], noServerRetries)
      ensures res.Ok? <==>
                |mine| > 0 && replies[|mine| - 1].Response?
                && replies[|mine| - 1].status < 500 && replies[|mine| - 1].status != 429
      ensures res.Ok? ==> replies[|mine| - 1].status == res.status
      ensures res.GaveUp? <==> |mine| == 5 && Retried(replies[4], noServerRetries)
      ensures forall i :: 0 <= i < |mine| - 1 ==>
                (replies[i].NetworkError?
                 || (replies[i].Response? && (replies[i].status == 429
                                              || (replies[i].status >= 500 && !noServerRetries))))
                && !replies[i].ctxDone
      ensures res.Denied? ==> !Granted(New(limiter.rpm), limiter.turns, |limiter.turns| - 1)
                              && (|mine| > 0 ==> GoesOn(replies[|mine| - 1], noServerRetries))
      ensures res.Failed? ==>
                || (|mine| < 5 && replies[|mine|].BodyGone?)
                || (|mine| > 0 && !Good(replies[|mine| - 1]) && !GoesOn(replies[|mine| - 1], noServerRetries))
    {
      hide Granted, Licensed, Ordered, After, New, Limiter.Ok;
      mine := [];
      ghost var from := |limiter.turns|;
      assert InTurn(mine, sent, from, from);
      hide InTurn;
      for attempt := 0 to MAX_RETRIES + 1
        invariant Valid() && old(sent) <= sent && old(limiter.turns) <= limiter.turns && |mine| == attempt
        invariant attempt > 0 ==> old(limiter.turns) < limiter.turns
        invariant InTurn(mine, sent, from, |limiter.turns|)
        invariant forall i :: 0 <= i < attempt ==> if i < 4 then GoesOn(replies[i], noServerRetries)
                                                   else Retried(replies[i], noServerRetries)
      {
        var permit, turn := Acquire(mine, from);
        if !permit {
          StillInTurn(mine, sent, sent, from, turn, turn + 1);
          return Denied, mine;
        }
        var a := replies[attempt];
        if a.BodyGone? {
          StillInTurn(mine, sent, sent, from, turn, turn + 1);
          return Failed, mine;
        }
        NextTurn(mine, sent, from, turn, turn);
        TakeLicence(New(limiter.rpm), limiter.turns, sent, turn);
        sent, mine := sent + {turn}, mine + [turn];
        if a.Response? {
          if a.status != TOO_MANY_REQUESTS && a.status < 500 {
            return Ok(a.status), mine;
          }
          if a.status >= 500 && noServerRetries {
            return Failed, mine;
          }
          if a.retryAfter.Seconds? && attempt == 0 {
            if a.ctxDone {
              return Failed, mine;
            }
            Sleep(a.retryAfter.d, mine, from);
            continue;
          }
        }
        if attempt < MAX_RETRIES {
          if a.ctxDone {
            return Failed, mine;
          }
          var backoff: real := *;
          Sleep(backoff, mine, from);
        }
      }
      res := GaveUp;
    }
  }
}
