/** A resumable download into its .part file, against any server behaviour: ranges, restarts,
    cut transfers and rejections (internal/download/download.go; range requests follow
    sections 14.2, 15.3.7 and 15.5.17 of RFC 9110). */
module Download {
  import opened Wrappers

  type Bytes = seq<int>

  /** What one attempt meets: no link, no response, or a response of which body arrived before it
      ended, cleanly or broken. */
  datatype Reply =
    | NoLink
    | NoResponse
    | Response(status: nat, body: Bytes, broken: bool)

  const OK := 200
  const PARTIAL := 206
  const RANGE_NOT_SATISFIABLE := 416
  const MAX_ATTEMPTS := 4

  datatype Outcome =
    | NoSpace            // refused before the first request
    | Stopped            // cancelled; the .part file stays
    | Failed             // every attempt failed; the .part file stays
    | Mismatch           // complete but of the wrong size: deleted
    | Removed            // the entry was removed meanwhile: deleted
    | NotInLibrary       // the file left the library: the .part file stays
    | Promoted(content: Bytes)

  function Len(part: Option<Bytes>): nat {
    if part.Some? then |part.value| else 0
  }

  /** An oversized leftover is deleted before the request is made. */
  function Trimmed(part: Option<Bytes>, size: int): Option<Bytes> {
    if size > 0 && Len(part) > size then None else part
  }

  predicate AlreadyComplete(part: Option<Bytes>, size: int) {
    size > 0 && Len(part) == size
  }

  /** The .part file after one attempt. */
  function PartAfter(part: Option<Bytes>, size: int, reply: Reply): Option<Bytes> {
    if reply.NoLink? || AlreadyComplete(part, size) then part
    else
      var kept := Trimmed(part, size);
      if reply.NoResponse? then kept
      else if reply.status == PARTIAL && Len(kept) > 0 then Some(kept.value + reply.body)
      else if reply.status == OK then Some(reply.body)
      else if reply.status == RANGE_NOT_SATISFIABLE then None
      else kept
  }

  /** Whether the attempt returned no error. */
  predicate Succeeds(part: Option<Bytes>, size: int, reply: Reply) {
    && !reply.NoLink?
    && (AlreadyComplete(part, size)
        || (reply.Response? && !reply.broken
            && (reply.status == OK || (reply.status == PARTIAL && Len(Trimmed(part, size)) > 0))))
  }

  /** The reply completes the transfer: a link was found for a leftover that is complete already, or
      the reply ended cleanly and was the whole file, or the rest that was asked for. */
  predicate Delivers(part: Option<Bytes>, size: int, reply: Reply) {
    match reply
    case NoLink => false
    case NoResponse => part.Some? && 0 < size == |part.value|
    case Response(status, body, broken) =>
      || (part.Some? && 0 < size == |part.value|)
      || (!broken && status == 200)
      || (!broken && status == 206 && part.Some? && part.value != [] && (size > 0 ==> |part.value| <= size))
  }

  /** What a reply brings is all there is, or comes after what is there. */
  lemma DeliveriesSucceed(part: Option<Bytes>, size: int, reply: Reply)
    ensures Succeeds(part, size, reply) <==> Delivers(part, size, reply)
    ensures Delivers(part, size, reply) ==>
              PartAfter(part, size, reply)
              == if part.Some? && 0 < size == |part.value| then part
                 else if reply.status == 200 then Some(reply.body)
                 else Some(part.value + reply.body)
  {
  }

  function PartAfterAll(part: Option<Bytes>, size: int, replies: seq<Reply>): Option<Bytes> {
    if replies == [] then part
    else PartAfter(PartAfterAll(part, size, replies[..|replies| - 1]), size, replies[|replies| - 1])
  }

  // ----- servers -----

  /** An honest answer to the request made for this .part file: a 200 carries the file from its
      start, a 206 from the requested offset, and only a cut transfer stops short. */
  ghost predicate Honest(remote: Bytes, part: Option<Bytes>, size: int, reply: Reply) {
    var offset := Len(Trimmed(part, size));
    && (reply.Response? && reply.status == OK ==>
          reply.body <= remote && (!reply.broken ==> reply.body == remote))
    && (reply.Response? && reply.status == PARTIAL && 0 < offset <= |remote| ==>
          reply.body <= remote[offset..] && (!reply.broken ==> reply.body == remote[offset..]))
  }

  /** An answer that carries no more than the recorded size. */
  predicate Bounded(part: Option<Bytes>, size: int, reply: Reply) {
    reply.Response? ==>
      && (reply.status == OK ==> |reply.body| <= size)
      && (reply.status == PARTIAL ==> Len(Trimmed(part, size)) + |reply.body| <= size)
  }

  ghost predicate AllHonest(remote: Bytes, part: Option<Bytes>, size: int, replies: seq<Reply>) {
    forall i :: 0 <= i < |replies| ==> Honest(remote, PartAfterAll(part, size, replies[..i]), size, replies[i])
  }

  /** The n-th reply completes the transfer. */
  predicate DeliversAt(part: Option<Bytes>, size: int, replies: seq<Reply>, n: nat)
    requires n < |replies|
  {
    Delivers(PartAfterAll(part, size, replies[..n]), size, replies[n])
  }

  ghost predicate NoneDelivers(part: Option<Bytes>, size: int, replies: seq<Reply>, n: nat) {
    forall m :: 0 <= m < n && m < |replies| ==> !DeliversAt(part, size, replies, m)
  }

  /** What becomes of a transfer that a reply has completed. */
  function Verdict(part: Option<Bytes>, size: int, rowThere: bool, fileThere: bool): Outcome {
    if part.None? then Failed
    else if size > 0 && |part.value| != size then Mismatch
    else if !rowThere then Removed
    else if !fileThere then NotInLibrary
    else Promoted(part.value)
  }

  /** How a download ends after some of the replies: the first one that completes it decides; without
      one it is stopped when the replies run out, and fails after four. */
  ghost predicate Ends(part: Option<Bytes>, size: int, replies: seq<Reply>, room: bool, rowThere: bool, fileThere: bool,
                       res: Outcome, used: nat)
  {
    if !room then res == NoSpace && used == 0
    else
      && used <= |replies| && used <= 4
      && if used > 0 && DeliversAt(part, size, replies, used - 1) then
           && NoneDelivers(part, size, replies, used - 1)
           && res == Verdict(PartAfterAll(part, size, replies[..used]), size, rowThere, fileThere)
         else
           && NoneDelivers(part, size, replies, used)
           && ((used == 4 && res == Failed) || (used == |replies| < 4 && res == Stopped))
  }

  /** When one of the first four replies completes an honest transfer into a prefix, with room and a
      right size, the whole file is promoted; and only then. */
  lemma DeliveryDecides(remote: Bytes, part: Option<Bytes>, size: int, replies: seq<Reply>, room: bool,
                        rowThere: bool, fileThere: bool, res: Outcome, used: nat)
    requires Ends(part, size, replies, room, rowThere, fileThere, res, used)
    requires IsPrefix(part, remote) && AllHonest(remote, part, size, replies) && SizeRight(size, remote)
    ensures res == Promoted(remote) <==>
            room && rowThere && fileThere
            && exists n :: 0 <= n < |replies| && n < 4 && DeliversAt(part, size, replies, n)
    ensures res.Promoted? ==> res == Promoted(remote)
    ensures res == NoSpace <==> !room
    ensures res == Removed <==>
            room && !rowThere && exists n :: 0 <= n < |replies| && n < 4 && DeliversAt(part, size, replies, n)
    ensures res == NotInLibrary <==>
            room && rowThere && !fileThere
            && exists n :: 0 <= n < |replies| && n < 4 && DeliversAt(part, size, replies, n)
    ensures res != Mismatch
    ensures res == Stopped <==> room && |replies| < 4 && NoneDelivers(part, size, replies, 4)
    ensures res == Failed <==> room && |replies| >= 4 && NoneDelivers(part, size, replies, 4)
  {
    if room {
      if used > 0 && DeliversAt(part, size, replies, used - 1) {
        DeliveriesSucceed(PartAfterAll(part, size, replies[..used - 1]), size, replies[used - 1]);
        hide Succeeds, DeliversAt, PartAfterAll, AllHonest;
        CompleteCase(part, size, replies, used);
      } else {
        hide DeliversAt;
        assert forall n :: 0 <= n < |replies| && n < 4 ==> !DeliversAt(part, size, replies, n);
      }
    }
  }

  /** Whatever the server sends, only a file of the recorded size is taken, and one is turned down for its
      size only when it has another. */
  lemma SizeDecides(part: Option<Bytes>, size: int, replies: seq<Reply>, room: bool, rowThere: bool, fileThere: bool,
                    res: Outcome, used: nat)
    requires Ends(part, size, replies, room, rowThere, fileThere, res, used)
    ensures used <= |replies|
    ensures var got := PartAfterAll(part, size, replies[..used]);
            && (res.Promoted? ==> got == Some(res.content) && (size > 0 ==> |res.content| == size))
            && (res == Mismatch ==> got.Some? && 0 < size != |got.value|)
            && (res == Removed ==> got.Some? && (size > 0 ==> |got.value| == size) && !rowThere)
            && (res == NotInLibrary ==> got.Some? && (size > 0 ==> |got.value| == size) && rowThere && !fileThere)
  {
    hide PartAfterAll, DeliversAt;
  }

  ghost predicate AllBounded(part: Option<Bytes>, size: int, replies: seq<Reply>) {
    forall i :: 0 <= i < |replies| ==> Bounded(PartAfterAll(part, size, replies[..i]), size, replies[i])
  }

  // ----- what every attempt keeps -----

  ghost predicate IsPrefix(part: Option<Bytes>, remote: Bytes) {
    part.Some? ==> part.value <= remote
  }

  /** The recorded size of a file is zero when unknown. */
  predicate SizeRight(size: int, remote: Bytes) {
    size == 0 || size == |remote|
  }

  lemma AttemptKeepsPrefix(remote: Bytes, part: Option<Bytes>, size: int, reply: Reply)
    requires IsPrefix(part, remote) && Honest(remote, part, size, reply)
    ensures IsPrefix(PartAfter(part, size, reply), remote)
    ensures SizeRight(size, remote) && Succeeds(part, size, reply) ==> PartAfter(part, size, reply) == Some(remote)
  {
    var kept := Trimmed(part, size);
    assert remote[..|remote|] == remote;
    if kept.Some? {
      var offset := |kept.value|;
      assert remote == remote[..offset] + remote[offset..];
      assert kept.value == remote[..offset];
    }
  }

  /** An attempt loses nothing of what is there, unless the server starts over or turns the resume down, or
      there was too much; a partial reply adds all that arrives, a rejected resume starts clean. */
  lemma AttemptLosesNothing(part: Option<Bytes>, size: int, reply: Reply)
    requires part.Some? && part.value != [] && (size > 0 ==> |part.value| < size)
    ensures var after := PartAfter(part, size, reply);
            match reply
            case NoLink => after == part
            case NoResponse => after == part
            case Response(status, body, _) =>
              after == if status == 200 then Some(body)
                       else if status == 206 then Some(part.value + body)
                       else if status == 416 then None
                       else part
  {
  }

  /** What is larger than the file can be goes before the request; what is complete is not requested. */
  lemma LeftoversAreJudged(part: Option<Bytes>, size: int, reply: Reply)
    requires part.Some? && size > 0 && !reply.NoLink?
    ensures |part.value| == size ==> PartAfter(part, size, reply) == part
    ensures |part.value| > size && !(reply.Response? && reply.status == 200) ==> PartAfter(part, size, reply) == None
  {
  }

  /** Through any number of attempts, resumes, restarts and cut transfers, over any number of
      process restarts, the .part file is a prefix of the remote file. */
  lemma {:induction false} AlwaysPrefix(remote: Bytes, part: Option<Bytes>, size: int, replies: seq<Reply>)
    requires IsPrefix(part, remote) && AllHonest(remote, part, size, replies)
    ensures IsPrefix(PartAfterAll(part, size, replies), remote)
  {
    if replies == [] {
    } else {
      var front, n := replies[..|replies| - 1], |replies| - 1;
      forall i | 0 <= i < |front|
        ensures Honest(remote, PartAfterAll(part, size, front[..i]), size, front[i])
      {
        assert front[..i] == replies[..i];
      }
      AlwaysPrefix(remote, part, size, front);
      assert replies[..n] == front;
      AttemptKeepsPrefix(remote, PartAfterAll(part, size, front), size, replies[n]);
    }
  }

  /** The .part file never outgrows the recorded size and what was there before. */
  lemma {:induction false} NeverOutgrows(part: Option<Bytes>, size: int, replies: seq<Reply>)
    requires size > 0 && AllBounded(part, size, replies)
    ensures Len(PartAfterAll(part, size, replies)) <= size || Len(PartAfterAll(part, size, replies)) <= Len(part)
  {
    if replies == [] {
    } else {
      var front, n := replies[..|replies| - 1], |replies| - 1;
      forall i | 0 <= i < |front|
        ensures Bounded(PartAfterAll(part, size, front[..i]), size, front[i])
      {
        assert front[..i] == replies[..i];
      }
      NeverOutgrows(part, size, front);
      assert replies[..n] == front;
      assert Bounded(PartAfterAll(part, size, replies[..n]), size, replies[n]);
    }
  }

  function Min(a: int, b: int): int {
    if a <= b then a else b
  }

  /** The states of one download, with the free space of its disk. */
  class Downloader {
    const size: int          // recorded size, 0 when unknown
    const reserve: int       // space downloads leave free
    const freeKnown: bool    // whether the platform can tell
    var part: Option<Bytes>
    var free: int
    /** The least free space ever reached. */
    ghost var low: int

    constructor (size: int, reserve: int, freeKnown: bool, part: Option<Bytes>, free: int)
      ensures this.size == size && this.reserve == reserve && this.freeKnown == freeKnown
      ensures this.part == part && this.free == free && low == free
    {
      this.size, this.reserve, this.freeKnown := size, reserve, freeKnown;
      this.part, this.free, this.low := part, free, free;
    }

    /** os.Remove on the .part file. */
    method Discard()
      modifies this
      ensures part == None && free == old(free) + Len(old(part)) && low == old(low)
    {
      free := free + Len(part);
      part := None;
    }

    /** io.Copy into the opened .part file. */
    method Write(body: Bytes)
      requires part.Some?
      modifies this
      ensures part == Some(old(part).value + body)
      ensures free == old(free) - |body| && low == Min(old(low), free)
    {
      part := Some(part.value + body);
      free := free - |body|;
      low := Min(low, free);
    }

    method Fetch(reply: Reply) returns (ok: bool)
      modifies this
      ensures part == PartAfter(old(part), size, reply)
      ensures ok == Succeeds(old(part), size, reply) == Delivers(old(part), size, reply)
      ensures free + Len(part) == old(free) + Len(old(part))
      ensures old(low) <= old(free) ==> low == Min(old(low), free)
    {
      DeliveriesSucceed(part, size, reply);
      if reply.NoLink? {
        return false;
      }
      var offset := Len(part);
      if size > 0 && offset == size {
        return true;
      }
      if size > 0 && offset > size {
        Discard();
        offset := 0;
      }
      if reply.NoResponse? {
        return false;
      }
      if reply.status == PARTIAL && offset > 0 {
        Write(reply.body);
      } else if reply.status == OK {
        Discard();
        part := Some([]);
        assert [] + reply.body == reply.body;
        Write(reply.body);
      } else {
        if reply.status == RANGE_NOT_SATISFIABLE {
          Discard();
        }
        return false;
      }
      ok := !reply.broken;
    }

    /** What is missing of a file of known size fits beside the reserve. */
    predicate HasRoom(part: Option<Bytes>, free: int) {
      var missing := size - Len(part);
      missing <= 0 || !freeKnown || free - missing >= reserve
    }

    /** checkSpace: whether there is room for need more bytes. */
    method CheckSpace(need: int) returns (ok: bool)
      ensures ok == (need <= 0 || !freeKnown || free - need >= reserve)
    {
      if need <= 0 || !freeKnown {
        return true;
      }
      ok := free - need >= reserve;
    }

    /** One claim of the queue entry. The attempts meet the given replies in turn; when they run
        out the job is cancelled. */
    method Download(replies: seq<Reply>, rowThere: bool, fileThere: bool) returns (res: Outcome, ghost used: nat)
      requires low <= free
      modifies this
      ensures used <= |replies| && used <= MAX_ATTEMPTS
      ensures Ends(old(part), size, replies, HasRoom(old(part), old(free)), rowThere, fileThere, res, used)
      ensures res in {Stopped, Failed, NotInLibrary, NoSpace} ==> part == PartAfterAll(old(part), size, replies[..used])
      ensures res in {Mismatch, Removed} ==> part == None
      ensures res.Promoted? ==> part == None && rowThere && fileThere
      ensures forall remote :: IsPrefix(old(part), remote) && AllHonest(remote, old(part), size, replies) ==>
                && IsPrefix(part, remote)
                && (SizeRight(size, remote) ==> res != Mismatch && (res.Promoted? ==> res.content == remote))
      ensures freeKnown && size > 0 && AllBounded(old(part), size, replies) ==> low >= Min(old(low), reserve)
      ensures low <= free
    {
      hide PartAfterAll, DeliversAt, NoneDelivers, Delivers, Succeeds, AllHonest, AllBounded;
      ghost var part0, free0 := part, free;
      used := 0;
      var have := Len(part);
      NothingYet(part0, size, replies);
      var room := CheckSpace(size - have);
      if !room {
        PrefixCase(part0, size, replies, 0);
        return NoSpace, used;
      }
      var ok, stopped := false, false;
      var attempt := 1;
      while attempt <= MAX_ATTEMPTS && !ok && !stopped
        invariant 1 <= attempt <= MAX_ATTEMPTS + 1 && used <= |replies| && used == attempt - 1
        invariant part == PartAfterAll(part0, size, replies[..used])
        invariant free + Len(part) == free0 + Len(part0) && low <= free
        invariant freeKnown && size > 0 && AllBounded(part0, size, replies) ==> low >= Min(old(low), reserve)
        invariant ok ==> used > 0 && Succeeds(PartAfterAll(part0, size, replies[..used - 1]), size, replies[used - 1])
        invariant ok ==> DeliversAt(part0, size, replies, used - 1) && NoneDelivers(part0, size, replies, used - 1)
        invariant !ok ==> NoneDelivers(part0, size, replies, used)
        invariant stopped ==> !ok && used == |replies| < MAX_ATTEMPTS
        decreases MAX_ATTEMPTS + 1 - attempt, !ok, !stopped
      {
        if attempt - 1 >= |replies| {
          stopped := true;
        } else {
          OneMore(part0, size, replies, used);
          NextDelivers(part0, size, replies, used);
          ok := Fetch(replies[attempt - 1]);
          used := used + 1;
          RoomFor(part0, free0, size, replies, used, reserve);
          attempt := attempt + 1;
        }
      }
      PrefixCase(part0, size, replies, used);
      LastDoesNot(part0, size, replies, used);
      if stopped {
        return Stopped, used;
      }
      if !ok {
        return Failed, used;
      }
      CompleteCase(part0, size, replies, used);
      if part.None? {
        return Failed, used;
      }
      if size > 0 && |part.value| != size {
        Discard();
        return Mismatch, used;
      }
      if !rowThere {
        Discard();
        return Removed, used;
      }
      if !fileThere {
        return NotInLibrary, used;
      }
      res := Promoted(part.value);
      part := None;
    }
  }

  // ----- the loop's bookkeeping -----

  lemma NothingYet(part: Option<Bytes>, size: int, replies: seq<Reply>)
    ensures PartAfterAll(part, size, replies[..0]) == part && NoneDelivers(part, size, replies, 0)
  {
    assert replies[..0] == [];
  }

  lemma OneMore(part: Option<Bytes>, size: int, replies: seq<Reply>, n: nat)
    requires n < |replies|
    ensures PartAfterAll(part, size, replies[..n + 1])
            == PartAfter(PartAfterAll(part, size, replies[..n]), size, replies[n])
  {
    assert replies[..n + 1][..n] == replies[..n];
  }

  lemma LastDoesNot(part: Option<Bytes>, size: int, replies: seq<Reply>, n: nat)
    ensures NoneDelivers(part, size, replies, n) && 0 < n <= |replies| ==> !DeliversAt(part, size, replies, n - 1)
  {
  }

  lemma NextDelivers(part: Option<Bytes>, size: int, replies: seq<Reply>, n: nat)
    requires n < |replies| && NoneDelivers(part, size, replies, n)
    ensures DeliversAt(part, size, replies, n) <==> Delivers(PartAfterAll(part, size, replies[..n]), size, replies[n])
    ensures !DeliversAt(part, size, replies, n) ==> NoneDelivers(part, size, replies, n + 1)
  {
    hide Delivers, PartAfterAll;
  }

  lemma PrefixCase(part: Option<Bytes>, size: int, replies: seq<Reply>, n: nat)
    requires n <= |replies|
    ensures forall remote :: IsPrefix(part, remote) && AllHonest(remote, part, size, replies) ==>
              IsPrefix(PartAfterAll(part, size, replies[..n]), remote)
  {
    forall remote | IsPrefix(part, remote) && AllHonest(remote, part, size, replies)
      ensures IsPrefix(PartAfterAll(part, size, replies[..n]), remote)
    {
      HonestFront(remote, part, size, replies, n);
      AlwaysPrefix(remote, part, size, replies[..n]);
    }
  }

  lemma HonestFront(remote: Bytes, part: Option<Bytes>, size: int, replies: seq<Reply>, n: nat)
    requires n <= |replies| && AllHonest(remote, part, size, replies)
    ensures AllHonest(remote, part, size, replies[..n])
  {
    forall i | 0 <= i < n
      ensures Honest(remote, PartAfterAll(part, size, replies[..n][..i]), size, replies[..n][i])
    {
      assert replies[..n][..i] == replies[..i];
    }
  }

  /** A successful attempt completes the file. */
  lemma CompleteCase(part: Option<Bytes>, size: int, replies: seq<Reply>, n: nat)
    requires 0 < n <= |replies|
    requires Succeeds(PartAfterAll(part, size, replies[..n - 1]), size, replies[n - 1])
    ensures forall remote ::
              IsPrefix(part, remote) && AllHonest(remote, part, size, replies) && SizeRight(size, remote) ==>
              PartAfterAll(part, size, replies[..n]) == Some(remote)
  {
    forall remote | IsPrefix(part, remote) && AllHonest(remote, part, size, replies) && SizeRight(size, remote)
      ensures PartAfterAll(part, size, replies[..n]) == Some(remote)
    {
      HonestFront(remote, part, size, replies, n - 1);
      AlwaysPrefix(remote, part, size, replies[..n - 1]);
      AttemptKeepsPrefix(remote, PartAfterAll(part, size, replies[..n - 1]), size, replies[n - 1]);
      assert replies[..n][..n - 1] == replies[..n - 1];
    }
  }

  /** Once the space check has passed, the attempts leave the reserve, or what was free. */
  lemma RoomFor(part: Option<Bytes>, free: int, size: int, replies: seq<Reply>, n: nat, reserve: int)
    requires n <= |replies|
    ensures size > 0 && AllBounded(part, size, replies)
            && (size - Len(part) <= 0 || free - (size - Len(part)) >= reserve) ==>
              free + Len(part) - Len(PartAfterAll(part, size, replies[..n])) >= Min(free, reserve)
  {
    if size > 0 && AllBounded(part, size, replies) {
      forall i | 0 <= i < n
        ensures Bounded(PartAfterAll(part, size, replies[..n][..i]), size, replies[..n][i])
      {
        assert replies[..n][..i] == replies[..i];
      }
      NeverOutgrows(part, size, replies[..n]);
    }
  }
}
