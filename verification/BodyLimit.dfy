/**
 * limitedBody (internal/facade/facade.go): a request body that stops with an
 * error once a limit is used up, over any reader below it and any reads.
 */
module BodyLimit {
  import opened Wrappers

  type Byte = b: int | 0 <= b < 256

  datatype ReadError = Eof | TooLarge | Broken

  /** What a Read returns: the bytes put into the buffer and the error. */
  datatype Reply = Reply(data: seq<Byte>, err: Option<ReadError>)

  /** The inner reader's answer to its k-th call with a buffer of a given size. */
  type Reader = (nat, nat) -> Reply

  /** What the wrapper returns when n bytes are left and the inner reader would reply so. */
  function Limit(n: int, inner: Reply): Reply {
    if n <= 0 then Reply([], Some(TooLarge))
    else if n - |inner.data| <= 0 && inner.err.None? then Reply(inner.data, Some(TooLarge))
    else inner
  }

  function Cut(buffer: nat, n: int): nat {
    if n <= 0 then 0 else if buffer > n then n else buffer
  }

  class LimitedBody {
    const inner: Reader
    var calls: nat
    var n: int

    constructor (inner: Reader, limit: int)
      ensures this.inner == inner && calls == 0 && n == limit
    {
      this.inner, calls, n := inner, 0, limit;
    }

    /** Read into a buffer of the given size; the inner reader is asked only while bytes are left. */
    method Read(buffer: nat) returns (r: Reply)
      modifies this
      ensures var reply := inner(old(calls), Cut(buffer, old(n)));
              && r == Limit(old(n), reply)
              && n == (if old(n) <= 0 then old(n) else old(n) - |reply.data|)
              && calls == old(calls) + (if old(n) <= 0 then 0 else 1)
    {
      if n <= 0 {
        return Reply([], Some(TooLarge));
      }
      var p := buffer;
      if p > n {
        p := n;
      }
      var reply := inner(calls, p);
      calls := calls + 1;
      n := n - |reply.data|;
      var err := reply.err;
      if n <= 0 && err.None? {
        err := Some(TooLarge);
      }
      return Reply(reply.data, err);
    }
  }

  // ---- any sequence of reads ----

  datatype State = State(calls: nat, n: int)

  /** The wrapper before read i, when the reads use these buffers. */
  function Before(inner: Reader, limit: int, buffers: nat -> nat, i: nat): State {
    if i == 0 then State(0, limit)
    else
      var s := Before(inner, limit, buffers, i - 1);
      if s.n <= 0 then s else State(s.calls + 1, s.n - |InnerReply(inner, s, buffers(i - 1)).data|)
  }

  function InnerReply(inner: Reader, s: State, buffer: nat): Reply {
    inner(s.calls, Cut(buffer, s.n))
  }

  /** What read i returns. */
  function ReplyAt(inner: Reader, limit: int, buffers: nat -> nat, i: nat): Reply {
    var s := Before(inner, limit, buffers, i);
    Limit(s.n, InnerReply(inner, s, buffers(i)))
  }

  /** All bytes the first i reads return. */
  function Given(inner: Reader, limit: int, buffers: nat -> nat, i: nat): seq<Byte> {
    if i == 0 then [] else Given(inner, limit, buffers, i - 1) + ReplyAt(inner, limit, buffers, i - 1).data
  }

  /** Any k reads of one body: the wrapper replies as ReplyAt says. */
  method ReadMany(inner: Reader, limit: int, buffers: nat -> nat, k: nat)
    returns (body: LimitedBody, replies: seq<Reply>, got: seq<Byte>)
    ensures |replies| == k && forall i :: 0 <= i < k ==> replies[i] == ReplyAt(inner, limit, buffers, i)
    ensures got == Given(inner, limit, buffers, k)
    ensures body.inner == inner && State(body.calls, body.n) == Before(inner, limit, buffers, k)
  {
    hide Before, Given, ReplyAt, Limit, Cut;
    body := new LimitedBody(inner, limit);
    replies, got := [], [];
    NoReads(inner, limit, buffers);
    for i := 0 to k
      invariant |replies| == i && forall j :: 0 <= j < i ==> replies[j] == ReplyAt(inner, limit, buffers, j)
      invariant got == Given(inner, limit, buffers, i)
      invariant body.inner == inner && State(body.calls, body.n) == Before(inner, limit, buffers, i)
    {
      NextRead(inner, limit, buffers, i);
      var r := body.Read(buffers(i));
      replies, got := replies + [r], got + r.data;
    }
  }

  lemma {:induction false} NoReads(inner: Reader, limit: int, buffers: nat -> nat)
    ensures Before(inner, limit, buffers, 0) == State(0, limit) && Given(inner, limit, buffers, 0) == []
  {}

  lemma NextRead(inner: Reader, limit: int, buffers: nat -> nat, i: nat)
    ensures var s := Before(inner, limit, buffers, i);
            var reply := inner(s.calls, Cut(buffers(i), s.n));
            && ReplyAt(inner, limit, buffers, i) == Limit(s.n, reply)
            && Before(inner, limit, buffers, i + 1) == (if s.n <= 0 then s else State(s.calls + 1, s.n - |reply.data|))
            && Given(inner, limit, buffers, i + 1) ==
                 Given(inner, limit, buffers, i) + ReplyAt(inner, limit, buffers, i).data
  {}

  /** The next piece of the body, which fits the buffer, with the end reported only at the end. */
  predicate Delivers(body: seq<Byte>, given: seq<Byte>, buffer: nat, reply: Reply) {
    && given + reply.data <= body && |reply.data| <= buffer
    && reply.err != Some(TooLarge) && (reply.err == Some(Eof) ==> given + reply.data == body)
  }

  /** The inner reader hands out the body, in any pieces. */
  ghost predicate Reads(inner: Reader, limit: int, buffers: nat -> nat, body: seq<Byte>) {
    forall i: nat :: DeliversAt(inner, limit, buffers, body, i)
  }

  predicate DeliversAt(inner: Reader, limit: int, buffers: nat -> nat, body: seq<Byte>, i: nat) {
    var s := Before(inner, limit, buffers, i);
    var given := Given(inner, limit, buffers, i);
    s.n > 0 && given <= body ==> Delivers(body, given, Cut(buffers(i), s.n), InnerReply(inner, s, buffers(i)))
  }

  /** The reads return a prefix of the body, and n is what is left of the limit. */
  lemma {:induction false} GivesPrefix(inner: Reader, limit: int, buffers: nat -> nat, body: seq<Byte>, i: nat)
    requires Reads(inner, limit, buffers, body)
    ensures var given := Given(inner, limit, buffers, i);
            && given <= body
            && Before(inner, limit, buffers, i).n == limit - |given|
            && (if limit > 0 then |given| <= limit else given == [])
  {
    if i > 0 {
      hide Before, Given, ReplyAt, Reads;
      GivesPrefix(inner, limit, buffers, body, i - 1);
      assert DeliversAt(inner, limit, buffers, body, i - 1);
      OneRead(inner, limit, buffers, i - 1);
    }
  }

  lemma OneRead(inner: Reader, limit: int, buffers: nat -> nat, i: nat)
    ensures var s := Before(inner, limit, buffers, i);
            var reply := InnerReply(inner, s, buffers(i));
            var r := Limit(s.n, reply);
            && ReplyAt(inner, limit, buffers, i) == r
            && Given(inner, limit, buffers, i + 1) == Given(inner, limit, buffers, i) + r.data
            && Before(inner, limit, buffers, i + 1).n == s.n - |r.data|
  {}

  /** Once the limit is used up every read fails, with nothing read. */
  lemma {:induction false} FailsForever(inner: Reader, limit: int, buffers: nat -> nat, body: seq<Byte>, i: nat, j: nat)
    requires Reads(inner, limit, buffers, body) && i <= j && |Given(inner, limit, buffers, i)| >= limit
    ensures ReplyAt(inner, limit, buffers, j) == Reply([], Some(TooLarge))
    ensures Given(inner, limit, buffers, j) == Given(inner, limit, buffers, i)
  {
    hide Before, Given, ReplyAt;
    GivesPrefix(inner, limit, buffers, body, j);
    OneRead(inner, limit, buffers, j);
    if i < j {
      FailsForever(inner, limit, buffers, body, i, j - 1);
      OneRead(inner, limit, buffers, j - 1);
      assert Given(inner, limit, buffers, i) + [] == Given(inner, limit, buffers, i);
    }
  }

  /** A body shorter than the limit passes unchanged. */
  lemma {:induction false} ShortUnchanged(inner: Reader, limit: int, buffers: nat -> nat, body: seq<Byte>, i: nat)
    requires Reads(inner, limit, buffers, body) && |body| < limit
    ensures ReplyAt(inner, limit, buffers, i) == InnerReply(inner, Before(inner, limit, buffers, i), buffers(i))
    ensures ReplyAt(inner, limit, buffers, i).err != Some(TooLarge)
  {
    hide Before, Given, ReplyAt;
    GivesPrefix(inner, limit, buffers, body, i);
    GivesPrefix(inner, limit, buffers, body, i + 1);
    OneRead(inner, limit, buffers, i);
    assert DeliversAt(inner, limit, buffers, body, i);
  }

  lemma KindsOfError(e: Option<ReadError>)
    ensures e == None || e == Some(Eof) || e == Some(TooLarge) || e == Some(Broken)
  {
    if e.Some? {
      assert e.value.Eof? || e.value.TooLarge? || e.value.Broken?;
    }
  }

  /** A longer body is never seen to end; the read that reaches the limit fails, and so do all after it. */
  lemma {:induction false} LongRefused(inner: Reader, limit: int, buffers: nat -> nat, body: seq<Byte>, i: nat)
    requires Reads(inner, limit, buffers, body) && limit < |body|
    ensures var r := ReplyAt(inner, limit, buffers, i);
            && r.err != Some(Eof)
            && (|Given(inner, limit, buffers, i + 1)| >= limit ==> r.err == Some(TooLarge) || r.err == Some(Broken))
            && (r.err == Some(TooLarge) ==> |Given(inner, limit, buffers, i + 1)| >= limit)
  {
    hide Before, Given, ReplyAt;
    GivesPrefix(inner, limit, buffers, body, i);
    GivesPrefix(inner, limit, buffers, body, i + 1);
    OneRead(inner, limit, buffers, i);
    assert DeliversAt(inner, limit, buffers, body, i);
    KindsOfError(ReplyAt(inner, limit, buffers, i).err);
  }

  /** A body of exactly the limit is seen to end only when its end comes with its last byte. */
  lemma {:induction false} ExactLimit(inner: Reader, limit: int, buffers: nat -> nat, body: seq<Byte>, i: nat)
    requires Reads(inner, limit, buffers, body) && 0 < limit == |body|
    ensures var s := Before(inner, limit, buffers, i);
            var reply := InnerReply(inner, s, buffers(i));
            var r := ReplyAt(inner, limit, buffers, i);
            && (r.err == Some(Eof) <==> s.n > 0 && reply.err == Some(Eof))
            && (r.err == Some(Eof) ==> reply.data != [])
            && (|Given(inner, limit, buffers, i + 1)| == limit ==> r.err.Some?)
            && (r.err == Some(TooLarge) ==> |Given(inner, limit, buffers, i + 1)| == limit)
  {
    hide Before, Given, ReplyAt;
    GivesPrefix(inner, limit, buffers, body, i);
    GivesPrefix(inner, limit, buffers, body, i + 1);
    OneRead(inner, limit, buffers, i);
    assert DeliversAt(inner, limit, buffers, body, i);
  }
}
