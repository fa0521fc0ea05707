/**
  The libuv wrapper classes of uvpp.hpp: Handle::close, the Stream operations
  (shutdown, listen, readStart, write) and Tcp::connect / Tcp::closeReset.

  libuv itself is not modelled. What the wrappers rely on is kept as ghost
  state ("a close notification is pending", "the stream is reading", "this
  write request is outstanding in libuv"), and each libuv notification is a
  method whose precondition says that libuv only delivers it in that state.
  A user callback is a std::function: `Some` of an opaque value, or `None`
  for an empty one. Invoking it appends a `Fired` record to the object's
  `fired` trace; invoking an empty one throws std::bad_function_call, which
  is recorded as `BadFunctionCall`. The invocation is the last thing every
  notification does, so the state after the method is the state the callback
  observes.
*/
module Uv {
  import opened Wrappers

  /** Identity of a non-empty std::function handed to a wrapper. */
  datatype Callback = Callback(id: nat)

  type Byte = bv8

  /** Identity (address) of a uv_write_t request. */
  type ReqId = nat

  /** One invocation of a user callback, with the arguments it is given. */
  datatype Fired =
    | CloseFired(cb: Callback)
    | ShutdownFired(cb: Callback, status: int)
    | ConnectionFired(cb: Callback, status: int)
    | ReadFired(cb: Callback, nread: int, bufLen: nat)
      /** `outstanding` is the key set of the write table when the callback runs. */
    | WriteFired(cb: Callback, status: int, outstanding: set<ReqId>)
    | ConnectFired(cb: Callback, status: int)
    | ResetFired(cb: Callback)
      /** An empty std::function was invoked: std::bad_function_call is thrown
          out of the libuv callback. */
    | BadFunctionCall

  /** A write request record: the buffers handed to uv_write and the completion callback. */
  datatype WriteReq = WriteReq(bufs: seq<seq<Byte>>, cb: Option<Callback>)

  /** libuv's return-code convention: negative means the call failed. */
  predicate Succeeded(uvResult: int) { uvResult >= 0 }

  /** std::vector<char>::resize: keeps the common prefix and value-initialises (zeroes) new elements. */
  function Resized(buf: seq<Byte>, n: nat): (r: seq<Byte>)
    ensures |r| == n
    ensures forall i :: 0 <= i < n && i < |buf| ==> r[i] == buf[i]
    ensures forall i :: |buf| <= i < n ==> r[i] == 0
  {
    if n <= |buf| then buf[..n] else buf + seq(n - |buf|, _ => 0)
  }

  /** Resizing a buffer that already has the suggested size leaves it as it is:
      the scratch buffer is reused across reads of the same size. */
  lemma ResizedKeepsSameSize(buf: seq<Byte>)
    ensures Resized(buf, |buf|) == buf
  {
    assert buf[..|buf|] == buf;
  }

  /** Two successive resizes to the same size give the same buffer as one. */
  lemma ResizedIdempotent(buf: seq<Byte>, n: nat)
    ensures Resized(Resized(buf, n), n) == Resized(buf, n)
  {
    ResizedKeepsSameSize(Resized(buf, n));
  }

  /** The write table after the completions `done`, in that order; None when one
      of them names a request that is not in the table at that point (libuv
      never delivers such a completion). */
  function AfterCompletions(t: map<ReqId, WriteReq>, done: seq<ReqId>): (r: Option<map<ReqId, WriteReq>>)
    ensures r.Some? ==> forall k | k in r.value :: k in t && r.value[k] == t[k]
    ensures r.Some? ==> forall i | 0 <= i < |done| :: done[i] !in r.value
    ensures done == [] ==> r == Some(t)
  {
    if done == [] then Some(t)
    else if done[0] !in t then None
    else AfterCompletions(t - {done[0]}, done[1..])
  }

  /** Because every completion erases its own entry, a run of completions that
      libuv can deliver completes each request at most once, only requests that
      were issued, and leaves exactly the other requests in the table. */
  lemma {:induction false} CompletionsAtMostOnce(t: map<ReqId, WriteReq>, done: seq<ReqId>)
    requires AfterCompletions(t, done).Some?
    ensures forall i, j :: 0 <= i < j < |done| ==> done[i] != done[j]
    ensures forall i :: 0 <= i < |done| ==> done[i] in t
    ensures AfterCompletions(t, done).value == t - (set i | 0 <= i < |done| :: done[i])
  {
    if done != [] {
      var t' := t - {done[0]};
      CompletionsAtMostOnce(t', done[1..]);
      forall i | 0 < i < |done|
        ensures done[i] != done[0] && done[i] in t
      {
        assert done[i] == done[1..][i - 1];
      }
      var rest := set i | 0 <= i < |done[1..]| :: done[1..][i];
      var all := set i | 0 <= i < |done| :: done[i];
      assert all == {done[0]} + rest by {
        forall x | x in all ensures x in {done[0]} + rest {
          var i :| 0 <= i < |done| && done[i] == x;
          if i > 0 { assert done[1..][i - 1] == x; }
        }
        forall x | x in rest ensures x in all {
          var i :| 0 <= i < |done[1..]| && done[1..][i] == x;
          assert done[i + 1] == x;
        }
      }
    }
  }

  /** A writer that issues requests and then sees the table empty has had every
      issued request completed exactly once. */
  lemma DrainedTableMeansExactlyOnce(t: map<ReqId, WriteReq>, done: seq<ReqId>)
    requires AfterCompletions(t, done) == Some(map[])
    ensures forall i, j :: 0 <= i < j < |done| ==> done[i] != done[j]
    ensures forall r :: r in t <==> r in done
  {
    CompletionsAtMostOnce(t, done);
    var all := set i | 0 <= i < |done| :: done[i];
    forall r | r in t ensures r in done {
      assert r !in t - all;
    }
  }

  /** uvpp::Handle: the one-shot close slot. */
  class Handle {
    var closeCb: Option<Callback>
    /** libuv: uv_close (directly or through uv_tcp_close_reset) was issued on the handle. */
    ghost var closing: bool
    /** libuv: the notification for the uv_close issued by Close is still to come. */
    ghost var closePending: bool
    var fired: seq<Fired>

    ghost predicate Valid()
      reads this
    {
      (closeCb.Some? ==> closePending) && (closePending ==> closing)
    }

    constructor ()
      ensures Valid() && closeCb == None && !closing && fired == []
    {
      closeCb := None;
      closing := false;
      closePending := false;
      fired := [];
    }

    /** Handle::close: the slot must be empty (the source's assertion) and libuv
        demands an open handle; stores the callback and issues uv_close. An
        empty `cb` leaves the slot empty, so only libuv's demand rules out a
        second close. */
    method Close(cb: Option<Callback>)
      requires Valid() && closeCb == None && !closing
      modifies this
      ensures Valid()
      ensures closeCb == cb && closing && closePending
      ensures fired == old(fired)
    {
      closeCb := cb;
      closing := true;
      closePending := true;
    }

    /** The close notification: moves the callback out, clears the slot, then invokes it. */
    method OnClose()
      requires Valid() && closePending
      modifies this
      ensures Valid()
      ensures closeCb == None && !closePending && closing
      ensures fired == old(fired) + [if old(closeCb).Some? then CloseFired(old(closeCb).value) else BadFunctionCall]
    {
      var cb := closeCb;
      closeCb := None;
      closePending := false;
      fired := fired + [if cb.Some? then CloseFired(cb.value) else BadFunctionCall];
    }
  }

  /** uvpp::Stream, built over its Handle part `base`. */
  class Stream {
    const base: Handle
    var shutdownCb: Option<Callback>
    var connectionCb: Option<Callback>
    /** writeReqs, keyed by request identity. */
    var writeReqs: map<ReqId, WriteReq>
    var readBuf: seq<Byte>
    var readCb: Option<Callback>
    /** libuv: a shutdown completion is still to come. */
    ghost var shutdownPending: bool
    /** libuv: uv_listen succeeded, connection notifications may arrive. */
    ghost var listening: bool
    /** libuv: uv_read_start succeeded, alloc and read notifications may arrive. */
    ghost var reading: bool
    /** libuv: the write requests whose completion is still to come. */
    ghost var writesPending: set<ReqId>
    var fired: seq<Fired>

    ghost predicate Valid()
      reads this
    {
      writesPending <= writeReqs.Keys
    }

    constructor ()
      ensures Valid() && fresh(base) && base.Valid() && base.closeCb == None && !base.closing && base.fired == []
      ensures shutdownCb == None && connectionCb == None && readCb == None
      ensures writeReqs == map[] && readBuf == [] && fired == []
      ensures !shutdownPending && !listening && !reading && writesPending == {}
    {
      base := new Handle();
      shutdownCb, connectionCb, readCb := None, None, None;
      writeReqs := map[];
      readBuf := [];
      shutdownPending, listening, reading := false, false, false;
      writesPending := {};
      fired := [];
    }

    /** Stream::shutdown: the slot must be empty; stores the callback and returns
        uv_shutdown's result. A failed uv_shutdown adds no completion and leaves
        the callback in the slot; a completion still pending from an earlier
        call (whose callback was empty) stays pending and will invoke this one. */
    method Shutdown(cb: Option<Callback>, uvResult: int) returns (r: int)
      requires Valid() && shutdownCb == None
      modifies this
      ensures Valid() && r == uvResult
      ensures shutdownCb == cb && shutdownPending == (old(shutdownPending) || Succeeded(uvResult))
      ensures connectionCb == old(connectionCb) && readCb == old(readCb) && writeReqs == old(writeReqs)
      ensures readBuf == old(readBuf) && fired == old(fired)
      ensures listening == old(listening) && reading == old(reading) && writesPending == old(writesPending)
    {
      shutdownCb := cb;
      shutdownPending := shutdownPending || Succeeded(uvResult);
      r := uvResult;
    }

    /** The shutdown completion: moves the callback out, clears the slot, frees
        the request, then invokes the callback with the status. */
    method OnShutdown(status: int)
      requires Valid() && shutdownPending
      modifies this
      ensures Valid()
      ensures shutdownCb == None && !shutdownPending
      ensures fired == old(fired) + [if old(shutdownCb).Some? then ShutdownFired(old(shutdownCb).value, status) else BadFunctionCall]
      ensures connectionCb == old(connectionCb) && readCb == old(readCb) && writeReqs == old(writeReqs)
      ensures readBuf == old(readBuf)
      ensures listening == old(listening) && reading == old(reading) && writesPending == old(writesPending)
    {
      var cb := shutdownCb;
      shutdownCb := None;
      shutdownPending := false;
      fired := fired + [if cb.Some? then ShutdownFired(cb.value, status) else BadFunctionCall];
    }

    /** Stream::listen: overwrites the connection callback (no assertion) and
        returns uv_listen's result. */
    method Listen(backlog: int, cb: Option<Callback>, uvResult: int) returns (r: int)
      requires Valid()
      modifies this
      ensures Valid() && r == uvResult
      ensures connectionCb == cb && listening == (old(listening) || Succeeded(uvResult))
      ensures shutdownCb == old(shutdownCb) && readCb == old(readCb) && writeReqs == old(writeReqs)
      ensures readBuf == old(readBuf) && fired == old(fired)
      ensures shutdownPending == old(shutdownPending) && reading == old(reading)
      ensures writesPending == old(writesPending)
    {
      connectionCb := cb;
      listening := listening || Succeeded(uvResult);
      r := uvResult;
    }

    /** A connection notification: invokes the current connection callback and
        leaves it in place for the next one. */
    method OnConnection(status: int)
      requires Valid() && listening
      modifies this
      ensures Valid()
      ensures fired == old(fired) + [if old(connectionCb).Some? then ConnectionFired(old(connectionCb).value, status) else BadFunctionCall]
      ensures connectionCb == old(connectionCb) && listening
      ensures shutdownCb == old(shutdownCb) && readCb == old(readCb) && writeReqs == old(writeReqs)
      ensures readBuf == old(readBuf)
      ensures shutdownPending == old(shutdownPending) && reading == old(reading)
      ensures writesPending == old(writesPending)
    {
      fired := fired + [if connectionCb.Some? then ConnectionFired(connectionCb.value, status) else BadFunctionCall];
    }

    /** Stream::readStart: stores the read callback and returns uv_read_start's result. */
    method ReadStart(cb: Option<Callback>, uvResult: int) returns (r: int)
      requires Valid()
      modifies this
      ensures Valid() && r == uvResult
      ensures readCb == cb && reading == (old(reading) || Succeeded(uvResult))
      ensures shutdownCb == old(shutdownCb) && connectionCb == old(connectionCb)
      ensures writeReqs == old(writeReqs) && readBuf == old(readBuf) && fired == old(fired)
      ensures shutdownPending == old(shutdownPending) && listening == old(listening)
      ensures writesPending == old(writesPending)
    {
      readCb := cb;
      reading := reading || Succeeded(uvResult);
      r := uvResult;
    }

    /** The alloc notification: resizes readBuf to the suggested size and hands
        out a buffer of exactly that length. */
    method OnAlloc(suggestedSize: nat) returns (len: nat)
      requires Valid() && reading
      modifies this
      ensures Valid()
      ensures len == suggestedSize && readBuf == Resized(old(readBuf), suggestedSize)
      ensures shutdownCb == old(shutdownCb) && connectionCb == old(connectionCb) && readCb == old(readCb)
      ensures writeReqs == old(writeReqs) && fired == old(fired)
      ensures shutdownPending == old(shutdownPending) && listening == old(listening) && reading
      ensures writesPending == old(writesPending)
    {
      readBuf := Resized(readBuf, suggestedSize);
      len := |readBuf|;
    }

    /** The read notification: forwards nread and the scratch buffer to the read callback. */
    method OnRead(nread: int)
      requires Valid() && reading
      modifies this
      ensures Valid()
      ensures fired == old(fired) + [if old(readCb).Some? then ReadFired(old(readCb).value, nread, |old(readBuf)|) else BadFunctionCall]
      ensures shutdownCb == old(shutdownCb) && connectionCb == old(connectionCb) && readCb == old(readCb)
      ensures writeReqs == old(writeReqs) && readBuf == old(readBuf)
      ensures shutdownPending == old(shutdownPending) && listening == old(listening) && reading
      ensures writesPending == old(writesPending)
    {
      fired := fired + [if readCb.Some? then ReadFired(readCb.value, nread, |readBuf|) else BadFunctionCall];
    }

    /** Stream::write: `req` is the freshly allocated request, so it differs from
        every live key. Inserts exactly that entry; uv_write's result is dropped,
        and when it failed the entry stays with no completion to come. */
    method Write(req: ReqId, bufs: seq<seq<Byte>>, cb: Option<Callback>, uvResult: int)
      requires Valid() && req !in writeReqs
      modifies this
      ensures Valid()
      ensures writeReqs == old(writeReqs)[req := WriteReq(bufs, cb)]
      ensures writesPending == if Succeeded(uvResult) then old(writesPending) + {req} else old(writesPending)
      ensures shutdownCb == old(shutdownCb) && connectionCb == old(connectionCb) && readCb == old(readCb)
      ensures readBuf == old(readBuf) && fired == old(fired)
      ensures shutdownPending == old(shutdownPending) && listening == old(listening) && reading == old(reading)
    {
      writeReqs := writeReqs[req := WriteReq(bufs, cb)];
      if Succeeded(uvResult) {
        writesPending := writesPending + {req};
      }
    }

    /** A write completion: takes the entry's callback, erases exactly that key,
        then invokes the callback, which sees the table without its own entry. */
    method OnWrite(req: ReqId, status: int)
      requires Valid() && req in writesPending
      modifies this
      ensures Valid()
      ensures writeReqs == old(writeReqs) - {req} && req !in writeReqs
      ensures writesPending == old(writesPending) - {req}
      ensures fired == old(fired) + [if old(writeReqs)[req].cb.Some? then WriteFired(old(writeReqs)[req].cb.value, status, writeReqs.Keys) else BadFunctionCall]
      ensures shutdownCb == old(shutdownCb) && connectionCb == old(connectionCb) && readCb == old(readCb)
      ensures readBuf == old(readBuf)
      ensures shutdownPending == old(shutdownPending) && listening == old(listening) && reading == old(reading)
    {
      var cb := writeReqs[req].cb;
      writeReqs := writeReqs - {req};
      writesPending := writesPending - {req};
      fired := fired + [if cb.Some? then WriteFired(cb.value, status, writeReqs.Keys) else BadFunctionCall];
    }
  }

  /** uvpp::Tcp, built over its Stream part. It declares its own close slot,
      distinct from the Handle's: Close uses base.closeCb, CloseReset uses this one. */
  class Tcp {
    const stream: Stream
    var closeCb: Option<Callback>
    var connectCb: Option<Callback>
    /** libuv: the connect completion for connectReq is still to come. */
    ghost var connecting: bool
    /** libuv: the close notification for uv_tcp_close_reset is still to come. */
    ghost var resetting: bool
    var fired: seq<Fired>

    ghost predicate Valid()
      reads this, stream, stream.base
    {
      && stream.Valid() && stream.base.Valid()
      && (resetting ==> stream.base.closing)
    }

    /** Tcp(Loop&): uv_tcp_init, then the back-reference from the libuv handle to this wrapper. */
    constructor ()
      ensures Valid() && fresh(stream) && fresh(stream.base)
      ensures closeCb == None && connectCb == None && !connecting && !resetting && fired == []
      ensures !stream.base.closing && stream.base.closeCb == None
      ensures stream.shutdownCb == None && stream.connectionCb == None && stream.readCb == None
      ensures stream.writeReqs == map[] && stream.writesPending == {} && !stream.shutdownPending
      ensures !stream.listening && !stream.reading && stream.readBuf == []
      ensures stream.fired == [] && stream.base.fired == [] && !stream.base.closePending
    {
      stream := new Stream();
      closeCb, connectCb := None, None;
      connecting, resetting := false, false;
      fired := [];
    }

    /** Tcp::connect: the slot must be empty; stores the callback and returns
        uv_tcp_connect's result. On failure the callback stays in the slot; a
        completion still pending for connectReq from an earlier call (whose
        callback was empty) stays pending and will invoke this one. */
    method Connect(cb: Option<Callback>, uvResult: int) returns (r: int)
      requires Valid() && connectCb == None
      modifies this
      ensures Valid() && r == uvResult
      ensures connectCb == cb && connecting == (old(connecting) || Succeeded(uvResult))
      ensures closeCb == old(closeCb) && resetting == old(resetting) && fired == old(fired)
    {
      connectCb := cb;
      connecting := connecting || Succeeded(uvResult);
      r := uvResult;
    }

    /** The connect completion: moves the callback out, clears the slot, then invokes it. */
    method OnConnect(status: int)
      requires Valid() && connecting
      modifies this
      ensures Valid()
      ensures connectCb == None && !connecting
      ensures fired == old(fired) + [if old(connectCb).Some? then ConnectFired(old(connectCb).value, status) else BadFunctionCall]
      ensures closeCb == old(closeCb) && resetting == old(resetting)
    {
      var cb := connectCb;
      connectCb := None;
      connecting := false;
      fired := fired + [if cb.Some? then ConnectFired(cb.value, status) else BadFunctionCall];
    }

    /** Tcp::closeReset: the Tcp's own slot must be empty and libuv demands an
        open handle; stores the callback and returns uv_tcp_close_reset's result.
        On success the handle is closing. */
    method CloseReset(cb: Option<Callback>, uvResult: int) returns (r: int)
      requires Valid() && closeCb == None && !stream.base.closing
      modifies this, stream.base
      ensures Valid() && r == uvResult
      ensures closeCb == cb && resetting == Succeeded(uvResult)
      ensures stream.base.closing == Succeeded(uvResult)
      ensures stream.base.closeCb == old(stream.base.closeCb) && stream.base.closePending == old(stream.base.closePending)
      ensures stream.base.fired == old(stream.base.fired)
      ensures connectCb == old(connectCb) && connecting == old(connecting) && fired == old(fired)
    {
      closeCb := cb;
      resetting := Succeeded(uvResult);
      stream.base.closing := Succeeded(uvResult);
      r := uvResult;
    }

    /** The close notification after a reset: moves the callback out, clears the slot, then invokes it. */
    method OnReset()
      requires Valid() && resetting
      modifies this
      ensures Valid()
      ensures closeCb == None && !resetting
      ensures fired == old(fired) + [if old(closeCb).Some? then ResetFired(old(closeCb).value) else BadFunctionCall]
      ensures connectCb == old(connectCb) && connecting == old(connecting)
    {
      var cb := closeCb;
      closeCb := None;
      resetting := false;
      fired := fired + [if cb.Some? then ResetFired(cb.value) else BadFunctionCall];
    }
  }
}
