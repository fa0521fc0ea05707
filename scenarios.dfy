/**
  Client code against the two models: the watch, timer, drain-order, write and
  close scenarios of the bridge, and the chaining pattern of main.cpp, each
  proved from the contracts alone.
*/
module Scenarios {
  import opened Wrappers
  import opened Curl
  import Uv

  /** Watch-readable, then watch-both, on descriptor 7: one Poll, restarted with
      the combined mask; stop-watching drops it; a second stop is a no-op. */
  method WatchScenario() {
    var lib := new CurlLib();
    var multi := new Multi(lib);
    var a := new Easy(lib);
    var h := a.handle;
    multi.AddHandle(a);

    multi.SocketHook(h, 7, PollIn);
    assert a.poll == Some(Poll(7, UvReadable, 7));
    assert multi.trace == [Add(h), PollCreate(h, 7), PollStart(h, UvReadable)];

    multi.SocketHook(h, 7, PollInOut);
    assert a.poll == Some(Poll(7, UvReadable | UvWritable, 7));
    assert multi.trace == [Add(h), PollCreate(h, 7), PollStart(h, UvReadable), PollStart(h, UvReadable | UvWritable)];

    multi.SocketHook(h, 7, PollRemove);
    assert a.poll == None;
    ghost var afterRemove := multi.trace;
    assert afterRemove[4..] == [PollStop(h), Unassign(7)];

    multi.SocketHook(h, 7, PollRemove);
    assert a.poll == None && multi.trace == afterRemove;
  }

  /** A request for 0 ms arms the timer for 1 ms; a later request replaces the
      schedule; a negative request stops it, so no timeout step can follow. */
  method TimerScenario() {
    var lib := new CurlLib();
    var multi := new Multi(lib);
    multi.TimerHook(0);
    assert multi.timer == Armed(1, 0);
    multi.TimerHook(20);
    assert multi.timer == Armed(20, 0);
    multi.TimerHook(-1);
    assert multi.timer == Stopped;
    assert multi.trace == [TimerStart(1, 0), TimerStart(20, 0), TimerStop];
  }

  /** Two transfers complete in one step: both callbacks fire in queue order,
      each followed by the removal of its transfer, before the step returns. */
  method DrainOrderScenario(cbA: Uv.Callback, cbB: Uv.Callback) {
    var lib := new CurlLib();
    var multi := new Multi(lib);
    var a := new Easy(lib);
    var b := new Easy(lib);
    a.doneCb := Some(cbA);
    b.doneCb := Some(cbB);
    multi.AddHandle(a);
    multi.AddHandle(b);
    multi.TimerHook(0);
    ghost var before := multi.trace;
    var queue := [Done(a.handle, 0), Done(b.handle, 0)];
    multi.OnTimeout(queue);
    ghost var cbs := lib.DoneCallbacks();
    assert cbs[a.handle] == Some(cbA) && cbs[b.handle] == Some(cbB);
    assert [] + queue == queue;
    TwoCompletionsInOrder(a.handle, b.handle, cbA, cbB, cbs);
    assert multi.trace == before +
      [Step(SocketTimeout, 0)] + [Invoke(a.handle, cbA), Remove(a.handle), Invoke(b.handle, cbB), Remove(b.handle)];
    assert multi.attached == {} && multi.timer == Stopped;
  }

  /** Draining two DONE messages whose transfers have callbacks. */
  lemma TwoCompletionsInOrder(a: CurlHandle, b: CurlHandle, cbA: Uv.Callback, cbB: Uv.Callback,
                              cbs: map<CurlHandle, Option<Uv.Callback>>)
    requires a in cbs && cbs[a] == Some(cbA) && b in cbs && cbs[b] == Some(cbB)
    ensures Drain([Done(a, 0), Done(b, 0)], cbs) == [Invoke(a, cbA), Remove(a), Invoke(b, cbB), Remove(b)]
  {
    var q := [Done(a, 0), Done(b, 0)];
    assert q[1..] == [Done(b, 0)];
    assert Drain(q[1..], cbs) == [Invoke(b, cbB), Remove(b)] + Drain([], cbs);
  }

  /** One DONE message whose transfer has a callback. */
  lemma OneCompletion(a: CurlHandle, cbA: Uv.Callback, cbs: map<CurlHandle, Option<Uv.Callback>>)
    requires a in cbs && cbs[a] == Some(cbA)
    ensures Drain([Done(a, 0)], cbs) == [Invoke(a, cbA), Remove(a)]
  {
    assert Drain([Done(a, 0)], cbs) == [Invoke(a, cbA), Remove(a)] + Drain([], cbs);
  }

  /** The chaining pattern of main.cpp: the first transfer's callback sets up a
      second transfer and adds it; libcurl then asks for a 0 ms timeout, and
      the second completion reaches its own callback. The callback's own calls
      are made here after the drain that invoked it. */
  method ChainingScenario(cbA: Uv.Callback, cbB: Uv.Callback) {
    var lib := new CurlLib();
    var multi := new Multi(lib);
    var a := new Easy(lib);
    a.doneCb := Some(cbA);
    multi.AddHandle(a);
    ghost var t0 := multi.trace;
    CompleteOnTimeout(multi, a, cbA);
    assert multi.trace == t0 + [TimerStart(1, 0), Step(SocketTimeout, 0), Invoke(a.handle, cbA), Remove(a.handle)];

    // what cbA does
    var b := new Easy(lib);
    b.doneCb := Some(cbB);
    multi.AddHandle(b);
    ghost var t1 := multi.trace;
    CompleteOnTimeout(multi, b, cbB);
    assert multi.trace == t1 + [TimerStart(1, 0), Step(SocketTimeout, 0), Invoke(b.handle, cbB), Remove(b.handle)];
    assert multi.attached == {};
  }

  /** libcurl asks for a 0 ms timeout, and the step it drives completes `e`. */
  method CompleteOnTimeout(multi: Multi, e: Easy, cb: Uv.Callback)
    requires multi.Valid() && multi.messages == []
    requires e.handle in multi.lib.privates && multi.lib.privates[e.handle] == e && e.doneCb == Some(cb)
    requires e.handle in multi.attached
    modifies multi
    ensures multi.Valid() && multi.messages == [] && multi.timer == Stopped
    ensures multi.trace == old(multi.trace) + [TimerStart(1, 0), Step(SocketTimeout, 0), Invoke(e.handle, cb), Remove(e.handle)]
    ensures multi.attached == old(multi.attached) - {e.handle}
  {
    multi.TimerHook(0);
    var q := [Done(e.handle, 0)];
    multi.OnTimeout(q);
    assert [] + q == q;
    OneCompletion(e.handle, cb, multi.lib.DoneCallbacks());
  }

  /** Two outstanding writes: each completion fires its own callback once, and
      each callback sees the table without its own entry. */
  method WriteScenario(cb1: Uv.Callback, cb2: Uv.Callback) {
    var tcp := new Uv.Tcp();
    var s := tcp.stream;
    s.Write(1, [[1, 2]], Some(cb1), 0);
    s.Write(2, [[3]], Some(cb2), 0);
    assert s.writeReqs.Keys == {1, 2};
    ghost var t0 := s.writeReqs;
    s.OnWrite(1, 0);
    assert s.writeReqs.Keys == {2};
    assert s.fired == [Uv.WriteFired(cb1, 0, {2})];
    s.OnWrite(2, -1);
    assert s.writeReqs.Keys == {};
    assert s.fired == [Uv.WriteFired(cb1, 0, {2}), Uv.WriteFired(cb2, -1, {})];
    assert s.writeReqs == map[] && s.writesPending == {};
    // the history matches the write-table model, so each request completed exactly once
    assert [1, 2][1..] == [2];
    assert Uv.AfterCompletions(t0, [1, 2]) == Some(s.writeReqs);
    Uv.DrainedTableMeansExactlyOnce(t0, [1, 2]);
  }

  /** A shutdown with an empty callback is in progress when a second shutdown
      stores a real one; libuv refuses the second request, yet the first
      request's completion invokes the callback the second call stored. */
  method ReplacedShutdownScenario(c: Uv.Callback) {
    var tcp := new Uv.Tcp();
    var s := tcp.stream;
    var r1 := s.Shutdown(None, 0);
    assert s.shutdownCb == None && s.shutdownPending;
    var r2 := s.Shutdown(Some(c), -107);
    assert s.shutdownPending;
    s.OnShutdown(0);
    assert s.fired == [Uv.ShutdownFired(c, 0)];
  }

  /** A failed connect leaves its slot set with no completion pending; close
      fires its callback once, empties the slot, and leaves the Tcp's own
      close slot untouched. */
  method CloseScenario(cb: Uv.Callback, cbReset: Uv.Callback) {
    var tcp := new Uv.Tcp();
    var r := tcp.Connect(Some(cbReset), -22);
    assert tcp.connectCb == Some(cbReset) && !tcp.connecting;
    var h := tcp.stream.base;
    h.Close(Some(cb));
    assert h.closeCb == Some(cb) && tcp.closeCb == None;
    h.OnClose();
    assert h.closeCb == None && h.fired == [Uv.CloseFired(cb)];
    assert !h.closePending;
  }

  /** Closing with an empty std::function: the slot stays empty, so the
      assertion would not catch a second close, and the close notification
      invokes the empty function, which throws. */
  method EmptyCallbackScenario() {
    var tcp := new Uv.Tcp();
    var h := tcp.stream.base;
    h.Close(None);
    assert h.closeCb == None && h.closePending;
    h.OnClose();
    assert h.fired == [Uv.BadFunctionCall];
  }
}
