/**
  The curl <-> libuv bridge of curlpp.hpp: curlpp::Easy and curlpp::Multi.

  libcurl is represented by its state as the bridge sees it: the per-transfer
  CURLOPT_PRIVATE back-reference (`CurlLib.privates`), the set of transfers
  added to the multi handle (`Multi.attached`) and its completion queue
  (`Multi.messages`). What libcurl produces during a step of
  curl_multi_socket_action is an input of the driving methods. libuv is
  represented by the per-Easy Poll value ("started on fd with mask m") and the
  coordinator's Timer value ("armed for t ms" / stopped).

  Every state-changing call the bridge makes is appended in order to
  `Multi.trace`: Poll create, start and stop, curl_multi_assign, timer start
  and stop, curl_multi_socket_action, curl_multi_add_handle and
  curl_multi_remove_handle, the completion callback, and the diagnostic line.
  Queries (curl_multi_info_read, the CURLINFO_PRIVATE lookup) are not
  recorded.
*/
module Curl {
  import opened Wrappers
  import Uv

  type Socket = int

  /** Identity of a libcurl easy handle (a CURL *). */
  type CurlHandle = nat

  /** An int bit mask, as the reactor's event sets and the engine's flag sets are. */
  type Mask = bv32

  const UvReadable: Mask := 1
  const UvWritable: Mask := 2
  const CSelectIn: Mask := 1
  const CSelectOut: Mask := 2

  /** CURL_SOCKET_TIMEOUT, the pseudo-socket of a timeout-driven step. */
  const SocketTimeout: Socket := -1

  /** The `action` argument of the socket callback (CURL_POLL_NONE ... CURL_POLL_REMOVE). */
  datatype Action = PollNone | PollIn | PollOut | PollInOut | PollRemove

  predicate IsWatch(a: Action) { a.PollIn? || a.PollOut? || a.PollInOut? }

  /** The Poll event mask the socket hook derives from a watch action. */
  function WatchMask(a: Action): (m: Mask)
    requires IsWatch(a)
    ensures (m & UvWritable != 0) <==> a != PollIn
    ensures (m & UvReadable != 0) <==> a != PollOut
    ensures m & !(UvReadable | UvWritable) == 0
  {
    (if a != PollIn then UvWritable else 0) | (if a != PollOut then UvReadable else 0)
  }

  /** The CURL_CSELECT_* flags the readiness callback derives from libuv's event set. */
  function SelectFlags(events: Mask): (f: Mask)
    ensures (f & CSelectIn != 0) <==> (events & UvReadable != 0)
    ensures (f & CSelectOut != 0) <==> (events & UvWritable != 0)
    ensures f & !(CSelectIn | CSelectOut) == 0
  {
    (if events & UvReadable != 0 then CSelectIn else 0) | (if events & UvWritable != 0 then CSelectOut else 0)
  }

  /** The three watch actions give the masks {R}, {W} and {R, W}. */
  lemma WatchMaskValues()
    ensures WatchMask(PollIn) == UvReadable
    ensures WatchMask(PollOut) == UvWritable
    ensures WatchMask(PollInOut) == UvReadable | UvWritable
  {
  }

  /** A readiness event carrying everything a Poll watches is reported to the
      engine as exactly the directions the engine asked to watch. */
  lemma ReadinessReportsWatchedDirections(a: Action)
    requires IsWatch(a)
    ensures SelectFlags(WatchMask(a)) ==
      match a
      case PollIn => CSelectIn
      case PollOut => CSelectOut
      case _ => CSelectIn | CSelectOut
  {
  }

  /** Event bits other than readable and writable never reach the engine. */
  lemma SelectFlagsIgnoresOtherEvents(events: Mask)
    ensures SelectFlags(events) == SelectFlags(events & (UvReadable | UvWritable))
  {
  }

  /** The coordinator's uvpp::Timer as libuv holds it. */
  datatype Timer = Stopped | Armed(timeoutMs: int, repeatMs: int)

  /** What the timer hook makes of the engine's request. */
  function TimerPlan(timeoutMs: int): (t: Timer)
    ensures t.Stopped? <==> timeoutMs < 0
    ensures timeoutMs == 0 ==> t == Armed(1, 0)
    ensures timeoutMs > 0 ==> t == Armed(timeoutMs, 0)
  {
    if timeoutMs < 0 then Stopped
    else Armed(if timeoutMs == 0 then 1 else timeoutMs, 0)
  }

  /** An armed timer is always one-shot and never armed for 0 ms, so a request
      to run "as soon as possible" still yields to the reactor once. */
  lemma TimerPlanNeverBusy(timeoutMs: int)
    requires TimerPlan(timeoutMs).Armed?
    ensures TimerPlan(timeoutMs).timeoutMs >= 1 && TimerPlan(timeoutMs).timeoutMs >= timeoutMs
    ensures TimerPlan(timeoutMs).repeatMs == 0
  {
  }

  /** A uvpp::Poll owned by an Easy: created on descriptor `fd`, last started with
      `events`; its readiness callback steps the engine for socket `reportAs`,
      the socket the latest watch request named. */
  datatype Poll = Poll(fd: Socket, events: Mask, reportAs: Socket)

  /** The Easy's poll after the socket hook. A watch request reuses an existing
      Poll (so its descriptor is the one it was created on) and restarts it;
      REMOVE drops it; CURL_POLL_NONE matches no case of the switch. */
  function NextPoll(p: Option<Poll>, socket: Socket, a: Action): (r: Option<Poll>)
    ensures r.Some? <==> IsWatch(a) || (a.PollNone? && p.Some?)
    ensures IsWatch(a) ==> r.value.events == WatchMask(a) && r.value.reportAs == socket
    ensures p.Some? && r.Some? ==> r.value.fd == p.value.fd
    ensures p.None? && r.Some? ==> r.value.fd == socket
  {
    match a
    case PollIn | PollOut | PollInOut =>
      Some(Poll(if p.Some? then p.value.fd else socket, WatchMask(a), socket))
    case PollRemove => None
    case PollNone => p
  }

  /** The per-transfer watch states of the bridge's state machine. */
  datatype WatchState = Unwatched | WatchingRead | WatchingWrite | WatchingBoth

  /** The four watch states of a transfer (unwatched, read, write, both),
      defined without reference to Polls. */
  function NextState(s: WatchState, a: Action): WatchState
  {
    match a
    case PollIn => WatchingRead
    case PollOut => WatchingWrite
    case PollInOut => WatchingBoth
    case PollRemove => Unwatched
    case PollNone => s
  }

  /** The watch state a Poll (or its absence) stands for. */
  function StateOf(p: Option<Poll>): WatchState
  {
    if p.None? then Unwatched
    else if p.value.events & UvReadable != 0 && p.value.events & UvWritable != 0 then WatchingBoth
    else if p.value.events & UvWritable != 0 then WatchingWrite
    else WatchingRead
  }

  /** The Poll bookkeeping of the socket hook implements the watch state
      machine: Poll existence mirrors "watched", and its mask the direction. */
  lemma PollRefinesWatchState(p: Option<Poll>, socket: Socket, a: Action)
    ensures StateOf(NextPoll(p, socket, a)) == NextState(StateOf(p), a)
  {
  }

  /** A repeated watch request never makes a second Poll: the existing one keeps
      its descriptor and is restarted with the new mask. */
  lemma WatchReusesPoll(p: Option<Poll>, socket: Socket, a: Action)
    requires IsWatch(a) && p.Some?
    ensures NextPoll(p, socket, a) == Some(Poll(p.value.fd, WatchMask(a), socket))
  {
  }

  /** REMOVE leaves no Poll, and a second REMOVE changes nothing. */
  lemma RemoveIsIdempotent(p: Option<Poll>, s1: Socket, s2: Socket)
    ensures NextPoll(p, s1, PollRemove) == None
    ensures NextPoll(NextPoll(p, s1, PollRemove), s2, PollRemove) == NextPoll(p, s1, PollRemove)
  {
  }

  /** An entry of the completion queue (a CURLMsg). */
  datatype Msg = Done(easy: CurlHandle, result: int) | Other(code: int, easy: CurlHandle)

  /** One outward call of the bridge. */
  datatype Event =
    | PollCreate(owner: CurlHandle, fd: Socket)
    | PollStart(owner: CurlHandle, events: Mask)
    | PollStop(owner: CurlHandle)
    | Unassign(socket: Socket)
    | TimerStart(timeoutMs: int, repeatMs: int)
    | TimerStop
    | Step(socket: Socket, flags: Mask)
    | Add(easy: CurlHandle)
    | Invoke(easy: CurlHandle, cb: Uv.Callback)
    | Remove(easy: CurlHandle)
    | Diagnostic(code: int)

  /** The calls draining `msgs` makes, given each transfer's completion callback:
      for a DONE message, the owner's callback if one is set and then the
      removal of the transfer; for any other message, only the diagnostic line. */
  function Drain(msgs: seq<Msg>, cbs: map<CurlHandle, Option<Uv.Callback>>): (r: seq<Event>)
    ensures |msgs| <= |r|
  {
    if msgs == [] then [] else DrainOne(msgs[0], cbs) + Drain(msgs[1..], cbs)
  }

  /** The calls handling one message makes. */
  function DrainOne(m: Msg, cbs: map<CurlHandle, Option<Uv.Callback>>): (r: seq<Event>)
    ensures 1 <= |r| <= 2
    ensures r[|r| - 1] == if m.Done? then Remove(m.easy) else Diagnostic(m.code)
    ensures |r| == 2 <==> m.Done? && m.easy in cbs && cbs[m.easy].Some?
    ensures |r| == 2 ==> r[0] == Invoke(m.easy, cbs[m.easy].value)
  {
    if m.Done? then
      (if m.easy in cbs && cbs[m.easy].Some? then [Invoke(m.easy, cbs[m.easy].value)] else [])
      + [Remove(m.easy)]
    else [Diagnostic(m.code)]
  }

  /** The transfers the DONE messages of `msgs` name. */
  function DoneHandles(msgs: seq<Msg>): set<CurlHandle>
  {
    if msgs == [] then {}
    else (if msgs[0].Done? then {msgs[0].easy} else {}) + DoneHandles(msgs[1..])
  }

  /** How many DONE messages of `msgs` name transfer `h`. */
  function DoneCount(msgs: seq<Msg>, h: CurlHandle): nat
  {
    if msgs == [] then 0
    else (if msgs[0].Done? && msgs[0].easy == h then 1 else 0) + DoneCount(msgs[1..], h)
  }

  /** How many times `trace` invokes a callback for transfer `h`. */
  function InvokeCount(trace: seq<Event>, h: CurlHandle): nat
  {
    if trace == [] then 0
    else (if trace[0].Invoke? && trace[0].easy == h then 1 else 0) + InvokeCount(trace[1..], h)
  }

  /** How many times `trace` removes transfer `h` from the engine. */
  function RemoveCount(trace: seq<Event>, h: CurlHandle): nat
  {
    if trace == [] then 0
    else (if trace[0].Remove? && trace[0].easy == h then 1 else 0) + RemoveCount(trace[1..], h)
  }

  lemma {:induction false} InvokeCountAppend(a: seq<Event>, b: seq<Event>, h: CurlHandle)
    ensures InvokeCount(a + b, h) == InvokeCount(a, h) + InvokeCount(b, h)
  {
    if a != [] {
      assert (a + b)[0] == a[0];
      assert (a + b)[1..] == a[1..] + b;
      InvokeCountAppend(a[1..], b, h);
    } else {
      assert a + b == b;
    }
  }

  lemma {:induction false} RemoveCountAppend(a: seq<Event>, b: seq<Event>, h: CurlHandle)
    ensures RemoveCount(a + b, h) == RemoveCount(a, h) + RemoveCount(b, h)
  {
    if a != [] {
      assert (a + b)[0] == a[0];
      assert (a + b)[1..] == a[1..] + b;
      RemoveCountAppend(a[1..], b, h);
    } else {
      assert a + b == b;
    }
  }

  /** Draining a non-empty queue handles its head, then the rest. */
  lemma DrainStep(msgs: seq<Msg>, cbs: map<CurlHandle, Option<Uv.Callback>>)
    requires msgs != []
    ensures Drain(msgs, cbs) == DrainOne(msgs[0], cbs) + Drain(msgs[1..], cbs)
    ensures DoneHandles(msgs) == (if msgs[0].Done? then {msgs[0].easy} else {}) + DoneHandles(msgs[1..])
  {
  }

  lemma AppendAssoc<T>(a: seq<T>, b: seq<T>, c: seq<T>)
    ensures a + (b + c) == (a + b) + c
  {
  }

  /** Draining is in queue order: draining a queue is draining its first part,
      then its second. */
  lemma {:induction false} DrainInQueueOrder(a: seq<Msg>, b: seq<Msg>, cbs: map<CurlHandle, Option<Uv.Callback>>)
    ensures Drain(a + b, cbs) == Drain(a, cbs) + Drain(b, cbs)
  {
    if a != [] {
      assert (a + b)[0] == a[0];
      assert (a + b)[1..] == a[1..] + b;
      DrainInQueueOrder(a[1..], b, cbs);
    } else {
      assert a + b == b;
    }
  }

  /** Each DONE message of a transfer with a completion callback invokes that
      callback exactly once, and removes the transfer exactly once; a transfer
      without a callback is removed and nothing is invoked for it. */
  lemma {:induction false} DrainExactlyOnce(msgs: seq<Msg>, cbs: map<CurlHandle, Option<Uv.Callback>>, h: CurlHandle)
    ensures InvokeCount(Drain(msgs, cbs), h) == if h in cbs && cbs[h].Some? then DoneCount(msgs, h) else 0
    ensures RemoveCount(Drain(msgs, cbs), h) == DoneCount(msgs, h)
  {
    if msgs != [] {
      var here := DrainOne(msgs[0], cbs);
      assert Drain(msgs, cbs) == here + Drain(msgs[1..], cbs);
      InvokeCountAppend(here, Drain(msgs[1..], cbs), h);
      RemoveCountAppend(here, Drain(msgs[1..], cbs), h);
      DrainExactlyOnce(msgs[1..], cbs, h);
    }
  }

  /** In `t`, every invoked callback is the registered completion callback of
      its transfer, and the removal of that transfer comes right after it. */
  predicate InvokesOwnThenRemoves(t: seq<Event>, cbs: map<CurlHandle, Option<Uv.Callback>>)
  {
    forall i :: 0 <= i < |t| && t[i].Invoke? ==>
      && t[i].easy in cbs && cbs[t[i].easy] == Some(t[i].cb)
      && i + 1 < |t| && t[i + 1] == Remove(t[i].easy)
  }

  /** Every callback the drain invokes is the completion callback of the
      transfer it is invoked for, and the transfer is removed only after the
      callback returns. */
  lemma {:induction false} DrainInvokesOwnCallbackThenRemoves(msgs: seq<Msg>, cbs: map<CurlHandle, Option<Uv.Callback>>)
    ensures InvokesOwnThenRemoves(Drain(msgs, cbs), cbs)
  {
    if msgs != [] {
      DrainInvokesOwnCallbackThenRemoves(msgs[1..], cbs);
      var here := DrainOne(msgs[0], cbs);
      var rest := Drain(msgs[1..], cbs);
      var t := here + rest;
      assert Drain(msgs, cbs) == t;
      forall i | 0 <= i < |t| && t[i].Invoke?
        ensures t[i].easy in cbs && cbs[t[i].easy] == Some(t[i].cb)
        ensures i + 1 < |t| && t[i + 1] == Remove(t[i].easy)
      {
        if i >= |here| {
          assert t[i] == rest[i - |here|];
          assert t[i + 1] == rest[i + 1 - |here|];
        }
      }
    }
  }

  /** A non-DONE message invokes nothing and removes nothing: it only logs. */
  lemma OtherMessageOnlyLogs(code: int, h: CurlHandle, cbs: map<CurlHandle, Option<Uv.Callback>>)
    ensures Drain([Other(code, h)], cbs) == [Diagnostic(code)]
  {
  }

  /** The transfers a drain detaches from the engine are those of its DONE messages. */
  lemma {:induction false} DoneHandlesAreRemoved(msgs: seq<Msg>, cbs: map<CurlHandle, Option<Uv.Callback>>, h: CurlHandle)
    ensures h in DoneHandles(msgs) <==> RemoveCount(Drain(msgs, cbs), h) > 0
  {
    DrainExactlyOnce(msgs, cbs, h);
    DoneCountPositive(msgs, h);
  }

  lemma {:induction false} DoneCountPositive(msgs: seq<Msg>, h: CurlHandle)
    ensures h in DoneHandles(msgs) <==> DoneCount(msgs, h) > 0
  {
    if msgs != [] {
      DoneCountPositive(msgs[1..], h);
    }
  }

  /** libcurl's per-handle CURLOPT_PRIVATE storage: which Easy wrapper owns each CURL *. */
  class CurlLib {
    var privates: map<CurlHandle, Easy>
    /** curl_easy_init hands out handles that differ from all live ones. */
    var nextHandle: CurlHandle

    ghost predicate Valid()
      reads this
    {
      forall h | h in privates :: privates[h].handle == h && h < nextHandle
    }

    constructor ()
      ensures Valid() && privates == map[]
    {
      privates := map[];
      nextHandle := 0;
    }

    /** Each registered transfer's completion callback, as the drain reads it. */
    ghost function DoneCallbacks(): map<CurlHandle, Option<Uv.Callback>>
      reads this, privates.Values
    {
      map h | h in privates :: privates[h].doneCb
    }
  }

  /** curlpp::Easy: one transfer, its lazily created Poll and its completion callback. */
  class Easy {
    const handle: CurlHandle
    var poll: Option<Poll>
    var doneCb: Option<Uv.Callback>

    /** curl_easy_init, then CURLOPT_PRIVATE set to the new wrapper. */
    constructor (lib: CurlLib)
      requires lib.Valid()
      modifies lib
      ensures lib.Valid()
      ensures handle !in old(lib.privates) && lib.privates == old(lib.privates)[handle := this]
      ensures Easy.Get(lib, handle) == this
      ensures poll == None && doneCb == None
    {
      handle := lib.nextHandle;
      poll := None;
      doneCb := None;
      new;
      lib.privates := lib.privates[handle := this];
      lib.nextHandle := lib.nextHandle + 1;
    }

    /** Easy::get(CURL *): the wrapper registered for a handle through CURLINFO_PRIVATE. */
    static function Get(lib: CurlLib, h: CurlHandle): (e: Easy)
      requires lib.Valid() && h in lib.privates
      reads lib
      ensures e.handle == h
    {
      lib.privates[h]
    }
  }

  /** curlpp::Multi: the coordinator. */
  class Multi {
    const lib: CurlLib
    /** libcurl: the transfers added to this multi handle. */
    var attached: set<CurlHandle>
    /** libcurl: the completion queue curl_multi_info_read pops from. */
    var messages: seq<Msg>
    /** libuv: the `timeout` Timer. */
    var timer: Timer
    var trace: seq<Event>

    ghost predicate Valid()
      reads this, lib
    {
      && lib.Valid()
      && attached <= lib.privates.Keys
      && (forall m | m in messages :: m.easy in lib.privates)
      && (timer.Armed? ==> timer.repeatMs == 0)
    }

    /** Multi(loop): curl_multi_init, the timer, and the two hooks registered. */
    constructor (lib: CurlLib)
      requires lib.Valid()
      ensures Valid() && this.lib == lib
      ensures attached == {} && messages == [] && timer == Stopped && trace == []
    {
      this.lib := lib;
      attached := {};
      messages := [];
      timer := Stopped;
      trace := [];
    }

    /** Multi::addHandle. Adding a transfer that is already added changes nothing
        (libcurl refuses it and the result is ignored). */
    method AddHandle(easy: Easy)
      requires Valid() && easy.handle in lib.privates && lib.privates[easy.handle] == easy
      modifies this
      ensures Valid()
      ensures attached == old(attached) + {easy.handle} && trace == old(trace) + [Add(easy.handle)]
      ensures messages == old(messages) && timer == old(timer)
    {
      attached := attached + {easy.handle};
      trace := trace + [Add(easy.handle)];
    }

    /** The socket hook, reached through socketFunc, which finds the Easy by its
        back-reference. */
    method SocketHook(h: CurlHandle, socket: Socket, action: Action)
      requires Valid() && h in lib.privates
      modifies lib.privates[h], this
      ensures Valid()
      ensures lib.privates[h].poll == NextPoll(old(lib.privates[h].poll), socket, action)
      ensures lib.privates[h].doneCb == old(lib.privates[h].doneCb)
      ensures IsWatch(action) ==>
        trace == old(trace)
          + (if old(lib.privates[h].poll).None? then [PollCreate(h, socket)] else [])
          + [PollStart(h, WatchMask(action))]
      ensures action.PollRemove? ==>
        trace == old(trace) + (if old(lib.privates[h].poll).Some? then [PollStop(h), Unassign(socket)] else [])
      ensures action.PollNone? ==> trace == old(trace)
      ensures attached == old(attached) && messages == old(messages) && timer == old(timer)
    {
      var easy := Easy.Get(lib, h);
      match action
      case PollIn | PollOut | PollInOut =>
        var events := WatchMask(action);
        if easy.poll.None? {
          easy.poll := Some(Poll(socket, 0, socket));
          trace := trace + [PollCreate(h, socket)];
        }
        easy.poll := Some(Poll(easy.poll.value.fd, events, socket));
        trace := trace + [PollStart(h, events)];
      case PollRemove =>
        if easy.poll.Some? {
          trace := trace + [PollStop(h)];
          easy.poll := None;
          trace := trace + [Unassign(socket)];
        }
      case PollNone =>
    }

    /** The timer hook: stops the timer for a negative request, otherwise
        (re)arms it one-shot, 0 ms counting as 1 ms. */
    method TimerHook(timeoutMs: int)
      requires Valid()
      modifies this
      ensures Valid()
      ensures timer == TimerPlan(timeoutMs)
      ensures trace == old(trace) + [if timeoutMs < 0 then TimerStop else TimerStart(timer.timeoutMs, 0)]
      ensures attached == old(attached) && messages == old(messages)
    {
      var ms := timeoutMs;
      if ms < 0 {
        timer := Stopped;
        trace := trace + [TimerStop];
      } else {
        if ms == 0 {
          ms := 1;
        }
        timer := Armed(ms, 0);
        trace := trace + [TimerStart(ms, 0)];
      }
    }

    /** Multi::socketAction: one step of curl_multi_socket_action, during which
        the engine appends `produced` to its completion queue. libcurl only
        reports transfers that are added to it. */
    method SocketAction(socket: Socket, flags: Mask, produced: seq<Msg>)
      requires Valid() && forall m | m in produced :: m.easy in attached
      modifies this
      ensures Valid()
      ensures trace == old(trace) + [Step(socket, flags)] && messages == old(messages) + produced
      ensures attached == old(attached) && timer == old(timer)
    {
      trace := trace + [Step(socket, flags)];
      messages := messages + produced;
    }

    /** Multi::checkMultiInfo: pops the completion queue until it is empty,
        handling each message in turn. */
    method CheckMultiInfo()
      requires Valid()
      modifies this
      ensures Valid()
      ensures messages == []
      ensures trace == old(trace) + Drain(old(messages), lib.DoneCallbacks())
      ensures attached == old(attached) - DoneHandles(old(messages))
      ensures timer == old(timer)
    {
      ghost var cbs := lib.DoneCallbacks();
      while messages != []
        invariant Valid() && timer == old(timer)
        invariant old(trace) + Drain(old(messages), cbs) == trace + Drain(messages, cbs)
        invariant old(attached) - DoneHandles(old(messages)) == attached - DoneHandles(messages)
        decreases |messages|
      {
        ghost var before := messages;
        ghost var t := trace;
        var m := messages[0];
        messages := messages[1..];
        DrainStep(before, cbs);
        HandleMessage(m);
        AppendAssoc(t, DrainOne(m, cbs), Drain(messages, cbs));
      }
    }

    /** One message of the drain (the switch in checkMultiInfo): for DONE, the
        owner's callback is invoked if one is set, and is not cleared; the
        transfer is removed after the callback returns. Any other message only
        produces the diagnostic line. */
    method HandleMessage(m: Msg)
      requires Valid() && m.easy in lib.privates
      modifies this
      ensures Valid()
      ensures lib.DoneCallbacks() == old(lib.DoneCallbacks())
      ensures trace == old(trace) + DrainOne(m, lib.DoneCallbacks())
      ensures attached == old(attached) - (if m.Done? then {m.easy} else {})
      ensures messages == old(messages) && timer == old(timer)
    {
      if m.Done? {
        var easy := Easy.Get(lib, m.easy);
        if easy.doneCb.Some? {
          trace := trace + [Invoke(m.easy, easy.doneCb.value)];
        }
        trace := trace + [Remove(m.easy)];
        attached := attached - {m.easy};
      } else {
        trace := trace + [Diagnostic(m.code)];
      }
    }

    /** The readiness callback of an Easy's Poll: libuv only delivers it while
        the Poll exists. Steps the engine for the socket the callback captured
        with the translated flags, then drains. */
    method OnReadiness(easy: Easy, status: int, events: Mask, produced: seq<Msg>)
      requires Valid() && easy.poll.Some?
      requires forall m | m in produced :: m.easy in attached
      modifies this
      ensures Valid()
      ensures messages == [] && timer == old(timer)
      ensures trace == old(trace) + [Step(easy.poll.value.reportAs, SelectFlags(events))]
        + Drain(old(messages) + produced, lib.DoneCallbacks())
      ensures attached == old(attached) - DoneHandles(old(messages) + produced)
    {
      SocketAction(easy.poll.value.reportAs, SelectFlags(events), produced);
      CheckMultiInfo();
    }

    /** The timer callback: libuv only fires an armed timer, and a one-shot timer
        is stopped by then. Steps the engine for CURL_SOCKET_TIMEOUT with no
        flags, then drains. */
    method OnTimeout(produced: seq<Msg>)
      requires Valid() && timer.Armed?
      requires forall m | m in produced :: m.easy in attached
      modifies this
      ensures Valid()
      ensures messages == [] && timer == Stopped
      ensures trace == old(trace) + [Step(SocketTimeout, 0)] + Drain(old(messages) + produced, lib.DoneCallbacks())
      ensures attached == old(attached) - DoneHandles(old(messages) + produced)
    {
      timer := Stopped;
      SocketAction(SocketTimeout, 0, produced);
      CheckMultiInfo();
    }
  }
}
