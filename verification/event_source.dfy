/** The browser-side manager of the server-sent event stream (`/api/events`).
    It owns at most one transport handle, routes every decoded frame
    (ignore, deliver at once, or coalesce per download id for 50 ms and
    deliver as one batch), and schedules reconnects with a capped linear
    back-off.

    The browser is modelled explicitly: its clock (`now`, in milliseconds),
    its table of pending `setTimeout` callbacks (`timers`, keyed by the
    positive ids `setTimeout` hands out in increasing order), the handles
    it creates, and the calls made to the application's callbacks
    (`delivered`). A callback function is identified by a number; a
    missing (null or undefined) callback is `None`. */
module EventSource {

  import opened Wrappers

  type Callback = nat

  /** The `data` object of a `status_update` frame. */
  datatype Payload = Payload(id: int, status: Option<string>, progress: Option<real>)

  /** A decoded frame: its `type` field (empty when missing) and its `data`
      object when it has one. */
  datatype Msg = Msg(kind: string, data: Option<Payload>)

  /** What arrives on the stream: text that decodes as JSON, or text that does not. */
  datatype Frame = Decoded(msg: Msg) | Undecodable

  /** What a callback receives: one frame, or the batch
      `{type: "batch_status_update", data: [...]}`. */
  datatype Out = Single(msg: Msg) | Batch(items: seq<Payload>)

  datatype Delivery = Delivery(cb: Callback, out: Out)

  /** `readyState` of a transport handle. */
  datatype ReadyState = Connecting | Open | Closed

  /** A transport handle: which one it is, its state, and the `onMessage`
      the handlers installed on it call. */
  datatype Handle = Handle(serial: nat, ready: ReadyState, onMessage: Option<Callback>)

  /** What a pending `setTimeout` callback will do. */
  datatype Action = CallFlush | CallReconnect | CallConnect

  datatype Pending = Pending(due: nat, action: Action)

  /** One value of the `updateQueue` map: the queued update's `data` and the
      callback it was queued with. The map key is `data.id`. */
  datatype Entry = Entry(key: int, data: Payload, cb: Option<Callback>)

  /** The manager's fields together with the browser state it depends on. */
  datatype Conn = Conn(
    now: nat,
    eventSource: Option<Handle>,
    handlesCreated: nat,
    lastOnMessage: Option<Callback>,
    reconnectAttempts: nat,
    updateQueue: seq<Entry>,
    debounceTimer: Option<nat>,
    timers: map<nat, Pending>,
    nextTimerId: nat,
    delivered: seq<Delivery>)

  const DebounceDelay: nat := 50
  const MaxReconnectAttempts: nat := 15
  const ReconnectPause: nat := 1000

  // ----- routing of frames -----

  datatype Route = Ignore | Immediate | Coalesce(p: Payload) | Drop

  /** Status updates that must reach the view without delay. */
  predicate IsImmediate(p: Payload) {
    p.status == Some("stopped") || p.status == Some("done") || p.status == Some("failed")
    || (p.status == Some("downloading") && p.progress.Some? && p.progress.value > 0.0)
  }

  /** How the message handler treats a decoded frame. A `status_update`
      without `data` makes the handler throw while reading `data.id`; the
      handler's catch-all drops it. */
  function RouteOf(m: Msg): (r: Route)
    ensures r.Ignore? <==> m.kind in {"heartbeat", "connection"}
    ensures r.Drop? <==> m.kind == "status_update" && m.data.None?
    ensures r.Coalesce? <==> m.kind == "status_update" && m.data.Some? && !IsImmediate(m.data.value)
    ensures r.Coalesce? ==> m.data == Some(r.p)
  {
    if m.kind == "heartbeat" || m.kind == "connection" then Ignore
    else if m.kind == "force_refresh" || m.kind == "test_message" then Immediate
    else if m.kind == "status_update" then
      match m.data
      case None => Drop
      case Some(p) => if IsImmediate(p) then Immediate else Coalesce(p)
    else Immediate
  }

  /** The back-off before reconnect attempt `attempt`. */
  function ReconnectDelay(attempt: nat): nat {
    if 1000 + attempt * 500 < 8000 then 1000 + attempt * 500 else 8000
  }

  // ----- the update queue: a JavaScript Map kept in insertion order -----

  predicate HasKey(q: seq<Entry>, k: int) {
    exists i :: 0 <= i < |q| && q[i].key == k
  }

  /** Keys are distinct and every entry is filed under its own download id. */
  predicate QueueWellFormed(q: seq<Entry>) {
    && (forall i, j :: 0 <= i < j < |q| ==> q[i].key != q[j].key)
    && (forall i :: 0 <= i < |q| ==> q[i].key == q[i].data.id)
  }

  /** `Map.prototype.set`: an existing key keeps its position and takes the
      new value; a new key goes to the end. */
  function MapSet(q: seq<Entry>, e: Entry): (r: seq<Entry>)
    ensures |r| == if HasKey(q, e.key) then |q| else |q| + 1
  {
    if HasKey(q, e.key) then seq(|q|, i requires 0 <= i < |q| => if q[i].key == e.key then e else q[i])
    else q + [e]
  }

  /** After `set`, the key occurs exactly once and holds the new value, every
      other key keeps its value and its position, and the map stays
      well-formed. */
  lemma MapSetSpec(q: seq<Entry>, e: Entry)
    requires QueueWellFormed(q) && e.key == e.data.id
    ensures QueueWellFormed(MapSet(q, e))
    ensures exists i :: 0 <= i < |MapSet(q, e)| && MapSet(q, e)[i] == e
    ensures forall i :: 0 <= i < |MapSet(q, e)| && MapSet(q, e)[i].key == e.key ==> MapSet(q, e)[i] == e
    ensures forall i :: 0 <= i < |q| && q[i].key != e.key ==> MapSet(q, e)[i] == q[i]
    ensures forall i :: 0 <= i < |MapSet(q, e)| && MapSet(q, e)[i].key != e.key ==> i < |q| && MapSet(q, e)[i] == q[i]
  {
    var r := MapSet(q, e);
    if HasKey(q, e.key) {
      var i :| 0 <= i < |q| && q[i].key == e.key;
      assert r[i] == e;
    } else {
      assert r[|q|] == e;
    }
  }

  /** The `data` of every queued update, in queue order. */
  function Payloads(q: seq<Entry>): (r: seq<Payload>)
    ensures |r| == |q|
    ensures forall i :: 0 <= i < |q| ==> r[i] == q[i].data
  {
    seq(|q|, i requires 0 <= i < |q| => q[i].data)
  }

  // ----- the operations as state transitions -----

  /** The initial manager: no handle, empty queue, no timer. */
  function Init(now: nat): (s: Conn)
    ensures Inv(s) && s.delivered == [] && !OpenHandle(s)
  {
    Conn(now, None, 0, None, 0, [], None, map[], 1, [])
  }

  /** `setTimeout`: the new timer takes the next id. */
  function Schedule(s: Conn, delay: nat, action: Action): Conn {
    s.(timers := s.timers[s.nextTimerId := Pending(s.now + delay, action)],
       nextTimerId := s.nextTimerId + 1)
  }

  /** `connect(onMessage)`: the previous handle is closed and dropped, and a
      fresh one is opened whose handlers call `onMessage`. */
  function AfterConnect(s: Conn, onMessage: Option<Callback>): Conn {
    s.(lastOnMessage := onMessage,
       eventSource := Some(Handle(s.handlesCreated, Connecting, onMessage)),
       handlesCreated := s.handlesCreated + 1)
  }

  /** The `open` handler: the handle is open and the attempt count restarts. */
  function AfterOpen(s: Conn): Conn
    requires s.eventSource.Some?
  {
    s.(eventSource := Some(s.eventSource.value.(ready := Open)), reconnectAttempts := 0)
  }

  /** Hand one frame to the handle's callback, when there is one. */
  function DeliverNow(s: Conn, m: Msg): Conn
    requires s.eventSource.Some?
  {
    match s.eventSource.value.onMessage
    case Some(cb) => s.(delivered := s.delivered + [Delivery(cb, Single(m))])
    case None => s
  }

  /** `queueUpdate`: file the update under its download id, cancel the
      running debounce timer and start a new one. */
  function AfterQueueUpdate(s: Conn, p: Payload, cb: Option<Callback>): Conn {
    var s1 := s.(updateQueue := MapSet(s.updateQueue, Entry(p.id, p, cb)));
    var s2 := if s1.debounceTimer.Some? then s1.(timers := s1.timers - {s1.debounceTimer.value}) else s1;
    Schedule(s2, DebounceDelay, CallFlush).(debounceTimer := Some(s2.nextTimerId))
  }

  /** The `message` handler. */
  function AfterMessage(s: Conn, f: Frame): Conn
    requires s.eventSource.Some?
  {
    match f
    case Undecodable => s
    case Decoded(m) =>
      match RouteOf(m)
      case Ignore => s
      case Drop => s
      case Immediate => DeliverNow(s, m)
      case Coalesce(p) => AfterQueueUpdate(s, p, s.eventSource.value.onMessage)
  }

  /** The `error` handler. The browser has already moved the handle to
      `Closed` (`fatal`) or back to `Connecting`. A reconnect is scheduled
      unless the attempt count has passed the ceiling. */
  function AfterError(s: Conn, fatal: bool): Conn
    requires s.eventSource.Some?
  {
    var a := s.reconnectAttempts + 1;
    var s1 := s.(reconnectAttempts := a,
                 eventSource := Some(s.eventSource.value.(ready := if fatal then Closed else Connecting)));
    if a > MaxReconnectAttempts then s1 else Schedule(s1, ReconnectDelay(a), CallReconnect)
  }

  /** `reconnect()`: close the handle (the field keeps it) and connect again
      one second later with the remembered callback. */
  function AfterReconnect(s: Conn): Conn {
    var s1 := if s.eventSource.Some? then s.(eventSource := Some(s.eventSource.value.(ready := Closed))) else s;
    Schedule(s1, ReconnectPause, CallConnect)
  }

  /** `flushUpdates()`: empty the queue and hand its updates, in insertion
      order, to the callback of the first queued entry. With no such
      callback the call throws after the queue was cleared, so nothing is
      delivered. The debounce timer id is left as it was. */
  function AfterFlush(s: Conn): Conn {
    if s.updateQueue == [] then s
    else
      var s1 := s.(updateQueue := []);
      match s.updateQueue[0].cb
      case Some(cb) => s1.(delivered := s.delivered + [Delivery(cb, Batch(Payloads(s.updateQueue)))])
      case None => s1
  }

  /** A due timer runs its callback. */
  function AfterTimer(s: Conn, id: nat): Conn
    requires id in s.timers
  {
    var s1 := s.(timers := s.timers - {id});
    match s.timers[id].action
    case CallFlush => AfterFlush(s1)
    case CallReconnect => AfterReconnect(s1)
    case CallConnect => AfterConnect(s1, s1.lastOnMessage)
  }

  /** `disconnect()`: drop the handle, cancel the debounce timer, empty the
      queue. Reconnect timers already scheduled are not cancelled. */
  function AfterDisconnect(s: Conn): Conn {
    var s1 := s.(eventSource := None);
    var s2 := if s1.debounceTimer.Some? then s1.(timers := s1.timers - {s1.debounceTimer.value}, debounceTimer := None) else s1;
    s2.(updateQueue := [])
  }

  /** `isConnected()`. */
  predicate OpenHandle(s: Conn) {
    s.eventSource.Some? && s.eventSource.value.ready == Open
  }

  // ----- events -----

  datatype Event =
    | ConnectCall(onMessage: Option<Callback>)
    | ReconnectCall
    | DisconnectCall
    | TransportOpen
    | TransportMessage(frame: Frame)
    | TransportError(fatal: bool)
    | TimerFires(id: nat)
    | ClockAdvance(to: nat)

  /** When the browser can produce each event: transport events come only
      from the current, live handle; a timer fires only when due; the clock
      never passes a pending timer. */
  predicate Enabled(s: Conn, e: Event) {
    match e
    case ConnectCall(_) => true
    case ReconnectCall => true
    case DisconnectCall => true
    case TransportOpen => s.eventSource.Some? && s.eventSource.value.ready == Connecting
    case TransportMessage(_) => OpenHandle(s)
    case TransportError(_) => s.eventSource.Some? && s.eventSource.value.ready != Closed
    case TimerFires(id) => id in s.timers && s.timers[id].due == s.now
    case ClockAdvance(t) => s.now <= t && forall id | id in s.timers :: t <= s.timers[id].due
  }

  function Step(s: Conn, e: Event): Conn
    requires Enabled(s, e)
  {
    match e
    case ConnectCall(cb) => AfterConnect(s, cb)
    case ReconnectCall => AfterReconnect(s)
    case DisconnectCall => AfterDisconnect(s)
    case TransportOpen => AfterOpen(s)
    case TransportMessage(f) => AfterMessage(s, f)
    case TransportError(fatal) => AfterError(s, fatal)
    case TimerFires(id) => AfterTimer(s, id)
    case ClockAdvance(t) => s.(now := t)
  }

  /** Whether every event of a run is enabled when it happens. */
  predicate Runs(s: Conn, es: seq<Event>)
    decreases |es|
  {
    es == [] || (Enabled(s, es[0]) && Runs(Step(s, es[0]), es[1..]))
  }

  function Run(s: Conn, es: seq<Event>): Conn
    requires Runs(s, es)
    decreases |es|
  {
    if es == [] then s else Run(Step(s, es[0]), es[1..])
  }

  // ----- the invariant -----

  /** A flush callback is pending: the debounce timer has not yet run. */
  predicate FlushPending(s: Conn) {
    s.debounceTimer.Some? && s.debounceTimer.value in s.timers
  }

  /** Timer ids are positive and below the next id; no timer is overdue;
      the only flush timer is the one `debounceTimer` names; a flush is
      pending exactly when updates are queued; the queue is well-formed. */
  predicate Inv(s: Conn) {
    && s.nextTimerId >= 1
    && (forall id | id in s.timers :: 0 < id < s.nextTimerId && s.now <= s.timers[id].due)
    && (forall id | id in s.timers && s.timers[id].action == CallFlush :: s.debounceTimer == Some(id))
    && (s.debounceTimer.Some? ==> s.debounceTimer.value < s.nextTimerId)
    && (FlushPending(s) ==> s.timers[s.debounceTimer.value].action == CallFlush)
    && (FlushPending(s) <==> s.updateQueue != [])
    && QueueWellFormed(s.updateQueue)
  }

  lemma QueueUpdateInv(s: Conn, p: Payload, cb: Option<Callback>)
    requires Inv(s)
    ensures Inv(AfterQueueUpdate(s, p, cb))
    ensures var r := AfterQueueUpdate(s, p, cb);
      && r.debounceTimer == Some(s.nextTimerId)
      && r.timers[s.nextTimerId] == Pending(s.now + DebounceDelay, CallFlush)
  {
    MapSetSpec(s.updateQueue, Entry(p.id, p, cb));
    var r := AfterQueueUpdate(s, p, cb);
    assert r.updateQueue != [];
  }

  lemma FireInv(s: Conn, id: nat)
    requires Inv(s) && id in s.timers
    ensures Inv(AfterTimer(s, id))
  {
    var s1 := s.(timers := s.timers - {id});
    if s.timers[id].action == CallFlush {
      assert s.debounceTimer == Some(id);
      assert !FlushPending(AfterTimer(s, id));
    } else {
      assert s.debounceTimer != Some(id);
    }
  }

  /** Every enabled step keeps the invariant. */
  lemma StepInv(s: Conn, e: Event)
    requires Inv(s) && Enabled(s, e)
    ensures Inv(Step(s, e))
  {
    match e
    case TransportMessage(f) =>
      if f.Decoded? && RouteOf(f.msg).Coalesce? {
        QueueUpdateInv(s, RouteOf(f.msg).p, s.eventSource.value.onMessage);
      }
    case TimerFires(id) => FireInv(s, id);
    case DisconnectCall =>
      var r := AfterDisconnect(s);
      assert !FlushPending(r);
    case _ =>
  }

  lemma {:induction false} RunInv(s: Conn, es: seq<Event>)
    requires Inv(s) && Runs(s, es)
    ensures Inv(Run(s, es))
    decreases |es|
  {
    if es != [] {
      StepInv(s, es[0]);
      RunInv(Step(s, es[0]), es[1..]);
    }
  }

  /** There is at most one pending flush, and it exists exactly while updates wait. */
  lemma SingleFlushTimer(s: Conn)
    requires Inv(s)
    ensures forall a, b | a in s.timers && b in s.timers && s.timers[a].action == CallFlush && s.timers[b].action == CallFlush :: a == b
    ensures s.updateQueue != [] <==> exists id | id in s.timers :: s.timers[id].action == CallFlush
  {
  }

  // ----- properties of single steps -----

  /** Heartbeats, connection notices, undecodable text and status updates
      without data change nothing. */
  lemma SilentFrames(s: Conn, f: Frame)
    requires OpenHandle(s)
    requires f.Undecodable? || RouteOf(f.msg).Ignore? || RouteOf(f.msg).Drop?
    ensures AfterMessage(s, f) == s
  {
  }

  /** A priority frame or a terminal/progressing status goes straight to the
      handle's callback, and the queue and its timer are untouched: an
      update already queued is still flushed when its own timer expires. */
  lemma ImmediateFrame(s: Conn, m: Msg)
    requires OpenHandle(s) && RouteOf(m).Immediate?
    ensures var r := AfterMessage(s, Decoded(m));
      && r.updateQueue == s.updateQueue && r.timers == s.timers && r.debounceTimer == s.debounceTimer
      && r.delivered == s.delivered + (if s.eventSource.value.onMessage.Some? then [Delivery(s.eventSource.value.onMessage.value, Single(m))] else [])
  {
  }

  /** A coalesced status update replaces the queued update for the same id
      in place (or is appended), nothing is delivered, and the debounce
      timer restarts: the previous flush timer is cancelled and the only
      flush timer left is due 50 ms from now. */
  lemma CoalescedFrame(s: Conn, m: Msg)
    requires Inv(s) && OpenHandle(s) && RouteOf(m).Coalesce?
    ensures var r := AfterMessage(s, Decoded(m)); var p := m.data.value;
      && Inv(r)
      && r.delivered == s.delivered
      && |r.updateQueue| >= |s.updateQueue|
      && (exists i :: 0 <= i < |r.updateQueue| && r.updateQueue[i].data == p)
      && (forall i :: 0 <= i < |r.updateQueue| && r.updateQueue[i].key == p.id ==> r.updateQueue[i].data == p)
      && (forall i :: 0 <= i < |s.updateQueue| && s.updateQueue[i].key != p.id ==> r.updateQueue[i] == s.updateQueue[i])
      && (forall id | id in r.timers && r.timers[id].action == CallFlush :: r.timers[id].due == s.now + DebounceDelay)
      && (forall id | id in s.timers && s.timers[id].action != CallFlush :: id in r.timers && r.timers[id] == s.timers[id])
  {
    var p := m.data.value;
    var cb := s.eventSource.value.onMessage;
    MapSetSpec(s.updateQueue, Entry(p.id, p, cb));
    QueueUpdateInv(s, p, cb);
  }

  /** Flushing hands every queued update, once and in insertion order, to
      the callback of the first queued entry and leaves the queue empty. */
  lemma FlushBatch(s: Conn)
    requires QueueWellFormed(s.updateQueue)
    ensures var r := AfterFlush(s);
      && r.updateQueue == []
      && r.timers == s.timers && r.eventSource == s.eventSource
      && (s.updateQueue == [] ==> r == s)
      && (s.updateQueue != [] && s.updateQueue[0].cb.Some? ==>
            r.delivered == s.delivered + [Delivery(s.updateQueue[0].cb.value, Batch(Payloads(s.updateQueue)))])
      && (s.updateQueue != [] && s.updateQueue[0].cb.None? ==> r.delivered == s.delivered)
  {
  }

  /** The ids in a batch are distinct: one update per download. */
  lemma BatchOnePerId(s: Conn)
    requires QueueWellFormed(s.updateQueue)
    ensures var b := Payloads(s.updateQueue);
      forall i, j :: 0 <= i < j < |b| ==> b[i].id != b[j].id
  {
  }

  /** An error bumps the attempt count; up to the ceiling it schedules one
      reconnect after the capped linear back-off, beyond it nothing. */
  lemma ErrorSchedulesReconnect(s: Conn, fatal: bool)
    requires Inv(s) && s.eventSource.Some?
    ensures var r := AfterError(s, fatal); var a := s.reconnectAttempts + 1;
      && r.reconnectAttempts == a
      && r.updateQueue == s.updateQueue && r.delivered == s.delivered
      && (a <= MaxReconnectAttempts ==>
            r.timers == s.timers[s.nextTimerId := Pending(s.now + ReconnectDelay(a), CallReconnect)]
            && s.nextTimerId !in s.timers && |r.timers| == |s.timers| + 1)
      && (a > MaxReconnectAttempts ==> r.timers == s.timers)
  {
  }

  /** The back-off grows by half a second per attempt from 1.5 s and is
      capped at 8 s, which attempt 14 reaches. */
  lemma ReconnectDelays()
    ensures seq(15, i requires 0 <= i < 15 => ReconnectDelay(i + 1))
         == [1500, 2000, 2500, 3000, 3500, 4000, 4500, 5000, 5500, 6000, 6500, 7000, 7500, 8000, 8000]
    ensures forall a, b :: a <= b ==> ReconnectDelay(a) <= ReconnectDelay(b) <= 8000
  {
  }

  /** Opening resets the attempt count, so the ceiling applies to
      consecutive failures only. */
  lemma OpenResets(s: Conn)
    requires s.eventSource.Some? && s.eventSource.value.ready == Connecting
    ensures OpenHandle(AfterOpen(s)) && AfterOpen(s).reconnectAttempts == 0
  {
  }

  /** After `disconnect()` nothing is connected, nothing is queued and no
      flush is pending, but every timer other than the flush timer is still
      scheduled: a reconnect already in flight will run. */
  lemma DisconnectKeepsReconnects(s: Conn)
    requires Inv(s)
    ensures var r := AfterDisconnect(s);
      && Inv(r) && !OpenHandle(r) && r.eventSource.None? && r.updateQueue == [] && r.debounceTimer.None?
      && (forall id | id in r.timers :: r.timers[id].action != CallFlush)
      && (forall id | id in s.timers && s.timers[id].action != CallFlush :: id in r.timers && r.timers[id] == s.timers[id])
  {
    var r := AfterDisconnect(s);
    assert !FlushPending(r);
  }

  /** Disconnecting is not terminal: a pending reconnect timer schedules a
      connect, and that connect creates a new handle with the remembered
      callback, whether or not `disconnect()` was called in between. */
  lemma ReconnectRevives(s: Conn, id: nat, id2: nat)
    requires Inv(s) && id in s.timers && s.timers[id].action == CallReconnect
    ensures var r := AfterTimer(s, id);
      && r.eventSource == (if s.eventSource.Some? then Some(s.eventSource.value.(ready := Closed)) else None)
      && s.nextTimerId in r.timers && r.timers[s.nextTimerId] == Pending(s.now + ReconnectPause, CallConnect)
    ensures id2 in s.timers && s.timers[id2].action == CallConnect ==>
      var r := AfterTimer(s, id2);
      && r.eventSource == Some(Handle(s.handlesCreated, Connecting, s.lastOnMessage))
  {
  }

  // ----- properties of runs -----

  /** Events that only the browser's clock and timer table produce. */
  predicate TimerOnly(es: seq<Event>) {
    forall i :: 0 <= i < |es| ==> es[i].TimerFires? || es[i].ClockAdvance?
  }

  /** With nothing queued, timers and the clock alone deliver nothing, and
      the queue stays empty; only a reconnect may happen. */
  lemma {:induction false} TimersAloneDeliverNothing(s: Conn, es: seq<Event>)
    requires Inv(s) && s.updateQueue == [] && Runs(s, es) && TimerOnly(es)
    ensures Run(s, es).delivered == s.delivered && Run(s, es).updateQueue == []
    decreases |es|
  {
    if es != [] {
      StepInv(s, es[0]);
      if es[0].TimerFires? {
        assert !FlushPending(s);
        assert s.timers[es[0].id].action != CallFlush;
      }
      assert TimerOnly(es[1..]);
      TimersAloneDeliverNothing(Step(s, es[0]), es[1..]);
    }
  }

  /** After `disconnect()` no batch is ever delivered by timers and the clock. */
  lemma NoDeliveryAfterDisconnect(s: Conn, es: seq<Event>)
    requires Inv(s) && Runs(AfterDisconnect(s), es) && TimerOnly(es)
    ensures Run(AfterDisconnect(s), es).delivered == s.delivered
  {
    DisconnectKeepsReconnects(s);
    TimersAloneDeliverNothing(AfterDisconnect(s), es);
  }

  /** Frames for the same download id, all of which are coalesced. */
  function CoalescedFrames(ps: seq<Payload>): (es: seq<Event>)
    ensures |es| == |ps|
  {
    seq(|ps|, i requires 0 <= i < |ps| => TransportMessage(Decoded(Msg("status_update", Some(ps[i])))))
  }

  predicate AllCoalesced(ps: seq<Payload>, k: int) {
    forall i :: 0 <= i < |ps| ==> ps[i].id == k && !IsImmediate(ps[i])
  }

  /** A burst of coalesced updates for one download leaves exactly one
      queued entry for it, holding the last update; other downloads' entries
      keep their values and positions; nothing is delivered meanwhile; and
      a flush is pending. */
  lemma {:induction false} BurstCoalesces(s: Conn, ps: seq<Payload>, k: int)
    requires Inv(s) && OpenHandle(s) && |ps| > 0 && AllCoalesced(ps, k)
    ensures Runs(s, CoalescedFrames(ps))
    ensures var r := Run(s, CoalescedFrames(ps));
      && Inv(r) && OpenHandle(r) && r.delivered == s.delivered && FlushPending(r)
      && |r.updateQueue| >= |s.updateQueue|
      && (exists i :: 0 <= i < |r.updateQueue| && r.updateQueue[i].data == ps[|ps| - 1])
      && (forall i :: 0 <= i < |r.updateQueue| && r.updateQueue[i].key == k ==> r.updateQueue[i].data == ps[|ps| - 1])
      && (forall i :: 0 <= i < |s.updateQueue| && s.updateQueue[i].key != k ==> r.updateQueue[i] == s.updateQueue[i])
    decreases |ps|
  {
    var es := CoalescedFrames(ps);
    var m := Msg("status_update", Some(ps[0]));
    assert es[0] == TransportMessage(Decoded(m));
    CoalescedFrame(s, m);
    var s1 := Step(s, es[0]);
    assert s1 == AfterMessage(s, Decoded(m));
    if |ps| == 1 {
      assert es[1..] == [];
    } else {
      assert es[1..] == CoalescedFrames(ps[1..]);
      assert AllCoalesced(ps[1..], k);
      BurstCoalesces(s1, ps[1..], k);
      var r := Run(s1, es[1..]);
      forall i | 0 <= i < |s.updateQueue| && s.updateQueue[i].key != k
        ensures r.updateQueue[i] == s.updateQueue[i]
      {
        assert s1.updateQueue[i] == s.updateQueue[i];
      }
    }
  }

  lemma RunCons(s: Conn, e: Event, es: seq<Event>)
    requires Enabled(s, e) && Runs(Step(s, e), es)
    ensures Runs(s, [e] + es) && Run(s, [e] + es) == Run(Step(s, e), es)
  {
    assert ([e] + es)[1..] == es;
  }

  /** The state after two coalesced updates for one download arrive at once
      on an empty queue: one entry holding the second, flushed by timer
      `nextTimerId + 1` 50 ms later. */
  lemma TwoUpdatesQueued(s: Conn, p1: Payload, p2: Payload)
    requires Inv(s) && OpenHandle(s) && s.updateQueue == []
    requires p1.id == p2.id && !IsImmediate(p1) && !IsImmediate(p2)
    ensures var s2 := AfterMessage(AfterMessage(s, Decoded(Msg("status_update", Some(p1)))), Decoded(Msg("status_update", Some(p2))));
      && OpenHandle(AfterMessage(s, Decoded(Msg("status_update", Some(p1)))))
      && Inv(s2) && OpenHandle(s2) && s2.delivered == s.delivered
      && s2.updateQueue == [Entry(p2.id, p2, s.eventSource.value.onMessage)]
      && s2.nextTimerId == s.nextTimerId + 2 && s2.now == s.now
      && s2.timers == (s.timers - {s.nextTimerId})[s.nextTimerId + 1 := Pending(s.now + DebounceDelay, CallFlush)]
  {
    var cb := s.eventSource.value.onMessage;
    var n := s.nextTimerId;
    var flush := Pending(s.now + DebounceDelay, CallFlush);
    CoalescedRoute(s, p1);
    QueueUpdateInv(s, p1, cb);
    UpdateOnEmpty(s, p1, cb);
    var s1 := AfterQueueUpdate(s, p1, cb);
    CoalescedRoute(s1, p2);
    QueueUpdateInv(s1, p2, cb);
    UpdateOnSameKey(s1, p2, cb);
    assert (s.timers[n := flush] - {n})[n + 1 := flush] == (s.timers - {n})[n + 1 := flush];
  }

  /** A status update that is not urgent goes to the queue. */
  lemma CoalescedRoute(s: Conn, p: Payload)
    requires s.eventSource.Some? && !IsImmediate(p)
    ensures AfterMessage(s, Decoded(Msg("status_update", Some(p)))) == AfterQueueUpdate(s, p, s.eventSource.value.onMessage)
  {
    assert RouteOf(Msg("status_update", Some(p))) == Coalesce(p);
  }

  /** A first update on an empty queue queues it alone and schedules the
      flush under the next timer id. */
  lemma UpdateOnEmpty(s: Conn, p: Payload, cb: Option<Callback>)
    requires Inv(s) && s.updateQueue == []
    ensures AfterQueueUpdate(s, p, cb)
         == s.(updateQueue := [Entry(p.id, p, cb)],
               timers := s.timers[s.nextTimerId := Pending(s.now + DebounceDelay, CallFlush)],
               nextTimerId := s.nextTimerId + 1, debounceTimer := Some(s.nextTimerId))
  {
    assert !HasKey([], p.id);
    assert s.debounceTimer.Some? ==> s.timers - {s.debounceTimer.value} == s.timers;
  }

  /** An update for the one download queued replaces its entry and moves
      the flush to a new timer. */
  lemma UpdateOnSameKey(s: Conn, p: Payload, cb: Option<Callback>)
    requires |s.updateQueue| == 1 && s.updateQueue[0].key == p.id && s.debounceTimer.Some?
    ensures AfterQueueUpdate(s, p, cb)
         == s.(updateQueue := [Entry(p.id, p, cb)],
               timers := (s.timers - {s.debounceTimer.value})[s.nextTimerId := Pending(s.now + DebounceDelay, CallFlush)],
               nextTimerId := s.nextTimerId + 1, debounceTimer := Some(s.nextTimerId))
  {
    assert HasKey(s.updateQueue, p.id);
    assert MapSet(s.updateQueue, Entry(p.id, p, cb))[0] == Entry(p.id, p, cb);
  }

  /** Two progress updates for the same download 0 ms apart, then the
      debounce delay: exactly one batch, holding the second update, reaches
      the callback. */
  lemma TwoUpdatesOneBatch(s: Conn, p1: Payload, p2: Payload)
    requires Inv(s) && OpenHandle(s) && s.updateQueue == [] && s.eventSource.value.onMessage.Some?
    requires forall id | id in s.timers :: s.now + DebounceDelay <= s.timers[id].due
    requires p1.id == p2.id && !IsImmediate(p1) && !IsImmediate(p2)
    ensures var es := CoalescedFrames([p1, p2]) + [ClockAdvance(s.now + DebounceDelay), TimerFires(s.nextTimerId + 1)];
      && Runs(s, es)
      && Run(s, es).delivered == s.delivered + [Delivery(s.eventSource.value.onMessage.value, Batch([p2]))]
      && Run(s, es).updateQueue == []
  {
    var e1 := TransportMessage(Decoded(Msg("status_update", Some(p1))));
    var e2 := TransportMessage(Decoded(Msg("status_update", Some(p2))));
    var t := s.now + DebounceDelay;
    var e3 := ClockAdvance(t);
    var e4 := TimerFires(s.nextTimerId + 1);
    TwoUpdatesQueued(s, p1, p2);
    var s1 := Step(s, e1);
    var s2 := Step(s1, e2);
    assert s2.timers == (s.timers - {s.nextTimerId})[s.nextTimerId + 1 := Pending(t, CallFlush)];
    forall id | id in s2.timers
      ensures t <= s2.timers[id].due
    {
      if id != s.nextTimerId + 1 {
        assert id in s.timers;
      }
    }
    FlushAfterDelay(s2, s.eventSource.value.onMessage.value, p2, s.nextTimerId + 1, t);
    RunCons(s1, e2, [e3, e4]);
    RunCons(s, e1, [e2, e3, e4]);
    assert CoalescedFrames([p1, p2]) + [e3, e4] == [e1] + [e2, e3, e4];
  }

  /** With one entry queued and its flush timer due at `t`, letting the
      clock reach `t` and the timer fire delivers that entry as one batch. */
  lemma FlushAfterDelay(s: Conn, cb: Callback, p: Payload, n: nat, t: nat)
    requires s.updateQueue == [Entry(p.id, p, Some(cb))]
    requires n in s.timers && s.timers[n] == Pending(t, CallFlush) && s.now <= t
    requires forall id | id in s.timers :: t <= s.timers[id].due
    ensures Runs(s, [ClockAdvance(t), TimerFires(n)])
    ensures Run(s, [ClockAdvance(t), TimerFires(n)]).delivered == s.delivered + [Delivery(cb, Batch([p]))]
    ensures Run(s, [ClockAdvance(t), TimerFires(n)]).updateQueue == []
  {
    var e3 := ClockAdvance(t);
    var e4 := TimerFires(n);
    var s3 := Step(s, e3);
    var s4 := Step(s3, e4);
    assert s4 == AfterFlush(s3.(timers := s3.timers - {n}));
    assert Payloads(s.updateQueue) == [p];
    assert Runs(s4, []) && Run(s4, []) == s4;
    RunCons(s3, e4, []);
    RunCons(s, e3, [e4]);
  }

  // ----- the manager object -----

  /** `EventSourceManager`: its own fields, and the part of the browser it
      acts on (clock, timer table, created handles, callback invocations). */
  class EventSourceManager {
    var eventSource: Option<Handle>
    var updateQueue: seq<Entry>
    var debounceTimer: Option<nat>
    var reconnectAttempts: nat
    var lastOnMessage: Option<Callback>
    var now: nat
    var handlesCreated: nat
    var timers: map<nat, Pending>
    var nextTimerId: nat
    var delivered: seq<Delivery>

    function Abs(): Conn
      reads this
    {
      Conn(now, eventSource, handlesCreated, lastOnMessage, reconnectAttempts,
           updateQueue, debounceTimer, timers, nextTimerId, delivered)
    }

    predicate Valid()
      reads this
    {
      Inv(Abs())
    }

    constructor(clock: nat)
      ensures Valid() && Abs() == Init(clock)
    {
      eventSource := None;
      updateQueue := [];
      debounceTimer := None;
      reconnectAttempts := 0;
      lastOnMessage := None;
      now := clock;
      handlesCreated := 0;
      timers := map[];
      nextTimerId := 1;
      delivered := [];
    }

    /** The browser's `setTimeout`. */
    method SetTimeout(delay: nat, action: Action) returns (id: nat)
      modifies this
      ensures Abs() == Schedule(old(Abs()), delay, action) && id == old(nextTimerId)
    {
      id := nextTimerId;
      timers := timers[id := Pending(now + delay, action)];
      nextTimerId := nextTimerId + 1;
    }

    method Connect(onMessage: Option<Callback>)
      requires Valid()
      modifies this
      ensures Valid() && Abs() == AfterConnect(old(Abs()), onMessage)
    {
      ghost var s := Abs();
      lastOnMessage := onMessage;
      eventSource := Some(Handle(handlesCreated, Connecting, onMessage));
      handlesCreated := handlesCreated + 1;
      StepInv(s, ConnectCall(onMessage));
    }

    /** The `open` handler. */
    method OnOpen()
      requires Valid() && Enabled(Abs(), TransportOpen)
      modifies this
      ensures Valid() && Abs() == AfterOpen(old(Abs()))
    {
      ghost var s := Abs();
      eventSource := Some(eventSource.value.(ready := Open));
      reconnectAttempts := 0;
      StepInv(s, TransportOpen);
    }

    /** The `message` handler. */
    method OnMessage(f: Frame)
      requires Valid() && OpenHandle(Abs())
      modifies this
      ensures Valid() && Abs() == AfterMessage(old(Abs()), f)
    {
      ghost var s := Abs();
      StepInv(s, TransportMessage(f));
      if f.Undecodable? {
        return;
      }
      var m := f.msg;
      var onMessage := eventSource.value.onMessage;
      if m.kind == "heartbeat" || m.kind == "connection" {
        return;
      }
      if m.kind == "force_refresh" || m.kind == "test_message" {
        if onMessage.Some? {
          delivered := delivered + [Delivery(onMessage.value, Single(m))];
        }
        return;
      }
      if m.kind == "status_update" {
        if m.data.None? {
          // reading `data.id` throws; the handler swallows the error
          return;
        }
        var p := m.data.value;
        if IsImmediate(p) {
          if onMessage.Some? {
            delivered := delivered + [Delivery(onMessage.value, Single(m))];
          }
          return;
        }
        QueueUpdate(p, onMessage);
        return;
      }
      if onMessage.Some? {
        delivered := delivered + [Delivery(onMessage.value, Single(m))];
      }
    }

    /** The `error` handler; `fatal` says whether the browser gave the handle up. */
    method OnError(fatal: bool)
      requires Valid() && Enabled(Abs(), TransportError(fatal))
      modifies this
      ensures Valid() && Abs() == AfterError(old(Abs()), fatal)
    {
      ghost var s := Abs();
      StepInv(s, TransportError(fatal));
      reconnectAttempts := reconnectAttempts + 1;
      eventSource := Some(eventSource.value.(ready := if fatal then Closed else Connecting));
      if reconnectAttempts > MaxReconnectAttempts {
        return;
      }
      var delay := if 1000 + reconnectAttempts * 500 < 8000 then 1000 + reconnectAttempts * 500 else 8000;
      var _ := SetTimeout(delay, CallReconnect);
    }

    method Reconnect()
      requires Valid()
      modifies this
      ensures Valid() && Abs() == AfterReconnect(old(Abs()))
    {
      ghost var s := Abs();
      StepInv(s, ReconnectCall);
      if eventSource.Some? {
        eventSource := Some(eventSource.value.(ready := Closed));
      }
      var _ := SetTimeout(ReconnectPause, CallConnect);
    }

    method QueueUpdate(p: Payload, onMessage: Option<Callback>)
      requires Valid()
      modifies this
      ensures Valid() && Abs() == AfterQueueUpdate(old(Abs()), p, onMessage)
    {
      ghost var s := Abs();
      QueueUpdateInv(s, p, onMessage);
      updateQueue := MapSet(updateQueue, Entry(p.id, p, onMessage));
      if debounceTimer.Some? {
        timers := timers - {debounceTimer.value};
      }
      var id := SetTimeout(DebounceDelay, CallFlush);
      debounceTimer := Some(id);
    }

    /** Runs only from the debounce timer, whose entry the browser has
        already removed; the invariant is restored by the caller. */
    method FlushUpdates()
      modifies this
      ensures Abs() == AfterFlush(old(Abs()))
    {
      if |updateQueue| == 0 {
        return;
      }
      var updates := updateQueue;
      updateQueue := [];
      match updates[0].cb
      case Some(cb) =>
        delivered := delivered + [Delivery(cb, Batch(Payloads(updates)))];
      case None =>
        // calling the missing callback throws after the queue was cleared
    }

    method IsConnected() returns (r: bool)
      ensures r <==> eventSource.Some? && eventSource.value.ready == Open
    {
      r := eventSource.Some? && eventSource.value.ready == Open;
    }

    method Disconnect()
      requires Valid()
      modifies this
      ensures Valid() && Abs() == AfterDisconnect(old(Abs()))
    {
      ghost var s := Abs();
      StepInv(s, DisconnectCall);
      if eventSource.Some? {
        eventSource := None;
      }
      if debounceTimer.Some? {
        timers := timers - {debounceTimer.value};
        debounceTimer := None;
      }
      updateQueue := [];
    }

    /** The browser runs a due timer callback. */
    method FireTimer(id: nat)
      requires Valid() && Enabled(Abs(), TimerFires(id))
      modifies this
      ensures Valid() && Abs() == AfterTimer(old(Abs()), id)
    {
      ghost var s := Abs();
      FireInv(s, id);
      var action := timers[id].action;
      timers := timers - {id};
      match action
      case CallFlush => FlushUpdates();
      case CallReconnect => Reconnect();
      case CallConnect => Connect(lastOnMessage);
    }

    /** The browser's clock moves on, up to the earliest pending timer. */
    method AdvanceClock(t: nat)
      requires Valid() && Enabled(Abs(), ClockAdvance(t))
      modifies this
      ensures Valid() && Abs() == old(Abs()).(now := t)
    {
      now := t;
    }
  }
}
