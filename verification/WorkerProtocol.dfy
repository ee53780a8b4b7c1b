/**
 The worker loop, the request handlers and the hub as one interleaving transition system.

 A step runs from one `await` to the next. The socket, the outbound queue, the wire to the
 hub, lost connections, hijack leases and the order in which tasks finish are all chosen by
 the environment.
 */
module WorkerProtocol {
  import opened Options
  import opened Text
  import opened DemoSession

  type Frame = string

  // ---- The receive side: one long-lived read of the socket ----

  datatype Recv = NoRecv | Reading | Read(frame: Frame)

  /** `arrived`, `fed` and `started` record, for one connection, what came in, what was decoded and how many reads began. */
  datatype Inbox = Inbox(recv: Recv, socket: seq<Frame>, arrived: seq<Frame>, fed: seq<Frame>, started: nat)

  const EMPTY_INBOX := Inbox(NoRecv, [], [], [], 0)

  /** The loop creates a read only when it holds none. */
  function ReadStarted(i: Inbox): Inbox {
    if i.recv == NoRecv then i.(recv := Reading, started := i.started + 1) else i
  }

  function FrameIn(i: Inbox, frame: Frame): Inbox {
    i.(socket := i.socket + [frame], arrived := i.arrived + [frame])
  }

  function ReadFinished(i: Inbox): Inbox
    requires i.socket != []
  {
    i.(recv := Read(i.socket[0]), socket := i.socket[1..])
  }

  function FrameTaken(i: Inbox): Inbox
    requires i.recv.Read?
  {
    i.(recv := NoRecv, fed := i.fed + [i.recv.frame])
  }

  function Held(recv: Recv): seq<Frame> {
    if recv.Read? then [recv.frame] else []
  }

  /** Decoded, then held, then unread: exactly what arrived. At most one read is outstanding. */
  predicate EveryFrameOnce(i: Inbox) {
    && i.fed + Held(i.recv) + i.socket == i.arrived
    && i.started == |i.fed| + (if i.recv == NoRecv then 0 else 1)
  }

  lemma InboxStepsKeepFrames(i: Inbox, frame: Frame)
    requires EveryFrameOnce(i)
    ensures EveryFrameOnce(ReadStarted(i)) && EveryFrameOnce(FrameIn(i, frame))
    ensures i.recv == Reading && i.socket != [] ==> EveryFrameOnce(ReadFinished(i))
    ensures i.recv.Read? ==> EveryFrameOnce(FrameTaken(i))
  {
    assert i.fed + Held(i.recv) + (i.socket + [frame]) == i.fed + Held(i.recv) + i.socket + [frame];
    if i.recv == Reading && i.socket != [] {
      assert i.fed + [i.socket[0]] + i.socket[1..] == i.fed + [] + i.socket;
    }
    if i.recv.Read? {
      assert i.fed + [i.recv.frame] + [] + i.socket == i.fed + [i.recv.frame] + i.socket;
    }
  }

  // ---- The send side: the queue and the read of it ----

  datatype Get = NoGet | Getting | Got(message: Message)

  /** `enqueued` and `drained` record what was put on this connection's queue and what was sent from it. */
  datatype Outbox = Outbox(queue: Option<seq<Message>>, get: Get, enqueued: seq<Message>, drained: seq<Message>)

  const NO_OUTBOX := Outbox(None, NoGet, [], [])

  function Enqueued(o: Outbox, messages: seq<Message>): Outbox {
    if o.queue == None then o
    else o.(queue := Some(o.queue.value + messages), enqueued := o.enqueued + messages)
  }

  function GetFinished(o: Outbox): Outbox
    requires o.queue.Some? && o.queue.value != []
  {
    o.(get := Got(o.queue.value[0]), queue := Some(o.queue.value[1..]))
  }

  /** A cancelled queue read takes nothing with it. */
  function GetCancelled(o: Outbox): Outbox {
    if o.get.Got? then o else o.(get := NoGet)
  }

  /** A queued announcement is rendered again from the live session; anything else goes out as built. */
  function Refreshed(s: Session, message: Message): Message {
    if message.Hello? then Hello(s.mode) else message
  }

  function Drained(o: Outbox, s: Session): Outbox
    requires o.get.Got?
  {
    o.(get := NoGet, drained := o.drained + [Refreshed(s, o.get.message)])
  }

  /** A message up to the mode a hello carries. */
  function Shape(message: Message): Message {
    if message.Hello? then Hello(Hijack) else message
  }

  function Shapes(messages: seq<Message>): (r: seq<Message>) {
    seq(|messages|, i requires 0 <= i < |messages| => Shape(messages[i]))
  }

  function InHand(get: Get): seq<Message> {
    if get.Got? then [get.message] else []
  }

  /** Sent, then in hand, then queued: what was enqueued, in order, up to re-rendered hellos. */
  predicate NothingLost(o: Outbox) {
    o.queue.Some? ==> Shapes(o.drained) + Shapes(InHand(o.get)) + Shapes(o.queue.value) == Shapes(o.enqueued)
  }

  lemma ShapesConcat(a: seq<Message>, b: seq<Message>)
    ensures Shapes(a + b) == Shapes(a) + Shapes(b)
  {
  }

  lemma OutboxStepsLoseNothing(o: Outbox, messages: seq<Message>, s: Session)
    requires NothingLost(o)
    ensures NothingLost(Enqueued(o, messages)) && NothingLost(GetCancelled(o))
    ensures o.get == Getting && o.queue.Some? && o.queue.value != [] ==> NothingLost(GetFinished(o))
    ensures o.get.Got? ==> NothingLost(Drained(o, s))
  {
    if o.queue.Some? {
      var queue := o.queue.value;
      ShapesConcat(queue, messages);
      ShapesConcat(o.enqueued, messages);
      if queue != [] {
        ShapesConcat([queue[0]], queue[1..]);
        assert [queue[0]] + queue[1..] == queue;
      }
      if o.get.Got? {
        ShapesConcat(o.drained, [Refreshed(s, o.get.message)]);
        assert Shapes([Refreshed(s, o.get.message)]) == Shapes([o.get.message]);
      }
    }
  }

  // ---- The hub's input mode ----

  /** A plain register takes every hello; the shipped hub decides whether a hello may lower the mode. */
  datatype HubKind = Register | Deciding

  /** `standing`: the last hello was refused and no mode has been accepted since. */
  datatype Hub = Hub(kind: HubKind, mode: Mode, decided: bool, leased: bool, standing: bool)

  /** A hello may raise the mode; it may not lower one that is decided or leased. */
  predicate RefusesHello(h: Hub, mode: Mode) {
    h.kind == Deciding && mode == Open && h.mode == Hijack && (h.decided || h.leased)
  }

  function HelloTaken(h: Hub, mode: Mode): Hub {
    if RefusesHello(h, mode) then h.(standing := true)
    else h.(mode := mode, decided := h.decided && mode == h.mode, standing := false)
  }

  /** A direct sync may be refused for any reason, and must be when it would open a leased session. */
  predicate MaySync(h: Hub, mode: Mode, accepted: bool) {
    accepted && h.kind == Deciding && mode == Open ==> !h.leased
  }

  function Synced(h: Hub, mode: Mode, accepted: bool): Hub {
    if accepted then h.(mode := mode, decided := true, standing := false) else h
  }

  // ---- The whole system ----

  datatype Event =
    | SnapshotRequest
    | AnalysisRequest
    | Control(action: string)
    | Input(data: string)
    | Other

  /** Where the worker is waiting. */
  datatype Place =
    | Down
    | Greeting
    | LoopTop
    | Awaiting
    | Handling(events: seq<Event>)
    | Releasing(data: string, rest: seq<Event>)
    | Replying(unsent: seq<Message>, sync: bool, rest: seq<Event>)
    | Syncing(target: Mode, rest: seq<Event>)

  /** Where one mode request is waiting. */
  datatype Handler =
    | FreeingLease
    | SyncingHub(target: Mode, messages: seq<Message>)
    | Announcing(messages: seq<Message>)
    | Responded

  /**
   For one connection: what the decoder produced, what the worker has acted on, and how long
   the session's history was when the connection began.
   */
  datatype Progress = Progress(decoded: seq<Event>, served: seq<Event>, since: nat)

  datatype State = State(
    session: Session,
    past: seq<Happening>,
    place: Place,
    progress: Progress,
    inbox: Inbox,
    outbox: Outbox,
    wire: seq<Message>,
    hub: Hub,
    handlers: seq<Handler>)

  datatype Action =
    // the worker
    | Connect
    | SendFirstSnapshot
    | StartWait
    | Wake(decoded: Option<seq<Event>>)
    | HandleNext
    | FinishRelease(released: bool)
    | SendNext
    | FinishSync(accepted: bool)
    | Lose
    // its two tasks and the socket
    | FrameArrives(frame: Frame)
    | FinishRead
    | FinishGet
    // the hub
    | Deliver
    | Lease(held: bool)
    | Forget
    // the endpoints
    | PostMode(payload: string)
    | HandlerFrees(id: nat, released: bool)
    | HandlerSyncs(id: nat, ok: bool)
    | HandlerAnnounces(id: nat)
    | PostReset

  predicate Init(s: State) {
    && s.session == NewSession() && s.past == [] && s.place == Down
    && s.progress == Progress([], [], 0) && s.inbox == EMPTY_INBOX && s.outbox == NO_OUTBOX
    && s.wire == [] && s.handlers == []
    && !s.hub.standing
  }

  function Requested(payload: string): Option<Mode> {
    ModeNamed(Lower(Strip(payload)))
  }

  predicate Enabled(s: State, a: Action) {
    match a
    case Connect => s.place == Down
    case SendFirstSnapshot => s.place == Greeting
    case StartWait => s.place == LoopTop
    case Wake(_) => s.place == Awaiting
    case HandleNext => s.place.Handling?
    case FinishRelease(_) => s.place.Releasing?
    case SendNext => s.place.Replying?
    case FinishSync(accepted) => s.place.Syncing? && MaySync(s.hub, s.place.target, accepted)
    case Lose => s.place != Down
    case FrameArrives(_) => s.place != Down
    case FinishRead => s.inbox.recv == Reading && s.inbox.socket != []
    case FinishGet => s.outbox.get == Getting && s.outbox.queue.Some? && s.outbox.queue.value != []
    case Deliver => s.wire != []
    case Lease(_) => true
    case Forget => s.place == Down
    case PostMode(payload) => Requested(payload).Some?
    case HandlerFrees(id, _) => id < |s.handlers| && s.handlers[id].FreeingLease?
    case HandlerSyncs(id, ok) =>
      id < |s.handlers| && s.handlers[id].SyncingHub? && MaySync(s.hub, s.handlers[id].target, ok)
    case HandlerAnnounces(id) => id < |s.handlers| && s.handlers[id].Announcing?
    case PostReset => true
  }

  function Enacted(s: State, act: Act): State {
    s.(session := Performed(s.session, act), past := s.past + [Happening(s.session, act)])
  }

  /** Hand one message to `ws.send`. */
  function Handed(s: State, message: Message): State {
    s.(wire := s.wire + [message])
  }

  function Serving(s: State, event: Event): State {
    s.(progress := s.progress.(served := s.progress.served + [event]))
  }

  function Decoding(s: State, events: seq<Event>): State {
    s.(progress := s.progress.(decoded := s.progress.decoded + events), place := Handling(events))
  }

  /** A new connection: an empty queue, nothing read, and a hello before anything else. */
  function Connected(s: State): State {
    var live := s.session.(connected := true);
    s.(session := live, place := Greeting, progress := Progress([], [], |s.past|), inbox := EMPTY_INBOX, outbox := NO_OUTBOX.(queue := Some([])),
       wire := [Hello(live.mode)])
  }

  /** The loop body after `asyncio.wait`, for whichever tasks are done by then. */
  function Woken(s: State, decoded: Option<seq<Event>>): State {
    var outbox := GetCancelled(s.outbox);
    if !s.inbox.recv.Read? && !outbox.get.Got? then
      Handed(s.(outbox := outbox, place := LoopTop), Snapshot(s.session))
    else if outbox.get.Got? then
      Handed(s.(outbox := Drained(outbox, s.session), place := LoopTop), Refreshed(s.session, outbox.get.message))
    else
      var t := s.(outbox := outbox, inbox := FrameTaken(s.inbox));
      match decoded
      case None => t.(place := LoopTop)
      case Some(events) => Decoding(t, events)
  }

  predicate IsExactModeCommand(data: string) {
    Normalized(data) in {"/mode open", "/mode hijack"}
  }

  /** Apply an input and hand over the first message of its reply, all before the next await. */
  function Answered(s: State, data: string, rest: seq<Event>): State {
    var messages := InputApplied(s.session, data).messages;
    Handed(Enacted(Serving(s, Input(data)), Typed(data)), messages[0]).(place := Replying(messages[1..], IsExactModeCommand(data), rest))
  }

  function Handled(s: State): State
    requires s.place.Handling?
  {
    if s.place.events == [] then s.(place := LoopTop)
    else
      var event, rest := s.place.events[0], s.place.events[1..];
      var served := Serving(s, event).(place := Handling(rest));
      match event
      case SnapshotRequest => Handed(served, Snapshot(s.session))
      case AnalysisRequest => Handed(served, Analysis(s.session))
      case Control(action) =>
        var t := Enacted(served, Controlled(action));
        Handed(t, Snapshot(t.session))
      case Input(data) =>
        if Normalized(data) == "/mode open" then s.(place := Releasing(data, rest)) else Answered(s, data, rest)
      case Other => served
  }

  function Sent(s: State): State
    requires s.place.Replying?
  {
    var Replying(unsent, sync, rest) := s.place;
    if unsent != [] then Handed(s, unsent[0]).(place := Replying(unsent[1..], sync, rest))
    else if sync then s.(place := Syncing(s.session.mode, rest))
    else s.(place := Handling(rest))
  }

  function Lost(s: State): State {
    s.(session := s.session.(connected := false), place := Down, outbox := NO_OUTBOX, inbox := EMPTY_INBOX)
  }

  /** Set the mode and build the announcement; the next await is the hub sync. */
  function ModeSet(s: State, id: nat, mode: Mode): State
    requires id < |s.handlers|
  {
    var t := Enacted(s, SetOverHttp(mode));
    t.(handlers := t.handlers[id := SyncingHub(mode, StateUpdate(t.session))])
  }

  /** A request for shared input frees any lease first; the other sets the mode at once. */
  function Posted(s: State, mode: Mode): State {
    var t := s.(handlers := s.handlers + [FreeingLease]);
    if mode == Open then t else ModeSet(t, |s.handlers|, mode)
  }

  function ResetPosted(s: State): State {
    var t := Enacted(s, ResetOverHttp);
    t.(outbox := Enqueued(t.outbox, StateUpdate(t.session)))
  }

  function WorkerDone(s: State, a: Action): State
    requires Enabled(s, a)
  {
    match a
    case Connect => Connected(s)
    case SendFirstSnapshot => Handed(s, Snapshot(s.session)).(place := LoopTop)
    case StartWait => s.(place := Awaiting, inbox := ReadStarted(s.inbox), outbox := s.outbox.(get := Getting))
    case Wake(decoded) => Woken(s, decoded)
    case HandleNext => Handled(s)
    case FinishRelease(released) =>
      Answered(if released then Enacted(s, Released) else s, s.place.data, s.place.rest)
    case SendNext => Sent(s)
    case FinishSync(accepted) => s.(hub := Synced(s.hub, s.place.target, accepted), place := Handling(s.place.rest))
    case Lose => Lost(s)
    case _ => s
  }

  function Done(s: State, a: Action): State
    requires Enabled(s, a)
  {
    match a
    case FrameArrives(frame) => s.(inbox := FrameIn(s.inbox, frame))
    case FinishRead => s.(inbox := ReadFinished(s.inbox))
    case FinishGet => s.(outbox := GetFinished(s.outbox))
    case Deliver =>
      s.(wire := s.wire[1..], hub := if s.wire[0].Hello? then HelloTaken(s.hub, s.wire[0].mode) else s.hub)
    case Lease(held) => s.(hub := s.hub.(leased := held))
    case Forget => s.(wire := [], hub := Hub(s.hub.kind, Hijack, false, false, false))
    case PostMode(payload) => Posted(s, Requested(payload).value)
    case HandlerFrees(id, released) => ModeSet(if released then Enacted(s, Released) else s, id, Open)
    case HandlerSyncs(id, ok) =>
      var h := s.handlers[id];
      s.(hub := Synced(s.hub, h.target, ok), handlers := s.handlers[id := Announcing(h.messages)])
    case HandlerAnnounces(id) =>
      s.(outbox := Enqueued(s.outbox, s.handlers[id].messages), handlers := s.handlers[id := Responded])
    case PostReset => ResetPosted(s)
    case _ => WorkerDone(s, a)
  }

  /** The state after a schedule, or nothing if some step of it could not happen. */
  function After(s: State, schedule: seq<Action>): Option<State> {
    if schedule == [] then Some(s)
    else
      var last := |schedule| - 1;
      match After(s, schedule[..last])
      case Some(t) => if Enabled(t, schedule[last]) then Some(Done(t, schedule[last])) else None
      case None => None
  }
}
