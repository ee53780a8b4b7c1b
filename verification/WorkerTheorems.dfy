/** The guarantees of the worker protocol over whole runs. */
module WorkerTheorems {
  import opened Options
  import opened DemoSession
  import opened SessionHistory
  import opened WorkerProtocol
  import opened WorkerGuarantees
  import opened WorkerEvents
  import opened WorkerRecord

  // ---- Everything every step keeps ----

  predicate Invariant(s: State) {
    && Tidy(s)
    && ModeKept(s)
    && EveryFrameOnce(s.inbox)
    && NothingLost(s.outbox)
    && EveryEventOnce(s)
    && Explained(s.session, s.past)
  }

  lemma KeepsFrames(s: State, a: Action)
    requires EveryFrameOnce(s.inbox) && Enabled(s, a)
    ensures EveryFrameOnce(Done(s, a).inbox)
  {
    InboxStepsKeepFrames(s.inbox, if a.FrameArrives? then a.frame else "");
  }

  lemma KeepsMessages(s: State, a: Action)
    requires Tidy(s) && NothingLost(s.outbox) && Enabled(s, a)
    ensures NothingLost(Done(s, a).outbox)
  {
    var messages :=
      if a.HandlerAnnounces? then s.handlers[a.id].messages
      else StateUpdate(Performed(s.session, ResetOverHttp));
    OutboxStepsLoseNothing(s.outbox, messages, s.session);
  }

  lemma AnsweringKeepsHistory(s: State, data: string, rest: seq<Event>)
    requires Explained(s.session, s.past)
    ensures Explained(Answered(s, data, rest).session, Answered(s, data, rest).past)
  {
    ActsKeepHistoryExplained(s.session, s.past, Typed(data));
  }

  lemma EnactingKeepsHistory(s: State, act: Act)
    requires Explained(s.session, s.past)
    ensures Explained(Enacted(s, act).session, Enacted(s, act).past)
  {
    ActsKeepHistoryExplained(s.session, s.past, act);
  }

  lemma HandledKeepsHistory(s: State)
    requires s.place.Handling? && Explained(s.session, s.past)
    ensures Explained(Handled(s).session, Handled(s).past)
  {
    if s.place.events != [] {
      match s.place.events[0] {
        case Control(action) => EnactingKeepsHistory(s, Controlled(action));
        case Input(data) => AnsweringKeepsHistory(s, data, s.place.events[1..]);
        case _ =>
      }
    }
  }

  lemma WorkerKeepsHistory(s: State, a: Action)
    requires Enabled(s, a) && Explained(s.session, s.past)
    ensures Explained(WorkerDone(s, a).session, WorkerDone(s, a).past)
  {
    match a {
      case HandleNext => HandledKeepsHistory(s);
      case FinishRelease(released) =>
        EnactingKeepsHistory(s, Released);
        AnsweringKeepsHistory(if released then Enacted(s, Released) else s, s.place.data, s.place.rest);
      case _ =>
    }
  }

  lemma KeepsHistory(s: State, a: Action)
    requires Enabled(s, a) && Explained(s.session, s.past)
    ensures Explained(Done(s, a).session, Done(s, a).past)
  {
    match a {
      case PostMode(payload) => EnactingKeepsHistory(s, SetOverHttp(Requested(payload).value));
      case HandlerFrees(id, released) =>
        EnactingKeepsHistory(s, Released);
        EnactingKeepsHistory(if released then Enacted(s, Released) else s, SetOverHttp(Open));
      case PostReset => EnactingKeepsHistory(s, ResetOverHttp);
      case _ => WorkerKeepsHistory(s, a);
    }
  }

  lemma StepKeepsInvariant(s: State, a: Action)
    requires Invariant(s) && Enabled(s, a)
    ensures Invariant(Done(s, a))
  {
    StaysTidy(s, a);
    KeepsMode(s, a);
    KeepsFrames(s, a);
    KeepsMessages(s, a);
    ServesOnce(s, a);
    KeepsHistory(s, a);
  }

  lemma {:induction false} RunKeepsInvariant(s: State, schedule: seq<Action>, t: State)
    requires Invariant(s) && After(s, schedule) == Some(t)
    ensures Invariant(t)
  {
    if schedule != [] {
      var last := |schedule| - 1;
      var u := After(s, schedule[..last]).value;
      RunKeepsInvariant(s, schedule[..last], u);
      StepKeepsInvariant(u, schedule[last]);
    }
  }

  lemma InitIsInvariant(s: State)
    requires Init(s)
    ensures Invariant(s)
  {
    assert TurnsSinceReset([]) == 0 && WrittenSinceClear([]) == OPENING;
    assert s.past[0..] == [];
  }

  /** Every invariant holds in every reachable state. */
  lemma ReachableIsInvariant(s: State, schedule: seq<Action>, t: State)
    requires Init(s) && After(s, schedule) == Some(t)
    ensures Invariant(t)
  {
    InitIsInvariant(s);
    RunKeepsInvariant(s, schedule, t);
  }

  /**
   Exactly-once, in-order receive: on the current connection the frames the schedule has
   decoded, the frame a finished read holds and the frames still in the socket are the frames
   the schedule brought, and one read was begun for each decoded frame and at most one more.
   */
  lemma EveryFrameIsReadOnceInOrder(s: State, schedule: seq<Action>, t: State)
    requires Init(s) && After(s, schedule) == Some(t) && t.place != Down
    ensures var r := RecordOf(s, schedule);
            && r.fed + Held(t.inbox.recv) + t.inbox.socket == r.arrived
            && |r.fed| <= t.inbox.started <= |r.fed| + 1
  {
    ReachableIsInvariant(s, schedule, t);
    RecordsAreTrue(s, schedule, t);
  }

  /**
   And acted on exactly once, in order: on the current connection the events acted on and
   those of the batch in hand are the ones the schedule's decodings gave, and the inputs and
   controls acted on are, in order, the worker's acts in the session's history since it connected.
   */
  lemma EveryEventIsActedOnOnce(s: State, schedule: seq<Action>, t: State)
    requires Init(s) && After(s, schedule) == Some(t) && t.place != Down
    ensures t.progress.served + Pending(t.place) == RecordOf(s, schedule).decoded
    ensures t.progress.since <= |t.past| && ActsOf(t.progress.served) == WorkerActs(t.past[t.progress.since..])
  {
    ReachableIsInvariant(s, schedule, t);
    RecordsAreTrue(s, schedule, t);
  }

  /**
   Outbound conservation: on the current connection the messages sent from the queue, the one in
   hand and those still queued are the ones the endpoints enqueued, in order, up to re-rendered hellos.
   */
  lemma NoQueuedMessageIsLost(s: State, schedule: seq<Action>, t: State)
    requires Init(s) && After(s, schedule) == Some(t) && t.place != Down
    ensures t.outbox.queue.Some?
    ensures Shapes(t.outbox.drained) + Shapes(InHand(t.outbox.get)) + Shapes(t.outbox.queue.value)
         == Shapes(RecordOf(s, schedule).enqueued)
  {
    ReachableIsInvariant(s, schedule, t);
    RecordsAreTrue(s, schedule, t);
  }

  /** Every field of the session is what its history says, and the history is what the schedule did. */
  lemma SessionMatchesItsHistory(s: State, schedule: seq<Action>, t: State)
    requires Init(s) && After(s, schedule) == Some(t)
    ensures t.session.turns == TurnsSinceReset(t.past)
    ensures t.session.transcript == LastTen(WrittenSinceClear(t.past))
    ensures t.session.paused == PausedBy(t.past) && t.session.mode == ModeBy(t.past)
    ensures t.session.nickname == NickBy(t.past) && t.session.lastCommand == LastCommandBy(t.past)
    ensures t.session.statusLine == if t.session.paused then "Paused for hijack" else "Live"
    ensures t.session.connected <==> t.place != Down
    ensures ActsIn(t.past) == RecordOf(s, schedule).acts
  {
    ReachableIsInvariant(s, schedule, t);
    HistoryIsTheSchedule(s, schedule, t);
  }

  // ---- Hello freshness ----

  /** The messages on the wire before the step that the step leaves there. */
  function Carried(s: State, a: Action): seq<Message> {
    match a
    case Connect => []
    case Forget => []
    case Deliver => if s.wire == [] then [] else s.wire[1..]
    case _ => s.wire
  }

  /** The rest of the wire after a step is what the step handed to `ws.send`. */
  predicate HandsOverLiveHellos(s: State, a: Action, t: State) {
    && Carried(s, a) <= t.wire
    && forall i :: |Carried(s, a)| <= i < |t.wire| && t.wire[i].Hello? ==> t.wire[i].mode == t.session.mode
  }

  lemma OneMessageIsLive(s: State, a: Action, t: State, m: Message)
    requires Carried(s, a) == s.wire && t.wire == s.wire + [m] && (m.Hello? ==> m.mode == t.session.mode)
    ensures HandsOverLiveHellos(s, a, t)
  {
  }

  lemma AnsweredIsLive(s: State, from: State, a: Action, data: string, rest: seq<Event>)
    requires Carried(s, a) == s.wire == from.wire
    ensures HandsOverLiveHellos(s, a, Answered(from, data, rest))
  {
    ReplyShape(from.session, data);
    OneMessageIsLive(s, a, Answered(from, data, rest), InputApplied(from.session, data).messages[0]);
  }

  lemma HandledIsLive(s: State)
    requires s.place.Handling?
    ensures HandsOverLiveHellos(s, HandleNext, Handled(s))
  {
    if s.place.events != [] && s.place.events[0].Input? {
      AnsweredIsLive(s, s, HandleNext, s.place.events[0].data, s.place.events[1..]);
    }
  }

  lemma SentIsLive(s: State)
    requires Tidy(s) && s.place.Replying?
    ensures HandsOverLiveHellos(s, SendNext, Sent(s))
  {
    if s.place.unsent != [] {
      LastHelloTail(s.place.unsent);
      OneMessageIsLive(s, SendNext, Sent(s), s.place.unsent[0]);
    }
  }

  lemma WorkerHandsOverLiveHellos(s: State, a: Action)
    requires Tidy(s) && Enabled(s, a) && !a.Deliver? && !a.Forget?
    ensures HandsOverLiveHellos(s, a, WorkerDone(s, a))
  {
    match a {
      case HandleNext => HandledIsLive(s);
      case FinishRelease(released) =>
        AnsweredIsLive(s, if released then Enacted(s, Released) else s, a, s.place.data, s.place.rest);
      case SendNext => SentIsLive(s);
      case _ =>
    }
  }

  /** Hello freshness: whenever any step hands over a hello, it carries the live mode. */
  lemma EveryHelloIsLiveWhenSent(s: State, schedule: seq<Action>, t: State, a: Action)
    requires Init(s) && After(s, schedule) == Some(t) && Enabled(t, a)
    ensures HandsOverLiveHellos(t, a, Done(t, a))
  {
    ReachableIsInvariant(s, schedule, t);
    match a {
      case FrameArrives(_) => case FinishRead => case FinishGet => case Deliver => case Lease(_) =>
      case Forget => case PostMode(_) => case HandlerFrees(_, _) => case HandlerSyncs(_, _) =>
      case HandlerAnnounces(_) => case PostReset =>
      case _ => WorkerHandsOverLiveHellos(t, a);
    }
  }

  /** What the worker drains from the queue is what it hands over. */
  lemma DrainedMessageIsHandedOver(s: State, decoded: Option<seq<Event>>)
    requires s.place == Awaiting && s.outbox.get.Got?
    ensures var t := Done(s, Wake(decoded));
            && t.outbox.drained == s.outbox.drained + t.wire[|s.wire|..]
            && Shapes(t.wire[|s.wire|..]) == Shapes([s.outbox.get.message])
            && t.inbox == s.inbox
  {
    var sent := Done(s, Wake(decoded)).wire[|s.wire|..];
    assert sent == [Refreshed(s.session, s.outbox.get.message)];
  }

  // ---- Mode convergence ----

  /** Connected, with no announcement left anywhere and no hub sync of the worker's own in flight. */
  predicate Announced(s: State) {
    s.place != Down && !s.place.Syncing? && !Owed(s) && LastHello(s.wire) == None
  }

  /** Connected and idle: queue and wire empty, no handler between its mode change and its enqueue. */
  predicate Quiescent(s: State) {
    && s.place == Awaiting && s.outbox.get == Getting && s.outbox.queue == Some([])
    && s.wire == [] && !HandlerOwes(s)
  }

  lemma StepKeepsHubKind(s: State, a: Action)
    requires Enabled(s, a)
    ensures Done(s, a).hub.kind == s.hub.kind
  {
  }

  lemma {:induction false} HubKindIsFixed(s: State, schedule: seq<Action>, t: State)
    requires After(s, schedule) == Some(t)
    ensures t.hub.kind == s.hub.kind
  {
    if schedule != [] {
      var last := |schedule| - 1;
      var u := After(s, schedule[..last]).value;
      HubKindIsFixed(s, schedule[..last], u);
      StepKeepsHubKind(u, schedule[last]);
    }
  }

  /**
   Mode convergence. Whatever the interleaving of worker, endpoints, in-flight hellos,
   refused syncs, lost connections and reconnects, once every announcement has reached the
   hub its mode is the session's, exactly unless it is standing on a hello it refused.
   */
  lemma HubConvergesUnlessItRefused(s: State, schedule: seq<Action>, t: State)
    requires Init(s) && After(s, schedule) == Some(t) && Announced(t)
    ensures t.hub.mode == t.session.mode <==> !t.hub.standing
    ensures t.hub.mode != t.session.mode ==> t.hub.mode == Hijack && t.session.mode == Open
  {
    ReachableIsInvariant(s, schedule, t);
  }

  /** A hub that takes every hello always ends in the session's mode, refused syncs or not. */
  lemma RegisterHubConverges(s: State, schedule: seq<Action>, t: State)
    requires Init(s) && s.hub.kind == Register
    requires After(s, schedule) == Some(t) && Quiescent(t)
    ensures t.hub.mode == t.session.mode
  {
    ReachableIsInvariant(s, schedule, t);
    HubKindIsFixed(s, schedule, t);
  }

  /** The step does not bring an `open` hello to a hub held in `hijack` by a decision or a lease. */
  predicate LowersNothing(s: State, a: Action) {
    a.Deliver? && s.wire != [] && s.wire[0].Hello? ==> !RefusesHello(s.hub, s.wire[0].mode)
  }

  predicate RunLowersNothing(s: State, schedule: seq<Action>) {
    schedule == [] ||
    var last := |schedule| - 1;
    && RunLowersNothing(s, schedule[..last])
    && (After(s, schedule[..last]).Some? ==> LowersNothing(After(s, schedule[..last]).value, schedule[last]))
  }

  lemma StepRefusesNothing(s: State, a: Action)
    requires !s.hub.standing && Enabled(s, a) && LowersNothing(s, a)
    ensures !Done(s, a).hub.standing
  {
  }

  lemma {:induction false} NothingRefused(s: State, schedule: seq<Action>, t: State)
    requires !s.hub.standing && After(s, schedule) == Some(t) && RunLowersNothing(s, schedule)
    ensures !t.hub.standing
  {
    if schedule != [] {
      var last := |schedule| - 1;
      var u := After(s, schedule[..last]).value;
      NothingRefused(s, schedule[..last], u);
      StepRefusesNothing(u, schedule[last]);
    }
  }

  /** The shipped hub converges on every run that never asks a hello to lower a decided or leased mode. */
  lemma DecidingHubConverges(s: State, schedule: seq<Action>, t: State)
    requires Init(s) && After(s, schedule) == Some(t) && Quiescent(t)
    requires RunLowersNothing(s, schedule)
    ensures t.hub.mode == t.session.mode
  {
    NothingRefused(s, schedule, t);
    HubConvergesUnlessItRefused(s, schedule, t);
  }

  lemma Extend(s: State, schedule: seq<Action>, t: State, a: Action)
    requires After(s, schedule) == Some(t) && Enabled(t, a)
    ensures After(s, schedule + [a]) == Some(Done(t, a))
  {
    assert (schedule + [a])[..|schedule|] == schedule;
  }

  lemma {:induction false} Continue(s: State, first: seq<Action>, t: State, second: seq<Action>)
    requires After(s, first) == Some(t)
    ensures After(s, first + second) == After(t, second)
  {
    if second == [] {
      assert first + second == first;
    } else {
      var last := |second| - 1;
      assert (first + second)[..|first| + last] == first + second[..last];
      Continue(s, first, t, second[..last]);
    }
  }
}
