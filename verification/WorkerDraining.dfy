/** Draining: left alone, a connected system comes to rest, with everything read and agreed. */
module WorkerDraining {
  import opened Options
  import opened DemoSession
  import opened WorkerProtocol
  import opened WorkerGuarantees
  import opened WorkerEvents
  import opened WorkerTheorems

  /** The steps that need nothing new from outside. */
  predicate Internal(s: State, a: Action) {
    match a
    case Wake(_) => s.outbox.get.Got? || s.inbox.recv.Read?
    case SendFirstSnapshot => true
    case StartWait => true
    case HandleNext => true
    case FinishRelease(_) => true
    case SendNext => true
    case FinishSync(_) => true
    case FinishRead => true
    case FinishGet => true
    case Deliver => true
    case HandlerSyncs(_, _) => true
    case HandlerAnnounces(_) => true
    case _ => false
  }

  /** Idle, with no frame held or left in the socket. */
  predicate Idle(s: State) {
    Quiescent(s) && s.inbox.recv == Reading && s.inbox.socket == []
  }

  function PlaceWork(p: Place): nat {
    match p
    case Down => 0
    case Greeting => 3
    case LoopTop => 1
    case Awaiting => 0
    case Handling(events) => 2 + 10 * |events|
    case Releasing(_, rest) => 10 + 10 * |rest|
    case Replying(unsent, sync, rest) => 3 + 2 * |unsent| + (if sync then 2 else 0) + 10 * |rest|
    case Syncing(_, rest) => 4 + 10 * |rest|
  }

  function HandlerWork(h: Handler): nat {
    match h
    case FreeingLease => 0
    case SyncingHub(_, messages) => 2 + 4 * |messages|
    case Announcing(messages) => 1 + 4 * |messages|
    case Responded => 0
  }

  function HandlersWork(hs: seq<Handler>): nat {
    if hs == [] then 0 else HandlerWork(hs[0]) + HandlersWork(hs[1..])
  }

  function OutboxWork(o: Outbox): nat {
    (if o.get.Got? then 3 else 0) + (if o.queue.Some? then 4 * |o.queue.value| else 0)
  }

  function InboxWork(i: Inbox): nat {
    4 * |i.socket| + (if i.recv.Read? then 3 else 0)
  }

  /** An upper bound on the internal steps left, but for the events still to be decoded. */
  function Work(s: State): nat {
    PlaceWork(s.place) + InboxWork(s.inbox) + OutboxWork(s.outbox) + |s.wire| + HandlersWork(s.handlers)
  }

  lemma {:induction false} HandlerStepWork(hs: seq<Handler>, i: nat, h: Handler)
    requires i < |hs|
    ensures HandlersWork(hs[i := h]) + HandlerWork(hs[i]) == HandlersWork(hs) + HandlerWork(h)
  {
    if i == 0 {
      assert hs[0 := h][1..] == hs[1..];
    } else {
      assert hs[i := h][1..] == hs[1..][i - 1 := h];
      HandlerStepWork(hs[1..], i - 1, h);
    }
  }

  lemma AnsweredUsesWork(s: State, data: string, rest: seq<Event>)
    ensures Work(Answered(s, data, rest))
         <= 8 + 10 * |rest| + InboxWork(s.inbox) + OutboxWork(s.outbox) + |s.wire| + HandlersWork(s.handlers)
  {
  }

  lemma RenderingUsesWork(s: State, t: State, rest: seq<Event>)
    requires s.place.Handling? && |s.place.events| == |rest| + 1
    requires t.place == Handling(rest) && |t.wire| <= |s.wire| + 1
    requires t.inbox == s.inbox && t.outbox == s.outbox && t.handlers == s.handlers
    ensures Work(t) < Work(s)
  {
  }

  lemma InputUsesWork(s: State, data: string, rest: seq<Event>)
    requires s.place.Handling? && |s.place.events| == |rest| + 1
    ensures Work(Answered(s, data, rest)) < Work(s)
    ensures Work(s.(place := Releasing(data, rest))) < Work(s)
  {
    AnsweredUsesWork(s, data, rest);
  }

  lemma HandledUsesWork(s: State)
    requires s.place.Handling?
    ensures Work(Handled(s)) < Work(s)
  {
    if s.place.events != [] {
      var rest := s.place.events[1..];
      match s.place.events[0] {
        case Input(data) => InputUsesWork(s, data, rest);
        case _ => RenderingUsesWork(s, Handled(s), rest);
      }
    }
  }

  /** The events a step's decoding adds. */
  function EventsDecoded(s: State, a: Action): nat
    requires Enabled(s, a)
  {
    match a
    case Wake(Some(events)) => if s.inbox.recv.Read? && !s.outbox.get.Got? then |events| else 0
    case _ => 0
  }

  lemma WokenUsesWork(s: State, decoded: Option<seq<Event>>)
    requires Enabled(s, Wake(decoded)) && Internal(s, Wake(decoded))
    ensures Work(Woken(s, decoded)) < Work(s) + 10 * EventsDecoded(s, Wake(decoded))
  {
  }

  lemma WorkerUsesWork(s: State, a: Action)
    requires Tidy(s) && Enabled(s, a) && Internal(s, a)
    requires !a.FinishRead? && !a.FinishGet? && !a.Deliver? && !a.HandlerSyncs? && !a.HandlerAnnounces?
    ensures Work(WorkerDone(s, a)) < Work(s) + 10 * EventsDecoded(s, a)
  {
    match a {
      case Wake(decoded) => WokenUsesWork(s, decoded);
      case HandleNext => HandledUsesWork(s);
      case FinishRelease(released) =>
        AnsweredUsesWork(if released then Enacted(s, Released) else s, s.place.data, s.place.rest);
      case _ =>
    }
  }

  lemma InternalStepUsesWork(s: State, a: Action)
    requires Tidy(s) && Enabled(s, a) && Internal(s, a)
    ensures Work(Done(s, a)) < Work(s) + 10 * EventsDecoded(s, a)
  {
    match a {
      case FinishRead => case FinishGet => case Deliver =>
      case HandlerSyncs(id, _) => HandlerStepWork(s.handlers, id, Announcing(s.handlers[id].messages));
      case HandlerAnnounces(id) => HandlerStepWork(s.handlers, id, Responded);
      case _ => WorkerUsesWork(s, a);
    }
  }

  lemma InternalStepDecodes(s: State, a: Action)
    requires Enabled(s, a) && Internal(s, a)
    ensures |Done(s, a).progress.decoded| == |s.progress.decoded| + EventsDecoded(s, a)
  {
  }

  lemma InternalStepStaysConnected(s: State, a: Action)
    requires Enabled(s, a) && Internal(s, a) && s.place != Down
    ensures Done(s, a).place != Down
  {
  }

  ghost predicate CanMove(s: State) {
    exists a :: Internal(s, a) && Enabled(s, a)
  }

  function WorkerMove(s: State): Action
    requires s.place != Down
  {
    match s.place
    case Greeting => SendFirstSnapshot
    case LoopTop => StartWait
    case Awaiting =>
      if s.outbox.get.Got? || s.inbox.recv.Read? then Wake(None)
      else if s.inbox.socket != [] then FinishRead
      else FinishGet
    case Handling(_) => HandleNext
    case Releasing(_, _) => FinishRelease(false)
    case Replying(_, _, _) => SendNext
    case Syncing(_, _) => FinishSync(false)
  }

  /** A connected state that is not idle always has a next internal step. */
  lemma NeverStuck(s: State)
    requires Tidy(s) && s.place != Down && !Idle(s)
    ensures CanMove(s)
  {
    var a: Action;
    if s.wire != [] {
      a := Deliver;
    } else if HandlerOwes(s) {
      var i :| 0 <= i < |s.handlers| && Owes(s.handlers[i]);
      a := if s.handlers[i].SyncingHub? then HandlerSyncs(i, false) else HandlerAnnounces(i);
    } else {
      a := WorkerMove(s);
    }
    assert Internal(s, a) && Enabled(s, a);
  }

  predicate AllInternal(s: State, schedule: seq<Action>) {
    schedule == [] ||
    var last := |schedule| - 1;
    && AllInternal(s, schedule[..last])
    && After(s, schedule[..last]).Some?
    && Internal(After(s, schedule[..last]).value, schedule[last])
  }

  /**
   Left alone, a connected system takes at most `Work` more steps, and ten for each event it
   decodes on the way, whichever it takes.
   */
  lemma {:induction false} InternalRunsEnd(s: State, schedule: seq<Action>, t: State)
    requires Invariant(s) && s.place != Down
    requires After(s, schedule) == Some(t) && AllInternal(s, schedule)
    ensures |s.progress.decoded| <= |t.progress.decoded| && t.place != Down
    ensures |schedule| + Work(t) <= Work(s) + 10 * (|t.progress.decoded| - |s.progress.decoded|)
  {
    if schedule != [] {
      var last := |schedule| - 1;
      var u := After(s, schedule[..last]).value;
      InternalRunsEnd(s, schedule[..last], u);
      RunKeepsInvariant(s, schedule[..last], u);
      InternalStepUsesWork(u, schedule[last]);
      InternalStepDecodes(u, schedule[last]);
      InternalStepStaysConnected(u, schedule[last]);
    }
  }

  lemma StoppedIsIdle(u: State)
    requires Tidy(u) && u.place != Down && !CanMove(u)
    ensures Idle(u)
  {
    if !Idle(u) {
      NeverStuck(u);
    }
  }

  lemma IdleAgrees(u: State)
    requires ModeKept(u) && Idle(u)
    ensures u.hub.mode == u.session.mode <==> !u.hub.standing
  {
  }

  lemma IdleHasReadAll(u: State)
    requires EveryFrameOnce(u.inbox) && EveryEventOnce(u) && Idle(u)
    ensures u.inbox.fed == u.inbox.arrived && u.progress.served == u.progress.decoded
  {
    assert u.inbox.fed + [] + [] == u.inbox.fed;
    assert u.progress.served + [] == u.progress.served;
  }

  /**
   From every reachable connected state, any internal run that cannot go on has ended idle,
   within the bound: every frame that arrived is decoded, every decoded event acted on, and
   the hub in the session's mode unless it stands on a refused hello.
   */
  lemma DrainingEndsInAgreement(s: State, schedule: seq<Action>, t: State, drain: seq<Action>, u: State)
    requires Init(s) && After(s, schedule) == Some(t) && t.place != Down
    requires After(t, drain) == Some(u) && AllInternal(t, drain)
    requires !CanMove(u)
    ensures |drain| <= Work(t) + 10 * (|u.progress.decoded| - |t.progress.decoded|) && Idle(u)
    ensures u.inbox.fed == u.inbox.arrived && u.progress.served == u.progress.decoded
    ensures u.hub.mode == u.session.mode <==> !u.hub.standing
  {
    ReachableIsInvariant(s, schedule, t);
    InternalRunsEnd(t, drain, u);
    RunKeepsInvariant(t, drain, u);
    StoppedIsIdle(u);
    IdleAgrees(u);
    IdleHasReadAll(u);
  }
}
