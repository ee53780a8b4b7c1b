/**
 What every run of `WorkerProtocol` keeps: each frame decoded once and in order, no queued
 message lost, every hello live when it is handed over, and the hub left in the session's mode.
 */
module WorkerGuarantees {
  import opened Options
  import opened DemoSession
  import opened WorkerProtocol

  // ---- Hellos in a list of messages ----

  /** The mode of the last hello, if there is one. */
  function LastHello(messages: seq<Message>): Option<Mode> {
    if messages == [] then None
    else
      var last := messages[|messages| - 1];
      if last.Hello? then Some(last.mode) else LastHello(messages[..|messages| - 1])
  }

  lemma {:induction false} LastHelloConcat(a: seq<Message>, b: seq<Message>)
    ensures LastHello(a + b) == if LastHello(b).Some? then LastHello(b) else LastHello(a)
  {
    if b == [] {
      assert a + b == a;
    } else {
      var front := b[..|b| - 1];
      assert (a + b)[..|a + b| - 1] == a + front;
      LastHelloConcat(a, front);
    }
  }

  lemma LastHelloOne(m: Message)
    ensures LastHello([m]) == if m.Hello? then Some(m.mode) else None
  {
  }

  /** Dropping the first message matters only when it is the only hello. */
  lemma LastHelloTail(messages: seq<Message>)
    requires messages != []
    ensures LastHello(messages)
         == if LastHello(messages[1..]).Some? then LastHello(messages[1..])
            else if messages[0].Hello? then Some(messages[0].mode) else None
  {
    LastHelloConcat([messages[0]], messages[1..]);
    LastHelloOne(messages[0]);
    assert [messages[0]] + messages[1..] == messages;
  }

  lemma LastHelloAppended(messages: seq<Message>, m: Message)
    ensures LastHello(messages + [m]) == if m.Hello? then Some(m.mode) else LastHello(messages)
  {
    LastHelloConcat(messages, [m]);
    LastHelloOne(m);
  }

  // ---- Shape: what holds between awaits ----

  /** A handler past its mode change still owes the worker an announcement. */
  predicate Owes(h: Handler) {
    h.SyncingHub? || h.Announcing?
  }

  predicate Tidy(s: State) {
    && (s.place == Down <==> s.outbox.queue == None)
    && (s.session.connected <==> s.place != Down)
    && (s.place != Awaiting <==> s.outbox.get == NoGet)
    && (s.place == Awaiting ==> s.inbox.recv != NoRecv)
    && (s.place.Replying? ==> LastHello(s.place.unsent) == None)
    && (forall i :: 0 <= i < |s.handlers| && Owes(s.handlers[i]) ==> LastHello(s.handlers[i].messages).Some?)
  }

  lemma StateUpdateHasHello(s: Session)
    ensures LastHello(StateUpdate(s)) == Some(s.mode)
  {
    LastHelloConcat([Hello(s.mode)], [Snapshot(s)]);
    LastHelloOne(Hello(s.mode));
    LastHelloOne(Snapshot(s));
    assert [Hello(s.mode)] + [Snapshot(s)] == StateUpdate(s);
  }

  /** The first message of a reply is the only one that can be a hello. */
  lemma ReplyShape(s: Session, data: string)
    ensures var r := InputApplied(s, data);
            && LastHello(r.messages[1..]) == None
            && r.session.connected == s.connected
            && (if r.messages[0].Hello? then r.messages[0].mode == r.session.mode else r.session.mode == s.mode)
  {
    InputRepliesLeadWithTheLiveMode(s, data);
    var rest := InputApplied(s, data).messages[1..];
    if rest != [] {
      assert rest == [rest[0]];
      LastHelloOne(rest[0]);
    }
  }

  lemma AnsweredStaysTidy(s: State, data: string, rest: seq<Event>)
    requires Tidy(s) && s.place != Down && s.outbox.get == NoGet
    ensures Tidy(Answered(s, data, rest))
  {
    ReplyShape(s.session, data);
  }

  lemma ReleaseStaysTidy(s: State)
    requires Tidy(s)
    ensures Tidy(Enacted(s, Released)) && Enacted(s, Released).session.mode == s.session.mode
  {
  }

  lemma HandledStaysTidy(s: State)
    requires Tidy(s) && s.place.Handling?
    ensures Tidy(Handled(s))
  {
    if s.place.events != [] && s.place.events[0].Input? {
      AnsweredStaysTidy(s, s.place.events[0].data, s.place.events[1..]);
    }
  }

  lemma SentStaysTidy(s: State)
    requires Tidy(s) && s.place.Replying?
    ensures Tidy(Sent(s))
  {
    if s.place.unsent != [] {
      LastHelloTail(s.place.unsent);
    }
  }

  lemma WorkerStaysTidy(s: State, a: Action)
    requires Tidy(s) && Enabled(s, a)
    ensures Tidy(WorkerDone(s, a))
  {
    match a {
      case HandleNext => HandledStaysTidy(s);
      case FinishRelease(released) =>
        ReleaseStaysTidy(s);
        AnsweredStaysTidy(if released then Enacted(s, Released) else s, s.place.data, s.place.rest);
      case SendNext => SentStaysTidy(s);
      case _ =>
    }
  }

  lemma ModeSetStaysTidy(s: State, id: nat, mode: Mode)
    requires Tidy(s) && id < |s.handlers|
    ensures Tidy(ModeSet(s, id, mode))
  {
    StateUpdateHasHello(Performed(s.session, SetOverHttp(mode)));
  }

  lemma StaysTidy(s: State, a: Action)
    requires Tidy(s) && Enabled(s, a)
    ensures Tidy(Done(s, a))
  {
    match a {
      case PostMode(payload) =>
        ModeSetStaysTidy(s.(handlers := s.handlers + [FreeingLease]), |s.handlers|, Requested(payload).value);
      case HandlerFrees(id, released) =>
        ReleaseStaysTidy(s);
        ModeSetStaysTidy(if released then Enacted(s, Released) else s, id, Open);
      case FrameArrives(_) => case FinishRead => case FinishGet => case Deliver => case Lease(_) =>
      case Forget => case HandlerSyncs(_, _) => case HandlerAnnounces(_) => case PostReset =>
      case _ => WorkerStaysTidy(s, a);
    }
  }

  // ---- The hub's mode: an announcement is owed, or the last one agrees with the session ----

  predicate HandlerOwes(s: State) {
    exists i :: 0 <= i < |s.handlers| && Owes(s.handlers[i])
  }

  /** Some hello has yet to be handed to the wire. */
  predicate Owed(s: State) {
    || (s.outbox.queue.Some? && LastHello(s.outbox.queue.value).Some?)
    || (s.outbox.get.Got? && s.outbox.get.message.Hello?)
    || HandlerOwes(s)
  }

  predicate HubAgrees(s: State) {
    if LastHello(s.wire).Some? then LastHello(s.wire).value == s.session.mode
    else (s.hub.mode == s.session.mode <==> !s.hub.standing)
  }

  predicate HubSane(h: Hub) {
    (h.standing ==> h.mode == Hijack) && (h.kind == Register ==> !h.standing)
  }

  predicate ModeKept(s: State) {
    && HubSane(s.hub)
    && (s.place != Down && !Owed(s) ==>
          HubAgrees(s) && (s.place.Syncing? ==> s.place.target == s.session.mode))
  }

  /** Handing over a message never breaks agreement when a hello in it is live. */
  lemma HandingKeepsAgreement(s: State, t: State, m: Message)
    requires t.wire == s.wire + [m] && t.hub == s.hub
    requires if m.Hello? then m.mode == t.session.mode else t.session.mode == s.session.mode && HubAgrees(s)
    ensures HubAgrees(t)
  {
    LastHelloAppended(s.wire, m);
  }

  lemma AnsweredKeepsMode(s: State, data: string, rest: seq<Event>)
    requires Tidy(s) && ModeKept(s) && s.place != Down && s.outbox.get == NoGet
    ensures ModeKept(Answered(s, data, rest))
  {
    ReplyShape(s.session, data);
    var t := Answered(s, data, rest);
    assert Owed(t) == Owed(s);
    if !Owed(s) {
      HandingKeepsAgreement(s, t, InputApplied(s.session, data).messages[0]);
    }
  }

  lemma ReleaseKeepsMode(s: State)
    requires ModeKept(s)
    ensures ModeKept(Enacted(s, Released))
  {
    assert Owed(Enacted(s, Released)) == Owed(s);
  }

  lemma ControlKeepsTheMode(s: Session, action: string)
    ensures Performed(s, Controlled(action)).mode == s.mode
  {
  }

  /** A step that hands over one rendering and changes neither the mode nor what is owed. */
  lemma RenderingKeepsMode(s: State, t: State, m: Message)
    requires ModeKept(s) && s.place.Handling? && t.place.Handling?
    requires !m.Hello? && t.wire == s.wire + [m] && t.hub == s.hub && t.session.mode == s.session.mode
    requires t.outbox == s.outbox && t.handlers == s.handlers
    ensures ModeKept(t)
  {
    assert Owed(t) == Owed(s);
    if !Owed(s) {
      HandingKeepsAgreement(s, t, m);
    }
  }

  lemma WaitingElsewhereKeepsMode(s: State, t: State)
    requires ModeKept(s) && s.place != Down && !t.place.Syncing?
    requires t == s.(place := t.place, progress := t.progress)
    ensures ModeKept(t)
  {
    assert Owed(t) == Owed(s);
  }

  lemma EventKeepsMode(s: State, rest: seq<Event>)
    requires Tidy(s) && ModeKept(s) && s.place.Handling? && s.place.events != []
    requires rest == s.place.events[1..]
    ensures ModeKept(Handled(s))
  {
    match s.place.events[0] {
      case SnapshotRequest => RenderingKeepsMode(s, Handled(s), Snapshot(s.session));
      case AnalysisRequest => RenderingKeepsMode(s, Handled(s), Analysis(s.session));
      case Control(action) =>
        ControlKeepsTheMode(s.session, action);
        RenderingKeepsMode(s, Handled(s), Snapshot(Performed(s.session, Controlled(action))));
      case Input(data) =>
        AnsweredKeepsMode(s, data, rest);
        WaitingElsewhereKeepsMode(s, s.(place := Releasing(data, rest)));
      case Other => WaitingElsewhereKeepsMode(s, Handled(s));
    }
  }

  lemma HandledKeepsMode(s: State)
    requires Tidy(s) && ModeKept(s) && s.place.Handling?
    ensures ModeKept(Handled(s))
  {
    if s.place.events == [] {
      WaitingElsewhereKeepsMode(s, s.(place := LoopTop));
    } else {
      EventKeepsMode(s, s.place.events[1..]);
    }
  }

  lemma SentKeepsMode(s: State)
    requires Tidy(s) && ModeKept(s) && s.place.Replying?
    ensures ModeKept(Sent(s))
  {
    var t := Sent(s);
    assert Owed(t) == Owed(s);
    if s.place.unsent != [] {
      LastHelloTail(s.place.unsent);
      if !Owed(s) {
        HandingKeepsAgreement(s, t, s.place.unsent[0]);
      }
    }
  }

  lemma WokenKeepsMode(s: State, decoded: Option<seq<Event>>)
    requires Tidy(s) && ModeKept(s) && s.place == Awaiting
    ensures ModeKept(Woken(s, decoded))
  {
    var t := Woken(s, decoded);
    assert HandlerOwes(t) == HandlerOwes(s);
    if t.wire != s.wire && !Owed(t) {
      HandingKeepsAgreement(s, t, t.wire[|s.wire|]);
    }
  }

  lemma ConnectedKeepsMode(s: State)
    requires ModeKept(s)
    ensures ModeKept(Connected(s))
  {
    LastHelloOne(Hello(s.session.mode));
  }

  lemma FirstSnapshotKeepsMode(s: State)
    requires ModeKept(s) && s.place == Greeting
    ensures ModeKept(Handed(s, Snapshot(s.session)).(place := LoopTop))
  {
    var t := Handed(s, Snapshot(s.session)).(place := LoopTop);
    assert Owed(t) == Owed(s);
    if !Owed(s) {
      HandingKeepsAgreement(s, t, Snapshot(s.session));
    }
  }

  lemma SyncKeepsMode(s: State, accepted: bool)
    requires ModeKept(s) && s.place.Syncing? && MaySync(s.hub, s.place.target, accepted)
    ensures ModeKept(WorkerDone(s, FinishSync(accepted)))
  {
    assert Owed(WorkerDone(s, FinishSync(accepted))) == Owed(s);
  }

  lemma WaitKeepsMode(s: State)
    requires Tidy(s) && ModeKept(s) && s.place == LoopTop
    ensures ModeKept(WorkerDone(s, StartWait))
  {
    assert Owed(WorkerDone(s, StartWait)) == Owed(s);
  }

  lemma WorkerKeepsMode(s: State, a: Action)
    requires Tidy(s) && ModeKept(s) && Enabled(s, a)
    ensures ModeKept(WorkerDone(s, a))
  {
    match a {
      case Connect => ConnectedKeepsMode(s);
      case SendFirstSnapshot => FirstSnapshotKeepsMode(s);
      case StartWait => WaitKeepsMode(s);
      case Wake(decoded) => WokenKeepsMode(s, decoded);
      case HandleNext => HandledKeepsMode(s);
      case FinishRelease(released) =>
        ReleaseStaysTidy(s);
        ReleaseKeepsMode(s);
        AnsweredKeepsMode(if released then Enacted(s, Released) else s, s.place.data, s.place.rest);
      case SendNext => SentKeepsMode(s);
      case FinishSync(accepted) => SyncKeepsMode(s, accepted);
      case Lose =>
      case _ =>
    }
  }

  lemma DeliverKeepsMode(s: State)
    requires ModeKept(s) && s.wire != []
    ensures ModeKept(Done(s, Deliver))
  {
    var t := Done(s, Deliver);
    assert Owed(t) == Owed(s);
    LastHelloTail(s.wire);
  }

  lemma FinishGetKeepsMode(s: State)
    requires ModeKept(s) && Enabled(s, FinishGet)
    ensures ModeKept(Done(s, FinishGet))
  {
    LastHelloTail(s.outbox.queue.value);
    assert HandlerOwes(Done(s, FinishGet)) == HandlerOwes(s);
    assert Owed(Done(s, FinishGet)) == Owed(s);
  }

  /** A handler that has just set the mode owes its announcement. */
  lemma ModeSetKeepsMode(s: State, id: nat, mode: Mode)
    requires ModeKept(s) && id < |s.handlers|
    ensures ModeKept(ModeSet(s, id, mode))
  {
    var t := ModeSet(s, id, mode);
    assert Owes(t.handlers[id]);
  }

  lemma PostedKeepsMode(s: State, mode: Mode)
    requires ModeKept(s)
    ensures ModeKept(Posted(s, mode))
  {
    var t := s.(handlers := s.handlers + [FreeingLease]);
    if HandlerOwes(s) {
      var i :| 0 <= i < |s.handlers| && Owes(s.handlers[i]);
      assert Owes(t.handlers[i]);
    }
    assert Owed(t) == Owed(s);
    if mode == Hijack {
      ModeSetKeepsMode(t, |s.handlers|, mode);
    }
  }

  lemma HandlerSyncKeepsMode(s: State, id: nat, ok: bool)
    requires ModeKept(s) && Enabled(s, HandlerSyncs(id, ok))
    ensures ModeKept(Done(s, HandlerSyncs(id, ok)))
  {
    var t := Done(s, HandlerSyncs(id, ok));
    assert Owes(t.handlers[id]);
  }

  /** Putting a hello on a live queue makes it owed until the worker sends it. */
  lemma EnqueueOwes(s: State, messages: seq<Message>)
    requires Tidy(s) && s.place != Down && LastHello(messages).Some?
    ensures Owed(s.(outbox := Enqueued(s.outbox, messages)))
  {
    LastHelloConcat(s.outbox.queue.value, messages);
  }

  lemma AnnounceKeepsMode(s: State, id: nat)
    requires Tidy(s) && ModeKept(s) && Enabled(s, HandlerAnnounces(id))
    ensures ModeKept(Done(s, HandlerAnnounces(id)))
  {
    if s.place != Down {
      EnqueueOwes(s.(handlers := s.handlers[id := Responded]), s.handlers[id].messages);
    }
  }

  lemma ResetKeepsMode(s: State)
    requires Tidy(s) && ModeKept(s)
    ensures ModeKept(ResetPosted(s))
  {
    var t := Enacted(s, ResetOverHttp);
    StateUpdateHasHello(t.session);
    if s.place != Down {
      EnqueueOwes(t, StateUpdate(t.session));
    }
  }

  lemma EnvironmentKeepsMode(s: State, a: Action)
    requires a.FrameArrives? || a.FinishRead? || a.Lease? || a.Forget?
    requires ModeKept(s) && Enabled(s, a)
    ensures ModeKept(Done(s, a))
  {
    assert Owed(Done(s, a)) == Owed(s);
  }

  lemma KeepsMode(s: State, a: Action)
    requires Tidy(s) && ModeKept(s) && Enabled(s, a)
    ensures ModeKept(Done(s, a))
  {
    match a {
      case FrameArrives(_) => EnvironmentKeepsMode(s, a);
      case FinishRead => EnvironmentKeepsMode(s, a);
      case Lease(_) => EnvironmentKeepsMode(s, a);
      case Forget => EnvironmentKeepsMode(s, a);
      case FinishGet => FinishGetKeepsMode(s);
      case Deliver => DeliverKeepsMode(s);
      case PostMode(payload) => PostedKeepsMode(s, Requested(payload).value);
      case HandlerFrees(id, released) =>
        ReleaseKeepsMode(s);
        ModeSetKeepsMode(if released then Enacted(s, Released) else s, id, Open);
      case HandlerSyncs(id, ok) => HandlerSyncKeepsMode(s, id, ok);
      case HandlerAnnounces(id) => AnnounceKeepsMode(s, id);
      case PostReset => ResetKeepsMode(s);
      case _ => WorkerKeepsMode(s, a);
    }
  }
}
