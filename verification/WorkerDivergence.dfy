/**
 A run of the shipped hub that ends idle in the wrong mode: while the worker is connected an
 operator decides `hijack` over HTTP, then somebody types `/mode OPEN`. The session accepts
 any capitalisation, but the worker syncs the hub only after the exact spelling, and the hub
 refuses the hello.
 */
module WorkerDivergence {
  import opened Options
  import opened Text
  import opened DemoSession
  import opened WorkerProtocol
  import opened WorkerTheorems

  const SHOUTED := "/mode OPEN"

  lemma ShoutedNormalizes()
    ensures Normalized(SHOUTED) == SHOUTED && !IsExactModeCommand(SHOUTED) && Normalized(SHOUTED) != "/mode open"
  {
    var mapped := seq(|SHOUTED|, i requires 0 <= i < |SHOUTED| =>
      if SHOUTED[i] == '\r' then '\n' else if SHOUTED[i] == '\t' then ' ' else SHOUTED[i]);
    assert mapped == SHOUTED;
    StripTrimmed(SHOUTED);
    assert SHOUTED[6] == 'O' && "/mode open"[6] == 'o';
    assert |SHOUTED| == 10 && |"/mode hijack"| == 12;
  }

  lemma ShoutedIsLowered()
    ensures Lower("OPEN") == "open"
  {
  }

  lemma ShoutedIsAModeCommand()
    ensures Command(SHOUTED) == "/mode" && Argument(SHOUTED) == "OPEN" && Lower("OPEN") == "open"
  {
    assert "/mode" + [' '] + "OPEN" == SHOUTED;
    PartitionAtFirst("/mode", ' ', "OPEN");
    StripTrimmed("OPEN");
    ShoutedIsLowered();
  }

  lemma OpenIsNamed(name: string)
    requires name == "open"
    ensures ModeNamed(name) == Some(Open)
  {
    assert |name| != |"hijack"|;
  }

  /** A normalized `/mode` command that names `open` opens the session and announces that. */
  lemma ModeCommandOpens(s: Session, data: string)
    requires Normalized(data) == data && StartsWith(data, "/")
    requires Command(data) == "/mode" && ModeNamed(Lower(Argument(data))) == Some(Open)
    ensures InputApplied(s, data).messages == StateUpdate(InputApplied(s, data).session)
    ensures InputApplied(s, data).session.mode == Open
  {
    assert VerbOf("/mode") == ToMode;
  }

  /** Typing it opens the session and announces that, but asks for no hub sync. */
  lemma ShoutedOpensTheSession(s: Session)
    ensures InputApplied(s, SHOUTED).messages == StateUpdate(InputApplied(s, SHOUTED).session)
    ensures InputApplied(s, SHOUTED).session.mode == Open
  {
    ShoutedNormalizes();
    ShoutedIsAModeCommand();
    OpenIsNamed(Lower("OPEN"));
    ModeCommandOpens(s, SHOUTED);
  }

  lemma HijackIsRequested()
    ensures Requested("hijack") == Some(Hijack)
  {
    StripTrimmed("hijack");
    assert Lower("hijack") == "hijack";
  }

  lemma Two(s: State, a: Action, b: Action)
    requires Enabled(s, a) && Enabled(Done(s, a), b)
    ensures After(s, [a, b]) == Some(Done(Done(s, a), b))
  {
    Extend(s, [], s, a);
    Extend(s, [] + [a], Done(s, a), b);
    assert [] + [a] + [b] == [a, b];
  }

  /** Nothing queued and a read of the queue begun. */
  predicate HasEmptyQueue(o: Outbox) {
    o.queue == Some([]) && o.get == Getting
  }

  lemma FirstConnection(s: State) returns (t: State)
    requires Init(s)
    ensures After(s, [Connect, SendFirstSnapshot]) == Some(t)
    ensures t.place == LoopTop && t.outbox == NO_OUTBOX.(queue := Some([])) && t.inbox == EMPTY_INBOX
    ensures t.wire == [Hello(Hijack), Snapshot(t.session)] && t.hub == s.hub && t.handlers == []
  {
    Two(s, Connect, SendFirstSnapshot);
    t := Done(Done(s, Connect), SendFirstSnapshot);
  }

  /** While the worker waits, an operator posts `hijack`. */
  lemma HijackPosted(s: State) returns (t: State)
    requires s.place == LoopTop && s.outbox == NO_OUTBOX.(queue := Some([])) && s.inbox == EMPTY_INBOX && s.handlers == []
    ensures After(s, [StartWait, PostMode("hijack")]) == Some(t)
    ensures t.place == Awaiting && HasEmptyQueue(t.outbox) && t.inbox == ReadStarted(EMPTY_INBOX)
    ensures t.session.mode == Hijack && t.handlers == [SyncingHub(Hijack, StateUpdate(t.session))]
    ensures t.wire == s.wire && t.hub == s.hub
  {
    Extend(s, [], s, StartWait);
    var u := Done(s, StartWait);
    HijackIsSet(u);
    Extend(s, [] + [StartWait], u, PostMode("hijack"));
    t := Done(u, PostMode("hijack"));
    assert [] + [StartWait] + [PostMode("hijack")] == [StartWait, PostMode("hijack")];
  }

  lemma HijackIsSet(s: State)
    requires s.handlers == []
    ensures Enabled(s, PostMode("hijack"))
    ensures var t := Done(s, PostMode("hijack"));
            && t.session.mode == Hijack && t.handlers == [SyncingHub(Hijack, StateUpdate(t.session))]
            && t == s.(session := t.session, past := t.past, handlers := t.handlers)
  {
    HijackIsRequested();
    var waiting := s.(handlers := s.handlers + [FreeingLease]);
    assert waiting.handlers[0 := SyncingHub(Hijack, [])] == [SyncingHub(Hijack, [])];
  }

  /** The hub takes the decision, and the announcement goes on the queue. */
  lemma HijackDecided(s: State) returns (t: State)
    requires HasEmptyQueue(s.outbox) && s.handlers == [SyncingHub(Hijack, StateUpdate(s.session))]
    requires s.hub == Hub(Deciding, Hijack, false, false, false)
    ensures After(s, [HandlerSyncs(0, true), HandlerAnnounces(0)]) == Some(t)
    ensures t.hub == Hub(Deciding, Hijack, true, false, false) && t.handlers == [Responded]
    ensures t.outbox.queue == Some(StateUpdate(s.session)) && t.outbox.get == Getting
    ensures t == s.(hub := t.hub, handlers := t.handlers, outbox := t.outbox)
  {
    Two(s, HandlerSyncs(0, true), HandlerAnnounces(0));
    assert [] + StateUpdate(s.session) == StateUpdate(s.session);
    t := Done(Done(s, HandlerSyncs(0, true)), HandlerAnnounces(0));
  }

  /** The worker sends what is first in the queue and waits again. */
  lemma OneIsSent(s: State, m: Message, rest: seq<Message>) returns (t: State)
    requires s.place == Awaiting && s.inbox.recv == Reading
    requires s.outbox.get == Getting && s.outbox.queue == Some([m] + rest)
    requires m.Hello? ==> m.mode == s.session.mode
    ensures After(s, [FinishGet, Wake(None)] + [StartWait]) == Some(t)
    ensures t.outbox.queue == Some(rest) && t.outbox.get == Getting
    ensures t == s.(wire := s.wire + [m], outbox := t.outbox)
  {
    Two(s, FinishGet, Wake(None));
    var u := Done(Done(s, FinishGet), Wake(None));
    assert ([m] + rest)[1..] == rest;
    assert u == s.(wire := s.wire + [m], place := LoopTop, outbox := u.outbox);
    Extend(s, [FinishGet, Wake(None)], u, StartWait);
    t := Done(u, StartWait);
  }

  lemma FrameComesIn(s: State, frame: Frame) returns (t: State)
    requires s.place == Awaiting && s.inbox == ReadStarted(EMPTY_INBOX)
    ensures After(s, [FrameArrives(frame), FinishRead]) == Some(t)
    ensures t == s.(inbox := t.inbox) && t.inbox.recv == Read(frame)
  {
    Two(s, FrameArrives(frame), FinishRead);
    t := Done(Done(s, FrameArrives(frame)), FinishRead);
  }

  lemma WakeOnCommand(s: State) returns (t: State)
    requires s.place == Awaiting && s.inbox.recv.Read? && HasEmptyQueue(s.outbox)
    ensures After(s, [Wake(Some([Input(SHOUTED)]))]) == Some(t)
    ensures t == s.(place := Handling([Input(SHOUTED)]), progress := t.progress, inbox := t.inbox, outbox := t.outbox)
    ensures t.outbox.queue == Some([]) && t.outbox.get == NoGet
  {
    Extend(s, [], s, Wake(Some([Input(SHOUTED)])));
    t := Done(s, Wake(Some([Input(SHOUTED)])));
  }

  lemma InputIsHandled(s: State, data: string)
    requires s.place == Handling([Input(data)]) && Normalized(data) != "/mode open"
    ensures Handled(s) == Answered(s, data, [])
  {
    assert [Input(data)][1..] == [];
  }

  lemma OneInputIsAnswered(s: State, data: string, t: State)
    requires s.place == Handling([Input(data)]) && Normalized(data) != "/mode open" && t == Handled(s)
    ensures After(s, [HandleNext]) == Some(t) && t == Answered(s, data, [])
  {
    InputIsHandled(s, data);
    assert Done(s, HandleNext) == t;
    Extend(s, [], s, HandleNext);
  }

  /** A reply that announces goes out hello first, in the step that applied the input. */
  lemma AnnouncingReply(s: State, data: string, t: State)
    requires !IsExactModeCommand(data) && t == Answered(s, data, [])
    requires InputApplied(s.session, data).messages == StateUpdate(InputApplied(s.session, data).session)
    ensures t.session == InputApplied(s.session, data).session && t.wire == s.wire + [Hello(t.session.mode)]
    ensures t.place == Replying([Snapshot(t.session)], false, [])
    ensures t.outbox == s.outbox && t.hub == s.hub && t.handlers == s.handlers
  {
  }

  /** The worker applies the command and hands over the hello in the same step. */
  lemma AnswerCommand(s: State) returns (t: State)
    requires s.place == Handling([Input(SHOUTED)])
    ensures After(s, [HandleNext]) == Some(t)
    ensures t.session.mode == Open && t.wire == s.wire + [Hello(Open)] && t.hub == s.hub && t.handlers == s.handlers
    ensures t.place == Replying([Snapshot(t.session)], false, []) && t.outbox == s.outbox
  {
    ShoutedNormalizes();
    ShoutedOpensTheSession(s.session);
    t := Handled(s);
    OneInputIsAnswered(s, SHOUTED, t);
    AnnouncingReply(s, SHOUTED, t);
  }

  lemma WakeAndAnswer(s: State) returns (t: State)
    requires s.place == Awaiting && s.inbox.recv.Read? && HasEmptyQueue(s.outbox)
    ensures After(s, [Wake(Some([Input(SHOUTED)]))] + [HandleNext]) == Some(t)
    ensures t.session.mode == Open && t.wire == s.wire + [Hello(Open)] && t.hub == s.hub && t.handlers == s.handlers
    ensures t.place == Replying([Snapshot(t.session)], false, []) && t.outbox.queue == Some([]) && t.outbox.get == NoGet
  {
    var u := WakeOnCommand(s);
    t := AnswerCommand(u);
    Continue(s, [Wake(Some([Input(SHOUTED)]))], u, [HandleNext]);
  }

  lemma FinishReply(s: State) returns (t: State)
    requires s.place == Replying([Snapshot(s.session)], false, [])
    ensures After(s, [SendNext, SendNext]) == Some(t)
    ensures t == s.(place := Handling([]), wire := s.wire + [Snapshot(s.session)])
  {
    Two(s, SendNext, SendNext);
    t := Done(Done(s, SendNext), SendNext);
  }

  lemma BackToWaiting(s: State) returns (t: State)
    requires s.place == Handling([]) && s.outbox.queue == Some([])
    ensures After(s, [HandleNext, StartWait]) == Some(t)
    ensures t.place == Awaiting && HasEmptyQueue(t.outbox)
    ensures t.session == s.session && t.wire == s.wire && t.hub == s.hub && t.handlers == s.handlers
  {
    Two(s, HandleNext, StartWait);
    t := Done(Done(s, HandleNext), StartWait);
  }

  /** The hub takes the decided mode's own hello and refuses the typed one. */
  lemma DeliverPair(s: State, mode: Mode) returns (t: State)
    requires |s.wire| >= 2 && s.wire[0] == Hello(mode) && s.wire[1].Snapshot?
    requires s.hub == Hub(Deciding, Hijack, true, false, false)
    ensures After(s, [Deliver, Deliver]) == Some(t)
    ensures t == s.(wire := s.wire[2..], hub := if mode == Open then s.hub.(standing := true) else s.hub)
  {
    Two(s, Deliver, Deliver);
    t := Done(Done(s, Deliver), Deliver);
  }

  lemma SendAnnouncement(s: State) returns (schedule: seq<Action>, t: State)
    requires s.place == Awaiting && s.inbox.recv == Reading
    requires s.outbox.queue == Some(StateUpdate(s.session)) && s.outbox.get == Getting
    ensures After(s, schedule) == Some(t) && HasEmptyQueue(t.outbox)
    ensures t == s.(wire := s.wire + [Hello(s.session.mode)] + [Snapshot(s.session)], outbox := t.outbox)
  {
    assert StateUpdate(s.session) == [Hello(s.session.mode)] + [Snapshot(s.session)];
    var u := OneIsSent(s, Hello(s.session.mode), [Snapshot(s.session)]);
    assert [Snapshot(s.session)] == [Snapshot(s.session)] + [];
    var once := [FinishGet, Wake(None)] + [StartWait];
    t := OneIsSent(u, Snapshot(s.session), []);
    Continue(s, once, u, once);
    schedule := once + once;
  }

  lemma DeliverBoth(s: State) returns (schedule: seq<Action>, t: State)
    requires |s.wire| == 4 && s.wire[0] == Hello(Hijack) && s.wire[1].Snapshot?
    requires s.wire[2] == Hello(Hijack) && s.wire[3].Snapshot?
    requires s.hub == Hub(Deciding, Hijack, true, false, false)
    ensures After(s, schedule) == Some(t) && t == s.(wire := [])
  {
    var u := DeliverPair(s, Hijack);
    t := DeliverPair(u, Hijack);
    Continue(s, [Deliver, Deliver], u, [Deliver, Deliver]);
    schedule := [Deliver, Deliver] + [Deliver, Deliver];
  }

  /** The operator's request, from start to finish: the hub is told twice what it already holds. */
  lemma DecideHijack(s: State) returns (schedule: seq<Action>, t: State)
    requires Init(s) && s.hub == Hub(Deciding, Hijack, false, false, false)
    ensures After(s, schedule) == Some(t)
    ensures t.place == Awaiting && t.inbox == ReadStarted(EMPTY_INBOX) && HasEmptyQueue(t.outbox)
    ensures t.wire == [] && t.handlers == [Responded] && t.hub == Hub(Deciding, Hijack, true, false, false)
  {
    var t1 := FirstConnection(s);
    var t2 := HijackPosted(t1);
    var p := [Connect, SendFirstSnapshot];
    Continue(s, p, t1, [StartWait, PostMode("hijack")]);
    p := p + [StartWait, PostMode("hijack")];
    var t3 := HijackDecided(t2);
    Continue(s, p, t2, [HandlerSyncs(0, true), HandlerAnnounces(0)]);
    p := p + [HandlerSyncs(0, true), HandlerAnnounces(0)];
    var q, t4 := SendAnnouncement(t3);
    Continue(s, p, t3, q);
    p := p + q;
    q, t := DeliverBoth(t4);
    Continue(s, p, t4, q);
    schedule := p + q;
  }

  /** The comment that a hello always leaves the hub in the session's mode is false of the shipped hub. */
  lemma TypedModeCanLeaveTheHubBehind(s: State) returns (schedule: seq<Action>, t: State)
    requires Init(s) && s.hub == Hub(Deciding, Hijack, false, false, false)
    ensures After(s, schedule) == Some(t) && Quiescent(t)
    ensures t.session.mode == Open && t.hub.mode == Hijack
  {
    var p, u := DecideHijack(s);
    var q, v := TypeAndDeliver(u);
    Continue(s, p, u, q);
    schedule, t := p + q, v;
  }

  lemma TypeAndDeliver(s: State) returns (schedule: seq<Action>, t: State)
    requires s.place == Awaiting && s.inbox == ReadStarted(EMPTY_INBOX) && HasEmptyQueue(s.outbox)
    requires s.handlers == [Responded] && s.wire == [] && s.hub == Hub(Deciding, Hijack, true, false, false)
    ensures After(s, schedule) == Some(t) && Quiescent(t)
    ensures t.session.mode == Open && t.hub.mode == Hijack
  {
    var t1 := FrameComesIn(s, "typed");
    var p := [FrameArrives("typed"), FinishRead];
    var t2 := WakeAndAnswer(t1);
    Continue(s, p, t1, [Wake(Some([Input(SHOUTED)]))] + [HandleNext]);
    p := p + ([Wake(Some([Input(SHOUTED)]))] + [HandleNext]);
    var t3 := FinishReply(t2);
    Continue(s, p, t2, [SendNext, SendNext]);
    p := p + [SendNext, SendNext];
    var t4 := BackToWaiting(t3);
    Continue(s, p, t3, [HandleNext, StartWait]);
    p := p + [HandleNext, StartWait];
    t := DeliverPair(t4, Open);
    Continue(s, p, t4, [Deliver, Deliver]);
    schedule := p + [Deliver, Deliver];
  }
}
