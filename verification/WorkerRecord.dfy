/**
 The records the protocol keeps are those of the schedule: what arrived, what was read, what
 the decoder gave, what the endpoints enqueued, what was done to the session and how often
 the hub was asked, each told from the actions of the run alone.
 */
module WorkerRecord {
  import opened Options
  import opened Text
  import opened DemoSession
  import opened WorkerProtocol

  /** What one connection, and for `acts` the whole run, has seen. */
  datatype Record = Record(
    arrived: seq<Frame>,
    fed: seq<Frame>,
    decoded: seq<Event>,
    enqueued: seq<Message>,
    acts: seq<Act>,
    releases: nat,
    syncs: nat)

  const NOTHING := Record([], [], [], [], [], 0, 0)

  /** The finished read is looked at only when no queued message is in hand. */
  predicate TakesFrame(u: State, a: Action) {
    a.Wake? && u.inbox.recv.Read? && !u.outbox.get.Got?
  }

  function FramesArriving(a: Action): seq<Frame> {
    if a.FrameArrives? then [a.frame] else []
  }

  function FramesTaken(u: State, a: Action): seq<Frame> {
    if TakesFrame(u, a) then [u.inbox.recv.frame] else []
  }

  function EventsGiven(u: State, a: Action): seq<Event> {
    if TakesFrame(u, a) && a.decoded.Some? then a.decoded.value else []
  }

  /** What an endpoint hands to the queue, and nothing while there is no connection. */
  function MessagesQueued(u: State, a: Action): seq<Message> {
    if u.place == Down then []
    else
      match a
      case HandlerAnnounces(id) => if id < |u.handlers| && u.handlers[id].Announcing? then u.handlers[id].messages else []
      case PostReset => StateUpdate(NewSession().(connected := u.session.connected))
      case _ => []
  }

  function Freed(released: bool): seq<Act> {
    if released then [Released] else []
  }

  /** What an action does to the session, in order. */
  function ActsDone(u: State, a: Action): seq<Act> {
    match a
    case HandleNext =>
      if !u.place.Handling? || u.place.events == [] then []
      else (
        match u.place.events[0]
        case Control(action) => [Controlled(action)]
        case Input(data) => if Normalized(data) == "/mode open" then [] else [Typed(data)]
        case _ => [])
    case FinishRelease(released) => if u.place.Releasing? then Freed(released) + [Typed(u.place.data)] else []
    case PostMode(payload) => if Lower(Strip(payload)) == "hijack" then [SetOverHttp(Hijack)] else []
    case HandlerFrees(_, released) => Freed(released) + [SetOverHttp(Open)]
    case PostReset => [ResetOverHttp]
    case _ => []
  }

  function Recorded(r: Record, u: State, a: Action): Record {
    if a == Connect then NOTHING.(acts := r.acts)
    else
      Record(
        r.arrived + FramesArriving(a), r.fed + FramesTaken(u, a), r.decoded + EventsGiven(u, a),
        r.enqueued + MessagesQueued(u, a), r.acts + ActsDone(u, a),
        r.releases + (if a.FinishRelease? then 1 else 0), r.syncs + (if a.FinishSync? then 1 else 0))
  }

  /** The record of a schedule, by recursion over its prefixes. */
  function RecordOf(s: State, schedule: seq<Action>): Record {
    if schedule == [] then NOTHING
    else
      var last := |schedule| - 1;
      match After(s, schedule[..last])
      case None => NOTHING
      case Some(u) => Recorded(RecordOf(s, schedule[..last]), u, schedule[last])
  }

  // ---- What the state holds is the record ----

  predicate SameInbox(s: State, r: Record) {
    s.place != Down ==> s.inbox.arrived == r.arrived && s.inbox.fed == r.fed
  }

  predicate SameDecoded(s: State, r: Record) {
    s.place != Down ==> s.progress.decoded == r.decoded
  }

  predicate SameQueued(s: State, r: Record) {
    s.place != Down ==> s.outbox.queue.Some? && s.outbox.enqueued == r.enqueued
  }

  function ActsIn(past: seq<Happening>): seq<Act> {
    seq(|past|, i requires 0 <= i < |past| => past[i].act)
  }

  predicate SameActs(s: State, r: Record) {
    ActsIn(s.past) == r.acts
  }

  lemma StepKeepsInbox(s: State, r: Record, a: Action)
    requires SameInbox(s, r) && Enabled(s, a)
    ensures SameInbox(Done(s, a), Recorded(r, s, a))
  {
  }

  lemma StepKeepsDecoded(s: State, r: Record, a: Action)
    requires SameDecoded(s, r) && Enabled(s, a)
    ensures SameDecoded(Done(s, a), Recorded(r, s, a))
  {
  }

  lemma StepKeepsQueued(s: State, r: Record, a: Action)
    requires SameQueued(s, r) && Enabled(s, a)
    ensures SameQueued(Done(s, a), Recorded(r, s, a))
  {
  }

  lemma EnactedActs(s: State, act: Act)
    ensures ActsIn(Enacted(s, act).past) == ActsIn(s.past) + [act]
  {
  }

  lemma StepKeepsActs(s: State, r: Record, a: Action)
    requires SameActs(s, r) && Enabled(s, a)
    ensures SameActs(Done(s, a), Recorded(r, s, a))
  {
  }

  // ---- Lease releases and hub syncs asked for by typed commands ----

  predicate IsExact(event: Event) {
    event.Input? && (Normalized(event.data) == "/mode open" || Normalized(event.data) == "/mode hijack")
  }

  predicate IsExactOpen(event: Event) {
    event.Input? && Normalized(event.data) == "/mode open"
  }

  function ExactCommands(events: seq<Event>): nat {
    if events == [] then 0
    else
      var last := |events| - 1;
      ExactCommands(events[..last]) + (if IsExact(events[last]) then 1 else 0)
  }

  function ExactOpens(events: seq<Event>): nat {
    if events == [] then 0
    else
      var last := |events| - 1;
      ExactOpens(events[..last]) + (if IsExactOpen(events[last]) then 1 else 0)
  }

  /** The sync owed for the command whose reply is going out, or under way. */
  function SyncsOwed(place: Place): nat {
    match place
    case Replying(_, sync, _) => if sync then 1 else 0
    case Syncing(_, _) => 1
    case _ => 0
  }

  predicate ReleasesOnlyForOpen(s: State) {
    s.place.Releasing? ==> Normalized(s.place.data) == "/mode open"
  }

  predicate CommandsReachHub(s: State, releases: nat, syncs: nat) {
    && ReleasesOnlyForOpen(s)
    && (s.place != Down ==>
          && syncs + SyncsOwed(s.place) == ExactCommands(s.progress.served)
          && releases == ExactOpens(s.progress.served))
  }

  lemma OneMoreServed(served: seq<Event>, event: Event)
    ensures ExactCommands(served + [event]) == ExactCommands(served) + (if IsExact(event) then 1 else 0)
    ensures ExactOpens(served + [event]) == ExactOpens(served) + (if IsExactOpen(event) then 1 else 0)
  {
    assert (served + [event])[..|served|] == served;
  }

  lemma AnsweredReachesHub(s: State, releases: nat, syncs: nat, data: string, rest: seq<Event>)
    requires syncs == ExactCommands(s.progress.served)
    requires releases == ExactOpens(s.progress.served) + (if IsExactOpen(Input(data)) then 1 else 0)
    ensures CommandsReachHub(Answered(s, data, rest), releases, syncs)
  {
    OneMoreServed(s.progress.served, Input(data));
  }

  lemma HandledReachesHub(s: State, releases: nat, syncs: nat)
    requires s.place.Handling? && CommandsReachHub(s, releases, syncs)
    ensures CommandsReachHub(Handled(s), releases, syncs)
  {
    if s.place.events != [] {
      var event, rest := s.place.events[0], s.place.events[1..];
      OneMoreServed(s.progress.served, event);
      if event.Input? && !IsExactOpen(event) {
        AnsweredReachesHub(s, releases, syncs, event.data, rest);
      }
    }
  }

  lemma WorkerReachesHub(s: State, releases: nat, syncs: nat, a: Action)
    requires CommandsReachHub(s, releases, syncs) && Enabled(s, a) && !a.Connect?
    ensures CommandsReachHub(
              WorkerDone(s, a), releases + (if a.FinishRelease? then 1 else 0), syncs + (if a.FinishSync? then 1 else 0))
  {
    match a {
      case HandleNext => HandledReachesHub(s, releases, syncs);
      case FinishRelease(released) =>
        AnsweredReachesHub(if released then Enacted(s, Released) else s, releases + 1, syncs, s.place.data, s.place.rest);
      case _ =>
    }
  }

  predicate IsWorkerStep(a: Action) {
    || a.Connect? || a.SendFirstSnapshot? || a.StartWait? || a.Wake? || a.HandleNext?
    || a.FinishRelease? || a.SendNext? || a.FinishSync? || a.Lose?
  }

  lemma OthersLeaveTheWorker(s: State, a: Action)
    requires Enabled(s, a) && !IsWorkerStep(a)
    ensures Done(s, a).place == s.place && Done(s, a).progress == s.progress
  {
  }

  lemma StepReachesHub(s: State, r: Record, a: Action)
    requires CommandsReachHub(s, r.releases, r.syncs) && Enabled(s, a)
    ensures CommandsReachHub(Done(s, a), Recorded(r, s, a).releases, Recorded(r, s, a).syncs)
  {
    if !IsWorkerStep(a) {
      OthersLeaveTheWorker(s, a);
    } else if a != Connect {
      WorkerReachesHub(s, r.releases, r.syncs, a);
      assert Done(s, a) == WorkerDone(s, a);
    }
  }

  // ---- Announcements an endpoint holds ----

  /** A hello and the screen of one and the same session. */
  predicate IsAnnouncement(messages: seq<Message>, mode: Mode) {
    && |messages| == 2 && messages[1].Snapshot?
    && messages[0] == Hello(messages[1].view.mode) && messages[1].view.mode == mode
  }

  predicate HoldsAnnouncement(h: Handler) {
    match h
    case SyncingHub(target, messages) => IsAnnouncement(messages, target)
    case Announcing(messages) => |messages| == 2 && messages[0].Hello? && IsAnnouncement(messages, messages[0].mode)
    case _ => true
  }

  predicate HoldAnnouncements(s: State) {
    forall i :: 0 <= i < |s.handlers| ==> HoldsAnnouncement(s.handlers[i])
  }

  lemma StepKeepsAnnouncements(s: State, a: Action)
    requires HoldAnnouncements(s) && Enabled(s, a)
    ensures HoldAnnouncements(Done(s, a))
  {
  }

  // ---- Over whole runs ----

  predicate IsRecord(s: State, r: Record) {
    && SameInbox(s, r) && SameDecoded(s, r) && SameQueued(s, r) && SameActs(s, r)
    && CommandsReachHub(s, r.releases, r.syncs) && HoldAnnouncements(s)
  }

  lemma StepKeepsRecord(s: State, r: Record, a: Action)
    requires IsRecord(s, r) && Enabled(s, a)
    ensures IsRecord(Done(s, a), Recorded(r, s, a))
  {
    StepKeepsInbox(s, r, a);
    StepKeepsDecoded(s, r, a);
    StepKeepsQueued(s, r, a);
    StepKeepsActs(s, r, a);
    StepReachesHub(s, r, a);
    StepKeepsAnnouncements(s, a);
  }

  lemma {:induction false} RunIsRecorded(s: State, schedule: seq<Action>, t: State)
    requires Init(s) && After(s, schedule) == Some(t)
    ensures IsRecord(t, RecordOf(s, schedule))
  {
    if schedule != [] {
      var last := |schedule| - 1;
      var u := After(s, schedule[..last]).value;
      RunIsRecorded(s, schedule[..last], u);
      StepKeepsRecord(u, RecordOf(s, schedule[..last]), schedule[last]);
    }
  }

  /**
   On the current connection the frames that arrived, the frames read, the events the decoder
   gave and the messages enqueued are those of the schedule; so no frame, event or message is
   lost, repeated or made up before it is recorded.
   */
  lemma RecordsAreTrue(s: State, schedule: seq<Action>, t: State)
    requires Init(s) && After(s, schedule) == Some(t) && t.place != Down
    ensures var r := RecordOf(s, schedule);
            && t.inbox.arrived == r.arrived && t.inbox.fed == r.fed
            && t.progress.decoded == r.decoded && t.outbox.enqueued == r.enqueued
  {
    RunIsRecorded(s, schedule, t);
  }

  /** The acts in the session's history are those the schedule asks for, in order. */
  lemma HistoryIsTheSchedule(s: State, schedule: seq<Action>, t: State)
    requires Init(s) && After(s, schedule) == Some(t)
    ensures ActsIn(t.past) == RecordOf(s, schedule).acts
  {
    RunIsRecorded(s, schedule, t);
  }

  /**
   For each exactly spelled mode command acted on, the hub is asked to sync once, unless that
   sync is still owed; and for each `/mode open` a lease is freed first.
   */
  lemma ExactCommandsReachTheHub(s: State, schedule: seq<Action>, t: State)
    requires Init(s) && After(s, schedule) == Some(t) && t.place != Down
    ensures var r := RecordOf(s, schedule);
            && r.syncs + SyncsOwed(t.place) == ExactCommands(t.progress.served)
            && r.releases == ExactOpens(t.progress.served)
  {
    RunIsRecorded(s, schedule, t);
  }

  /** What an endpoint is about to sync and announce is one mode, and the screen goes with it. */
  lemma EndpointsHoldAnnouncements(s: State, schedule: seq<Action>, t: State, id: nat)
    requires Init(s) && After(s, schedule) == Some(t) && id < |t.handlers|
    ensures HoldsAnnouncement(t.handlers[id])
  {
    RunIsRecorded(s, schedule, t);
  }

  // ---- What the worker answers ----

  /** A request is answered from the live session, and so is a keepalive tick; a sync asks for the live mode. */
  lemma RequestsAreAnswered(s: State, event: Event, rest: seq<Event>)
    requires s.place == Handling([event] + rest)
    ensures event == SnapshotRequest ==> Done(s, HandleNext).wire == s.wire + [Snapshot(s.session)]
    ensures event == AnalysisRequest ==> Done(s, HandleNext).wire == s.wire + [Analysis(s.session)]
    ensures event.Control? ==>
              var t := Done(s, HandleNext);
              t.wire == s.wire + [Snapshot(t.session)] && t.session == Performed(s.session, Controlled(event.action))
    ensures event == Other ==> Done(s, HandleNext).wire == s.wire
  {
  }

  lemma TicksAreAnswered(s: State)
    requires s.place == Awaiting && !s.inbox.recv.Read? && !s.outbox.get.Got?
    ensures Done(s, Wake(None)).wire == s.wire + [Snapshot(s.session)]
  {
  }

  /** The whole reply goes out, and then the sync, before the next event is looked at. */
  lemma RepliesGoOut(s: State, unsent: seq<Message>, sync: bool, rest: seq<Event>)
    requires s.place == Replying(unsent, sync, rest)
    ensures var t := Done(s, SendNext);
            if unsent != [] then t.place == Replying(unsent[1..], sync, rest) && t.wire == s.wire + [unsent[0]]
            else t.wire == s.wire && t.place == if sync then Syncing(s.session.mode, rest) else Handling(rest)
  {
  }

  /** A mode is asked for over HTTP in any capitalisation, with any blanks around it. */
  lemma ModeRequestsAreServed(s: State, before: string, name: string, after: string)
    requires AllSpace(before) && AllSpace(after) && name != "" && !IsSpace(name[0]) && !IsSpace(name[|name| - 1])
    ensures Enabled(s, PostMode(before + name + after)) <==> Lower(name) == "hijack" || Lower(name) == "open"
    ensures Lower(name) == "hijack" ==> Done(s, PostMode(before + name + after)).session.mode == Hijack
    ensures Lower(name) == "open" ==>
              Done(s, PostMode(before + name + after)) == s.(handlers := s.handlers + [FreeingLease])
  {
    StripIgnoresBlanksAround(before, name, after);
  }

  /** Opening over HTTP frees the lease first, which ends a pause, then opens the session. */
  lemma OpeningFreesTheLease(s: State, id: nat, released: bool)
    requires Enabled(s, HandlerFrees(id, released))
    ensures var t := Done(s, HandlerFrees(id, released));
            t.session.mode == Open && t.session.paused == (s.session.paused && !released)
  {
  }

  // ---- What the hub does with a hello and with a request ----

  /**
   A register takes every hello. The shipped hub takes all but one that would open a session
   held in `hijack` by a decision or a lease, and a mode other than the decided one ends the decision.
   */
  lemma HellosAtTheHub(h: Hub, mode: Mode)
    ensures var after := HelloTaken(h, mode);
            var held := h.kind == Deciding && h.mode == Hijack && (h.decided || h.leased);
            && after.mode == (if held then Hijack else mode)
            && after.decided == (h.decided && (held || mode == h.mode))
            && after.leased == h.leased && after.kind == h.kind
            && (after.standing <==> held && mode == Open)
  {
  }

  /** An accepted request decides the mode; the shipped hub accepts none that would open a leased session. */
  lemma RequestsAtTheHub(h: Hub, mode: Mode, accepted: bool)
    ensures h.kind == Deciding && mode == Open && h.leased ==> !MaySync(h, mode, true)
    ensures MaySync(h, mode, false)
    ensures Synced(h, mode, true).mode == mode && Synced(h, mode, true).decided && !Synced(h, mode, true).standing
    ensures Synced(h, mode, false) == h
  {
  }
}
