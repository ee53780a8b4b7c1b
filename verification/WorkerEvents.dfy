/**
 From the decoder to the session: every event the decoder produces is acted on once and in
 order, and the inputs and controls among them are the ones in the session's history.
 */
module WorkerEvents {
  import opened Options
  import opened DemoSession
  import opened WorkerProtocol

  /** The events of the batch in hand not yet acted on. */
  function Pending(place: Place): seq<Event> {
    match place
    case Handling(events) => events
    case Releasing(data, rest) => [Input(data)] + rest
    case Replying(_, _, rest) => rest
    case Syncing(_, rest) => rest
    case _ => []
  }

  /** What an event makes the worker do to the session. */
  function ActOf(event: Event): Option<Act> {
    match event
    case Input(data) => Some(Typed(data))
    case Control(action) => Some(Controlled(action))
    case _ => None
  }

  function ActsOf(events: seq<Event>): seq<Act> {
    if events == [] then []
    else
      var last := |events| - 1;
      ActsOf(events[..last]) + (if ActOf(events[last]).Some? then [ActOf(events[last]).value] else [])
  }

  predicate IsWorkerAct(act: Act) {
    act.Typed? || act.Controlled?
  }

  /** What the worker did, leaving out the acts of the endpoints. */
  function WorkerActs(past: seq<Happening>): seq<Act> {
    if past == [] then []
    else
      var last := |past| - 1;
      WorkerActs(past[..last]) + (if IsWorkerAct(past[last].act) then [past[last].act] else [])
  }

  /** The commands acted on are the worker's acts since the connection began. */
  predicate CommandsInHistory(p: Progress, past: seq<Happening>) {
    p.since <= |past| && WorkerActs(past[p.since..]) == ActsOf(p.served)
  }

  predicate EveryEventOnce(s: State) {
    && s.progress.served <= s.progress.decoded
    && (s.place != Down ==> s.progress.served + Pending(s.place) == s.progress.decoded)
    && CommandsInHistory(s.progress, s.past)
  }

  lemma PastGrows(past: seq<Happening>, since: nat, h: Happening)
    requires since <= |past|
    ensures WorkerActs((past + [h])[since..])
         == WorkerActs(past[since..]) + (if IsWorkerAct(h.act) then [h.act] else [])
  {
    var longer := (past + [h])[since..];
    assert longer == past[since..] + [h];
    assert longer[..|longer| - 1] == past[since..];
  }

  lemma ServedGrows(served: seq<Event>, event: Event)
    ensures ActsOf(served + [event])
         == ActsOf(served) + (if ActOf(event).Some? then [ActOf(event).value] else [])
  {
    assert (served + [event])[..|served|] == served;
  }

  /** An act of an endpoint changes nothing the worker did. */
  lemma OtherActKeepsCommands(s: State, act: Act)
    requires CommandsInHistory(s.progress, s.past) && !IsWorkerAct(act)
    ensures CommandsInHistory(s.progress, Enacted(s, act).past)
  {
    PastGrows(s.past, s.progress.since, Happening(s.session, act));
  }

  lemma CommandServed(s: State, event: Event)
    requires CommandsInHistory(s.progress, s.past) && ActOf(event).Some?
    ensures CommandsInHistory(Serving(s, event).progress, Enacted(s, ActOf(event).value).past)
  {
    PastGrows(s.past, s.progress.since, Happening(s.session, ActOf(event).value));
    ServedGrows(s.progress.served, event);
  }

  lemma RequestServed(s: State, event: Event)
    requires CommandsInHistory(s.progress, s.past) && ActOf(event) == None
    ensures CommandsInHistory(Serving(s, event).progress, s.past)
  {
    ServedGrows(s.progress.served, event);
  }

  /** The event at the front of the batch in hand is the next one of those decoded. */
  lemma NextIsServed(p: Progress, event: Event, rest: seq<Event>)
    requires p.served + ([event] + rest) == p.decoded
    ensures p.served + [event] + rest == p.decoded && p.served + [event] <= p.decoded
  {
  }

  lemma AnsweredServesOnce(s: State, data: string, rest: seq<Event>)
    requires CommandsInHistory(s.progress, s.past)
    requires s.progress.served + ([Input(data)] + rest) == s.progress.decoded
    ensures EveryEventOnce(Answered(s, data, rest))
  {
    NextIsServed(s.progress, Input(data), rest);
    CommandServed(s, Input(data));
  }

  lemma HandledServesOnce(s: State)
    requires s.place.Handling? && EveryEventOnce(s)
    ensures EveryEventOnce(Handled(s))
  {
    if s.place.events != [] {
      var event, rest := s.place.events[0], s.place.events[1..];
      assert s.place.events == [event] + rest;
      NextIsServed(s.progress, event, rest);
      match event {
        case Input(data) => AnsweredServesOnce(s, data, rest);
        case Control(_) => CommandServed(s, event);
        case _ => RequestServed(s, event);
      }
    }
  }

  lemma DecodingServesNone(s: State, events: seq<Event>)
    requires EveryEventOnce(s) && s.place == Awaiting
    ensures EveryEventOnce(Decoding(s, events))
  {
    assert s.progress.served + [] == s.progress.served;
  }

  lemma WokenServesNone(s: State, decoded: Option<seq<Event>>)
    requires EveryEventOnce(s) && s.place == Awaiting
    ensures EveryEventOnce(Woken(s, decoded))
  {
    if s.inbox.recv.Read? && decoded.Some? {
      DecodingServesNone(s, decoded.value);
    }
  }

  lemma ReleasedServesOnce(s: State, released: bool)
    requires s.place.Releasing? && EveryEventOnce(s)
    ensures EveryEventOnce(Answered(if released then Enacted(s, Released) else s, s.place.data, s.place.rest))
  {
    OtherActKeepsCommands(s, Released);
    AnsweredServesOnce(if released then Enacted(s, Released) else s, s.place.data, s.place.rest);
  }

  lemma WorkerServesOnce(s: State, a: Action)
    requires EveryEventOnce(s) && Enabled(s, a)
    ensures EveryEventOnce(WorkerDone(s, a))
  {
    match a {
      case Wake(decoded) => WokenServesNone(s, decoded);
      case HandleNext => HandledServesOnce(s);
      case FinishRelease(released) => ReleasedServesOnce(s, released);
      case Connect => assert s.past[|s.past|..] == [];
      case _ =>
    }
  }

  lemma ModeSetServesNone(s: State, id: nat, mode: Mode)
    requires EveryEventOnce(s) && id < |s.handlers|
    ensures EveryEventOnce(ModeSet(s, id, mode))
  {
    OtherActKeepsCommands(s, SetOverHttp(mode));
  }

  lemma PostedServesNone(s: State, mode: Mode)
    requires EveryEventOnce(s)
    ensures EveryEventOnce(Posted(s, mode))
  {
    ModeSetServesNone(s.(handlers := s.handlers + [FreeingLease]), |s.handlers|, mode);
  }

  lemma FreedServesNone(s: State, id: nat, released: bool)
    requires EveryEventOnce(s) && id < |s.handlers|
    ensures EveryEventOnce(ModeSet(if released then Enacted(s, Released) else s, id, Open))
  {
    OtherActKeepsCommands(s, Released);
    ModeSetServesNone(if released then Enacted(s, Released) else s, id, Open);
  }

  /** Every step keeps it: no event is skipped, repeated or taken out of turn. */
  lemma ServesOnce(s: State, a: Action)
    requires EveryEventOnce(s) && Enabled(s, a)
    ensures EveryEventOnce(Done(s, a))
  {
    match a {
      case PostMode(payload) => PostedServesNone(s, Requested(payload).value);
      case HandlerFrees(id, released) => FreedServesNone(s, id, released);
      case PostReset => OtherActKeepsCommands(s, ResetOverHttp);
      case FrameArrives(_) => case FinishRead => case FinishGet => case Deliver => case Lease(_) =>
      case Forget => case HandlerSyncs(_, _) => case HandlerAnnounces(_) =>
      case _ => WorkerServesOnce(s, a);
    }
  }
}
