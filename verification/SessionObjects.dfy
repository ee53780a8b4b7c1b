/**
 The session, its outbound queue and the session registry as the objects the demo server
 assigns to in place. Every method is proved against the functions of `DemoSession`.
 */
module SessionObjects {
  import opened Options
  import opened Text
  import opened DemoSession

  /** The unbounded queue between the request handlers and the worker. */
  class OutboundQueue {
    var items: seq<Message>

    constructor ()
      ensures items == []
    {
      items := [];
    }

    method PutNowait(message: Message)
      modifies this
      ensures items == old(items) + [message]
    {
      items := items + [message];
    }
  }

  class SessionState {
    const workerId: string
    var mode: Mode
    var paused: bool
    var connected: bool
    var turns: nat
    var transcript: seq<Entry>
    var statusLine: string
    var nickname: string
    var lastCommand: Option<string>
    var outboundQueue: OutboundQueue?

    ghost function View(): Session
      reads this
    {
      Session(mode, paused, connected, turns, transcript, statusLine, nickname, lastCommand)
    }

    constructor (workerId: string)
      ensures View() == NewSession() && this.workerId == workerId && outboundQueue == null
    {
      this.workerId := workerId;
      mode, paused, connected, turns := Hijack, false, false, 0;
      transcript := OPENING;
      statusLine, nickname, lastCommand, outboundQueue := LIVE, "user", None, null;
    }

    /** Everything returns to its default but the connection and the queue the worker reads. */
    method RestoreDefaults()
      modifies this
      ensures View() == Restored(old(View())) && outboundQueue == old(outboundQueue)
    {
      mode, paused, turns := Hijack, false, 0;
      transcript := OPENING;
      statusLine, nickname, lastCommand := LIVE, "user", None;
    }

    method AppendEntry(speaker: Speaker, note: Note)
      modifies this`transcript
      ensures View() == Appended(old(View()), speaker, note)
    {
      transcript := transcript + [Entry(speaker, note)];
      if |transcript| > TRANSCRIPT_LIMIT {
        transcript := transcript[|transcript| - TRANSCRIPT_LIMIT..];
      }
    }

    method StateUpdateMessages() returns (messages: seq<Message>)
      ensures messages == StateUpdate(View())
    {
      var view := Session(mode, paused, connected, turns, transcript, statusLine, nickname, lastCommand);
      messages := [Hello(mode), Snapshot(view)];
    }

    method SnapshotOnly() returns (messages: seq<Message>)
      ensures messages == [Snapshot(View())]
    {
      messages := [Snapshot(Session(mode, paused, connected, turns, transcript, statusLine, nickname, lastCommand))];
    }

    method SetInputMode(newMode: Mode, source: Source) returns (messages: seq<Message>)
      modifies this
      ensures View() == WithMode(old(View()), newMode, source) && outboundQueue == old(outboundQueue)
      ensures messages == StateUpdate(View())
    {
      mode := newMode;
      lastCommand := Some(if newMode == Hijack then "/mode hijack" else "/mode open");
      AppendEntry(System, ModeIs(mode, source));
      messages := StateUpdateMessages();
    }

    method ApplyControl(action: string) returns (messages: seq<Message>)
      modifies this
      ensures View() == ControlApplied(old(View()), action) && outboundQueue == old(outboundQueue)
      ensures messages == [Snapshot(View())]
    {
      if action == "pause" {
        paused, statusLine := true, PAUSED;
        AppendEntry(System, LeaseAcquired);
      } else if action == "resume" {
        paused, statusLine := false, LIVE;
        AppendEntry(System, LeaseReleased);
      } else if action == "step" {
        turns := turns + 1;
        AppendEntry(System, Stepped(turns));
      } else {
        AppendEntry(System, IgnoredControl(action));
      }
      messages := SnapshotOnly();
    }

    /** One slash command, after its turn is counted and its name recorded. */
    method RunCommand(cmd: string, arg: string) returns (messages: seq<Message>)
      modifies this
      ensures View() == CommandApplied(old(View()), cmd, arg) && outboundQueue == old(outboundQueue)
      ensures messages == if Announces(cmd, arg) then StateUpdate(View()) else [Snapshot(View())]
    {
      match VerbOf(cmd) {
        case ToMode => { messages := RunModeCommand(arg); return; }
        case ToReset => {
          RestoreDefaults();
          lastCommand := Some("/reset");
          messages := StateUpdateMessages();
          return;
        }
        case ToHelp => { AppendEntry(System, Help); }
        case ToClear => { transcript := []; }
        case ToStatus => { AppendEntry(System, StatusIs(mode, paused, turns)); }
        case ToNick => { RunNickCommand(arg); }
        case ToSay => {
          if arg == "" { AppendEntry(System, SayUsage); } else { AppendEntry(User, Said(nickname, arg)); }
        }
        case ToDemo => { AppendEntry(Responder, DemoReply); }
        case ToNothing => { AppendEntry(System, UnknownCommand(cmd)); }
      }
      messages := SnapshotOnly();
    }

    method RunModeCommand(arg: string) returns (messages: seq<Message>)
      modifies this
      ensures View() == CommandApplied(old(View()), "/mode", arg) && outboundQueue == old(outboundQueue)
      ensures messages == if Announces("/mode", arg) then StateUpdate(View()) else [Snapshot(View())]
    {
      var target := ModeNamed(Lower(arg));
      if target == None {
        AppendEntry(System, ModeUsage);
        messages := SnapshotOnly();
      } else {
        messages := SetInputMode(target.value, Terminal);
      }
    }

    method RunNickCommand(arg: string)
      modifies this
      ensures View() == CommandApplied(old(View()), "/nick", arg) && outboundQueue == old(outboundQueue)
    {
      if arg == "" {
        AppendEntry(System, NickUsage);
      } else {
        nickname := Nick(arg);
        AppendEntry(System, NickIs(nickname));
      }
    }

    method ApplyInput(data: string) returns (messages: seq<Message>)
      modifies this
      ensures Reply(View(), messages) == InputApplied(old(View()), data) && outboundQueue == old(outboundQueue)
    {
      var text := Normalized(data);
      if text == "" {
        messages := SnapshotOnly();
        return;
      }
      turns := turns + 1;
      if StartsWith(text, "/") {
        lastCommand := Some(Command(text));
        messages := RunCommand(Command(text), Argument(text));
        return;
      }
      AppendEntry(User, Said(nickname, text));
      AppendEntry(Responder, Received(text));
      messages := SnapshotOnly();
    }

    /** Hand messages to the worker; without a connection there is no queue and they are dropped. */
    method Enqueue(messages: seq<Message>)
      modifies outboundQueue
      ensures outboundQueue != null ==> outboundQueue.items == old(outboundQueue.items) + messages
    {
      if outboundQueue == null {
        return;
      }
      for i := 0 to |messages|
        invariant outboundQueue.items == old(outboundQueue.items) + messages[..i]
      {
        outboundQueue.PutNowait(messages[i]);
        assert messages[..i + 1] == messages[..i] + [messages[i]];
      }
      assert messages[..|messages|] == messages;
    }
  }

  /** A request that goes through the registry. */
  datatype Visit = Lookup(workerId: string) | Reset(workerId: string)

  class Registry {
    var sessions: map<string, SessionState>

    /** Every session is filed under its own worker id, so no two ids share an object. */
    ghost predicate Valid()
      reads this
    {
      forall id :: id in sessions ==> sessions[id].workerId == id
    }

    ghost function Sessions(): set<SessionState>
      reads this
    {
      sessions.Values
    }

    ghost function Queues(): set<object>
      reads this, sessions.Values
    {
      set s | s in sessions.Values && s.outboundQueue != null :: s.outboundQueue
    }

    constructor ()
      ensures Valid() && sessions == map[]
    {
      sessions := map[];
    }

    method GetOrCreate(workerId: string) returns (session: SessionState)
      requires Valid()
      modifies this
      ensures Valid() && workerId in sessions && sessions[workerId] == session
      ensures workerId in old(sessions) ==> sessions == old(sessions)
      ensures workerId !in old(sessions) ==>
                fresh(session) && session.View() == NewSession() && session.outboundQueue == null
                && sessions == old(sessions)[workerId := session]
    {
      if workerId in sessions {
        session := sessions[workerId];
      } else {
        session := new SessionState(workerId);
        sessions := sessions[workerId := session];
      }
    }

    /** Reset in place, so a worker that captured the object keeps the one the handlers use. */
    method ResetSession(workerId: string) returns (session: SessionState)
      requires Valid()
      modifies this, Sessions()
      ensures Valid() && workerId in sessions && sessions[workerId] == session
      ensures workerId in old(sessions) ==>
                sessions == old(sessions) && session.View() == Restored(old(sessions[workerId].View()))
                && session.outboundQueue == old(sessions[workerId].outboundQueue)
      ensures workerId !in old(sessions) ==>
                fresh(session) && session.View() == NewSession() && session.outboundQueue == null
                && sessions == old(sessions)[workerId := session]
      ensures forall other :: other in old(sessions) && other != workerId ==> unchanged(old(sessions)[other])
    {
      if workerId in sessions {
        session := sessions[workerId];
        session.RestoreDefaults();
      } else {
        session := new SessionState(workerId);
        sessions := sessions[workerId := session];
      }
    }

    /** The reset endpoints: restore, then announce the restored mode through the queue. */
    method ResetEndpoint(workerId: string)
      requires Valid()
      modifies this, Sessions(), Queues()
      ensures Valid() && workerId in sessions
      ensures workerId in old(sessions) ==> sessions == old(sessions)
      ensures workerId !in old(sessions) ==>
                fresh(sessions[workerId]) && sessions[workerId].outboundQueue == null
                && sessions == old(sessions)[workerId := sessions[workerId]]
      ensures workerId in old(sessions) ==>
                var s := old(sessions)[workerId];
                && s.View() == Restored(old(s.View()))
                && s.outboundQueue == old(s.outboundQueue)
                && (s.outboundQueue != null ==>
                      s.outboundQueue.items == old(s.outboundQueue.items) + StateUpdate(s.View()))
      ensures forall other :: other in old(sessions) && other != workerId ==> unchanged(old(sessions)[other])
      ensures forall q: OutboundQueue :: q in old(Queues()) ==> old(q.items) <= q.items
    {
      var session := ResetSession(workerId);
      var messages := session.StateUpdateMessages();
      session.Enqueue(messages);
    }

    /** Forget every session. Afterwards a worker's captured object is nobody's session. */
    method ResetAll()
      modifies this
      ensures Valid() && sessions == map[]
    {
      sessions := map[];
    }

    /** One request: every filed session stays the same object on the same queue. */
    method ServeVisit(visit: Visit)
      requires Valid()
      modifies this, Sessions(), Queues()
      ensures Valid()
      ensures forall id :: id in old(sessions) ==> id in sessions && sessions[id] == old(sessions)[id]
      ensures forall id :: id in old(sessions) ==> sessions[id].outboundQueue == old(sessions[id].outboundQueue)
      ensures forall id :: id in old(sessions) ==> sessions[id].connected == old(sessions[id].connected)
      ensures forall id :: id in sessions && id !in old(sessions) ==> fresh(sessions[id])
      ensures forall id :: id in sessions && id !in old(sessions) ==> sessions[id].outboundQueue == null
      ensures forall q: OutboundQueue :: q in old(Queues()) ==> old(q.items) <= q.items
    {
      match visit {
        case Lookup(id) => { var _ := GetOrCreate(id); }
        case Reset(id) => { ResetEndpoint(id); }
      }
    }

    /**
     A worker captures its session once. However many lookups and in-place resets of any
     sessions follow, the registry still files that very object under its id, with the same
     live queue and connection, and nothing already queued for it is lost or reordered.
     */
    method ServeVisits(visits: seq<Visit>, captured: SessionState)
      requires Valid() && captured.workerId in sessions && sessions[captured.workerId] == captured
      modifies this, Sessions(), Queues()
      ensures Valid() && captured.workerId in sessions && sessions[captured.workerId] == captured
      ensures captured.outboundQueue == old(captured.outboundQueue)
      ensures captured.connected == old(captured.connected)
      ensures captured.outboundQueue != null ==> old(captured.outboundQueue.items) <= captured.outboundQueue.items
      decreases |visits|
    {
      if visits != [] {
        ServeVisit(visits[0]);
        assert captured.outboundQueue != null ==> captured.outboundQueue in Queues();
        ServeVisits(visits[1..], captured);
      }
    }
  }
}
