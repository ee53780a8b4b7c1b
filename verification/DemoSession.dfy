/**
 What the demo session does to its own state, as functions on a value that holds the
 session's fields. `SessionObjects` proves the object whose fields are assigned in place
 against these functions, and `WorkerProtocol` runs them under every interleaving.

 Texts shown to a person are reduced to the data they carry (`Note`).
 */
module DemoSession {
  import opened Options
  import opened Text

  datatype Mode = Hijack | Open

  datatype Source = Terminal | Http

  datatype Speaker = System | User | Responder

  /** What a transcript line says. */
  datatype Note =
    | Online
    | Welcome
    | ModeIs(mode: Mode, source: Source)
    | LeaseAcquired
    | LeaseReleased
    | ReleasedForSharing
    | Stepped(turn: nat)
    | IgnoredControl(action: string)
    | Help
    | ModeUsage
    | StatusIs(mode: Mode, paused: bool, turns: nat)
    | NickUsage
    | NickIs(nick: string)
    | SayUsage
    | Said(nick: string, words: string)
    | DemoReply
    | UnknownCommand(name: string)
    | Received(words: string)

  datatype Entry = Entry(speaker: Speaker, note: Note)

  const LIVE := "Live"
  const PAUSED := "Paused for hijack"
  const TRANSCRIPT_LIMIT := 10
  const NICK_LIMIT := 24

  datatype Session = Session(
    mode: Mode,
    paused: bool,
    connected: bool,
    turns: nat,
    transcript: seq<Entry>,
    statusLine: string,
    nickname: string,
    lastCommand: Option<string>)

  /** A message for the hub. A snapshot or an analysis is a rendering of the session it was built from. */
  datatype Message = Hello(mode: Mode) | Snapshot(view: Session) | Analysis(view: Session)

  datatype Reply = Reply(session: Session, messages: seq<Message>)

  const OPENING: seq<Entry> := [Entry(System, Online), Entry(Responder, Welcome)]

  function NewSession(): Session {
    Session(Hijack, false, false, 0, OPENING, LIVE, "user", None)
  }

  /** Reset in place: everything returns to the defaults except the connection. */
  function Restored(s: Session): Session {
    NewSession().(connected := s.connected)
  }

  function LastTen(entries: seq<Entry>): (r: seq<Entry>) {
    if |entries| <= TRANSCRIPT_LIMIT then entries else entries[|entries| - TRANSCRIPT_LIMIT..]
  }

  function Appended(s: Session, speaker: Speaker, note: Note): Session {
    s.(transcript := LastTen(s.transcript + [Entry(speaker, note)]))
  }

  function Normalized(data: string): string {
    Strip(seq(|data|, i requires 0 <= i < |data| =>
      if data[i] == '\r' then '\n' else if data[i] == '\t' then ' ' else data[i]))
  }

  /** The command word and the argument of a normalized line that starts with a slash. */
  function Command(text: string): string {
    TextBefore(text, ' ')
  }

  function Argument(text: string): string {
    Strip(TextAfter(text, ' '))
  }

  function ModeNamed(name: string): Option<Mode> {
    if name == "hijack" then Some(Hijack) else if name == "open" then Some(Open) else None
  }

  function StateUpdate(s: Session): seq<Message> {
    [Hello(s.mode), Snapshot(s)]
  }

  function WithMode(s: Session, mode: Mode, source: Source): Session {
    Appended(s.(mode := mode, lastCommand := Some(if mode == Hijack then "/mode hijack" else "/mode open")),
             System, ModeIs(mode, source))
  }

  function ControlApplied(s: Session, action: string): Session {
    if action == "pause" then
      Appended(s.(paused := true, statusLine := PAUSED), System, LeaseAcquired)
    else if action == "resume" then
      Appended(s.(paused := false, statusLine := LIVE), System, LeaseReleased)
    else if action == "step" then
      Appended(s.(turns := s.turns + 1), System, Stepped(s.turns + 1))
    else
      Appended(s, System, IgnoredControl(action))
  }

  datatype Verb = ToHelp | ToClear | ToMode | ToStatus | ToNick | ToSay | ToDemo | ToReset | ToNothing

  function VerbOf(cmd: string): Verb {
    if cmd == "/help" then ToHelp
    else if cmd == "/clear" then ToClear
    else if cmd == "/mode" then ToMode
    else if cmd == "/status" then ToStatus
    else if cmd == "/nick" then ToNick
    else if cmd == "/say" then ToSay
    else if cmd == "/demo" then ToDemo
    else if cmd == "/reset" then ToReset
    else ToNothing
  }

  function Nick(arg: string): string {
    if |arg| <= NICK_LIMIT then arg else arg[..NICK_LIMIT]
  }

  /** The session after one slash command, its turn already counted. */
  function CommandApplied(s: Session, cmd: string, arg: string): Session {
    match VerbOf(cmd)
    case ToHelp => Appended(s, System, Help)
    case ToClear => s.(transcript := [])
    case ToMode =>
      (match ModeNamed(Lower(arg))
       case None => Appended(s, System, ModeUsage)
       case Some(mode) => WithMode(s, mode, Terminal))
    case ToStatus => Appended(s, System, StatusIs(s.mode, s.paused, s.turns))
    case ToNick =>
      if arg == "" then Appended(s, System, NickUsage)
      else Appended(s.(nickname := Nick(arg)), System, NickIs(Nick(arg)))
    case ToSay =>
      if arg == "" then Appended(s, System, SayUsage)
      else Appended(s, User, Said(s.nickname, arg))
    case ToDemo => Appended(s, Responder, DemoReply)
    case ToReset => Restored(s).(lastCommand := Some("/reset"))
    case ToNothing => Appended(s, System, UnknownCommand(cmd))
  }

  /** Whether a command announces the mode again rather than only showing the screen. */
  predicate Announces(cmd: string, arg: string) {
    VerbOf(cmd) == ToReset || (VerbOf(cmd) == ToMode && ModeNamed(Lower(arg)).Some?)
  }

  function InputApplied(s: Session, data: string): (r: Reply)
    ensures 1 <= |r.messages| <= 2
  {
    var text := Normalized(data);
    if text == "" then
      Reply(s, [Snapshot(s)])
    else
      var counted := s.(turns := s.turns + 1);
      if StartsWith(text, "/") then
        var cmd := Command(text);
        var arg := Argument(text);
        var after := CommandApplied(counted.(lastCommand := Some(cmd)), cmd, arg);
        Reply(after, if Announces(cmd, arg) then StateUpdate(after) else [Snapshot(after)])
      else
        var after := Appended(Appended(counted, User, Said(s.nickname, text)), Responder, Received(text));
        Reply(after, [Snapshot(after)])
  }

  function LeaseDropped(s: Session): Session {
    Appended(s.(paused := false, statusLine := LIVE), System, ReleasedForSharing)
  }

  /**
   The input path hands its messages over one await at a time without re-rendering them,
   so it is right only because a hello, when there is one, is the first message and
   carries the mode the input left behind, and because no mode changes without one.
   */
  lemma InputRepliesLeadWithTheLiveMode(s: Session, data: string)
    ensures var r := InputApplied(s, data);
            && (r.messages[0].Hello? ==> r.messages[0].mode == r.session.mode)
            && (forall i :: 1 <= i < |r.messages| ==> !r.messages[i].Hello?)
            && (r.session.mode != s.mode ==> r.messages[0].Hello?)
            && r.session.connected == s.connected
  {
  }

  // ---- Everything that can happen to a session, and its history ----

  datatype Act =
    | Typed(data: string)
    | Controlled(action: string)
    | SetOverHttp(mode: Mode)
    | Released
    | ResetOverHttp

  function Performed(s: Session, act: Act): Session {
    match act
    case Typed(data) => InputApplied(s, data).session
    case Controlled(action) => ControlApplied(s, action)
    case SetOverHttp(mode) => WithMode(s, mode, Http)
    case Released => LeaseDropped(s)
    case ResetOverHttp => Restored(s)
  }

  datatype Happening = Happening(before: Session, act: Act)
}
