/**
 What the fields of a demo session have to do with everything that happened to it: each is
 told from the acts alone, without the functions that perform them.
 */
module SessionHistory {
  import opened Options
  import opened Text
  import opened DemoSession

  /** The act is a typed line whose first word is this command. */
  predicate IsCommand(act: Act, name: string) {
    act.Typed? && var text := Normalized(act.data); StartsWith(text, "/") && Command(text) == name
  }

  predicate Resets(act: Act) {
    act.ResetOverHttp? || IsCommand(act, "/reset")
  }

  predicate TakesATurn(act: Act) {
    (act.Typed? && Normalized(act.data) != "") || (act.Controlled? && act.action == "step")
  }

  /** Non-empty inputs and step controls since the last reset. */
  function TurnsSinceReset(past: seq<Happening>): nat {
    if past == [] then 0
    else
      var last := past[|past| - 1];
      if Resets(last.act) then 0
      else TurnsSinceReset(past[..|past| - 1]) + (if TakesATurn(last.act) then 1 else 0)
  }

  /** The lines an act writes, in order; a reset writes the two opening lines. */
  function LinesOf(h: Happening): seq<Entry> {
    var s := h.before;
    match h.act
    case Controlled(action) =>
      [Entry(System,
             if action == "pause" then LeaseAcquired
             else if action == "resume" then LeaseReleased
             else if action == "step" then Stepped(s.turns + 1)
             else IgnoredControl(action))]
    case SetOverHttp(mode) => [Entry(System, ModeIs(mode, Http))]
    case Released => [Entry(System, ReleasedForSharing)]
    case ResetOverHttp => OPENING
    case Typed(data) =>
      var text := Normalized(data);
      if text == "" then []
      else if !StartsWith(text, "/") then [Entry(User, Said(s.nickname, text)), Entry(Responder, Received(text))]
      else CommandLines(s, Command(text), Argument(text))
  }

  function CommandLines(s: Session, cmd: string, arg: string): seq<Entry> {
    if cmd == "/clear" then []
    else if cmd == "/reset" then OPENING
    else if cmd == "/help" then [Entry(System, Help)]
    else if cmd == "/mode" then
      [Entry(System,
             if Lower(arg) == "hijack" then ModeIs(Hijack, Terminal)
             else if Lower(arg) == "open" then ModeIs(Open, Terminal)
             else ModeUsage)]
    else if cmd == "/status" then [Entry(System, StatusIs(s.mode, s.paused, s.turns + 1))]
    else if cmd == "/nick" then [Entry(System, if arg == "" then NickUsage else NickIs(FirstOf(arg, 24)))]
    else if cmd == "/say" then [if arg == "" then Entry(System, SayUsage) else Entry(User, Said(s.nickname, arg))]
    else if cmd == "/demo" then [Entry(Responder, DemoReply)]
    else [Entry(System, UnknownCommand(cmd))]
  }

  function FirstOf(s: string, n: nat): string {
    if |s| <= n then s else s[..n]
  }

  /** Every line written since the transcript was last emptied, by a clear or by a reset. */
  function WrittenSinceClear(past: seq<Happening>): seq<Entry> {
    if past == [] then OPENING
    else
      var last := past[|past| - 1];
      if Resets(last.act) || IsCommand(last.act, "/clear") then LinesOf(last)
      else WrittenSinceClear(past[..|past| - 1]) + LinesOf(last)
  }

  /** The status line is the pause notice exactly while the session is paused. */
  predicate StatusAgrees(s: Session) {
    s.statusLine == if s.paused then "Paused for hijack" else "Live"
  }

  // ---- The other fields, act by act ----

  function PausedNext(paused: bool, act: Act): bool {
    if act == Controlled("pause") then true
    else if act == Controlled("resume") || act.Released? || Resets(act) then false
    else paused
  }

  /** The history ends paused. */
  predicate PausedBy(past: seq<Happening>) {
    past != [] && PausedNext(PausedBy(past[..|past| - 1]), past[|past| - 1].act)
  }

  /** The mode an argument of `/mode` names, in any capitalisation. */
  function NamedMode(arg: string): Option<Mode> {
    if Lower(arg) == "hijack" then Some(Hijack) else if Lower(arg) == "open" then Some(Open) else None
  }

  function ModeNext(mode: Mode, act: Act): Mode {
    if Resets(act) then Hijack
    else if act.SetOverHttp? then act.mode
    else if IsCommand(act, "/mode") && NamedMode(Argument(Normalized(act.data))).Some? then
      NamedMode(Argument(Normalized(act.data))).value
    else mode
  }

  function ModeBy(past: seq<Happening>): Mode {
    if past == [] then Hijack else ModeNext(ModeBy(past[..|past| - 1]), past[|past| - 1].act)
  }

  function NickNext(nick: string, act: Act): string {
    if Resets(act) then "user"
    else if IsCommand(act, "/nick") && Argument(Normalized(act.data)) != "" then
      FirstOf(Argument(Normalized(act.data)), 24)
    else nick
  }

  function NickBy(past: seq<Happening>): string {
    if past == [] then "user" else NickNext(NickBy(past[..|past| - 1]), past[|past| - 1].act)
  }

  function Spelled(mode: Mode): string {
    if mode == Hijack then "/mode hijack" else "/mode open"
  }

  /** The last command: a typed one under its first word, but a mode change, from either side, in full. */
  function LastCommandNext(command: Option<string>, act: Act): Option<string> {
    match act
    case ResetOverHttp => None
    case SetOverHttp(mode) => Some(Spelled(mode))
    case Typed(data) =>
      var text := Normalized(data);
      if !StartsWith(text, "/") then command
      else if Command(text) == "/mode" && NamedMode(Argument(text)).Some? then Some(Spelled(NamedMode(Argument(text)).value))
      else Some(Command(text))
    case _ => command
  }

  function LastCommandBy(past: seq<Happening>): Option<string> {
    if past == [] then None else LastCommandNext(LastCommandBy(past[..|past| - 1]), past[|past| - 1].act)
  }

  /** What the fields of a session have to do with each other and with its history. */
  predicate Explained(s: Session, past: seq<Happening>) {
    && s.turns == TurnsSinceReset(past)
    && s.transcript == LastTen(WrittenSinceClear(past))
    && StatusAgrees(s)
    && s.paused == PausedBy(past)
    && s.mode == ModeBy(past)
    && s.nickname == NickBy(past)
    && s.lastCommand == LastCommandBy(past)
  }

  lemma LastTenIsASuffix(entries: seq<Entry>)
    ensures |LastTen(entries)| == if |entries| < 10 then |entries| else 10
    ensures LastTen(entries) == entries[|entries| - |LastTen(entries)|..]
  {
  }

  lemma LastTenOfAppended(written: seq<Entry>, e: Entry)
    ensures LastTen(LastTen(written) + [e]) == LastTen(written + [e])
  {
  }

  /** The lines of a command, told by the verb it is dispatched on. */
  function LinesOfVerb(s: Session, verb: Verb, cmd: string, arg: string): seq<Entry> {
    match verb
    case ToClear => []
    case ToReset => OPENING
    case ToHelp => [Entry(System, Help)]
    case ToMode =>
      [Entry(System, match ModeNamed(Lower(arg)) { case None => ModeUsage case Some(mode) => ModeIs(mode, Terminal) })]
    case ToStatus => [Entry(System, StatusIs(s.mode, s.paused, s.turns + 1))]
    case ToNick => [Entry(System, if arg == "" then NickUsage else NickIs(Nick(arg)))]
    case ToSay => [if arg == "" then Entry(System, SayUsage) else Entry(User, Said(s.nickname, arg))]
    case ToDemo => [Entry(Responder, DemoReply)]
    case ToNothing => [Entry(System, UnknownCommand(cmd))]
  }

  /** Each command word is dispatched as itself. */
  lemma VerbsAreNamed(cmd: string)
    ensures VerbOf(cmd) == ToClear <==> cmd == "/clear"
    ensures VerbOf(cmd) == ToReset <==> cmd == "/reset"
    ensures VerbOf(cmd) == ToMode <==> cmd == "/mode"
    ensures VerbOf(cmd) == ToNick <==> cmd == "/nick"
  {
  }

  lemma LinesAreOfTheVerb(s: Session, cmd: string, arg: string)
    ensures CommandLines(s, cmd, arg) == LinesOfVerb(s, VerbOf(cmd), cmd, arg)
  {
  }

  /** One line per command other than the two that empty the transcript. */
  lemma VerbWritesOneLine(s: Session, counted: Session, cmd: string, arg: string)
    requires counted == s.(turns := s.turns + 1, lastCommand := counted.lastCommand)
    requires VerbOf(cmd) != ToClear && VerbOf(cmd) != ToReset
    ensures |LinesOfVerb(s, VerbOf(cmd), cmd, arg)| == 1
    ensures CommandApplied(counted, cmd, arg).transcript
         == LastTen(s.transcript + LinesOfVerb(s, VerbOf(cmd), cmd, arg))
    ensures CommandApplied(counted, cmd, arg).turns == s.turns + 1
  {
  }

  lemma CommandWritesOneLine(s: Session, counted: Session, cmd: string, arg: string, lines: seq<Entry>)
    requires counted == s.(turns := s.turns + 1, lastCommand := counted.lastCommand)
    requires VerbOf(cmd) != ToClear && VerbOf(cmd) != ToReset && lines == CommandLines(s, cmd, arg)
    ensures |lines| == 1
    ensures CommandApplied(counted, cmd, arg).transcript == LastTen(s.transcript + lines)
    ensures CommandApplied(counted, cmd, arg).turns == s.turns + 1
  {
    LinesAreOfTheVerb(s, cmd, arg);
    VerbWritesOneLine(s, counted, cmd, arg);
  }

  lemma CommandKeepsStatus(s: Session, cmd: string, arg: string)
    requires StatusAgrees(s)
    ensures StatusAgrees(CommandApplied(s, cmd, arg))
  {
  }

  lemma ActsKeepStatus(s: Session, act: Act)
    requires StatusAgrees(s)
    ensures StatusAgrees(Performed(s, act))
  {
    if IsSlash(act) {
      CommandKeepsStatus(Counted(s, act), CommandOf(act), ArgumentOf(act));
      SlashIsApplied(s, act);
    }
  }

  // ---- A typed command, in parts ----

  predicate IsSlash(act: Act) {
    act.Typed? && StartsWith(Normalized(act.data), "/")
  }

  function CommandOf(act: Act): string
    requires IsSlash(act)
  {
    Command(Normalized(act.data))
  }

  function ArgumentOf(act: Act): string
    requires IsSlash(act)
  {
    Argument(Normalized(act.data))
  }

  function Counted(s: Session, act: Act): Session
    requires IsSlash(act)
  {
    s.(turns := s.turns + 1, lastCommand := Some(CommandOf(act)))
  }

  lemma SlashIsApplied(s: Session, act: Act)
    requires IsSlash(act)
    ensures Performed(s, act) == CommandApplied(Counted(s, act), CommandOf(act), ArgumentOf(act))
  {
  }

  /** Which command changes which of these fields. */
  lemma CommandEffects(s: Session, cmd: string, arg: string)
    ensures var t := CommandApplied(s, cmd, arg);
            && t.paused == (cmd != "/reset" && s.paused)
            && t.mode == (if cmd == "/reset" then Hijack
                          else if cmd == "/mode" && NamedMode(arg).Some? then NamedMode(arg).value
                          else s.mode)
  {
    VerbsAreNamed(cmd);
  }

  lemma CommandNames(s: Session, cmd: string, arg: string)
    requires s.lastCommand == Some(cmd)
    ensures var t := CommandApplied(s, cmd, arg);
            && t.nickname == (if cmd == "/reset" then "user"
                              else if cmd == "/nick" && arg != "" then FirstOf(arg, 24)
                              else s.nickname)
            && t.lastCommand == (if cmd == "/mode" && NamedMode(arg).Some? then Some(Spelled(NamedMode(arg).value))
                                 else Some(cmd))
  {
    VerbsAreNamed(cmd);
  }

  lemma SlashMovesFields(s: Session, act: Act)
    requires IsSlash(act)
    ensures var t := Performed(s, act);
            && t.paused == PausedNext(s.paused, act) && t.mode == ModeNext(s.mode, act)
            && t.nickname == NickNext(s.nickname, act) && t.lastCommand == LastCommandNext(s.lastCommand, act)
  {
    SlashIsApplied(s, act);
    CommandEffects(Counted(s, act), CommandOf(act), ArgumentOf(act));
    CommandNames(Counted(s, act), CommandOf(act), ArgumentOf(act));
  }

  /** Every act moves these fields as its kind says. */
  lemma ActsMoveFields(s: Session, act: Act)
    ensures var t := Performed(s, act);
            && t.paused == PausedNext(s.paused, act) && t.mode == ModeNext(s.mode, act)
            && t.nickname == NickNext(s.nickname, act) && t.lastCommand == LastCommandNext(s.lastCommand, act)
  {
    if IsSlash(act) {
      SlashMovesFields(s, act);
    }
  }

  lemma FieldsGrow(past: seq<Happening>, h: Happening)
    ensures PausedBy(past + [h]) == PausedNext(PausedBy(past), h.act)
    ensures ModeBy(past + [h]) == ModeNext(ModeBy(past), h.act)
    ensures NickBy(past + [h]) == NickNext(NickBy(past), h.act)
    ensures LastCommandBy(past + [h]) == LastCommandNext(LastCommandBy(past), h.act)
  {
    assert (past + [h])[..|past|] == past;
  }

  lemma HistoryGrows(past: seq<Happening>, h: Happening)
    ensures TurnsSinceReset(past + [h])
         == if Resets(h.act) then 0 else TurnsSinceReset(past) + (if TakesATurn(h.act) then 1 else 0)
    ensures WrittenSinceClear(past + [h])
         == if Resets(h.act) || IsCommand(h.act, "/clear") then LinesOf(h) else WrittenSinceClear(past) + LinesOf(h)
  {
    assert (past + [h])[..|past|] == past;
  }

  /** What one act adds to the count and to the transcript, in terms of the history kinds. */
  ghost predicate ActAccountedFor(s: Session, after: Session, h: Happening) {
    && after.turns == (if Resets(h.act) then 0 else s.turns + (if TakesATurn(h.act) then 1 else 0))
    && (Resets(h.act) || IsCommand(h.act, "/clear") ==> after.transcript == LinesOf(h))
    && (!Resets(h.act) && !IsCommand(h.act, "/clear") ==>
          forall written | s.transcript == LastTen(written) :: after.transcript == LastTen(written + LinesOf(h)))
  }

  lemma CommandKinds(data: string, cmd: string)
    requires Normalized(data) != "" && StartsWith(Normalized(data), "/") && cmd == Command(Normalized(data))
    ensures var act := Typed(data);
            && (Resets(act) <==> cmd == "/reset") && (IsCommand(act, "/clear") <==> cmd == "/clear")
            && TakesATurn(act)
  {
  }

  /** What one command does to the count and the transcript. */
  ghost predicate CommandAccountedFor(s: Session, after: Session, cmd: string, lines: seq<Entry>) {
    && after.turns == (if cmd == "/reset" then 0 else s.turns + 1)
    && (cmd == "/reset" || cmd == "/clear" ==> after.transcript == lines)
    && (cmd != "/reset" && cmd != "/clear" ==>
          forall written | s.transcript == LastTen(written) :: after.transcript == LastTen(written + lines))
  }

  lemma EmptyingAccountedFor(s: Session, counted: Session, cmd: string, arg: string)
    requires counted == s.(turns := s.turns + 1, lastCommand := counted.lastCommand)
    requires VerbOf(cmd) == ToClear || VerbOf(cmd) == ToReset
    ensures CommandAccountedFor(s, CommandApplied(counted, cmd, arg), cmd, CommandLines(s, cmd, arg))
  {
    VerbsAreNamed(cmd);
    LinesAreOfTheVerb(s, cmd, arg);
  }

  lemma WritingAccountedFor(s: Session, counted: Session, cmd: string, arg: string, lines: seq<Entry>)
    requires counted == s.(turns := s.turns + 1, lastCommand := counted.lastCommand)
    requires VerbOf(cmd) != ToClear && VerbOf(cmd) != ToReset && lines == CommandLines(s, cmd, arg)
    ensures CommandAccountedFor(s, CommandApplied(counted, cmd, arg), cmd, lines)
  {
    VerbsAreNamed(cmd);
    CommandWritesOneLine(s, counted, cmd, arg, lines);
    forall written | s.transcript == LastTen(written)
      ensures CommandApplied(counted, cmd, arg).transcript == LastTen(written + lines)
    {
      LastTenOfAppended(written, lines[0]);
      assert lines == [lines[0]];
    }
  }

  lemma CommandsAccountedFor(s: Session, data: string)
    requires Normalized(data) != "" && StartsWith(Normalized(data), "/")
    ensures ActAccountedFor(s, InputApplied(s, data).session, Happening(s, Typed(data)))
  {
    var cmd, arg := Command(Normalized(data)), Argument(Normalized(data));
    var counted := s.(turns := s.turns + 1, lastCommand := Some(cmd));
    CommandKinds(data, cmd);
    if VerbOf(cmd) == ToReset || VerbOf(cmd) == ToClear {
      EmptyingAccountedFor(s, counted, cmd, arg);
    } else {
      WritingAccountedFor(s, counted, cmd, arg, CommandLines(s, cmd, arg));
    }
    CommandAccountsForAct(s, data, cmd, arg, CommandApplied(counted, cmd, arg));
  }

  lemma CommandAccountsForAct(s: Session, data: string, cmd: string, arg: string, after: Session)
    requires Normalized(data) != "" && StartsWith(Normalized(data), "/")
    requires cmd == Command(Normalized(data)) && arg == Argument(Normalized(data))
    requires CommandAccountedFor(s, after, cmd, CommandLines(s, cmd, arg))
    ensures ActAccountedFor(s, after, Happening(s, Typed(data)))
  {
    CommandKinds(data, cmd);
    assert LinesOf(Happening(s, Typed(data))) == CommandLines(s, cmd, arg);
  }

  lemma LinesAccountedFor(s: Session, data: string)
    requires !StartsWith(Normalized(data), "/")
    ensures ActAccountedFor(s, InputApplied(s, data).session, Happening(s, Typed(data)))
  {
    var h := Happening(s, Typed(data));
    var text := Normalized(data);
    forall written | s.transcript == LastTen(written)
      ensures InputApplied(s, data).session.transcript == LastTen(written + LinesOf(h))
    {
      if text == "" {
        assert written + LinesOf(h) == written;
      } else {
        var said := Entry(User, Said(s.nickname, text));
        var got := Entry(Responder, Received(text));
        LastTenOfAppended(written, said);
        LastTenOfAppended(written + [said], got);
        assert written + [said] + [got] == written + LinesOf(h);
      }
    }
  }

  lemma OneLineAccountedFor(s: Session, after: Session, line: Entry, written: seq<Entry>)
    requires after.transcript == LastTen(s.transcript + [line]) && s.transcript == LastTen(written)
    ensures after.transcript == LastTen(written + [line])
  {
    LastTenOfAppended(written, line);
  }

  lemma ControlsWriteOneLine(s: Session, act: Act)
    requires !act.Typed? && !act.ResetOverHttp?
    ensures |LinesOf(Happening(s, act))| == 1
    ensures Performed(s, act).transcript == LastTen(s.transcript + [LinesOf(Happening(s, act))[0]])
    ensures Performed(s, act).turns == s.turns + (if TakesATurn(act) then 1 else 0)
  {
  }

  lemma ControlsAccountedFor(s: Session, act: Act)
    requires !act.Typed?
    ensures ActAccountedFor(s, Performed(s, act), Happening(s, act))
  {
    if !act.ResetOverHttp? {
      ControlsWriteOneLine(s, act);
      var line := LinesOf(Happening(s, act))[0];
      assert LinesOf(Happening(s, act)) == [line];
      forall written | s.transcript == LastTen(written)
        ensures Performed(s, act).transcript == LastTen(written + [line])
      {
        OneLineAccountedFor(s, Performed(s, act), line, written);
      }
    }
  }

  /** The history invariant: every act keeps it. */
  lemma ActsKeepHistoryExplained(s: Session, past: seq<Happening>, act: Act)
    requires Explained(s, past)
    ensures Explained(Performed(s, act), past + [Happening(s, act)])
  {
    ActsKeepStatus(s, act);
    ActsMoveFields(s, act);
    FieldsGrow(past, Happening(s, act));
    TranscriptStaysExplained(s, past, act);
  }

  lemma TranscriptStaysExplained(s: Session, past: seq<Happening>, act: Act)
    requires s.turns == TurnsSinceReset(past) && s.transcript == LastTen(WrittenSinceClear(past))
    ensures var t, after := Performed(s, act), past + [Happening(s, act)];
            t.turns == TurnsSinceReset(after) && t.transcript == LastTen(WrittenSinceClear(after))
  {
    HistoryGrows(past, Happening(s, act));
    if !act.Typed? {
      ControlsAccountedFor(s, act);
    } else if StartsWith(Normalized(act.data), "/") {
      CommandsAccountedFor(s, act.data);
    } else {
      LinesAccountedFor(s, act.data);
    }
  }

  // ---- From the text that is typed ----

  /** The first word is the command and the rest, trimmed, its argument. */
  lemma LinesAreSplit(cmd: string, rest: string)
    requires ' ' !in cmd
    ensures Command(cmd + " " + rest) == cmd && Argument(cmd + " " + rest) == Strip(rest)
    ensures Command(cmd) == cmd && Argument(cmd) == ""
  {
    PartitionAtFirst(cmd, ' ', rest);
    assert cmd + [' '] + rest == cmd + " " + rest;
    NoSecondWord(cmd);
  }

  lemma {:induction false} NoSecondWord(cmd: string)
    requires ' ' !in cmd
    ensures TextBefore(cmd, ' ') == cmd && TextAfter(cmd, ' ') == ""
  {
    if cmd != "" {
      NoSecondWord(cmd[1..]);
      assert [cmd[0]] + cmd[1..] == cmd;
    }
  }

  function LineBreaksAndTabs(data: string): string {
    seq(|data|, i requires 0 <= i < |data| =>
      if data[i] == '\r' then '\n' else if data[i] == '\t' then ' ' else data[i])
  }

  /** Blanks around a typed line do not count. */
  lemma InputsAreTrimmed(before: string, text: string, after: string)
    requires AllSpace(before) && AllSpace(after) && '\r' !in text && '\t' !in text
    requires text != "" && !IsSpace(text[0]) && !IsSpace(text[|text| - 1])
    ensures Normalized(before + text + after) == text
  {
    var x, y := LineBreaksAndTabs(before), LineBreaksAndTabs(after);
    assert LineBreaksAndTabs(text) == text;
    assert LineBreaksAndTabs(before + text + after) == x + text + y;
    assert AllSpace(x) && AllSpace(y);
    StripIgnoresBlanksAround(x, text, y);
    assert Normalized(before + text + after) == Strip(x + text + y);
  }

  /** A reply announces the mode before the screen exactly for a reset and for a mode that is named. */
  lemma RepliesAnnounceChanges(s: Session, data: string)
    ensures var r := InputApplied(s, data);
            var announces := IsCommand(Typed(data), "/reset")
              || (IsCommand(Typed(data), "/mode") && NamedMode(Argument(Normalized(data))).Some?);
            r.messages == (if announces then [Hello(r.session.mode)] else []) + [Snapshot(r.session)]
  {
    if StartsWith(Normalized(data), "/") {
      VerbsAreNamed(Command(Normalized(data)));
    }
  }
}
