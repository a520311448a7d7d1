/** The session controller of the résumé terminal as a pure state machine.

    Every `terminal.write(t)` appends one entry `t` to an output log, and every
    `terminal.writeln(t)` appends `t + "\r\n"`. The host's `requestAnimationFrame`
    is a single pending slot holding the next typing step (text, position,
    continuation); `Frame` runs that step and `Stop` clears the slot, as
    `cancelAnimationFrame` does. The class in terminal.dfy is proved to behave
    exactly as these functions say. */
module Session {
  import opened Strings

  datatype Option<T> = None | Some(value: T)

  const CRLF := "\r\n"
  /** The welcome line, which is also the hint printed after an unknown command. */
  const Hint := "Type 'help' to see available commands."
  /** A destructive backspace: back, blank, back. */
  const Erase := "\U{8} \U{8}"
  const InterruptNotice := "\r\n\nInterrupted\r\n\n"
  const HelpHeader := "\n  AVAILABLE COMMANDS:\n\n"
  const ErrorPrefix := " ERROR: Command not recognized: "
  /** What `writeln("\r")` adds when a typed block ends. */
  const Done := "\r" + CRLF

  /** What the controller is built from: the prompt, the command registry and the
      full-CV section order (each already reduced to its distinct entries in
      first-occurrence order, as a JavaScript Set iterates), and the section bodies. */
  datatype Config = Config(prompt: string, commands: seq<string>, cvSections: seq<string>,
                           cv: map<string, seq<string>>)

  /** Every command that is looked up as a section, and every full-CV section, has a body. */
  predicate WellFormed(cfg: Config) {
    (forall c :: c in cfg.commands && c != "help" && c != "fullcv" ==> c in cfg.cv) &&
    (forall c :: c in cfg.cvSections ==> c in cfg.cv)
  }

  /** The two callbacks handed to the typing animation: the one of `writeHelp` and
      the one of `writeSection`. */
  datatype Cont = AfterHelp | AfterSection

  /** A scheduled animation frame: type `text` from `pos` on, then run `cont`. */
  datatype Step = Step(text: string, pos: nat, cont: Cont)

  /** The fields of the controller that change, and the output written so far. */
  datatype State = State(command: string, cursorX: int, isAnimating: bool,
                         printingFullCV: bool, interrupted: bool,
                         currentSectionIndex: nat, pending: Option<Step>,
                         output: seq<string>)

  /** A key press: `key` is the text the terminal delivers, `name` the DOM key name. */
  datatype KeyEvent = KeyEvent(key: string, name: string, ctrl: bool, alt: bool, meta: bool)

  /** Ctrl held with the "c" key, in either case. */
  predicate IsCtrlC(e: KeyEvent)
    ensures IsCtrlC(e) <==> e.ctrl && (e.name == "c" || e.name == "C")
  {
    LowerIsC(e.name);
    e.ctrl && ToLower(e.name) == "c"
  }

  /** No Alt, Ctrl or Meta modifier; such a key is never Ctrl+C. */
  predicate IsPrintable(e: KeyEvent)
    ensures IsPrintable(e) ==> !IsCtrlC(e)
  {
    !e.alt && !e.ctrl && !e.meta
  }

  /** The four arrow key names, none of which is Backspace or Enter. */
  predicate IsArrow(name: string)
    ensures IsArrow(name) ==> name != "Backspace" && name != "Enter"
  {
    name == "ArrowUp" || name == "ArrowDown" || name == "ArrowLeft" || name == "ArrowRight"
  }

  /** What holds in every state the controller reaches: the cursor never goes left
      of the prompt, `interrupted` is never set, a frame is pending exactly while
      animating, an idle controller has its full-CV playback reset, the section
      index stays within the section list, and help never runs inside a playback. */
  ghost predicate Inv(cfg: Config, s: State) {
    s.cursorX >= |cfg.prompt| &&
    !s.interrupted &&
    (s.isAnimating <==> s.pending.Some?) &&
    (!s.isAnimating ==> !s.printingFullCV) &&
    (!s.printingFullCV ==> s.currentSectionIndex == 0) &&
    s.currentSectionIndex <= |cfg.cvSections| &&
    (s.pending.Some? && s.pending.value.cont == AfterHelp ==> !s.printingFullCV)
  }

  /** What holds while a handler runs between frames: as `Inv`, with no frame pending
      and nothing said yet about `isAnimating`. */
  ghost predicate Calm(cfg: Config, s: State) {
    s.cursorX >= |cfg.prompt| &&
    !s.interrupted &&
    s.pending == None &&
    (!s.printingFullCV ==> s.currentSectionIndex == 0) &&
    s.currentSectionIndex <= |cfg.cvSections|
  }

  function Write(s: State, t: string): State {
    s.(output := s.output + [t])
  }

  function WriteLine(s: State, t: string): State {
    Write(s, t + CRLF)
  }

  /** `writePrompt`: the prompt is written and nothing else changes. */
  function WritePrompt(cfg: Config, s: State): (r: State)
    ensures r == s.(output := s.output + [cfg.prompt])
  {
    Write(s, cfg.prompt)
  }

  /** The state after construction: empty input, cursor after the prompt, idle,
      and the welcome line followed by the prompt on screen. */
  function Init(cfg: Config): (r: State)
    ensures r.command == "" && r.cursorX == |cfg.prompt|
    ensures !r.isAnimating && r.pending == None && !r.printingFullCV && r.currentSectionIndex == 0
    ensures r.output == [Hint + CRLF, cfg.prompt]
  {
    WritePrompt(cfg, WriteLine(State("", |cfg.prompt|, false, false, false, 0, None, []), Hint))
  }

  /** The help body: the header, then one line "- cmd" per registered command. It
      starts with the header and ends with a line break. */
  function HelpText(commands: seq<string>): (r: string)
    ensures |HelpHeader| <= |r| && r[..|HelpHeader|] == HelpHeader
    ensures r[|r| - 1] == '\n'
  {
    HelpHeader + HelpLines(commands)
  }

  /** The lines the help loop appends, built in the loop's own order. */
  function HelpLines(commands: seq<string>): (r: string)
    ensures r == "" <==> commands == []
    ensures r != "" ==> r[|r| - 1] == '\n'
    ensures |r| >= 3 * |commands|
  {
    if commands == [] then ""
    else HelpLines(commands[..|commands| - 1]) + "- " + commands[|commands| - 1] + "\n"
  }

  /** The header a section starts with: a line break, two spaces, then the name
      in upper case, one character for each of the name's (`HeaderUpperCased`). */
  function Header(name: string): (r: string)
    ensures |r| == |name| + 3 && r[..3] == "\n  "
  {
    "\n  " + ToUpper(name)
  }

  /** No lower-case letter is left in a header, each character after the leading
      "\n  " is the name's own or comes from a lower-case letter, and lower-casing
      that part gives back the lower-cased name: each letter became its capital. */
  lemma HeaderUpperCased(name: string)
    ensures forall i :: 3 <= i < |Header(name)| ==>
      !('a' <= Header(name)[i] <= 'z') && (Header(name)[i] == name[i - 3] || 'a' <= name[i - 3] <= 'z')
    ensures ToLower(Header(name)[3..]) == ToLower(name)
  {
    UpperCased(name);
    assert Header(name)[3..] == ToUpper(name);
  }

  /** The animated part of a section: a line break, then its lines joined by "\n". */
  function SectionText(cfg: Config, name: string): (t: string)
    requires name in cfg.cv
    ensures |t| >= 2 && t[..2] == CRLF
  {
    CRLF + JoinLines(cfg.cv[name])
  }

  /** `resetFullCV`: the playback index back to 0 and playback mode off; every
      other field is kept. */
  function ResetFullCV(s: State): (r: State)
    ensures r.currentSectionIndex == 0 && !r.printingFullCV
    ensures r.command == s.command && r.cursorX == s.cursorX && r.output == s.output
    ensures r.isAnimating == s.isAnimating && r.interrupted == s.interrupted && r.pending == s.pending
  {
    s.(currentSectionIndex := 0, printingFullCV := false)
  }

  /** `stopAnimation`: nothing pending, idle, playback reset, nothing written. */
  function Stop(s: State): (r: State)
    ensures !r.interrupted && !r.isAnimating && r.pending == None
    ensures !r.printingFullCV && r.currentSectionIndex == 0
    ensures r.command == s.command && r.cursorX == s.cursorX && r.output == s.output
  {
    ResetFullCV(s.(interrupted := false, isAnimating := false, pending := None))
  }

  /** One call of the typing animation at `pos`: stop if interrupted; otherwise type
      one character (and a "\r" after a "\n") and schedule the next position; at the
      end write the closing line, go idle and run the continuation. The input buffer
      is never touched, output only grows, `interrupted` is false afterwards, and a
      step started from a consistent animating state ends in a state satisfying Inv. */
  function Animate(cfg: Config, s: State, text: string, pos: nat, cont: Cont): (r: State)
    requires WellFormed(cfg)
    ensures r.command == s.command && r.cursorX == s.cursorX
    ensures s.output <= r.output
    ensures !r.interrupted
    ensures Calm(cfg, s) && s.isAnimating && (cont == AfterHelp ==> !s.printingFullCV) ==> Inv(cfg, r)
    decreases if pos < |text| then 0 else 4
  {
    if s.interrupted then Stop(s)
    else if pos < |text| then
      var s1 := Write(s, [text[pos]]);
      var s2 := if text[pos] == '\n' then Write(s1, "\r") else s1;
      s2.(pending := Some(Step(text, pos + 1, cont)))
    else
      Complete(cfg, WriteLine(s, "\r").(isAnimating := false), cont)
  }

  /** The continuation that runs when a typed block ends: help reprints the prompt;
      a section either moves the full-CV playback on or reprints the prompt. */
  function Complete(cfg: Config, s: State, cont: Cont): (r: State)
    requires WellFormed(cfg)
    ensures r.command == s.command && r.cursorX == s.cursorX
    ensures s.output < r.output
    ensures r.interrupted == s.interrupted
    ensures Calm(cfg, s) && (cont == AfterHelp ==> !s.printingFullCV) ==> Inv(cfg, r)
    decreases 3
  {
    match cont
    case AfterHelp => WritePrompt(cfg, s.(isAnimating := false))
    case AfterSection =>
      var s1 := s.(isAnimating := false);
      if s1.printingFullCV then NextSection(cfg, s1) else WritePrompt(cfg, s1)
  }

  /** `handleFullCVCommand`: start the next section of the playback, or, past the
      last one, reset the playback and reprint the prompt. */
  function NextSection(cfg: Config, s: State): (r: State)
    requires WellFormed(cfg)
    ensures r.command == s.command && r.cursorX == s.cursorX
    ensures s.output < r.output
    ensures r.interrupted == s.interrupted
    ensures Calm(cfg, s) && !s.isAnimating ==> Inv(cfg, r)
    decreases 2
  {
    if s.currentSectionIndex >= |cfg.cvSections| then WritePrompt(cfg, ResetFullCV(s))
    else
      var name := cfg.cvSections[s.currentSectionIndex];
      WriteSection(cfg, s.(printingFullCV := true, currentSectionIndex := s.currentSectionIndex + 1), name)
  }

  /** `writeSection`: write the header at once, then animate the body. */
  function WriteSection(cfg: Config, s: State, name: string): (r: State)
    requires WellFormed(cfg) && name in cfg.cv
    ensures r.command == s.command && r.cursorX == s.cursorX
    ensures s.output < r.output && r.output[|s.output|] == Header(name) + CRLF
    ensures r.interrupted == s.interrupted
    ensures Calm(cfg, s) && !s.isAnimating ==> Inv(cfg, r)
    decreases 1
  {
    var s1 := WriteLine(s, Header(name));
    var info := SectionText(cfg, name);
    if s1.interrupted then s1
    else Animate(cfg, s1.(isAnimating := true), info, 0, AfterSection)
  }

  /** `writeHelp`: start typing the help body with the help callback. The input and
      the cursor are kept, the first character is written at once, and from an
      idle consistent state outside a playback the result satisfies Inv. */
  function WriteHelp(cfg: Config, s: State): (r: State)
    requires WellFormed(cfg)
    ensures r.command == s.command && r.cursorX == s.cursorX
    ensures s.output <= r.output
    ensures !s.interrupted ==> s.output < r.output && r.isAnimating
    ensures Calm(cfg, s) && !s.printingFullCV ==> Inv(cfg, r)
  {
    Animate(cfg, s.(isAnimating := true), HelpText(cfg.commands), 0, AfterHelp)
  }

  /** `startFullCV`: switch to playback and start the first due section. The input
      and the cursor are kept, something is written, and from an idle consistent
      state the result satisfies Inv. */
  function StartFullCV(cfg: Config, s: State): (r: State)
    requires WellFormed(cfg)
    ensures r.command == s.command && r.cursorX == s.cursorX
    ensures s.output < r.output
    ensures Calm(cfg, s) && !s.isAnimating ==> Inv(cfg, r)
  {
    NextSection(cfg, s.(printingFullCV := true))
  }

  /** `handleCommand`: run help, the full CV or a section for a registered command,
      and write the two-line error otherwise. From an idle consistent state the
      result satisfies Inv. */
  function Dispatch(cfg: Config, s: State): (r: State)
    requires WellFormed(cfg)
    ensures r.command == s.command && r.cursorX == s.cursorX
    ensures s.output <= r.output
    ensures Calm(cfg, s) && !s.isAnimating && !s.printingFullCV ==> Inv(cfg, r)
  {
    var t := Trim(s.command);
    if t in cfg.commands then
      if t == "help" then WriteHelp(cfg, s)
      else if t == "fullcv" then StartFullCV(cfg, s)
      else WriteSection(cfg, s, t)
    else
      WriteLine(WriteLine(s, ErrorPrefix + t + "!"), Hint)
  }

  /** `handleReturn`: the input is cleared and the cursor reset whatever the command,
      output grows, and an idle result has the prompt as its last write. */
  function Return(cfg: Config, s: State): (r: State)
    requires WellFormed(cfg)
    ensures r.command == "" && r.cursorX == |cfg.prompt|
    ensures s.output < r.output
    ensures !r.isAnimating ==> r.output[|r.output| - 1] == cfg.prompt
  {
    var w := WriteLine(s, "");
    var s1 := Dispatch(cfg, w);
    assert s.output < w.output <= s1.output;
    var s2 := s1.(command := "", cursorX := |cfg.prompt|);
    if !s2.isAnimating then WritePrompt(cfg, s2) else s2
  }

  /** `handleBackspace`: the input is kept, and the cursor moves back by at most one
      column and never past the prompt. */
  function Backspace(cfg: Config, s: State): (r: State)
    ensures r.command == s.command
    ensures r.cursorX == s.cursorX || r.cursorX == s.cursorX - 1
    ensures s.cursorX >= |cfg.prompt| ==> r.cursorX >= |cfg.prompt|
  {
    if s.cursorX > |cfg.prompt| then Write(s, Erase).(cursorX := s.cursorX - 1) else s
  }

  /** `handleInput`: the key is echoed and appended to the input, and the cursor
      moves on by one column. */
  function Input(s: State, key: string): (r: State)
    ensures r.output == s.output + [key] && r.command == s.command + key
    ensures r.cursorX == s.cursorX + 1
  {
    Write(s, key).(command := s.command + key, cursorX := s.cursorX + 1)
  }

  /** `interruptAnimation`: stop, then the notice and the prompt. */
  function Interrupt(cfg: Config, s: State): (r: State)
    ensures !r.isAnimating && r.pending == None && !r.printingFullCV && r.currentSectionIndex == 0
    ensures r.output == s.output + [InterruptNotice, cfg.prompt]
    ensures r.command == s.command && r.cursorX == s.cursorX
  {
    WritePrompt(cfg, Write(Stop(s), InterruptNotice))
  }

  /** `handleKeyEvent`. The terminal is only ever appended to, and the input is
      kept, cleared by Return, or extended by the key typed. */
  function OnKey(cfg: Config, s: State, e: KeyEvent): (r: State)
    requires WellFormed(cfg)
    ensures s.output <= r.output
    ensures r.command == s.command || r.command == "" || r.command == s.command + e.key
  {
    if s.isAnimating && IsCtrlC(e) then Interrupt(cfg, s)
    else if s.isAnimating then s
    else if e.name == "Backspace" then Backspace(cfg, s)
    else if e.name == "Enter" then Return(cfg, s)
    else if IsArrow(e.name) then s
    else if IsPrintable(e) then Input(s, e.key)
    else s
  }

  /** The host firing the pending animation frame, if there is one. With none
      pending nothing changes; otherwise the input and the cursor are kept and output
      only grows. */
  function Frame(cfg: Config, s: State): (r: State)
    requires WellFormed(cfg)
    ensures s.pending == None ==> r == s
    ensures r.command == s.command && r.cursorX == s.cursorX && s.output <= r.output
  {
    match s.pending
    case None => s
    case Some(step) => Animate(cfg, s.(pending := None), step.text, step.pos, step.cont)
  }

  lemma InitInv(cfg: Config)
    ensures Inv(cfg, Init(cfg))
    ensures Init(cfg).output == [Hint + CRLF, cfg.prompt]
  {
  }

  /** No key press breaks the invariant. */
  lemma OnKeyKeepsInv(cfg: Config, s: State, e: KeyEvent)
    requires WellFormed(cfg) && Inv(cfg, s)
    ensures Inv(cfg, OnKey(cfg, s, e))
  {
    if !s.isAnimating && e.name != "Backspace" && e.name == "Enter" {
      var w := WriteLine(s, "");
      assert Calm(cfg, w) && !w.isAnimating && !w.printingFullCV;
    }
  }

  /** No animation frame breaks the invariant. */
  lemma FrameKeepsInv(cfg: Config, s: State)
    requires WellFormed(cfg) && Inv(cfg, s)
    ensures Inv(cfg, Frame(cfg, s))
  {
    if s.pending.Some? {
      assert Calm(cfg, s.(pending := None));
    }
  }
}
