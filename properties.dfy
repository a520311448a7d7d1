/** What the controller promises, stated over the `Session` functions that the
    `CVTerminal` class is proved to follow: the key-handling rules, the typing
    animation driven frame by frame, help, section and full-CV runs from Return
    to the next prompt, interruption, and the invariant over any run. */
module Properties {
  import opened Strings
  import opened Session

  /** The host firing `n` animation frames in a row. */
  function Frames(cfg: Config, s: State, n: nat): State
    requires WellFormed(cfg)
    decreases n
  {
    if n == 0 then s else Frames(cfg, Frame(cfg, s), n - 1)
  }

  /** What one typed character writes: itself, and a "\r" after a "\n". */
  function Echo(c: char): seq<string> {
    if c == '\n' then [[c], "\r"] else [[c]]
  }

  /** What typing `t` writes, one character per write. */
  function Typed(t: string): seq<string> {
    if t == [] then [] else Echo(t[0]) + Typed(t[1..])
  }

  /** Frames compose. */
  lemma {:induction false} FramesAdd(cfg: Config, s: State, a: nat, b: nat)
    requires WellFormed(cfg)
    ensures Frames(cfg, s, a + b) == Frames(cfg, Frames(cfg, s, a), b)
    decreases a
  {
    if a > 0 {
      FramesAdd(cfg, Frame(cfg, s), a - 1, b);
    }
  }

  /** With no frame pending, firing frames changes nothing. */
  lemma {:induction false} FramesIdle(cfg: Config, s: State, n: nat)
    requires WellFormed(cfg) && s.pending == None
    ensures Frames(cfg, s, n) == s
    decreases n
  {
    if n > 0 {
      FramesIdle(cfg, Frame(cfg, s), n - 1);
    }
  }

  /** One animation step inside the text types one character and schedules the next. */
  lemma AnimateStep(cfg: Config, s: State, text: string, pos: nat, cont: Cont)
    requires WellFormed(cfg) && !s.interrupted && pos < |text|
    ensures Animate(cfg, s, text, pos, cont) ==
      s.(output := s.output + Echo(text[pos]), pending := Some(Step(text, pos + 1, cont)))
  {
    if text[pos] == '\n' {
      assert s.output + [[text[pos]]] + ["\r"] == s.output + Echo(text[pos]);
    }
  }

  // ---------------------------------------------------------------- keys

  /** Backspace never moves the cursor left of the prompt: above it, it erases one
      column and moves back by one; at it, nothing happens. The input buffer is
      never shortened. */
  lemma BackspaceBound(cfg: Config, s: State, e: KeyEvent)
    requires WellFormed(cfg) && Inv(cfg, s) && !s.isAnimating && e.name == "Backspace"
    ensures var r := OnKey(cfg, s, e);
      r.command == s.command && r.cursorX >= |cfg.prompt| &&
      (s.cursorX > |cfg.prompt| ==> r == s.(cursorX := s.cursorX - 1, output := s.output + [Erase])) &&
      (s.cursorX == |cfg.prompt| ==> r == s)
  {
  }

  /** An unmodified key that is not Backspace, Enter or an arrow is appended to the
      input, echoed, and moves the cursor one column on. */
  lemma PrintableInput(cfg: Config, s: State, e: KeyEvent)
    requires WellFormed(cfg) && !s.isAnimating && IsPrintable(e)
    requires e.name != "Backspace" && e.name != "Enter" && !IsArrow(e.name)
    ensures OnKey(cfg, s, e) ==
      s.(command := s.command + e.key, cursorX := s.cursorX + 1, output := s.output + [e.key])
  {
  }

  /** A key held with Alt, Ctrl or Meta, other than Backspace and Enter, is dropped
      when idle (Ctrl+C included). */
  lemma ModifiedKeyDropped(cfg: Config, s: State, e: KeyEvent)
    requires WellFormed(cfg) && !s.isAnimating && !IsPrintable(e)
    requires e.name != "Backspace" && e.name != "Enter"
    ensures OnKey(cfg, s, e) == s
  {
  }

  /** While a block is being typed, every key but Ctrl+C is ignored. */
  lemma AnimationLock(cfg: Config, s: State, e: KeyEvent)
    requires WellFormed(cfg) && s.isAnimating && !IsCtrlC(e)
    ensures OnKey(cfg, s, e) == s
  {
  }

  /** Arrow keys do nothing, even when idle. */
  lemma ArrowsInert(cfg: Config, s: State, e: KeyEvent)
    requires WellFormed(cfg) && IsArrow(e.name)
    ensures OnKey(cfg, s, e) == s
  {
  }

  /** Ctrl+C while typing: playback reset, nothing pending, idle, and the notice and
      one prompt written. */
  lemma CtrlCInterrupts(cfg: Config, s: State, e: KeyEvent)
    requires WellFormed(cfg) && s.isAnimating && IsCtrlC(e)
    ensures OnKey(cfg, s, e) ==
      s.(interrupted := false, isAnimating := false, pending := None,
         currentSectionIndex := 0, printingFullCV := false,
         output := s.output + [InterruptNotice, cfg.prompt])
  {
  }

  /** After Ctrl+C no stale frame writes anything, however many fire. */
  lemma InterruptSilencesFrames(cfg: Config, s: State, e: KeyEvent, n: nat)
    requires WellFormed(cfg) && s.isAnimating && IsCtrlC(e)
    ensures Frames(cfg, OnKey(cfg, s, e), n) == OnKey(cfg, s, e)
  {
    FramesIdle(cfg, OnKey(cfg, s, e), n);
  }

  /** Return always clears the input and puts the cursor after the prompt, and it
      writes the prompt itself exactly when dispatch left the controller idle. */
  lemma ReturnResets(cfg: Config, s: State, e: KeyEvent)
    requires WellFormed(cfg) && !s.isAnimating && e.name == "Enter"
    ensures var d := Dispatch(cfg, WriteLine(s, ""));
      OnKey(cfg, s, e) == d.(command := "", cursorX := |cfg.prompt|,
                             output := d.output + if d.isAnimating then [] else [cfg.prompt])
  {
  }

  /** Solver aid: `writeln('')` writes a bare line break. */
  lemma BlankLine(s: State)
    ensures WriteLine(s, "") == s.(output := s.output + [CRLF])
  {
    assert "" + CRLF == CRLF;
  }

  /** An unknown command writes the error line and the hint, then the prompt, and
      starts no animation. */
  lemma UnknownCommand(cfg: Config, s: State, e: KeyEvent)
    requires WellFormed(cfg) && !s.isAnimating && e.name == "Enter"
    requires Trim(s.command) !in cfg.commands
    ensures var r := OnKey(cfg, s, e);
      !r.isAnimating &&
      r == s.(command := "", cursorX := |cfg.prompt|,
              output := s.output + [CRLF] + [ErrorPrefix + Trim(s.command) + "!" + CRLF] +
                        [Hint + CRLF] + [cfg.prompt])
  {
    BlankLine(s);
  }

  // ----------------------------------------------------------- animation

  /** From a pending step at `pos`, firing the frames up to the end of `text`
      writes the rest of `text` one character per frame and leaves the final step
      pending. */
  lemma {:induction false} TypingRun(cfg: Config, s: State, text: string, pos: nat, cont: Cont)
    requires WellFormed(cfg) && !s.interrupted && pos <= |text|
    requires s.pending == Some(Step(text, pos, cont))
    ensures Frames(cfg, s, |text| - pos) ==
      s.(output := s.output + Typed(text[pos..]), pending := Some(Step(text, |text|, cont)))
    decreases |text| - pos
  {
    if pos == |text| {
      assert text[pos..] == [];
      assert s.output + [] == s.output;
    } else {
      var s1 := Frame(cfg, s);
      assert s1 == s.(output := s.output + Echo(text[pos]), pending := Some(Step(text, pos + 1, cont)));
      TypingRun(cfg, s1, text, pos + 1, cont);
      assert text[pos..][1..] == text[pos + 1..];
      assert Typed(text[pos..]) == Echo(text[pos]) + Typed(text[pos + 1..]);
      assert s.output + Echo(text[pos]) + Typed(text[pos + 1..]) == s.output + Typed(text[pos..]);
    }
  }

  /** Typing a non-empty block: the first character is written at once, and after
      `|text|` more frames the whole block has been written one character per
      frame, the closing line follows, the controller is idle with nothing pending,
      and the continuation has run exactly once. */
  lemma AnimationRuns(cfg: Config, s: State, text: string, cont: Cont)
    requires WellFormed(cfg) && !s.interrupted && |text| > 0
    ensures Frames(cfg, Animate(cfg, s, text, 0, cont), |text|) ==
      Complete(cfg, s.(output := s.output + Typed(text) + [Done], isAnimating := false, pending := None), cont)
  {
    var s1 := Animate(cfg, s, text, 0, cont);
    AnimateStep(cfg, s, text, 0, cont);
    TypingRun(cfg, s1, text, 1, cont);
    FramesAdd(cfg, s1, |text| - 1, 1);
    var s2 := Frames(cfg, s1, |text| - 1);
    assert Typed(text) == Echo(text[0]) + Typed(text[1..]);
    Assoc(s.output, Echo(text[0]), Typed(text[1..]));
    assert s2.output == s.output + Typed(text);
    assert Frames(cfg, s2, 1) == Frame(cfg, s2);
  }

  // ------------------------------------------------------------- commands

  /** The lines of the help body split at any command: the lines of the commands
      before it, its own line, then the lines of those after it. */
  lemma {:induction false} HelpLinesAppend(a: seq<string>, b: seq<string>)
    ensures HelpLines(a + b) == HelpLines(a) + HelpLines(b)
    decreases |b|
  {
    if b == [] {
      assert a + b == a;
    } else {
      var b0, c := b[..|b| - 1], b[|b| - 1];
      assert (a + b)[..|a + b| - 1] == a + b0 && (a + b)[|a + b| - 1] == c;
      HelpLinesAppend(a, b0);
      Regroup4(HelpLines(a), HelpLines(b0), "- ", c, "\n");
    }
  }

  /** Solver aid: string concatenation regrouped. */
  lemma Regroup4(x: string, y: string, p: string, q: string, r: string)
    ensures x + y + p + q + r == x + (y + p + q + r)
  {
  }

  /** The help body lists every registered command on its own line, in order. */
  lemma HelpListsCommand(commands: seq<string>, i: nat)
    requires i < |commands|
    ensures HelpText(commands) ==
      HelpHeader + HelpLines(commands[..i]) + "- " + commands[i] + "\n" + HelpLines(commands[i + 1..])
  {
    assert commands == commands[..i + 1] + commands[i + 1..];
    HelpLinesAppend(commands[..i + 1], commands[i + 1..]);
    assert commands[..i + 1][..i] == commands[..i];
  }

  /** "help" + Return from an idle state: after one frame per character of the help
      body, the body has been typed, the prompt written once, the input cleared,
      and the controller is idle again. The block written does not depend on the
      state, so running "help" twice writes it twice, identically. */
  lemma HelpCommand(cfg: Config, s: State, e: KeyEvent)
    requires WellFormed(cfg) && Inv(cfg, s) && !s.isAnimating && e.name == "Enter"
    requires Trim(s.command) == "help" && "help" in cfg.commands
    ensures var r := Frames(cfg, OnKey(cfg, s, e), |HelpText(cfg.commands)|);
      Inv(cfg, r) && !r.isAnimating &&
      r == s.(command := "", cursorX := |cfg.prompt|,
              output := s.output + [CRLF] + Typed(HelpText(cfg.commands)) + [Done] + [cfg.prompt])
  {
    var help := HelpText(cfg.commands);
    var s0 := s.(command := "", cursorX := |cfg.prompt|, output := s.output + [CRLF], isAnimating := true);
    HelpStarts(cfg, s, e);
    AnimationRuns(cfg, s0, help, AfterHelp);
  }

  /** Solver aid: Return on "help" writes the line break and starts typing the help
      body from position 0. */
  lemma HelpStarts(cfg: Config, s: State, e: KeyEvent)
    requires WellFormed(cfg) && !s.interrupted && !s.isAnimating && e.name == "Enter"
    requires Trim(s.command) == "help" && "help" in cfg.commands
    ensures OnKey(cfg, s, e) ==
      Animate(cfg, s.(command := "", cursorX := |cfg.prompt|, output := s.output + [CRLF], isAnimating := true),
              HelpText(cfg.commands), 0, AfterHelp)
  {
    var help := HelpText(cfg.commands);
    var w := s.(output := s.output + [CRLF], isAnimating := true);
    var s0 := w.(command := "", cursorX := |cfg.prompt|);
    BlankLine(s);
    ReturnResets(cfg, s, e);
    assert Dispatch(cfg, WriteLine(s, "")) == Animate(cfg, w, help, 0, AfterHelp);
    AnimateStep(cfg, w, help, 0, AfterHelp);
    AnimateStep(cfg, s0, help, 0, AfterHelp);
  }

  /** What a section writes: its header line, its body typed, the closing line. */
  function SectionOutput(cfg: Config, name: string): seq<string>
    requires name in cfg.cv
  {
    [Header(name) + CRLF] + Typed(SectionText(cfg, name)) + [Done]
  }

  /** Return on a section name writes the header at once and starts typing the body. */
  lemma ReturnStartsSection(cfg: Config, s: State, e: KeyEvent)
    requires WellFormed(cfg) && !s.interrupted && !s.isAnimating && e.name == "Enter"
    requires Trim(s.command) in cfg.commands && Trim(s.command) != "help" && Trim(s.command) != "fullcv"
    ensures var name := Trim(s.command);
      OnKey(cfg, s, e) ==
        Animate(cfg, s.(command := "", cursorX := |cfg.prompt|, isAnimating := true,
                        output := s.output + [CRLF, Header(name) + CRLF]),
                SectionText(cfg, name), 0, AfterSection)
  {
    var name := Trim(s.command);
    var info := SectionText(cfg, name);
    var s0 := s.(command := "", cursorX := |cfg.prompt|,
                 output := s.output + [CRLF, Header(name) + CRLF], isAnimating := true);
    BlankLine(s);
    var w := WriteLine(s, "");
    assert w == s.(output := s.output + [CRLF]);
    var w1 := WriteLine(w, Header(name)).(isAnimating := true);
    assert w1.output == s0.output;
    assert Dispatch(cfg, w) == WriteSection(cfg, w, name);
    assert WriteSection(cfg, w, name) == Animate(cfg, w1, info, 0, AfterSection);
    AnimateStep(cfg, w1, info, 0, AfterSection);
    AnimateStep(cfg, s0, info, 0, AfterSection);
    assert OnKey(cfg, s, e) == Dispatch(cfg, w).(command := "", cursorX := |cfg.prompt|);
  }

  /** Once a section outside a playback has started, its frames type the body and
      end with one prompt, idle. */
  lemma SectionRun(cfg: Config, s: State, name: string)
    requires WellFormed(cfg) && !s.interrupted && !s.printingFullCV && name in cfg.cv
    ensures var info := SectionText(cfg, name);
      Frames(cfg, Animate(cfg, s.(isAnimating := true), info, 0, AfterSection), |info|) ==
        s.(isAnimating := false, pending := None,
           output := s.output + Typed(info) + [Done, cfg.prompt])
  {
    var info := SectionText(cfg, name);
    AnimationRuns(cfg, s.(isAnimating := true), info, AfterSection);
    var s1 := s.(output := s.output + Typed(info) + [Done], isAnimating := false, pending := None);
    assert Complete(cfg, s1, AfterSection) == WritePrompt(cfg, s1);
  }

  /** Solver aid: concatenation of writes is associative. */
  lemma Assoc(a: seq<string>, b: seq<string>, c: seq<string>)
    ensures a + b + c == a + (b + c)
  {
  }

  /** Solver aid: a sequence concatenation regrouped. */
  lemma Regroup(a: seq<string>, x: string, y: string, t: seq<string>, d: string, p: string)
    ensures a + [x, y] + t + [d, p] == a + [x] + ([y] + t + [d]) + [p]
  {
    assert a + [x, y] == a + [x] + [y];
    assert a + [x] + [y] + t + [d, p] == a + [x] + ([y] + t + [d]) + [p];
  }

  /** A section name + Return from an idle state: the header at once, the body
      typed one character per frame, one prompt, and idle again. */
  lemma SectionCommand(cfg: Config, s: State, e: KeyEvent, name: string)
    requires WellFormed(cfg) && Inv(cfg, s) && !s.isAnimating && e.name == "Enter"
    requires name == Trim(s.command) && name in cfg.commands && name != "help" && name != "fullcv"
    ensures var r := Frames(cfg, OnKey(cfg, s, e), |SectionText(cfg, name)|);
      Inv(cfg, r) && !r.isAnimating &&
      r == s.(command := "", cursorX := |cfg.prompt|,
              output := s.output + [CRLF] + SectionOutput(cfg, name) + [cfg.prompt])
  {
    var info := SectionText(cfg, name);
    var s0 := s.(command := "", cursorX := |cfg.prompt|, output := s.output + [CRLF, Header(name) + CRLF]);
    ReturnStartsSection(cfg, s, e);
    SectionRun(cfg, s0, name);
    var h, t := Header(name) + CRLF, Typed(info);
    assert SectionOutput(cfg, name) == [h] + t + [Done];
    Regroup(s.output, CRLF, h, t, Done, cfg.prompt);
  }

  /** What a full-CV playback of `names` writes: each section in turn, no prompt
      in between. */
  function PlaybackOutput(cfg: Config, names: seq<string>): seq<string>
    requires forall n :: n in names ==> n in cfg.cv
  {
    if names == [] then [] else SectionOutput(cfg, names[0]) + PlaybackOutput(cfg, names[1..])
  }

  /** The frames a full-CV playback of `names` takes: one per typed character. */
  function PlaybackFrames(cfg: Config, names: seq<string>): nat
    requires forall n :: n in names ==> n in cfg.cv
  {
    if names == [] then 0 else |SectionText(cfg, names[0])| + PlaybackFrames(cfg, names[1..])
  }

  /** Starting section `i` of the playback writes its header, types its first
      character and moves the index on by one. */
  lemma NextSectionStarts(cfg: Config, s: State)
    requires WellFormed(cfg) && !s.interrupted && s.currentSectionIndex < |cfg.cvSections|
    ensures var name := cfg.cvSections[s.currentSectionIndex];
      var info := SectionText(cfg, name);
      NextSection(cfg, s) ==
        s.(printingFullCV := true, currentSectionIndex := s.currentSectionIndex + 1, isAnimating := true,
           output := s.output + [Header(name) + CRLF] + Echo(info[0]),
           pending := Some(Step(info, 1, AfterSection)))
  {
    var name := cfg.cvSections[s.currentSectionIndex];
    var info := SectionText(cfg, name);
    var s1 := s.(printingFullCV := true, currentSectionIndex := s.currentSectionIndex + 1);
    assert NextSection(cfg, s) == WriteSection(cfg, s1, name);
    var w := WriteLine(s1, Header(name)).(isAnimating := true);
    assert WriteSection(cfg, s1, name) == Animate(cfg, w, info, 0, AfterSection);
    AnimateStep(cfg, w, info, 0, AfterSection);
  }

  /** One section of a playback: its frames type it to the end, and the last one
      moves on to the next section. */
  lemma PlaybackStep(cfg: Config, s: State)
    requires WellFormed(cfg) && !s.interrupted && s.currentSectionIndex < |cfg.cvSections|
    ensures var name := cfg.cvSections[s.currentSectionIndex];
      Frames(cfg, NextSection(cfg, s), |SectionText(cfg, name)|) ==
        NextSection(cfg, s.(printingFullCV := true, currentSectionIndex := s.currentSectionIndex + 1,
                            isAnimating := false, pending := None,
                            output := s.output + SectionOutput(cfg, name)))
  {
    var name := cfg.cvSections[s.currentSectionIndex];
    var info := SectionText(cfg, name);
    var s0 := s.(printingFullCV := true, currentSectionIndex := s.currentSectionIndex + 1,
                 output := s.output + [Header(name) + CRLF], isAnimating := true);
    NextSectionStarts(cfg, s);
    AnimateStep(cfg, s0, info, 0, AfterSection);
    assert NextSection(cfg, s) == Animate(cfg, s0, info, 0, AfterSection);
    AnimationRuns(cfg, s0, info, AfterSection);
    var s1 := s0.(output := s0.output + Typed(info) + [Done], isAnimating := false, pending := None);
    assert Complete(cfg, s1, AfterSection) == NextSection(cfg, s1);
    Assoc(s.output, [Header(name) + CRLF], Typed(info) + [Done]);
    Assoc([Header(name) + CRLF], Typed(info), [Done]);
    Assoc(s.output + [Header(name) + CRLF], Typed(info), [Done]);
  }

  /** From the point where section `i` is due, driving the frames plays sections
      `i..` in order, each after the previous one's last frame, with no prompt in
      between; then the playback is reset and the prompt written once. */
  lemma {:induction false} PlaybackFrom(cfg: Config, s: State)
    requires WellFormed(cfg) && !s.interrupted && !s.isAnimating && s.pending == None
    requires s.currentSectionIndex <= |cfg.cvSections|
    ensures var rest := cfg.cvSections[s.currentSectionIndex..];
      Frames(cfg, NextSection(cfg, s), PlaybackFrames(cfg, rest)) ==
        s.(currentSectionIndex := 0, printingFullCV := false,
           output := s.output + PlaybackOutput(cfg, rest) + [cfg.prompt])
    decreases |cfg.cvSections| - s.currentSectionIndex
  {
    var i := s.currentSectionIndex;
    if i == |cfg.cvSections| {
      assert cfg.cvSections[i..] == [] && s.output + [] == s.output;
    } else {
      PlaybackFrom(cfg, s.(printingFullCV := true, currentSectionIndex := i + 1, isAnimating := false,
                           pending := None, output := s.output + SectionOutput(cfg, cfg.cvSections[i])));
      PlaybackCons(cfg, s);
    }
  }

  /** Solver aid: the inductive step of `PlaybackFrom`. Given the playback from
      section `i + 1` on, the playback from section `i` is section `i` followed by it. */
  lemma PlaybackCons(cfg: Config, s: State)
    requires WellFormed(cfg) && !s.interrupted && !s.isAnimating && s.pending == None
    requires s.currentSectionIndex < |cfg.cvSections|
    requires var i := s.currentSectionIndex;
      var s1 := s.(printingFullCV := true, currentSectionIndex := i + 1, isAnimating := false,
                   pending := None, output := s.output + SectionOutput(cfg, cfg.cvSections[i]));
      Frames(cfg, NextSection(cfg, s1), PlaybackFrames(cfg, cfg.cvSections[i + 1..])) ==
        s1.(currentSectionIndex := 0, printingFullCV := false,
            output := s1.output + PlaybackOutput(cfg, cfg.cvSections[i + 1..]) + [cfg.prompt])
    ensures var rest := cfg.cvSections[s.currentSectionIndex..];
      Frames(cfg, NextSection(cfg, s), PlaybackFrames(cfg, rest)) ==
        s.(currentSectionIndex := 0, printingFullCV := false,
           output := s.output + PlaybackOutput(cfg, rest) + [cfg.prompt])
  {
    var i := s.currentSectionIndex;
    var rest := cfg.cvSections[i..];
    var name := cfg.cvSections[i];
    var a, b := |SectionText(cfg, name)|, PlaybackFrames(cfg, cfg.cvSections[i + 1..]);
    var s1 := s.(printingFullCV := true, currentSectionIndex := i + 1, isAnimating := false,
                 pending := None, output := s.output + SectionOutput(cfg, name));
    PlaybackStep(cfg, s);
    assert Frames(cfg, NextSection(cfg, s), a) == NextSection(cfg, s1);
    assert rest[0] == name && rest[1..] == cfg.cvSections[i + 1..];
    assert PlaybackFrames(cfg, rest) == a + b;
    FramesAdd(cfg, NextSection(cfg, s), a, b);
    assert Frames(cfg, NextSection(cfg, s), a + b) == Frames(cfg, NextSection(cfg, s1), b);
    assert PlaybackOutput(cfg, rest) == SectionOutput(cfg, name) + PlaybackOutput(cfg, rest[1..]);
    Assoc(s.output, SectionOutput(cfg, name), PlaybackOutput(cfg, rest[1..]));
  }

  /** "fullcv" + Return from an idle state: every section of the playback list in
      order, then one prompt, input cleared, idle with playback reset. With an empty
      section list the prompt is written twice: once by the playback, once by Return. */
  lemma FullCvCommand(cfg: Config, s: State, e: KeyEvent)
    requires WellFormed(cfg) && Inv(cfg, s) && !s.isAnimating && e.name == "Enter"
    requires Trim(s.command) == "fullcv" && "fullcv" in cfg.commands
    ensures var r := Frames(cfg, OnKey(cfg, s, e), PlaybackFrames(cfg, cfg.cvSections));
      Inv(cfg, r) && !r.isAnimating &&
      (cfg.cvSections != [] ==>
        r == s.(command := "", cursorX := |cfg.prompt|,
                output := s.output + [CRLF] + PlaybackOutput(cfg, cfg.cvSections) + [cfg.prompt])) &&
      (cfg.cvSections == [] ==>
        r == s.(command := "", cursorX := |cfg.prompt|,
                output := s.output + [CRLF] + [cfg.prompt] + [cfg.prompt]))
  {
    if cfg.cvSections == [] {
      FullCvEmpty(cfg, s, e);
    } else {
      FullCvPlayback(cfg, s, e);
    }
  }

  /** Solver aid: the playback case of `FullCvCommand`. */
  lemma FullCvPlayback(cfg: Config, s: State, e: KeyEvent)
    requires WellFormed(cfg) && Inv(cfg, s) && !s.isAnimating && e.name == "Enter"
    requires Trim(s.command) == "fullcv" && "fullcv" in cfg.commands && cfg.cvSections != []
    ensures Frames(cfg, OnKey(cfg, s, e), PlaybackFrames(cfg, cfg.cvSections)) ==
      s.(command := "", cursorX := |cfg.prompt|,
         output := s.output + [CRLF] + PlaybackOutput(cfg, cfg.cvSections) + [cfg.prompt])
  {
    var s0 := s.(command := "", cursorX := |cfg.prompt|, output := s.output + [CRLF], printingFullCV := true);
    FullCvStarts(cfg, s, e);
    PlaybackFrom(cfg, s0);
    assert cfg.cvSections[0..] == cfg.cvSections;
  }

  /** Solver aid: Return on "fullcv" with a non-empty list writes the line break and
      leaves the first section due. */
  lemma FullCvStarts(cfg: Config, s: State, e: KeyEvent)
    requires WellFormed(cfg) && !s.interrupted && !s.isAnimating && e.name == "Enter"
    requires Trim(s.command) == "fullcv" && "fullcv" in cfg.commands && cfg.cvSections != []
    requires s.currentSectionIndex == 0
    ensures OnKey(cfg, s, e) ==
      NextSection(cfg, s.(command := "", cursorX := |cfg.prompt|, output := s.output + [CRLF], printingFullCV := true))
  {
    var w := s.(output := s.output + [CRLF], printingFullCV := true);
    FullCvDispatch(cfg, s);
    ReturnResets(cfg, s, e);
    NextSectionKeepsInput(cfg, w, "", |cfg.prompt|);
  }

  /** Solver aid: starting a section neither reads nor changes the input and the
      cursor, and leaves the controller typing. */
  lemma NextSectionKeepsInput(cfg: Config, s: State, command: string, cursorX: int)
    requires WellFormed(cfg) && !s.interrupted && s.currentSectionIndex < |cfg.cvSections|
    ensures NextSection(cfg, s).isAnimating
    ensures NextSection(cfg, s.(command := command, cursorX := cursorX)) ==
      NextSection(cfg, s).(command := command, cursorX := cursorX)
  {
    NextSectionStarts(cfg, s);
    NextSectionStarts(cfg, s.(command := command, cursorX := cursorX));
  }

  /** Solver aid: the empty-list case of `FullCvCommand`. */
  lemma FullCvEmpty(cfg: Config, s: State, e: KeyEvent)
    requires WellFormed(cfg) && Inv(cfg, s) && !s.isAnimating && e.name == "Enter"
    requires Trim(s.command) == "fullcv" && "fullcv" in cfg.commands && cfg.cvSections == []
    ensures Frames(cfg, OnKey(cfg, s, e), PlaybackFrames(cfg, cfg.cvSections)) ==
      s.(command := "", cursorX := |cfg.prompt|, output := s.output + [CRLF] + [cfg.prompt] + [cfg.prompt])
  {
    var w := s.(output := s.output + [CRLF], printingFullCV := true);
    FullCvDispatch(cfg, s);
    ReturnResets(cfg, s, e);
    assert NextSection(cfg, w) == w.(output := w.output + [cfg.prompt], printingFullCV := false);
  }

  /** Solver aid: "fullcv" dispatched after Return's line break starts the playback. */
  lemma FullCvDispatch(cfg: Config, s: State)
    requires WellFormed(cfg) && Trim(s.command) == "fullcv" && "fullcv" in cfg.commands
    ensures Dispatch(cfg, WriteLine(s, "")) == NextSection(cfg, s.(output := s.output + [CRLF], printingFullCV := true))
  {
    BlankLine(s);
  }

  // ------------------------------------------------------------- any run

  /** An input to the controller: a key press or an animation frame. */
  datatype Event = Key(e: KeyEvent) | Tick

  function Run(cfg: Config, s: State, events: seq<Event>): State
    requires WellFormed(cfg)
    decreases |events|
  {
    if events == [] then s
    else
      var s1 := match events[0] case Key(e) => OnKey(cfg, s, e) case Tick => Frame(cfg, s);
      Run(cfg, s1, events[1..])
  }

  /** Any interleaving of key presses and frames keeps the invariant. */
  lemma {:induction false} RunKeepsInv(cfg: Config, s: State, events: seq<Event>)
    requires WellFormed(cfg) && Inv(cfg, s)
    ensures Inv(cfg, Run(cfg, s, events))
    decreases |events|
  {
    if events != [] {
      match events[0]
      case Key(e) => OnKeyKeepsInv(cfg, s, e); RunKeepsInv(cfg, OnKey(cfg, s, e), events[1..]);
      case Tick => FrameKeepsInv(cfg, s); RunKeepsInv(cfg, Frame(cfg, s), events[1..]);
    }
  }

  /** In every reachable state `interrupted` is false, so the guards that test it
      never fire; the cursor is never left of the prompt; a frame is pending exactly
      while typing; and an idle controller has its playback reset. */
  lemma Reachable(cfg: Config, events: seq<Event>)
    requires WellFormed(cfg)
    ensures var r := Run(cfg, Init(cfg), events);
      !r.interrupted && r.cursorX >= |cfg.prompt| && (r.isAnimating <==> r.pending.Some?) &&
      (!r.isAnimating ==> r.currentSectionIndex == 0 && !r.printingFullCV)
  {
    InitInv(cfg);
    RunKeepsInv(cfg, Init(cfg), events);
  }
}
