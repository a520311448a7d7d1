/** The `CVTerminal` class: the controller's fields, updated in place by its
    methods. Each method is proved to change the state exactly as the matching
    function of `Session` says, so every property proved about those functions
    holds of the class. The terminal widget is replaced by the `output` log. */
module Terminal {
  import opened Strings
  import Session

  class CVTerminal {
    const prompt: string
    const promptLength: nat
    /** The registries, as iterated: distinct entries in first-occurrence order. */
    const commands: seq<string>
    const cvSections: seq<string>
    const cv: map<string, seq<string>>

    var command: string
    var cursorX: int
    var isAnimating: bool
    var printingFullCV: bool
    var interrupted: bool
    var currentSectionIndex: nat
    /** The frame scheduled with the host, standing for `animationFrameId` and the
        closure it will run. */
    var animationFrame: Session.Option<Session.Step>
    /** Everything written to the terminal, one entry per write. */
    var output: seq<string>

    function Cfg(): Session.Config {
      Session.Config(prompt, commands, cvSections, cv)
    }

    function Snapshot(): Session.State
      reads this
    {
      Session.State(command, cursorX, isAnimating, printingFullCV, interrupted,
                    currentSectionIndex, animationFrame, output)
    }

    ghost predicate Configured() {
      promptLength == |prompt| && Session.WellFormed(Cfg())
    }

    ghost predicate Valid()
      reads this
    {
      Configured() && Session.Inv(Cfg(), Snapshot())
    }

    /** `initializeProperties` followed by `writeWelcomeMessage`. */
    constructor (prompt: string, commandList: seq<string>, sectionList: seq<string>,
                 cv: map<string, seq<string>>)
      requires forall c :: c in commandList && c != "help" && c != "fullcv" ==> c in cv
      requires forall c :: c in sectionList ==> c in cv
      ensures this.prompt == prompt && this.cv == cv
      ensures commands == Distinct(commandList) && cvSections == Distinct(sectionList)
      ensures Valid() && Snapshot() == Session.Init(Cfg())
    {
      this.prompt := prompt;
      promptLength := |prompt|;
      commands := Distinct(commandList);
      cvSections := Distinct(sectionList);
      this.cv := cv;
      isAnimating := false;
      command := "";
      cursorX := |prompt|;
      printingFullCV := false;
      interrupted := false;
      currentSectionIndex := 0;
      animationFrame := Session.None;
      output := [];
      new;
      WriteWelcomeMessage();
      Session.InitInv(Cfg());
    }

    /** `terminal.write`. */
    method Write(t: string)
      modifies this
      ensures Snapshot() == Session.Write(old(Snapshot()), t)
    {
      output := output + [t];
    }

    /** `terminal.writeln`. */
    method WriteLine(t: string)
      modifies this
      ensures Snapshot() == Session.WriteLine(old(Snapshot()), t)
    {
      Write(t + Session.CRLF);
    }

    method WritePrompt()
      modifies this
      ensures Snapshot() == Session.WritePrompt(Cfg(), old(Snapshot()))
    {
      Write(prompt);
    }

    method WriteWelcomeMessage()
      modifies this
      ensures Snapshot() == old(Snapshot()).(output := old(output) + [Session.Hint + Session.CRLF, prompt])
    {
      WriteLine(Session.Hint);
      WritePrompt();
    }

    /** The entry point for every key press. */
    method HandleKeyEvent(e: Session.KeyEvent)
      requires Valid()
      modifies this
      ensures Valid()
      ensures Snapshot() == Session.OnKey(Cfg(), old(Snapshot()), e)
    {
      var isCtrlC := e.ctrl && ToLower(e.name) == "c";
      var isPrintable := !e.alt && !e.ctrl && !e.meta;
      if isAnimating && isCtrlC {
        InterruptAnimation();
      } else if isAnimating {
      } else if e.name == "Backspace" {
        HandleBackspace();
      } else if e.name == "Enter" {
        HandleReturn();
      } else if Session.IsArrow(e.name) {
      } else if isPrintable {
        HandleInput(e.key);
      }
      Session.OnKeyKeepsInv(Cfg(), old(Snapshot()), e);
    }

    /** The host firing the scheduled animation frame. */
    method Frame()
      requires Valid()
      modifies this
      ensures Valid()
      ensures Snapshot() == Session.Frame(Cfg(), old(Snapshot()))
    {
      if animationFrame.Some? {
        var step := animationFrame.value;
        animationFrame := Session.None;
        AnimateTyping(step.text, step.pos, step.cont);
      }
      Session.FrameKeepsInv(Cfg(), old(Snapshot()));
    }

    method StopAnimation()
      modifies this
      ensures Snapshot() == Session.Stop(old(Snapshot()))
    {
      interrupted := false;
      isAnimating := false;
      animationFrame := Session.None;
      ResetFullCV();
    }

    method HandleBackspace()
      requires Configured()
      modifies this
      ensures Snapshot() == Session.Backspace(Cfg(), old(Snapshot()))
    {
      if cursorX > promptLength {
        Write(Session.Erase);
        cursorX := cursorX - 1;
      }
    }

    method HandleReturn()
      requires Configured()
      modifies this
      ensures Snapshot() == Session.Return(Cfg(), old(Snapshot()))
    {
      ghost var s0 := Snapshot();
      WriteLine("");
      HandleCommand();
      ghost var s2 := Snapshot().(command := "", cursorX := |prompt|);
      assert s2 == Session.Dispatch(Cfg(), Session.WriteLine(s0, "")).(command := "", cursorX := |prompt|);
      command := "";
      cursorX := promptLength;
      assert Snapshot() == s2;
      if !isAnimating {
        WritePrompt();
      }
    }

    method HandleInput(key: string)
      modifies this
      ensures Snapshot() == Session.Input(old(Snapshot()), key)
    {
      Write(key);
      command := command + key;
      cursorX := cursorX + 1;
    }

    method HandleCommand()
      requires Configured()
      modifies this
      ensures Snapshot() == Session.Dispatch(Cfg(), old(Snapshot()))
    {
      var trimmedCommand := Trim(command);
      if trimmedCommand in commands {
        if trimmedCommand == "help" {
          WriteHelp();
        } else if trimmedCommand == "fullcv" {
          StartFullCV();
        } else {
          WriteSection(trimmedCommand);
        }
      } else {
        WriteLine(Session.ErrorPrefix + trimmedCommand + "!");
        WriteLine(Session.Hint);
      }
    }

    /** Builds the help body line by line, then types it. */
    method WriteHelp()
      requires Configured()
      modifies this
      ensures Snapshot() == Session.WriteHelp(Cfg(), old(Snapshot()))
    {
      var helpText := Session.HelpHeader;
      for i := 0 to |commands|
        invariant helpText == Session.HelpText(commands[..i])
      {
        assert commands[..i + 1][..i] == commands[..i];
        helpText := helpText + "- " + commands[i] + "\n";
      }
      assert commands[..|commands|] == commands;
      isAnimating := true;
      AnimateTyping(helpText, 0, Session.AfterHelp);
    }

    method StartFullCV()
      requires Configured()
      modifies this
      ensures Snapshot() == Session.StartFullCV(Cfg(), old(Snapshot()))
    {
      printingFullCV := true;
      HandleFullCVCommand();
    }

    method WriteSection(sectionName: string)
      requires Configured() && sectionName in cv
      modifies this
      ensures Snapshot() == Session.WriteSection(Cfg(), old(Snapshot()), sectionName)
      decreases 1
    {
      var section := Session.Header(sectionName);
      WriteLine(section);
      var commandInfo := Session.CRLF + JoinLines(cv[sectionName]);
      if interrupted {
        return;
      }
      isAnimating := true;
      AnimateTyping(commandInfo, 0, Session.AfterSection);
    }

    method HandleFullCVCommand()
      requires Configured()
      modifies this
      ensures Snapshot() == Session.NextSection(Cfg(), old(Snapshot()))
      decreases 2
    {
      var cvSectionsArray := cvSections;
      if currentSectionIndex >= |cvSectionsArray| {
        ResetFullCV();
        WritePrompt();
      } else {
        printingFullCV := true;
        var name := cvSectionsArray[currentSectionIndex];
        currentSectionIndex := currentSectionIndex + 1;
        WriteSection(name);
      }
    }

    method ResetFullCV()
      modifies this
      ensures Snapshot() == Session.ResetFullCV(old(Snapshot()))
    {
      currentSectionIndex := 0;
      printingFullCV := false;
    }

    /** One step of the typing animation; the next step is left in `animationFrame`. */
    method AnimateTyping(text: string, pos: nat, callback: Session.Cont)
      requires Configured()
      modifies this
      ensures Snapshot() == Session.Animate(Cfg(), old(Snapshot()), text, pos, callback)
      decreases if pos < |text| then 0 else 4
    {
      if interrupted {
        StopAnimation();
        return;
      }
      if pos < |text| {
        Write([text[pos]]);
        if text[pos] == '\n' {
          Write("\r");
        }
        animationFrame := Session.Some(Session.Step(text, pos + 1, callback));
      } else {
        WriteLine("\r");
        isAnimating := false;
        RunCallback(callback);
      }
    }

    /** The two callbacks passed to `animateTyping`. */
    method RunCallback(callback: Session.Cont)
      requires Configured()
      modifies this
      ensures Snapshot() == Session.Complete(Cfg(), old(Snapshot()), callback)
      decreases 3
    {
      match callback
      case AfterHelp =>
        isAnimating := false;
        WritePrompt();
      case AfterSection =>
        isAnimating := false;
        if printingFullCV {
          HandleFullCVCommand();
        } else {
          WritePrompt();
        }
    }

    method InterruptAnimation()
      modifies this
      ensures Snapshot() == Session.Interrupt(Cfg(), old(Snapshot()))
    {
      StopAnimation();
      Write(Session.InterruptNotice);
      WritePrompt();
    }
  }
}
