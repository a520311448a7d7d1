# CV terminal controller

`CVTerminal` (scripts.js) turns an xterm.js terminal into a small command line for
a résumé. It shows a prompt and echoes what the visitor types. On Return it trims
the input and runs one of three kinds of command:

- `help` types out the list of registered commands.
- A section name types out that section of the CV.
- `fullcv` types every CV section in turn.

Anything else gets a two-line error. Text is typed one character per animation
frame, and no other key is accepted while typing is in progress. Ctrl+C stops the
typing, writes "Interrupted" and shows a fresh prompt.

The model has four modules:

- `Strings` holds the JavaScript built-ins the controller relies on:
  - `String.prototype.trim`;
  - `toUpperCase` and `toLowerCase`;
  - `join("\n")`;
  - the iteration order of a `Set` built from a list.
- `Session` holds one pure function for each method of the controller. They work
  on a `State` record holding the controller's mutable fields. The terminal itself
  is replaced by an `output` log with one entry per `write`; `writeln(t)` logs
  `t + "\r\n"`. The animation frame handed to `requestAnimationFrame` becomes the
  `pending` step, and `Frame` is the host firing it.
- `Terminal` holds the `CVTerminal` class with the source's own fields, updated in
  place. Each method's contract uses `old` to state its new state as the matching
  `Session` function of the old state, so the properties are proved once, about
  those functions.
- `Properties` proves what the controller promises, over those functions. It
  covers the key rules and typing driven frame by frame. It also covers the help,
  section and full-CV commands from Return to the next prompt, interruption, and
  an invariant that holds over any run of key presses and frames.

## Model

| member | source | states |
|---|---|---|
| Strings.TrimStart | scripts.js:161 | the result is a suffix of the input with no leading whitespace, and every character dropped is ECMAScript whitespace |
| Strings.TrimEnd | scripts.js:161 | the result is a prefix of the input with no trailing whitespace, and every character dropped is ECMAScript whitespace |
| Strings.TrimPadded | scripts.js:161 | whitespace typed around a command is ignored: trimming `pre + t + post` gives back the already trimmed `t` |
| Strings.IsSpace | scripts.js:161 | the characters `trim` strips include no ASCII letter or digit |
| Strings.Trim | scripts.js:161 | the result has no whitespace at either end, is no longer than the input, and is empty exactly when the input is all whitespace |
| Strings.ToUpper | scripts.js:199 | keeps the length of the name |
| Strings.UpperCased | scripts.js:199 | every character of the result is not a lower-case letter, each one is either unchanged or comes from a lower-case letter, and lower-casing the result gives the lower-cased input, so each letter becomes its own capital |
| Strings.ToLower | scripts.js:90 | keeps the length of the key name |
| Strings.LowerCased | scripts.js:90 | every character of the result is not an upper-case letter, each one is either unchanged or comes from an upper-case letter, and upper-casing the result gives the upper-cased input, so each letter becomes its own small letter |
| Strings.LowerIsC | scripts.js:90 | the Ctrl+C test matches exactly the key names "c" and "C" |
| Strings.JoinLines | scripts.js:201 | no lines join to the empty text and one line joins to itself; the joined text starts with the first line, ends with the last, and is at most one shorter than the number of lines |
| Strings.JoinLinesAppend | scripts.js:201 | joining two non-empty lists gives the two joined texts with exactly one "\n" between them, so every pair of neighbouring lines is separated by one "\n" |
| Strings.Distinct | scripts.js:55-56 | `new Set(list)` holds no element twice and holds exactly the elements of the list |
| Strings.DistinctKeepsFirstOrder | scripts.js:55-56 | the set iterates its elements in the order of their first occurrence in the list |
| Strings.DistinctOfDistinct | scripts.js:55-56 | a list without repeats gives a set that iterates in the list's own order |
| Session.IsCtrlC | scripts.js:90 | a key is Ctrl+C exactly when Ctrl is held and the DOM key name is "c" or "C" |
| Session.IsPrintable | scripts.js:91 | a key with no Alt, Ctrl or Meta is never taken for Ctrl+C |
| Session.IsArrow | scripts.js:114-117 | an arrow key name is never the Backspace or the Enter name, so the arrow branch never shadows those two |
| Session.WritePrompt | scripts.js:156-158 | writing the prompt appends it to the screen and changes nothing else |
| Session.Header | scripts.js:199 | a section header is a line break and two spaces followed by one character per character of the name |
| Session.HeaderUpperCased | scripts.js:199 | a header holds no lower-case letter, each character after the leading line break and spaces is the name's own or comes from a lower-case letter, and lower-casing that part gives the lower-cased name, so each letter became its own capital |
| Session.ResetFullCV | scripts.js:230-233 | the playback index is back to 0 and playback mode off, and every other field is kept |
| Session.Init | scripts.js:38-60 | after construction the input is empty, the cursor sits right after the prompt, nothing is typing, the playback is reset, and the screen holds the hint line and then the prompt |
| Session.HelpText | scripts.js:181-184 | the help body starts with the header and ends with a line break |
| Session.HelpLines | scripts.js:182-184 | the loop adds nothing exactly when no command is registered, otherwise ends with a line break, and adds at least three characters per command |
| Session.Stop | scripts.js:126-131 | stopping clears `interrupted` and `isAnimating`, cancels the pending frame and resets the playback, and leaves the input, the cursor and the screen alone |
| Session.WriteHelp | scripts.js:180-191 | keeps the input and the cursor, only appends output, starts typing unless interrupted, and from an idle state keeps the invariant |
| Session.StartFullCV | scripts.js:193-196 | keeps the input and the cursor, always writes something, and from an idle state keeps the invariant |
| Session.Return | scripts.js:140-148 | Return clears the input, puts the cursor after the prompt, always writes something, and when nothing is being typed the last thing written is the prompt |
| Session.Backspace | scripts.js:133-138 | the input is kept, the cursor moves back by at most one column, and from a cursor at or right of the prompt it never goes left of the prompt |
| Session.Input | scripts.js:150-154 | the key is echoed, appended to the input, and the cursor moves on by one |
| Session.Interrupt | scripts.js:255-259 | after the interrupt nothing is typing, no frame is pending, the playback is reset, and the notice then the prompt are written, with the input and cursor kept |
| Session.OnKey | scripts.js:89-124 | a key press only appends to the screen, and leaves the input unchanged, cleared, or extended by the key |
| Session.Frame | scripts.js:245-247 | with no frame scheduled nothing changes; otherwise the input and cursor are kept and the screen only grows |
| Session.SectionText | scripts.js:201 | the typed body of a section always starts with "\r\n", so it is never empty |
| Session.Animate | scripts.js:235-253 | one animation step never touches the input or the cursor, only appends output, leaves `interrupted` false, and keeps the invariant |
| Session.Complete | scripts.js:186-213 | the two typing callbacks append output, keep the input and the cursor, and keep the invariant |
| Session.NextSection | scripts.js:216-228 | moving the full-CV playback on always writes something, keeps the input and the cursor, and keeps the invariant |
| Session.WriteSection | scripts.js:198-214 | a section writes its header line first, before anything of its body, and keeps the input, the cursor and the invariant |
| Session.Dispatch | scripts.js:160-178 | running a command keeps the input and the cursor, and from an idle state it ends in a state satisfying the invariant |
| Session.InitInv | scripts.js:38-60 | the constructed controller satisfies the invariant, and its screen shows the hint line and then the prompt |
| Session.OnKeyKeepsInv | scripts.js:89-124 | no key press breaks the invariant |
| Session.FrameKeepsInv | scripts.js:245-247 | no animation frame breaks the invariant |
| Terminal.CVTerminal.constructor | scripts.js:18-60 | fields as initialised, registries deduplicated as `Set`s, the welcome message written, and the invariant established |
| Terminal.CVTerminal.Write | scripts.js:135 | `terminal.write` appends one entry to the output; the state it leaves is `Session.Write` of the old state, which the `Session` functions use for every write |
| Terminal.CVTerminal.WriteLine | scripts.js:141 | `terminal.writeln` appends the text followed by "\r\n"; the state it leaves is `Session.WriteLine` of the old state, which the `Session` functions use for every line |
| Terminal.CVTerminal.WritePrompt | scripts.js:156-158 | writes the prompt |
| Terminal.CVTerminal.WriteWelcomeMessage | scripts.js:38-42 | writes the hint line, then the prompt |
| Terminal.CVTerminal.HandleKeyEvent | scripts.js:89-124 | the new state is `Session.OnKey` of the old one, and the invariant is kept |
| Terminal.CVTerminal.Frame | scripts.js:245-247 | firing the scheduled frame runs the pending typing step, and the invariant is kept |
| Terminal.CVTerminal.StopAnimation | scripts.js:126-131 | clears `interrupted` and `isAnimating`, cancels the pending frame, resets the playback |
| Terminal.CVTerminal.HandleBackspace | scripts.js:133-138 | erases one column and moves the cursor back only when it is right of the prompt |
| Terminal.CVTerminal.HandleReturn | scripts.js:140-148 | new line, dispatch, clear the input, reset the cursor, prompt only if nothing is being typed |
| Terminal.CVTerminal.HandleInput | scripts.js:150-154 | echoes the key, appends it to the input and moves the cursor on by one |
| Terminal.CVTerminal.HandleCommand | scripts.js:160-178 | dispatches the trimmed input to help, full CV, a section, or the two-line error |
| Terminal.CVTerminal.WriteHelp | scripts.js:180-191 | the loop builds exactly `Session.HelpText(commands)`, which is then typed with the help callback |
| Terminal.CVTerminal.StartFullCV | scripts.js:193-196 | sets playback mode and starts the next section |
| Terminal.CVTerminal.WriteSection | scripts.js:198-214 | writes the upper-cased header, then types the joined section lines |
| Terminal.CVTerminal.HandleFullCVCommand | scripts.js:216-228 | past the last section, resets and prompts; otherwise advances the index and writes that section |
| Terminal.CVTerminal.ResetFullCV | scripts.js:230-233 | index back to 0, playback mode off |
| Terminal.CVTerminal.AnimateTyping | scripts.js:235-253 | one typing step, with the next step scheduled as the pending frame |
| Terminal.CVTerminal.RunCallback | scripts.js:186-213 | the help and section callbacks |
| Terminal.CVTerminal.InterruptAnimation | scripts.js:255-259 | stops the animation, writes the notice, then the prompt |
| Properties.FramesAdd | scripts.js:245-247 | firing `a + b` frames is firing `a` frames, then `b` frames |
| Properties.FramesIdle | scripts.js:245-247 | with no frame scheduled, frames change nothing |
| Properties.AnimateStep | scripts.js:240-247 | inside the text, a step writes the character, a "\r" after a "\n", and schedules the next position |
| Properties.BackspaceBound | scripts.js:133-138 | Backspace never moves the cursor left of the prompt, erases exactly one column when it can, and never shortens the input |
| Properties.PrintableInput | scripts.js:119-122 | an unmodified key other than Backspace, Enter and the arrows is echoed, appended and advances the cursor |
| Properties.ModifiedKeyDropped | scripts.js:119-122 | an idle key held with Alt, Ctrl or Meta, other than Backspace and Enter, changes nothing |
| Properties.AnimationLock | scripts.js:102-105 | while typing, every key but Ctrl+C is ignored |
| Properties.ArrowsInert | scripts.js:114-118 | arrow keys never change anything |
| Properties.CtrlCInterrupts | scripts.js:102-104 | Ctrl+C while typing leaves the controller idle, with the playback reset and the notice and one prompt written |
| Properties.InterruptSilencesFrames | scripts.js:126-131 | after Ctrl+C no further frame writes anything |
| Properties.ReturnResets | scripts.js:140-148 | Return clears the input, resets the cursor, and writes the prompt exactly when the command left the controller idle |
| Properties.UnknownCommand | scripts.js:174-177 | an unregistered command writes the error line with the trimmed input, the hint, then the prompt, and starts no typing |
| Properties.TypingRun | scripts.js:240-247 | from position `pos`, the frames type the rest of the text one character per frame |
| Properties.AnimationRuns | scripts.js:235-253 | a non-empty block is typed completely in `|text|` frames, then the closing line, idle, and the callback runs once |
| Properties.HelpLinesAppend | scripts.js:182-184 | the help lines of a concatenation are the concatenation of the help lines |
| Properties.HelpListsCommand | scripts.js:181-184 | the help text lists every registered command on its own line, in registration order |
| Properties.HelpCommand | scripts.js:180-191 | "help" + Return ends, after one frame per character, with the help typed, one prompt, an empty input and the invariant |
| Properties.ReturnStartsSection | scripts.js:198-205 | Return on a section name writes the header at once and starts typing the body |
| Properties.SectionRun | scripts.js:206-213 | a section outside a playback is typed to the end and followed by exactly one prompt |
| Properties.SectionCommand | scripts.js:198-214 | a section name + Return ends with the header, the typed body, the closing line and one prompt, an empty input, idle, and the invariant |
| Properties.NextSectionStarts | scripts.js:216-228 | starting section `i` of a playback writes its header, types its first character and advances the index |
| Properties.PlaybackStep | scripts.js:206-209 | a playback section's frames type it completely and then start the next section, without a prompt |
| Properties.PlaybackFrom | scripts.js:216-228 | from section `i` on, the playback types every remaining section in list order, then resets and writes one prompt |
| Properties.FullCvCommand | scripts.js:193-228 | "fullcv" + Return types every section of the list in order, then ends idle with the playback reset; with an empty section list the prompt is written twice |
| Properties.RunKeepsInv | scripts.js:89-124 | any interleaving of key presses and frames keeps the invariant |
| Properties.Reachable | scripts.js:44-259 | from the constructor through every key handler and frame, so the `interrupted` guards at scripts.js:203 and 236-238 never fire: in every reachable state `interrupted` is false, the cursor is never left of the prompt, a frame is pending exactly while typing, and an idle controller has its playback reset |

## Left out

- The xterm.js widget, its add-ons, fitting, focus and the DOM event wiring (scripts.js lines 28-36 and 62-87) are not modelled. The terminal is the `output` log, the terminal's `onKey` listener set up by `registerEvents` calls `HandleKeyEvent`, and the host firing the callback handed to `requestAnimationFrame` is `Frame`.
- The timing of `requestAnimationFrame` is not modelled. A scheduled frame is one pending step that fires when the host calls `Frame`. `cancelAnimationFrame` drops it.
- The translation of browser keyboard events into `{ key, domEvent }` is not modelled. A `KeyEvent` carries the terminal's `key`, the DOM key name and the three modifier flags.
- `toUpperCase` and `toLowerCase` map ASCII letters only. Other characters are left unchanged, where JavaScript applies full Unicode case mapping.
- The page's configuration object (scripts.js:263 onward) is a constructor parameter, not a constant.
- Session.WriteSection: requires the section name to be a key of `cv`. The source does not check this. A registered command with no CV entry would throw in `join` (scripts.js:201), and that error path is not modelled. `WellFormed` states the requirement for the configuration.
- The `interrupted` flag is never set to true by the source. The model keeps every guard on it, and `Properties.Reachable` proves those guards never fire.
- Strings are sequences of Unicode characters, while JavaScript's `length` and `charAt` (scripts.js:51 and 240-241) count UTF-16 code units. For text outside the Basic Multilingual Plane the model types one frame per character where the source takes two (and writes the two halves separately), so the frame counts in `Properties.AnimationRuns`, `Properties.HelpCommand`, `Properties.SectionCommand` and `Properties.FullCvCommand` differ, and a prompt with such characters gives a different Backspace bound.
- Backspace erases the character on screen but leaves `command` as it is, so a deleted character is still part of the command. The model keeps this behaviour.
