# Hacker portfolio: the logic under the animations

This project is a Dafny model of the stateful logic in a Next.js "hacker" portfolio. Under the canvas painting and JSX sit many small step functions. They are timer callbacks, event handlers and generators, and each becomes a pure function over immutable data here. Every `Math.random()` draw is a parameter of type `Common.Draw`, a real in [0, 1). Every `Date.now()` reading is a parameter as well. Numbers are exact reals or unbounded integers.

The modules follow the source files:

- `Common`: random draws, JavaScript's `slice(-k)`, the capped rolling history `[...prev.slice(-k), x]`, and the 25/50/75/100 label thresholds.
- `Text`: `includes`, `trim` and `toLowerCase` (the last one on ASCII letters only; see below).
- `CommandFeed`, `MatrixRain`, `LoadingLog` and `LoadingProgress` cover the first loading screen:
  - the command classifier and its colours;
  - the rolling command feed;
  - the matrix rain grid;
  - the step typewriter and the message log;
  - both progress timers, the phase index, the ETA, the status label and the six-entry system-status panel.
- `Galaxy` covers the second loading screen: the star populations, the arm radius schedule, time-based progress, the rotation accumulator, the culling test and the depth cues.
- `Particles`, `Terminal` cover the main page: the cursor and spark particle pools, the terminal command dispatcher, room navigation, the history view, the boot counter and the typewriter.
- `TodoList` covers the cosmic todo list.
- `Folders` is the open/select/close state machine shared by three components. `ImageFolder`, `FolderIcon` and `TrashFolder` instantiate it.

A matrix rain cell is recycled only when its new `y` is strictly greater than the canvas height (app/components/LoadingScreen.tsx:246). A cell landing exactly on the height stays, so `y` ranges over [-20, height], closed at both ends.

## Model

| member | source | states |
|---|---|---|
| CommandFeed.ClassifyIsFirstMatch | app/components/LoadingScreen.tsx:444-455 | the classifier's if-chain equals a generic ordered first-match over the rule table (import, function, curl, echo, git, sudo, network, exploit, decrypt) |
| CommandFeed.FirstMatchWins | app/components/LoadingScreen.tsx:444-455 | for any table with distinct kinds, the result is rule k's kind exactly when rule k matches and no earlier rule matches |
| CommandFeed.ClassifyFirstMatchWins | app/components/LoadingScreen.tsx:444-455 | a command is classified as rule k's kind iff one of rule k's substrings occurs in it and no substring of an earlier rule does |
| CommandFeed.ClassifySystemIff | app/components/LoadingScreen.tsx:444-455 | the classifier is total, and it answers "system" exactly when none of the listed substrings occurs in the command |
| CommandFeed.NcatIsEcho | app/components/LoadingScreen.tsx:448-451 | "ncat" commands are classed as echo, not network, because "cat" is tested before "nc" |
| CommandFeed.TerraformIsSudo | app/components/LoadingScreen.tsx:450 | "terraform" is classed as sudo, because the sudo rule matches the substring "rm" |
| CommandFeed.ColorSharedOnlyByEchoAndSystem | app/components/LoadingScreen.tsx:457-480 | two command types get the same colour class exactly when they are equal or both belong to {echo, system} |
| CommandFeed.CorpusSize | app/components/LoadingScreen.tsx:95-167 | the screen's command corpus has 60 entries |
| CommandFeed.MakeCommand | app/components/LoadingScreen.tsx:482-490 | a generated feed entry carries the given id and line, its text comes from the corpus, its type classifies its text, its colour is its type's colour, and its delay lies in [0, max) |
| CommandFeed.InitialFeed | app/components/LoadingScreen.tsx:441-493 | the initial feed has 20 well-formed commands with id i and line 2473 + i, delays in [0, 100), and the next line is 2493 |
| CommandFeed.FeedTick | app/components/LoadingScreen.tsx:499-551 | at progress 100 or more the feed is unchanged; below 100 it keeps the newest 25 entries or fewer, appends one entry numbered with the current line, and advances the line by one |
| CommandFeed.FeedTickKeepsNumbering | app/components/LoadingScreen.tsx:541-551 | every displayed line number stays below the next line to be used, across any tick |
| CommandFeed.FeedTickBounded | app/components/LoadingScreen.tsx:550 | the feed never holds more than 26 entries |
| Common.PushCappedTracksLog | app/components/LoadingScreen.tsx:550 | a capped rolling history is always the newest k + 1 entries of the full log of pushes (first in, first out) |
| MatrixRain.Init | app/components/LoadingScreen.tsx:207-221 | there are floor(width/20) * 3 cells; cell i has id i and x = (i mod columns) * 20; every cell starts valid (y in [0, height] — not yet in the recycled range below 0 — speed in [1, 4), glyph from the character set, one of the two greens) |
| MatrixRain.NarrowCanvasIsEmpty | app/components/LoadingScreen.tsx:209-211 | a canvas narrower than one 20-pixel column produces no cells |
| MatrixRain.Tick | app/components/LoadingScreen.tsx:242-263 | a frame keeps the cell count and each cell's id, x, speed and colour |
| MatrixRain.TickCellValid | app/components/LoadingScreen.tsx:245-261 | a cell moves down by its speed when that keeps it at or above the bottom edge, and is recycled to -20 exactly when it would pass it; y stays in [-20, height] and a replacement glyph always comes from the character set |
| MatrixRain.RunValid | app/components/LoadingScreen.tsx:242-266 | any number of frames keeps the cell count and a valid grid |
| LoadingLog.StepTickInv | app/components/LoadingScreen.tsx:279-302 | for any list of step texts, each tick keeps the invariant (the display is a prefix of the current step's text, and completion is signalled exactly once every step is typed), moves at most one step on, and leaves a completed sequencer where it is |
| LoadingLog.StepShowsPrefixes | app/components/LoadingScreen.tsx:285-292 | after j ticks of step k the display is exactly the first j characters of that step's text |
| LoadingLog.StepTakesLengthPlusOne | app/components/LoadingScreen.tsx:289-297 | a step of length L advances to the next step after L + 1 ticks with its full text shown |
| LoadingLog.StepsComplete | app/components/LoadingScreen.tsx:279-283 | starting from any step, the sequencer reaches completion after the total number of remaining ticks |
| LoadingLog.BootStepsComplete | app/components/LoadingScreen.tsx:83-93 | the screen's nine steps start in the invariant and, after all their ticks, end complete at step 9 with "> READY TO LAUNCH." on screen |
| LoadingLog.MessageTickInv | app/components/LoadingScreen.tsx:614-631 | the message typer shows prefixes of the current message, and the completed-message history is always the newest 7 finished messages, so it never exceeds 7 entries |
| LoadingLog.MessageFeedHalts | app/components/LoadingScreen.tsx:615 | a message chain whose effect run captured progress 100 or more starts no message: between messages it does not advance |
| LoadingLog.MessageChainContinues | app/components/LoadingScreen.tsx:614-628 | a chain that captured progress below 100 is never stopped by progress: between messages, while the script lasts, the next callback starts the next message (its first character shown, or at once completed when empty) |
| LoadingLog.MessagesStartInv | app/components/LoadingScreen.tsx:77-79 | the empty starting state satisfies the message invariant |
| LoadingProgress.ProgressTickA | app/components/LoadingScreen.tsx:562-574 | the slow timer never exceeds 100, never decreases progress below 100, pins it at 100 once reached, and strictly increases it when the pause draw does not fire |
| LoadingProgress.ProgressTickB | app/components/LoadingScreen.tsx:667-679 | the phase timer either reaches 100 or strictly increases progress, never exceeds 100, and names the phase of the unclamped sum p + a (a in [1, 4)), which is one of the seven (the last one at 100) |
| LoadingProgress.PhaseIndexClamp | app/components/LoadingScreen.tsx:670-671 | the phase index is floor(p/100 * 7) below 600/7 and clamped to 6 from there on |
| LoadingProgress.PhaseIndexMonotone | app/components/LoadingScreen.tsx:670-671 | a larger progress value never shows an earlier phase |
| LoadingProgress.ProgressRunBounds | app/components/LoadingScreen.tsx:562-574 | under any interleaving of the two progress timers, progress never decreases, stays at most 100, and is absorbing at 100 |
| LoadingProgress.Eta | app/components/LoadingScreen.tsx:893 | the ETA is never negative, at most 10 seconds while progress is in [0, 100], and 0 at 100 |
| LoadingProgress.EtaMonotone | app/components/LoadingScreen.tsx:893 | more progress never shows a longer ETA |
| LoadingProgress.StatusLabel | app/components/LoadingScreen.tsx:912-920 | each of the five labels is shown exactly on its band: "INITIALIZING QUANTUM SYSTEMS" below 25, "BYPASSING SECURITY PROTOCOLS" in [25, 50), "ESTABLISHING NEURAL CONNECTIONS" in [50, 75), "PREPARING DIMENSIONAL JOURNEY" in [75, 100), "TRANSCENDENCE ACHIEVED" from 100 on |
| Common.ThresholdBandMonotone | app/components/LoadingScreen.tsx:912-920 | growing progress never moves back to an earlier status label |
| LoadingProgress.InitialPanelWellFormed | app/components/LoadingScreen.tsx:63-76 | the system-status panel starts with six well-formed entries at progress 0 |
| LoadingProgress.StatusTickMoves | app/components/LoadingScreen.tsx:579-606 | a panel update keeps the panel's size, every entry's name and well-formedness; no entry's progress drops, each status moves only along an allowed edge, and READY stays READY |
| LoadingProgress.RunPanelColumns | app/components/LoadingScreen.tsx:579-606 | after any number of panel updates, entry i is entry i run on its own column of draws: the entries evolve independently |
| LoadingProgress.PanelReady | app/components/LoadingScreen.tsx:579-606 | from the mounted six-entry panel, every line shows READY after 54 updates, whatever the draws |
| LoadingProgress.StepEntryMoves | app/components/LoadingScreen.tsx:581-604 | an entry's progress never decreases and grows by at least 2 unless it is capped at 100; its status moves only INITIALIZING to LOADING to ACTIVE to ONLINE or to READY; READY is reached only at progress 100 and is absorbing |
| LoadingProgress.RunEntryReachesFull | app/components/LoadingScreen.tsx:581 | after n updates an entry is at 100 or has gained at least 2n |
| LoadingProgress.RunEntryFinishes | app/components/LoadingScreen.tsx:585-597 | an entry at progress 100 reaches READY within as many updates as its status is steps away from READY |
| LoadingProgress.EveryEntryReady | app/components/LoadingScreen.tsx:577-608 | every well-formed entry shows READY after 54 updates, whatever the draws |
| Galaxy.BackgroundStars | components/SecondLoadingScreen.tsx:31-41 | exactly 150 background stars, each with z in [0, 1000), size in [0.5, 2.5), brightness in [0, 1) and speed in [0.1, 0.6) |
| Galaxy.ArmsQuarterTurnApart | components/SecondLoadingScreen.tsx:78 | consecutive arms are offset by a quarter turn, and the four offsets lie in one full turn |
| Galaxy.RadiusSchedule | components/SecondLoadingScreen.tsx:82-83 | the first star of an arm has radius 50, radii strictly increase along the arm, and all are below 350 |
| Galaxy.MakeArm | components/SecondLoadingScreen.tsx:77-98 | an arm has its offset angle, nominal radius 300 and 80 valid stars whose radii follow the schedule, with brightness in [0.2, 1), size in [1, 4) and z in [0, 100) |
| Galaxy.MakeGalaxy | components/SecondLoadingScreen.tsx:73-99 | exactly 4 arms of 80 valid stars each, arm a at offset a quarter turns |
| Galaxy.GalaxyProgress | components/SecondLoadingScreen.tsx:49-52 | progress is at most 100, non-negative for non-negative elapsed time, and equal to 100 exactly when 10 seconds have elapsed |
| Galaxy.GalaxyProgressMonotone | components/SecondLoadingScreen.tsx:50-51 | progress never decreases as time passes |
| Galaxy.ProgressFramesStop | components/SecondLoadingScreen.tsx:49-59 | the frame loop reports progress for every frame up to and including the first one at or past the duration, which reports 100, and schedules no more |
| Galaxy.RotationAfter | components/SecondLoadingScreen.tsx:149 | after n frames the rotation has grown by exactly n * 0.005 |
| Galaxy.ArmStarsAlwaysVisible | components/SecondLoadingScreen.tsx:134-140 | on a canvas at least 600 pixels each way, a rotated arm star (radius below 350) always passes the padded culling test |
| Galaxy.DepthCues | components/SecondLoadingScreen.tsx:106-112 | the parallax factor lies in [0, 1), so the size scale is in (0.5, 1], the drawn size in (0, 2.5) and the drawn brightness in [0, 1) |
| Particles.EvolveAppend | app/page.tsx:221-228 | the decay-and-filter step works particle by particle, preserving order: stepping a concatenation is concatenating the steps |
| Particles.EvolveDrains | app/page.tsx:221-228 | a pool whose lives are at most b is empty after n steps once n times the decay reaches b |
| Particles.EvolveSingleton | app/page.tsx:221-228 | one particle loses exactly the decay per step and survives n steps iff its life stays positive |
| Particles.MouseMove | app/page.tsx:200-211 | a mouse move spawns a particle iff the draw exceeds 0.7; the pool then holds the newest 15 old particles followed by the new one |
| Particles.CursorTickIsPerParticle | app/page.tsx:221-228 | a cursor tick acts on each particle independently, keeps order, and drops a particle once its life reaches 0 |
| Particles.CursorLifetime | app/page.tsx:206-225 | a fresh cursor particle survives exactly 49 ticks and is gone after the 50th |
| Particles.CursorPoolDrains | app/page.tsx:221-228 | any cursor pool is empty after 50 ticks with no new particles |
| Particles.CursorPoolStaysOk | app/page.tsx:200-228 | the cursor pool stays within 16 particles with lives in (0, 1] and palette colours, under spawning and ticking |
| Particles.SpawnSpark | app/page.tsx:237-250 | a spark spawn keeps the newest 30 old sparks and appends the new one |
| Particles.SparkTickIsPerParticle | app/page.tsx:258-267 | a spark tick moves each spark by its velocity, acts on each spark independently, keeps order, and drops sparks whose life reaches 0 |
| Particles.SparkLifetime | app/page.tsx:245-264 | a fresh spark survives exactly 124 ticks and is gone after the 125th |
| Particles.SparkPoolDrains | app/page.tsx:258-267 | any spark pool is empty after 125 ticks with no new sparks |
| Particles.SparkPoolStaysOk | app/page.tsx:237-267 | the spark pool stays within 31 sparks with lives in (0, 1] and palette colours |
| Terminal.ParseCommandText | app/page.tsx:303-343 | the dispatcher's ten command words and the command datatype are in one-to-one correspondence |
| Terminal.Parse | app/page.tsx:303-345 | a known command word parses to its own case, and anything else is kept verbatim as unknown |
| Terminal.NotFoundIff | app/page.tsx:344-345 | the "not found" reply for a text is produced exactly for that unrecognised text, never for a known command |
| Terminal.NotFoundInjective | app/page.tsx:345 | different unrecognised commands get different replies |
| Terminal.Execute | app/page.tsx:296-351 | clear empties the history and input without appending; any other command appends "$ " + the raw input and then its reply, and clears the input; only the two audio commands change the audio flag; the room never changes |
| Terminal.ParseAudio | app/page.tsx:323-330 | the dispatcher yields the audio commands for their own texts and for no other input |
| Terminal.AudioOnlyByCommand | app/page.tsx:323-330 | after a typed command the audio flag is on for "enable audio", off for "disable audio", and unchanged for anything else, after case folding and trimming |
| Terminal.HandleCommandNormalized | app/page.tsx:297 | typing a command already normalised sets the audio flag the same way and appends the echo of the normalised text followed by the same reply |
| Text.NormalizeIdempotent | app/page.tsx:297 | normalising (ASCII lowercase, then trim) a normalised command changes nothing |
| Text.TrimShape | components/CosmicTodoList.tsx:75 | trimming keeps one contiguous slice with no whitespace at either end and removes only whitespace |
| Text.TrimIdempotent | components/CosmicTodoList.tsx:75 | trimming a trimmed string changes nothing |
| Text.TrimEmptyIff | components/CosmicTodoList.tsx:75 | the trimmed text is empty exactly when the input is all whitespace |
| Terminal.ReplaceFirstAt | app/page.tsx:292 | `replace` with a one-character pattern changes exactly the first occurrence and nothing else |
| Terminal.ReplaceSingleHyphen | app/page.tsx:292 | replacing the first "-" in a room name with a single hyphen gives the name with "_" at that position and no "-" left |
| Terminal.Navigate | app/page.tsx:288-294 | navigating to boot changes nothing; any other room becomes current and the history gains exactly "cd /" + the room's directory and "Accessing " + the room's name + " neural pathway...", leaving earlier history, input and audio untouched |
| Terminal.RoomPathSpelling | app/page.tsx:292 | every room's directory has the length of its name, no "-", "_" where the name has its (single) hyphen, and the name's character everywhere else |
| Terminal.ReachableShellsOk | app/page.tsx:288-351 | in every reachable terminal state the room is not boot and the history has an even number of lines |
| Terminal.HistoryView | app/page.tsx:814-820 | the terminal shows the newest 6 history lines or fewer, each green exactly when it starts with "$" |
| Terminal.ReplyNotEcho | app/page.tsx:303-345 | no reply of a command other than clear starts with "$" |
| Terminal.ViewAfterCommand | app/page.tsx:816-817 | after a command other than clear, the view ends with the echo line "$ " + the raw input, shown green, followed by the command's reply, shown grey |
| Terminal.BootSchedule | app/page.tsx:494-508 | after n ticks the boot progress is min(10n, 100), and the completion callback fires exactly from the eleventh callback on (the first one to find progress at 100) |
| Terminal.BootLabel | app/page.tsx:566-574 | each of the five labels is shown exactly on its band: "INITIALIZING" below 25, "LOADING" in [25, 50), "CONNECTING" in [50, 75), "FINALIZING" in [75, 100), "TRANSCENDENT" from 100 on |
| Terminal.TypewriterShowsPrefix | app/page.tsx:584-603 | after n ticks the typewriter shows the first min(n, length) characters of its text |
| TodoList.PriorityColorsFixed | components/CosmicTodoList.tsx:52-65 | the four priorities get four distinct fixed colours that do not depend on the text colour |
| TodoList.PriorityColorFallback | components/CosmicTodoList.tsx:62-63 | any other priority name gets the text colour |
| TodoList.Toggle | components/CosmicTodoList.tsx:67-72 | toggling keeps length, order, ids, texts and priorities, and flips an item's completion exactly when its id matches |
| TodoList.ToggleTwice | components/CosmicTodoList.tsx:71 | toggling the same id twice restores the list |
| TodoList.ToggleElsewhere | components/CosmicTodoList.tsx:71 | toggling an id no item has changes nothing |
| TodoList.ToggleCount | components/CosmicTodoList.tsx:71-90 | with distinct ids, a toggle changes the completed count by exactly one in the direction of the flip |
| TodoList.MaxId | components/CosmicTodoList.tsx:76 | the largest id of a non-empty list is an id of the list and bounds every id |
| TodoList.Add | components/CosmicTodoList.tsx:74-88 | a blank input changes nothing; otherwise one item is appended after the unchanged old items, with id one more than the largest existing id (so above every existing id), the untrimmed text, not completed, medium priority, and the input is cleared |
| TodoList.AddIgnoresBlank | components/CosmicTodoList.tsx:75 | adding is a no-op exactly when the input is all whitespace |
| TodoList.IdsStayDistinct | components/CosmicTodoList.tsx:29-86 | ids are distinct in the initial list and stay distinct under toggle and add |
| TodoList.ReachableFromInitial | components/CosmicTodoList.tsx:29-88 | every reachable list has at least 8 items with distinct ids |
| TodoList.Progress | components/CosmicTodoList.tsx:90-92 | progress lies in [0, 100], is 100 exactly when every item is completed and 0 exactly when none is |
| TodoList.AddKeepsCompleted | components/CosmicTodoList.tsx:76-92 | adding keeps the completed count and never raises the progress figure |
| Folders.ScatterAll | components/ImageFolder.tsx:45-49 | one position per item, each inside the layout's square and tilt range |
| Folders.ClickFolder | components/FolderIcon.tsx:43-56 | a folder click toggles open and clears the selection; positions are regenerated, one per item within the layout, only on the closed-to-open transition |
| Folders.SelectItem | components/FolderIcon.tsx:58-61 | selecting an item records it and leaves the open flag and positions alone |
| Folders.CloseViewer | components/FolderIcon.tsx:63-65 | closing the viewer clears only the selection |
| Folders.ClickOutside | components/FolderIcon.tsx:67-72 | a click outside closes the folder and clears the selection |
| Folders.ClickOutsideWhenIdle | components/FolderIcon.tsx:74-79 | with the folder closed and nothing selected, a click outside changes nothing |
| Folders.ClickTwice | components/ImageFolder.tsx:41-54 | opening then closing a folder leaves it closed with nothing selected and the positions generated on opening |
| Folders.StepKeepsLayout | components/ImageFolder.tsx:41-90 | every folder event keeps all stored positions inside the layout |
| ImageFolder.PrevIndex | components/ImageFolder.tsx:65-69 | the previous index is (i - 1 + n) mod n, written as wrap-around from 0 to n - 1 |
| ImageFolder.NextIndex | components/ImageFolder.tsx:71-75 | the next index is (i + 1) mod n, written as wrap-around from n - 1 to 0 |
| ImageFolder.PrevNextInverse | components/ImageFolder.tsx:65-75 | previous undoes next and next undoes previous |
| ImageFolder.NextTimesWraps | components/ImageFolder.tsx:71-75 | k presses of next (k at most n) land on i + k, wrapped once past n |
| ImageFolder.NextFullCircle | components/ImageFolder.tsx:73 | n presses of next return to the starting image |
| ImageFolder.Prev | components/ImageFolder.tsx:65-69 | `handlePrevImage` moves a selection back by one in range and does nothing without a selection |
| ImageFolder.Next | components/ImageFolder.tsx:71-75 | `handleNextImage` moves a selection forward by one in range and does nothing without a selection |
| ImageFolder.KeyPress | components/ImageFolder.tsx:77-83 | keys act only while an image is selected; only ArrowLeft, ArrowRight and Escape do anything; ArrowLeft is `handlePrevImage`, ArrowRight is `handleNextImage`, and Escape clears the selection |
| ImageFolder.ArrowsCancel | components/ImageFolder.tsx:77-83 | ArrowRight then ArrowLeft returns to the same selection |
| ImageFolder.ClickImage | components/ImageFolder.tsx:56-59 | clicking a thumbnail selects that index |
| ImageFolder.MousePressInViewer | components/ImageFolder.tsx:84-97 | a mouse press in the viewer is an outside click: the folder closes and the selection clears, after which the previous, next and close handlers change nothing |
| ImageFolder.OpenScattersEveryImage | components/ImageFolder.tsx:43-50 | opening gives each of the n images a position with x, y in [-100, 100) and a tilt in [-10, 10) |
| FolderIcon.FileIconsDistinct | components/FolderIcon.tsx:263 | documents, code and images get three distinct icons |
| FolderIcon.FileFolderSession | components/FolderIcon.tsx:43-72 | opening places every file within x, y in [-100, 100) and tilt in [-15, 15); selecting a file keeps the folder open; `handleCloseViewer` or a click outside undoes the selection |
| TrashFolder.TrashIconsDistinct | components/TrashFolder.tsx:289 | the three corrupted-file icons are distinct from each other and from the file-folder icons |
| TrashFolder.TrashSession | components/TrashFolder.tsx:43-56 | opening the trash places every file within x, y in [-125, 125) and tilt in [-30, 30); clicking again closes it and keeps those positions |

## Left out

- Canvas painting, gradients, glow and the `cos`/`sin` placement and rotation of stars are pixel output over transcendental floats. Arm stars keep their radius and angle parameter. `Galaxy.ArmStarsAlwaysVisible` takes any rotated offset on the star's circle.
- The galaxy animation inside the first loading screen and its own background stars repeat the second screen's generator and are not modelled separately.
- Web Audio setup and `playSound` are browser APIs; sound calls are no-ops. `initAudio` after "enable audio" is left out with them.
- `setInterval`, `setTimeout`, `requestAnimationFrame` and React effect lifecycles are host scheduling. Each callback is an explicit step function, and runs are explicit sequences of steps.
- The loading-message effect (app/components/LoadingScreen.tsx:611-638) closes over the `progress` of the render that ran it, so every callback of one chain reads that captured value; `LoadingLog.MessageTick` takes it as `captured`. The cleanup clears only the pending 500 ms start timer and never stops a chain already running. Progress changes every 150 ms until it reaches 100, and each change re-runs the effect and clears the start timer. Read as written, a chain therefore starts only when some progress value lasts 500 ms, and the run that captures 100 starts none. This race between timers is host scheduling and is not modelled: `LoadingLog` models what one started chain does.
- The command-feed interval (app/components/LoadingScreen.tsx:496-558) is likewise re-created whenever `progress` or `currentLine` changes, so `CommandFeed.FeedTick` reads the progress of its own effect run. Whether the 150-350 ms interval fires before the next progress change clears it is host timing and is not modelled.
- `Math.random()` and `Date.now()` are parameters (`Draw` values, `now`, elapsed time). The id `Date.now() + Math.random()` of a new cursor particle is `now` plus its own draw (`CursorDraw.tag`).
- Render-time randomness with no state is not modelled: the checkmarks, the thought generator, the glitch text and the system monitor figures.
- The hacking-phase timeouts are a bare timer schedule with no logic.
- JSX and CSS layout, mouse-tilt transforms, keyframes and the `Dither` component are presentation. The DOM `contains` test of a click-outside handler is a boolean event (`ClickOutside`).
- The image, file and trash viewers are rendered as siblings of the folder's `containerRef` element, not inside it (components/ImageFolder.tsx:394, components/FolderIcon.tsx:274, components/TrashFolder.tsx:310). While a viewer shows, the mousedown listener is installed, so a mouse press on its arrows, close button or thumbnails is an outside click first: it closes the folder, clears the selection and unmounts the viewer (`ImageFolder.MousePressInViewer`). `Prev`, `Next` and `CloseViewer` model the handlers themselves, which in practice only the keyboard reaches (the arrow keys, Escape, or Enter on a focused button).
- Static content arrays are data, not logic: projects, skills, resume text and trash text.
- The feed functions take the command corpus as a parameter, and their contracts hold for any non-empty corpus. The screen's 60 commands are `CommandFeed.HackerCommands`. The step typewriter likewise takes its list of steps, and `LoadingLog.BootStepsComplete` instantiates it with the screen's nine steps.
- Strings are sequences of Unicode scalar values. JavaScript strings are UTF-16 code units, so `slice`, `length` and `text[i]` differ on emoji. `LoadingLog` and `Terminal.TypeTicks` count characters, not code units.
- Reals are exact. The 0.02 and 0.008 decays give lifetimes of 50 and 125 ticks in exact arithmetic. Binary floating point subtracts them with rounding and is not modelled.
- TodoList.Add: requires a non-empty list. In the source, `Math.max()` of no ids is `-Infinity`. The list starts with 8 items and nothing removes items, so an empty list is unreachable (`TodoList.ReachableFromInitial`).
- TodoList.MaxId: requires a non-empty list, for the same reason.
- TodoList.Progress: requires a non-empty list. The source divides 0 by 0 on an empty list, and that is unreachable for the same reason.
- Terminal.HandleCommand: the composition of `Normalize`, `Parse` and `Execute`. Its properties are stated on `Terminal.Execute` and the lemmas about it.
- Text.Lower: lowers only the ASCII capitals A-Z. JavaScript's `toLowerCase` applies full Unicode case mapping: U+212A KELVIN SIGN becomes "k", "É" becomes "é", and "İ" becomes two code points. So a command typed with non-ASCII capitals may dispatch differently, and the source does not keep `|Lower(s)| == |s|` for every string. `Text.LowerNoUpper` and `Terminal.HandleCommandNormalized` are stated for this ASCII mapping.
