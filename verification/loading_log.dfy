/** The two typed logs of the first loading screen: the step typewriter that
    reveals each boot step character by character and then moves to the next,
    and the initialisation-log feed that types each message of a fixed script
    and keeps a bounded history of the completed ones. */
module LoadingLog {
  import opened Common

  /** The boot steps the terminal types out, in order. */
  const LoadingSteps: seq<string> := [
    "> INITIALIZING COSMIC SYSTEMS...",
    "> LOADING NEURAL PATHWAYS...",
    "> CONNECTING TO UNIVERSAL GRID...",
    "> CALIBRATING QUANTUM PROCESSORS...",
    "> MOUNTING CONSCIOUSNESS FILESYSTEM...",
    "> ESTABLISHING DIMENSIONAL LINKS...",
    "> SYNCHRONIZING REALITY MATRICES...",
    "> ACTIVATING GALAXY BRAIN PROTOCOL...",
    "> READY TO LAUNCH."
  ]

  /** The step typewriter: current step, characters typed of it, the text on
      screen, and whether the whole sequence is complete. */
  datatype StepState = StepState(step: nat, typed: nat, display: string, complete: bool)

  /** The state in which step k starts typing (`setDisplayText("")`, `charIndex = 0`). */
  function StepStart(k: nat): StepState {
    StepState(k, 0, "", false)
  }

  /** The screen always shows a prefix of the current step, and the sequence is
      complete exactly when every step has been typed. */
  ghost predicate StepInv(steps: seq<string>, s: StepState) {
    |steps| > 0
    && s.step <= |steps|
    && (s.complete <==> s.step == |steps|)
    && (s.step < |steps| ==>
          s.typed <= |steps[s.step]| && s.display == steps[s.step][..s.typed])
    && (s.step == |steps| ==> s.display == steps[|steps| - 1])
  }

  /** One 50 ms tick of the typing interval over the script `steps`: reveal one
      more character, or, when the step is fully shown, move to the next step
      (the 300 ms pause and the effect re-run folded in). Once every step is
      done nothing changes. */
  function StepTick(steps: seq<string>, s: StepState): StepState {
    if s.step >= |steps| then s
    else
      var text := steps[s.step];
      if s.typed < |text| then s.(typed := s.typed + 1, display := text[..s.typed + 1])
      else if s.step + 1 < |steps| then StepStart(s.step + 1)
      else s.(step := s.step + 1, typed := 0, complete := true)
  }

  function StepTicks(steps: seq<string>, s: StepState, n: nat): StepState
    decreases n
  {
    if n == 0 then s else StepTicks(steps, StepTick(steps, s), n - 1)
  }

  lemma StepTickInv(steps: seq<string>, s: StepState)
    requires StepInv(steps, s)
    ensures StepInv(steps, StepTick(steps, s))
    ensures s.complete ==> StepTick(steps, s) == s
    ensures StepTick(steps, s).step == s.step || StepTick(steps, s).step == s.step + 1
  {
  }

  /** Typing step k shows its prefixes in increasing length: after j ticks the
      screen holds the first j characters. */
  lemma {:induction false} StepShowsPrefixes(steps: seq<string>, k: nat, j: nat)
    requires k < |steps| && j <= |steps[k]|
    ensures StepTicks(steps, StepStart(k), j) == StepState(k, j, steps[k][..j], false)
  {
    if j > 0 {
      StepShowsPrefixes(steps, k, j - 1);
      StepTicksSplit(steps, StepStart(k), j - 1, 1);
      assert steps[k][..j - 1][..0] == [];
    }
  }

  lemma {:induction false} StepTicksSplit(steps: seq<string>, s: StepState, a: nat, b: nat)
    ensures StepTicks(steps, s, a + b) == StepTicks(steps, StepTicks(steps, s, a), b)
    decreases a
  {
    if a > 0 {
      StepTicksSplit(steps, StepTick(steps, s), a - 1, b);
    }
  }

  /** A step of length L takes exactly L + 1 ticks: L reveals and the move to
      the next step (or to completion after the last step). */
  lemma StepTakesLengthPlusOne(steps: seq<string>, k: nat)
    requires k < |steps|
    ensures StepTicks(steps, StepStart(k), |steps[k]| + 1)
      == if k + 1 < |steps| then StepStart(k + 1)
         else StepState(k + 1, 0, steps[k], true)
  {
    var n := |steps[k]|;
    StepShowsPrefixes(steps, k, n);
    StepTicksSplit(steps, StepStart(k), n, 1);
    assert steps[k][..n] == steps[k];
  }

  /** The number of ticks that type steps k.. to the end. */
  function TicksFrom(steps: seq<string>, k: nat): nat
    requires k <= |steps|
    decreases |steps| - k
  {
    if k == |steps| then 0 else |steps[k]| + 1 + TicksFrom(steps, k + 1)
  }

  /** Every step is typed once, in script order, and the sequence then reports
      completion with the last step still on screen. */
  lemma {:induction false} StepsComplete(steps: seq<string>, k: nat)
    requires k < |steps|
    ensures StepTicks(steps, StepStart(k), TicksFrom(steps, k))
      == StepState(|steps|, 0, steps[|steps| - 1], true)
    decreases |steps| - k
  {
    var a := |steps[k]| + 1;
    assert TicksFrom(steps, k) == a + TicksFrom(steps, k + 1);
    StepTakesLengthPlusOne(steps, k);
    StepTicksSplit(steps, StepStart(k), a, TicksFrom(steps, k + 1));
    if k + 1 < |steps| {
      StepsComplete(steps, k + 1);
    } else {
      assert TicksFrom(steps, k + 1) == 0;
    }
  }

  /** The boot sequence itself: nine steps, starting well formed, and complete
      with its last line on screen once every step has been typed. */
  lemma BootStepsComplete()
    ensures |LoadingSteps| == 9
    ensures StepInv(LoadingSteps, StepStart(0))
    ensures StepTicks(LoadingSteps, StepStart(0), TicksFrom(LoadingSteps, 0))
      == StepState(9, 0, "> READY TO LAUNCH.", true)
  {
    StepsComplete(LoadingSteps, 0);
  }

  /** The script of the initialisation log. */
  const LoadingSequence: seq<string> := [
    "LOADING CONSCIOUSNESS MATRIX v3.14159...",
    "ESTABLISHING SECURE DIMENSIONAL GATEWAY...",
    "DECRYPTING SYNAPTIC PATHWAYS...",
    "BOOTING DIGITAL SUBCONSCIOUS...",
    "CALIBRATING REALITY DISTORTION FIELD...",
    "SYNCHRONIZING TEMPORAL FLUX CAPACITOR...",
    "ACTIVATING HACKER PROTOCOLS...",
    "INJECTING QUANTUM CODE SEQUENCES...",
    "BYPASSING UNIVERSAL FIREWALLS...",
    "EXPLOITING CONSCIOUSNESS VULNERABILITIES...",
    "ESCALATING PRIVILEGES TO ROOT@UNIVERSE...",
    "MOUNTING NEURAL FILESYSTEM...",
    "CRACKING ENCRYPTION ON REALITY.EXE...",
    "ESTABLISHING BACKDOOR TO ENLIGHTENMENT...",
    "PREPARING DIMENSIONAL JOURNEY..."
  ]

  /** Completed messages kept before a new one is appended. */
  const MessageCap := 6

  /** The initialisation-log feed: next script index, the message being typed
      and how much of it is shown, whether typing is under way, and the history
      of completed messages. */
  datatype MessageState =
    MessageState(index: nat, shown: string, typed: nat, typing: bool, history: seq<string>)

  const MessagesStart := MessageState(0, "", 0, false, [])

  /** The typed text is a prefix of the current message, and the history is
      always the newest seven completed messages of the script, in order. */
  ghost predicate MessageInv(script: seq<string>, s: MessageState) {
    s.index <= |script|
    && (s.typing ==>
          s.index < |script| && s.typed <= |script[s.index]|
          && s.shown == script[s.index][..s.typed])
    && s.history == Last(script[..s.index], MessageCap + 1)
  }

  /** One `typeMessage` call: reveal one more character or, at the end of the
      message, append it to the capped history and move to the next index. */
  function TypeStep(script: seq<string>, s: MessageState): MessageState
    requires s.index < |script|
  {
    var msg := script[s.index];
    if s.typed < |msg| then s.(shown := msg[..s.typed + 1], typed := s.typed + 1)
    else s.(typing := false, history := PushCapped(s.history, msg, MessageCap), index := s.index + 1)
  }

  /** One callback of a message chain: keep typing, or (`showNextMessage`)
      start the next message while the script lasts and `captured` is below
      100. `captured` is the progress the effect run that started the chain
      closed over; every callback of that chain reads the same value, however
      the live progress moves on afterwards. */
  function MessageTick(script: seq<string>, s: MessageState, captured: real): MessageState
    requires s.typing ==> s.index < |script|
  {
    if s.typing then TypeStep(script, s)
    else if s.index < |script| && captured < 100.0 then
      TypeStep(script, s.(shown := "", typed := 0, typing := true))
    else s
  }

  lemma TypeStepInv(script: seq<string>, s: MessageState)
    requires MessageInv(script, s) && s.typing
    ensures MessageInv(script, TypeStep(script, s))
  {
    var msg := script[s.index];
    if s.typed == |msg| {
      var log := script[..s.index];
      PushCappedTracksLog(log, msg, MessageCap);
      assert log + [msg] == script[..s.index + 1];
    }
  }

  /** The feed keeps its invariant: at most seven completed messages, FIFO eviction,
      no message skipped or repeated. */
  lemma MessageTickInv(script: seq<string>, s: MessageState, captured: real)
    requires MessageInv(script, s)
    ensures MessageInv(script, MessageTick(script, s, captured))
    ensures |MessageTick(script, s, captured).history| <= MessageCap + 1
  {
    if s.typing {
      TypeStepInv(script, s);
    } else if s.index < |script| && captured < 100.0 {
      TypeStepInv(script, s.(shown := "", typed := 0, typing := true));
    }
  }

  /** A chain whose effect run captured progress 100 starts no message: between
      messages it stays where it is. */
  lemma MessageFeedHalts(script: seq<string>, s: MessageState, captured: real)
    requires !s.typing && captured >= 100.0
    ensures MessageTick(script, s, captured) == s
  {
  }

  /** A chain that captured progress below 100 is never stopped by progress:
      between messages, while the script lasts, the next callback starts the
      next message (typing its first character, or finishing it at once when
      it is empty). */
  lemma MessageChainContinues(script: seq<string>, s: MessageState, captured: real)
    requires MessageInv(script, s) && !s.typing && s.index < |script| && captured < 100.0
    ensures var t := MessageTick(script, s, captured);
      if script[s.index] == [] then !t.typing && t.index == s.index + 1
      else t.typing && t.index == s.index && t.shown == script[s.index][..1]
  {
  }

  lemma MessagesStartInv(script: seq<string>)
    ensures MessageInv(script, MessagesStart)
  {
  }
}
