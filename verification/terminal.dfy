/** The main page's interactive shell: the terminal command dispatcher, room
    navigation and what it writes to the history, the six-line history view,
    the boot progress counter and the typewriter text effect. */
module Terminal {
  import opened Common
  import opened Text

  /** The rooms of the mind palace; `boot` is a pseudo-room that is never entered. */
  datatype Room = Boot | Welcome | PrefrontalCortex | TemporalLobe | LimbicSystem | MotorCortex | Synapse | FrontalLobe

  function RoomName(r: Room): string {
    match r
    case Boot => "boot"
    case Welcome => "welcome"
    case PrefrontalCortex => "prefrontal-cortex"
    case TemporalLobe => "temporal-lobe"
    case LimbicSystem => "limbic-system"
    case MotorCortex => "motor-cortex"
    case Synapse => "synapse"
    case FrontalLobe => "frontal-lobe"
  }

  /** The first position at or after i holding c (|s| if there is none). */
  function FindFrom(s: string, c: char, i: nat): (k: nat)
    requires i <= |s|
    ensures i <= k <= |s|
    ensures forall j :: i <= j < k ==> s[j] != c
    ensures k < |s| ==> s[k] == c
    decreases |s| - i
  {
    if i < |s| && s[i] != c then FindFrom(s, c, i + 1) else i
  }

  /** `s.replace(from, to)` with a one-character string pattern: only the first
      occurrence is replaced. */
  function ReplaceFirst(s: string, from: char, to: char): (r: string)
    ensures |r| == |s|
    ensures from !in s ==> r == s
    ensures forall i :: 0 <= i < |s| ==> r[i] == s[i] || (s[i] == from && r[i] == to)
  {
    var k := FindFrom(s, from, 0);
    if k == |s| then s else s[..k] + [to] + s[k + 1..]
  }

  /** The first occurrence, at k, is the one and only position that changes. */
  lemma ReplaceFirstAt(s: string, from: char, to: char, k: nat)
    requires k < |s| && s[k] == from
    requires forall j :: 0 <= j < k ==> s[j] != from
    ensures ReplaceFirst(s, from, to) == s[..k] + [to] + s[k + 1..]
  {
    var f := FindFrom(s, from, 0);
    assert f < |s| ==> s[f] == from;
  }

  /** The directory a room is shown as: its name with the first `-` turned into `_`. */
  function RoomPath(r: Room): string {
    ReplaceFirst(RoomName(r), '-', '_')
  }

  /** For a name with a single hyphen, such as `prefrontal-cortex`, the path
      has none left: the hyphen is replaced and nothing else changes. */
  lemma ReplaceSingleHyphen(s: string, k: nat)
    requires k < |s| && s[k] == '-'
    requires forall j :: 0 <= j < |s| && j != k ==> s[j] != '-'
    ensures ReplaceFirst(s, '-', '_') == s[..k] + "_" + s[k + 1..]
    ensures '-' !in ReplaceFirst(s, '-', '_')
  {
    ReplaceFirstAt(s, '-', '_', k);
  }

  /** A directory spelt from `name` by turning its hyphens into `_`. */
  ghost predicate SpeltFrom(path: string, name: string) {
    |path| == |name| && '-' !in path
    && forall i :: 0 <= i < |name| ==> path[i] == (if name[i] == '-' then '_' else name[i])
  }

  /** A name whose one hyphen sits at k is spelt with `_` there. */
  lemma LoneHyphen(s: string, k: nat)
    requires k < |s| && s[k] == '-'
    requires forall j :: 0 <= j < |s| && j != k ==> s[j] != '-'
    ensures SpeltFrom(ReplaceFirst(s, '-', '_'), s)
  {
    ReplaceSingleHyphen(s, k);
  }

  /** A name without a hyphen is its own directory. */
  lemma NoHyphen(s: string)
    requires '-' !in s
    ensures SpeltFrom(ReplaceFirst(s, '-', '_'), s)
  {
  }

  /** Every room's directory is its name with the hyphen (there is at most
      one) turned into `_` and every other character kept. */
  lemma RoomPathSpelling(r: Room)
    ensures SpeltFrom(RoomPath(r), RoomName(r))
  {
    if r in {PrefrontalCortex, TemporalLobe, LimbicSystem} {
      if r == PrefrontalCortex { LoneHyphen("prefrontal-cortex", 10); }
      else if r == TemporalLobe { LoneHyphen("temporal-lobe", 8); }
      else { LoneHyphen("limbic-system", 6); }
    } else {
      PlainRoomPath(r);
    }
  }

  /** The remaining rooms, split off to keep each proof small. */
  lemma PlainRoomPath(r: Room)
    requires r !in {PrefrontalCortex, TemporalLobe, LimbicSystem}
    ensures SpeltFrom(RoomPath(r), RoomName(r))
  {
    if r == MotorCortex { LoneHyphen("motor-cortex", 5); }
    else if r == FrontalLobe { LoneHyphen("frontal-lobe", 7); }
    else if r == Welcome { NoHyphen("welcome"); }
    else if r == Synapse { NoHyphen("synapse"); }
    else { NoHyphen("boot"); }
  }

  /** The page state the shell reads and writes. */
  datatype Shell = Shell(room: Room, history: seq<string>, input: string, audio: bool)

  /** The page as it mounts: in the welcome room, empty history and input, audio off. */
  const InitialShell := Shell(Welcome, [], "", false)

  /** The commands the dispatcher recognises, and anything else. */
  datatype Cmd =
    List | SudoDream | CdConsciousness | RmSleep | WhoAmI
    | EnableAudio | DisableAudio | Singularity | HackReality | Clear
    | Unknown(text: string)

  /** The exact text of a recognised command. */
  function CommandText(c: Cmd): string
    requires !c.Unknown?
  {
    match c
    case List => "ls"
    case SudoDream => "sudo dream"
    case CdConsciousness => "cd consciousness"
    case RmSleep => "rm -rf sleep"
    case WhoAmI => "whoami"
    case EnableAudio => "enable audio"
    case DisableAudio => "disable audio"
    case Singularity => "singularity"
    case HackReality => "hack reality"
    case Clear => "clear"
  }

  /** The `switch` on a normalised command: a recognised command is the one
      whose text it is; anything else is unknown and keeps its text. */
  function Parse(cmd: string): (c: Cmd)
    ensures c.Unknown? ==> c.text == cmd
    ensures !c.Unknown? ==> CommandText(c) == cmd
  {
    if cmd == "ls" then List
    else if cmd == "sudo dream" then SudoDream
    else if cmd == "cd consciousness" then CdConsciousness
    else if cmd == "rm -rf sleep" then RmSleep
    else if cmd == "whoami" then WhoAmI
    else if cmd == "enable audio" then EnableAudio
    else if cmd == "disable audio" then DisableAudio
    else if cmd == "singularity" then Singularity
    else if cmd == "hack reality" then HackReality
    else if cmd == "clear" then Clear
    else Unknown(cmd)
  }

  /** Every recognised command is recognised from its own text: no case of the
      switch shadows another. */
  lemma ParseCommandText(c: Cmd)
    requires !c.Unknown?
    ensures Parse(CommandText(c)) == c
  {
  }

  /** The reply to an unrecognised command. (The longer replies are written
      as concatenations of their phrases; the values are the source's strings.) */
  function NotFound(cmd: string): string {
    "Command '" + cmd + "' not found. " + "Try 'enable audio' " + "or explore the neural pathways"
  }

  /** The line printed for a command other than `clear`. */
  function Response(c: Cmd): string {
    match c
    case List =>
      "prefrontal-cortex/  " + "temporal-lobe/  " + "limbic-system/  " + "motor-cortex/  "
      + "synapse/  " + "frontal-lobe/  " + "consciousness/"
    case SudoDream => "🌙 Entering REM sleep mode... " + "Dreams loading... " + "Reality.exe suspended"
    case CdConsciousness => "Permission denied. " + "Consciousness is still being compiled " + "by the universe"
    case RmSleep => "⚠️  Warning: Removing sleep " + "will cause system instability. " + "Coffee levels critical!"
    case WhoAmI => "shivanshi@mindpalace:~$ " + "Digital architect, code poet, " + "neural network navigator"
    case EnableAudio => "🔊 Audio systems online. " + "Cosmic frequencies activated."
    case DisableAudio => "🔇 Audio systems offline. " + "Silence in the void."
    case Singularity => "⚫ Approaching event horizon... " + "Reality distortion detected..."
    case HackReality => "Access denied. " + "Reality has better encryption " + "than expected 🔐"
    case Clear => ""
    case Unknown(text) => NotFound(text)
  }

  /** Different unknown commands get different replies. */
  lemma NotFoundInjective(a: string, b: string)
    ensures NotFound(a) == NotFound(b) ==> a == b
  {
    var na, nb := NotFound(a), NotFound(b);
    assert |na| == |a| + 71 && |nb| == |b| + 71;
    assert na[9..9 + |a|] == a && nb[9..9 + |b|] == b;
  }

  /** The not-found reply ends in `s`, whatever the command. */
  lemma NotFoundEnd(cmd: string)
    ensures var n := NotFound(cmd); |n| > 0 && n[|n| - 1] == 's'
  {
  }

  /** Every reply to a recognised command other than `clear` ends in a
      character other than the `s` that ends the not-found reply. */
  lemma KnownReplyEnd(c: Cmd)
    requires !c.Unknown? && c != Clear
    ensures var r := Response(c); |r| > 0 && r[|r| - 1] != 's'
  {
    match c
    case List => var r := Response(List); assert r[|r| - 1] == '/';
    case SudoDream => var r := Response(SudoDream); assert r[|r| - 1] == 'd';
    case CdConsciousness => var r := Response(CdConsciousness); assert r[|r| - 1] == 'e';
    case RmSleep => var r := Response(RmSleep); assert r[|r| - 1] == '!';
    case WhoAmI => var r := Response(WhoAmI); assert r[|r| - 1] == 'r';
    case EnableAudio => var r := Response(EnableAudio); assert r[|r| - 1] == '.';
    case DisableAudio => var r := Response(DisableAudio); assert r[|r| - 1] == '.';
    case Singularity => var r := Response(Singularity); assert r[|r| - 1] == '.';
    case HackReality => var r := Response(HackReality); assert r[|r| - 1] == '🔐';
  }

  /** The not-found reply is given exactly to the unrecognised commands: every
      recognised command's reply differs from it (in its last character). */
  lemma NotFoundIff(c: Cmd, cmd: string)
    requires c != Clear
    ensures Response(c) == NotFound(cmd) <==> c == Unknown(cmd)
  {
    if c.Unknown? {
      NotFoundInjective(c.text, cmd);
    } else {
      NotFoundEnd(cmd);
      KnownReplyEnd(c);
    }
  }

  /** The effect of a parsed command on the shell; `command` is the raw input
      echoed into the history. */
  function Execute(s: Shell, command: string, c: Cmd): (t: Shell)
    ensures t.room == s.room && t.input == ""
    ensures c == Clear ==> t.history == [] && t.audio == s.audio
    ensures c != Clear ==> t.history == s.history + ["$ " + command, Response(c)]
    ensures t.audio == (if c == EnableAudio then true else if c == DisableAudio then false else s.audio)
  {
    if c == Clear then s.(history := [], input := "")
    else
      var audio := if c == EnableAudio then true else if c == DisableAudio then false else s.audio;
      s.(history := s.history + ["$ " + command, Response(c)], input := "", audio := audio)
  }

  /** `handleTerminalCommand`: dispatch on the lower-cased, trimmed input.
      `clear` empties history and input; every other command appends the raw
      command line and the reply and clears the input; only `enable audio` and
      `disable audio` touch the audio flag. */
  function HandleCommand(s: Shell, command: string): (t: Shell)
  {
    Execute(s, command, Parse(Normalize(command)))
  }

  /** The dispatcher yields the audio commands for their own texts and no others. */
  lemma ParseAudio(cmd: string)
    ensures Parse(cmd) == EnableAudio <==> cmd == "enable audio"
    ensures Parse(cmd) == DisableAudio <==> cmd == "disable audio"
  {
    if cmd == "enable audio" {
      ParseCommandText(EnableAudio);
    } else if cmd == "disable audio" {
      ParseCommandText(DisableAudio);
    }
  }

  /** Only the two audio commands change the audio flag, and each sets it one way. */
  lemma AudioOnlyByCommand(s: Shell, command: string)
    ensures var t := HandleCommand(s, command);
      (t.audio != s.audio ==> Normalize(command) in {"enable audio", "disable audio"})
      && (Normalize(command) == "enable audio" ==> t.audio)
      && (Normalize(command) == "disable audio" ==> !t.audio)
  {
    var n := Normalize(command);
    ParseAudio(n);
    var t := Execute(s, command, Parse(n));
    assert HandleCommand(s, command) == t;
  }

  /** Inputs that differ only in letter case and surrounding whitespace have the
      same effect, except for the echoed command line. */
  lemma HandleCommandNormalized(s: Shell, c: string)
    ensures HandleCommand(s, Normalize(c)).audio == HandleCommand(s, c).audio
    ensures Parse(Normalize(c)) != Clear ==>
      HandleCommand(s, Normalize(c)).history == s.history + ["$ " + Normalize(c), Response(Parse(Normalize(c)))]
  {
    NormalizeIdempotent(c);
  }

  /** `navigateToRoom`: boot is ignored; any other room becomes current and two
      lines are logged, the `cd` into its path and the access notice. */
  function Navigate(s: Shell, r: Room): (t: Shell)
    ensures r == Boot ==> t == s
    ensures r != Boot ==> t.room == r && |t.history| == |s.history| + 2
    ensures t.input == s.input && t.audio == s.audio
    ensures t.history[..|s.history|] == s.history
    ensures r != Boot ==>
      t.history == s.history + ["cd /" + RoomPath(r), "Accessing " + RoomName(r) + " neural pathway..."]
  {
    if r == Boot then s
    else s.(room := r, history := s.history + ["cd /" + RoomPath(r), "Accessing " + RoomName(r) + " neural pathway..."])
  }

  /** The things a user can do to the shell. */
  datatype ShellEvent = Command(text: string) | GoTo(room: Room)

  function ApplyEvent(s: Shell, e: ShellEvent): Shell {
    match e
    case Command(text) => HandleCommand(s, text)
    case GoTo(r) => Navigate(s, r)
  }

  function RunShell(s: Shell, events: seq<ShellEvent>): Shell
    decreases |events|
  {
    if |events| == 0 then s else RunShell(ApplyEvent(s, events[0]), events[1..])
  }

  /** n counts whole two-line entries: it is reached from 0 by steps of two. */
  predicate Paired(n: nat)
    decreases n
  {
    n == 0 || (n >= 2 && Paired(n - 2))
  }

  /** What every reachable shell satisfies: the current room is never boot and
      the history is made of whole two-line entries. */
  predicate ShellInv(s: Shell) {
    s.room != Boot && Paired(|s.history|)
  }

  lemma ApplyEventKeepsInv(s: Shell, e: ShellEvent)
    requires ShellInv(s)
    ensures ShellInv(ApplyEvent(s, e))
  {
    match e
    case Command(text) => CommandKeepsInv(s, text);
    case GoTo(r) => NavigateKeepsInv(s, r);
  }

  /** Adding a two-line entry keeps the history whole. */
  lemma PairedStep(n: nat)
    ensures Paired(n) ==> Paired(n + 2)
  {
  }

  lemma ExecuteKeepsInv(s: Shell, command: string, c: Cmd)
    requires ShellInv(s)
    ensures ShellInv(Execute(s, command, c))
  {
    PairedStep(|s.history|);
  }

  lemma CommandKeepsInv(s: Shell, command: string)
    requires ShellInv(s)
    ensures ShellInv(HandleCommand(s, command))
  {
    ExecuteKeepsInv(s, command, Parse(Normalize(command)));
  }

  lemma NavigateKeepsInv(s: Shell, r: Room)
    requires ShellInv(s)
    ensures ShellInv(Navigate(s, r))
  {
    var t := Navigate(s, r);
    assert |t.history| == |s.history| || |t.history| == |s.history| + 2;
    PairedStep(|s.history|);
  }

  lemma {:induction false} ShellInvHolds(s: Shell, events: seq<ShellEvent>)
    requires ShellInv(s)
    ensures ShellInv(RunShell(s, events))
    decreases |events|
  {
    if |events| > 0 {
      var t := ApplyEvent(s, events[0]);
      ApplyEventKeepsInv(s, events[0]);
      assert RunShell(s, events) == RunShell(t, events[1..]);
      ShellInvHolds(t, events[1..]);
    }
  }

  lemma ReachableShellsOk(events: seq<ShellEvent>)
    ensures ShellInv(RunShell(InitialShell, events))
  {
    ShellInvHolds(InitialShell, events);
  }

  /** The terminal shows the last six history lines, green exactly for lines
      starting with `$`. */
  function HistoryView(history: seq<string>): (view: seq<(string, bool)>)
    ensures |view| == Min(|history|, 6)
    ensures forall i :: 0 <= i < |view| ==>
      view[i].0 == history[|history| - |view| + i] && (view[i].1 <==> |view[i].0| > 0 && view[i].0[0] == '$')
  {
    var tail := Last(history, 6);
    seq(|tail|, i requires 0 <= i < |tail| => (tail[i], |tail[i]| > 0 && tail[i][0] == '$'))
  }

  /** No reply starts with `$`, so no reply is mistaken for an echoed command. */
  lemma ReplyNotEcho(c: Cmd)
    requires c != Clear
    ensures var r := Response(c); |r| > 0 && r[0] != '$'
  {
    match c
    case Unknown(text) => assert Response(c)[0] == 'C';
    case _ =>
  }

  /** After any command but `clear`, the view ends with the echoed command in
      green followed by the reply in grey. */
  lemma ViewAfterCommand(s: Shell, command: string)
    requires Parse(Normalize(command)) != Clear
    ensures var v := HistoryView(HandleCommand(s, command).history);
      |v| >= 2 && v[|v| - 2] == ("$ " + command, true)
      && v[|v| - 1] == (Response(Parse(Normalize(command))), false)
  {
    var c := Parse(Normalize(command));
    ReplyNotEcho(c);
    ViewEndsWith(s.history, command, Response(c));
  }

  lemma ViewEndsWith(h: seq<string>, command: string, reply: string)
    ensures var v := HistoryView(h + ["$ " + command, reply]);
      |v| >= 2 && v[|v| - 2] == ("$ " + command, true)
      && v[|v| - 1] == (reply, |reply| > 0 && reply[0] == '$')
  {
    assert ("$ " + command)[0] == '$';
  }

  /** One 100 ms tick of the boot screen: at 100 it stays and reports
      completion; otherwise it adds 10. */
  function BootTick(p: int): (r: (int, bool))
    ensures r.1 <==> p >= 100
    ensures r.1 ==> r.0 == 100
    ensures !r.1 ==> r.0 == p + 10
  {
    if p >= 100 then (100, true) else (p + 10, false)
  }

  function BootProgress(n: nat): int
    decreases n
  {
    if n == 0 then 0 else BootTick(BootProgress(n - 1)).0
  }

  /** The counter shows 10 per tick up to 100 and then sticks; the completion
      signal fires on the eleventh callback (the first one to find progress at
      100) and on every later one. */
  lemma {:induction false} BootSchedule(n: nat)
    ensures BootProgress(n) == Min(10 * n, 100)
    ensures BootTick(BootProgress(n)).1 <==> n >= 10
    decreases n
  {
    if n > 0 {
      BootSchedule(n - 1);
    }
  }

  const BootLabels: seq<string> := ["INITIALIZING", "LOADING", "CONNECTING", "FINALIZING", "TRANSCENDENT"]

  /** The cosmic status label of the boot screen, by the thresholds 25/50/75/100. */
  function BootLabel(p: int): (shown: string)
    ensures shown == "INITIALIZING" <==> p < 25
    ensures shown == "LOADING" <==> 25 <= p < 50
    ensures shown == "CONNECTING" <==> 50 <= p < 75
    ensures shown == "FINALIZING" <==> 75 <= p < 100
    ensures shown == "TRANSCENDENT" <==> p >= 100
  {
    BootLabels[ThresholdBand(p as real)]
  }

  /** The typewriter's state: the text shown so far and the next index. */
  datatype Typewriter = Typewriter(shown: string, index: nat)

  /** One timer callback: reveal the next character while any remain. */
  function TypeTick(text: string, t: Typewriter): Typewriter {
    if t.index < |text| then Typewriter(t.shown + [text[t.index]], t.index + 1) else t
  }

  function TypeTicks(text: string, n: nat): Typewriter
    decreases n
  {
    if n == 0 then Typewriter("", 0) else TypeTick(text, TypeTicks(text, n - 1))
  }

  /** After n callbacks the typewriter shows exactly the first min(n, |text|)
      characters, and the whole text from |text| callbacks on. */
  lemma {:induction false} TypewriterShowsPrefix(text: string, n: nat)
    ensures TypeTicks(text, n).index == Min(n, |text|)
    ensures TypeTicks(text, n).shown == text[..Min(n, |text|)]
    decreases n
  {
    if n > 0 {
      TypewriterShowsPrefix(text, n - 1);
      var k := Min(n - 1, |text|);
      if k < |text| {
        assert text[..k] + [text[k]] == text[..k + 1];
      }
    }
  }
}
