/** The progress figures of the first loading screen: the clamped progress
    value driven by two independent timers, the phase label derived from it,
    the ETA, the bottom status label, and the six-entry system-status panel. */
module LoadingProgress {
  import opened Common

  /** The slow progress timer (200 ms): at 100 it stays; otherwise, unless the
      draw pauses it (probability 0.2), it adds an amount in [0.5, 2.5),
      clamped to 100. */
  function ProgressTickA(p: real, pause: Draw, amount: Draw): (q: real)
    ensures q <= 100.0
    ensures p <= 100.0 ==> p <= q
    ensures p >= 100.0 ==> q == 100.0
    ensures p < 100.0 && pause <= 0.8 ==> q > p
  {
    if p >= 100.0 then 100.0
    else
      var inc := if pause > 0.8 then 0.0 else Scale(amount, 2.0) + 0.5;
      if p + inc < 100.0 then p + inc else 100.0
  }

  /** The labels of the seven phases. */
  const Phases: seq<string> := [
    "INITIALIZING",
    "LOADING NEURAL NETWORKS",
    "CALIBRATING QUANTUM PROCESSORS",
    "ESTABLISHING COSMIC CONNECTION",
    "SYNCHRONIZING DIMENSIONS",
    "ACTIVATING CONSCIOUSNESS MATRIX",
    "READY FOR TRANSCENDENCE"
  ]

  /** `Math.min(Math.floor(p / 100 * 7), 6)`. */
  function PhaseIndex(p: real): (k: nat)
    requires p >= 0.0
    ensures k < |Phases|
  {
    var raw := (p / 100.0 * 7.0).Floor;
    if raw < 6 then raw else 6
  }

  /** The last phase is shown exactly from 600/7 % on; below that the index is
      the progress' seventh. */
  lemma PhaseIndexClamp(p: real)
    requires p >= 0.0
    ensures PhaseIndex(p) == 6 <==> p >= 600.0 / 7.0
    ensures p < 600.0 / 7.0 ==> PhaseIndex(p) as real <= p * 7.0 / 100.0 < PhaseIndex(p) as real + 1.0
  {
  }

  /** A larger progress never shows an earlier phase. */
  lemma PhaseIndexMonotone(p: real, q: real)
    requires 0.0 <= p <= q
    ensures PhaseIndex(p) <= PhaseIndex(q)
  {
    assert p / 100.0 * 7.0 <= q / 100.0 * 7.0;
  }

  /** The phase timer (150 ms): add an amount in [1, 4), pick the phase label
      from the unclamped sum, and clamp the progress at 100. */
  function ProgressTickB(p: real, amount: Draw): (r: (real, string))
    requires p >= 0.0
    ensures r.0 <= 100.0 && (p <= 100.0 ==> p < r.0 || r.0 == 100.0)
    ensures p >= 100.0 ==> r.0 == 100.0 && r.1 == Phases[6]
    ensures r.1 in Phases
    ensures r.1 == Phases[PhaseIndex(p + Scale(amount, 3.0) + 1.0)]
  {
    var next := p + Scale(amount, 3.0) + 1.0;
    PhaseIndexClamp(next);
    (if next >= 100.0 then 100.0 else next, Phases[PhaseIndex(next)])
  }

  /** The two timers interleave arbitrarily. */
  datatype ProgressEvent = SlowTick(pause: Draw, amount: Draw) | PhaseTick(amount: Draw)

  function Apply(p: real, e: ProgressEvent): real
    requires p >= 0.0
  {
    match e
    case SlowTick(pause, amount) => ProgressTickA(p, pause, amount)
    case PhaseTick(amount) => ProgressTickB(p, amount).0
  }

  function RunProgress(p: real, events: seq<ProgressEvent>): real
    requires 0.0 <= p <= 100.0
    decreases |events|
  {
    if |events| == 0 then p else RunProgress(Apply(p, events[0]), events[1..])
  }

  /** Whatever the interleaving of the two timers, progress stays in [0, 100],
      never decreases, and once at 100 stays there. */
  lemma {:induction false} ProgressRunBounds(p: real, events: seq<ProgressEvent>)
    requires 0.0 <= p <= 100.0
    ensures p <= RunProgress(p, events) <= 100.0
    ensures p == 100.0 ==> RunProgress(p, events) == 100.0
    decreases |events|
  {
    if |events| > 0 {
      ProgressRunBounds(Apply(p, events[0]), events[1..]);
    }
  }

  /** `Math.round(x)` as JavaScript defines it: the floor of x + 0.5. */
  function Round(x: real): int {
    (x + 0.5).Floor
  }

  /** `Math.max(0, Math.round((100 - p) * 0.1))`: the seconds left shown as ETA. */
  function Eta(p: real): (s: int)
    ensures s >= 0
    ensures 0.0 <= p <= 100.0 ==> s <= 10
    ensures p >= 100.0 ==> s == 0
  {
    var r := Round((100.0 - p) * 0.1);
    if r < 0 then 0 else r
  }

  /** More progress never shows a larger ETA. */
  lemma EtaMonotone(p: real, q: real)
    requires p <= q
    ensures Eta(q) <= Eta(p)
  {
    assert (100.0 - q) * 0.1 + 0.5 <= (100.0 - p) * 0.1 + 0.5;
  }

  const StatusLabels: seq<string> := [
    "INITIALIZING QUANTUM SYSTEMS",
    "BYPASSING SECURITY PROTOCOLS",
    "ESTABLISHING NEURAL CONNECTIONS",
    "PREPARING DIMENSIONAL JOURNEY",
    "TRANSCENDENCE ACHIEVED"
  ]

  /** The bottom status label, chosen by the thresholds 25/50/75/100. */
  function StatusLabel(p: real): (shown: string)
    ensures shown == "INITIALIZING QUANTUM SYSTEMS" <==> p < 25.0
    ensures shown == "BYPASSING SECURITY PROTOCOLS" <==> 25.0 <= p < 50.0
    ensures shown == "ESTABLISHING NEURAL CONNECTIONS" <==> 50.0 <= p < 75.0
    ensures shown == "PREPARING DIMENSIONAL JOURNEY" <==> 75.0 <= p < 100.0
    ensures shown == "TRANSCENDENCE ACHIEVED" <==> p >= 100.0
  {
    StatusLabels[ThresholdBand(p)]
  }

  /** The states a subsystem of the status panel can show. */
  datatype Status =
    Initializing | Loading | Standby | Connecting | Bypassing | Awakening | Active | Online | Ready

  function StatusText(s: Status): string {
    match s
    case Initializing => "[INITIALIZING]"
    case Loading => "[LOADING]"
    case Standby => "[STANDBY]"
    case Connecting => "[CONNECTING]"
    case Bypassing => "[BYPASSING]"
    case Awakening => "[AWAKENING]"
    case Active => "[ACTIVE]"
    case Online => "[ONLINE]"
    case Ready => "[READY]"
  }

  /** The colour each state is shown in, as the initial panel and the update assign them. */
  function StatusColor(s: Status): string {
    match s
    case Initializing => "text-yellow-400"
    case Loading => "text-yellow-400"
    case Standby => "text-gray-400"
    case Connecting => "text-yellow-400"
    case Bypassing => "text-red-400"
    case Awakening => "text-purple-400"
    case Active => "text-green-400"
    case Online => "text-green-400"
    case Ready => "text-cyan-400"
  }

  datatype Entry = Entry(name: string, status: Status, color: string, progress: real)

  /** The panel when the screen mounts. */
  const InitialPanel: seq<Entry> := [
    Entry("CPU: Neural Processing Unit", Initializing, "text-yellow-400", 0.0),
    Entry("RAM: Consciousness Buffer", Loading, "text-yellow-400", 0.0),
    Entry("GPU: Reality Renderer", Standby, "text-gray-400", 0.0),
    Entry("NET: Quantum Entanglement", Connecting, "text-yellow-400", 0.0),
    Entry("SEC: Firewall Matrix", Bypassing, "text-red-400", 0.0),
    Entry("SYS: Digital Consciousness", Awakening, "text-purple-400", 0.0)
  ]

  /** An entry is well formed when its progress is in [0, 100] and its colour is its status' colour. */
  predicate WellFormedEntry(e: Entry) {
    0.0 <= e.progress <= 100.0 && e.color == StatusColor(e.status)
  }

  /** One 300 ms update of one entry: progress grows by an amount in [2, 7),
      clamped to 100; then the first applicable rule moves the status one step
      along INITIALIZING, LOADING, ACTIVE, ONLINE, or to READY once progress is 100. */
  function StepEntry(e: Entry, d: Draw): Entry {
    var sum := e.progress + Scale(d, 5.0) + 2.0;
    var np := if sum < 100.0 then sum else 100.0;
    if np > 25.0 && e.status == Initializing then e.(status := Loading, color := "text-yellow-400", progress := np)
    else if np > 50.0 && e.status == Loading then e.(status := Active, color := "text-green-400", progress := np)
    else if np > 75.0 && e.status == Active then e.(status := Online, color := "text-green-400", progress := np)
    else if np >= 100.0 then e.(status := Ready, color := "text-cyan-400", progress := np)
    else e.(progress := np)
  }

  /** The status moves only INITIALIZING to LOADING to ACTIVE to ONLINE, or to READY. */
  predicate AllowedMove(a: Status, b: Status) {
    b == a || b == Ready
    || (a == Initializing && b == Loading)
    || (a == Loading && b == Active)
    || (a == Active && b == Online)
  }

  /** One update keeps the entry well formed, keeps its name, never lowers its
      progress, moves its status only along the allowed edges, reaches READY
      only at 100, and never leaves READY. */
  lemma StepEntryMoves(e: Entry, d: Draw)
    requires WellFormedEntry(e)
    ensures var e' := StepEntry(e, d);
      WellFormedEntry(e') && e'.name == e.name
      && e.progress <= e'.progress
      && (e'.progress == 100.0 || e'.progress >= e.progress + 2.0)
      && AllowedMove(e.status, e'.status)
      && (e'.status == Ready && e.status != Ready ==> e'.progress == 100.0)
      && (e.status == Ready ==> e'.status == Ready)
  {
  }

  /** The whole panel for one update, one draw per entry. */
  function StatusTick(panel: seq<Entry>, draws: seq<Draw>): (r: seq<Entry>)
    requires |draws| == |panel|
    ensures |r| == |panel|
    ensures forall i :: 0 <= i < |r| ==> r[i] == StepEntry(panel[i], draws[i])
  {
    seq(|panel|, i requires 0 <= i < |panel| => StepEntry(panel[i], draws[i]))
  }

  /** Every entry of the panel is well formed. */
  predicate WellFormedPanel(panel: seq<Entry>) {
    forall i :: 0 <= i < |panel| ==> WellFormedEntry(panel[i])
  }

  /** One panel update keeps the panel's size and every entry well formed and
      named as before; each entry's progress never drops and its status moves
      only along the allowed edges, never leaving READY. */
  lemma StatusTickMoves(panel: seq<Entry>, draws: seq<Draw>)
    requires |draws| == |panel| && WellFormedPanel(panel)
    ensures var r := StatusTick(panel, draws);
      |r| == |panel| && WellFormedPanel(r)
      && forall i :: 0 <= i < |r| ==>
        r[i].name == panel[i].name && panel[i].progress <= r[i].progress
        && AllowedMove(panel[i].status, r[i].status)
        && (panel[i].status == Ready ==> r[i].status == Ready)
  {
    var r := StatusTick(panel, draws);
    forall i | 0 <= i < |r|
      ensures WellFormedEntry(r[i]) && r[i].name == panel[i].name && panel[i].progress <= r[i].progress
        && AllowedMove(panel[i].status, r[i].status) && (panel[i].status == Ready ==> r[i].status == Ready)
    {
      StepEntryMoves(panel[i], draws[i]);
    }
  }

  /** Successive panel updates, one row of draws (one per entry) per update. */
  function RunPanel(panel: seq<Entry>, rows: seq<seq<Draw>>): (r: seq<Entry>)
    requires forall k :: 0 <= k < |rows| ==> |rows[k]| == |panel|
    ensures |r| == |panel|
    decreases |rows|
  {
    if |rows| == 0 then panel else RunPanel(StatusTick(panel, rows[0]), rows[1..])
  }

  /** The draws entry i receives over successive updates. */
  function Column(rows: seq<seq<Draw>>, i: nat): (c: seq<Draw>)
    requires forall k :: 0 <= k < |rows| ==> i < |rows[k]|
    ensures |c| == |rows|
  {
    seq(|rows|, k requires 0 <= k < |rows| => rows[k][i])
  }

  /** Entries of the panel evolve independently: entry i after the updates is
      entry i run on its own column of draws. */
  lemma {:induction false} RunPanelColumns(panel: seq<Entry>, rows: seq<seq<Draw>>, i: nat)
    requires forall k :: 0 <= k < |rows| ==> |rows[k]| == |panel|
    requires i < |panel|
    ensures RunPanel(panel, rows)[i] == RunEntry(panel[i], Column(rows, i))
    decreases |rows|
  {
    if |rows| > 0 {
      var next := StatusTick(panel, rows[0]);
      RunPanelColumns(next, rows[1..], i);
      assert Column(rows, i)[1..] == Column(rows[1..], i);
    }
  }

  /** The six-entry panel, from the state it mounts in, shows READY on every
      line after 54 updates, whatever the draws. */
  lemma PanelReady(rows: seq<seq<Draw>>)
    requires |rows| >= 54 && forall k :: 0 <= k < |rows| ==> |rows[k]| == |InitialPanel|
    ensures |RunPanel(InitialPanel, rows)| == 6
    ensures forall i :: 0 <= i < 6 ==> RunPanel(InitialPanel, rows)[i].status == Ready
  {
    InitialPanelWellFormed();
    forall i | 0 <= i < 6 ensures RunPanel(InitialPanel, rows)[i].status == Ready {
      RunPanelColumns(InitialPanel, rows, i);
      EveryEntryReady(InitialPanel[i], Column(rows, i));
    }
  }

  function RunEntry(e: Entry, draws: seq<Draw>): Entry
    decreases |draws|
  {
    if |draws| == 0 then e else RunEntry(StepEntry(e, draws[0]), draws[1..])
  }

  /** How far a status still is from READY once progress is 100. */
  function Distance(s: Status): nat {
    match s
    case Initializing => 4
    case Loading => 3
    case Active => 2
    case Online => 1
    case Ready => 0
    case _ => 1
  }

  lemma {:induction false} RunEntryReachesFull(e: Entry, draws: seq<Draw>)
    requires WellFormedEntry(e)
    ensures WellFormedEntry(RunEntry(e, draws))
    ensures RunEntry(e, draws).progress == 100.0
      || RunEntry(e, draws).progress >= e.progress + 2.0 * |draws| as real
    decreases |draws|
  {
    if |draws| > 0 {
      StepEntryMoves(e, draws[0]);
      RunEntryReachesFull(StepEntry(e, draws[0]), draws[1..]);
    }
  }

  lemma {:induction false} RunEntryFinishes(e: Entry, draws: seq<Draw>)
    requires WellFormedEntry(e) && e.progress == 100.0 && |draws| >= Distance(e.status)
    ensures RunEntry(e, draws).status == Ready
    decreases |draws|
  {
    if |draws| > 0 {
      var e' := StepEntry(e, draws[0]);
      StepEntryMoves(e, draws[0]);
      assert e.status != Ready ==> Distance(e'.status) < Distance(e.status);
      RunEntryFinishes(e', draws[1..]);
    }
  }

  lemma {:induction false} RunEntrySplit(e: Entry, a: seq<Draw>, b: seq<Draw>)
    ensures RunEntry(e, a + b) == RunEntry(RunEntry(e, a), b)
    decreases |a|
  {
    if |a| > 0 {
      assert (a + b)[1..] == a[1..] + b;
      RunEntrySplit(StepEntry(e, a[0]), a[1..], b);
    } else {
      assert a + b == b;
    }
  }

  /** Every subsystem, whatever the draws, shows READY after at most 54 updates:
      at most 50 to fill its progress and at most 4 status moves after that. */
  lemma EveryEntryReady(e: Entry, draws: seq<Draw>)
    requires WellFormedEntry(e) && |draws| >= 54
    ensures RunEntry(e, draws).status == Ready
  {
    var a, b := draws[..50], draws[50..];
    assert draws == a + b;
    RunEntrySplit(e, a, b);
    RunEntryReachesFull(e, a);
    RunEntryFinishes(RunEntry(e, a), b);
  }

  lemma InitialPanelWellFormed()
    ensures |InitialPanel| == 6
    ensures forall i :: 0 <= i < |InitialPanel| ==> WellFormedEntry(InitialPanel[i])
  {
  }
}
