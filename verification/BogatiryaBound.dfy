/** How long the printing can take: a bound on the actions left after a decided round, in the
    number of bogatirs and the length of the string alone. */
module BogatiryaBound {
  import opened MessageQueue
  import opened BogatiryaProcess
  import opened BogatiryaCircle
  import opened BogatiryaCircleProofs
  import opened BogatiryaRelay
  import opened BogatiryaTheorems
  import opened BogatiryaLiveness

  // ---------- printing messages ----------

  /** At most this many printing messages have been sent: a command and a reply for each symbol,
      and the order to stop. */
  function SentBy(c: Config, stage: Stage): nat
  {
    match stage
    case Turn(pos) => 2 * pos
    case Asked(pos) => 2 * pos + 1
    case Printed(pos) => 2 * pos + 1
    case Answered(pos) => 2 * pos + 2
    case Newlined => 2 * |c.text|
    case Over => 2 * |c.text| + 1
  }

  lemma SentGrows(c: Config, stage: Stage, p: Process, input: Input, notes: seq<int>)
    requires Accepts(c.n, c.text, p, input) && !Electing(p)
    requires p.rank >= 0 && (p.rank == 0 <==> Leading(p)) && StageAt(c, stage, p, p.rank, notes)
    ensures SentBy(c, stage) + |Step(c.n, c.text, p, input).sent| <= SentBy(c, NextStage(c, stage, p))
  {
  }

  lemma SentBound(c: Config, a: Circle)
    requires Inv(c, a)
    ensures SentBy(c, a.stage) <= 2 * |c.text| + 1
  {
    hide GoodStage, GoodLetters, GoodProcess, GoodBlocks;
  }

  predicate FewNotes(c: Config, a: Circle)
  {
    forall i :: 0 <= i < |a.notes| ==> |a.notes[i]| <= SentBy(c, a.stage)
  }

  lemma ElectingStage(c: Config, stage: Stage, p: Process)
    requires Electing(p)
    ensures NextStage(c, stage, p) == stage
  {
  }

  lemma FewNotesStep(c: Config, a: Circle, i: nat, input: Input)
    requires Inv(c, a) && Can(c, a, i, input) && FewNotes(c, a)
    ensures FewNotes(c, Do(c, a, i, input))
    ensures SentBy(c, a.stage)
            + (if Electing(a.processes[i]) then 0 else |Step(c.n, c.text, a.processes[i], input).sent|)
            <= SentBy(c, Do(c, a, i, input).stage)
  {
    hide Inv, Step, SentBy, NextStage, NextBlocks, StageAt, Accepts;
    var p := a.processes[i];
    if Electing(p) {
      ElectingStage(c, a.stage, p);
    } else {
      Positioned(c, a, i);
      PrintMove(c, a, i, input);
      SentGrows(c, a.stage, p, input, a.notes[i]);
    }
  }

  /** What the invariant says of a bogatir with a rank. */
  lemma Positioned(c: Config, a: Circle, i: nat)
    requires Inv(c, a) && i < c.n && !Electing(a.processes[i])
    ensures var p := a.processes[i];
            && p.round < |a.blocks| && a.streams[i] == a.notes[i]
            && p.rank >= 0 && (p.rank == 0 <==> Leading(p)) && StageAt(c, a.stage, p, p.rank, a.notes[i])
  {
    hide OutputAt, Sort, IndexOf, Heard, GoodLetters, StageAt;
    assert GoodProcess(c, a, i);
    RanksDiffer(c, a, i, i);
  }

  lemma {:induction false} NotesBound(c: Config, run: seq<Action>)
    requires ValidConfig(c) && Valid(c, run)
    ensures FewNotes(c, Shadow(c, run))
  {
    if run != [] {
      hide Inv, Simulates, Do, FewNotes, InFlight, Shutting;
      var before := run[..|run| - 1];
      NotesBound(c, before);
      RunLinked(c, before);
      match run[|run| - 1] {
        case Forward =>
        case Move(i, input) =>
          MoveLinked(c, Exec(c, before), Shadow(c, before), i, input);
          FewNotesStep(c, Shadow(c, before), i, input);
      }
    } else {
      NoNotes(c);
    }
  }

  lemma NoNotes(c: Config)
    ensures FewNotes(c, Start(c))
  {
  }

  // ---------- streams ----------

  /** In a decided round no bogatir has more to receive than that round and the printing. */
  lemma StreamBound(c: Config, a: Circle, i: nat)
    requires Inv(c, a) && Decisive(c, a.blocks) && FewNotes(c, a) && i < c.n
    ensures |a.streams[i]| <= c.n - 1 + SentBy(c, a.stage)
  {
    hide OutputAt, Sort, IndexOf, Heard, GoodLetters, StageAt, SentBy;
    AllDrawn(c, a, i);
    OwnBlock(c, a, i);
    assert GoodProcess(c, a, i);
    assert a.processes[i].loc.Collect? ==>
        |a.processes[i].values[1..] + a.streams[i]|
        == |Heard(Current(a.blocks), i) + Later(a.blocks, i, Last(a.blocks), a.notes[i])|;
  }

  /** Two bogatirs hear every letter between them. */
  lemma {:induction false} HeardTwo(b: Block)
    ensures |b| <= |Heard(b, 0)| + |Heard(b, 1)|
    decreases |b|
  {
    if b != [] {
      HeardTwo(b[..|b| - 1]);
    }
  }

  lemma HeardLater(q: Queue<Letter>, relay: Relay, i: nat)
    ensures |Heard(Of(q, MAIN_MTYPE), i)| + |Inbox(q, i)| <= |Stream(q, relay, i)|
  {
    var main := Of(q, MAIN_MTYPE);
    if relay.Sending? && relay.next <= i {
      HeardFirst(relay.letter, main, i);
    } else {
      assert [] + main == main;
    }
  }

  // ---------- one bogatir alone ----------

  lemma ForwardFewer(c: Config, s: System)
    requires Enabled(c, s, Forward)
    ensures |InFlight(Apply(c, s, Forward))| <= |InFlight(s)|
  {
    hide InFlight;
    ForwardInFlight(c, s);
  }

  lemma OneValue(values: seq<int>)
    requires |values| <= 1
    ensures NoRepeats(Sort(values))
  {
  }

  /** A bogatir that has nobody to relay to has sent its draw and the printing messages. */
  lemma {:induction false} AloneBound(c: Config, run: seq<Action>)
    requires ValidConfig(c) && Valid(c, run) && c.n == 1
    ensures |InFlight(Exec(c, run))| <= |Current(Shadow(c, run).blocks)| + SentBy(c, Shadow(c, run).stage)
  {
    if run != [] {
      hide Inv, Simulates, Do, FewNotes, InFlight, Shutting, SentBy, Apply, Enabled, Step;
      var before := run[..|run| - 1];
      AloneBound(c, before);
      RunLinked(c, before);
      match run[|run| - 1] {
        case Forward => ForwardFewer(c, Exec(c, before));
        case Move(i, input) =>
          NotesBound(c, before);
          MoveLinked(c, Exec(c, before), Shadow(c, before), i, input);
          AloneStep(c, Exec(c, before), Shadow(c, before), i, input);
      }
    } else {
      AloneStart(c);
    }
  }

  lemma AloneStart(c: Config)
    ensures |InFlight(Init(c))| == 0
  {
  }

  lemma AloneStep(c: Config, s: System, a: Circle, i: nat, input: Input)
    requires c.n == 1 && Linked(c, s, a) && FewNotes(c, a)
    requires Enabled(c, s, Move(i, input)) && Can(c, a, i, input)
    requires |InFlight(s)| <= |Current(a.blocks)| + SentBy(c, a.stage)
    ensures var b := Do(c, a, i, input);
            |b.blocks| >= 1
            && |InFlight(Apply(c, s, Move(i, input)))| <= |Current(b.blocks)| + SentBy(c, b.stage)
  {
    hide Inv, Do, Step, Apply, InFlight, SentBy, FewNotes, Shutting, Stream;
    SentValue(c, a, i, input);
    MoveInFlight(c, s, i, input);
    FewNotesStep(c, a, i, input);
    AloneBlocks(c, a, i, input);
  }

  lemma AloneBlocks(c: Config, a: Circle, i: nat, input: Input)
    requires c.n == 1 && Inv(c, a) && Can(c, a, i, input)
    ensures var b := Do(c, a, i, input);
            && |b.blocks| >= 1
            && |Current(b.blocks)|
               == |Current(a.blocks)|
                  + if Electing(a.processes[i]) then |Step(c.n, c.text, a.processes[i], input).sent| else 0
  {
    hide Do, StageAt, OutputAt, Sort, IndexOf, Heard, GoodLetters;
    var p := a.processes[i];
    assert GoodProcess(c, a, i);
    if p.loc.Draw? {
      DrawMove(c, a, i, input);
    } else if !p.loc.Collect? {
      Positioned(c, a, i);
      PrintMove(c, a, i, input);
    } else if input.Got? {
      HearMove(c, a, i, input);
    } else {
      OneValue(p.values);
      ConcludeMove(c, a, i, input);
    }
  }

  // ---------- the queue ----------

  /** What the first k bogatirs have in their mailboxes. */
  function InboxTotal(q: Queue<Letter>, k: nat): nat
  {
    if k == 0 then 0 else InboxTotal(q, k - 1) + |Of(q, GenMtypeFromMain(k - 1))|
  }

  lemma {:induction false} InboxFirst(m: Message<Letter>, q: Queue<Letter>, k: nat)
    ensures InboxTotal([m] + q, k)
         == InboxTotal(q, k) + if GenMtypeFromMain(0) <= m.mtype < GenMtypeFromMain(k) then 1 else 0
    decreases k
  {
    if k > 0 {
      InboxFirst(m, q, k - 1);
      OfFirst(m, q, GenMtypeFromMain(k - 1));
    }
  }

  /** The relay's messages cost MessageWork each, all others one action. */
  lemma {:induction false} QueueSplit(c: Config, q: Queue<Letter>)
    requires Addressed(c, q)
    ensures QueueWork(c, q) == MessageWork(c) * |Of(q, MAIN_MTYPE)| + InboxTotal(q, c.n)
    decreases |q|
  {
    if q == [] {
      InboxNone(c.n);
    } else {
      var rest := q[1..];
      assert q == [q[0]] + rest;
      QueueSplit(c, rest);
      InboxFirst(q[0], rest, c.n);
      OfFirst(q[0], rest, MAIN_MTYPE);
      if q[0].mtype == MAIN_MTYPE {
        OneMore(MessageWork(c), |Of(rest, MAIN_MTYPE)|);
      }
    }
  }

  lemma {:induction false} InboxNone(k: nat)
    ensures InboxTotal([], k) == 0
  {
    if k > 0 {
      InboxNone(k - 1);
    }
  }

  lemma OneMore(m: nat, x: nat)
    ensures m * (x + 1) == m * x + m
  {
  }

  lemma {:induction false} InboxBound(q: Queue<Letter>, k: nat, most: nat)
    requires forall i: nat :: i < k ==> |Of(q, GenMtypeFromMain(i))| <= most
    ensures InboxTotal(q, k) <= k * most
  {
    if k > 0 {
      InboxBound(q, k - 1, most);
      assert k * most == (k - 1) * most + most;
    }
  }

  // ---------- the bound ----------

  /** Letters waiting for the relay in a decided round. */
  lemma MainBound(c: Config, run: seq<Action>)
    requires ValidConfig(c) && Valid(c, run) && Decisive(c, Shadow(c, run).blocks)
    ensures |Of(Exec(c, run).queue, MAIN_MTYPE)| <= 2 * (c.n + 2 * |c.text|)
  {
    hide Exec, Shadow, Valid, Inv, SentBy, Heard, Of, Stream, FewNotes, Shutting;
    var s, a := Exec(c, run), Shadow(c, run);
    RunLinked(c, run);
    NotesBound(c, run);
    SentBound(c, a);
    if c.n == 1 {
      AloneBound(c, run);
      assert |Of(s.queue, MAIN_MTYPE)| <= |InFlight(s)|;
    } else {
      StreamBound(c, a, 0);
      StreamBound(c, a, 1);
      HeardTwo(Of(s.queue, MAIN_MTYPE));
      HeardLater(s.queue, s.relay, 0);
      HeardLater(s.queue, s.relay, 1);
      assert a.streams[0] == Stream(s.queue, s.relay, 0) && a.streams[1] == Stream(s.queue, s.relay, 1);
    }
  }

  lemma InboxesBound(c: Config, run: seq<Action>)
    requires ValidConfig(c) && Valid(c, run) && Decisive(c, Shadow(c, run).blocks)
    ensures InboxTotal(Exec(c, run).queue, c.n) <= c.n * (c.n + 2 * |c.text|)
  {
    hide Exec, Shadow, Valid, Inv, SentBy, Heard, Of, Stream, FewNotes, Shutting, InboxTotal, InFlight;
    var s, a := Exec(c, run), Shadow(c, run);
    RunLinked(c, run);
    NotesBound(c, run);
    SentBound(c, a);
    forall i: nat | i < c.n ensures |Of(s.queue, GenMtypeFromMain(i))| <= c.n + 2 * |c.text| {
      StreamBound(c, a, i);
      HeardLater(s.queue, s.relay, i);
      assert a.streams[i] == Stream(s.queue, s.relay, i);
    }
    InboxBound(s.queue, c.n, c.n + 2 * |c.text|);
  }

  lemma {:induction false} SymbolsCost(c: Config, symbols: nat)
    ensures SymbolWork(c, symbols) == symbols * (2 * MessageWork(c) + 3)
  {
    if symbols > 0 {
      SymbolsCost(c, symbols - 1);
      OneMore(2 * MessageWork(c) + 3, symbols - 1);
    }
  }

  lemma {:induction false} SymbolsGrow(c: Config, few: nat, many: nat)
    requires few <= many
    ensures SymbolWork(c, few) <= SymbolWork(c, many)
    decreases many
  {
    if few < many {
      SymbolsGrow(c, few, many - 1);
    }
  }

  lemma StageBound(c: Config, a: Circle)
    requires Inv(c, a)
    ensures StageWork(c, a.stage) <= MessageWork(c) + 2 + |c.text| * (2 * MessageWork(c) + 3)
  {
    hide GoodStage, GoodLetters, GoodProcess, GoodBlocks, MessageWork;
    var t := |c.text|;
    SymbolsCost(c, t);
    match a.stage {
      case Turn(pos) => SymbolsGrow(c, t - pos, t);
      case Asked(pos) => SymbolsGrow(c, t - pos, t);
      case Printed(pos) => SymbolsGrow(c, t - pos, t);
      case Answered(pos) => SymbolsGrow(c, t - pos, t);
      case Newlined =>
      case Over =>
    }
  }

  lemma {:induction false} CollectorsBound(ps: seq<Process>)
    ensures Collectors(ps) <= |ps|
  {
    if ps != [] {
      CollectorsBound(ps[1..]);
    }
  }

  lemma Scaled(m: nat, x: nat, most: nat)
    requires x <= most
    ensures m * x <= m * most
  {
    assert m * most == m * x + m * (most - x);
  }

  /** Relaying 2n + 4t letters, receiving n + 2t in each of n mailboxes, the letter being relayed,
      the printing of t symbols, and n conclusions. */
  function Bound(n: nat, t: nat): nat
  {
    (2 * n + 2) * (2 * (n + 2 * t)) + n * (n + 2 * t) + (2 * n + 1) + (2 * n + 4) + t * (4 * n + 7) + n
  }

  lemma WorkBound(c: Config, run: seq<Action>)
    requires ValidConfig(c) && Valid(c, run) && Decisive(c, Shadow(c, run).blocks)
    ensures Work(c, run) <= Bound(c.n, |c.text|)
  {
    hide Exec, Shadow, Valid, Inv, Of, InboxTotal, QueueWork, StageWork, Collectors, Simulates, InFlight, Shutting;
    var s, a := Exec(c, run), Shadow(c, run);
    var most := 2 * (c.n + 2 * |c.text|);
    RunLinked(c, run);
    QueueSplit(c, s.queue);
    MainBound(c, run);
    Scaled(MessageWork(c), |Of(s.queue, MAIN_MTYPE)|, most);
    InboxesBound(c, run);
    StageBound(c, a);
    CollectorsBound(s.processes);
    assert 2 * MessageWork(c) + 3 == 4 * c.n + 7;
  }

  /** Once some round is decided, no schedule goes on for more actions than a number fixed by the
      number of bogatirs and the length of the string. */
  lemma TerminatesWithin(c: Config, run: seq<Action>, round: nat, longer: seq<Action>)
    requires ValidConfig(c) && Valid(c, run) && DecidedIn(c, run, round)
    requires Valid(c, longer) && run <= longer
    ensures |longer| - |run| <= Bound(c.n, |c.text|)
  {
    hide Exec, Shadow, Valid, DrawnIn, Work, Bound;
    DecidedShadow(c, run, round);
    WorkBound(c, run);
    Terminates(c, run, round, longer);
  }
}
