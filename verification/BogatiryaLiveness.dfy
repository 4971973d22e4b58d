/** Nothing gets stuck: some action is enabled until the end, and once a round has no repeated
    value every schedule ends, after a bounded number of actions, with the string printed. */
module BogatiryaLiveness {
  import opened MessageQueue
  import opened BogatiryaProcess
  import opened BogatiryaCircle
  import opened BogatiryaCircleProofs
  import opened BogatiryaRelay
  import opened BogatiryaTheorems

  predicate AllOwned(c: Config)
  {
    forall k :: 0 <= k < |c.text| ==> Owned(c, c.text[k])
  }

  // ---------- some bogatir can move ----------

  /** A bogatir collecting in a full round can go on: receive, or conclude. */
  lemma CollectMoves(c: Config, a: Circle, i: nat) returns (input: Input)
    requires Inv(c, a) && i < c.n && a.processes[i].loc.Collect?
    requires a.processes[i].round < |a.blocks| && |a.blocks[a.processes[i].round]| == c.n
    ensures Can(c, a, i, input)
  {
    var p := a.processes[i];
    assert GoodProcess(c, a, i);
    if |p.values| == c.n {
      return Tick;
    }
    OwnBlock(c, a, i);
    assert |p.values[1..] + a.streams[i]| >= c.n - 1;
    return Got(a.streams[i][0]);
  }

  lemma UndecidedMoves(c: Config, a: Circle) returns (i: nat, input: Input)
    requires Inv(c, a) && !Decisive(c, a.blocks)
    ensures Can(c, a, i, input)
  {
    if k :| 0 <= k < c.n && a.processes[k].loc.Draw? {
      return k, Drawn(1);
    }
    BlockFull(c.n, Current(a.blocks));
    if |Current(a.blocks)| < c.n {
      i :| i < c.n && !Drew(Current(a.blocks), i);
    } else {
      i := 0;
    }
    assert GoodProcess(c, a, i);
    assert a.processes[i].loc.Collect?;
    var b := a.blocks[a.processes[i].round];
    var k :| 0 <= k < |b| && b[k] == Letter(i, a.processes[i].myval);
    assert b[k].from == i && Drew(b, i);
    assert a.processes[i].round == Last(a.blocks) ==> b == Current(a.blocks);
    assert a.processes[i].round < Last(a.blocks) ==> |b| == c.n;
    input := CollectMoves(c, a, i);
  }

  lemma ElectedMoves(c: Config, a: Circle) returns (i: nat, input: Input)
    requires Inv(c, a) && Decisive(c, a.blocks) && AllOwned(c)
    requires exists k :: 0 <= k < c.n && !a.processes[k].loc.Exited?
    ensures Can(c, a, i, input)
  {
    hide Sort, IndexOf, Heard, GoodLetters, GoodBlocks, ValidConfig, NoRepeats;
    if k :| 0 <= k < c.n && a.processes[k].loc.Collect? {
      AllDrawn(c, a, k);
      i := k;
      input := CollectMoves(c, a, i);
      return;
    }
    var rank :=
      if a.stage.Asked? || a.stage.Printed? then c.text[a.stage.pos] - FIRST_SYMBOL
      else 0;
    i := RankTaken(c, a, rank);
    if a.stage == Over {
      i :| i < c.n && !a.processes[i].loc.Exited?;
    }
    AllDrawn(c, a, i);
    assert GoodProcess(c, a, i);
    assert StageAt(c, a.stage, a.processes[i], a.processes[i].rank, a.notes[i]);
    var l := a.processes[i].loc;
    input := if l.LeaderAwait? || l.FollowerWait? then Got(a.notes[i][0]) else Tick;
  }

  lemma SomeoneActs(c: Config, run: seq<Action>) returns (i: nat, input: Input)
    requires ValidConfig(c) && Valid(c, run) && AllOwned(c) && !Finished(c, Exec(c, run))
    requires !Enabled(c, Exec(c, run), Forward)
    ensures Enabled(c, Exec(c, run), Move(i, input))
  {
    var s := Exec(c, run);
    var a := Shadow(c, run);
    RunLinked(c, run);
    RelayIdle(c, run);
    if Decisive(c, a.blocks) {
      if forall i :: 0 <= i < c.n ==> a.processes[i].loc.Exited? {
        EndsTogether(c, run);
      }
      i, input := ElectedMoves(c, a);
    } else {
      i, input := UndecidedMoves(c, a);
    }
    assert !s.relay.Sending?;
    assert a.streams[i] == Stream(s.queue, s.relay, i) == Inbox(s.queue, i);
  }

  /** With every symbol owned, some action is enabled until everything has ended. */
  lemma NoDeadlock(c: Config, run: seq<Action>) returns (action: Action)
    requires ValidConfig(c) && Valid(c, run) && AllOwned(c) && !Finished(c, Exec(c, run))
    ensures Enabled(c, Exec(c, run), action) && Valid(c, run + [action])
  {
    if Enabled(c, Exec(c, run), Forward) {
      action := Forward;
    } else {
      var i, input := SomeoneActs(c, run);
      action := Move(i, input);
    }
    assert (run + [action])[..|run|] == run;
  }

  /** A relay that cannot act has nothing to relay. */
  lemma RelayIdle(c: Config, run: seq<Action>)
    requires ValidConfig(c) && Valid(c, run) && !Enabled(c, Exec(c, run), Forward)
    ensures Of(Exec(c, run).queue, MAIN_MTYPE) == []
  {
    if Exec(c, run).relay == Closed {
      RelayClosesLast(c, run);
    }
  }

  /** When all bogatirs have exited, the relay loop can still act or has ended. */
  lemma EndsTogether(c: Config, run: seq<Action>)
    requires ValidConfig(c) && Valid(c, run) && !Enabled(c, Exec(c, run), Forward)
    requires forall i :: 0 <= i < c.n ==> Exec(c, run).processes[i].loc.Exited?
    ensures Finished(c, Exec(c, run))
  {
    hide Exec, Shadow, Valid, Inv, Of, Sort;
    RunLinked(c, run);
    RelayIdle(c, run);
    ExitedOver(c, Shadow(c, run));
  }

  lemma ExitedOver(c: Config, a: Circle)
    requires Inv(c, a) && a.processes[0].loc.Exited?
    ensures a.stage == Over
  {
    hide Sort, IndexOf, Heard, OutputAt, GoodLetters;
    assert GoodProcess(c, a, 0);
    RanksDiffer(c, a, 0, 0);
    assert StageAt(c, a.stage, a.processes[0], a.processes[0].rank, a.notes[0]);
  }

  // ---------- how much is left to do ----------

  /** Relaying one message takes the receive, n + 1 steps of the loop and at most n receives. */
  function MessageWork(c: Config): nat
  {
    2 * c.n + 2
  }

  function QueueWork(c: Config, q: Queue<Letter>): nat
  {
    if q == [] then 0
    else (if q[0].mtype == MAIN_MTYPE then MessageWork(c) else 1) + QueueWork(c, q[1..])
  }

  function RelayWork(c: Config, relay: Relay): nat
  {
    if !relay.Sending? then 0
    else if relay.next < c.n then 2 * (c.n - relay.next) + 1
    else 1
  }

  /** A symbol costs at most a command, a print and a reply. */
  function SymbolWork(c: Config, symbols: nat): nat
  {
    if symbols == 0 then 0 else 2 * MessageWork(c) + 3 + SymbolWork(c, symbols - 1)
  }

  function StageWork(c: Config, stage: Stage): int
  {
    var end := MessageWork(c) + 2;
    match stage
    case Turn(pos) => end + if pos <= |c.text| then SymbolWork(c, |c.text| - pos) else 0
    case Asked(pos) => end + MessageWork(c) + 2 + if pos < |c.text| then SymbolWork(c, |c.text| - pos - 1) else 0
    case Printed(pos) => end + MessageWork(c) + 1 + if pos < |c.text| then SymbolWork(c, |c.text| - pos - 1) else 0
    case Answered(pos) => end + if pos < |c.text| then SymbolWork(c, |c.text| - pos - 1) else 0
    case Newlined => end - 1
    case Over => 0
  }

  function Collectors(ps: seq<Process>): nat
  {
    if ps == [] then 0 else (if ps[0].loc.Collect? then 1 else 0) + Collectors(ps[1..])
  }

  /** A bound on the actions still to come, after a decisive round. */
  function Work(c: Config, run: seq<Action>): int
    requires Valid(c, run)
  {
    WorkIn(c, Exec(c, run), Shadow(c, run).stage)
  }

  function WorkIn(c: Config, s: System, stage: Stage): (w: int)
    ensures w >= 0
  {
    QueueWork(c, s.queue) + RelayWork(c, s.relay) + StageWork(c, stage) + Collectors(s.processes)
  }

  lemma {:induction false} SendWork(c: Config, q: Queue<Letter>, t: int, l: Letter)
    ensures QueueWork(c, Send(q, t, l))
            == QueueWork(c, q) + if t == MAIN_MTYPE then MessageWork(c) else 1
  {
    var r := Send(q, t, l);
    if q == [] {
      assert r[1..] == [];
    } else {
      assert r[1..] == Send(q[1..], t, l);
      SendWork(c, q[1..], t, l);
    }
  }

  lemma {:induction false} RemoveWork(c: Config, q: Queue<Letter>, t: int)
    requires Of(q, t) != []
    ensures QueueWork(c, q)
            == QueueWork(c, Remove(q, t)) + if t == MAIN_MTYPE then MessageWork(c) else 1
  {
    if q[0].mtype != t {
      RemoveWork(c, q[1..], t);
      assert Remove(q, t)[1..] == Remove(q[1..], t);
    }
  }

  lemma {:induction false} CollectorsUpdate(ps: seq<Process>, i: nat, p: Process)
    requires i < |ps|
    ensures Collectors(ps[i := p])
            == Collectors(ps) - (if ps[i].loc.Collect? then 1 else 0) + if p.loc.Collect? then 1 else 0
  {
    if i == 0 {
      assert ps[i := p][1..] == ps[1..];
    } else {
      assert ps[i := p][1..] == ps[1..][i - 1 := p];
      CollectorsUpdate(ps[1..], i - 1, p);
    }
  }

  lemma PrintWork(c: Config, stage: Stage, p: Process, input: Input, notes: seq<int>)
    requires Accepts(c.n, c.text, p, input) && !Electing(p) && p.rank >= 0
    requires (p.rank == 0 <==> Leading(p)) && StageAt(c, stage, p, p.rank, notes)
    requires input.Got? ==> notes != []
    ensures var sent := Step(c.n, c.text, p, input).sent;
            && |sent| <= 1
            && (sent == [] || input.Tick?)
            && StageWork(c, NextStage(c, stage, p)) + |sent| * MessageWork(c)
               < StageWork(c, stage) + if input.Got? then 1 else 0
  {
    if p.loc.LeaderLoop? && p.loc.pos < |c.text| {
      assert SymbolWork(c, |c.text| - p.loc.pos)
          == 2 * MessageWork(c) + 3 + SymbolWork(c, |c.text| - p.loc.pos - 1);
    }
  }

  /** In a decisive round nobody draws again, and concluding elects. */
  lemma StepElects(c: Config, a: Circle, i: nat, input: Input)
    requires Inv(c, a) && Decisive(c, a.blocks) && Can(c, a, i, input)
    ensures var p := a.processes[i];
            && !p.loc.Draw? && p.round == Last(a.blocks)
            && Step(c.n, c.text, p, input).process.round == p.round
            && (p.loc.Collect? && input.Tick? ==> NoRepeats(Sort(p.values)))
            && (!Electing(p) ==>
                  p.rank >= 0 && (p.rank == 0 <==> Leading(p))
                  && StageAt(c, a.stage, p, p.rank, a.notes[i])
                  && (input.Got? ==> a.notes[i] != []))
  {
    hide OutputAt, StageAt, Sort, IndexOf, Heard, GoodLetters, NextStage;
    AllDrawn(c, a, i);
    assert GoodProcess(c, a, i);
    RanksDiffer(c, a, i, i);
    if a.processes[i].loc.Collect? && input.Tick? {
      CircleAgreement(c, a, i);
    }
  }

  /** The mover's own part of the work. */
  lemma StepWork(c: Config, a: Circle, i: nat, input: Input)
    requires Inv(c, a) && Decisive(c, a.blocks) && Can(c, a, i, input)
    ensures Do(c, a, i, input).blocks == a.blocks
    ensures var p := a.processes[i];
            var e := Step(c.n, c.text, p, input);
            && |e.sent| <= 1
            && StageWork(c, Do(c, a, i, input).stage) + |e.sent| * MessageWork(c)
               + Collectors(Do(c, a, i, input).processes)
               < StageWork(c, a.stage) + Collectors(a.processes) + if input.Got? then 1 else 0
  {
    hide Inv, StageAt, StageWork, MessageWork, Sort, IndexOf;
    var p := a.processes[i];
    StepElects(c, a, i, input);
    if !Electing(p) {
      PrintWork(c, a.stage, p, input, a.notes[i]);
    }
    CollectorsUpdate(a.processes, i, Step(c.n, c.text, p, input).process);
  }

  lemma TrafficWork(c: Config, s: System, i: nat, input: Input)
    requires Enabled(c, s, Move(i, input)) && |Step(c.n, c.text, s.processes[i], input).sent| <= 1
    ensures QueueWork(c, Apply(c, s, Move(i, input)).queue)
            == QueueWork(c, s.queue)
               + |Step(c.n, c.text, s.processes[i], input).sent| * MessageWork(c)
               - if input.Got? then 1 else 0
  {
    var sent := Step(c.n, c.text, s.processes[i], input).sent;
    if input.Got? {
      RemoveWork(c, s.queue, GenMtypeFromMain(i));
    }
    var q := if input.Got? then Remove(s.queue, GenMtypeFromMain(i)) else s.queue;
    SendOne(q, i, sent);
    if sent != [] {
      SendWork(c, q, MAIN_MTYPE, Letter(i, sent[0]));
    }
  }

  lemma MoveWork(c: Config, s: System, a: Circle, i: nat, input: Input)
    requires Linked(c, s, a) && Decisive(c, a.blocks) && Enabled(c, s, Move(i, input))
    requires Can(c, a, i, input)
    ensures Do(c, a, i, input).blocks == a.blocks
    ensures WorkIn(c, Apply(c, s, Move(i, input)), Do(c, a, i, input).stage) < WorkIn(c, s, a.stage)
  {
    StepWork(c, a, i, input);
    TrafficWork(c, s, i, input);
  }

  lemma ForwardWork(c: Config, s: System, stage: Stage)
    requires Enabled(c, s, Forward)
    ensures WorkIn(c, Apply(c, s, Forward), stage) < WorkIn(c, s, stage)
  {
    match s.relay {
      case Receiving => RemoveWork(c, s.queue, MAIN_MTYPE);
      case Sending(letter, next) =>
        if next < c.n && next != letter.from {
          SendWork(c, s.queue, GenMtypeFromMain(next), Letter(0, letter.value));
        }
    }
  }

  /** Round number `round` has everyone's value and no repeated one. */
  predicate DecidedIn(c: Config, run: seq<Action>, round: nat)
    requires Valid(c, run)
  {
    |DrawnIn(c, run, round)| == c.n && NoRepeats(Values(DrawnIn(c, run, round)))
  }

  lemma DecidedShadow(c: Config, run: seq<Action>, round: nat)
    requires ValidConfig(c) && Valid(c, run) && DecidedIn(c, run, round)
    ensures Decisive(c, Shadow(c, run).blocks)
  {
    hide Shadow, Exec, DrawnIn, StageAt, ProcessAt, OutputAt, NoRepeats, Simulates, InFlight, GoodLetters;
    RunLinked(c, run);
    BlocksAreDraws(c, run, round);
  }

  lemma {:induction false} WorkFalls(c: Config, run: seq<Action>, longer: seq<Action>)
    requires ValidConfig(c) && Valid(c, longer) && run <= longer && Valid(c, run)
    requires Decisive(c, Shadow(c, run).blocks)
    ensures Shadow(c, longer).blocks == Shadow(c, run).blocks
    ensures |longer| - |run| + Work(c, longer) <= Work(c, run)
  {
    if run == longer {
    } else {
      var before := longer[..|longer| - 1];
      assert run <= before;
      WorkFalls(c, run, before);
      RunLinked(c, before);
      match longer[|longer| - 1] {
        case Forward => ForwardWork(c, Exec(c, before), Shadow(c, before).stage);
        case Move(i, input) =>
          MoveLinked(c, Exec(c, before), Shadow(c, before), i, input);
          MoveWork(c, Exec(c, before), Shadow(c, before), i, input);
      }
    }
  }

  /** Once some round is decided, no schedule goes on for more than Work actions. */
  lemma Terminates(c: Config, run: seq<Action>, round: nat, longer: seq<Action>)
    requires ValidConfig(c) && Valid(c, run) && DecidedIn(c, run, round)
    requires Valid(c, longer) && run <= longer
    ensures |longer| - |run| <= Work(c, run)
  {
    DecidedShadow(c, run, round);
    WorkFalls(c, run, longer);
  }

  lemma Completes(c: Config, run: seq<Action>) returns (longer: seq<Action>)
    requires ValidConfig(c) && Valid(c, run) && AllOwned(c) && Decisive(c, Shadow(c, run).blocks)
    ensures Valid(c, longer) && run <= longer && Finished(c, Exec(c, longer))
    decreases Work(c, run)
  {
    if Finished(c, Exec(c, run)) {
      longer := run;
    } else {
      var action := NoDeadlock(c, run);
      WorkFalls(c, run, run + [action]);
      longer := Completes(c, run + [action]);
    }
  }

  predicate Continues(run: seq<Action>, longer: seq<Action>)
  {
    run <= longer
  }

  ghost predicate CanFinish(c: Config, run: seq<Action>)
  {
    exists longer :: Continues(run, longer) && Valid(c, longer) && Finished(c, Exec(c, longer))
  }

  lemma FinishedOwned(c: Config, run: seq<Action>)
    requires ValidConfig(c) && Valid(c, run) && Finished(c, Exec(c, run))
    ensures AllOwned(c)
  {
    CleanShutdown(c, run);
    forall k | 0 <= k < |c.text| ensures Owned(c, c.text[k]) {
      if !Owned(c, c.text[k]) {
        ForeignSymbolStops(c, run, k);
      }
    }
  }
}
