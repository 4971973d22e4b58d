/** The election can always be won: from every reachable state some schedule, with draws that do
    not repeat a value, comes to a decided round. */
module BogatiryaElection {
  import opened MessageQueue
  import opened Sums
  import opened BogatiryaProcess
  import opened BogatiryaCircle
  import opened BogatiryaCircleProofs
  import opened BogatiryaRelay
  import opened BogatiryaTheorems
  import opened BogatiryaLiveness

  // ---------- a value nobody has drawn ----------

  function Fresh(s: seq<int>): (v: int)
    ensures v > 0 && forall k :: 0 <= k < |s| ==> s[k] < v
  {
    if s == [] then 1
    else
      var v := Fresh(s[..|s| - 1]);
      if s[|s| - 1] < v then v else s[|s| - 1] + 1
  }

  predicate FreshDraw(a: Circle, input: Input)
    requires |a.blocks| >= 1
  {
    input.Drawn? ==> input.v == Fresh(Values(Current(a.blocks)))
  }

  lemma FreshKeeps(b: Block, d: Letter)
    requires NoRepeats(Values(b)) && d.value == Fresh(Values(b))
    ensures NoRepeats(Values(b + [d]))
  {
    assert Values(b + [d]) == Values(b) + [d.value];
  }

  // ---------- how much an undecided election has left to do ----------

  /** A draw costs a message to all, two steps more for a round not yet left. */
  function DrawWork(c: Config): nat
  {
    MessageWork(c) + 2
  }

  function Weight(c: Config, last: nat): Process -> int
  {
    (p: Process) =>
      if p.loc.Draw? then DrawWork(c)
      else if p.loc.Collect? && p.round < last then DrawWork(c) + 1
      else 1
  }

  /** A repeated value means another round. */
  function RoundWork(c: Config, blocks: seq<Block>): nat
    requires |blocks| >= 1
  {
    if NoRepeats(Values(Current(blocks))) then 0 else c.n * (DrawWork(c) + 1) + 1
  }

  function ElectionWork(c: Config, s: System, a: Circle): int
    requires |a.blocks| >= 1
  {
    QueueWork(c, s.queue) + RelayWork(c, s.relay) + RoundWork(c, a.blocks) + Sum(s.processes, Weight(c, Last(a.blocks)))
  }

  lemma ElectionWorkBound(c: Config, s: System, a: Circle)
    requires |a.blocks| >= 1
    ensures ElectionWork(c, s, a) >= 0
  {
    SumBelow(s.processes, Weight(c, Last(a.blocks)), Weight(c, Last(a.blocks)));
  }

  lemma {:induction false} WeightBound(c: Config, ps: seq<Process>, last: nat)
    ensures Sum(ps, Weight(c, last)) <= |ps| * (DrawWork(c) + 1)
  {
    if ps != [] {
      WeightBound(c, ps[1..], last);
      assert |ps| * (DrawWork(c) + 1) == |ps[1..]| * (DrawWork(c) + 1) + (DrawWork(c) + 1);
    }
  }

  // ---------- every step brings the decision nearer ----------

  lemma AllElecting(c: Config, a: Circle, i: nat)
    requires Inv(c, a) && i < c.n && !Decisive(c, a.blocks)
    ensures Electing(a.processes[i]) && a.processes[i].round <= Last(a.blocks)
    ensures a.processes[i].loc.Draw? ==> a.processes[i].round == Last(a.blocks)
  {
    hide Heard, StageAt, OutputAt, Sort, IndexOf;
    assert GoodProcess(c, a, i);
  }

  lemma DrawNearer(c: Config, s: System, a: Circle, i: nat, input: Input)
    requires Linked(c, s, a) && Enabled(c, s, Move(i, input)) && Can(c, a, i, input) && FreshDraw(a, input)
    requires a.processes[i].loc.Draw? && a.processes[i].round == Last(a.blocks)
    ensures ElectionWork(c, Apply(c, s, Move(i, input)), Do(c, a, i, input)) < ElectionWork(c, s, a)
  {
    hide Inv, Do, QueueWork, RelayWork, Sum, NoRepeats, Values, Fresh, Stream, Shutting, InFlight, Of, Send;
    var last := Last(a.blocks);
    var q := a.processes[i].(loc := Collect, myval := input.v, values := [input.v]);
    DrawMove(c, a, i, input);
    assert Step(c.n, c.text, s.processes[i], input) == Effect(q, [input.v], []);
    TrafficWork(c, s, i, input);
    SumUpdate(s.processes, i, q, Weight(c, last));
    if NoRepeats(Values(Current(a.blocks))) {
      FreshKeeps(Current(a.blocks), Letter(i, input.v));
    }
  }

  lemma HearNearer(c: Config, s: System, a: Circle, i: nat, input: Input)
    requires Linked(c, s, a) && Enabled(c, s, Move(i, input)) && Can(c, a, i, input)
    requires a.processes[i].loc.Collect? && input.Got? && a.processes[i].round < |a.blocks|
    ensures ElectionWork(c, Apply(c, s, Move(i, input)), Do(c, a, i, input)) < ElectionWork(c, s, a)
  {
    hide Inv, Do, QueueWork, RelayWork, Sum, NoRepeats, Values, Stream, Shutting, InFlight, Of, Send, Remove;
    var q := a.processes[i].(values := a.processes[i].values + [input.v]);
    HearMove(c, a, i, input);
    assert Step(c.n, c.text, s.processes[i], input) == Effect(q, [], []);
    TrafficWork(c, s, i, input);
    SumUpdate(s.processes, i, q, Weight(c, Last(a.blocks)));
  }

  /** Whoever concludes in an undecided election goes back to drawing. */
  lemma ConcludeRetries(c: Config, a: Circle, i: nat, input: Input)
    requires Inv(c, a) && Can(c, a, i, input) && !Decisive(c, a.blocks)
    requires a.processes[i].loc.Collect? && input.Tick?
    ensures a.processes[i].round < |a.blocks| && !NoRepeats(Sort(a.processes[i].values))
    ensures a.processes[i].round == Last(a.blocks) ==> !NoRepeats(Values(Current(a.blocks)))
  {
    hide StageAt, OutputAt, Sort, IndexOf, Heard, GoodLetters, NoRepeats, GoodProcess;
    CircleAgreement(c, a, i);
  }

  lemma ConcludeNearer(c: Config, s: System, a: Circle, i: nat, input: Input)
    requires Linked(c, s, a) && Enabled(c, s, Move(i, input)) && Can(c, a, i, input) && !Decisive(c, a.blocks)
    requires a.processes[i].loc.Collect? && input.Tick?
    ensures ElectionWork(c, Apply(c, s, Move(i, input)), Do(c, a, i, input)) < ElectionWork(c, s, a)
  {
    hide Inv, Do, QueueWork, RelayWork, Sum, Sort, Values, Stream, Shutting, InFlight, Of, Send, Conclude;
    var p, q := a.processes[i], Conclude(a.processes[i]);
    ConcludeMove(c, a, i, input);
    ConcludeRetries(c, a, i, input);
    RetryIs(p);
    assert Step(c.n, c.text, s.processes[i], input) == Effect(q, [], []);
    TrafficWork(c, s, i, input);
    if p.round < Last(a.blocks) {
      SumUpdate(s.processes, i, q, Weight(c, Last(a.blocks)));
    } else {
      var b := Do(c, a, i, input);
      assert Current(b.blocks) == [] && Values([]) == [] by { NoValues(); }
      WeightBound(c, s.processes[i := q], Last(b.blocks));
      SumBelow(s.processes, Weight(c, Last(a.blocks)), Weight(c, Last(a.blocks)));
    }
  }

  lemma NoValues()
    ensures Values([]) == []
  {
  }

  lemma RetryIs(p: Process)
    requires !NoRepeats(Sort(p.values))
    ensures Conclude(p).loc.Draw? && Conclude(p).round == p.round + 1
  {
  }

  lemma RelayNearer(c: Config, s: System, a: Circle)
    requires Enabled(c, s, Forward) && |a.blocks| >= 1
    ensures ElectionWork(c, Apply(c, s, Forward), a) < ElectionWork(c, s, a)
  {
    hide QueueWork, Sum, Send, Remove, Of;
    ForwardWork(c, s, Over);
  }

  lemma MoveNearer(c: Config, s: System, a: Circle, i: nat, input: Input)
    requires Linked(c, s, a) && Enabled(c, s, Move(i, input)) && Can(c, a, i, input)
    requires !Decisive(c, a.blocks) && FreshDraw(a, input)
    ensures ElectionWork(c, Apply(c, s, Move(i, input)), Do(c, a, i, input)) < ElectionWork(c, s, a)
  {
    hide Inv, Do, Step, Apply, Simulates, Shutting, InFlight, ElectionWork;
    AllElecting(c, a, i);
    if a.processes[i].loc.Draw? {
      DrawNearer(c, s, a, i, input);
    } else if input.Got? {
      HearNearer(c, s, a, i, input);
    } else {
      ConcludeNearer(c, s, a, i, input);
    }
  }

  // ---------- the schedule ----------

  /** Somebody can act in an undecided election, whatever the string is. */
  lemma UndecidedActs(c: Config, run: seq<Action>) returns (action: Action)
    requires ValidConfig(c) && Valid(c, run) && !Decisive(c, Shadow(c, run).blocks)
    ensures Enabled(c, Exec(c, run), action)
    ensures action.Move? ==> FreshDraw(Shadow(c, run), action.input)
  {
    hide Exec, Shadow, Valid, Inv, Shutting, InFlight, Addressed, Of, Stream, Heard, Fresh;
    var s, a := Exec(c, run), Shadow(c, run);
    if Enabled(c, s, Forward) {
      return Forward;
    }
    RunLinked(c, run);
    RelayIdle(c, run);
    var i, input := UndecidedMoves(c, a);
    if input.Drawn? {
      input := Drawn(Fresh(Values(Current(a.blocks))));
    }
    assert !s.relay.Sending?;
    StreamIsInbox(s.queue, s.relay, i);
    assert a.streams[i] == Stream(s.queue, s.relay, i);
    return Move(i, input);
  }

  lemma StreamIsInbox(q: Queue<Letter>, relay: Relay, i: nat)
    requires Of(q, MAIN_MTYPE) == [] && !relay.Sending?
    ensures Stream(q, relay, i) == Inbox(q, i)
  {
  }

  lemma ShadowDecided(c: Config, run: seq<Action>)
    requires ValidConfig(c) && Valid(c, run) && Decisive(c, Shadow(c, run).blocks)
    ensures DecidedIn(c, run, Last(Shadow(c, run).blocks))
  {
    hide Shadow, DrawnIn, Exec, Valid, NoRepeats, Values;
    BlocksAreDraws(c, run, Last(Shadow(c, run).blocks));
  }

  /** From every reachable state some schedule comes to a round without a repeated value. */
  lemma Elect(c: Config, run: seq<Action>) returns (longer: seq<Action>)
    requires ValidConfig(c) && Valid(c, run)
    ensures Valid(c, longer) && run <= longer && Decisive(c, Shadow(c, longer).blocks)
    ensures DecidedIn(c, longer, Last(Shadow(c, longer).blocks))
    decreases ElectionWork(c, Exec(c, run), Shadow(c, run))
  {
    hide Inv, Simulates, Shutting, InFlight, ElectionWork, Do, Apply, Decisive;
    var s, a := Exec(c, run), Shadow(c, run);
    RunLinked(c, run);
    ElectionWorkBound(c, s, a);
    if Decisive(c, a.blocks) {
      ShadowDecided(c, run);
      return run;
    }
    var action := UndecidedActs(c, run);
    var next := run + [action];
    assert next[..|run|] == run;
    match action {
      case Forward => RelayNearer(c, s, a);
      case Move(i, input) =>
        MoveLinked(c, s, a, i, input);
        MoveNearer(c, s, a, i, input);
    }
    RunLinked(c, next);
    ElectionWorkBound(c, Exec(c, next), Shadow(c, next));
    longer := Elect(c, next);
  }

  /** From every reachable state the program can be run to its end exactly when every symbol of
      the string has an owner; then the string and the newline have been printed and the queue is
      empty. */
  lemma CanFinishIffOwned(c: Config, run: seq<Action>)
    requires ValidConfig(c) && Valid(c, run)
    ensures CanFinish(c, run) <==> AllOwned(c)
  {
    hide Exec, Shadow, Valid, Finished, AllOwned, Decisive;
    if AllOwned(c) {
      var elected := Elect(c, run);
      var longer := Completes(c, elected);
      assert Continues(run, longer);
    }
    if CanFinish(c, run) {
      var longer :| Continues(run, longer) && Valid(c, longer) && Finished(c, Exec(c, longer));
      FinishedOwned(c, longer);
    }
  }

  /** With the 95 bogatirs of the program those are exactly the texts over ' ' to '~', and such a
      text can be printed to its end, whatever has happened so far. */
  lemma PrintableText(c: Config, run: seq<Action>)
    requires ValidConfig(c) && Valid(c, run) && c.n == 95
    ensures CanFinish(c, run) <==> forall k :: 0 <= k < |c.text| ==> ' ' as int <= c.text[k] <= '~' as int
    ensures forall longer :: Continues(run, longer) && Valid(c, longer) && Finished(c, Exec(c, longer)) ==>
              Exec(c, longer).output == c.text + ['\n' as int]
  {
    hide Exec, Shadow, Valid, Finished, CanFinish;
    CanFinishIffOwned(c, run);
    forall longer | Continues(run, longer) && Valid(c, longer) && Finished(c, Exec(c, longer))
      ensures Exec(c, longer).output == c.text + ['\n' as int]
    {
      CleanShutdown(c, longer);
    }
  }
}
