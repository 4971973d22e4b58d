/** What the election and the printing promise, for every run in every interleaving. */
module BogatiryaTheorems {
  import opened MessageQueue
  import opened BogatiryaProcess
  import opened BogatiryaCircle
  import opened BogatiryaCircleProofs
  import opened BogatiryaRelay

  // ---------- the election ----------

  /** What was drawn in a round: the letters of the draws, in the order they were sent. */
  function DrawnIn(c: Config, run: seq<Action>, round: nat): Block
    requires Valid(c, run)
  {
    if run == [] then []
    else
      var before := run[..|run| - 1];
      DrawnIn(c, before, round) +
      match run[|run| - 1]
      case Forward => []
      case Move(i, input) =>
        if input.Drawn? && Exec(c, before).processes[i].round == round then [Letter(i, input.v)] else []
  }

  function BlockAt(blocks: seq<Block>, round: nat): Block
  {
    if round < |blocks| then blocks[round] else []
  }

  lemma DoBlocks(c: Config, a: Circle, i: nat, input: Input, round: nat)
    requires Inv(c, a) && Can(c, a, i, input)
    ensures BlockAt(Do(c, a, i, input).blocks, round)
            == BlockAt(a.blocks, round)
               + if input.Drawn? && a.processes[i].round == round then [Letter(i, input.v)] else []
  {
    hide Do, Step, StageAt, OutputAt, Sort, IndexOf, Heard;
    var p := a.processes[i];
    assert GoodProcess(c, a, i);
    if p.loc.Draw? {
      DrawMove(c, a, i, input);
    } else if !p.loc.Collect? {
      PrintMove(c, a, i, input);
    } else if input.Got? {
      HearMove(c, a, i, input);
    } else {
      ConcludeMove(c, a, i, input);
    }
  }

  lemma {:induction false} BlocksAreDraws(c: Config, run: seq<Action>, round: nat)
    requires ValidConfig(c) && Valid(c, run)
    ensures DrawnIn(c, run, round) == BlockAt(Shadow(c, run).blocks, round)
  {
    if run != [] {
      var before := run[..|run| - 1];
      BlocksAreDraws(c, before, round);
      RunLinked(c, before);
      match run[|run| - 1] {
        case Forward =>
        case Move(i, input) =>
          MoveLinked(c, Exec(c, before), Shadow(c, before), i, input);
          DoBlocks(c, Shadow(c, before), i, input, round);
      }
    }
  }

  /** p has heard the start of what the others drew, and with n values all of it. */
  predicate HeardOnly(c: Config, p: Process, i: nat, drawn: Block)
  {
    && DistinctFroms(c.n, drawn)
    && 1 <= |p.values| <= c.n && p.values[0] == p.myval && Letter(i, p.myval) in drawn
    && p.values[1..] <= Heard(drawn, i)
    && (|p.values| == c.n ==>
          && |drawn| == c.n
          && (forall j: nat :: j < c.n ==> Drew(drawn, j))
          && p.values[1..] == Heard(drawn, i)
          && multiset(p.values) == multiset(Values(drawn)))
  }

  lemma CircleHeardOnly(c: Config, a: Circle, i: nat)
    requires Inv(c, a) && i < c.n && a.processes[i].loc.Collect?
    ensures var p := a.processes[i];
            p.round < |a.blocks| && HeardOnly(c, p, i, a.blocks[p.round])
  {
    hide StageAt, OutputAt, Sort, IndexOf, Heard, GoodLetters, Drew;
    var p := a.processes[i];
    assert GoodProcess(c, a, i);
    CircleIsolation(c, a, i);
    OwnBlock(c, a, i);
    BlockFull(c.n, a.blocks[p.round]);
    assert p.values == [p.myval] + p.values[1..];
  }

  /** Round isolation.  Messages carry no round, yet what a bogatir has received in round r is
      the start of what the others drew in round r, in the order drawn; with n - 1 messages
      received it is all of it, one value from each other bogatir. */
  lemma RoundIsolation(c: Config, run: seq<Action>, i: nat)
    requires ValidConfig(c) && Valid(c, run) && i < c.n
    requires Exec(c, run).processes[i].loc.Collect?
    ensures var p := Exec(c, run).processes[i];
            HeardOnly(c, p, i, DrawnIn(c, run, p.round))
  {
    RunLinked(c, run);
    CircleHeardOnly(c, Shadow(c, run), i);
    BlocksAreDraws(c, run, Exec(c, run).processes[i].round);
  }

  lemma {:induction false} DrawsGrow(c: Config, run: seq<Action>, longer: seq<Action>, round: nat)
    requires ValidConfig(c) && Valid(c, longer) && run <= longer
    ensures Valid(c, run) && DrawnIn(c, run, round) <= DrawnIn(c, longer, round)
  {
    if run == longer {
    } else {
      var before := longer[..|longer| - 1];
      assert run <= before;
      DrawsGrow(c, run, before, round);
    }
  }

  /** Agreement.  Whenever two bogatirs have all the values of the same round, however far apart
      in the run, they sort them into the same sequence; so both draw again or both stop. */
  lemma Agreement(c: Config, run: seq<Action>, longer: seq<Action>, i: nat, j: nat)
    requires ValidConfig(c) && Valid(c, longer) && run <= longer && Valid(c, run)
    requires i < c.n && j < c.n
    requires var p := Exec(c, run).processes[i];
             var q := Exec(c, longer).processes[j];
             p.loc.Collect? && q.loc.Collect? && |p.values| == |q.values| == c.n && p.round == q.round
    ensures var p := Exec(c, run).processes[i];
            var q := Exec(c, longer).processes[j];
            && Sort(p.values) == Sort(q.values)
            && (Conclude(p).loc.Draw? <==> Conclude(q).loc.Draw?)
  {
    var round := Exec(c, run).processes[i].round;
    RoundIsolation(c, run, i);
    RoundIsolation(c, longer, j);
    DrawsGrow(c, run, longer, round);
    SameConclusion(c, Exec(c, run).processes[i], i, DrawnIn(c, run, round),
                   Exec(c, longer).processes[j], j, DrawnIn(c, longer, round));
  }

  lemma SameConclusion(c: Config, p: Process, i: nat, a: Block, q: Process, j: nat, b: Block)
    requires HeardOnly(c, p, i, a) && HeardOnly(c, q, j, b)
    requires |p.values| == |q.values| == c.n && a <= b
    requires p.loc.Collect? && q.loc.Collect?
    ensures Sort(p.values) == Sort(q.values)
    ensures Conclude(p).loc.Draw? <==> Conclude(q).loc.Draw?
  {
    hide Sort, IndexOf, Heard, DistinctFroms, NoRepeats, Values, Drew;
    assert a == b;
    SameSort(p.values, q.values);
  }

  predicate Ranked(p: Process)
  {
    !Electing(p)
  }

  /** Every place among the sorted values of a decisive round belongs to a bogatir. */
  lemma RankTaken(c: Config, a: Circle, k: nat) returns (i: nat)
    requires Inv(c, a) && Decisive(c, a.blocks) && k < c.n
    ensures i < c.n && Rank(a.blocks, a.processes[i].myval) == k
  {
    var values := Values(Current(a.blocks));
    var sorted := Sort(values);
    SameRepeats(sorted, values);
    assert sorted[k] in multiset(sorted);
    assert sorted[k] in multiset(values);
    var l :| 0 <= l < |values| && values[l] == sorted[k];
    i := Current(a.blocks)[l].from;
    assert GoodLetter(c, a, Current(a.blocks)[l]);
    RankHits(values, l);
  }

  /** The ranks given so far differ, and when all are given they are exactly 0 .. n-1. */
  predicate RanksFit(n: nat, ps: seq<Process>)
  {
    && (forall i :: 0 <= i < |ps| && Ranked(ps[i]) ==> 0 <= ps[i].rank < n)
    && (forall i, j :: 0 <= i < j < |ps| && Ranked(ps[i]) && Ranked(ps[j]) ==> ps[i].rank != ps[j].rank)
    && ((forall i :: 0 <= i < |ps| ==> Ranked(ps[i])) ==> forall k: nat :: k < n ==> HasRank(ps, k))
  }

  predicate HasRank(ps: seq<Process>, k: nat)
  {
    exists i :: 0 <= i < |ps| && ps[i].rank == k
  }

  lemma CircleRanking(c: Config, a: Circle)
    requires Inv(c, a)
    ensures RanksFit(c.n, a.processes)
  {
    var ps := a.processes;
    forall i, j | 0 <= i < c.n && 0 <= j < c.n && Ranked(ps[i]) && Ranked(ps[j])
      ensures 0 <= ps[i].rank < c.n && (i != j ==> ps[i].rank != ps[j].rank)
    {
      assert GoodProcess(c, a, i) && GoodProcess(c, a, j);
      RanksDiffer(c, a, i, j);
    }
    if forall i :: 0 <= i < c.n ==> Ranked(ps[i]) {
      assert GoodProcess(c, a, 0);
      forall k: nat | k < c.n ensures HasRank(ps, k) {
        var i := RankTaken(c, a, k);
        assert GoodProcess(c, a, i);
      }
    }
  }

  /** Ranking.  Two bogatirs never get the same rank, and once all have one, the ranks are
      exactly 0 .. n-1: one leader, one owner for each symbol. */
  lemma Ranking(c: Config, run: seq<Action>)
    requires ValidConfig(c) && Valid(c, run)
    ensures RanksFit(c.n, Exec(c, run).processes)
  {
    RunLinked(c, run);
    CircleRanking(c, Shadow(c, run));
  }

  // ---------- the printing ----------

  /** In every reachable state the output is a prefix of the string and its newline. */
  lemma OutputIsPrefix(c: Config, run: seq<Action>)
    requires ValidConfig(c) && Valid(c, run)
    ensures Exec(c, run).output <= c.text + [NEWLINE]
  {
    RunLinked(c, run);
  }

  /** Each symbol is printed by its owner and in its turn; the newline by the leader. */
  lemma PrintsInTurn(c: Config, run: seq<Action>, i: nat, input: Input)
    requires ValidConfig(c) && Valid(c, run) && Enabled(c, Exec(c, run), Move(i, input))
    ensures var s := Exec(c, run);
            var p := s.processes[i];
            var printed := Step(c.n, c.text, p, input).printed;
            printed != [] ==>
              && |printed| == 1 && Ranked(p) && |s.output| <= |c.text|
              && (|s.output| < |c.text| ==>
                    printed[0] == c.text[|s.output|] == FIRST_SYMBOL + p.rank)
              && (|s.output| == |c.text| ==> printed[0] == NEWLINE && p.rank == 0)
  {
    hide Exec, Valid, Shadow, ProcessAt, StageAt, Sort, IndexOf, InFlight, Shutting, Addressed, Of;
    var a := Shadow(c, run);
    RunLinked(c, run);
    MoveLinked(c, Exec(c, run), a, i, input);
    StepPrints(c, a, i);
    if Ranked(a.processes[i]) {
      PrintTurn(c, a.stage, a.processes[i], input, a.notes[i], a.output);
    }
  }

  lemma PrintTurn(c: Config, stage: Stage, p: Process, input: Input, notes: seq<int>, output: seq<int>)
    requires Accepts(c.n, c.text, p, input) && Ranked(p) && p.rank >= 0
    requires (p.rank == 0 <==> Leading(p)) && StageAt(c, stage, p, p.rank, notes)
    requires OutputAt(c, stage, output)
    ensures var printed := Step(c.n, c.text, p, input).printed;
            printed != [] ==>
              && |printed| == 1 && |output| <= |c.text|
              && (|output| < |c.text| ==> printed[0] == c.text[|output|] == FIRST_SYMBOL + p.rank)
              && (|output| == |c.text| ==> printed[0] == NEWLINE && p.rank == 0)
  {
  }

  // ---------- the end ----------

  predicate Finished(c: Config, s: System)
  {
    s.relay == Closed && forall i :: 0 <= i < |s.processes| ==> s.processes[i].loc.Exited?
  }

  /** Clean shutdown.  When every bogatir has exited and the relay loop has ended, the whole
      string and its newline are printed and the queue main removes is empty. */
  lemma CleanShutdown(c: Config, run: seq<Action>)
    requires ValidConfig(c) && Valid(c, run) && Finished(c, Exec(c, run))
    ensures Exec(c, run).output == c.text + [NEWLINE] && Exec(c, run).queue == []
  {
    hide Exec, Shadow, Sort, IndexOf, GoodBlocks, GoodLetters;
    var s := Exec(c, run);
    var a := Shadow(c, run);
    RunLinked(c, run);
    assert Of(s.queue, MAIN_MTYPE) == InFlight(s);
    assert GoodProcess(c, a, 0);
    forall i: nat | i < c.n ensures Of(s.queue, GenMtypeFromMain(i)) == [] {
      assert GoodProcess(c, a, i);
      RanksDiffer(c, a, i, i);
      assert StageAt(c, a.stage, a.processes[i], a.processes[i].rank, a.notes[i]);
      assert a.streams[i] == Stream(s.queue, s.relay, i);
      assert |Inbox(s.queue, i)| == |Of(s.queue, GenMtypeFromMain(i))|;
    }
    NothingLeft(c, s.queue);
  }

  lemma NothingLeft(c: Config, q: Queue<Letter>)
    requires Addressed(c, q) && Of(q, MAIN_MTYPE) == []
    requires forall i: nat :: i < c.n ==> Of(q, GenMtypeFromMain(i)) == []
    ensures q == []
  {
    forall t | GenMtypeFromMain(0) <= t < GenMtypeFromMain(c.n) ensures Of(q, t) == [] {
      assert t == GenMtypeFromMain(t - GenMtypeFromMain(0));
    }
    assert q != [] ==> Of(q, q[0].mtype) != [];
  }

  /** The relay loop ends only when the output is complete and everything sent was relayed. */
  lemma RelayClosesLast(c: Config, run: seq<Action>)
    requires ValidConfig(c) && Valid(c, run) && Exec(c, run).relay == Closed
    ensures Exec(c, run).output == c.text + [NEWLINE]
    ensures Of(Exec(c, run).queue, MAIN_MTYPE) == []
  {
    RunLinked(c, run);
    assert InFlight(Exec(c, run)) == Of(Exec(c, run).queue, MAIN_MTYPE);
  }

  // ---------- the order to stop ----------

  /** Move (i, input) sends the order to stop. */
  predicate SendsZero(c: Config, run: seq<Action>, i: nat, input: Input)
    requires Valid(c, run)
  {
    Enabled(c, Exec(c, run), Move(i, input)) && 0 in Step(c.n, c.text, Exec(c, run).processes[i], input).sent
  }

  lemma ZeroSent(c: Config, stage: Stage, p: Process, input: Input, notes: seq<int>, output: seq<int>)
    requires ValidConfig(c) && Accepts(c.n, c.text, p, input) && 0 in Step(c.n, c.text, p, input).sent
    requires !Electing(p) ==>
               && p.rank >= 0 && (p.rank == 0 <==> Leading(p)) && StageAt(c, stage, p, p.rank, notes)
               && OutputAt(c, stage, output)
    ensures Ranked(p) && p.rank == 0 && output == c.text + [NEWLINE]
  {
  }

  /** The order to stop comes from the leader, when the whole string and the newline are printed. */
  lemma ZeroFromLeader(c: Config, run: seq<Action>, i: nat, input: Input)
    requires ValidConfig(c) && Valid(c, run) && SendsZero(c, run, i, input)
    ensures var s := Exec(c, run);
            Ranked(s.processes[i]) && s.processes[i].rank == 0 && s.output == c.text + [NEWLINE]
  {
    hide Exec, Valid, Shadow, ProcessAt, StageAt, OutputAt, Sort, IndexOf, InFlight, Shutting, Addressed;
    var a := Shadow(c, run);
    RunLinked(c, run);
    MoveLinked(c, Exec(c, run), a, i, input);
    StepPrints(c, a, i);
    ZeroSent(c, a.stage, a.processes[i], input, a.notes[i], a.output);
  }

  /** What the invariant says of a bogatir with a rank. */
  lemma StepPrints(c: Config, a: Circle, i: nat)
    requires Inv(c, a) && i < c.n
    ensures var p := a.processes[i];
            !Electing(p) ==>
              && p.rank >= 0 && (p.rank == 0 <==> Leading(p)) && StageAt(c, a.stage, p, p.rank, a.notes[i])
              && OutputAt(c, a.stage, a.output)
  {
    hide StageAt, OutputAt, Sort, IndexOf, Heard, GoodLetters;
    assert GoodProcess(c, a, i);
    if !Electing(a.processes[i]) {
      RanksDiffer(c, a, i, i);
    }
  }

  lemma {:induction false} StaysOver(c: Config, run: seq<Action>, longer: seq<Action>)
    requires ValidConfig(c) && Valid(c, longer) && run <= longer && Valid(c, run)
    requires Shadow(c, run).stage == Over
    ensures Shadow(c, longer).stage == Over
  {
    hide Inv, Simulates, Do, Step;
    if run == longer {
    } else {
      var before := longer[..|longer| - 1];
      assert run <= before;
      StaysOver(c, run, before);
      RunLinked(c, before);
      match longer[|longer| - 1] {
        case Forward =>
        case Move(i, input) =>
          MoveLinked(c, Exec(c, before), Shadow(c, before), i, input);
          SentValue(c, Shadow(c, before), i, input);
      }
    }
  }

  /** And it is the last value sent: whatever happens after it, no move sends anything. */
  lemma ZeroIsLast(c: Config, run: seq<Action>, i: nat, input: Input, longer: seq<Action>, j: nat, other: Input)
    requires ValidConfig(c) && Valid(c, run) && SendsZero(c, run, i, input)
    requires Valid(c, longer) && run + [Move(i, input)] <= longer
    requires Enabled(c, Exec(c, longer), Move(j, other))
    ensures Step(c.n, c.text, Exec(c, longer).processes[j], other).sent == []
  {
    hide Inv, Do, Step, Enabled, Apply, Stream, InFlight, Shutting;
    var next := run + [Move(i, input)];
    var a := Shadow(c, run);
    assert next[..|run|] == run;
    RunLinked(c, run);
    MoveLinked(c, Exec(c, run), a, i, input);
    SentValue(c, a, i, input);
    ValidPrefix(c, next, longer);
    StaysOver(c, next, longer);
    var b := Shadow(c, longer);
    RunLinked(c, longer);
    MoveLinked(c, Exec(c, longer), b, j, other);
    SentValue(c, b, j, other);
  }

  lemma {:induction false} ValidPrefix(c: Config, run: seq<Action>, longer: seq<Action>)
    requires Valid(c, longer) && run <= longer
    ensures Valid(c, run)
  {
    if run != longer {
      assert run <= longer[..|longer| - 1];
      ValidPrefix(c, run, longer[..|longer| - 1]);
    }
  }

  // ---------- symbols without an owner ----------

  predicate Owned(c: Config, symbol: int)
  {
    FIRST_SYMBOL <= symbol < FIRST_SYMBOL + c.n
  }

  /** At a symbol nobody owns the printing stops for good. */
  lemma {:induction false} ForeignSymbolStops(c: Config, run: seq<Action>, pos: nat)
    requires ValidConfig(c) && Valid(c, run) && pos < |c.text| && !Owned(c, c.text[pos])
    ensures |Exec(c, run).output| <= pos
  {
    if run != [] {
      var before := run[..|run| - 1];
      ForeignSymbolStops(c, before, pos);
      match run[|run| - 1] {
        case Forward =>
        case Move(i, input) =>
          PrintsInTurn(c, before, i, input);
          Ranking(c, before);
      }
    }
  }
}
