/** What a rank is: the number of bogatirs that drew less in the decided round. */
module BogatiryaRanking {
  import opened BogatiryaProcess
  import opened BogatiryaCircle
  import opened BogatiryaCircleProofs
  import opened BogatiryaRelay
  import opened BogatiryaTheorems

  function Lower(ps: seq<Process>, v: int): set<nat>
  {
    set j: nat | j < |ps| && ps[j].myval < v
  }

  /** The bogatirs whose place among the sorted values is below k. */
  function Placed(c: Config, a: Circle, k: nat): set<nat>
    requires Sized(c, a)
  {
    set j: nat | j < c.n && Rank(a.blocks, a.processes[j].myval) < k
  }

  /** Places among sorted values are in the order of the values. */
  lemma RankOrder(c: Config, a: Circle, i: nat, j: nat)
    requires Inv(c, a) && Decisive(c, a.blocks) && i < c.n && j < c.n
    ensures Rank(a.blocks, a.processes[i].myval) < Rank(a.blocks, a.processes[j].myval)
        <==> a.processes[i].myval < a.processes[j].myval
  {
    hide GoodBlocks, GoodLetters, GoodProcess, GoodStage, OutputAt, Sort, Values;
    RanksDiffer(c, a, i, j);
    RanksDiffer(c, a, j, j);
  }

  /** One bogatir more at each place. */
  lemma {:induction false} PlacedCount(c: Config, a: Circle, k: nat)
    requires Inv(c, a) && Decisive(c, a.blocks) && k <= c.n
    ensures |Placed(c, a, k)| == k
  {
    hide GoodBlocks, GoodLetters, GoodProcess, GoodStage, OutputAt, Rank, Decisive;
    if k == 0 {
      NonePlaced(c, a);
    } else {
      PlacedCount(c, a, k - 1);
      var i := RankTaken(c, a, k - 1);
      forall j: nat | j < c.n ensures Rank(a.blocks, a.processes[j].myval) == k - 1 <==> j == i {
        RanksDiffer(c, a, i, j);
      }
      assert Placed(c, a, k) == Placed(c, a, k - 1) + {i};
    }
  }

  lemma NonePlaced(c: Config, a: Circle)
    requires Inv(c, a) && Decisive(c, a.blocks)
    ensures Placed(c, a, 0) == {}
  {
    hide GoodBlocks, GoodLetters, GoodProcess, GoodStage, OutputAt, Rank, Decisive;
    forall j: nat | j < c.n ensures Rank(a.blocks, a.processes[j].myval) >= 0 {
      RanksDiffer(c, a, j, j);
    }
  }

  /** The place of the own value among the sorted values counts those that drew less. */
  lemma RankByValue(c: Config, run: seq<Action>, i: nat)
    requires ValidConfig(c) && Valid(c, run) && i < c.n && Ranked(Exec(c, run).processes[i])
    ensures var ps := Exec(c, run).processes;
            |Lower(ps, ps[i].myval)| == ps[i].rank
  {
    hide Exec, Shadow, Valid, Rank, StageAt, OutputAt, Heard, GoodLetters, Decisive;
    var a := Shadow(c, run);
    RunLinked(c, run);
    assert GoodProcess(c, a, i);
    RanksDiffer(c, a, i, i);
    PlacedCount(c, a, a.processes[i].rank);
    forall j: nat | j < c.n
      ensures j in Lower(a.processes, a.processes[i].myval) <==> j in Placed(c, a, a.processes[i].rank)
    {
      RankOrder(c, a, j, i);
    }
    assert Lower(a.processes, a.processes[i].myval) == Placed(c, a, a.processes[i].rank);
  }
}
