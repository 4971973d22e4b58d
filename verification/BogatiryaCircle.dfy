/** The bogatirs over an atomic broadcast: whatever one of them sends is appended at once to the
    stream of every other.  BogatiryaRelay.dfy proves that the message queue and the relay loop
    of main behave like this machine, for every interleaving.

    blocks, notes and stage are history: no move depends on them.  blocks[r] holds what was
    drawn in round r, in sending order; notes[i] the printing-phase messages that bogatir i has
    not received yet; stage how far the printing has come. */
module BogatiryaCircle {
  import opened BogatiryaProcess

  datatype Config = Config(n: nat, text: seq<int>)

  datatype Letter = Letter(from: nat, value: int)

  type Block = seq<Letter>

  datatype Stage =
    | Turn(pos: nat)
    | Asked(pos: nat)
    | Printed(pos: nat)
    | Answered(pos: nat)
    | Newlined
    | Over

  datatype Circle = Circle(
    processes: seq<Process>,
    streams: seq<seq<int>>,
    output: seq<int>,
    blocks: seq<Block>,
    notes: seq<seq<int>>,
    stage: Stage)

  /** A C string holds no NUL; there is at least one bogatir. */
  predicate ValidConfig(c: Config)
  {
    c.n >= 1 && forall k :: 0 <= k < |c.text| ==> c.text[k] != 0
  }

  function Start(c: Config): Circle
  {
    Circle(seq(c.n, _ => START), seq(c.n, _ => []), [], [[]], seq(c.n, _ => []), Turn(0))
  }

  predicate Sized(c: Config, a: Circle)
  {
    |a.processes| == |a.streams| == |a.notes| == c.n && |a.blocks| >= 1
  }

  predicate Can(c: Config, a: Circle, i: nat, input: Input)
  {
    && Sized(c, a)
    && i < c.n
    && Accepts(c.n, c.text, a.processes[i], input)
    && (input.Got? ==> a.streams[i] != [] && a.streams[i][0] == input.v)
  }

  /** Bogatir i takes its input off its own stream; what it sends joins everyone else's. */
  function Pass(streams: seq<seq<int>>, i: nat, input: Input, sent: seq<int>): (r: seq<seq<int>>)
    requires i < |streams| && (input.Got? ==> streams[i] != [])
    ensures |r| == |streams|
  {
    seq(|streams|, j requires 0 <= j < |streams| =>
      if j != i then streams[j] + sent
      else if input.Got? then streams[i][1..]
      else streams[i])
  }

  function Record(blocks: seq<Block>, round: nat, d: Letter): seq<Block>
  {
    if round < |blocks| then blocks[round := blocks[round] + [d]] else blocks + [[d]]
  }

  function NextBlocks(a: Circle, i: nat, p: Process, q: Process): seq<Block>
  {
    if p.loc.Draw? then Record(a.blocks, p.round, Letter(i, q.myval))
    else if q.round >= |a.blocks| then a.blocks + [[]]
    else a.blocks
  }

  function NextStage(c: Config, stage: Stage, p: Process): Stage
  {
    match p.loc
    case LeaderLoop(pos) =>
      if pos >= |c.text| then Newlined
      else if c.text[pos] == Symbol(p) then Turn(pos + 1)
      else Asked(pos)
    case LeaderAwait(pos) => Turn(pos + 1)
    case LeaderStop => Over
    case FollowerPrint => if stage.Asked? then Printed(stage.pos) else stage
    case FollowerReply => if stage.Printed? then Answered(stage.pos) else stage
    case _ => stage
  }

  predicate Electing(p: Process)
  {
    p.loc.Draw? || p.loc.Collect?
  }

  function NextNotes(a: Circle, i: nat, input: Input, sent: seq<int>): seq<seq<int>>
    requires i < |a.processes| && i < |a.notes|
  {
    if Electing(a.processes[i]) || (input.Got? && a.notes[i] == []) then a.notes
    else Pass(a.notes, i, input, sent)
  }

  function Do(c: Config, a: Circle, i: nat, input: Input): Circle
    requires Can(c, a, i, input)
  {
    var p := a.processes[i];
    var e := Step(c.n, c.text, p, input);
    Circle(a.processes[i := e.process], Pass(a.streams, i, input, e.sent), a.output + e.printed,
           NextBlocks(a, i, p, e.process), NextNotes(a, i, input, e.sent), NextStage(c, a.stage, p))
  }

  // ---------- blocks: one round of draws ----------

  function Values(b: Block): seq<int>
  {
    seq(|b|, k requires 0 <= k < |b| => b[k].value)
  }

  /** What bogatir i hears of a block: everything but its own draw. */
  function Heard(b: Block, i: nat): seq<int>
  {
    if b == [] then []
    else
      var d := b[|b| - 1];
      Heard(b[..|b| - 1], i) + if d.from == i then [] else [d.value]
  }

  predicate DistinctFroms(n: nat, b: Block)
  {
    && (forall k :: 0 <= k < |b| ==> b[k].from < n && b[k].value != 0)
    && (forall j, k :: 0 <= j < k < |b| ==> b[j].from != b[k].from)
  }

  predicate Drew(b: Block, i: nat)
  {
    exists k :: 0 <= k < |b| && b[k].from == i
  }

  function Froms(b: Block): set<nat>
  {
    set k | 0 <= k < |b| :: b[k].from
  }

  function Below(n: nat): set<nat>
  {
    if n == 0 then {} else Below(n - 1) + {n - 1}
  }

  lemma {:induction false} BelowCount(n: nat)
    ensures |Below(n)| == n && forall i: nat :: i in Below(n) <==> i < n
  {
    if n > 0 {
      BelowCount(n - 1);
    }
  }

  lemma {:induction false} FromsCount(n: nat, b: Block)
    requires DistinctFroms(n, b)
    ensures |Froms(b)| == |b|
  {
    if b != [] {
      hide Froms, Drew;
      FromsCount(n, b[..|b| - 1]);
      FromsLast(b);
      FromsDrew(b[..|b| - 1], b[|b| - 1].from);
      OthersDrew(n, b);
    } else {
      NoFroms();
    }
  }

  lemma NoFroms()
    ensures Froms([]) == {}
  {
  }

  lemma FromsLast(b: Block)
    requires b != []
    ensures Froms(b) == Froms(b[..|b| - 1]) + {b[|b| - 1].from}
  {
    var r := b[..|b| - 1];
    assert forall k :: 0 <= k < |r| ==> r[k] == b[k];
    assert b[|b| - 1].from in Froms(b);
  }

  lemma FromsDrew(b: Block, i: nat)
    ensures i in Froms(b) <==> Drew(b, i)
  {
  }

  /** A block is full exactly when every bogatir has drawn. */
  lemma BlockFull(n: nat, b: Block)
    requires DistinctFroms(n, b)
    ensures |b| <= n
    ensures |b| == n <==> forall i: nat :: i < n ==> Drew(b, i)
  {
    var drew, all := Froms(b), Below(n);
    BelowCount(n);
    assert drew <= all by {
      forall i | i in drew ensures i in all { assert Drew(b, i); }
    }
    FromsCount(n, b);
    SubsetCount(drew, all);
    assert (|b| == n) == (drew == all);
    assert forall i: nat :: i < n ==> (i in drew <==> Drew(b, i));
  }

  lemma {:induction false} SubsetCount(a: set<nat>, b: set<nat>)
    requires a <= b
    ensures |a| <= |b|
    ensures |a| == |b| ==> a == b
  {
    assert b == a + (b - a);
    assert |b| == |a| + |b - a|;
  }

  lemma {:induction false} HeardNone(b: Block, i: nat)
    requires !Drew(b, i)
    ensures Heard(b, i) == Values(b)
  {
    if b != [] {
      var r := b[..|b| - 1];
      assert forall k :: 0 <= k < |r| ==> r[k] == b[k];
      HeardNone(r, i);
      assert Values(b) == Values(r) + [b[|b| - 1].value];
    }
  }

  /** Hearing a block misses only the own draw. */
  lemma {:induction false} HeardAll(n: nat, b: Block, i: nat, k: nat)
    requires DistinctFroms(n, b) && k < |b| && b[k].from == i
    ensures multiset(Heard(b, i)) + multiset{b[k].value} == multiset(Values(b))
    ensures |Heard(b, i)| == |b| - 1
  {
    hide Heard, Values, Drew;
    var r := b[..|b| - 1];
    var d := b[|b| - 1];
    LastLetter(b, i);
    if k == |r| {
      OthersDrew(n, b);
      HeardNone(r, i);
    } else {
      HeardAll(n, r, i, k);
    }
  }

  lemma LastLetter(b: Block, i: nat)
    requires b != []
    ensures var r, d := b[..|b| - 1], b[|b| - 1];
            && Values(b) == Values(r) + [d.value] && |Values(b)| == |b|
            && Heard(b, i) == if d.from == i then Heard(r, i) else Heard(r, i) + [d.value]
  {
    assert Heard(b[..|b| - 1], i) + [] == Heard(b[..|b| - 1], i);
  }

  lemma OthersDrew(n: nat, b: Block)
    requires DistinctFroms(n, b) && b != []
    ensures !Drew(b[..|b| - 1], b[|b| - 1].from)
  {
    var r := b[..|b| - 1];
    assert forall l :: 0 <= l < |r| ==> r[l] == b[l];
  }

  lemma {:induction false} HeardFirst(d: Letter, b: Block, i: nat)
    ensures Heard([d] + b, i) == (if d.from == i then [] else [d.value]) + Heard(b, i)
  {
    if b == [] {
      assert [d] + b == [d] && [d][..0] == [];
    } else {
      var l := b[|b| - 1];
      HeardFirst(d, b[..|b| - 1], i);
      assert ([d] + b)[..|b|] == [d] + b[..|b| - 1];
    }
  }

  lemma HeardAppend(b: Block, d: Letter, i: nat)
    ensures Heard(b + [d], i) == Heard(b, i) + (if d.from == i then [] else [d.value])
  {
    assert (b + [d])[..|b|] == b;
  }

  // ---------- the invariant ----------

  function Last(blocks: seq<Block>): nat
    requires |blocks| >= 1
  {
    |blocks| - 1
  }

  function Current(blocks: seq<Block>): Block
    requires |blocks| >= 1
  {
    blocks[Last(blocks)]
  }

  /** The current round has everyone's value and no repeated one: it elects. */
  predicate Decisive(c: Config, blocks: seq<Block>)
    requires |blocks| >= 1
  {
    |Current(blocks)| == c.n && NoRepeats(Values(Current(blocks)))
  }

  /** The place of a value among the sorted values of the current round. */
  function Rank(blocks: seq<Block>, v: int): int
    requires |blocks| >= 1
  {
    IndexOf(Sort(Values(Current(blocks))), v)
  }

  predicate GoodBlocks(c: Config, blocks: seq<Block>)
    requires |blocks| >= 1
  {
    && (forall r :: 0 <= r < |blocks| ==> DistinctFroms(c.n, blocks[r]))
    && (forall r :: 0 <= r < Last(blocks) ==> |blocks[r]| == c.n && !NoRepeats(Values(blocks[r])))
  }

  /** A letter of the current round is the live value of its sender. */
  predicate GoodLetter(c: Config, a: Circle, d: Letter)
    requires Sized(c, a)
  {
    && d.from < c.n
    && a.processes[d.from].round == Last(a.blocks)
    && !a.processes[d.from].loc.Draw?
    && a.processes[d.from].myval == d.value
  }

  predicate GoodLetters(c: Config, a: Circle)
    requires Sized(c, a)
  {
    forall k :: 0 <= k < |Current(a.blocks)| ==> GoodLetter(c, a, Current(a.blocks)[k])
  }

  /** What comes after its own round on the stream of a bogatir collecting in a round. */
  function Later(blocks: seq<Block>, i: nat, round: nat, notes: seq<int>): seq<int>
    requires |blocks| >= 1
  {
    (if round < Last(blocks) then Heard(Current(blocks), i) else []) + notes
  }

  predicate Leading(p: Process)
  {
    p.loc.LeaderLoop? || p.loc.LeaderAwait? || p.loc.LeaderStop? || (p.loc.Exited? && p.rank == 0)
  }

  predicate ProcessAt(c: Config, blocks: seq<Block>, i: nat, p: Process, stream: seq<int>, notes: seq<int>)
    requires |blocks| >= 1
  {
    && p.round <= Last(blocks) <= p.round + 1
    && (p.loc.Draw? ==>
          p.round == Last(blocks) && stream == Heard(Current(blocks), i) && notes == [])
    && (!p.loc.Draw? ==> Letter(i, p.myval) in blocks[p.round])
    && (p.loc.Collect? ==>
          && 1 <= |p.values| <= c.n && p.values[0] == p.myval
          && p.values[1..] + stream == Heard(blocks[p.round], i) + Later(blocks, i, p.round, notes))
    && (!Electing(p) ==>
          && p.round == Last(blocks) && Decisive(c, blocks) && stream == notes
          && p.rank == Rank(blocks, p.myval)
          && (p.rank == 0 <==> Leading(p)))
  }

  predicate GoodProcess(c: Config, a: Circle, i: nat)
    requires Sized(c, a) && i < c.n
  {
    ProcessAt(c, a.blocks, i, a.processes[i], a.streams[i], a.notes[i])
  }

  /** No command for the owner of this symbol, and no order to stop. */
  predicate Quiet(notes: seq<int>, symbol: int)
  {
    forall k :: 0 <= k < |notes| ==> notes[k] != 0 && notes[k] != symbol
  }

  predicate EndsWith(notes: seq<int>, symbol: int, last: int)
  {
    && |notes| > 0
    && notes[|notes| - 1] == last
    && Quiet(notes[..|notes| - 1], symbol)
  }

  predicate Waiting(p: Process)
  {
    p.loc.Collect? || p.loc.FollowerWait?
  }

  predicate LeaderAt(c: Config, stage: Stage, p: Process, notes: seq<int>)
  {
    match stage
    case Turn(pos) =>
      && pos <= |c.text| && notes == []
      && (p.loc == LeaderLoop(pos) || (pos == 0 && p.loc.Collect?))
    case Asked(pos) =>
      pos < |c.text| && c.text[pos] != FIRST_SYMBOL && notes == [] && p.loc == LeaderAwait(pos)
    case Printed(pos) =>
      pos < |c.text| && c.text[pos] != FIRST_SYMBOL && notes == [] && p.loc == LeaderAwait(pos)
    case Answered(pos) =>
      pos < |c.text| && notes == [c.text[pos]] && p.loc == LeaderAwait(pos)
    case Newlined => notes == [] && p.loc == LeaderStop
    case Over => notes == [] && p.loc == Exited
  }

  predicate FollowerAt(c: Config, stage: Stage, p: Process, symbol: int, notes: seq<int>)
  {
    match stage
    case Asked(pos) =>
      pos < |c.text|
      && (if c.text[pos] == symbol then
            (p.loc.FollowerPrint? && Quiet(notes, symbol))
            || (Waiting(p) && EndsWith(notes, symbol, symbol))
          else Waiting(p) && Quiet(notes, symbol))
    case Printed(pos) =>
      pos < |c.text|
      && Quiet(notes, symbol)
      && (if c.text[pos] == symbol then p.loc.FollowerReply? else Waiting(p))
    case Over =>
      (p.loc.Exited? && notes == []) || (Waiting(p) && EndsWith(notes, symbol, 0))
    case _ => Waiting(p) && Quiet(notes, symbol)
  }

  predicate StageAt(c: Config, stage: Stage, p: Process, rank: int, notes: seq<int>)
  {
    if rank == 0 then LeaderAt(c, stage, p, notes)
    else FollowerAt(c, stage, p, FIRST_SYMBOL + rank, notes)
  }

  predicate GoodStage(c: Config, a: Circle)
    requires Sized(c, a)
  {
    if Decisive(c, a.blocks) then
      forall i :: 0 <= i < c.n ==>
        StageAt(c, a.stage, a.processes[i], Rank(a.blocks, a.processes[i].myval), a.notes[i])
    else
      a.stage == Turn(0) && forall i :: 0 <= i < c.n ==> a.notes[i] == []
  }

  predicate OutputAt(c: Config, stage: Stage, output: seq<int>)
  {
    match stage
    case Turn(pos) => pos <= |c.text| && output == c.text[..pos]
    case Asked(pos) => pos < |c.text| && output == c.text[..pos]
    case Printed(pos) => pos < |c.text| && output == c.text[..pos + 1]
    case Answered(pos) => pos < |c.text| && output == c.text[..pos + 1]
    case Newlined => output == c.text + [NEWLINE]
    case Over => output == c.text + [NEWLINE]
  }

  predicate Inv(c: Config, a: Circle)
  {
    && ValidConfig(c)
    && Sized(c, a)
    && GoodBlocks(c, a.blocks)
    && GoodLetters(c, a)
    && (forall i :: 0 <= i < c.n ==> GoodProcess(c, a, i))
    && GoodStage(c, a)
    && OutputAt(c, a.stage, a.output)
  }

  lemma InvStart(c: Config)
    requires ValidConfig(c)
    ensures Inv(c, Start(c))
  {
  }

  // ---------- rounds ----------

  /** Someone who has not drawn in the current round leaves it unfinished, so nothing of the
      printing phase exists yet. */
  lemma NotDrawn(c: Config, a: Circle, i: nat)
    requires Inv(c, a) && i < c.n
    requires a.processes[i].loc.Draw? || a.processes[i].round < Last(a.blocks)
    ensures !Drew(Current(a.blocks), i) && |Current(a.blocks)| < c.n && !Decisive(c, a.blocks)
    ensures a.stage == Turn(0) && forall j :: 0 <= j < c.n ==> a.notes[j] == []
  {
    assert GoodProcess(c, a, i);
    BlockFull(c.n, Current(a.blocks));
  }

  /** In a full current round everyone is past the draw. */
  lemma AllDrawn(c: Config, a: Circle, i: nat)
    requires Inv(c, a) && i < c.n && |Current(a.blocks)| == c.n
    ensures a.processes[i].round == Last(a.blocks) && !a.processes[i].loc.Draw?
  {
    if a.processes[i].loc.Draw? || a.processes[i].round < Last(a.blocks) {
      NotDrawn(c, a, i);
    }
    assert GoodProcess(c, a, i);
  }

  /** A round's draws as one of its drawers hears them, and with its own value put back. */
  lemma OwnBlock(c: Config, a: Circle, i: nat)
    requires Inv(c, a) && i < c.n && !a.processes[i].loc.Draw?
    ensures var p := a.processes[i];
            && p.round < |a.blocks|
            && DistinctFroms(c.n, a.blocks[p.round])
            && |Heard(a.blocks[p.round], i)| == |a.blocks[p.round]| - 1 < c.n
            && multiset(Heard(a.blocks[p.round], i)) + multiset{p.myval}
               == multiset(Values(a.blocks[p.round]))
  {
    var p := a.processes[i];
    assert GoodProcess(c, a, i);
    var b := a.blocks[p.round];
    var k :| 0 <= k < |b| && b[k] == Letter(i, p.myval);
    HeardAll(c.n, b, i, k);
    BlockFull(c.n, b);
  }

  /** Round isolation.  In every reachable state, what a bogatir collecting in round r has
      received is the start of what the others drew in round r, in the order it was sent: one
      value from each, never a value of a later round, never a printing command. */
  lemma CircleIsolation(c: Config, a: Circle, i: nat)
    requires Inv(c, a) && i < c.n && a.processes[i].loc.Collect?
    ensures var p := a.processes[i];
            && p.round < |a.blocks| && 1 <= |p.values|
            && DistinctFroms(c.n, a.blocks[p.round])
            && p.values[1..] <= Heard(a.blocks[p.round], i)
            && (|p.values| == c.n ==>
                  && |a.blocks[p.round]| == c.n
                  && p.values[1..] == Heard(a.blocks[p.round], i)
                  && a.streams[i] == Later(a.blocks, i, p.round, a.notes[i]))
  {
    var p := a.processes[i];
    OwnBlock(c, a, i);
    assert GoodProcess(c, a, i);
    if |a.blocks[p.round]| < c.n {
      assert p.round == Last(a.blocks) && !Decisive(c, a.blocks) && a.notes[i] == [];
    }
    PrefixOfPrefix(p.values[1..], a.streams[i], Heard(a.blocks[p.round], i),
                   Later(a.blocks, i, p.round, a.notes[i]));
  }

  /** Agreement: whoever concludes round r sorts the same sequence of values. */
  lemma CircleAgreement(c: Config, a: Circle, i: nat)
    requires Inv(c, a) && i < c.n && a.processes[i].loc.Collect?
    requires |a.processes[i].values| >= c.n
    ensures var p := a.processes[i];
            && |p.values| == c.n && p.round < |a.blocks|
            && |a.blocks[p.round]| == c.n
            && Sort(p.values) == Sort(Values(a.blocks[p.round]))
            && (NoRepeats(Sort(p.values)) <==> NoRepeats(Values(a.blocks[p.round])))
  {
    hide StageAt, OutputAt, Sort, IndexOf, Heard, GoodLetters, NoRepeats;
    var p := a.processes[i];
    OwnBlock(c, a, i);
    assert GoodProcess(c, a, i);
    CircleIsolation(c, a, i);
    assert p.values == [p.myval] + p.values[1..];
    SameSort(p.values, Values(a.blocks[p.round]));
    SameRepeats(Sort(p.values), Values(a.blocks[p.round]));
  }

  lemma PrefixOfPrefix(a: seq<int>, b: seq<int>, x: seq<int>, y: seq<int>)
    requires a + b == x + y
    requires |a| <= |x| || y == []
    ensures a <= x
    ensures |a| == |x| ==> a == x && b == y
  {
    assert |a| <= |x| by {
      assert |a + b| == |x + y|;
    }
    assert a == (a + b)[..|a|] == (x + y)[..|a|] == x[..|a|];
    if |a| == |x| {
      assert b == (a + b)[|a|..] == (x + y)[|x|..] == y;
    }
  }
}
