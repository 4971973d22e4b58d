/** Every move of the circle keeps its invariant. */
module BogatiryaCircleProofs {
  import opened BogatiryaProcess
  import opened BogatiryaCircle

  // ---------- what a move does to the others ----------

  lemma FrameLetters(c: Config, a: Circle, b: Circle)
    requires Sized(c, a) && GoodLetters(c, a)
    requires Sized(c, b) && b.blocks == a.blocks
    requires forall j :: 0 <= j < c.n ==>
               && b.processes[j].round == a.processes[j].round
               && b.processes[j].myval == a.processes[j].myval
               && (b.processes[j].loc.Draw? ==> a.processes[j].loc.Draw?)
    ensures GoodLetters(c, b)
  {
    forall k | 0 <= k < |Current(b.blocks)| ensures GoodLetter(c, b, Current(b.blocks)[k]) {
      assert GoodLetter(c, a, Current(a.blocks)[k]);
    }
  }

  /** A move of bogatir i that concerns nobody else. */
  lemma FrameOne(c: Config, a: Circle, b: Circle, i: nat)
    requires Inv(c, a) && i < c.n && Sized(c, b)
    requires b.blocks == a.blocks && b.notes == a.notes && b.stage == a.stage && b.output == a.output
    requires forall j :: 0 <= j < c.n && j != i ==>
               b.processes[j] == a.processes[j] && b.streams[j] == a.streams[j]
    requires b.processes[i].round == a.processes[i].round
    requires b.processes[i].myval == a.processes[i].myval
    requires !b.processes[i].loc.Draw?
    requires ProcessAt(c, a.blocks, i, b.processes[i], b.streams[i], a.notes[i])
    requires Decisive(c, a.blocks) ==>
               StageAt(c, a.stage, b.processes[i], Rank(a.blocks, a.processes[i].myval), a.notes[i])
    ensures Inv(c, b)
  {
    FrameLetters(c, a, b);
    forall j | 0 <= j < c.n ensures GoodProcess(c, b, j) {
      assert GoodProcess(c, a, j);
    }
  }

  /** Different bogatirs hold different values in a decisive round, hence different ranks. */
  lemma RanksDiffer(c: Config, a: Circle, i: nat, j: nat)
    requires Inv(c, a) && Decisive(c, a.blocks) && i < c.n && j < c.n
    ensures 0 <= Rank(a.blocks, a.processes[i].myval) < c.n
    ensures Rank(a.blocks, a.processes[i].myval) == Rank(a.blocks, a.processes[j].myval) ==> i == j
  {
    hide GoodProcess, GoodStage, OutputAt, Sort, IndexOf;
    var b := Current(a.blocks);
    BlockFull(c.n, b);
    assert Drew(b, i) && Drew(b, j);
    var k :| 0 <= k < |b| && b[k].from == i;
    var l :| 0 <= l < |b| && b[l].from == j;
    assert GoodLetter(c, a, b[k]) && GoodLetter(c, a, b[l]);
    RankHits(Values(b), k);
    RankHits(Values(b), l);
  }

  lemma RankHits(s: seq<int>, k: nat)
    requires k < |s|
    ensures var r := IndexOf(Sort(s), s[k]);
            0 <= r < |s| && Sort(s)[r] == s[k]
  {
    assert s[k] in multiset(s);
    assert s[k] in multiset(Sort(s));
  }

  lemma AppendMany(x: seq<int>, y: seq<int>, h: seq<int>, l: seq<int>, z: seq<int>)
    requires x + y == h + l
    ensures x + (y + z) == h + (l + z)
  {
    assert x + (y + z) == (x + y) + z;
    assert h + (l + z) == (h + l) + z;
  }

  // ---------- the four kinds of move ----------

  lemma DrawMove(c: Config, a: Circle, i: nat, input: Input)
    requires Can(c, a, i, input) && a.processes[i].loc.Draw? && a.processes[i].round == Last(a.blocks)
    ensures Do(c, a, i, input)
         == a.(processes := a.processes[i := a.processes[i].(loc := Collect, myval := input.v, values := [input.v])],
               streams := Pass(a.streams, i, input, [input.v]),
               blocks := a.blocks[Last(a.blocks) := Current(a.blocks) + [Letter(i, input.v)]])
  {
    assert a.output + [] == a.output;
  }

  lemma HearMove(c: Config, a: Circle, i: nat, input: Input)
    requires Can(c, a, i, input) && a.processes[i].loc.Collect? && input.Got?
    requires a.processes[i].round < |a.blocks|
    ensures |a.processes[i].values| < c.n && a.streams[i] != [] && a.streams[i][0] == input.v
    ensures Do(c, a, i, input)
         == a.(processes := a.processes[i := a.processes[i].(values := a.processes[i].values + [input.v])],
               streams := a.streams[i := a.streams[i][1..]])
  {
    assert a.output + [] == a.output;
    assert forall j :: 0 <= j < |a.streams| ==> a.streams[j] + [] == a.streams[j];
    assert Pass(a.streams, i, input, []) == a.streams[i := a.streams[i][1..]];
  }

  lemma ConcludeMove(c: Config, a: Circle, i: nat, input: Input)
    requires Can(c, a, i, input) && a.processes[i].loc.Collect? && input.Tick?
    ensures |a.processes[i].values| >= c.n
    ensures var q := Conclude(a.processes[i]);
            && Do(c, a, i, input)
               == a.(processes := a.processes[i := q],
                     blocks := if q.round >= |a.blocks| then a.blocks + [[]] else a.blocks)
            && q.round == (if NoRepeats(Sort(a.processes[i].values)) then a.processes[i].round
                           else a.processes[i].round + 1)
  {
    hide Sort, NoRepeats;
    assert a.output + [] == a.output;
    assert forall j :: 0 <= j < |a.streams| ==> a.streams[j] + [] == a.streams[j];
    assert Pass(a.streams, i, input, []) == a.streams;
  }

  lemma PrintMove(c: Config, a: Circle, i: nat, input: Input)
    requires Can(c, a, i, input) && !Electing(a.processes[i])
    requires a.processes[i].round < |a.blocks| && a.streams[i] == a.notes[i]
    ensures var e := Step(c.n, c.text, a.processes[i], input);
            && e.process.round == a.processes[i].round && e.process.myval == a.processes[i].myval
            && Do(c, a, i, input)
               == Circle(a.processes[i := e.process], Pass(a.streams, i, input, e.sent), a.output + e.printed,
                         a.blocks, Pass(a.notes, i, input, e.sent), NextStage(c, a.stage, a.processes[i]))
  {
  }

  // ---------- election ----------

  lemma DrawBlocks(c: Config, a: Circle, i: nat, input: Input)
    requires Inv(c, a) && Can(c, a, i, input) && a.processes[i].loc.Draw?
    ensures var b := Do(c, a, i, input);
            && b.blocks == a.blocks[Last(a.blocks) := Current(a.blocks) + [Letter(i, input.v)]]
            && b.notes == a.notes
            && GoodBlocks(c, b.blocks) && GoodLetters(c, b)
  {
    hide Do, StageAt, OutputAt, Sort, IndexOf, Heard;
    var b := Do(c, a, i, input);
    NotDrawn(c, a, i);
    assert GoodProcess(c, a, i);
    DrawMove(c, a, i, input);
    forall k | 0 <= k < |Current(a.blocks)| ensures Current(a.blocks)[k].from != i {
      assert !Drew(Current(a.blocks), i);
    }
    forall k | 0 <= k < |Current(b.blocks)| ensures GoodLetter(c, b, Current(b.blocks)[k]) {
      assert k < |Current(a.blocks)| ==> GoodLetter(c, a, Current(a.blocks)[k]);
    }
  }

  /** Bogatir j when bogatir i draws v. */
  lemma DrawSeen(c: Config, blocks: seq<Block>, i: nat, v: int, j: nat, p: Process, stream: seq<int>)
    requires |blocks| >= 1 && j != i && !Decisive(c, blocks)
    requires ProcessAt(c, blocks, j, p, stream, [])
    ensures ProcessAt(c, blocks[Last(blocks) := Current(blocks) + [Letter(i, v)]], j, p, stream + [v], [])
  {
    var later := blocks[Last(blocks) := Current(blocks) + [Letter(i, v)]];
    HeardAppend(Current(blocks), Letter(i, v), j);
    if !p.loc.Draw? {
      var k :| 0 <= k < |blocks[p.round]| && blocks[p.round][k] == Letter(j, p.myval);
      assert later[p.round][k] == Letter(j, p.myval);
    }
    if p.loc.Collect? {
      var h := Heard(blocks[p.round], j);
      var l := Later(blocks, j, p.round, []);
      AppendMany(p.values[1..], stream, h, l, [v]);
      if p.round < Last(blocks) {
        assert Later(later, j, p.round, []) == l + [v];
      } else {
        assert Later(later, j, p.round, []) == [] && l == [];
        assert Heard(later[p.round], j) + [] == h + (l + [v]);
      }
    }
  }

  lemma DrawOwn(c: Config, blocks: seq<Block>, i: nat, v: int, p: Process, stream: seq<int>)
    requires |blocks| >= 1 && p.loc.Draw? && c.n >= 1
    requires ProcessAt(c, blocks, i, p, stream, [])
    ensures ProcessAt(c, blocks[Last(blocks) := Current(blocks) + [Letter(i, v)]], i,
                      p.(loc := Collect, myval := v, values := [v]), stream, [])
  {
    var later := blocks[Last(blocks) := Current(blocks) + [Letter(i, v)]];
    HeardAppend(Current(blocks), Letter(i, v), i);
    assert Current(later)[|Current(blocks)|] == Letter(i, v);
    assert [v][1..] + stream == Heard(Current(later), i) + Later(later, i, p.round, []);
  }

  lemma DrawKeeps(c: Config, a: Circle, i: nat, input: Input)
    requires Inv(c, a) && Can(c, a, i, input) && a.processes[i].loc.Draw?
    ensures Inv(c, Do(c, a, i, input))
  {
    hide Do, OutputAt, Sort, IndexOf, Heard, GoodLetters, GoodBlocks, ProcessAt;
    var b := Do(c, a, i, input);
    DrawBlocks(c, a, i, input);
    NotDrawn(c, a, i);
    StillDrawing(c, a, i);
    DrawMove(c, a, i, input);
    forall j | 0 <= j < c.n ensures GoodProcess(c, b, j) {
      assert GoodProcess(c, a, j);
      if j == i {
        DrawOwn(c, a.blocks, i, input.v, a.processes[i], a.streams[i]);
      } else {
        DrawSeen(c, a.blocks, i, input.v, j, a.processes[j], a.streams[j]);
      }
    }
    if Decisive(c, b.blocks) {
      DrawEnds(c, a, b, i);
    }
  }

  lemma StillDrawing(c: Config, a: Circle, i: nat)
    requires Inv(c, a) && i < c.n && a.processes[i].loc.Draw?
    ensures a.processes[i].round == Last(a.blocks) && a.notes[i] == []
  {
    assert GoodProcess(c, a, i);
  }

  /** When the last bogatir has drawn, everyone is collecting. */
  lemma DrawEnds(c: Config, a: Circle, b: Circle, i: nat)
    requires Inv(c, a) && i < c.n && Sized(c, b) && !Decisive(c, a.blocks)
    requires forall j :: 0 <= j < c.n && j != i ==> b.processes[j] == a.processes[j]
    requires b.processes[i].loc.Collect? && |b.blocks| == |a.blocks|
    requires GoodBlocks(c, b.blocks) && GoodLetters(c, b) && Decisive(c, b.blocks)
    ensures forall j :: 0 <= j < c.n ==> b.processes[j].loc.Collect?
  {
    hide StageAt, OutputAt, Sort, IndexOf, Heard;
    forall j | 0 <= j < c.n ensures b.processes[j].loc.Collect? {
      BlockFull(c.n, Current(b.blocks));
      assert Drew(Current(b.blocks), j);
      var k :| 0 <= k < |Current(b.blocks)| && Current(b.blocks)[k].from == j;
      assert GoodLetter(c, b, Current(b.blocks)[k]);
      assert GoodProcess(c, a, j);
    }
  }

  lemma HearOwn(c: Config, blocks: seq<Block>, i: nat, p: Process, stream: seq<int>, notes: seq<int>)
    requires |blocks| >= 1 && p.loc.Collect? && |p.values| < c.n && stream != []
    requires ProcessAt(c, blocks, i, p, stream, notes)
    ensures ProcessAt(c, blocks, i, p.(values := p.values + [stream[0]]), stream[1..], notes)
  {
    var values := p.values + [stream[0]];
    assert values[1..] + stream[1..] == p.values[1..] + stream;
  }

  lemma HearKeeps(c: Config, a: Circle, i: nat, input: Input)
    requires Inv(c, a) && Can(c, a, i, input)
    requires a.processes[i].loc.Collect? && input.Got?
    ensures Inv(c, Do(c, a, i, input))
  {
    hide Do, StageAt, OutputAt, Sort, IndexOf, Heard, GoodLetters, GoodBlocks;
    var b := Do(c, a, i, input);
    assert GoodProcess(c, a, i);
    HearMove(c, a, i, input);
    HearOwn(c, a.blocks, i, a.processes[i], a.streams[i], a.notes[i]);
    if Decisive(c, a.blocks) {
      var rank := Rank(a.blocks, a.processes[i].myval);
      assert StageAt(c, a.stage, a.processes[i], rank, a.notes[i]);
      HearStage(c, a.stage, a.processes[i], b.processes[i], rank, a.notes[i]);
    }
    FrameOne(c, a, b, i);
  }

  lemma HearStage(c: Config, stage: Stage, p: Process, q: Process, rank: int, notes: seq<int>)
    requires StageAt(c, stage, p, rank, notes) && p.loc.Collect? && q.loc.Collect?
    ensures StageAt(c, stage, q, rank, notes)
  {
  }

  /** A repeated value, in a round others have left already: back to drawing in their round. */
  lemma RetryOld(c: Config, a: Circle, i: nat, input: Input)
    requires Inv(c, a) && Can(c, a, i, input)
    requires a.processes[i].loc.Collect? && input.Tick? && !NoRepeats(Sort(a.processes[i].values))
    requires a.processes[i].round < Last(a.blocks)
    ensures Inv(c, Do(c, a, i, input))
  {
    hide Do, StageAt, OutputAt, Sort, IndexOf;
    var b := Do(c, a, i, input);
    NotDrawn(c, a, i);
    assert GoodProcess(c, a, i);
    ConcludeMove(c, a, i, input);
    CircleIsolation(c, a, i);
    forall k | 0 <= k < |Current(b.blocks)| ensures GoodLetter(c, b, Current(b.blocks)[k]) {
      assert GoodLetter(c, a, Current(a.blocks)[k]);
    }
    forall j | 0 <= j < c.n ensures GoodProcess(c, b, j) {
      assert GoodProcess(c, a, j);
    }
  }

  /** When a full round with a repeated value is left for the first time, the stream of everyone
      still in it ends with that round. */
  lemma OpenSeen(c: Config, blocks: seq<Block>, j: nat, p: Process, stream: seq<int>)
    requires |blocks| >= 1 && p.loc.Collect? && p.round == Last(blocks)
    requires ProcessAt(c, blocks, j, p, stream, [])
    ensures ProcessAt(c, blocks + [[]], j, p, stream, [])
  {
    assert Later(blocks + [[]], j, p.round, []) == Later(blocks, j, p.round, []);
    assert (blocks + [[]])[p.round] == blocks[p.round];
  }

  lemma OpenBlocks(c: Config, blocks: seq<Block>)
    requires |blocks| >= 1 && GoodBlocks(c, blocks)
    requires |Current(blocks)| == c.n && !Decisive(c, blocks)
    ensures GoodBlocks(c, blocks + [[]])
  {
  }

  /** The bogatir that opens the next round, and the history it leaves. */
  lemma OpenRound(c: Config, a: Circle, i: nat, input: Input)
    requires Inv(c, a) && Can(c, a, i, input)
    requires a.processes[i].loc.Collect? && input.Tick? && !NoRepeats(Sort(a.processes[i].values))
    requires a.processes[i].round == Last(a.blocks)
    ensures |Current(a.blocks)| == c.n && !Decisive(c, a.blocks) && a.streams[i] == []
    ensures Do(c, a, i, input)
            == a.(processes := a.processes[i := Conclude(a.processes[i])], blocks := a.blocks + [[]])
  {
    hide Do, StageAt, OutputAt, Sort, IndexOf, Heard, GoodLetters;
    assert GoodProcess(c, a, i);
    ConcludeMove(c, a, i, input);
    CircleAgreement(c, a, i);
    CircleIsolation(c, a, i);
  }

  /** A repeated value, noticed first by this bogatir: it opens the next round. */
  lemma RetryNew(c: Config, a: Circle, i: nat, input: Input)
    requires Inv(c, a) && Can(c, a, i, input)
    requires a.processes[i].loc.Collect? && input.Tick? && !NoRepeats(Sort(a.processes[i].values))
    requires a.processes[i].round == Last(a.blocks)
    ensures Inv(c, Do(c, a, i, input))
  {
    hide Do, StageAt, OutputAt, Sort, IndexOf, GoodBlocks;
    var b := Do(c, a, i, input);
    OpenRound(c, a, i, input);
    OpenBlocks(c, a.blocks);
    forall j | 0 <= j < c.n ensures GoodProcess(c, b, j) {
      assert GoodProcess(c, a, j);
      AllDrawn(c, a, j);
      if j != i {
        OpenSeen(c, a.blocks, j, a.processes[j], a.streams[j]);
      }
    }
  }

  /** The rank loop's result, and that nothing else changes. */
  lemma TakeRank(c: Config, a: Circle, i: nat, input: Input)
    requires Inv(c, a) && Can(c, a, i, input)
    requires a.processes[i].loc.Collect? && input.Tick? && NoRepeats(Sort(a.processes[i].values))
    ensures var b := Do(c, a, i, input);
            && b == a.(processes := a.processes[i := Conclude(a.processes[i])])
            && a.processes[i].round == Last(a.blocks) && Decisive(c, a.blocks)
            && a.streams[i] == a.notes[i]
            && Conclude(a.processes[i]).rank == Rank(a.blocks, a.processes[i].myval)
  {
    hide Do, Heard, GoodLetters, GoodStage, OutputAt, NoRepeats;
    assert GoodProcess(c, a, i);
    ConcludeMove(c, a, i, input);
    CircleAgreement(c, a, i);
    CircleIsolation(c, a, i);
    assert [] + a.notes[i] == a.notes[i];
  }

  /** No repeated value: the place of the own value becomes the rank. */
  lemma ElectKeeps(c: Config, a: Circle, i: nat, input: Input)
    requires Inv(c, a) && Can(c, a, i, input)
    requires a.processes[i].loc.Collect? && input.Tick? && NoRepeats(Sort(a.processes[i].values))
    ensures Inv(c, Do(c, a, i, input))
  {
    hide Do, OutputAt, Sort, IndexOf, Heard, GoodLetters, GoodBlocks, StageAt;
    var b := Do(c, a, i, input);
    TakeRank(c, a, i, input);
    RanksDiffer(c, a, i, i);
    assert GoodProcess(c, a, i);
    var rank := Rank(a.blocks, a.processes[i].myval);
    assert StageAt(c, a.stage, a.processes[i], rank, a.notes[i]);
    ElectStage(c, a.stage, a.processes[i], b.processes[i], rank, a.notes[i]);
    FrameOne(c, a, b, i);
  }

  lemma ElectStage(c: Config, stage: Stage, p: Process, q: Process, rank: int, notes: seq<int>)
    requires StageAt(c, stage, p, rank, notes) && p.loc.Collect?
    requires q.loc == if rank == 0 then LeaderLoop(0) else FollowerWait
    ensures StageAt(c, stage, q, rank, notes)
  {
  }

  // ---------- printing ----------

  lemma QuietAppend(notes: seq<int>, symbol: int, x: int)
    requires Quiet(notes, symbol)
    ensures x != 0 && x != symbol ==> Quiet(notes + [x], symbol)
    ensures EndsWith(notes + [x], symbol, x)
  {
    assert (notes + [x])[..|notes|] == notes;
  }

  /** A printing move as its mover sees it. */
  lemma PrintOwn(c: Config, stage: Stage, p: Process, input: Input, notes: seq<int>)
    requires ValidConfig(c) && Accepts(c.n, c.text, p, input) && !Electing(p)
    requires p.rank >= 0 && (p.rank == 0 <==> Leading(p))
    requires StageAt(c, stage, p, p.rank, notes)
    requires input.Got? ==> notes != [] && notes[0] == input.v
    ensures var q := Step(c.n, c.text, p, input).process;
            && StageAt(c, NextStage(c, stage, p), q, p.rank, if input.Got? then notes[1..] else notes)
            && !Electing(q) && q.rank == p.rank && q.round == p.round && q.myval == p.myval
            && (q.rank == 0 <==> Leading(q))
  {
    if p.loc.FollowerWait? {
      hide EndsWith, Quiet;
      DropNote(notes, FIRST_SYMBOL + p.rank);
    }
  }

  /** What hearing one message leaves of what a follower still has to hear. */
  lemma DropNote(notes: seq<int>, symbol: int)
    requires notes != []
    ensures Quiet(notes, symbol) ==> notes[0] != 0 && notes[0] != symbol && Quiet(notes[1..], symbol)
    ensures forall last :: EndsWith(notes, symbol, last) ==>
              if |notes| == 1 then notes[0] == last && Quiet(notes[1..], symbol) && notes[1..] == []
              else notes[0] != 0 && notes[0] != symbol && EndsWith(notes[1..], symbol, last)
  {
    if |notes| > 1 {
      assert notes[..|notes| - 1][1..] == notes[1..][..|notes| - 2];
      assert notes[..|notes| - 1][0] == notes[0];
    }
  }

  /** A printing move as another bogatir sees it. */
  lemma PrintSeen(c: Config, stage: Stage, p: Process, input: Input, pnotes: seq<int>,
                  q: Process, rank: int, notes: seq<int>)
    requires ValidConfig(c) && Accepts(c.n, c.text, p, input) && !Electing(p)
    requires p.rank >= 0 && (p.rank == 0 <==> Leading(p)) && rank >= 0 && rank != p.rank
    requires StageAt(c, stage, p, p.rank, pnotes) && StageAt(c, stage, q, rank, notes)
    requires input.Got? ==> pnotes != []
    ensures StageAt(c, NextStage(c, stage, p), q, rank, notes + Step(c.n, c.text, p, input).sent)
  {
    var e := Step(c.n, c.text, p, input);
    if e.sent == [] {
      assert notes + e.sent == notes;
    } else if rank != 0 {
      PrintHeard(c, stage, p, pnotes, q, rank, notes);
    }
  }

  /** A printing message reaches a follower that does not send it. */
  lemma PrintHeard(c: Config, stage: Stage, p: Process, pnotes: seq<int>,
                   q: Process, rank: int, notes: seq<int>)
    requires ValidConfig(c) && Accepts(c.n, c.text, p, Tick) && !Electing(p)
    requires p.rank >= 0 && (p.rank == 0 <==> Leading(p)) && rank > 0 && rank != p.rank
    requires StageAt(c, stage, p, p.rank, pnotes) && FollowerAt(c, stage, q, FIRST_SYMBOL + rank, notes)
    requires Step(c.n, c.text, p, Tick).sent != []
    ensures FollowerAt(c, NextStage(c, stage, p), q, FIRST_SYMBOL + rank,
                       notes + Step(c.n, c.text, p, Tick).sent)
  {
    var x := Step(c.n, c.text, p, Tick).sent[0];
    var symbol := FIRST_SYMBOL + rank;
    assert stage.Turn? || stage.Newlined? || stage.Printed?;
    assert Quiet(notes, symbol) && Waiting(q);
    QuietAppend(notes, symbol, x);
  }

  lemma PrintOutput(c: Config, stage: Stage, p: Process, input: Input, notes: seq<int>, output: seq<int>)
    requires Accepts(c.n, c.text, p, input) && !Electing(p)
    requires (p.rank == 0 <==> Leading(p)) && StageAt(c, stage, p, p.rank, notes)
    requires input.Got? ==> notes != []
    requires OutputAt(c, stage, output)
    ensures OutputAt(c, NextStage(c, stage, p), output + Step(c.n, c.text, p, input).printed)
  {
    var e := Step(c.n, c.text, p, input);
    if e.printed == [] {
      assert output + e.printed == output;
    } else if p.loc == LeaderLoop(|c.text|) {
      assert c.text[..|c.text|] == c.text;
    } else {
      var pos := if p.loc.LeaderLoop? then p.loc.pos else stage.pos;
      assert c.text[..pos + 1] == c.text[..pos] + [c.text[pos]];
    }
  }

  /** Bogatir j, still collecting or done electing, when a printing message joins its stream. */
  lemma PrintProcess(c: Config, blocks: seq<Block>, j: nat, p: Process, stream: seq<int>,
                     notes: seq<int>, sent: seq<int>)
    requires |blocks| >= 1 && ProcessAt(c, blocks, j, p, stream, notes) && !p.loc.Draw?
    ensures ProcessAt(c, blocks, j, p, stream + sent, notes + sent)
  {
    if p.loc.Collect? {
      var h := Heard(blocks[p.round], j);
      var l := if p.round < Last(blocks) then Heard(Current(blocks), j) else [];
      AppendMany(p.values[1..], stream, h, l + notes, sent);
      assert (l + notes) + sent == l + (notes + sent);
    }
  }

  lemma PrintKeeps(c: Config, a: Circle, i: nat, input: Input)
    requires Inv(c, a) && Can(c, a, i, input) && !Electing(a.processes[i])
    ensures Inv(c, Do(c, a, i, input))
  {
    hide Do, Step, StageAt, NextStage, OutputAt, Sort, IndexOf, Heard, GoodLetters, GoodBlocks, Accepts;
    var b := Do(c, a, i, input);
    var p := a.processes[i];
    var e := Step(c.n, c.text, p, input);
    assert GoodProcess(c, a, i);
    RanksDiffer(c, a, i, i);
    PrintMove(c, a, i, input);
    assert StageAt(c, a.stage, p, p.rank, a.notes[i]);
    PrintOwn(c, a.stage, p, input, a.notes[i]);
    PrintOutput(c, a.stage, p, input, a.notes[i], a.output);
    FrameLetters(c, a, b);
    forall j | 0 <= j < c.n ensures GoodProcess(c, b, j) {
      assert GoodProcess(c, a, j);
      AllDrawn(c, a, j);
      if j != i {
        PrintProcess(c, a.blocks, j, a.processes[j], a.streams[j], a.notes[j], e.sent);
      }
    }
    assert GoodStage(c, b) by {
      forall j | 0 <= j < c.n
        ensures StageAt(c, b.stage, b.processes[j], Rank(b.blocks, b.processes[j].myval), b.notes[j])
      {
        RanksDiffer(c, a, i, j);
        RanksDiffer(c, a, j, i);
        var rank := Rank(a.blocks, a.processes[j].myval);
        assert StageAt(c, a.stage, a.processes[j], rank, a.notes[j]);
        if j != i {
          PrintSeen(c, a.stage, p, input, a.notes[i], a.processes[j], rank, a.notes[j]);
        }
      }
    }
  }

  /** Every move of every bogatir keeps the invariant. */
  lemma DoKeeps(c: Config, a: Circle, i: nat, input: Input)
    requires Inv(c, a) && Can(c, a, i, input)
    ensures Inv(c, Do(c, a, i, input))
  {
    var p := a.processes[i];
    assert GoodProcess(c, a, i);
    if p.loc.Draw? {
      DrawKeeps(c, a, i, input);
    } else if !p.loc.Collect? {
      PrintKeeps(c, a, i, input);
    } else if input.Got? {
      HearKeeps(c, a, i, input);
    } else if NoRepeats(Sort(p.values)) {
      ElectKeeps(c, a, i, input);
    } else if p.round < Last(a.blocks) {
      RetryOld(c, a, i, input);
    } else {
      RetryNew(c, a, i, input);
    }
  }
}
