/** The program as it runs: bogatirs and the relay loop of main around one message queue.
    Messages carry no round and no phase.  A run is a sequence of actions, in any order the
    scheduler may choose. */
module BogatiryaRelay {
  import opened Sequences
  import opened MessageQueue
  import opened BogatiryaProcess
  import opened BogatiryaCircle
  import opened BogatiryaCircleProofs

  const MAIN_MTYPE := 1

  function GenMtypeFromMain(id: nat): int
  {
    3 + id
  }

  /** The relay loop: waiting for a message, sending it on (next is the loop variable), or past
      the loop. */
  datatype Relay = Receiving | Sending(letter: Letter, next: nat) | Closed

  datatype System = System(queue: Queue<Letter>, processes: seq<Process>, relay: Relay, output: seq<int>)

  datatype Action = Move(i: nat, input: Input) | Forward

  function Init(c: Config): System
  {
    System([], seq(c.n, _ => START), Receiving, [])
  }

  predicate Enabled(c: Config, s: System, action: Action)
  {
    match action
    case Move(i, input) =>
      && i < c.n == |s.processes|
      && Accepts(c.n, c.text, s.processes[i], input)
      && (input.Got? ==>
            Of(s.queue, GenMtypeFromMain(i)) != [] && Of(s.queue, GenMtypeFromMain(i))[0].value == input.v)
    case Forward =>
      match s.relay
      case Receiving => Of(s.queue, MAIN_MTYPE) != []
      case Sending(_, _) => true
      case Closed => false
  }

  function SendAll(q: Queue<Letter>, from: nat, sent: seq<int>): Queue<Letter>
    decreases sent
  {
    if sent == [] then q else SendAll(Send(q, MAIN_MTYPE, Letter(from, sent[0])), from, sent[1..])
  }

  function Apply(c: Config, s: System, action: Action): System
    requires Enabled(c, s, action)
  {
    match action
    case Move(i, input) =>
      var e := Step(c.n, c.text, s.processes[i], input);
      var q := if input.Got? then Remove(s.queue, GenMtypeFromMain(i)) else s.queue;
      s.(queue := SendAll(q, i, e.sent), processes := s.processes[i := e.process],
         output := s.output + e.printed)
    case Forward =>
      match s.relay
      case Receiving =>
        s.(queue := Remove(s.queue, MAIN_MTYPE), relay := Sending(Of(s.queue, MAIN_MTYPE)[0], 0))
      case Sending(letter, next) =>
        if next >= c.n then s.(relay := if letter.value == 0 then Closed else Receiving)
        else if next == letter.from then s.(relay := Sending(letter, next + 1))
        else s.(queue := Send(s.queue, GenMtypeFromMain(next), Letter(0, letter.value)),
                relay := Sending(letter, next + 1))
      case Closed => s
  }

  // ---------- runs ----------

  predicate Valid(c: Config, run: seq<Action>)
    decreases |run|, 0
  {
    run == []
    || (Valid(c, run[..|run| - 1])
        && Enabled(c, Exec(c, run[..|run| - 1]), run[|run| - 1]))
  }

  function Exec(c: Config, run: seq<Action>): (s: System)
    requires Valid(c, run)
    ensures |s.processes| == c.n
    decreases |run|, 1
  {
    if run == [] then Init(c)
    else Apply(c, Exec(c, run[..|run| - 1]), run[|run| - 1])
  }

  /** The same run on the circle: the relay's actions are nothing there. */
  function Shadow(c: Config, run: seq<Action>): (a: Circle)
    ensures |a.blocks| >= 1
  {
    if run == [] then Start(c)
    else
      var a := Shadow(c, run[..|run| - 1]);
      match run[|run| - 1]
      case Move(i, input) => if Can(c, a, i, input) then Do(c, a, i, input) else a
      case Forward => a
  }

  // ---------- the relay is an atomic broadcast ----------

  /** Letters bogatir i will still be sent by the relay. */
  function Undelivered(q: Queue<Letter>, relay: Relay, i: nat): seq<Letter>
  {
    (if relay.Sending? && relay.next <= i then [relay.letter] else []) + Of(q, MAIN_MTYPE)
  }

  function Inbox(q: Queue<Letter>, i: nat): seq<int>
  {
    Values(Of(q, GenMtypeFromMain(i)))
  }

  /** What bogatir i is still to receive of everything sent so far. */
  function Stream(q: Queue<Letter>, relay: Relay, i: nat): seq<int>
  {
    Inbox(q, i) + Heard(Undelivered(q, relay, i), i)
  }

  predicate Simulates(c: Config, s: System, a: Circle)
  {
    && Sized(c, a)
    && s.processes == a.processes && s.output == a.output
    && forall i :: 0 <= i < c.n ==> a.streams[i] == Stream(s.queue, s.relay, i)
  }

  /** Letters sent by a bogatir and not yet taken by the relay, and the one it is sending on. */
  function InFlight(s: System): seq<Letter>
  {
    (if s.relay.Sending? then [s.relay.letter] else []) + Of(s.queue, MAIN_MTYPE)
  }

  /** The relay stops after the leader's 0 and not before, with nothing left to relay. */
  predicate Shutting(relay: Relay, f: seq<Letter>, stage: Stage)
  {
    if stage != Over then
      relay != Closed && forall k :: 0 <= k < |f| ==> f[k].value != 0
    else if relay == Closed then f == []
    else
      && f != [] && f[|f| - 1].value == 0
      && forall k :: 0 <= k < |f| - 1 ==> f[k].value != 0
  }

  predicate Addressed(c: Config, q: Queue<Letter>)
  {
    forall k :: 0 <= k < |q| ==>
      q[k].mtype == MAIN_MTYPE || GenMtypeFromMain(0) <= q[k].mtype < GenMtypeFromMain(c.n)
  }

  predicate Linked(c: Config, s: System, a: Circle)
  {
    Inv(c, a) && Simulates(c, s, a) && Shutting(s.relay, InFlight(s), a.stage) && Addressed(c, s.queue)
  }

  lemma SendOne(q: Queue<Letter>, from: nat, sent: seq<int>)
    requires |sent| <= 1
    ensures SendAll(q, from, sent) == if sent == [] then q else Send(q, MAIN_MTYPE, Letter(from, sent[0]))
  {
    if sent != [] {
      assert sent[1..] == [];
    }
  }

  lemma PopStream(q: Queue<Letter>, relay: Relay, i: nat, j: nat)
    requires Of(q, GenMtypeFromMain(i)) != []
    ensures var v := Of(q, GenMtypeFromMain(i))[0].value;
            && Stream(q, relay, i) != [] && Stream(q, relay, i)[0] == v
            && Stream(Remove(q, GenMtypeFromMain(i)), relay, j)
               == if j == i then Stream(q, relay, i)[1..] else Stream(q, relay, j)
  {
    hide Of, Remove, Heard;
    var r := Remove(q, GenMtypeFromMain(i));
    OfRemove(q, GenMtypeFromMain(i));
    assert Inbox(q, i) == [Of(q, GenMtypeFromMain(i))[0].value] + Inbox(r, i);
    assert Undelivered(r, relay, j) == Undelivered(q, relay, j);
    if j == i {
      var x, y, z := [Of(q, GenMtypeFromMain(i))[0].value], Inbox(r, i), Heard(Undelivered(q, relay, i), i);
      Assoc(x, y, z);
      assert (x + (y + z))[1..] == y + z;
    }
  }

  lemma PostStream(q: Queue<Letter>, relay: Relay, i: nat, v: int, j: nat)
    ensures Stream(Send(q, MAIN_MTYPE, Letter(i, v)), relay, j)
            == if j == i then Stream(q, relay, j) else Stream(q, relay, j) + [v]
  {
    OfSend(q, MAIN_MTYPE, Letter(i, v));
    HeardAppend(Undelivered(q, relay, j), Letter(i, v), j);
    assert Undelivered(Send(q, MAIN_MTYPE, Letter(i, v)), relay, j)
        == Undelivered(q, relay, j) + [Letter(i, v)];
  }

  /** A bogatir's own traffic: the move pops its stream and appends to everyone else's. */
  lemma MoveStream(c: Config, s: System, i: nat, input: Input, j: nat)
    requires Enabled(c, s, Move(i, input)) && j < c.n
    ensures var sent := Step(c.n, c.text, s.processes[i], input).sent;
            Stream(Apply(c, s, Move(i, input)).queue, s.relay, j)
            == if j != i then Stream(s.queue, s.relay, j) + sent
               else if input.Got? then Stream(s.queue, s.relay, j)[1..]
               else Stream(s.queue, s.relay, j)
    ensures input.Got? ==>
              Stream(s.queue, s.relay, i) != [] && Stream(s.queue, s.relay, i)[0] == input.v
  {
    var sent := Step(c.n, c.text, s.processes[i], input).sent;
    var q := if input.Got? then Remove(s.queue, GenMtypeFromMain(i)) else s.queue;
    if input.Got? {
      PopStream(s.queue, s.relay, i, i);
      PopStream(s.queue, s.relay, i, j);
    }
    SendOne(q, i, sent);
    if sent != [] {
      PostStream(q, s.relay, i, sent[0], j);
      assert sent == [sent[0]];
    }
  }

  /** A step of the relay changes nobody's stream. */
  lemma ForwardStream(c: Config, s: System, j: nat)
    requires Enabled(c, s, Forward) && j < c.n
    ensures Stream(Apply(c, s, Forward).queue, Apply(c, s, Forward).relay, j)
            == Stream(s.queue, s.relay, j)
  {
    hide Of, Remove, Heard, Send;
    var t := Apply(c, s, Forward);
    match s.relay {
      case Receiving =>
        OfRemove(s.queue, MAIN_MTYPE);
        assert Undelivered(t.queue, t.relay, j) == Undelivered(s.queue, s.relay, j);
      case Sending(letter, next) =>
        if next < c.n && next != letter.from {
          OfSend(s.queue, GenMtypeFromMain(next), Letter(0, letter.value));
        }
        if next == j {
          HeardFirst(letter, Of(s.queue, MAIN_MTYPE), j);
          if next != letter.from {
            assert Inbox(t.queue, j) == Inbox(s.queue, j) + [letter.value];
          }
          assert Undelivered(t.queue, t.relay, j) == Of(s.queue, MAIN_MTYPE);
        } else {
          assert Undelivered(t.queue, t.relay, j) == Undelivered(s.queue, s.relay, j);
        }
    }
  }

  lemma MoveSimulates(c: Config, s: System, a: Circle, i: nat, input: Input)
    requires Simulates(c, s, a) && Enabled(c, s, Move(i, input))
    ensures Can(c, a, i, input)
    ensures Simulates(c, Apply(c, s, Move(i, input)), Do(c, a, i, input))
  {
    MoveStream(c, s, i, input, i);
    assert a.streams[i] == Stream(s.queue, s.relay, i);
    forall j | 0 <= j < c.n
      ensures Do(c, a, i, input).streams[j]
              == Stream(Apply(c, s, Move(i, input)).queue, s.relay, j)
    {
      MoveStream(c, s, i, input, j);
    }
    assert Sized(c, Do(c, a, i, input));
  }

  lemma ForwardSimulates(c: Config, s: System, a: Circle)
    requires Simulates(c, s, a) && Enabled(c, s, Forward)
    ensures Simulates(c, Apply(c, s, Forward), a)
  {
    forall j | 0 <= j < c.n
      ensures a.streams[j] == Stream(Apply(c, s, Forward).queue, Apply(c, s, Forward).relay, j)
    {
      ForwardStream(c, s, j);
    }
  }

  // ---------- shutting down ----------

  /** Only the leader's last move sends a 0, and nothing is sent after it. */
  lemma SentPrinting(c: Config, stage: Stage, p: Process, input: Input, notes: seq<int>)
    requires ValidConfig(c) && Accepts(c.n, c.text, p, input) && !Electing(p) && p.rank >= 0
    requires (p.rank == 0 <==> Leading(p)) && StageAt(c, stage, p, p.rank, notes)
    ensures var sent := Step(c.n, c.text, p, input).sent;
            && |sent| <= 1
            && (sent != [] ==>
                  stage != Over && (sent[0] == 0 <==> NextStage(c, stage, p) == Over))
            && (sent == [] ==> (stage == Over <==> NextStage(c, stage, p) == Over))
  {
  }

  lemma SentValue(c: Config, a: Circle, i: nat, input: Input)
    requires Inv(c, a) && Can(c, a, i, input)
    ensures var sent := Step(c.n, c.text, a.processes[i], input).sent;
            && |sent| <= 1
            && (sent != [] ==>
                  a.stage != Over && (sent[0] == 0 <==> Do(c, a, i, input).stage == Over))
            && (sent == [] ==> (a.stage == Over <==> Do(c, a, i, input).stage == Over))
  {
    var p := a.processes[i];
    assert GoodProcess(c, a, i);
    if p.loc.Draw? {
      NotDrawn(c, a, i);
    } else if !Electing(p) {
      RanksDiffer(c, a, i, i);
      SentPrinting(c, a.stage, p, input, a.notes[i]);
    }
  }

  lemma MoveInFlight(c: Config, s: System, i: nat, input: Input)
    requires Enabled(c, s, Move(i, input)) && |Step(c.n, c.text, s.processes[i], input).sent| <= 1
    ensures var sent := Step(c.n, c.text, s.processes[i], input).sent;
            InFlight(Apply(c, s, Move(i, input)))
            == InFlight(s) + if sent == [] then [] else [Letter(i, sent[0])]
  {
    var sent := Step(c.n, c.text, s.processes[i], input).sent;
    var q := if input.Got? then Remove(s.queue, GenMtypeFromMain(i)) else s.queue;
    if input.Got? {
      OfRemove(s.queue, GenMtypeFromMain(i));
    }
    assert Of(q, MAIN_MTYPE) == Of(s.queue, MAIN_MTYPE);
    SendOne(q, i, sent);
    if sent != [] {
      OfSend(q, MAIN_MTYPE, Letter(i, sent[0]));
    }
  }

  lemma MoveShutting(c: Config, s: System, a: Circle, i: nat, input: Input)
    requires Linked(c, s, a) && Enabled(c, s, Move(i, input)) && Can(c, a, i, input)
    ensures Shutting(s.relay, InFlight(Apply(c, s, Move(i, input))), Do(c, a, i, input).stage)
  {
    hide Inv, Step, Do, Enabled, Apply, Of;
    SentValue(c, a, i, input);
    MoveInFlight(c, s, i, input);
  }

  lemma ForwardShutting(c: Config, s: System, stage: Stage)
    requires Shutting(s.relay, InFlight(s), stage) && Enabled(c, s, Forward)
    ensures Shutting(Apply(c, s, Forward).relay, InFlight(Apply(c, s, Forward)), stage)
  {
    hide InFlight;
    ForwardInFlight(c, s);
    if s.relay.Sending? && s.relay.next >= c.n {
      ShuttingPops(s.relay, s.relay.letter, InFlight(Apply(c, s, Forward)), stage);
    } else {
      assert [] + InFlight(Apply(c, s, Forward)) == InFlight(Apply(c, s, Forward));
    }
  }

  /** A step of the relay keeps what is in flight, or is done with the letter it was sending on. */
  lemma ForwardInFlight(c: Config, s: System)
    requires Enabled(c, s, Forward)
    ensures InFlight(s)
         == (if s.relay.Sending? && s.relay.next >= c.n then [s.relay.letter] else [])
            + InFlight(Apply(c, s, Forward))
  {
    hide Of, Remove, Send;
    match s.relay {
      case Receiving =>
        OfRemove(s.queue, MAIN_MTYPE);
      case Sending(letter, next) =>
        if next < c.n && next != letter.from {
          OfSend(s.queue, GenMtypeFromMain(next), Letter(0, letter.value));
        }
    }
  }

  lemma ShuttingPops(relay: Relay, letter: Letter, rest: seq<Letter>, stage: Stage)
    requires relay.Sending? && Shutting(relay, [letter] + rest, stage)
    ensures Shutting(if letter.value == 0 then Closed else Receiving, rest, stage)
  {
    var f := [letter] + rest;
    assert f[0] == letter && forall k :: 0 <= k < |rest| ==> rest[k] == f[k + 1];
  }

  lemma RemoveAddressed(c: Config, q: Queue<Letter>, t: int)
    requires Addressed(c, q) && Of(q, t) != []
    ensures Addressed(c, Remove(q, t))
  {
    RemoveOne(q, t);
    var r := Remove(q, t);
    forall k | 0 <= k < |r|
      ensures r[k].mtype == MAIN_MTYPE || GenMtypeFromMain(0) <= r[k].mtype < GenMtypeFromMain(c.n)
    {
      assert r[k] in multiset(r);
      assert r[k] in multiset(q);
    }
  }

  lemma MoveLinked(c: Config, s: System, a: Circle, i: nat, input: Input)
    requires Linked(c, s, a) && Enabled(c, s, Move(i, input))
    ensures Can(c, a, i, input)
    ensures Linked(c, Apply(c, s, Move(i, input)), Do(c, a, i, input))
  {
    hide Inv, Of, Step, Do, Stream, Shutting, InFlight;
    MoveSimulates(c, s, a, i, input);
    DoKeeps(c, a, i, input);
    MoveShutting(c, s, a, i, input);
    SentValue(c, a, i, input);
    MoveAddressed(c, s, i, input);
  }

  lemma MoveAddressed(c: Config, s: System, i: nat, input: Input)
    requires Enabled(c, s, Move(i, input)) && Addressed(c, s.queue)
    requires |Step(c.n, c.text, s.processes[i], input).sent| <= 1
    ensures Addressed(c, Apply(c, s, Move(i, input)).queue)
  {
    hide Step, Of, Remove;
    if input.Got? {
      RemoveAddressed(c, s.queue, GenMtypeFromMain(i));
    }
    var q := if input.Got? then Remove(s.queue, GenMtypeFromMain(i)) else s.queue;
    SendOne(q, i, Step(c.n, c.text, s.processes[i], input).sent);
  }

  lemma ForwardLinked(c: Config, s: System, a: Circle)
    requires Linked(c, s, a) && Enabled(c, s, Forward)
    ensures Linked(c, Apply(c, s, Forward), a)
  {
    ForwardSimulates(c, s, a);
    ForwardShutting(c, s, a.stage);
    if s.relay == Receiving {
      RemoveAddressed(c, s.queue, MAIN_MTYPE);
    }
  }

  /** Every run, in every interleaving, is the shadow run over an atomic broadcast. */
  lemma {:induction false} RunLinked(c: Config, run: seq<Action>)
    requires ValidConfig(c) && Valid(c, run)
    ensures Linked(c, Exec(c, run), Shadow(c, run))
  {
    if run == [] {
      InvStart(c);
      forall i | 0 <= i < c.n ensures Stream(Init(c).queue, Receiving, i) == [] {
        assert Undelivered([], Receiving, i) == [];
      }
    } else {
      var before := run[..|run| - 1];
      RunLinked(c, before);
      match run[|run| - 1] {
        case Move(i, input) => MoveLinked(c, Exec(c, before), Shadow(c, before), i, input);
        case Forward => ForwardLinked(c, Exec(c, before), Shadow(c, before));
      }
    }
  }
}
