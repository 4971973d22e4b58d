/** What the scheduler may choose: in every reachable state exactly the moves that the programs'
    own blocking calls leave open, and no action of one process takes an action of another away. */
module BogatiryaInterleaving {
  import opened Sequences
  import opened MessageQueue
  import opened BogatiryaProcess
  import opened BogatiryaCircle
  import opened BogatiryaCircleProofs
  import opened BogatiryaRelay
  import opened BogatiryaTheorems

  // ---------- what can happen ----------

  /** The bogatir is at one of its three msgrcv calls. */
  predicate AtReceive(n: nat, p: Process)
  {
    (p.loc.Collect? && |p.values| < n) || p.loc.LeaderAwait? || p.loc.FollowerWait?
  }

  function Mailbox(s: System, i: nat): seq<Letter>
  {
    Of(s.queue, GenMtypeFromMain(i))
  }

  /** The moves of bogatir i: at the draw any value but 0, at a receive the oldest message of its
      mailbox, nothing once it has exited, and otherwise its next step, whatever anyone else is
      doing. */
  predicate MovesOf(c: Config, s: System, i: nat, input: Input)
    requires i < |s.processes|
  {
    var p := s.processes[i];
    if p.loc.Exited? then false
    else if p.loc.Draw? then input.Drawn? && input.v != 0
    else if AtReceive(c.n, p) then Mailbox(s, i) != [] && input == Got(Mailbox(s, i)[0].value)
    else input == Tick
  }

  lemma PrintingPos(c: Config, a: Circle, i: nat)
    requires Inv(c, a) && i < c.n && a.processes[i].loc.LeaderLoop?
    ensures a.processes[i].loc.pos <= |c.text|
  {
    hide Sort, IndexOf, Heard, GoodLetters;
    assert GoodProcess(c, a, i);
    RanksDiffer(c, a, i, i);
    assert StageAt(c, a.stage, a.processes[i], 0, a.notes[i]);
  }

  /** In every reachable state a bogatir can do exactly that, and the relay loop is held up only by
      an empty mailbox or by its end. */
  lemma Schedules(c: Config, run: seq<Action>)
    requires ValidConfig(c) && Valid(c, run)
    ensures var s := Exec(c, run);
            && (forall i: nat, input :: i < c.n ==>
                  (Enabled(c, s, Move(i, input)) <==> MovesOf(c, s, i, input)))
            && (Enabled(c, s, Forward)
                <==> s.relay.Sending? || (s.relay.Receiving? && Of(s.queue, MAIN_MTYPE) != []))
  {
    hide Exec, Valid, Shadow, Inv, Shutting, InFlight, Addressed, Of;
    var s := Exec(c, run);
    RunLinked(c, run);
    forall i: nat, input | i < c.n
      ensures Enabled(c, s, Move(i, input)) <==> MovesOf(c, s, i, input)
    {
      if s.processes[i].loc.LeaderLoop? {
        PrintingPos(c, Shadow(c, run), i);
      }
    }
  }

  /** So a bogatir that has not exited is held up by nothing but an empty mailbox at a receive. */
  lemma NeverHeldUp(c: Config, run: seq<Action>, i: nat)
    requires ValidConfig(c) && Valid(c, run) && i < c.n
    requires var p := Exec(c, run).processes[i];
             !p.loc.Exited? && (AtReceive(c.n, p) ==> Mailbox(Exec(c, run), i) != [])
    ensures exists input :: Enabled(c, Exec(c, run), Move(i, input))
  {
    hide Exec, Valid, Enabled, Of;
    Schedules(c, run);
    var s := Exec(c, run);
    var p := s.processes[i];
    var input :=
      if p.loc.Draw? then Drawn(1) else if AtReceive(c.n, p) then Got(Mailbox(s, i)[0].value) else Tick;
    assert MovesOf(c, s, i, input);
  }

  // ---------- nothing gets in the way of anything else ----------

  predicate OtherProcess(action: Action, other: Action)
  {
    match action
    case Forward => other.Move?
    case Move(i, _) => other.Move? ==> other.i != i
  }

  /** The same processes, relay and output, and the same messages of every type, each oldest first. */
  ghost predicate SameButOrder(s: System, t: System)
  {
    && s.processes == t.processes && s.relay == t.relay && s.output == t.output
    && forall u :: Of(s.queue, u) == Of(t.queue, u)
  }

  /** What a move leaves of the messages of type t. */
  lemma MoveOf(c: Config, s: System, i: nat, input: Input, t: int)
    requires Enabled(c, s, Move(i, input))
    ensures var sent := Step(c.n, c.text, s.processes[i], input).sent;
            Of(Apply(c, s, Move(i, input)).queue, t)
            == (if input.Got? && t == GenMtypeFromMain(i) then Of(s.queue, t)[1..] else Of(s.queue, t))
               + (if t == MAIN_MTYPE && sent != [] then [Letter(i, sent[0])] else [])
  {
    hide Of, Remove, Send;
    var sent := Step(c.n, c.text, s.processes[i], input).sent;
    var q := if input.Got? then Remove(s.queue, GenMtypeFromMain(i)) else s.queue;
    if input.Got? {
      OfRemove(s.queue, GenMtypeFromMain(i));
    }
    SendOne(q, i, sent);
    if sent != [] {
      OfSend(q, MAIN_MTYPE, Letter(i, sent[0]));
    }
  }

  lemma ForwardOf(c: Config, s: System, t: int)
    requires Enabled(c, s, Forward)
    ensures Of(Apply(c, s, Forward).queue, t)
            == match s.relay
               case Receiving => if t == MAIN_MTYPE then Of(s.queue, t)[1..] else Of(s.queue, t)
               case Closed => Of(s.queue, t)
               case Sending(letter, next) =>
                 Of(s.queue, t)
                 + if next < c.n && next != letter.from && t == GenMtypeFromMain(next)
                   then [Letter(0, letter.value)] else []
  {
    hide Of, Remove, Send;
    match s.relay {
      case Receiving => OfRemove(s.queue, MAIN_MTYPE);
      case Sending(letter, next) =>
        if next < c.n && next != letter.from {
          OfSend(s.queue, GenMtypeFromMain(next), Letter(0, letter.value));
        }
    }
  }

  /** What one process can do it can still do after an action of another. */
  lemma StaysEnabled(c: Config, s: System, action: Action, other: Action)
    requires Enabled(c, s, action) && Enabled(c, s, other) && OtherProcess(action, other)
    ensures Enabled(c, Apply(c, s, other), action)
  {
    hide Of, Remove, Send, SendAll;
    var t := match action case Forward => MAIN_MTYPE case Move(i, _) => GenMtypeFromMain(i);
    match other {
      case Forward => ForwardOf(c, s, t);
      case Move(j, input) => MoveOf(c, s, j, input, t);
    }
  }

  /** The relay and a bogatir may act in either order, to the same effect. */
  lemma RelayCommutes(c: Config, s: System, i: nat, input: Input)
    requires Enabled(c, s, Move(i, input)) && Enabled(c, s, Forward)
    ensures Enabled(c, Apply(c, s, Forward), Move(i, input)) && Enabled(c, Apply(c, s, Move(i, input)), Forward)
    ensures SameButOrder(Apply(c, Apply(c, s, Move(i, input)), Forward),
                         Apply(c, Apply(c, s, Forward), Move(i, input)))
  {
    hide Of, Remove, Send, SendAll;
    var moved, relayed := Apply(c, s, Move(i, input)), Apply(c, s, Forward);
    StaysEnabled(c, s, Forward, Move(i, input));
    StaysEnabled(c, s, Move(i, input), Forward);
    MoveOf(c, s, i, input, MAIN_MTYPE);
    forall u ensures Of(Apply(c, moved, Forward).queue, u) == Of(Apply(c, relayed, Move(i, input)).queue, u) {
      MoveOf(c, s, i, input, u);
      ForwardOf(c, moved, u);
      ForwardOf(c, s, u);
      MoveOf(c, relayed, i, input, u);
    }
  }

  /** Two bogatirs may act in either order; only the relay can tell which one sent first. */
  lemma BogatirsCommute(c: Config, s: System, i: nat, input: Input, j: nat, other: Input)
    requires Enabled(c, s, Move(i, input)) && Enabled(c, s, Move(j, other)) && i != j
    ensures Enabled(c, Apply(c, s, Move(i, input)), Move(j, other))
    ensures Enabled(c, Apply(c, s, Move(j, other)), Move(i, input))
    ensures var t := Apply(c, Apply(c, s, Move(i, input)), Move(j, other));
            var u := Apply(c, Apply(c, s, Move(j, other)), Move(i, input));
            && t.processes == u.processes && t.relay == u.relay
            && forall k :: k != MAIN_MTYPE ==> Of(t.queue, k) == Of(u.queue, k)
  {
    hide Of, Remove, Send, SendAll, Step, Accepts;
    var first, second := Apply(c, s, Move(i, input)), Apply(c, s, Move(j, other));
    StaysEnabled(c, s, Move(i, input), Move(j, other));
    StaysEnabled(c, s, Move(j, other), Move(i, input));
    forall k | k != MAIN_MTYPE
      ensures Of(Apply(c, first, Move(j, other)).queue, k) == Of(Apply(c, second, Move(i, input)).queue, k)
    {
      MoveOf(c, s, i, input, k);
      MoveOf(c, first, j, other, k);
      MoveOf(c, s, j, other, k);
      MoveOf(c, second, i, input, k);
    }
  }

  lemma OneMore(c: Config, run: seq<Action>, action: Action)
    requires Valid(c, run) && Enabled(c, Exec(c, run), action)
    ensures Valid(c, run + [action]) && Exec(c, run + [action]) == Apply(c, Exec(c, run), action)
  {
    hide Enabled, Apply, Init;
    assert (run + [action])[..|run|] == run;
  }

  /** What the first draw leaves. */
  lemma FirstDraw(c: Config, v: int)
    requires ValidConfig(c) && c.n >= 2 && v != 0
    ensures var run := [Move(0, Drawn(v))];
            && Valid(c, run)
            && var s := Exec(c, run);
               && s.relay == Receiving && Of(s.queue, MAIN_MTYPE) == [Letter(0, v)]
               && |s.processes| == c.n && s.processes[1] == START
  {
    hide Of, SendAll;
    OneMore(c, [], Move(0, Drawn(v)));
    assert [] + [Move(0, Drawn(v))] == [Move(0, Drawn(v))];
    MoveOf(c, Init(c), 0, Drawn(v), MAIN_MTYPE);
    NoMessages(MAIN_MTYPE);
  }

  /** Bogatir 1 draws while the relay is between the sends of bogatir 0's value. */
  lemma Overlap(c: Config, v: int, w: int)
    requires ValidConfig(c) && c.n >= 2 && v != 0 && w != 0
    ensures var run := [Move(0, Drawn(v)), Forward, Move(1, Drawn(w))];
            Valid(c, run) && Exec(c, run).relay == Sending(Letter(0, v), 0)
  {
    hide Exec, Valid, Of, Remove, SendAll;
    var first, second := [Move(0, Drawn(v))], [Move(0, Drawn(v)), Forward];
    FirstDraw(c, v);
    OneMore(c, first, Forward);
    assert first + [Forward] == second;
    OneMore(c, second, Move(1, Drawn(w)));
    assert second + [Move(1, Drawn(w))] == [Move(0, Drawn(v)), Forward, Move(1, Drawn(w))];
  }

  lemma NoMessages(t: int)
    ensures Of<Letter>([], t) == []
  {
  }
}
