/** What the scheduler may choose between the judge and the runners. */
module StadiumInterleaving {
  import opened MessageQueue
  import opened Stadium

  /** In every reachable state a runner that has not run home is held up only while its start message
      is not there, and the judge only at a receive without a message. */
  lemma Schedules(n: nat, run: seq<Action>)
    requires Valid(n, run)
    ensures var s := Exec(n, run);
            && |s.runners| == n
            && (Enabled(n, s, JudgeStep)
                <==> && s.judge != Finished
                     && (s.judge.Greeting? && s.judge.i <= n ==> s.queue != [])
                     && (s.judge == Awaiting ==> Of(s.queue, StartMtype(n, n + 1)) != []))
            && (forall k :: 1 <= k <= n ==>
                  (Enabled(n, s, RunnerStep(k))
                   <==> && s.runners[k - 1] != Home
                        && (s.runners[k - 1] == AtStart ==> Of(s.queue, StartMtype(n, k)) != [])))
  {
    hide Exec, Valid, Inv, Of;
    BatonSafety(n, run);
    RunKeeps(n, run);
    RunnersOf(n, Exec(n, run));
  }

  lemma RunnersOf(n: nat, s: System)
    requires Inv(n, s)
    ensures |s.runners| == n
  {
  }

  /** While the judge greets, the runners' mailboxes are empty. */
  lemma NoStartYet(n: nat, s: System, k: nat)
    requires Inv(n, s) && s.judge.Greeting? && 1 <= k <= n && Enabled(n, s, RunnerStep(k))
    ensures s.runners[k - 1] == Arriving
  {
    HellosOnly(n, s.queue, StartMtype(n, k));
  }

  /** The messages of type t that a runner's step leaves. */
  lemma RunnerOf(n: nat, s: System, k: nat, t: int)
    requires |s.runners| == n && Enabled(n, s, RunnerStep(k))
    ensures var p := s.runners[k - 1];
            Of(Apply(n, s, RunnerStep(k)).queue, t)
            == (if p == AtStart && t == StartMtype(n, k) then Of(s.queue, t)[1..] else Of(s.queue, t))
               + (if p == Arriving && t == HelloMtype(k) then [RunnerCreated]
                  else if p == Passing && t == StartMtype(n, k + 1) then [NextParticipant]
                  else [])
  {
    hide Of, Remove, Send;
    match s.runners[k - 1] {
      case Arriving => OfSend(s.queue, HelloMtype(k), RunnerCreated);
      case AtStart => OfRemove(s.queue, StartMtype(n, k));
      case Passing => OfSend(s.queue, (n + 1) + k + 2, NextParticipant);
      case _ =>
    }
  }

  /** In a reachable state, what one process can do it can still do after an action of another. */
  lemma StaysEnabled(n: nat, s: System, action: Action, other: Action)
    requires Inv(n, s) && Enabled(n, s, action) && Enabled(n, s, other) && action != other
    ensures Enabled(n, Apply(n, s, other), action)
  {
    hide Hellos, Arrived, Of, Remove, Send, Lined;
    match other {
      case JudgeStep =>
        JudgeLeaves(n, s, action.k);
      case RunnerStep(j) =>
        match action {
          case RunnerStep(k) => RunnerOf(n, s, j, StartMtype(n, k));
          case JudgeStep => RunnerLeaves(n, s, j);
        }
    }
  }

  lemma RunnerLeaves(n: nat, s: System, j: nat)
    requires Inv(n, s) && Enabled(n, s, JudgeStep) && Enabled(n, s, RunnerStep(j))
    ensures Enabled(n, Apply(n, s, RunnerStep(j)), JudgeStep)
  {
    hide Hellos, Arrived, Of, Remove, Lined;
    if s.judge.Greeting? {
      NoStartYet(n, s, j);
    } else {
      RunnerOf(n, s, j, StartMtype(n, n + 1));
    }
  }

  lemma JudgeLeaves(n: nat, s: System, k: nat)
    requires Inv(n, s) && Enabled(n, s, JudgeStep) && Enabled(n, s, RunnerStep(k))
    ensures Enabled(n, Apply(n, s, JudgeStep), RunnerStep(k))
  {
    if s.judge.Greeting? {
      NoStartYet(n, s, k);
    } else if s.judge.Starting? {
      OfSend(s.queue, (n + 1) + 2, NextParticipant);
    } else if s.judge.Awaiting? {
      OfRemove(s.queue, StartMtype(n, n + 1));
    }
  }

  /** And the order of the two does not matter: all but the queue is the same afterwards, and on the
      queue the messages of every type. */
  lemma Swapped(n: nat, s: System, action: Action, other: Action)
    requires Inv(n, s) && Enabled(n, s, action) && Enabled(n, s, other) && action != other
    ensures Enabled(n, Apply(n, s, other), action) && Enabled(n, Apply(n, s, action), other)
    ensures var t, u := Apply(n, Apply(n, s, action), other), Apply(n, Apply(n, s, other), action);
            && t == u.(queue := t.queue)
            && forall m :: Of(t.queue, m) == Of(u.queue, m)
  {
    StaysEnabled(n, s, action, other);
    StaysEnabled(n, s, other, action);
    if s.judge.Greeting? {
      GreetingSwapped(n, s, action, other);
    } else {
      OneActs(n, s, action, other);
      assert false;
    }
  }

  /** Once the greeting is over only one process can act at a time. */
  lemma OneActs(n: nat, s: System, action: Action, other: Action)
    requires Inv(n, s) && !s.judge.Greeting?
    requires Enabled(n, s, action) && Enabled(n, s, other)
    ensures action == other
  {
    var a := Message(ANNOUNCE_MTYPE, AllCreated);
    if s.judge.Awaiting? {
      var home: nat :| BatonAt(n, s, home);
      if action.RunnerStep? {
        NextActs(n, s, home, action.k);
      }
      if other.RunnerStep? {
        NextActs(n, s, home, other.k);
      }
      OfPair(a, Message(StartMtype(n, home + 1), NextParticipant), StartMtype(n, n + 1));
    } else {
      if action.RunnerStep? {
        OfPair(a, a, StartMtype(n, action.k));
      }
      if other.RunnerStep? {
        OfPair(a, a, StartMtype(n, other.k));
      }
    }
  }

  lemma GreetingSwapped(n: nat, s: System, action: Action, other: Action)
    requires Inv(n, s) && s.judge.Greeting?
    requires Enabled(n, s, action) && Enabled(n, s, other) && action != other
    requires Enabled(n, Apply(n, s, other), action) && Enabled(n, Apply(n, s, action), other)
    ensures var t, u := Apply(n, Apply(n, s, action), other), Apply(n, Apply(n, s, other), action);
            && t == u.(queue := t.queue)
            && forall m :: Of(t.queue, m) == Of(u.queue, m)
  {
    match action {
      case JudgeStep => JudgeAndRunner(n, s, other.k);
      case RunnerStep(k) =>
        match other {
          case JudgeStep => JudgeAndRunner(n, s, k);
          case RunnerStep(j) => TwoRunners(n, s, k, j);
        }
    }
  }

  lemma JudgeAndRunner(n: nat, s: System, k: nat)
    requires Inv(n, s) && s.judge.Greeting? && Enabled(n, s, JudgeStep) && Enabled(n, s, RunnerStep(k))
    requires Enabled(n, Apply(n, s, JudgeStep), RunnerStep(k))
    requires Enabled(n, Apply(n, s, RunnerStep(k)), JudgeStep)
    ensures Apply(n, Apply(n, s, JudgeStep), RunnerStep(k)) == Apply(n, Apply(n, s, RunnerStep(k)), JudgeStep)
  {
    hide Hellos, Of, Remove;
    NoStartYet(n, s, k);
    ArrivedBound(s.runners);
    assert s.judge.i <= n;
    assert s.queue[1..] + [Message(HelloMtype(k), RunnerCreated)]
        == (s.queue + [Message(HelloMtype(k), RunnerCreated)])[1..];
  }

  lemma TwoRunners(n: nat, s: System, k: nat, j: nat)
    requires Inv(n, s) && s.judge.Greeting? && k != j && Enabled(n, s, RunnerStep(k)) && Enabled(n, s, RunnerStep(j))
    requires Enabled(n, Apply(n, s, RunnerStep(k)), RunnerStep(j))
    requires Enabled(n, Apply(n, s, RunnerStep(j)), RunnerStep(k))
    ensures var t := Apply(n, Apply(n, s, RunnerStep(k)), RunnerStep(j));
            var u := Apply(n, Apply(n, s, RunnerStep(j)), RunnerStep(k));
            && t == u.(queue := t.queue)
            && forall m :: Of(t.queue, m) == Of(u.queue, m)
  {
    hide Hellos, Of, Remove, Send, Arrived;
    NoStartYet(n, s, k);
    NoStartYet(n, s, j);
    var first, second := Apply(n, s, RunnerStep(k)), Apply(n, s, RunnerStep(j));
    assert s.runners[k - 1 := AtStart][j - 1 := AtStart] == s.runners[j - 1 := AtStart][k - 1 := AtStart];
    forall m
      ensures Of(Apply(n, first, RunnerStep(j)).queue, m) == Of(Apply(n, second, RunnerStep(k)).queue, m)
    {
      RunnerOf(n, s, k, m);
      RunnerOf(n, first, j, m);
      RunnerOf(n, s, j, m);
      RunnerOf(n, second, k, m);
    }
  }

  /** Whatever message a runner finds at the start, reachable or not: it runs exactly if that is the
      baton, and otherwise it fails for good without having run. */
  lemma StatusHeeded(n: nat, s: System, k: nat)
    requires Enabled(n, s, RunnerStep(k)) && s.runners[k - 1] == AtStart
    ensures var t := Apply(n, s, RunnerStep(k));
            && t == s.(queue := t.queue, runners := s.runners[k - 1 := t.runners[k - 1]])
            && (t.runners[k - 1] == Running <==> Of(s.queue, StartMtype(n, k))[0] == NextParticipant)
            && (t.runners[k - 1] != Running ==> !Enabled(n, t, RunnerStep(k)))
            && Of(t.queue, StartMtype(n, k)) == Of(s.queue, StartMtype(n, k))[1..]
  {
    hide Of, Remove;
    OfRemove(s.queue, StartMtype(n, k));
  }
}
