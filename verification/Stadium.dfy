/** The judge and the runners: a baton handed on through one message queue.  Every process is at
    its own place in its program; any interleaving.  order is history: who has run. */
module Stadium {
  import opened Sequences
  import opened MessageQueue

  datatype Status = RunnerCreated | NextParticipant | AllCreated

  datatype Judge =
    | Greeting(i: nat)   // loop variable of the wildcard receives
    | Starting           // everyone is there and announced, before the start message
    | Awaiting           // waits for the last runner's message
    | Finished

  datatype Runner =
    | Arriving           // before its hello message
    | AtStart            // waits for its own start message
    | Running
    | Passing            // before the message to the next
    | Home
    | Failed             // "Unexpected status"

  datatype System = System(queue: Queue<Status>, judge: Judge, runners: seq<Runner>, order: seq<nat>)

  datatype Action = JudgeStep | RunnerStep(k: nat)

  function HelloMtype(k: nat): int
  {
    k + 1
  }

  function StartMtype(n: nat, k: nat): int
  {
    (n + 1) + k + 1
  }

  const ANNOUNCE_MTYPE := 1

  /** The judge's receive of any message: the oldest one. */
  function Oldest(q: Queue<Status>): Message<Status>
    requires q != []
  {
    q[0]
  }

  /** Runners are numbered from 1; runners[k - 1] is runner k. */
  function Init(n: nat): System
  {
    System([], Greeting(1), seq(n, _ => Arriving), [])
  }

  predicate Enabled(n: nat, s: System, action: Action)
  {
    && |s.runners| == n
    && match action
       case JudgeStep =>
         (match s.judge
          case Greeting(i) => i <= n ==> s.queue != []
          case Starting => true
          case Awaiting => Of(s.queue, StartMtype(n, n + 1)) != []
          case Finished => false)
       case RunnerStep(k) =>
         1 <= k <= n &&
         (match s.runners[k - 1]
          case AtStart => Of(s.queue, StartMtype(n, k)) != []
          case Home => false
          case Failed => false
          case _ => true)
  }

  function Apply(n: nat, s: System, action: Action): System
    requires Enabled(n, s, action)
  {
    match action
    case JudgeStep =>
      (match s.judge
       case Greeting(i) =>
         if i <= n then s.(queue := s.queue[1..], judge := Greeting(i + 1))
         else s.(queue := Send(s.queue, ANNOUNCE_MTYPE, AllCreated), judge := Starting)
       case Starting => s.(queue := Send(s.queue, (n + 1) + 2, NextParticipant), judge := Awaiting)
       case Awaiting => s.(queue := Remove(s.queue, StartMtype(n, n + 1)), judge := Finished)
       case Finished => s)
    case RunnerStep(k) =>
      match s.runners[k - 1]
      case Arriving =>
        s.(queue := Send(s.queue, HelloMtype(k), RunnerCreated), runners := s.runners[k - 1 := AtStart])
      case AtStart =>
        var status := Of(s.queue, StartMtype(n, k))[0];
        s.(queue := Remove(s.queue, StartMtype(n, k)),
           runners := s.runners[k - 1 := if status != NextParticipant then Failed else Running])
      case Running => s.(runners := s.runners[k - 1 := Passing], order := s.order + [k])
      case Passing =>
        s.(queue := Send(s.queue, (n + 1) + k + 2, NextParticipant), runners := s.runners[k - 1 := Home])
      case _ => s
  }

  predicate Valid(n: nat, run: seq<Action>)
    decreases |run|, 0
  {
    run == []
    || (Valid(n, run[..|run| - 1])
        && Enabled(n, Exec(n, run[..|run| - 1]), run[|run| - 1]))
  }

  function Exec(n: nat, run: seq<Action>): System
    requires Valid(n, run)
    decreases |run|, 1
  {
    if run == [] then Init(n)
    else Apply(n, Exec(n, run[..|run| - 1]), run[|run| - 1])
  }

  // ---------- the invariant ----------

  function Arrived(runners: seq<Runner>): nat
  {
    if runners == [] then 0 else (if runners[0].Arriving? then 0 else 1) + Arrived(runners[1..])
  }

  lemma {:induction false} ArrivedBound(runners: seq<Runner>)
    ensures Arrived(runners) <= |runners|
    ensures Arrived(runners) == |runners| <==> forall j :: 0 <= j < |runners| ==> !runners[j].Arriving?
  {
    if runners != [] {
      ArrivedBound(runners[1..]);
      assert runners == [runners[0]] + runners[1..];
    }
  }

  lemma {:induction false} ArrivedUpdate(runners: seq<Runner>, j: nat, r: Runner)
    requires j < |runners|
    ensures Arrived(runners[j := r])
            == Arrived(runners) - (if runners[j].Arriving? then 0 else 1) + if r.Arriving? then 0 else 1
  {
    if j == 0 {
      assert runners[j := r][1..] == runners[1..];
    } else {
      assert runners[j := r][1..] == runners[1..][j - 1 := r];
      ArrivedUpdate(runners[1..], j - 1, r);
    }
  }

  /** The runners 1 .. m in their order. */
  function FirstRunners(m: nat): seq<nat>
  {
    seq(m, j => j + 1)
  }

  predicate Hellos(n: nat, q: Queue<Status>)
  {
    forall j :: 0 <= j < |q| ==> q[j].body == RunnerCreated && HelloMtype(1) <= q[j].mtype <= HelloMtype(n)
  }

  /** Runners before m are home, runners after it wait at the start. */
  predicate Lined(runners: seq<Runner>, m: nat)
  {
    forall j :: 0 <= j < |runners| && j != m ==> runners[j] == if j < m then Home else AtStart
  }

  /** Where the baton is when `home` runners are home: on the queue for the next runner (for the
      judge when there is none), or in the next runner's hands. */
  predicate BatonAt(n: nat, s: System, home: nat)
    requires |s.runners| == n
  {
    var announced := Message(ANNOUNCE_MTYPE, AllCreated);
    && home <= n && Lined(s.runners, home)
    && if home == n || s.runners[home] == AtStart then
         s.queue == [announced, Message(StartMtype(n, home + 1), NextParticipant)] && |s.order| == home
       else
         s.queue == [announced]
         && ((s.runners[home] == Running && |s.order| == home)
             || (s.runners[home] == Passing && |s.order| == home + 1))
  }

  ghost predicate Baton(n: nat, s: System)
    requires |s.runners| == n
  {
    exists home: nat :: BatonAt(n, s, home)
  }

  ghost predicate Inv(n: nat, s: System)
  {
    && |s.runners| == n
    && s.order == FirstRunners(|s.order|)
    && match s.judge
       case Greeting(i) =>
         && 1 <= i <= n + 1 && s.order == [] && Hellos(n, s.queue)
         && (forall j :: 0 <= j < n ==> s.runners[j].Arriving? || s.runners[j].AtStart?)
         && |s.queue| + (i - 1) == Arrived(s.runners)
       case Starting =>
         && s.queue == [Message(ANNOUNCE_MTYPE, AllCreated)] && s.order == []
         && (forall j :: 0 <= j < n ==> s.runners[j] == AtStart)
       case Awaiting => Baton(n, s)
       case Finished =>
         && s.queue == [Message(ANNOUNCE_MTYPE, AllCreated)] && |s.order| == n
         && (forall j :: 0 <= j < n ==> s.runners[j] == Home)
  }

  lemma InvInit(n: nat)
    ensures Inv(n, Init(n))
  {
    ArrivedNone(n);
  }

  lemma {:induction false} ArrivedNone(n: nat)
    ensures Arrived(seq(n, _ => Arriving)) == 0
  {
    if n > 0 {
      assert seq(n, _ => Arriving)[1..] == seq(n - 1, _ => Arriving);
      ArrivedNone(n - 1);
    }
  }

  // ---------- every action keeps it ----------

  /** No start message is queued while the judge is greeting. */
  lemma {:induction false} HellosOnly(n: nat, q: Queue<Status>, t: int)
    requires Hellos(n, q) && !(HelloMtype(1) <= t <= HelloMtype(n))
    ensures Of(q, t) == []
  {
    if q != [] {
      assert q[0].mtype != t;
      assert forall j :: 0 <= j < |q[1..]| ==> q[1..][j] == q[j + 1];
      HellosOnly(n, q[1..], t);
    }
  }

  lemma OfPair(a: Message<Status>, b: Message<Status>, t: int)
    ensures Of([a], t) == if a.mtype == t then [a.body] else []
    ensures Of([a, b], t) == Of([a], t) + if b.mtype == t then [b.body] else []
    ensures a.mtype != t && b.mtype == t ==> Remove([a, b], t) == [a]
  {
    assert [a][1..] == [] && [a, b][1..] == [b] && [b][1..] == [];
  }

  lemma GreetKeeps(n: nat, s: System, action: Action)
    requires Inv(n, s) && Enabled(n, s, action) && s.judge.Greeting?
    ensures Inv(n, Apply(n, s, action))
  {
    var t := Apply(n, s, action);
    ArrivedBound(s.runners);
    match action {
      case JudgeStep =>
      case RunnerStep(k) =>
        HellosOnly(n, s.queue, StartMtype(n, k));
        ArrivedUpdate(s.runners, k - 1, AtStart);
        assert s.runners[k - 1].Arriving?;
    }
  }

  lemma StartKeeps(n: nat, s: System, action: Action)
    requires Inv(n, s) && Enabled(n, s, action) && s.judge.Starting?
    ensures Inv(n, Apply(n, s, action))
  {
    var t := Apply(n, s, action);
    var a := Message(ANNOUNCE_MTYPE, AllCreated);
    match action {
      case JudgeStep =>
        assert t.queue == [a, Message(StartMtype(n, 0 + 1), NextParticipant)];
        assert BatonAt(n, t, 0);
      case RunnerStep(k) =>
        OfPair(a, a, StartMtype(n, k));
        assert false;
    }
  }

  /** Only the runner next in line can act, and only when it has the baton coming or in hand. */
  lemma NextActs(n: nat, s: System, home: nat, k: nat)
    requires |s.runners| == n && BatonAt(n, s, home) && Enabled(n, s, RunnerStep(k))
    ensures k - 1 == home < n
  {
    OfPair(Message(ANNOUNCE_MTYPE, AllCreated), Message(StartMtype(n, home + 1), NextParticipant),
           StartMtype(n, k));
  }

  lemma RunnerKeeps(n: nat, s: System, home: nat, k: nat)
    requires |s.runners| == n && BatonAt(n, s, home) && Enabled(n, s, RunnerStep(k))
    requires s.order == FirstRunners(|s.order|)
    ensures var t := Apply(n, s, RunnerStep(k));
            && |t.runners| == n && t.judge == s.judge && t.order == FirstRunners(|t.order|)
            && (BatonAt(n, t, home) || BatonAt(n, t, home + 1))
  {
    var t := Apply(n, s, RunnerStep(k));
    var a := Message(ANNOUNCE_MTYPE, AllCreated);
    NextActs(n, s, home, k);
    OfPair(a, Message(StartMtype(n, home + 1), NextParticipant), StartMtype(n, k));
    if s.runners[home] == Passing {
      assert t.queue == [a, Message(StartMtype(n, home + 2), NextParticipant)];
      assert BatonAt(n, t, home + 1);
    } else {
      assert BatonAt(n, t, home);
    }
  }

  lemma PassKeeps(n: nat, s: System, action: Action)
    requires Inv(n, s) && Enabled(n, s, action) && s.judge.Awaiting?
    ensures Inv(n, Apply(n, s, action))
  {
    var home: nat :| BatonAt(n, s, home);
    match action {
      case JudgeStep =>
        OfPair(Message(ANNOUNCE_MTYPE, AllCreated), Message(StartMtype(n, home + 1), NextParticipant),
               StartMtype(n, n + 1));
      case RunnerStep(k) =>
        RunnerKeeps(n, s, home, k);
    }
  }

  lemma ApplyKeeps(n: nat, s: System, action: Action)
    requires Inv(n, s) && Enabled(n, s, action)
    ensures Inv(n, Apply(n, s, action))
  {
    match s.judge {
      case Greeting(i) => GreetKeeps(n, s, action);
      case Starting => StartKeeps(n, s, action);
      case Awaiting => PassKeeps(n, s, action);
      case Finished =>
    }
  }

  lemma {:induction false} RunKeeps(n: nat, run: seq<Action>)
    requires Valid(n, run)
    ensures Inv(n, Exec(n, run))
  {
    if run == [] {
      InvInit(n);
    } else {
      RunKeeps(n, run[..|run| - 1]);
      ApplyKeeps(n, Exec(n, run[..|run| - 1]), run[|run| - 1]);
    }
  }

  // ---------- what the relay promises ----------

  /** Every message the judge's wildcard receives take is a hello. */
  lemma WildcardTakesHellos(n: nat, run: seq<Action>)
    requires Valid(n, run) && Enabled(n, Exec(n, run), JudgeStep)
    requires Exec(n, run).judge.Greeting? && Exec(n, run).judge.i <= n
    ensures Exec(n, run).queue != []
    ensures var m := Oldest(Exec(n, run).queue);
            m.body == RunnerCreated && HelloMtype(1) <= m.mtype <= HelloMtype(n)
  {
    RunKeeps(n, run);
  }

  /** The types of the messages taken by the wildcard receives of a run, in order. */
  function Greeted(n: nat, run: seq<Action>): seq<int>
    requires Valid(n, run)
  {
    if run == [] then []
    else
      var before := run[..|run| - 1];
      var s := Exec(n, before);
      Greeted(n, before)
      + if run[|run| - 1] == JudgeStep && s.judge.Greeting? && s.judge.i <= n then [Oldest(s.queue).mtype] else []
  }

  function Mtypes(q: Queue<Status>): seq<int>
  {
    seq(|q|, j requires 0 <= j < |q| => q[j].mtype)
  }

  /** Hellos of different runners, and of exactly those that have said theirs. */
  predicate Roll(n: nat, hellos: seq<int>, runners: seq<Runner>)
  {
    && |runners| == n
    && (forall i, j :: 0 <= i < j < |hellos| ==> hellos[i] != hellos[j])
    && (forall j :: 0 <= j < |hellos| ==> HelloMtype(1) <= hellos[j] <= HelloMtype(n))
    && (forall k :: 1 <= k <= n ==> (HelloMtype(k) in hellos <==> !runners[k - 1].Arriving?))
  }

  /** While the judge greets, what it has taken and what is queued are the hellos said so far. */
  lemma {:induction false} GreetRoll(n: nat, run: seq<Action>)
    requires Valid(n, run) && Exec(n, run).judge.Greeting?
    ensures Roll(n, Greeted(n, run) + Mtypes(Exec(n, run).queue), Exec(n, run).runners)
  {
    if run != [] {
      var before := run[..|run| - 1];
      GreetRoll(n, before);
      RunKeeps(n, before);
      GreetStep(n, Exec(n, before), run[|run| - 1], Greeted(n, before));
    }
  }

  lemma GreetStep(n: nat, s: System, action: Action, greeted: seq<int>)
    requires Inv(n, s) && Enabled(n, s, action) && s.judge.Greeting?
    requires Apply(n, s, action).judge.Greeting?
    requires Roll(n, greeted + Mtypes(s.queue), s.runners)
    ensures var t := Apply(n, s, action);
            Roll(n, greeted + (if action.JudgeStep? then [Oldest(s.queue).mtype] else []) + Mtypes(t.queue), t.runners)
  {
    hide Roll, Hellos, Arrived, Of;
    var t := Apply(n, s, action);
    match action {
      case JudgeStep =>
        assert [s.queue[0].mtype] + Mtypes(t.queue) == Mtypes(s.queue);
        Assoc(greeted, [s.queue[0].mtype], Mtypes(t.queue));
      case RunnerStep(k) =>
        assert Of(s.queue, StartMtype(n, k)) == [] by { HellosOnly(n, s.queue, StartMtype(n, k)); }
        assert s.runners[k - 1].Arriving?;
        assert Mtypes(t.queue) == Mtypes(s.queue) + [HelloMtype(k)];
        Assoc(greeted, Mtypes(s.queue), [HelloMtype(k)]);
        assert greeted + [] == greeted;
        RollMore(n, greeted + Mtypes(s.queue), s.runners, k);
    }
  }

  lemma RollMore(n: nat, hellos: seq<int>, runners: seq<Runner>, k: nat)
    requires 1 <= k <= n && Roll(n, hellos, runners) && runners[k - 1].Arriving?
    ensures Roll(n, hellos + [HelloMtype(k)], runners[k - 1 := AtStart])
  {
    assert HelloMtype(k) !in hellos;
  }

  /** When the judge stops greeting it has taken the hello of every runner, each once, and none is
      left on the queue. */
  lemma GreetsEveryone(n: nat, run: seq<Action>)
    requires Valid(n, run) && Exec(n, run).judge == Greeting(n + 1)
    ensures Exec(n, run).queue == []
    ensures |Greeted(n, run)| == n
    ensures forall i, j :: 0 <= i < j < n ==> Greeted(n, run)[i] != Greeted(n, run)[j]
    ensures forall k :: 1 <= k <= n ==> HelloMtype(k) in Greeted(n, run)
  {
    hide Exec, Valid, Hellos, Arrived, Greeted;
    var s := Exec(n, run);
    RunKeeps(n, run);
    GreetRoll(n, run);
    ArrivedBound(s.runners);
    assert Mtypes(s.queue) == [] && Greeted(n, run) + [] == Greeted(n, run);
    GreetedCount(n, run);
  }

  /** The loop variable counts the hellos taken. */
  lemma {:induction false} GreetedCount(n: nat, run: seq<Action>)
    requires Valid(n, run) && Exec(n, run).judge.Greeting?
    ensures |Greeted(n, run)| == Exec(n, run).judge.i - 1
  {
    if run != [] {
      GreetedCount(n, run[..|run| - 1]);
    }
  }

  function Batons(n: nat, s: System): nat
  {
    QueuedBatons(s.queue) + HeldBatons(s.runners)
  }

  function QueuedBatons(q: Queue<Status>): nat
  {
    if q == [] then 0 else (if q[0].body == NextParticipant then 1 else 0) + QueuedBatons(q[1..])
  }

  function HeldBatons(runners: seq<Runner>): nat
  {
    if runners == [] then 0
    else (if runners[0].Running? || runners[0].Passing? then 1 else 0) + HeldBatons(runners[1..])
  }

  lemma {:induction false} NoneHeld(runners: seq<Runner>)
    requires forall j :: 0 <= j < |runners| ==> !runners[j].Running? && !runners[j].Passing?
    ensures HeldBatons(runners) == 0
  {
    if runners != [] {
      NoneHeld(runners[1..]);
    }
  }

  lemma {:induction false} OneHeld(runners: seq<Runner>, home: nat)
    requires home < |runners| && (runners[home].Running? || runners[home].Passing?)
    requires forall j :: 0 <= j < |runners| && j != home ==> !runners[j].Running? && !runners[j].Passing?
    ensures HeldBatons(runners) == 1
  {
    if home == 0 {
      NoneHeld(runners[1..]);
    } else {
      OneHeld(runners[1..], home - 1);
    }
  }

  lemma {:induction false} NoneQueued(n: nat, q: Queue<Status>)
    requires Hellos(n, q)
    ensures QueuedBatons(q) == 0
  {
    if q != [] {
      assert forall j :: 0 <= j < |q[1..]| ==> q[1..][j] == q[j + 1];
      NoneQueued(n, q[1..]);
    }
  }

  lemma QueuedPair(a: Message<Status>, b: Message<Status>)
    ensures QueuedBatons([a]) == if a.body == NextParticipant then 1 else 0
    ensures QueuedBatons([a, b]) == QueuedBatons([a]) + if b.body == NextParticipant then 1 else 0
  {
    assert [a][1..] == [] && [a, b][1..] == [b] && [b][1..] == [];
  }

  /** There is never more than one baton, queued or in hand; nobody gets a message it does not
      expect; the runners run once each, in order, and the judge finishes after the last. */
  lemma BatonSafety(n: nat, run: seq<Action>)
    requires Valid(n, run)
    ensures var s := Exec(n, run);
            && Batons(n, s) <= 1
            && s.order == FirstRunners(|s.order|) && |s.order| <= n
            && (forall j :: 0 <= j < |s.runners| ==> s.runners[j] != Failed)
            && (s.judge == Finished ==> s.order == FirstRunners(n))
  {
    hide Exec, Valid, Batons, Hellos;
    var s := Exec(n, run);
    RunKeeps(n, run);
    if s.judge.Awaiting? {
      var home: nat :| BatonAt(n, s, home);
      OneBaton(n, s, home);
    } else {
      NoBaton(n, s);
    }
  }

  /** While the judge waits for it there is one baton, queued or in hand. */
  lemma OneBaton(n: nat, s: System, home: nat)
    requires |s.runners| == n && BatonAt(n, s, home)
    ensures Batons(n, s) == 1
  {
    var a, b := Message(ANNOUNCE_MTYPE, AllCreated), Message(StartMtype(n, home + 1), NextParticipant);
    QueuedPair(a, b);
    if home == n || s.runners[home] == AtStart {
      NoneHeld(s.runners);
    } else {
      OneHeld(s.runners, home);
    }
  }

  lemma NoBaton(n: nat, s: System)
    requires Inv(n, s) && !s.judge.Awaiting?
    ensures Batons(n, s) == 0
  {
    NoneHeld(s.runners);
    if s.judge.Greeting? {
      NoneQueued(n, s.queue);
    } else {
      QueuedPair(Message(ANNOUNCE_MTYPE, AllCreated), Message(ANNOUNCE_MTYPE, AllCreated));
    }
  }

  predicate Ended(s: System)
  {
    s.judge == Finished && forall j :: 0 <= j < |s.runners| ==> s.runners[j] == Home
  }

  /** Until all have ended somebody can act; at the end only the ALL_CREATED message, which
      nobody receives, is left on the queue. */
  lemma NoDeadlock(n: nat, run: seq<Action>) returns (action: Action)
    requires Valid(n, run)
    ensures Ended(Exec(n, run)) ==> Exec(n, run).queue == [Message(ANNOUNCE_MTYPE, AllCreated)]
    ensures !Ended(Exec(n, run)) ==> Enabled(n, Exec(n, run), action)
  {
    hide Exec, Valid, Enabled;
    var s := Exec(n, run);
    RunKeeps(n, run);
    action := JudgeStep;
    if !Ended(s) {
      action := SomeAction(n, s);
    }
  }

  lemma SomeAction(n: nat, s: System) returns (action: Action)
    requires Inv(n, s) && !Ended(s)
    ensures Enabled(n, s, action)
  {
    action := JudgeStep;
    if s.judge.Greeting? {
      ArrivedBound(s.runners);
      if s.judge.i <= n && s.queue == [] {
        var j :| 0 <= j < n && s.runners[j].Arriving?;
        action := RunnerStep(j + 1);
      }
    } else if s.judge.Awaiting? {
      var home: nat :| BatonAt(n, s, home);
      action := BatonMoves(n, s, home);
    }
  }

  /** Whoever the baton is with, or on its way to, can act. */
  lemma BatonMoves(n: nat, s: System, home: nat) returns (action: Action)
    requires |s.runners| == n && s.judge.Awaiting? && BatonAt(n, s, home)
    ensures Enabled(n, s, action)
  {
    OfPair(Message(ANNOUNCE_MTYPE, AllCreated), Message(StartMtype(n, home + 1), NextParticipant),
           StartMtype(n, home + 1));
    action := if home < n then RunnerStep(home + 1) else JudgeStep;
  }

  /** Actions left: each runner has four, the judge one per hello and four more. */
  function Work(n: nat, s: System): int
  {
    RunnersWork(s.runners)
    + match s.judge
      case Greeting(i) => n - i + 4
      case Starting => 2
      case Awaiting => 1
      case Finished => 0
  }

  function RunnersWork(runners: seq<Runner>): nat
  {
    if runners == [] then 0
    else
      (match runners[0]
       case Arriving => 4
       case AtStart => 3
       case Running => 2
       case Passing => 1
       case _ => 0) + RunnersWork(runners[1..])
  }

  lemma {:induction false} RunnerWorks(runners: seq<Runner>, j: nat, r: Runner)
    requires j < |runners|
    ensures RunnersWork(runners[j := r])
            == RunnersWork(runners) - RunnersWork([runners[j]]) + RunnersWork([r])
  {
    assert [r][1..] == [] && [runners[j]][1..] == [];
    if j == 0 {
      assert runners[j := r][1..] == runners[1..];
    } else {
      assert runners[j := r][1..] == runners[1..][j - 1 := r];
      RunnerWorks(runners[1..], j - 1, r);
    }
  }

  lemma {:induction false} ArrivingWork(n: nat)
    ensures RunnersWork(seq(n, _ => Arriving)) == 4 * n
  {
    if n > 0 {
      assert seq(n, _ => Arriving)[1..] == seq(n - 1, _ => Arriving);
      ArrivingWork(n - 1);
    }
  }

  lemma WorkFalls(n: nat, s: System, action: Action)
    requires Inv(n, s) && Enabled(n, s, action)
    ensures Work(n, Apply(n, s, action)) < Work(n, s)
  {
    match action {
      case JudgeStep =>
      case RunnerStep(k) =>
        var before, after := s.runners[k - 1], Apply(n, s, action).runners[k - 1];
        assert [after][1..] == [] && [before][1..] == [];
        RunnerWorks(s.runners, k - 1, after);
    }
  }

  lemma {:induction false} WorkSpent(n: nat, run: seq<Action>)
    requires Valid(n, run)
    ensures |run| + Work(n, Exec(n, run)) <= 5 * n + 3
  {
    if run == [] {
      ArrivingWork(n);
    } else {
      var before := run[..|run| - 1];
      WorkSpent(n, before);
      RunKeeps(n, before);
      WorkFalls(n, Exec(n, before), run[|run| - 1]);
    }
  }

  /** Every run ends after at most 5n + 3 actions. */
  lemma RunsEnd(n: nat, run: seq<Action>)
    requires Valid(n, run)
    ensures |run| <= 5 * n + 3
  {
    WorkSpent(n, run);
    RunKeeps(n, run);
  }
}
