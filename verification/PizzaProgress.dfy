/** The three semaphores never lock each other out: while one courier is in play, some schedule
    delivers every pizza.  And what an early exit costs. */
module PizzaProgress {
  import opened Sums
  import opened PizzaTable
  import opened PizzaSystem
  import opened PizzaProofs

  /** A courier at the first exit test, in the loop body, or about to be sent back into it. */
  predicate InPlay(s: System, k: nat)
  {
    && k < |s.couriers|
    && var p := s.couriers[k];
       && !p.Done? && !p.BadFreeing? && !p.BadGiving? && !p.Failed?
       && (p.TestPizzas? ==> s.table.pizzaCount != 0)
  }

  /** Steps a chief has left until it is home. */
  function ChiefEffort(c: Config, p: Chief): int
  {
    match p
    case Arriving => 7 * c.work + 6
    case Registering => 7 * c.work + 5
    case Registered => 7 * c.work + 4
    case Working(i) => 7 * (c.work - i) + 3
    case Reserving(i) => 7 * (c.work - i) + 2
    case Writing(i) => 7 * (c.work - i) + 1
    case Advancing(i) => 7 * (c.work - i)
    case Counting(i) => 7 * (c.work - i) - 1
    case Releasing(i) => 7 * (c.work - i) - 2
    case Announcing(i) => 7 * (c.work - i) - 3
    case Deregistering => 2
    case Deregistered => 1
    case Home => 0
  }

  /** Steps a courier needs, when it is always let through, until it next clears a slot. */
  function CourierEffort(p: Courier): int
  {
    match p
    case TestChiefs => 5
    case TestPizzas => 4
    case GetReady => 3
    case GetTable => 2
    case GiveBack => 6
    case Checking => 1
    case Clearing => 0
    case Moving => 10
    case Discounting => 9
    case Freeing => 8
    case Emptying => 7
    case _ => 0
  }

  function EffortOf(c: Config): Chief -> int
  {
    p => if Sane(c, p) then ChiefEffort(c, p) else 0
  }

  function Effort(c: Config, s: System): int
  {
    Sum(s.chiefs, EffortOf(c)) + Sum(s.couriers, CourierEffort)
  }

  lemma EffortBound(c: Config, s: System)
    ensures Effort(c, s) >= 0
  {
    SumBelow(s.chiefs, EffortOf(c), EffortOf(c));
    SumBelow(s.couriers, CourierEffort, CourierEffort);
  }

  /** A step that a scheduler can choose: it brings the delivery of a pizza nearer. */
  predicate Nearer(c: Config, s: System, action: Action)
    requires Enabled(c, s, action)
  {
    var t := Apply(c, s, action);
    && (action.CourierStep? ==> InPlay(t, action.k))
    && (|t.taken| == |s.taken| + 1 || |t.placed| == |s.placed| + 1
        || (t.placed == s.placed && t.taken == s.taken && Full(t) == Full(s)))
    && (t.placed == s.placed && t.taken == s.taken ==> Effort(c, t) < Effort(c, s))
    && (action.ChiefStep? ==> Effort(c, t) < Effort(c, s) && t.taken == s.taken)
  }

  lemma ChiefNearer(c: Config, s: System, k: nat)
    requires Inv(c, s) && Enabled(c, s, ChiefStep(k))
    ensures Nearer(c, s, ChiefStep(k))
  {
    var t := ChiefMoves(c, s, k);
    ChiefBalance(c, s, k);
    ChiefSums(c, s.chiefs, k, t.chiefs[k]);
    SumUpdate(s.chiefs, k, t.chiefs[k], EffortOf(c));
    ChiefFalls(c, s, k);
  }

  lemma ChiefFalls(c: Config, s: System, k: nat)
    requires Enabled(c, s, ChiefStep(k)) && Sane(c, s.chiefs[k])
    ensures var t := ChiefMoves(c, s, k);
            && EffortOf(c)(t.chiefs[k]) < EffortOf(c)(s.chiefs[k])
            && t.couriers == s.couriers && t.taken == s.taken
            && (if s.chiefs[k].Writing? then |t.placed| == |s.placed| + 1
                else t.placed == s.placed
                     && t.table.pizzaCount + ChiefUncounted(t.chiefs[k])
                        == s.table.pizzaCount + ChiefUncounted(s.chiefs[k]))
  {
  }

  /** A courier step that gets through: not a failed sem_trywait, and no read of an empty table. */
  predicate GetsThrough(s: System, k: nat)
    requires k < |s.couriers|
  {
    match s.couriers[k]
    case TestChiefs => s.table.chiefsCount != 0 || s.table.pizzaCount != 0
    case TestPizzas => s.table.pizzaCount != 0
    case GetReady => s.ready > 0
    case GetTable => s.mutex > 0
    case Done => false
    case BadFreeing => false
    case BadGiving => false
    case Failed => false
    case _ => true
  }

  lemma CourierNearer(c: Config, s: System, k: nat)
    requires Inv(c, s) && Enabled(c, s, CourierStep(k)) && GetsThrough(s, k)
    ensures Nearer(c, s, CourierStep(k))
  {
    var t := CourierMoves(c, s, k);
    if s.couriers[k].Checking? {
      GoodPizza(c, s, k);
    }
    CourierMove(c, s, k);
    CourierBalance(c, s, k);
    CourierSums(s.couriers, k, t.couriers[k]);
    SumUpdate(s.couriers, k, t.couriers[k], CourierEffort);
    CourierFalls(c, s, k);
  }

  lemma CourierFalls(c: Config, s: System, k: nat)
    requires Enabled(c, s, CourierStep(k)) && GetsThrough(s, k)
    requires s.couriers[k].Checking? ==> Slot(s.table.buffer, s.table.tail) == PIZZA
    ensures var t := CourierMoves(c, s, k);
            && (if s.couriers[k].Clearing? then |t.taken| == |s.taken| + 1
                else t.taken == s.taken && CourierEffort(t.couriers[k]) < CourierEffort(s.couriers[k]))
            && InPlay(t, k)
  {
  }

  // ---------- what to schedule ----------

  /** Someone in the critical section, or on the way out of it, can go on. */
  lemma LetOut(c: Config, s: System) returns (action: Action)
    requires Inv(c, s)
    requires s.mutex == 0 || Sum(s.chiefs, Announces) > 0 || Sum(s.couriers, Returns) > 0
    ensures Enabled(c, s, action) && Nearer(c, s, action)
  {
    if Sum(s.chiefs, Announces) > 0 {
      var k := SumWitness(s.chiefs, Announces);
      ChiefNearer(c, s, k);
      return ChiefStep(k);
    }
    if Sum(s.couriers, Returns) > 0 {
      var k := SumWitness(s.couriers, Returns);
      CourierNearer(c, s, k);
      return CourierStep(k);
    }
    if Sum(s.chiefs, ChiefLock) > 0 {
      var k := SumWitness(s.chiefs, ChiefLock);
      ChiefNearer(c, s, k);
      return ChiefStep(k);
    }
    var k := SumWitness(s.couriers, CourierLock);
    assert GetsThrough(s, k);
    CourierNearer(c, s, k);
    return CourierStep(k);
  }

  function Announces(p: Chief): int
  {
    if p.Announcing? then 1 else 0
  }

  function Returns(p: Courier): int
  {
    if p.Emptying? || p.GiveBack? then 1 else 0
  }

  function Queues(p: Courier): int
  {
    if p.GetTable? then 1 else 0
  }

  /** With nobody in or leaving the critical section, every credit is in plain sight. */
  predicate Calm(s: System)
  {
    s.mutex != 0 && Sum(s.chiefs, Announces) <= 0 && Sum(s.couriers, Returns) <= 0
  }

  lemma CalmCredits(c: Config, s: System)
    requires Inv(c, s) && Calm(s)
    ensures s.mutex == 1 && Full(s) == s.table.pizzaCount
    ensures s.ready + Sum(s.couriers, Queues) == Full(s)
    ensures s.empty + Sum(s.chiefs, ChiefEmpty) + Full(s) == c.slots
    ensures forall k :: 0 <= k < c.chiefs ==> ChiefLock(s.chiefs[k]) == 0 && !s.chiefs[k].Announcing?
    ensures forall k :: 0 <= k < c.couriers ==>
              CourierLock(s.couriers[k]) == 0 && !s.couriers[k].Emptying? && !s.couriers[k].GiveBack?
  {
    hide Ring, Fifo, NoFailure, Sane, ChiefLock, CourierLock, Announces, Returns, Sum;
    Bounds(s);
    forall k | 0 <= k < c.chiefs ensures ChiefLock(s.chiefs[k]) == 0 && !s.chiefs[k].Announcing? {
      CalmChief(s.chiefs, k);
    }
    forall k | 0 <= k < c.couriers
      ensures CourierLock(s.couriers[k]) == 0 && !s.couriers[k].Emptying? && !s.couriers[k].GiveBack?
    {
      CalmCourier(s.couriers, k);
    }
    CalmSums(s);
    assert NoFailure(s);
  }

  lemma CalmChief(chiefs: seq<Chief>, k: nat)
    requires k < |chiefs| && Sum(chiefs, ChiefLock) <= 0 && Sum(chiefs, Announces) <= 0
    ensures ChiefLock(chiefs[k]) == 0 && !chiefs[k].Announcing?
  {
    SumOthers(chiefs, k, ChiefLock, ChiefLock);
    SumOthers(chiefs, k, Announces, Announces);
  }

  lemma CalmCourier(couriers: seq<Courier>, k: nat)
    requires k < |couriers| && Sum(couriers, CourierLock) <= 0 && Sum(couriers, Returns) <= 0
    ensures CourierLock(couriers[k]) == 0 && !couriers[k].Emptying? && !couriers[k].GiveBack?
  {
    SumOthers(couriers, k, CourierLock, CourierLock);
    SumOthers(couriers, k, Returns, Returns);
  }

  lemma CalmSums(s: System)
    requires NoFailure(s)
    requires forall k :: 0 <= k < |s.chiefs| ==> ChiefLock(s.chiefs[k]) == 0 && !s.chiefs[k].Announcing?
    requires forall k :: 0 <= k < |s.couriers| ==>
               CourierLock(s.couriers[k]) == 0 && !s.couriers[k].Emptying? && !s.couriers[k].GiveBack?
    ensures Sum(s.chiefs, ChiefReady) == 0 && Sum(s.couriers, CourierEmpty) == 0
    ensures Sum(s.couriers, CourierReady) == Sum(s.couriers, Queues)
  {
    SumConstant(s.chiefs, ChiefReady, 0);
    SumConstant(s.couriers, CourierEmpty, 0);
    SumSame(s.couriers, CourierReady, Queues);
  }

  lemma {:induction false} SumSame<T>(s: seq<T>, v: T -> int, w: T -> int)
    requires forall k :: 0 <= k < |s| ==> v(s[k]) == w(s[k])
    ensures Sum(s, v) == Sum(s, w)
  {
    if s != [] {
      SumSame(s[1..], v, w);
    }
  }

  function Missing(c: Config): Chief -> int
  {
    p => c.work - Made(c, p)
  }

  lemma {:induction false} MissingSum(c: Config, chiefs: seq<Chief>)
    ensures Sum(chiefs, Missing(c)) == |chiefs| * c.work - Sum(chiefs, MadeBy(c))
  {
    if chiefs != [] {
      MissingSum(c, chiefs[1..]);
      assert |chiefs| * c.work == |chiefs[1..]| * c.work + c.work;
    }
  }

  /** An empty table and a pizza still to be made: some chief can go on. */
  lemma MakeOne(c: Config, s: System) returns (action: Action)
    requires Inv(c, s) && Calm(s) && Full(s) == 0 && |s.placed| < c.chiefs * c.work
    ensures Enabled(c, s, action) && action.ChiefStep? && Nearer(c, s, action)
  {
    CalmCredits(c, s);
    MissingSum(c, s.chiefs);
    var k := SumWitness(s.chiefs, Missing(c));
    if s.empty == 0 {
      k := SumWitness(s.chiefs, ChiefEmpty);
    }
    assert Sane(c, s.chiefs[k]);
    ChiefNearer(c, s, k);
    return ChiefStep(k);
  }

  /** A pizza on the table and a courier in play: some courier can go on. */
  lemma FetchOne(c: Config, s: System, k: nat) returns (action: Action)
    requires Inv(c, s) && Calm(s) && Full(s) > 0 && InPlay(s, k)
    ensures Enabled(c, s, action) && Nearer(c, s, action)
  {
    CalmCredits(c, s);
    var j := k;
    if Sum(s.couriers, Queues) > 0 {
      j := SumWitness(s.couriers, Queues);
    } else if s.couriers[k].GetTable? {
      SumOthers(s.couriers, k, Queues, Queues);
    }
    CourierNearer(c, s, j);
    return CourierStep(j);
  }

  // ---------- schedules ----------

  lemma Extend(c: Config, run: seq<Action>, action: Action)
    requires c.slots >= 1 && Valid(c, run) && Enabled(c, Exec(c, run), action)
    ensures Valid(c, run + [action])
    ensures Exec(c, run + [action]) == Apply(c, Exec(c, run), action)
  {
    assert (run + [action])[..|run|] == run;
  }

  lemma ChooseNearer(c: Config, s: System, k: nat) returns (action: Action)
    requires Inv(c, s) && InPlay(s, k) && |s.taken| < c.chiefs * c.work
    ensures Enabled(c, s, action) && Nearer(c, s, action)
  {
    if !Calm(s) {
      action := LetOut(c, s);
    } else if Full(s) > 0 {
      action := FetchOne(c, s, k);
    } else {
      action := MakeOne(c, s);
    }
  }

  lemma ChiefInPlay(c: Config, s: System, action: Action, k: nat)
    requires Inv(c, s) && InPlay(s, k) && Enabled(c, s, action) && action.ChiefStep?
    ensures InPlay(Apply(c, s, action), k)
  {
    var j := action.k;
    ChiefBalance(c, s, j);
    if s.chiefs[j].Counting? {
      ChiefAlone(c, s, j);
      Bounds(s);
    }
  }

  /** While a courier is in play and a pizza is undelivered, some schedule delivers one more, and
      leaves a courier in play. */
  lemma DeliverOne(c: Config, run: seq<Action>, k: nat) returns (longer: seq<Action>, j: nat)
    requires c.slots >= 1 && Valid(c, run)
    requires InPlay(Exec(c, run), k) && |Exec(c, run).taken| < c.chiefs * c.work
    ensures run <= longer && Valid(c, longer) && InPlay(Exec(c, longer), j)
    ensures |Exec(c, longer).taken| == |Exec(c, run).taken| + 1
    decreases Effort(c, Exec(c, run))
  {
    hide Exec, Valid, Effort, Inv, Full, InPlay;
    var s := Exec(c, run);
    RunKeeps(c, run);
    EffortBound(c, s);
    var action := ChooseNearer(c, s, k);
    Extend(c, run, action);
    var next := run + [action];
    var t := Exec(c, next);
    RunKeeps(c, next);
    EffortBound(c, t);
    if action.ChiefStep? {
      ChiefInPlay(c, s, action, k);
      longer, j := DeliverOne(c, next, k);
    } else if |t.taken| == |s.taken| + 1 {
      longer, j := next, action.k;
    } else {
      CourierMove(c, s, action.k);
      longer, j := DeliverOne(c, next, action.k);
    }
  }

  /** From every reachable state with a courier in play, some schedule delivers every pizza. */
  lemma DeliverAll(c: Config, run: seq<Action>, k: nat) returns (longer: seq<Action>)
    requires c.slots >= 1 && Valid(c, run) && InPlay(Exec(c, run), k)
    ensures run <= longer && Valid(c, longer)
    ensures |Exec(c, longer).taken| == c.chiefs * c.work
    decreases c.chiefs * c.work - |Exec(c, run).taken|
  {
    TakenBound(c, run);
    if |Exec(c, run).taken| == c.chiefs * c.work {
      longer := run;
    } else {
      var next, j := DeliverOne(c, run, k);
      TakenBound(c, next);
      longer := DeliverAll(c, next, j);
    }
  }

  /** The same for any courier that has not left, even between its two reads: if it has read a
      zero, the chiefs are scheduled until its next read does not. */
  lemma DeliverFrom(c: Config, run: seq<Action>, k: nat) returns (longer: seq<Action>)
    requires c.slots >= 1 && Valid(c, run)
    requires k < |Exec(c, run).couriers| && Exec(c, run).couriers[k] != Done
    ensures run <= longer && Valid(c, longer)
    ensures |Exec(c, longer).taken| == c.chiefs * c.work
    decreases Effort(c, Exec(c, run))
  {
    hide Exec, Valid, Effort, Inv, Full;
    var s := Exec(c, run);
    RunKeeps(c, run);
    TakenBound(c, run);
    EffortBound(c, s);
    if |s.taken| == c.chiefs * c.work {
      return run;
    }
    StillPlays(c, s, k);
    if InPlay(s, k) {
      longer := DeliverAll(c, run, k);
      return;
    }
    var action := ChooseIdle(c, s);
    Extend(c, run, action);
    var next := run + [action];
    RunKeeps(c, next);
    EffortBound(c, Exec(c, next));
    if action.CourierStep? {
      longer := DeliverAll(c, next, action.k);
    } else {
      ChiefCouriers(c, s, action.k);
      longer := DeliverFrom(c, next, k);
    }
  }

  /** A courier that has not left and is not in play has read one zero and would read another. */
  lemma StillPlays(c: Config, s: System, k: nat)
    requires Inv(c, s) && k < |s.couriers| && s.couriers[k] != Done
    ensures InPlay(s, k) || (s.couriers[k].TestPizzas? && s.table.pizzaCount == 0)
  {
    hide Credits, Ring, Fifo, Sane;
    OneSound(s, k);
  }

  /** No pizza counted: someone can be scheduled that brings one nearer. */
  lemma ChooseIdle(c: Config, s: System) returns (action: Action)
    requires Inv(c, s) && s.table.pizzaCount == 0 && |s.taken| < c.chiefs * c.work
    ensures Enabled(c, s, action) && Nearer(c, s, action)
  {
    hide Nearer, Enabled, Credits, Ring, Sane, ByChief, MadeBy, NoFailure;
    if Calm(s) {
      CalmCredits(c, s);
      assert |s.placed| == |s.taken| + Full(s);
      action := MakeOne(c, s);
    } else {
      action := LetOut(c, s);
    }
  }

  lemma ChiefCouriers(c: Config, s: System, k: nat)
    requires Inv(c, s) && Enabled(c, s, ChiefStep(k))
    ensures Apply(c, s, ChiefStep(k)).couriers == s.couriers
  {
    hide Credits, Ring, Fifo, NoFailure, Sane;
    assert Sane(c, s.chiefs[k]);
    ChiefBalance(c, s, k);
  }

  ghost predicate CanDeliverAll(c: Config, run: seq<Action>)
    requires Valid(c, run)
  {
    exists longer :: run <= longer && Valid(c, longer) && |Exec(c, longer).taken| == c.chiefs * c.work
  }

  predicate AllGone(s: System)
  {
    forall k :: 0 <= k < |s.couriers| ==> s.couriers[k] == Done
  }

  lemma {:induction false} GoneTakesNothing(c: Config, run: seq<Action>, longer: seq<Action>)
    requires Valid(c, longer) && run <= longer && Valid(c, run) && AllGone(Exec(c, run))
    ensures AllGone(Exec(c, longer)) && Exec(c, longer).taken == Exec(c, run).taken
  {
    if run == longer {
    } else {
      var before := longer[..|longer| - 1];
      assert run <= before;
      GoneTakesNothing(c, run, before);
      GoneStep(c, Exec(c, before), longer[|longer| - 1]);
    }
  }

  lemma GoneStep(c: Config, s: System, action: Action)
    requires Enabled(c, s, action) && AllGone(s)
    ensures AllGone(Apply(c, s, action)) && Apply(c, s, action).taken == s.taken
  {
  }

  /** From a reachable state some schedule delivers every pizza exactly when all are delivered
      already or some courier has not left: the three semaphores never lock each other out. */
  lemma CanDeliverIff(c: Config, run: seq<Action>)
    requires c.slots >= 1 && Valid(c, run)
    ensures CanDeliverAll(c, run)
        <==> |Exec(c, run).taken| == c.chiefs * c.work || !AllGone(Exec(c, run))
  {
    hide Exec, Valid;
    var s := Exec(c, run);
    if |s.taken| == c.chiefs * c.work {
      assert run <= run;
    } else if AllGone(s) {
      forall longer | run <= longer && Valid(c, longer)
        ensures Exec(c, longer).taken == s.taken
      {
        GoneTakesNothing(c, run, longer);
      }
    } else {
      var k: nat :| k < |s.couriers| && s.couriers[k] != Done;
      var longer := DeliverFrom(c, run, k);
    }
  }

  lemma TakenBound(c: Config, run: seq<Action>)
    requires c.slots >= 1 && Valid(c, run)
    ensures |Exec(c, run).taken| <= |Exec(c, run).placed| <= c.chiefs * c.work
  {
    var s := Exec(c, run);
    RunKeeps(c, run);
    MissingSum(c, s.chiefs);
    SumBelow(s.chiefs, Missing(c), Missing(c));
  }
}
