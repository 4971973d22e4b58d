/** When the whole program can be run to its end. */
module PizzaEnd {
  import opened Sums
  import opened PizzaTable
  import opened PizzaSystem
  import opened PizzaProofs
  import opened PizzaTheorems
  import opened PizzaProgress

  /** Every process has returned. */
  predicate Ended(s: System)
  {
    && (forall k :: 0 <= k < |s.chiefs| ==> s.chiefs[k].Home?)
    && AllGone(s)
  }

  ghost predicate CanEnd(c: Config, run: seq<Action>)
    requires Valid(c, run)
  {
    exists longer :: run <= longer && Valid(c, longer) && Ended(Exec(c, longer))
  }

  /** Nothing more has to be taken for the chiefs to get home: all is taken already, or nobody is
      left to take anything and the rest fits on the table. */
  predicate Settled(c: Config, s: System)
  {
    || |s.taken| == c.chiefs * c.work
    || (AllGone(s) && c.chiefs * c.work - |s.taken| <= c.slots)
  }

  // ---------- steps left ----------

  function LeavingEffort(p: Courier): int
  {
    match p
    case Moving => 7
    case Discounting => 6
    case Freeing => 5
    case Emptying => 4
    case GetReady => 3
    case TestChiefs => 2
    case TestPizzas => 1
    case _ => 0
  }

  function EndEffort(c: Config, s: System): int
  {
    Sum(s.chiefs, EffortOf(c)) + Sum(s.couriers, LeavingEffort)
  }

  lemma EndEffortBound(c: Config, s: System)
    ensures EndEffort(c, s) >= 0
  {
    SumBelow(s.chiefs, EffortOf(c), EffortOf(c));
    SumBelow(s.couriers, LeavingEffort, LeavingEffort);
  }

  /** A step towards the end: it takes nothing, stays settled and lowers the effort. */
  predicate Homeward(c: Config, s: System, action: Action)
    requires Enabled(c, s, action)
  {
    var t := Apply(c, s, action);
    Settled(c, t) && EndEffort(c, t) < EndEffort(c, s)
  }

  lemma ChiefHomeward(c: Config, s: System, k: nat)
    requires Inv(c, s) && Enabled(c, s, ChiefStep(k)) && Settled(c, s)
    ensures Homeward(c, s, ChiefStep(k))
  {
    hide Credits, Ring, Fifo, NoFailure, Sum, EffortOf, Full;
    var t := ChiefMoves(c, s, k);
    assert Sane(c, s.chiefs[k]);
    ChiefBalance(c, s, k);
    ChiefFalls(c, s, k);
    SumUpdate(s.chiefs, k, t.chiefs[k], EffortOf(c));
  }

  /** A courier with no pizza to take, on its way out. */
  predicate Leaves(s: System, p: Courier)
  {
    match p
    case Moving => true
    case Discounting => true
    case Freeing => true
    case Emptying => true
    case GetReady => s.ready <= 0
    case TestChiefs => s.table.chiefsCount == 0
    case TestPizzas => s.table.pizzaCount == 0
    case _ => false
  }

  lemma CourierHomeward(c: Config, s: System, k: nat)
    requires Inv(c, s) && k < c.couriers && Leaves(s, s.couriers[k]) && |s.taken| == c.chiefs * c.work
    ensures Enabled(c, s, CourierStep(k)) && Homeward(c, s, CourierStep(k))
  {
    hide Credits, Ring, Fifo, NoFailure, Sum, Full;
    var t := CourierMoves(c, s, k);
    CourierMove(c, s, k);
    SumUpdate(s.couriers, k, t.couriers[k], LeavingEffort);
  }

  // ---------- who can go ----------

  /** With everything taken, the table is empty, no credit is out, and all pizzas are made. */
  lemma AllTakenMeans(c: Config, s: System)
    requires Inv(c, s) && |s.taken| == c.chiefs * c.work
    ensures Full(s) == 0 && s.ready == 0 && Sum(s.couriers, CourierReady) == 0
    ensures forall k :: 0 <= k < c.chiefs ==> Made(c, s.chiefs[k]) == c.work
    ensures forall k :: 0 <= k < c.couriers ==> CourierReady(s.couriers[k]) == 0
  {
    hide Filled, ByChief, NoFailure, Sane;
    Bounds(s);
    assert |s.placed| == |s.taken| + Full(s);
    MissingSum(c, s.chiefs);
    SumBelow(s.chiefs, Missing(c), Missing(c));
    forall k | 0 <= k < c.chiefs ensures Made(c, s.chiefs[k]) == c.work {
      SumOthers(s.chiefs, k, Missing(c), Missing(c));
    }
    forall k | 0 <= k < c.couriers ensures CourierReady(s.couriers[k]) == 0 {
      SumOthers(s.couriers, k, CourierReady, CourierReady);
    }
  }

  /** With nobody left to take, a chief at the loop test with work to do finds an empty place. */
  lemma RoomLeft(c: Config, s: System, k: nat)
    requires Inv(c, s) && Settled(c, s) && k < c.chiefs
    requires s.chiefs[k].Working? && s.chiefs[k].i < c.work
    ensures s.empty > 0
  {
    assert Made(c, s.chiefs[k]) < c.work;
    if |s.taken| == c.chiefs * c.work {
      AllTakenMeans(c, s);
    } else {
      RoomWhenGone(c, s, k);
    }
  }

  lemma RoomWhenGone(c: Config, s: System, k: nat)
    requires Inv(c, s) && AllGone(s) && c.chiefs * c.work - |s.taken| <= c.slots && k < c.chiefs
    requires s.chiefs[k].Working? && s.chiefs[k].i < c.work
    ensures s.empty > 0
  {
    hide Filled, ByChief, NoFailure, ChiefLock, ChiefReady;
    assert |s.placed| == |s.taken| + Full(s);
    MissingSum(c, s.chiefs);
    SumConstant(s.couriers, CourierEmpty, 0);
    forall j | 0 <= j < c.chiefs ensures 0 <= ChiefEmpty(s.chiefs[j]) <= Missing(c)(s.chiefs[j]) {
      assert Sane(c, s.chiefs[j]);
    }
    SumOthers(s.chiefs, k, ChiefEmpty, Missing(c));
  }

  /** Someone in the critical section can go on. */
  lemma InsideGoes(c: Config, s: System) returns (action: Action)
    requires Inv(c, s) && Settled(c, s) && s.mutex == 0
    ensures Enabled(c, s, action) && Homeward(c, s, action)
  {
    hide Ring, Fifo, NoFailure, Homeward, Full, Settled;
    if Sum(s.chiefs, ChiefLock) > 0 {
      var k := SumWitness(s.chiefs, ChiefLock);
      ChiefHomeward(c, s, k);
      return ChiefStep(k);
    }
    var k := SumWitness(s.couriers, CourierLock);
    HolderLeaves(c, s, k);
    CourierHomeward(c, s, k);
    return CourierStep(k);
  }

  lemma HolderLeaves(c: Config, s: System, k: nat)
    requires Inv(c, s) && Settled(c, s) && k < c.couriers && CourierLock(s.couriers[k]) > 0
    ensures |s.taken| == c.chiefs * c.work && Leaves(s, s.couriers[k])
  {
    hide Ring, Fifo, Credits, Sane;
    OneSound(s, k);
    AllTakenMeans(c, s);
  }

  /** A chief that is not home can go on, itself or by letting someone out. */
  lemma ChiefGoes(c: Config, s: System, k: nat) returns (action: Action)
    requires Inv(c, s) && Settled(c, s) && k < c.chiefs && !s.chiefs[k].Home?
    ensures Enabled(c, s, action) && Homeward(c, s, action)
  {
    if s.mutex == 0 {
      action := InsideGoes(c, s);
    } else {
      if s.chiefs[k].Working? && s.chiefs[k].i < c.work {
        RoomLeft(c, s, k);
      }
      CanStep(c, s, k);
      ChiefHomeward(c, s, k);
      return ChiefStep(k);
    }
  }

  lemma CanStep(c: Config, s: System, k: nat)
    requires Inv(c, s) && k < c.chiefs && !s.chiefs[k].Home? && s.mutex != 0
    requires s.chiefs[k].Working? && s.chiefs[k].i < c.work ==> s.empty > 0
    ensures Enabled(c, s, ChiefStep(k))
  {
    hide Ring, Fifo, Sane, NoFailure;
  }

  /** With every chief home, a courier that has not left can. */
  lemma CourierGoes(c: Config, s: System, k: nat) returns (action: Action)
    requires Inv(c, s) && |s.taken| == c.chiefs * c.work && k < c.couriers && s.couriers[k] != Done
    requires forall j :: 0 <= j < c.chiefs ==> s.chiefs[j].Home?
    ensures Enabled(c, s, action) && Homeward(c, s, action)
  {
    hide Homeward, Ring, Fifo;
    AllTakenMeans(c, s);
    var j := k;
    if s.couriers[k].TestPizzas? && s.table.pizzaCount != 0 {
      SumConstant(s.chiefs, ChiefUncounted, 0);
      SumBelow(s.couriers, CourierUncounted, CourierUncounted);
      j := SumWitness(s.couriers, CourierUncounted);
    } else if s.couriers[k].TestChiefs? {
      SumConstant(s.chiefs, ChiefCounted, 0);
    }
    OneSound(s, j);
    assert CourierReady(s.couriers[j]) == 0;
    CourierHomeward(c, s, j);
    return CourierStep(j);
  }

  // ---------- schedules ----------

  /** Settled, the program can be run to its end. */
  lemma RunHome(c: Config, run: seq<Action>) returns (longer: seq<Action>)
    requires c.slots >= 1 && Valid(c, run) && Settled(c, Exec(c, run))
    ensures run <= longer && Valid(c, longer) && Ended(Exec(c, longer))
    decreases EndEffort(c, Exec(c, run))
  {
    hide Exec, Valid, Inv, EndEffort, Apply, Enabled;
    var s := Exec(c, run);
    RunKeeps(c, run);
    EndEffortBound(c, s);
    Counts(c, s);
    var action;
    if k :| 0 <= k < c.chiefs && !s.chiefs[k].Home? {
      action := ChiefGoes(c, s, k);
    } else if j :| 0 <= j < c.couriers && s.couriers[j] != Done {
      action := CourierGoes(c, s, j);
    } else {
      return run;
    }
    Extend(c, run, action);
    var next := run + [action];
    RunKeeps(c, next);
    EndEffortBound(c, Exec(c, next));
    longer := RunHome(c, next);
  }

  lemma Counts(c: Config, s: System)
    requires Inv(c, s)
    ensures |s.chiefs| == c.chiefs && |s.couriers| == c.couriers
  {
  }

  /** Whatever the couriers do, no more than the slots' number can be left on the table. */
  lemma EndedBound(c: Config, run: seq<Action>)
    requires c.slots >= 1 && Valid(c, run) && Ended(Exec(c, run))
    ensures c.chiefs * c.work - |Exec(c, run).taken| <= c.slots
  {
    hide Exec, Valid, AllGone;
    FifoQueue(c, run);
  }

  /** From a reachable state some schedule brings every chief and every courier to its end exactly
      when a courier is left, or what has not been taken fits on the table. */
  lemma CanEndIff(c: Config, run: seq<Action>)
    requires c.slots >= 1 && Valid(c, run)
    ensures CanEnd(c, run)
        <==> !AllGone(Exec(c, run)) || c.chiefs * c.work - |Exec(c, run).taken| <= c.slots
  {
    hide Exec, Valid, Ended;
    var s := Exec(c, run);
    if !AllGone(s) {
      var k: nat :| k < |s.couriers| && s.couriers[k] != Done;
      var delivered := DeliverFrom(c, run, k);
      var longer := RunHome(c, delivered);
    } else if c.chiefs * c.work - |s.taken| <= c.slots {
      var longer := RunHome(c, run);
    } else if longer :| run <= longer && Valid(c, longer) && Ended(Exec(c, longer)) {
      GoneTakesNothing(c, run, longer);
      EndedBound(c, longer);
    }
  }
}
