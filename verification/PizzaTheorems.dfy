/** What the table and its semaphores promise, for any number of chiefs and couriers. */
module PizzaTheorems {
  import opened Sums
  import opened PizzaTable
  import opened PizzaSystem
  import opened PizzaProofs

  /** With the table free, the full slots are exactly the pizza_count places from the tail on,
      byte for byte "pizza", the others are five zeros, and the head is the place after them. */
  lemma SettledTable(c: Config, run: seq<Action>)
    requires c.slots >= 1 && Valid(c, run) && Exec(c, run).mutex > 0
    ensures var t := Exec(c, run).table;
            && 0 <= t.pizzaCount <= c.slots && t.tail < c.slots && |t.buffer| == c.slots * SIZE
            && (forall k: nat :: k < c.slots ==>
                  Slot(t.buffer, k)
                  == if Distance(c.slots, t.tail, k) < t.pizzaCount then "pizza" else "\0\0\0\0\0")
            && t.head == Ahead(c.slots, t.tail, t.pizzaCount)
  {
    var s := Exec(c, run);
    RunKeeps(c, run);
    Bounds(s);
  }

  /** No two processes are inside the critical section. */
  predicate Exclusive(s: System)
  {
    && (forall i, j :: 0 <= i < j < |s.chiefs| ==> ChiefLock(s.chiefs[i]) + ChiefLock(s.chiefs[j]) <= 1)
    && (forall i, j :: 0 <= i < j < |s.couriers| ==>
          CourierLock(s.couriers[i]) + CourierLock(s.couriers[j]) <= 1)
    && (forall i, j :: 0 <= i < |s.chiefs| && 0 <= j < |s.couriers| ==>
          ChiefLock(s.chiefs[i]) + CourierLock(s.couriers[j]) <= 1)
  }

  lemma OneLock(s: System)
    requires s.mutex >= 0 && s.mutex + Sum(s.chiefs, ChiefLock) + Sum(s.couriers, CourierLock) == 1
    ensures Exclusive(s)
  {
    Bounds(s);
    forall i, j | 0 <= i < j < |s.chiefs|
      ensures ChiefLock(s.chiefs[i]) + ChiefLock(s.chiefs[j]) <= 1
    {
      SumTwo(s.chiefs, i, j, ChiefLock);
    }
    forall i, j | 0 <= i < j < |s.couriers|
      ensures CourierLock(s.couriers[i]) + CourierLock(s.couriers[j]) <= 1
    {
      SumTwo(s.couriers, i, j, CourierLock);
    }
    forall i, j | 0 <= i < |s.chiefs| && 0 <= j < |s.couriers|
      ensures ChiefLock(s.chiefs[i]) + CourierLock(s.couriers[j]) <= 1
    {
      SumOthers(s.chiefs, i, ChiefLock, ChiefLock);
      SumOthers(s.couriers, j, CourierLock, CourierLock);
    }
  }

  /** The table is never in two hands. */
  lemma MutualExclusion(c: Config, run: seq<Action>)
    requires c.slots >= 1 && Valid(c, run)
    ensures Exclusive(Exec(c, run))
  {
    RunKeeps(c, run);
    OneLock(Exec(c, run));
  }

  lemma {:induction false} SumTwo<T>(s: seq<T>, i: nat, j: nat, w: T -> int)
    requires i < j < |s| && forall k :: 0 <= k < |s| ==> w(s[k]) >= 0
    ensures Sum(s, w) >= w(s[i]) + w(s[j])
  {
    if i == 0 {
      SumOthers(s[1..], j - 1, w, w);
    } else {
      SumTwo(s[1..], i - 1, j - 1, w);
    }
  }

  /** No pizza is written over another: a chief about to write has a blank slot before it. */
  lemma NoOverwrite(c: Config, run: seq<Action>, k: nat)
    requires c.slots >= 1 && Valid(c, run) && k < c.chiefs
    requires k < |Exec(c, run).chiefs| && Exec(c, run).chiefs[k].Writing?
    ensures var t := Exec(c, run).table;
            Shaped(c.slots, t) && Slot(t.buffer, t.head) == BLANK
  {
    RunKeeps(c, run);
    ChiefHasRoom(c, Exec(c, run), k);
  }

  /** The "Bad pizza" branch is never taken. */
  lemma NoBadPizza(c: Config, run: seq<Action>)
    requires c.slots >= 1 && Valid(c, run)
    ensures NoFailure(Exec(c, run))
    ensures forall k :: 0 <= k < |Exec(c, run).couriers| && Exec(c, run).couriers[k].Checking? ==>
              var t := Exec(c, run).table;
              Shaped(c.slots, t) && Slot(t.buffer, t.tail) == PIZZA
  {
    var s := Exec(c, run);
    RunKeeps(c, run);
    forall k | 0 <= k < c.couriers && s.couriers[k].Checking?
      ensures Slot(s.table.buffer, s.table.tail) == PIZZA
    {
      GoodPizza(c, s, k);
    }
  }

  /** The table is a bounded FIFO queue: the pizzas placed are the pizzas taken, in the same
      order, and then those on the table from the first to the last; each chief's come in the
      order it made them, none twice, none missing. */
  lemma FifoQueue(c: Config, run: seq<Action>)
    requires c.slots >= 1 && Valid(c, run)
    ensures var s := Exec(c, run);
            && s.taken <= s.placed && |s.placed| - |s.taken| <= c.slots
            && |s.chiefs| == c.chiefs
            && (s.mutex > 0 ==>
                  && s.table.tail < c.slots && 0 <= s.table.pizzaCount <= c.slots && |s.tags| == c.slots
                  && s.placed == s.taken + Window(c.slots, s.tags, s.table.tail, s.table.pizzaCount))
            && (forall k :: 0 <= k < c.chiefs ==>
                  && 0 <= Made(c, s.chiefs[k]) <= c.work
                  && ByChief(s.placed, k) == seq(Made(c, s.chiefs[k]), i => i))
            && ((forall k :: 0 <= k < c.chiefs ==> s.chiefs[k].Home?) ==> |s.placed| == c.chiefs * c.work)
  {
    hide Exec, Valid, Sane, Filled, ByChief, NoFailure;
    var s := Exec(c, run);
    RunKeeps(c, run);
    Bounds(s);
    if forall k :: 0 <= k < c.chiefs ==> s.chiefs[k].Home? {
      SumConstant(s.chiefs, MadeBy(c), c.work);
    }
  }

  // ---------- leaving ----------

  predicate Registered(s: System)
  {
    forall k :: 0 <= k < |s.chiefs| ==> !s.chiefs[k].Arriving? && !s.chiefs[k].Registering?
  }

  /** Every chief has taken itself off the count. */
  predicate AllLeft(s: System)
  {
    forall k :: 0 <= k < |s.chiefs| ==> s.chiefs[k].Deregistered? || s.chiefs[k].Home?
  }

  lemma LeftWhenUncounted(c: Config, s: System)
    requires Inv(c, s) && Registered(s) && s.table.chiefsCount == 0
    ensures AllLeft(s)
  {
    forall k | 0 <= k < c.chiefs ensures s.chiefs[k].Deregistered? || s.chiefs[k].Home? {
      SumOthers(s.chiefs, k, ChiefCounted, ChiefCounted);
    }
  }

  lemma StepsLeft(c: Config, s: System, action: Action)
    requires Enabled(c, s, action) && AllLeft(s)
    ensures var t := Apply(c, s, action);
            AllLeft(t) && t.placed == s.placed && s.taken <= t.taken
  {
    match action {
      case ChiefStep(k) => assert s.chiefs[k].Deregistered?;
      case CourierStep(k) => CourierMove(c, s, k);
    }
  }

  lemma {:induction false} StaysLeft(c: Config, run: seq<Action>, longer: seq<Action>)
    requires c.slots >= 1 && Valid(c, longer) && run <= longer && Valid(c, run)
    requires AllLeft(Exec(c, run))
    ensures AllLeft(Exec(c, longer)) && Exec(c, longer).placed == Exec(c, run).placed
    ensures Exec(c, run).taken <= Exec(c, longer).taken
  {
    if run == longer {
    } else {
      var before := longer[..|longer| - 1];
      assert run <= before;
      StaysLeft(c, run, before);
      StepsLeft(c, Exec(c, before), longer[|longer| - 1]);
    }
  }

  predicate Drained(c: Config, s: System)
  {
    && s.placed == s.taken && |s.placed| == c.chiefs * c.work
    && |s.table.buffer| == c.slots * SIZE
    && forall k: nat :: k < c.slots ==> Slot(s.table.buffer, k) == BLANK
  }

  lemma DrainedWhenZero(c: Config, s: System)
    requires Inv(c, s) && AllLeft(s) && s.table.pizzaCount <= 0
    ensures Drained(c, s)
  {
    Bounds(s);
    SumConstant(s.chiefs, ChiefUncounted, 0);
    assert Full(s) == 0;
    FullZero(c, s);
  }

  /** Sound exit, although neither count is read under the lock.  Once every chief has
      registered, a chiefs_count of 0 followed, however much later, by a pizza_count of 0 means
      that every pizza ever to be placed has been taken, and that the buffer is zero for good. */
  lemma SoundExit(c: Config, first: seq<Action>, second: seq<Action>, later: seq<Action>)
    requires c.slots >= 1 && Valid(c, later) && first <= second <= later
    requires Valid(c, first) && Valid(c, second)
    requires Registered(Exec(c, first)) && Exec(c, first).table.chiefsCount == 0
    requires Exec(c, second).table.pizzaCount == 0
    ensures Drained(c, Exec(c, second)) && Drained(c, Exec(c, later))
    ensures Exec(c, later).placed == Exec(c, second).taken
  {
    hide Exec, Valid, Inv, AllLeft, Registered;
    RunKeeps(c, first);
    RunKeeps(c, second);
    RunKeeps(c, later);
    LeftWhenUncounted(c, Exec(c, first));
    StaysLeft(c, first, second);
    StaysLeft(c, second, later);
    DrainedWhenZero(c, Exec(c, second));
    assert Exec(c, later).placed == Exec(c, second).placed == Exec(c, second).taken;
    NoneFull(c, Exec(c, later));
    FullZero(c, Exec(c, later));
  }

  lemma NoneFull(c: Config, s: System)
    requires Inv(c, s) && |s.placed| <= |s.taken|
    ensures Full(s) == 0
  {
    hide Sane, Filled, Credits, NoFailure, ByChief;
    assert |s.placed| == |s.taken| + Full(s);
  }

  /** All pizzas made and all taken: the table is blank. */
  lemma FullZero(c: Config, s: System)
    requires Inv(c, s) && AllLeft(s) && Full(s) == 0
    ensures Drained(c, s)
  {
    hide Sane, Credits, NoFailure, ByChief;
    SumConstant(s.chiefs, MadeBy(c), c.work);
  }

  lemma StepsRegistered(c: Config, s: System, action: Action)
    requires Enabled(c, s, action) && Registered(s)
    ensures Registered(Apply(c, s, action))
  {
    match action {
      case ChiefStep(k) =>
      case CourierStep(k) => CourierMove(c, s, k);
    }
  }

  /** What holds of a courier that began its test after every chief had registered: between its two
      reads all chiefs have left, and once it is gone nothing is left to fetch. */
  predicate LeavesRightly(c: Config, s: System, k: nat)
    requires k < |s.couriers|
  {
    && (s.couriers[k].TestPizzas? ==> AllLeft(s))
    && (s.couriers[k].Done? ==> AllLeft(s) && Drained(c, s))
  }

  lemma StepsDrained(c: Config, s: System, action: Action)
    requires Inv(c, s) && Enabled(c, s, action) && Inv(c, Apply(c, s, action)) && AllLeft(s) && Drained(c, s)
    ensures AllLeft(Apply(c, s, action)) && Drained(c, Apply(c, s, action))
  {
    hide Inv, AllLeft, Enabled, Apply;
    var t := Apply(c, s, action);
    StepsLeft(c, s, action);
    NoneFull(c, t);
    FullZero(c, t);
  }

  /** The two reads of the loop test. */
  lemma TestLeaves(c: Config, s: System, k: nat)
    requires Inv(c, s) && Registered(s) && k < |s.couriers| && LeavesRightly(c, s, k)
    requires s.couriers[k].TestChiefs? || s.couriers[k].TestPizzas?
    ensures var t := CourierMoves(c, s, k);
            |t.couriers| == |s.couriers| && LeavesRightly(c, t, k)
  {
    hide Credits, Ring, Fifo, Sane, NoFailure, Drained, AllLeft;
    var t := CourierMoves(c, s, k);
    CourierMove(c, s, k);
    if t.couriers[k].TestPizzas? {
      LeftWhenUncounted(c, s);
      SameLeft(s, t);
    } else if t.couriers[k].Done? {
      DrainedWhenZero(c, s);
      SameLeft(s, t);
      SameDrained(c, s, t);
    }
  }

  lemma SameLeft(s: System, t: System)
    requires s.chiefs == t.chiefs
    ensures AllLeft(s) <==> AllLeft(t)
  {
  }

  lemma SameDrained(c: Config, s: System, t: System)
    requires Drained(c, s) && s.placed == t.placed && s.taken == t.taken && s.table == t.table
    ensures Drained(c, t)
  {
  }

  lemma StepLeavesRightly(c: Config, s: System, action: Action, k: nat)
    requires Inv(c, s) && Enabled(c, s, action) && Inv(c, Apply(c, s, action))
    requires Registered(s) && k < c.couriers && LeavesRightly(c, s, k)
    ensures |Apply(c, s, action).couriers| == c.couriers && LeavesRightly(c, Apply(c, s, action), k)
  {
    hide Credits, Ring, Fifo, Sane, NoFailure, Drained, AllLeft, Registered;
    var t := Apply(c, s, action);
    if action == CourierStep(k) && (s.couriers[k].TestChiefs? || s.couriers[k].TestPizzas?) {
      TestLeaves(c, s, k);
    } else {
      assert t.couriers[k].TestPizzas? || t.couriers[k].Done? ==> t.couriers[k] == s.couriers[k];
      if s.couriers[k].Done? {
        StepsDrained(c, s, action);
      } else if s.couriers[k].TestPizzas? {
        StepsLeft(c, s, action);
      }
    }
  }

  lemma {:induction false} RunLeavesRightly(c: Config, first: seq<Action>, later: seq<Action>, k: nat)
    requires c.slots >= 1 && Valid(c, later) && first <= later && Valid(c, first) && k < c.couriers
    requires Registered(Exec(c, first))
    requires |Exec(c, first).couriers| == c.couriers
    requires Exec(c, first).couriers[k] != TestPizzas && Exec(c, first).couriers[k] != Done
    ensures Registered(Exec(c, later)) && |Exec(c, later).couriers| == c.couriers
    ensures LeavesRightly(c, Exec(c, later), k)
  {
    hide Inv, LeavesRightly, Registered, Apply, Enabled;
    if first == later {
      AtNoTest(c, Exec(c, first), k);
    } else {
      var before := later[..|later| - 1];
      assert first <= before;
      RunLeavesRightly(c, first, before, k);
      RunKeeps(c, before);
      RunKeeps(c, later);
      StepsRegistered(c, Exec(c, before), later[|later| - 1]);
      StepLeavesRightly(c, Exec(c, before), later[|later| - 1], k);
    }
  }

  lemma AtNoTest(c: Config, s: System, k: nat)
    requires k < |s.couriers| && s.couriers[k] != TestPizzas && s.couriers[k] != Done
    ensures LeavesRightly(c, s, k)
  {
  }

  /** A courier that was anywhere but between its two reads when the last chief registered leaves
      only when every pizza there will ever be has been taken. */
  lemma LeavesDrained(c: Config, first: seq<Action>, later: seq<Action>, k: nat)
    requires c.slots >= 1 && Valid(c, later) && first <= later && Valid(c, first)
    requires Registered(Exec(c, first)) && k < |Exec(c, first).couriers|
    requires Exec(c, first).couriers[k] != TestPizzas && Exec(c, first).couriers[k] != Done
    requires k < |Exec(c, later).couriers| && Exec(c, later).couriers[k] == Done
    ensures Drained(c, Exec(c, later))
  {
    hide Exec, Valid, Inv, Registered;
    RunKeeps(c, first);
    SizedRun(c, Exec(c, first));
    RunLeavesRightly(c, first, later, k);
  }

  lemma SizedRun(c: Config, s: System)
    requires Inv(c, s)
    ensures |s.couriers| == c.couriers
  {
  }
}
