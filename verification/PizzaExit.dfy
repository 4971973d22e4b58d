/** Exactly when the couriers' unlocked exit test is right. */
module PizzaExit {
  import opened Sums
  import opened PizzaSystem
  import opened PizzaProofs
  import opened PizzaProgress

  /** The chief has written and counted all its pizzas. */
  predicate WorkDone(c: Config, p: Chief)
  {
    Made(c, p) == c.work && !p.Advancing? && !p.Counting?
  }

  /** Whatever happens from here on, every pizza placed is one already taken here. */
  ghost predicate NothingMissed(c: Config, run: seq<Action>)
    requires Valid(c, run)
  {
    forall longer :: run <= longer && Valid(c, longer) ==> Exec(c, longer).placed == Exec(c, run).taken
  }

  lemma {:induction false} PlacedGrows(c: Config, run: seq<Action>, longer: seq<Action>)
    requires c.slots >= 1 && Valid(c, longer) && run <= longer && Valid(c, run)
    ensures Exec(c, run).placed <= Exec(c, longer).placed
  {
    if run == longer {
    } else {
      var before := longer[..|longer| - 1];
      assert run <= before;
      PlacedGrows(c, run, before);
      match longer[|longer| - 1] {
        case ChiefStep(k) => ChiefPlaces(c, Exec(c, before), k);
        case CourierStep(k) => CourierMove(c, Exec(c, before), k);
      }
    }
  }

  lemma ChiefPlaces(c: Config, s: System, k: nat)
    requires Sized(c, s) && k < c.chiefs
    ensures s.placed <= ChiefMoves(c, s, k).placed
    ensures ChiefMoves(c, s, k).taken == s.taken && ChiefMoves(c, s, k).couriers == s.couriers
  {
  }

  /** With an empty table and a pizza still to be made, some schedule places it, whether or not
      any courier is left. */
  lemma PlaceOne(c: Config, run: seq<Action>) returns (longer: seq<Action>)
    requires c.slots >= 1 && Valid(c, run)
    requires Full(Exec(c, run)) == 0 && |Exec(c, run).placed| < c.chiefs * c.work
    ensures run <= longer && Valid(c, longer)
    ensures |Exec(c, longer).placed| > |Exec(c, run).placed|
    decreases Effort(c, Exec(c, run))
  {
    hide Exec, Inv, Effort, Valid;
    var s := Exec(c, run);
    RunKeeps(c, run);
    EffortBound(c, s);
    var action;
    if Calm(s) {
      action := MakeOne(c, s);
    } else {
      action := LetOut(c, s);
    }
    Extend(c, run, action);
    var next := run + [action];
    RunKeeps(c, next);
    EffortBound(c, Exec(c, next));
    PlacedGrows(c, run, next);
    if |Exec(c, next).placed| > |s.placed| {
      longer := next;
    } else {
      NotTaken(c, s, action);
      longer := PlaceOne(c, next);
    }
  }

  /** From an empty table nothing is taken. */
  lemma NotTaken(c: Config, s: System, action: Action)
    requires Inv(c, s) && Full(s) == 0 && Enabled(c, s, action)
    ensures Apply(c, s, action).taken == s.taken
  {
    match action {
      case ChiefStep(k) => ChiefNearer(c, s, k);
      case CourierStep(k) =>
        if s.couriers[k].Clearing? {
          GoodPizza(c, s, k);
        }
    }
  }

  lemma AllDone(c: Config, s: System)
    requires Inv(c, s) && s.table.pizzaCount == 0
    requires forall k :: 0 <= k < c.chiefs ==> WorkDone(c, s.chiefs[k])
    ensures s.placed == s.taken && |s.placed| == c.chiefs * c.work
  {
    Bounds(s);
    SumConstant(s.chiefs, MadeBy(c), c.work);
    SumConstant(s.chiefs, ChiefUncounted, 0);
    assert Full(s) == 0;
  }

  lemma SomeWorkLeft(c: Config, s: System, k: nat)
    requires Inv(c, s) && s.table.pizzaCount == 0 && k < c.chiefs && !WorkDone(c, s.chiefs[k])
    ensures s.placed != s.taken || (Full(s) == 0 && |s.placed| < c.chiefs * c.work)
  {
    Bounds(s);
    if ChiefUncounted(s.chiefs[k]) == 1 {
      ChiefAlone(c, s, k);
      assert Full(s) == 1;
      assert |s.placed| == |s.taken| + 1;
    } else if Full(s) == 0 {
      MissingSum(c, s.chiefs);
      SumOthers(s.chiefs, k, Missing(c), Missing(c));
    } else {
      assert |s.placed| == |s.taken| + Full(s);
    }
  }

  /** A courier that reads pizza_count as 0 may leave exactly when every chief has written and
      counted its last pizza: then, and only then, nothing it leaves behind is ever missed. */
  lemma ExitIffWorkDone(c: Config, run: seq<Action>)
    requires c.slots >= 1 && Valid(c, run) && Exec(c, run).table.pizzaCount == 0
    ensures |Exec(c, run).chiefs| == c.chiefs
    ensures NothingMissed(c, run)
            <==> forall k :: 0 <= k < c.chiefs ==> WorkDone(c, Exec(c, run).chiefs[k])
  {
    var s := Exec(c, run);
    RunKeeps(c, run);
    if forall k :: 0 <= k < c.chiefs ==> WorkDone(c, s.chiefs[k]) {
      AllDone(c, s);
      forall longer | run <= longer && Valid(c, longer)
        ensures Exec(c, longer).placed == s.taken
      {
        PlacedGrows(c, run, longer);
        TakenBound(c, longer);
      }
    } else {
      var k: nat :| k < c.chiefs && !WorkDone(c, s.chiefs[k]);
      SomeWorkLeft(c, s, k);
      assert run <= run;
      if s.placed == s.taken {
        var longer := PlaceOne(c, run);
        assert Exec(c, longer).placed != s.taken;
      }
    }
  }

  /** Before the chiefs have registered the test misfires: a courier scheduled first reads two
      zeros and leaves, and if it was the only one, nothing is ever delivered. */
  lemma EarlyExit(c: Config, longer: seq<Action>)
    requires c.slots >= 1 && c.couriers >= 1
    ensures var run := [CourierStep(0), CourierStep(0)];
            && Valid(c, run)
            && |Exec(c, run).couriers| == c.couriers && Exec(c, run).couriers[0] == Done
            && Exec(c, run).taken == []
            && (c.couriers == 1 && run <= longer && Valid(c, longer) ==> Exec(c, longer).taken == [])
  {
    var run := [CourierStep(0), CourierStep(0)];
    Extend(c, [], CourierStep(0));
    assert [] + [CourierStep(0)] == [CourierStep(0)];
    Extend(c, [CourierStep(0)], CourierStep(0));
    assert [CourierStep(0)] + [CourierStep(0)] == run;
    if c.couriers == 1 && run <= longer && Valid(c, longer) {
      NobodyTakes(c, run, longer);
    }
  }

  lemma {:induction false} NobodyTakes(c: Config, run: seq<Action>, longer: seq<Action>)
    requires c.couriers == 1 && Valid(c, longer) && run <= longer && Valid(c, run)
    requires Exec(c, run).couriers == [Done]
    ensures Exec(c, longer).taken == Exec(c, run).taken && Exec(c, longer).couriers == [Done]
  {
    if run == longer {
    } else {
      var before := longer[..|longer| - 1];
      assert run <= before;
      NobodyTakes(c, run, before);
      var s := Exec(c, before);
      match longer[|longer| - 1] {
        case ChiefStep(k) => ChiefPlaces(c, s, k);
        case CourierStep(k) =>
      }
    }
  }
}
