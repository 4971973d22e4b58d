/** What the scheduler may choose, and what one process does when it is left alone for a turn of
    its loop. */
module PizzaTurns {
  import opened PizzaTable
  import opened PizzaSystem
  import opened PizzaProofs
  import opened PizzaProgress
  import opened PizzaObject

  // ---------- what can happen ----------

  /** The semaphore the chief is about to wait for: the table's, or an empty place. */
  predicate WaitsForTable(c: Config, p: Chief)
  {
    p.Arriving? || p.Reserving? || (p.Working? && p.i >= c.work)
  }

  predicate WaitsForPlace(c: Config, p: Chief)
  {
    p.Working? && p.i < c.work
  }

  /** In every reachable state a chief is held up by its semaphore and by nothing else, and a
      courier by nothing at all until it has left. */
  lemma Schedules(c: Config, run: seq<Action>)
    requires c.slots >= 1 && Valid(c, run)
    ensures var s := Exec(c, run);
            && |s.chiefs| == c.chiefs && |s.couriers| == c.couriers
            && (forall k: nat :: k < c.couriers ==>
                  (Enabled(c, s, CourierStep(k)) <==> s.couriers[k] != Done))
            && (forall k: nat :: k < c.chiefs ==>
                  (Enabled(c, s, ChiefStep(k))
                   <==> && s.chiefs[k] != Home
                        && (WaitsForTable(c, s.chiefs[k]) ==> s.mutex > 0)
                        && (WaitsForPlace(c, s.chiefs[k]) ==> s.empty > 0)))
  {
    hide Exec, Valid, Credits, Ring, Fifo, Sane;
    RunKeeps(c, run);
  }

  predicate OtherProcess(action: Action, other: Action)
  {
    match action
    case ChiefStep(k) => other.ChiefStep? ==> other.k != k
    case CourierStep(k) => other.CourierStep? ==> other.k != k
  }

  /** An action of another process takes an action away only by taking the semaphore it waits for. */
  lemma StaysEnabled(c: Config, s: System, action: Action, other: Action)
    requires c.slots >= 1 && Enabled(c, s, action) && Enabled(c, s, other) && OtherProcess(action, other)
    ensures var t := Apply(c, s, other);
            && Sized(c, t)
            && (action.CourierStep? ==> Enabled(c, t, action))
            && (action.ChiefStep? ==>
                  (Enabled(c, t, action)
                   <==> && (WaitsForTable(c, s.chiefs[action.k]) ==> t.mutex > 0)
                        && (WaitsForPlace(c, s.chiefs[action.k]) ==> t.empty > 0)))
  {
    hide Write, Slot;
    match other {
      case ChiefStep(k) => ChiefLeaves(c, s, k);
      case CourierStep(k) => CourierMove(c, s, k);
    }
  }

  /** A chief's step changes no process but its own. */
  lemma ChiefLeaves(c: Config, s: System, k: nat)
    requires c.slots >= 1 && Sized(c, s) && k < c.chiefs
    ensures var t := ChiefMoves(c, s, k);
            && Sized(c, t) && t.couriers == s.couriers && |t.chiefs| == c.chiefs
            && forall j :: 0 <= j < c.chiefs && j != k ==> t.chiefs[j] == s.chiefs[j]
  {
  }

  // ---------- a turn of the chief's loop ----------

  /** A run goes on with steps of one process alone. */
  predicate Alone(run: seq<Action>, longer: seq<Action>, action: Action)
  {
    run <= longer && forall j :: |run| <= j < |longer| ==> longer[j] == action
  }

  lemma StepOn(c: Config, run: seq<Action>, longer: seq<Action>, action: Action)
    requires c.slots >= 1 && Valid(c, longer) && Enabled(c, Exec(c, longer), action) && Alone(run, longer, action)
    ensures Valid(c, longer + [action]) && Alone(run, longer + [action], action)
    ensures Exec(c, longer + [action]) == Apply(c, Exec(c, longer), action)
  {
    hide Exec, Valid, Enabled;
    Extend(c, longer, action);
  }

  function ChiefAt(s: System, k: nat, p: Chief): System
    requires k < |s.chiefs|
  {
    s.(chiefs := s.chiefs[k := p])
  }

  /** One step of a chief alone, from one place of its program to the next. */
  lemma ChiefOn(c: Config, run: seq<Action>, longer: seq<Action>, k: nat, s: System, p: Chief, t: System, q: Chief)
    returns (next: seq<Action>)
    requires c.slots >= 1 && Valid(c, longer) && Alone(run, longer, ChiefStep(k)) && Sized(c, s) && k < c.chiefs
    requires Exec(c, longer) == ChiefAt(s, k, p) && Enabled(c, ChiefAt(s, k, p), ChiefStep(k))
    requires t.chiefs == s.chiefs && ChiefMoves(c, ChiefAt(s, k, p), k) == ChiefAt(ChiefAt(t, k, p), k, q)
    ensures Valid(c, next) && Alone(run, next, ChiefStep(k)) && Exec(c, next) == ChiefAt(t, k, q)
  {
    hide Exec, Valid, Enabled, ChiefMoves;
    StepOn(c, run, longer, ChiefStep(k));
    next := longer + [ChiefStep(k)];
    assert t.chiefs[k := p][k := q] == t.chiefs[k := q];
  }

  /** A turn of a chief's loop, run alone with an empty place and the table free: one pizza more on
      the table and in its order, one empty place less, one ready pizza more, the table free again. */
  lemma ChiefTurn(c: Config, run: seq<Action>, k: nat, i: nat) returns (longer: seq<Action>)
    requires c.slots >= 1 && Valid(c, run) && k < c.chiefs && Sized(c, Exec(c, run))
    requires Exec(c, run).chiefs[k] == Working(i) && i < c.work
    requires Exec(c, run).empty > 0 && Exec(c, run).mutex > 0
    ensures Valid(c, longer) && Alone(run, longer, ChiefStep(k))
    ensures var s := Exec(c, run);
            Exec(c, longer)
            == s.(table := Placed(c.slots, s.table), empty := s.empty - 1, ready := s.ready + 1,
                  tags := s.tags[s.table.head := Ticket(k, i)], placed := s.placed + [Ticket(k, i)],
                  chiefs := s.chiefs[k := Working(i + 1)])
  {
    hide Exec, Valid, Write, Slot;
    var s := Exec(c, run);
    assert s.chiefs[k := Working(i)] == s.chiefs;
    var reserved := s.(empty := s.empty - 1);
    var locked := reserved.(mutex := s.mutex - 1);
    var written := locked.(table := s.table.(buffer := Write(s.table.buffer, s.table.head, PIZZA)),
                           tags := s.tags[s.table.head := Ticket(k, i)], placed := s.placed + [Ticket(k, i)]);
    longer := ChiefOn(c, run, run, k, s, Working(i), reserved, Reserving(i));
    longer := ChiefOn(c, run, longer, k, reserved, Reserving(i), locked, Writing(i));
    longer := ChiefOn(c, run, longer, k, locked, Writing(i), written, Advancing(i));
    longer := ChiefFinishes(c, run, longer, k, i, s, written);
  }

  lemma ChiefFinishes(c: Config, run: seq<Action>, started: seq<Action>, k: nat, i: nat, s: System, written: System)
    returns (longer: seq<Action>)
    requires c.slots >= 1 && Valid(c, started) && Alone(run, started, ChiefStep(k)) && k < c.chiefs && i < c.work
    requires Sized(c, s) && Sized(c, written) && written.chiefs == s.chiefs
    requires written.table == s.table.(buffer := Write(s.table.buffer, s.table.head, PIZZA))
    requires Exec(c, started) == ChiefAt(written, k, Advancing(i))
    ensures Valid(c, longer) && Alone(run, longer, ChiefStep(k))
    ensures Exec(c, longer)
            == written.(table := Placed(c.slots, s.table), mutex := written.mutex + 1, ready := written.ready + 1,
                        chiefs := s.chiefs[k := Working(i + 1)])
  {
    hide Exec, Valid, Write, Slot;
    var advanced := written.(table := written.table.(head := (s.table.head + 1) % c.slots));
    var counted := advanced.(table := Placed(c.slots, s.table));
    var freed := counted.(mutex := written.mutex + 1);
    longer := ChiefOn(c, run, started, k, written, Advancing(i), advanced, Counting(i));
    longer := ChiefOn(c, run, longer, k, advanced, Counting(i), counted, Releasing(i));
    longer := ChiefOn(c, run, longer, k, counted, Releasing(i), freed, Announcing(i));
    longer := ChiefOn(c, run, longer, k, freed, Announcing(i), freed.(ready := written.ready + 1), Working(i + 1));
  }

  /** Arriving and leaving, with the table free: chiefs_count one up, or one down after the last
      pizza, and nothing else. */
  lemma ChiefComesAndGoes(c: Config, run: seq<Action>, k: nat) returns (longer: seq<Action>)
    requires c.slots >= 1 && Valid(c, run) && k < c.chiefs && Sized(c, Exec(c, run)) && Exec(c, run).mutex > 0
    requires Exec(c, run).chiefs[k] == Arriving || Exec(c, run).chiefs[k] == Working(c.work)
    ensures Valid(c, longer) && Alone(run, longer, ChiefStep(k))
    ensures var s := Exec(c, run);
            Exec(c, longer)
            == if s.chiefs[k] == Arriving then
                 s.(table := Recounted(s.table, 1), chiefs := s.chiefs[k := Working(0)])
               else s.(table := Recounted(s.table, -1), chiefs := s.chiefs[k := Home])
  {
    hide Exec, Valid;
    var s := Exec(c, run);
    assert s.chiefs[k := s.chiefs[k]] == s.chiefs;
    var locked := s.(mutex := s.mutex - 1);
    var counted := locked.(table := Recounted(s.table, if s.chiefs[k] == Arriving then 1 else -1));
    var freed := counted.(mutex := s.mutex);
    if s.chiefs[k] == Arriving {
      longer := ChiefOn(c, run, run, k, s, Arriving, locked, Registering);
      longer := ChiefOn(c, run, longer, k, locked, Registering, counted, Chief.Registered);
      longer := ChiefOn(c, run, longer, k, counted, Chief.Registered, freed, Working(0));
    } else {
      longer := ChiefOn(c, run, run, k, s, Working(c.work), locked, Deregistering);
      longer := ChiefOn(c, run, longer, k, locked, Deregistering, counted, Deregistered);
      longer := ChiefOn(c, run, longer, k, counted, Deregistered, freed, Home);
    }
  }

  // ---------- a turn of the courier's loop ----------

  function CourierAt(s: System, k: nat, p: Courier): System
    requires k < |s.couriers|
  {
    s.(couriers := s.couriers[k := p])
  }

  lemma CourierOn(c: Config, run: seq<Action>, longer: seq<Action>, k: nat,
                  s: System, p: Courier, t: System, q: Courier) returns (next: seq<Action>)
    requires c.slots >= 1 && Valid(c, longer) && Alone(run, longer, CourierStep(k)) && Sized(c, s) && k < c.couriers
    requires Exec(c, longer) == CourierAt(s, k, p) && p != Done && p != Failed
    requires t.couriers == s.couriers && CourierMoves(c, CourierAt(s, k, p), k) == CourierAt(CourierAt(t, k, p), k, q)
    ensures Valid(c, next) && Alone(run, next, CourierStep(k)) && Exec(c, next) == CourierAt(t, k, q)
    ensures |next| == |longer| + 1
  {
    hide Exec, Valid, CourierMoves;
    StepOn(c, run, longer, CourierStep(k));
    next := longer + [CourierStep(k)];
    assert t.couriers[k := p][k := q] == t.couriers[k := q];
  }

  /** What a turn of courier k's loop, run alone, makes of the state. */
  function AfterTurn(c: Config, s: System, k: nat): System
    requires c.slots >= 1 && Sized(c, s) && k < c.couriers
  {
    if s.table.chiefsCount == 0 && s.table.pizzaCount == 0 then s.(couriers := s.couriers[k := Done])
    else if s.ready <= 0 || s.mutex <= 0 then s
    else s.(table := Fetched(c.slots, s.table), ready := s.ready - 1, empty := s.empty + 1,
            taken := s.taken + [s.tags[s.table.tail]])
  }

  /** A turn of a courier's loop, run alone: with both counts 0 it leaves; with nothing ready, or the
      table in use, everything is as before; otherwise it has taken the first pizza of the ring,
      there is one ready pizza less and one empty place more, and the table is free again. */
  lemma CourierTurn(c: Config, run: seq<Action>, k: nat) returns (longer: seq<Action>)
    requires c.slots >= 1 && Valid(c, run) && k < c.couriers
    requires Sized(c, Exec(c, run)) && Exec(c, run).couriers[k] == TestChiefs
    ensures Valid(c, longer) && Alone(run, longer, CourierStep(k)) && |longer| > |run|
    ensures Exec(c, longer) == AfterTurn(c, Exec(c, run), k)
  {
    hide Exec, Valid, Write, Slot;
    var s := Exec(c, run);
    assert s.couriers[k := TestChiefs] == s.couriers;
    longer := run;
    if s.table.chiefsCount == 0 {
      longer := CourierOn(c, run, longer, k, s, TestChiefs, s, TestPizzas);
      if s.table.pizzaCount == 0 {
        longer := CourierOn(c, run, longer, k, s, TestPizzas, s, Done);
        return;
      }
      longer := CourierOn(c, run, longer, k, s, TestPizzas, s, GetReady);
    } else {
      longer := CourierOn(c, run, longer, k, s, TestChiefs, s, GetReady);
    }
    longer := CourierTries(c, run, longer, k, s);
  }

  lemma CourierTries(c: Config, run: seq<Action>, started: seq<Action>, k: nat, s: System)
    returns (longer: seq<Action>)
    requires c.slots >= 1 && Valid(c, run) && Valid(c, started) && Alone(run, started, CourierStep(k))
    requires k < c.couriers && Sized(c, s) && s.couriers[k] == TestChiefs && s == Exec(c, run)
    requires s.table.chiefsCount != 0 || s.table.pizzaCount != 0
    requires Exec(c, started) == CourierAt(s, k, GetReady)
    ensures Valid(c, longer) && Alone(run, longer, CourierStep(k)) && |longer| > |started|
    ensures Exec(c, longer) == AfterTurn(c, s, k)
  {
    hide Exec, Valid, Write, Slot;
    assert s.couriers[k := TestChiefs] == s.couriers;
    if s.ready <= 0 {
      longer := CourierOn(c, run, started, k, s, GetReady, s, TestChiefs);
    } else {
      var ready := s.(ready := s.ready - 1);
      longer := CourierOn(c, run, started, k, s, GetReady, ready, GetTable);
      if s.mutex <= 0 {
        longer := CourierOn(c, run, longer, k, ready, GetTable, ready, GiveBack);
        longer := CourierOn(c, run, longer, k, ready, GiveBack, s, TestChiefs);
      } else {
        longer := CourierFetches(c, run, longer, k, s);
      }
    }
  }

  lemma CourierFetches(c: Config, run: seq<Action>, started: seq<Action>, k: nat, s: System)
    returns (longer: seq<Action>)
    requires c.slots >= 1 && Valid(c, run) && Valid(c, started) && Alone(run, started, CourierStep(k))
    requires k < c.couriers && Sized(c, s) && s.couriers[k] == TestChiefs && s == Exec(c, run)
    requires s.ready > 0 && s.mutex > 0
    requires Exec(c, started) == CourierAt(s.(ready := s.ready - 1), k, GetTable)
    ensures Valid(c, longer) && Alone(run, longer, CourierStep(k)) && |longer| > |started|
    ensures Exec(c, longer)
            == s.(table := Fetched(c.slots, s.table), ready := s.ready - 1, empty := s.empty + 1,
                  taken := s.taken + [s.tags[s.table.tail]])
  {
    hide Exec, Valid, Write, Slot;
    assert s.couriers[k := TestChiefs] == s.couriers;
    var ready := s.(ready := s.ready - 1);
    var locked := ready.(mutex := s.mutex - 1);
    longer := CourierOn(c, run, started, k, ready, GetTable, locked, Checking);
    TailIsPizza(c, longer, CourierAt(locked, k, Checking), k);
    longer := CourierOn(c, run, longer, k, locked, Checking, locked, Clearing);
    longer := CourierTakes(c, run, longer, k, s);
  }

  lemma TailIsPizza(c: Config, run: seq<Action>, s: System, k: nat)
    requires c.slots >= 1 && Valid(c, run) && Exec(c, run) == s && k < |s.couriers| && s.couriers[k] == Checking
    ensures Shaped(c.slots, s.table) && Slot(s.table.buffer, s.table.tail) == PIZZA
  {
    hide Exec, Valid, Slot, Credits, Ring, Fifo, NoFailure, Sane;
    RunKeeps(c, run);
    GoodPizza(c, s, k);
  }

  lemma CourierTakes(c: Config, run: seq<Action>, started: seq<Action>, k: nat, s: System)
    returns (longer: seq<Action>)
    requires c.slots >= 1 && Valid(c, run) && Valid(c, started) && Alone(run, started, CourierStep(k))
    requires k < c.couriers && Sized(c, s) && s.couriers[k] == TestChiefs && s == Exec(c, run)
    requires Exec(c, started) == CourierAt(s.(ready := s.ready - 1, mutex := s.mutex - 1), k, Clearing)
    ensures Valid(c, longer) && Alone(run, longer, CourierStep(k)) && |longer| > |started|
    ensures Exec(c, longer)
            == s.(table := Fetched(c.slots, s.table), ready := s.ready - 1, empty := s.empty + 1,
                  taken := s.taken + [s.tags[s.table.tail]])
  {
    hide Exec, Valid, Write, Slot;
    assert s.couriers[k := TestChiefs] == s.couriers;
    var locked := s.(ready := s.ready - 1, mutex := s.mutex - 1);
    var cleared := locked.(table := s.table.(buffer := Write(s.table.buffer, s.table.tail, BLANK)),
                           taken := s.taken + [s.tags[s.table.tail]]);
    var advanced := cleared.(table := cleared.table.(tail := (s.table.tail + 1) % c.slots));
    var counted := advanced.(table := Fetched(c.slots, s.table));
    var freed := counted.(mutex := s.mutex);
    longer := CourierOn(c, run, started, k, locked, Clearing, cleared, Moving);
    longer := CourierOn(c, run, longer, k, cleared, Moving, advanced, Discounting);
    longer := CourierOn(c, run, longer, k, advanced, Discounting, counted, Freeing);
    longer := CourierOn(c, run, longer, k, counted, Freeing, freed, Emptying);
    longer := CourierOn(c, run, longer, k, freed, Emptying, freed.(empty := s.empty + 1), TestChiefs);
  }
}
