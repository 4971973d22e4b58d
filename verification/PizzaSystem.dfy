/** Chiefs and couriers around the shared table: every process at its own place in its program,
    one shared access per step, in any interleaving.  The number of chiefs, of couriers, of slots
    and of pizzas each chief makes are parameters.

    tags, placed and taken are history: no step depends on them.  tags[k] names the pizza last
    written to slot k; placed and taken list the pizzas in the order written and cleared. */
module PizzaSystem {
  import opened Sums
  import opened PizzaTable

  datatype Config = Config(chiefs: nat, couriers: nat, slots: nat, work: nat)

  datatype Chief =
    | Arriving              // before sem_wait(table)
    | Registering           // holds the table
    | Registered            // before sem_post(table)
    | Working(i: nat)       // at the loop test
    | Reserving(i: nat)     // has an empty place, before sem_wait(table)
    | Writing(i: nat)       // holds the table, before memcpy
    | Advancing(i: nat)     // before the head moves
    | Counting(i: nat)      // before pizza_count++
    | Releasing(i: nat)     // before sem_post(table)
    | Announcing(i: nat)    // before sem_post(ready)
    | Deregistering         // holds the table, before chiefs_count--
    | Deregistered          // before sem_post(table)
    | Home

  datatype Courier =
    | TestChiefs            // reads chiefs_count, unlocked
    | TestPizzas            // reads pizza_count, unlocked
    | GetReady              // sem_trywait(ready)
    | GetTable              // has a ready pizza, sem_trywait(table)
    | GiveBack              // table busy: sem_post(ready)
    | Checking              // holds the table, before memcmp
    | Clearing              // before memset
    | Moving                // before the tail moves
    | Discounting           // before pizza_count--
    | Freeing               // before sem_post(table)
    | Emptying              // before sem_post(empty)
    | Done
    | BadFreeing            // "Bad pizza": before sem_post(table)
    | BadGiving             // before sem_post(ready)
    | Failed

  datatype Ticket = Ticket(chief: nat, i: nat)

  datatype System = System(
    table: Table, mutex: int, ready: int, empty: int,
    chiefs: seq<Chief>, couriers: seq<Courier>,
    tags: seq<Ticket>, placed: seq<Ticket>, taken: seq<Ticket>)

  datatype Action = ChiefStep(k: nat) | CourierStep(k: nat)

  function Init(c: Config): System
  {
    System(EmptyTable(c.slots), 1, 0, c.slots,
           seq(c.chiefs, _ => Arriving), seq(c.couriers, _ => TestChiefs),
           seq(c.slots, _ => Ticket(0, 0)), [], [])
  }

  predicate Sized(c: Config, s: System)
  {
    && |s.chiefs| == c.chiefs && |s.couriers| == c.couriers && |s.tags| == c.slots
    && Shaped(c.slots, s.table)
  }

  predicate Enabled(c: Config, s: System, action: Action)
  {
    && Sized(c, s)
    && match action
       case ChiefStep(k) =>
         && k < c.chiefs
         && (match s.chiefs[k]
             case Arriving => s.mutex > 0
             case Working(i) => if i < c.work then s.empty > 0 else s.mutex > 0
             case Reserving(_) => s.mutex > 0
             case Home => false
             case _ => true)
       case CourierStep(k) => k < c.couriers && s.couriers[k] != Done && s.couriers[k] != Failed
  }

  /** One step of chief k. */
  function ChiefMoves(c: Config, s: System, k: nat): System
    requires Sized(c, s) && k < c.chiefs
  {
    var t := s.table;
    match s.chiefs[k]
    case Arriving => s.(mutex := s.mutex - 1, chiefs := s.chiefs[k := Registering])
    case Registering =>
      s.(table := t.(chiefsCount := t.chiefsCount + 1), chiefs := s.chiefs[k := Registered])
    case Registered => s.(mutex := s.mutex + 1, chiefs := s.chiefs[k := Working(0)])
    case Working(i) =>
      if i < c.work then s.(empty := s.empty - 1, chiefs := s.chiefs[k := Reserving(i)])
      else s.(mutex := s.mutex - 1, chiefs := s.chiefs[k := Deregistering])
    case Reserving(i) => s.(mutex := s.mutex - 1, chiefs := s.chiefs[k := Writing(i)])
    case Writing(i) =>
      s.(table := t.(buffer := Write(t.buffer, t.head, PIZZA)), chiefs := s.chiefs[k := Advancing(i)],
         tags := s.tags[t.head := Ticket(k, i)], placed := s.placed + [Ticket(k, i)])
    case Advancing(i) =>
      s.(table := t.(head := (t.head + 1) % c.slots), chiefs := s.chiefs[k := Counting(i)])
    case Counting(i) =>
      s.(table := t.(pizzaCount := t.pizzaCount + 1), chiefs := s.chiefs[k := Releasing(i)])
    case Releasing(i) => s.(mutex := s.mutex + 1, chiefs := s.chiefs[k := Announcing(i)])
    case Announcing(i) => s.(ready := s.ready + 1, chiefs := s.chiefs[k := Working(i + 1)])
    case Deregistering =>
      s.(table := t.(chiefsCount := t.chiefsCount - 1), chiefs := s.chiefs[k := Deregistered])
    case Deregistered => s.(mutex := s.mutex + 1, chiefs := s.chiefs[k := Home])
    case Home => s
  }

  /** One step of courier k. */
  function CourierMoves(c: Config, s: System, k: nat): System
    requires Sized(c, s) && k < c.couriers
  {
    var t := s.table;
    match s.couriers[k]
    case TestChiefs => s.(couriers := s.couriers[k := if t.chiefsCount != 0 then GetReady else TestPizzas])
    case TestPizzas => s.(couriers := s.couriers[k := if t.pizzaCount != 0 then GetReady else Done])
    case GetReady =>
      if s.ready > 0 then s.(ready := s.ready - 1, couriers := s.couriers[k := GetTable])
      else s.(couriers := s.couriers[k := TestChiefs])
    case GetTable =>
      if s.mutex > 0 then s.(mutex := s.mutex - 1, couriers := s.couriers[k := Checking])
      else s.(couriers := s.couriers[k := GiveBack])
    case GiveBack => s.(ready := s.ready + 1, couriers := s.couriers[k := TestChiefs])
    case Checking =>
      s.(couriers := s.couriers[k := if Slot(t.buffer, t.tail) != PIZZA then BadFreeing else Clearing])
    case Clearing =>
      s.(table := t.(buffer := Write(t.buffer, t.tail, BLANK)), couriers := s.couriers[k := Moving],
         taken := s.taken + [s.tags[t.tail]])
    case Moving =>
      s.(table := t.(tail := (t.tail + 1) % c.slots), couriers := s.couriers[k := Discounting])
    case Discounting =>
      s.(table := t.(pizzaCount := t.pizzaCount - 1), couriers := s.couriers[k := Freeing])
    case Freeing => s.(mutex := s.mutex + 1, couriers := s.couriers[k := Emptying])
    case Emptying => s.(empty := s.empty + 1, couriers := s.couriers[k := TestChiefs])
    case Done => s
    case BadFreeing => s.(mutex := s.mutex + 1, couriers := s.couriers[k := BadGiving])
    case BadGiving => s.(ready := s.ready + 1, couriers := s.couriers[k := Failed])
    case Failed => s
  }

  function Apply(c: Config, s: System, action: Action): System
    requires Enabled(c, s, action)
  {
    match action
    case ChiefStep(k) => ChiefMoves(c, s, k)
    case CourierStep(k) => CourierMoves(c, s, k)
  }

  predicate Valid(c: Config, run: seq<Action>)
    decreases |run|, 0
  {
    run == []
    || (Valid(c, run[..|run| - 1])
        && Enabled(c, Exec(c, run[..|run| - 1]), run[|run| - 1]))
  }

  function Exec(c: Config, run: seq<Action>): System
    requires Valid(c, run)
    decreases |run|, 1
  {
    if run == [] then Init(c)
    else Apply(c, Exec(c, run[..|run| - 1]), run[|run| - 1])
  }

  // ---------- who holds what ----------

  function ChiefLock(p: Chief): int
  {
    if p.Registering? || p.Registered? || p.Writing? || p.Advancing? || p.Counting? || p.Releasing?
       || p.Deregistering? || p.Deregistered? then 1 else 0
  }

  function ChiefEmpty(p: Chief): int
  {
    if p.Reserving? || p.Writing? then 1 else 0
  }

  function ChiefReady(p: Chief): int
  {
    if p.Advancing? || p.Counting? || p.Releasing? || p.Announcing? then 1 else 0
  }

  /** A pizza written but not behind the head yet. */
  function ChiefAhead(p: Chief): int
  {
    if p.Advancing? then 1 else 0
  }

  /** A pizza written but not counted yet. */
  function ChiefUncounted(p: Chief): int
  {
    if p.Advancing? || p.Counting? then 1 else 0
  }

  function ChiefCounted(p: Chief): int
  {
    if p.Arriving? || p.Registering? || p.Deregistered? || p.Home? then 0 else 1
  }

  /** How many pizzas a chief has written. */
  function Made(c: Config, p: Chief): int
  {
    match p
    case Arriving => 0
    case Registering => 0
    case Registered => 0
    case Working(i) => i
    case Reserving(i) => i
    case Writing(i) => i
    case Advancing(i) => i + 1
    case Counting(i) => i + 1
    case Releasing(i) => i + 1
    case Announcing(i) => i + 1
    case _ => c.work
  }

  function CourierLock(p: Courier): int
  {
    if p.Checking? || p.Clearing? || p.Moving? || p.Discounting? || p.Freeing? || p.BadFreeing?
    then 1 else 0
  }

  function CourierReady(p: Courier): int
  {
    if p.GetTable? || p.GiveBack? || p.Checking? || p.Clearing? || p.BadFreeing? || p.BadGiving?
    then 1 else 0
  }

  function CourierEmpty(p: Courier): int
  {
    if p.Moving? || p.Discounting? || p.Freeing? || p.Emptying? then 1 else 0
  }

  /** A pizza cleared that the tail still points at. */
  function CourierBehind(p: Courier): int
  {
    if p.Moving? then 1 else 0
  }

  /** A pizza cleared but still counted. */
  function CourierUncounted(p: Courier): int
  {
    if p.Moving? || p.Discounting? then 1 else 0
  }

  // ---------- the invariant ----------

  /** Pizzas really on the table. */
  function Full(s: System): int
  {
    s.table.pizzaCount + Sum(s.chiefs, ChiefUncounted) - Sum(s.couriers, CourierUncounted)
  }

  /** The first of them round the ring. */
  function From(c: Config, s: System): (r: nat)
    requires Sized(c, s)
    ensures r < c.slots
  {
    Ahead(c.slots, s.table.tail, if Sum(s.couriers, CourierBehind) > 0 then 1 else 0)
  }

  predicate Credits(c: Config, s: System)
  {
    && s.mutex >= 0 && s.ready >= 0 && s.empty >= 0
    && s.mutex + Sum(s.chiefs, ChiefLock) + Sum(s.couriers, CourierLock) == 1
    && s.empty + Sum(s.chiefs, ChiefEmpty) + Full(s) + Sum(s.couriers, CourierEmpty) == c.slots
    && s.ready + Sum(s.chiefs, ChiefReady) + Sum(s.couriers, CourierReady) == Full(s)
    && s.table.chiefsCount == Sum(s.chiefs, ChiefCounted)
  }

  predicate Ring(c: Config, s: System)
    requires Sized(c, s)
  {
    && 0 <= Full(s) <= c.slots
    && Filled(c.slots, s.table.buffer, From(c, s), Full(s))
    && Ahead(c.slots, s.table.head, if Sum(s.chiefs, ChiefAhead) > 0 then 1 else 0)
       == Ahead(c.slots, From(c, s), Full(s))
  }

  function MadeBy(c: Config): Chief -> int
  {
    p => Made(c, p)
  }

  /** The pizzas of one chief in a list. */
  function ByChief(l: seq<Ticket>, k: nat): seq<nat>
  {
    if l == [] then []
    else
      var t := l[|l| - 1];
      ByChief(l[..|l| - 1], k) + if t.chief == k then [t.i] else []
  }

  predicate Fifo(c: Config, s: System)
    requires Sized(c, s)
  {
    && 0 <= Full(s) <= c.slots
    && s.placed == s.taken + Window(c.slots, s.tags, From(c, s), Full(s))
    && |s.placed| == Sum(s.chiefs, MadeBy(c))
    && forall k :: 0 <= k < c.chiefs ==>
         && 0 <= Made(c, s.chiefs[k]) <= c.work
         && ByChief(s.placed, k) == seq(Made(c, s.chiefs[k]), i => i)
  }

  predicate NoFailure(s: System)
  {
    forall k :: 0 <= k < |s.couriers| ==>
      var p := s.couriers[k];
      !p.BadFreeing? && !p.BadGiving? && !p.Failed?
  }

  predicate Sane(c: Config, p: Chief)
  {
    match p
    case Working(i) => i <= c.work
    case Reserving(i) => i < c.work
    case Writing(i) => i < c.work
    case Advancing(i) => i < c.work
    case Counting(i) => i < c.work
    case Releasing(i) => i < c.work
    case Announcing(i) => i < c.work
    case _ => true
  }

  predicate Inv(c: Config, s: System)
  {
    && c.slots >= 1
    && Sized(c, s)
    && Credits(c, s)
    && Ring(c, s)
    && Fifo(c, s)
    && NoFailure(s)
    && (forall k :: 0 <= k < c.chiefs ==> Sane(c, s.chiefs[k]))
  }
}
