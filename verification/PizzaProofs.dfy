/** Every step of every chief and courier keeps the invariant. */
module PizzaProofs {
  import opened Sequences
  import opened Sums
  import opened PizzaTable
  import opened PizzaSystem

  // ---------- sums after one process moves ----------

  lemma ChiefSums(c: Config, chiefs: seq<Chief>, k: nat, x: Chief)
    requires k < |chiefs|
    ensures var after := chiefs[k := x];
            && Sum(after, ChiefLock) == Sum(chiefs, ChiefLock) - ChiefLock(chiefs[k]) + ChiefLock(x)
            && Sum(after, ChiefEmpty) == Sum(chiefs, ChiefEmpty) - ChiefEmpty(chiefs[k]) + ChiefEmpty(x)
            && Sum(after, ChiefReady) == Sum(chiefs, ChiefReady) - ChiefReady(chiefs[k]) + ChiefReady(x)
            && Sum(after, ChiefAhead) == Sum(chiefs, ChiefAhead) - ChiefAhead(chiefs[k]) + ChiefAhead(x)
            && Sum(after, ChiefUncounted)
               == Sum(chiefs, ChiefUncounted) - ChiefUncounted(chiefs[k]) + ChiefUncounted(x)
            && Sum(after, ChiefCounted)
               == Sum(chiefs, ChiefCounted) - ChiefCounted(chiefs[k]) + ChiefCounted(x)
            && Sum(after, MadeBy(c)) == Sum(chiefs, MadeBy(c)) - Made(c, chiefs[k]) + Made(c, x)
  {
    SumUpdate(chiefs, k, x, ChiefLock);
    SumUpdate(chiefs, k, x, ChiefEmpty);
    SumUpdate(chiefs, k, x, ChiefReady);
    SumUpdate(chiefs, k, x, ChiefAhead);
    SumUpdate(chiefs, k, x, ChiefUncounted);
    SumUpdate(chiefs, k, x, ChiefCounted);
    SumUpdate(chiefs, k, x, MadeBy(c));
  }

  lemma CourierSums(couriers: seq<Courier>, k: nat, x: Courier)
    requires k < |couriers|
    ensures var after := couriers[k := x];
            && Sum(after, CourierLock)
               == Sum(couriers, CourierLock) - CourierLock(couriers[k]) + CourierLock(x)
            && Sum(after, CourierReady)
               == Sum(couriers, CourierReady) - CourierReady(couriers[k]) + CourierReady(x)
            && Sum(after, CourierEmpty)
               == Sum(couriers, CourierEmpty) - CourierEmpty(couriers[k]) + CourierEmpty(x)
            && Sum(after, CourierBehind)
               == Sum(couriers, CourierBehind) - CourierBehind(couriers[k]) + CourierBehind(x)
            && Sum(after, CourierUncounted)
               == Sum(couriers, CourierUncounted) - CourierUncounted(couriers[k]) + CourierUncounted(x)
  {
    SumUpdate(couriers, k, x, CourierLock);
    SumUpdate(couriers, k, x, CourierReady);
    SumUpdate(couriers, k, x, CourierEmpty);
    SumUpdate(couriers, k, x, CourierBehind);
    SumUpdate(couriers, k, x, CourierUncounted);
  }

  /** Nothing is held in negative amounts, and who is in the middle of a change of the table has
      the lock. */
  lemma Bounds(s: System)
    ensures 0 <= Sum(s.chiefs, ChiefAhead) <= Sum(s.chiefs, ChiefUncounted) <= Sum(s.chiefs, ChiefLock)
    ensures 0 <= Sum(s.couriers, CourierBehind) <= Sum(s.couriers, CourierUncounted)
            <= Sum(s.couriers, CourierLock)
    ensures Sum(s.chiefs, ChiefAhead) <= Sum(s.chiefs, ChiefReady)
    ensures 0 <= Sum(s.chiefs, ChiefEmpty) && 0 <= Sum(s.chiefs, ChiefReady)
    ensures Sum(s.couriers, CourierUncounted) <= Sum(s.couriers, CourierEmpty)
    ensures 0 <= Sum(s.couriers, CourierReady)
  {
    SumBelow(s.chiefs, ChiefAhead, ChiefUncounted);
    SumBelow(s.chiefs, ChiefUncounted, ChiefLock);
    SumBelow(s.chiefs, ChiefAhead, ChiefReady);
    SumBelow(s.chiefs, ChiefEmpty, ChiefEmpty);
    SumBelow(s.couriers, CourierBehind, CourierUncounted);
    SumBelow(s.couriers, CourierUncounted, CourierLock);
    SumBelow(s.couriers, CourierUncounted, CourierEmpty);
    SumBelow(s.couriers, CourierReady, CourierReady);
  }

  /** Mutual exclusion: a chief inside the critical section is the only process inside. */
  lemma ChiefAlone(c: Config, s: System, k: nat)
    requires Sized(c, s) && Credits(c, s) && k < c.chiefs && ChiefLock(s.chiefs[k]) == 1
    ensures s.mutex == 0 && Sum(s.couriers, CourierLock) == 0
    ensures Sum(s.couriers, CourierBehind) == 0 && Sum(s.couriers, CourierUncounted) == 0
    ensures Sum(s.chiefs, ChiefAhead) == ChiefAhead(s.chiefs[k])
    ensures Sum(s.chiefs, ChiefUncounted) == ChiefUncounted(s.chiefs[k])
    ensures ChiefEmpty(s.chiefs[k]) <= Sum(s.chiefs, ChiefEmpty)
    ensures ChiefReady(s.chiefs[k]) <= Sum(s.chiefs, ChiefReady)
  {
    Bounds(s);
    SumOthers(s.chiefs, k, ChiefLock, ChiefLock);
    SumOthers(s.chiefs, k, ChiefAhead, ChiefLock);
    SumOthers(s.chiefs, k, ChiefUncounted, ChiefLock);
    SumOthers(s.chiefs, k, ChiefEmpty, ChiefEmpty);
    SumOthers(s.chiefs, k, ChiefReady, ChiefReady);
  }

  lemma CourierAlone(c: Config, s: System, k: nat)
    requires Sized(c, s) && Credits(c, s) && k < c.couriers && CourierLock(s.couriers[k]) == 1
    ensures s.mutex == 0 && Sum(s.chiefs, ChiefLock) == 0
    ensures Sum(s.chiefs, ChiefAhead) == 0 && Sum(s.chiefs, ChiefUncounted) == 0
    ensures Sum(s.couriers, CourierBehind) == CourierBehind(s.couriers[k])
    ensures Sum(s.couriers, CourierUncounted) == CourierUncounted(s.couriers[k])
    ensures CourierReady(s.couriers[k]) <= Sum(s.couriers, CourierReady)
    ensures CourierEmpty(s.couriers[k]) <= Sum(s.couriers, CourierEmpty)
  {
    Bounds(s);
    SumOthers(s.couriers, k, CourierLock, CourierLock);
    SumOthers(s.couriers, k, CourierBehind, CourierLock);
    SumOthers(s.couriers, k, CourierUncounted, CourierLock);
    SumOthers(s.couriers, k, CourierReady, CourierReady);
    SumOthers(s.couriers, k, CourierEmpty, CourierEmpty);
  }

  // ---------- the start ----------

  lemma InvInit(c: Config)
    requires c.slots >= 1
    ensures Inv(c, Init(c))
  {
    hide Full, From, Credits, Ring, Fifo;
    CreditsInit(c);
    RingInit(c);
    FifoInit(c);
  }

  lemma CreditsInit(c: Config)
    requires c.slots >= 1
    ensures Credits(c, Init(c))
  {
    InitSums(c, Init(c));
  }

  lemma RingInit(c: Config)
    requires c.slots >= 1
    ensures Ring(c, Init(c))
  {
    InitSums(c, Init(c));
  }

  lemma FifoInit(c: Config)
    requires c.slots >= 1
    ensures Fifo(c, Init(c))
  {
    var s := Init(c);
    InitSums(c, s);
    assert s.placed == s.taken + Window(c.slots, s.tags, From(c, s), 0);
  }

  lemma InitSums(c: Config, s: System)
    requires s == Init(c)
    ensures Sum(s.chiefs, ChiefLock) == Sum(s.chiefs, ChiefEmpty) == Sum(s.chiefs, ChiefReady) == 0
    ensures Sum(s.chiefs, ChiefAhead) == Sum(s.chiefs, ChiefUncounted) == Sum(s.chiefs, ChiefCounted) == 0
    ensures Sum(s.chiefs, MadeBy(c)) == 0
    ensures Sum(s.couriers, CourierLock) == Sum(s.couriers, CourierReady) == Sum(s.couriers, CourierEmpty) == 0
    ensures Sum(s.couriers, CourierBehind) == Sum(s.couriers, CourierUncounted) == 0
  {
    SumConstant(s.chiefs, ChiefLock, 0);
    SumConstant(s.chiefs, ChiefEmpty, 0);
    SumConstant(s.chiefs, ChiefReady, 0);
    SumConstant(s.chiefs, ChiefAhead, 0);
    SumConstant(s.chiefs, ChiefUncounted, 0);
    SumConstant(s.chiefs, ChiefCounted, 0);
    SumConstant(s.chiefs, MadeBy(c), 0);
    SumConstant(s.couriers, CourierLock, 0);
    SumConstant(s.couriers, CourierReady, 0);
    SumConstant(s.couriers, CourierEmpty, 0);
    SumConstant(s.couriers, CourierBehind, 0);
    SumConstant(s.couriers, CourierUncounted, 0);
  }

  // ---------- chiefs ----------

  /** What one step of a chief does to the semaphores and to its holdings balances. */
  lemma ChiefBalance(c: Config, s: System, k: nat)
    requires Sized(c, s) && Enabled(c, s, ChiefStep(k)) && Sane(c, s.chiefs[k])
    ensures var t := ChiefMoves(c, s, k);
            && |t.chiefs| == c.chiefs && t.chiefs == s.chiefs[k := t.chiefs[k]] && t.couriers == s.couriers
            && Sane(c, t.chiefs[k])
            && var p, q, w := s.chiefs[k], t.chiefs[k], if s.chiefs[k].Writing? then 1 else 0;
               && t.mutex + ChiefLock(q) == s.mutex + ChiefLock(p)
               && t.table.pizzaCount + ChiefUncounted(q) == s.table.pizzaCount + ChiefUncounted(p) + w
               && t.empty + ChiefEmpty(q) == s.empty + ChiefEmpty(p) - w
               && t.ready + ChiefReady(q) == s.ready + ChiefReady(p) + w
               && t.table.chiefsCount - ChiefCounted(q) == s.table.chiefsCount - ChiefCounted(p)
               && (s.mutex >= 0 ==> t.mutex >= 0) && (s.ready >= 0 ==> t.ready >= 0)
               && (s.empty >= 0 ==> t.empty >= 0)
               && t.table.tail == s.table.tail && t.taken == s.taken
               && (!p.Writing? ==>
                     && t.table.buffer == s.table.buffer && t.tags == s.tags && t.placed == s.placed
                     && Made(c, q) == Made(c, p))
               && (!p.Advancing? ==> t.table.head == s.table.head)
               && (!p.Writing? && !p.Advancing? ==> ChiefAhead(q) == ChiefAhead(p))
  {
  }

  lemma ChiefCredits(c: Config, s: System, k: nat)
    requires Sized(c, s) && Credits(c, s) && Enabled(c, s, ChiefStep(k)) && Sane(c, s.chiefs[k])
    ensures Credits(c, ChiefMoves(c, s, k))
  {
    hide ChiefMoves, ChiefLock, ChiefUncounted, ChiefEmpty, ChiefReady, ChiefCounted, Sum;
    ChiefBalance(c, s, k);
    ChiefSums(c, s.chiefs, k, ChiefMoves(c, s, k).chiefs[k]);
  }

  /** A step that leaves the contents alone. */
  lemma Frame(c: Config, s: System, t: System)
    requires Sized(c, s) && Ring(c, s) && Fifo(c, s)
    requires Sized(c, t) && Full(t) == Full(s) && From(c, t) == From(c, s)
    requires t.table.buffer == s.table.buffer && t.tags == s.tags
    requires t.placed == s.placed && t.taken == s.taken
    requires Ahead(c.slots, t.table.head, if Sum(t.chiefs, ChiefAhead) > 0 then 1 else 0)
          == Ahead(c.slots, s.table.head, if Sum(s.chiefs, ChiefAhead) > 0 then 1 else 0)
    requires Sum(t.chiefs, MadeBy(c)) == Sum(s.chiefs, MadeBy(c))
    requires forall k :: 0 <= k < c.chiefs ==> Made(c, t.chiefs[k]) == Made(c, s.chiefs[k])
    ensures Ring(c, t) && Fifo(c, t)
  {
    forall k | 0 <= k < c.chiefs
      ensures 0 <= Made(c, t.chiefs[k]) <= c.work
      ensures ByChief(t.placed, k) == seq(Made(c, t.chiefs[k]), i => i)
    {
      assert ByChief(s.placed, k) == seq(Made(c, s.chiefs[k]), i => i);
    }
  }

  lemma RingBounds(c: Config, s: System)
    requires Sized(c, s) && Ring(c, s)
    ensures 0 <= Full(s) <= c.slots
  {
  }

  /** Every step but the memcpy and the move of the head leaves the contents alone. */
  lemma ChiefKeepsRing(c: Config, s: System, k: nat)
    requires Sized(c, s) && Ring(c, s) && Fifo(c, s)
    requires Enabled(c, s, ChiefStep(k)) && Sane(c, s.chiefs[k])
    requires !s.chiefs[k].Writing? && !s.chiefs[k].Advancing?
    ensures var t := ChiefMoves(c, s, k);
            Sized(c, t) && Ring(c, t) && Fifo(c, t)
  {
    hide ChiefMoves, ChiefUncounted, ChiefAhead, Sum, Filled, Ring, Fifo, Window, Made;
    var t := ChiefMoves(c, s, k);
    ChiefBalance(c, s, k);
    ChiefSums(c, s.chiefs, k, t.chiefs[k]);
    RingBounds(c, s);
    Frame(c, s, t);
  }

  lemma {:induction false} ByChiefAppend(l: seq<Ticket>, t: Ticket, k: nat)
    ensures ByChief(l + [t], k) == ByChief(l, k) + if t.chief == k then [t.i] else []
  {
    assert (l + [t])[..|l|] == l;
  }

  /** A chief about to write: there is room, and the head is the place behind the full slots. */
  lemma ChiefHasRoom(c: Config, s: System, k: nat)
    requires Inv(c, s) && k < c.chiefs && s.chiefs[k].Writing?
    ensures 0 <= Full(s) < c.slots && s.table.head == Ahead(c.slots, From(c, s), Full(s))
    ensures Sum(s.chiefs, ChiefAhead) == 0
    ensures Slot(s.table.buffer, s.table.head) == BLANK
  {
    hide Fifo, Sane, Window;
    ChiefAlone(c, s, k);
    Bounds(s);
    FillOne(c.slots, s.table.buffer, From(c, s), Full(s));
  }

  /** What the memcpy does to the sums. */
  lemma ChiefWriteSums(c: Config, s: System, k: nat)
    requires Sized(c, s) && k < c.chiefs && s.chiefs[k].Writing?
    ensures var t := ChiefMoves(c, s, k);
            && Sized(c, t) && Full(t) == Full(s) + 1 && From(c, t) == From(c, s)
            && Sum(t.chiefs, ChiefAhead) == Sum(s.chiefs, ChiefAhead) + 1
            && Sum(t.chiefs, MadeBy(c)) == Sum(s.chiefs, MadeBy(c)) + 1
  {
    ChiefSums(c, s.chiefs, k, Advancing(s.chiefs[k].i));
  }

  lemma ChiefWrites(c: Config, s: System, k: nat)
    requires Inv(c, s) && Enabled(c, s, ChiefStep(k)) && s.chiefs[k].Writing?
    ensures var t := ChiefMoves(c, s, k);
            Sized(c, t) && Ring(c, t) && Fifo(c, t)
  {
    hide Sum, ChiefAhead, Filled, Window, Full, From, Write, Slot, ByChief, Credits;
    var t := ChiefMoves(c, s, k);
    var ticket := Ticket(k, s.chiefs[k].i);
    ChiefHasRoom(c, s, k);
    ChiefWriteSums(c, s, k);
    FillOne(c.slots, s.table.buffer, From(c, s), Full(s));
    RingAfter(c.slots, From(c, s), Full(s));
    WindowGrows(c.slots, s.tags, From(c, s), Full(s), ticket);
    Assoc(s.taken, Window(c.slots, s.tags, From(c, s), Full(s)), [ticket]);
    forall j | 0 <= j < c.chiefs
      ensures 0 <= Made(c, t.chiefs[j]) <= c.work
      ensures ByChief(t.placed, j) == seq(Made(c, t.chiefs[j]), i => i)
    {
      ByChiefAppend(s.placed, ticket, j);
      assert ByChief(s.placed, j) == seq(Made(c, s.chiefs[j]), i => i);
      assert Sane(c, s.chiefs[k]);
    }
  }

  lemma ChiefAdvances(c: Config, s: System, k: nat)
    requires Inv(c, s) && Enabled(c, s, ChiefStep(k)) && s.chiefs[k].Advancing?
    ensures var t := ChiefMoves(c, s, k);
            Sized(c, t) && Ring(c, t) && Fifo(c, t)
  {
    hide Filled, Window, ByChief, Sum, Credits;
    var t := ChiefMoves(c, s, k);
    assert t.chiefs == s.chiefs[k := t.chiefs[k]];
    ChiefSums(c, s.chiefs, k, t.chiefs[k]);
    ChiefAlone(c, s, k);
    NextIsAhead(c.slots, s.table.head);
    Frame(c, s, t);
  }

  lemma ChiefKeeps(c: Config, s: System, k: nat)
    requires Inv(c, s) && Enabled(c, s, ChiefStep(k))
    ensures Inv(c, ChiefMoves(c, s, k))
  {
    hide ChiefMoves, Credits, Ring, Fifo, Sane;
    assert Sane(c, s.chiefs[k]);
    ChiefBalance(c, s, k);
    ChiefCredits(c, s, k);
    if s.chiefs[k].Writing? {
      ChiefWrites(c, s, k);
    } else if s.chiefs[k].Advancing? {
      ChiefAdvances(c, s, k);
    } else {
      ChiefKeepsRing(c, s, k);
    }
  }

  // ---------- couriers ----------

  /** The "Bad pizza" branch cannot be taken: the slot at the tail holds a pizza. */
  lemma GoodPizza(c: Config, s: System, k: nat)
    requires Inv(c, s) && k < c.couriers && (s.couriers[k].Checking? || s.couriers[k].Clearing?)
    ensures From(c, s) == s.table.tail && Full(s) > 0
    ensures Slot(s.table.buffer, s.table.tail) == PIZZA
  {
    CourierAlone(c, s, k);
    Bounds(s);
    ClearOne(c.slots, s.table.buffer, From(c, s), Full(s));
  }

  /** A courier changes its own place, and the sums by what it has at the two places. */
  lemma CourierMove(c: Config, s: System, k: nat)
    requires Sized(c, s) && k < c.couriers
    ensures var t := CourierMoves(c, s, k);
            && |t.couriers| == c.couriers && t.couriers == s.couriers[k := t.couriers[k]]
            && t.chiefs == s.chiefs && t.table.chiefsCount == s.table.chiefsCount
            && t.placed == s.placed
  {
    var t := CourierMoves(c, s, k);
    assert t.couriers == s.couriers[k := t.couriers[k]];
  }

  /** What one step of a courier does to the semaphores and to its holdings balances. */
  lemma CourierBalance(c: Config, s: System, k: nat)
    requires Sized(c, s) && Enabled(c, s, CourierStep(k))
    requires s.couriers[k].Checking? ==> Slot(s.table.buffer, s.table.tail) == PIZZA
    requires !s.couriers[k].BadFreeing? && !s.couriers[k].BadGiving?
    ensures var t := CourierMoves(c, s, k);
            var p, q := s.couriers[k], t.couriers[k];
            && t.mutex + CourierLock(q) == s.mutex + CourierLock(p)
            && t.table.pizzaCount - CourierUncounted(q)
               == s.table.pizzaCount - CourierUncounted(p) - (if p.Clearing? then 1 else 0)
            && t.empty + CourierEmpty(q) == s.empty + CourierEmpty(p) + (if p.Clearing? then 1 else 0)
            && t.ready + CourierReady(q) == s.ready + CourierReady(p) - (if p.Clearing? then 1 else 0)
            && (s.mutex >= 0 ==> t.mutex >= 0) && (s.ready >= 0 ==> t.ready >= 0)
            && (s.empty >= 0 ==> t.empty >= 0)
            && (!p.Clearing? && !p.Moving? ==>
                  && CourierBehind(q) == CourierBehind(p)
                  && t.table.buffer == s.table.buffer && t.table.tail == s.table.tail
                  && t.taken == s.taken)
            && t.table.head == s.table.head && t.tags == s.tags
            && !q.BadFreeing? && !q.BadGiving? && !q.Failed?
  {
  }

  lemma OneSound(s: System, k: nat)
    requires NoFailure(s) && k < |s.couriers|
    ensures !s.couriers[k].BadFreeing? && !s.couriers[k].BadGiving? && !s.couriers[k].Failed?
  {
  }

  lemma CourierCredits(c: Config, s: System, k: nat)
    requires Sized(c, s) && Credits(c, s) && NoFailure(s) && Enabled(c, s, CourierStep(k))
    requires s.couriers[k].Checking? ==> Slot(s.table.buffer, s.table.tail) == PIZZA
    ensures Credits(c, CourierMoves(c, s, k))
  {
    hide CourierMoves, CourierLock, CourierUncounted, CourierEmpty, CourierReady, Sum, NoFailure;
    assert !s.couriers[k].BadFreeing? && !s.couriers[k].BadGiving? by {
      OneSound(s, k);
    }
    CourierMove(c, s, k);
    CourierBalance(c, s, k);
    CourierSums(s.couriers, k, CourierMoves(c, s, k).couriers[k]);
  }

  lemma CourierKeepsRing(c: Config, s: System, k: nat)
    requires Sized(c, s) && Ring(c, s) && Fifo(c, s) && NoFailure(s) && Enabled(c, s, CourierStep(k))
    requires s.couriers[k].Checking? ==> Slot(s.table.buffer, s.table.tail) == PIZZA
    requires !s.couriers[k].Clearing? && !s.couriers[k].Moving?
    ensures var t := CourierMoves(c, s, k);
            Sized(c, t) && Ring(c, t) && Fifo(c, t)
  {
    hide CourierMoves, CourierUncounted, CourierBehind, Sum, Ring, Fifo, NoFailure, Slot;
    var t := CourierMoves(c, s, k);
    OneSound(s, k);
    CourierMove(c, s, k);
    CourierBalance(c, s, k);
    CourierSums(s.couriers, k, t.couriers[k]);
    RingBounds(c, s);
    Frame(c, s, t);
  }

  lemma CourierClears(c: Config, s: System, k: nat)
    requires Inv(c, s) && Enabled(c, s, CourierStep(k)) && s.couriers[k].Clearing?
    ensures var t := CourierMoves(c, s, k);
            Sized(c, t) && Ring(c, t) && Fifo(c, t)
  {
    hide Filled, Window, Write, Slot, Sum, ByChief;
    var t := CourierMoves(c, s, k);
    assert t.couriers == s.couriers[k := Moving];
    CourierSums(s.couriers, k, Moving);
    CourierAlone(c, s, k);
    GoodPizza(c, s, k);
    assert Full(t) == Full(s) - 1 && From(c, t) == Ahead(c.slots, From(c, s), 1);
    ClearOne(c.slots, s.table.buffer, From(c, s), Full(s));
    WindowShrinks(c.slots, s.tags, From(c, s), Full(s));
    Assoc(s.taken, [s.tags[s.table.tail]], Window(c.slots, s.tags, From(c, t), Full(t)));
  }

  lemma CourierAdvances(c: Config, s: System, k: nat)
    requires Inv(c, s) && Enabled(c, s, CourierStep(k)) && s.couriers[k].Moving?
    ensures var t := CourierMoves(c, s, k);
            Sized(c, t) && Ring(c, t) && Fifo(c, t)
  {
    hide Filled, Window, ByChief, Sum, Credits;
    var t := CourierMoves(c, s, k);
    assert t.couriers == s.couriers[k := Discounting];
    CourierSums(s.couriers, k, Discounting);
    CourierAlone(c, s, k);
    NextIsAhead(c.slots, s.table.tail);
    Frame(c, s, t);
  }

  lemma CourierKeeps(c: Config, s: System, k: nat)
    requires Inv(c, s) && Enabled(c, s, CourierStep(k))
    ensures Inv(c, CourierMoves(c, s, k))
  {
    hide CourierMoves, Credits, Ring, Fifo, Sane, Slot;
    OneSound(s, k);
    if s.couriers[k].Checking? {
      GoodPizza(c, s, k);
    }
    CourierCredits(c, s, k);
    CourierMove(c, s, k);
    CourierBalance(c, s, k);
    if s.couriers[k].Clearing? {
      CourierClears(c, s, k);
    } else if s.couriers[k].Moving? {
      CourierAdvances(c, s, k);
    } else {
      CourierKeepsRing(c, s, k);
    }
  }

  lemma ApplyKeeps(c: Config, s: System, action: Action)
    requires Inv(c, s) && Enabled(c, s, action)
    ensures Inv(c, Apply(c, s, action))
  {
    match action {
      case ChiefStep(k) => ChiefKeeps(c, s, k);
      case CourierStep(k) => CourierKeeps(c, s, k);
    }
  }

  /** The invariant holds after every run, in every interleaving. */
  lemma {:induction false} RunKeeps(c: Config, run: seq<Action>)
    requires c.slots >= 1 && Valid(c, run)
    ensures Inv(c, Exec(c, run))
  {
    if run == [] {
      InvInit(c);
    } else {
      RunKeeps(c, run[..|run| - 1]);
      ApplyKeeps(c, Exec(c, run[..|run| - 1]), run[|run| - 1]);
    }
  }
}
