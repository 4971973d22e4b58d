/** The shared table as the program keeps it: a byte array updated in place.  Its two critical
    sections are the steps of PizzaSystem.dfy taken one after the other. */
module PizzaObject {
  import opened PizzaTable
  import opened PizzaSystem

  /** What a chief's critical section makes of the table. */
  function Placed(slots: nat, t: Table): Table
    requires Shaped(slots, t) && slots >= 1
  {
    t.(buffer := Write(t.buffer, t.head, PIZZA), head := (t.head + 1) % slots, pizzaCount := t.pizzaCount + 1)
  }

  /** What a courier's critical section makes of it, when there is a pizza at the tail. */
  function Fetched(slots: nat, t: Table): Table
    requires Shaped(slots, t) && slots >= 1
  {
    t.(buffer := Write(t.buffer, t.tail, BLANK), tail := (t.tail + 1) % slots, pizzaCount := t.pizzaCount - 1)
  }

  function Recounted(t: Table, chiefs: int): Table
  {
    t.(chiefsCount := t.chiefsCount + chiefs)
  }

  lemma ChiefSection(c: Config, s: System, k: nat)
    requires c.slots >= 1 && Sized(c, s) && k < c.chiefs && s.chiefs[k].Writing?
    ensures var copied := ChiefMoves(c, s, k);
            && Sized(c, copied)
            && var moved := ChiefMoves(c, copied, k);
               && Sized(c, moved)
               && var counted := ChiefMoves(c, moved, k);
                  counted.table == Placed(c.slots, s.table) && counted.chiefs[k] == Releasing(s.chiefs[k].i)
  {
    var copied := ChiefMoves(c, s, k);
    var moved := ChiefMoves(c, copied, k);
    assert copied.chiefs[k] == Advancing(s.chiefs[k].i);
    assert moved.chiefs[k] == Counting(s.chiefs[k].i);
  }

  lemma CourierSection(c: Config, s: System, k: nat)
    requires c.slots >= 1 && Sized(c, s) && k < c.couriers && s.couriers[k].Clearing?
    ensures var cleared := CourierMoves(c, s, k);
            && Sized(c, cleared)
            && var moved := CourierMoves(c, cleared, k);
               && Sized(c, moved)
               && var counted := CourierMoves(c, moved, k);
                  counted.table == Fetched(c.slots, s.table) && counted.couriers[k] == Freeing
  {
    var cleared := CourierMoves(c, s, k);
    var moved := CourierMoves(c, cleared, k);
    assert cleared.couriers[k] == Moving;
    assert moved.couriers[k] == Discounting;
  }

  /** A courier that finds no pizza gives both semaphores back and fails; nothing else changes. */
  lemma BadSection(c: Config, s: System, k: nat)
    requires Sized(c, s) && k < c.couriers && s.couriers[k].Checking?
    requires Slot(s.table.buffer, s.table.tail) != "pizza"
    ensures var seen := CourierMoves(c, s, k);
            && Sized(c, seen)
            && var freed := CourierMoves(c, seen, k);
               && Sized(c, freed)
               && CourierMoves(c, freed, k)
                  == s.(mutex := s.mutex + 1, ready := s.ready + 1, couriers := s.couriers[k := Failed])
  {
    var seen := CourierMoves(c, s, k);
    var freed := CourierMoves(c, seen, k);
    assert seen.couriers[k] == BadFreeing;
    assert freed.couriers[k] == BadGiving;
    assert CourierMoves(c, freed, k).couriers == s.couriers[k := Failed];
  }

  /** Arriving and leaving, a chief changes chiefs_count and nothing else of the table. */
  lemma CountSection(c: Config, s: System, k: nat)
    requires Sized(c, s) && k < c.chiefs && (s.chiefs[k].Registering? || s.chiefs[k].Deregistering?)
    ensures ChiefMoves(c, s, k).table == Recounted(s.table, if s.chiefs[k].Registering? then 1 else -1)
  {
  }

  /** A ring with the head behind its full slots. */
  predicate Queue(slots: nat, t: Table)
  {
    && Shaped(slots, t) && 0 <= t.pizzaCount <= slots
    && Filled(slots, t.buffer, t.tail, t.pizzaCount)
    && t.head == Ahead(slots, t.tail, t.pizzaCount)
  }

  /** Placing fills the blank slot at the head, and the table stays a ring. */
  lemma PlaceKeepsQueue(slots: nat, t: Table)
    requires slots >= 1 && Queue(slots, t) && t.pizzaCount < slots
    ensures Slot(t.buffer, t.head) == BLANK && Queue(slots, Placed(slots, t))
  {
    hide Filled, Slot, Write, Ahead;
    NextIsAhead(slots, t.head);
    RingAfter(slots, t.tail, t.pizzaCount);
    FillOne(slots, t.buffer, t.tail, t.pizzaCount);
  }

  /** Fetching blanks the full slot at the tail, and the table stays a ring. */
  lemma FetchKeepsQueue(slots: nat, t: Table)
    requires slots >= 1 && Queue(slots, t) && t.pizzaCount > 0
    ensures Slot(t.buffer, t.tail) == PIZZA && Queue(slots, Fetched(slots, t))
  {
    hide Filled, Slot, Write, Ahead;
    NextIsAhead(slots, t.tail);
    RingAfter(slots, t.tail, t.pizzaCount - 1);
    ClearOne(slots, t.buffer, t.tail, t.pizzaCount);
  }

  class SharedTable {
    const slots: nat
    var buffer: array<char>
    var head: nat
    var tail: nat
    var chiefsCount: int
    var pizzaCount: int

    ghost predicate Valid()
      reads this
    {
      slots >= 1 && buffer.Length == slots * SIZE && head < slots && tail < slots
    }

    ghost function View(): (t: Table)
      requires Valid()
      reads this, buffer
      ensures Shaped(slots, t)
    {
      Table(buffer[..], head, tail, chiefsCount, pizzaCount)
    }

    constructor (slots: nat)
      requires slots >= 1
      ensures Valid() && this.slots == slots && View() == EmptyTable(slots) && fresh(buffer)
    {
      this.slots := slots;
      head, tail, chiefsCount, pizzaCount := 0, 0, 0, 0;
      buffer := new char[slots * SIZE](_ => '\0');
    }

    /** memcpy of a word, or memset with '\0', into slot k. */
    method Fill(k: nat, word: seq<char>)
      requires Valid() && k < slots && |word| == SIZE
      modifies buffer
      ensures buffer[..] == Write(old(buffer[..]), k, word)
    {
      SlotFits(slots, k);
      for j := 0 to SIZE
        invariant buffer[..k * SIZE] == old(buffer[..k * SIZE])
        invariant buffer[k * SIZE..k * SIZE + j] == word[..j]
        invariant buffer[k * SIZE + SIZE..] == old(buffer[k * SIZE + SIZE..])
      {
        buffer[k * SIZE + j] := word[j];
      }
      assert buffer[..] == buffer[..k * SIZE] + buffer[k * SIZE..k * SIZE + SIZE] + buffer[k * SIZE + SIZE..];
    }

    /** memcmp of slot k with a word. */
    method Holds(k: nat, word: seq<char>) returns (same: bool)
      requires Valid() && k < slots && |word| == SIZE
      ensures k * SIZE + SIZE <= |buffer[..]| && (same <==> Slot(buffer[..], k) == word)
    {
      SlotFits(slots, k);
      for j := 0 to SIZE
        invariant forall i :: 0 <= i < j ==> buffer[k * SIZE + i] == word[i]
      {
        if buffer[k * SIZE + j] != word[j] {
          assert Slot(buffer[..], k)[j] != word[j];
          return false;
        }
      }
      same := true;
    }

    /** Inside a chief's critical section. */
    method Place()
      requires Valid()
      modifies this, buffer
      ensures Valid() && buffer == old(buffer) && View() == Placed(slots, old(View()))
    {
      Fill(head, PIZZA);
      head := (head + 1) % slots;
      pizzaCount := pizzaCount + 1;
    }

    /** Inside a courier's critical section: false is the "Bad pizza" branch. */
    method Fetch() returns (good: bool)
      requires Valid()
      modifies this, buffer
      ensures Valid() && buffer == old(buffer)
      ensures good <==> Slot(old(View()).buffer, old(tail)) == PIZZA
      ensures View() == if good then Fetched(slots, old(View())) else old(View())
    {
      good := Holds(tail, PIZZA);
      if good {
        Fill(tail, BLANK);
        tail := (tail + 1) % slots;
        pizzaCount := pizzaCount - 1;
      }
    }

    /** A chief arrives, or leaves. */
    method Count(chiefs: int)
      requires Valid()
      modifies this`chiefsCount
      ensures Valid() && View() == Recounted(old(View()), chiefs)
    {
      chiefsCount := chiefsCount + chiefs;
    }
  }

  lemma SlotFits(slots: nat, k: nat)
    requires k < slots
    ensures k * SIZE + SIZE <= slots * SIZE
  {
  }
}
