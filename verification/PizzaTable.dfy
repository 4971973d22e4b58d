/** The shared table: a ring of slots, one pizza to a slot, each pizza the bytes of a word. */
module PizzaTable {

  const PIZZA: seq<char> := "pizza"
  const SIZE: nat := 5
  const BLANK: seq<char> := ['\0', '\0', '\0', '\0', '\0']

  datatype Table = Table(buffer: seq<char>, head: nat, tail: nat, chiefsCount: int, pizzaCount: int)

  function EmptyTable(slots: nat): Table
  {
    Table(seq(slots * SIZE, _ => '\0'), 0, 0, 0, 0)
  }

  predicate Shaped(slots: nat, t: Table)
  {
    |t.buffer| == slots * SIZE && t.head < slots && t.tail < slots
  }

  function Slot(buffer: seq<char>, k: nat): seq<char>
    requires k * SIZE + SIZE <= |buffer|
  {
    buffer[k * SIZE..k * SIZE + SIZE]
  }

  /** memcpy and memset: one slot overwritten. */
  function Write(buffer: seq<char>, k: nat, word: seq<char>): (r: seq<char>)
    requires k * SIZE + SIZE <= |buffer| && |word| == SIZE
    ensures |r| == |buffer|
    ensures Slot(r, k) == word
    ensures forall j: nat :: j != k && j * SIZE + SIZE <= |buffer| ==> Slot(r, j) == Slot(buffer, j)
  {
    var r := buffer[..k * SIZE] + word + buffer[k * SIZE + SIZE..];
    assert forall j: nat :: j != k && j * SIZE + SIZE <= |buffer| ==> Slot(r, j) == Slot(buffer, j) by {
      forall j: nat | j != k && j * SIZE + SIZE <= |buffer| ensures Slot(r, j) == Slot(buffer, j) {
        assert j < k ==> j * SIZE + SIZE <= k * SIZE;
        assert j > k ==> j * SIZE >= k * SIZE + SIZE;
      }
    }
    r
  }

  /** The position d places round the ring from k. */
  function Ahead(slots: nat, k: nat, d: nat): (r: nat)
    requires k < slots && d <= slots
    ensures r < slots
  {
    if k + d < slots then k + d else k + d - slots
  }

  /** How far round the ring from `from` the slot k lies. */
  function Distance(slots: nat, from: nat, k: nat): (d: nat)
    requires from < slots && k < slots
    ensures d < slots && Ahead(slots, from, d) == k
  {
    if k >= from then k - from else k + slots - from
  }

  /** (k + 1) % slots is the next place round the ring. */
  lemma NextIsAhead(slots: nat, k: nat)
    requires k < slots
    ensures (k + 1) % slots == Ahead(slots, k, 1)
  {
    if k + 1 < slots {
      SmallMod(k + 1, slots);
    } else {
      assert (k + 1) % slots == slots % slots == 0;
    }
  }

  /** One more place, at either end of the window. */
  lemma RingAfter(slots: nat, from: nat, count: nat)
    requires from < slots && count < slots
    ensures Ahead(slots, Ahead(slots, from, count), 1) == Ahead(slots, from, count + 1)
    ensures Ahead(slots, Ahead(slots, from, 1), count) == Ahead(slots, from, count + 1)
  {
  }

  lemma SmallMod(x: nat, n: nat)
    requires x < n
    ensures x % n == x
  {
  }

  /** The slots from `from` on, `count` of them, hold pizzas byte for byte; the others are blank. */
  predicate Filled(slots: nat, buffer: seq<char>, from: nat, count: nat)
    requires |buffer| == slots * SIZE && from < slots
  {
    && count <= slots
    && forall k: nat :: k < slots ==>
         Slot(buffer, k) == if Distance(slots, from, k) < count then PIZZA else BLANK
  }

  lemma FillOne(slots: nat, buffer: seq<char>, from: nat, count: nat)
    requires |buffer| == slots * SIZE && from < slots
    requires Filled(slots, buffer, from, count) && count < slots
    ensures var k := Ahead(slots, from, count);
            && Slot(buffer, k) == BLANK
            && Filled(slots, Write(buffer, k, PIZZA), from, count + 1)
  {
    var k := Ahead(slots, from, count);
    assert Distance(slots, from, k) == count;
    forall j: nat | j < slots && j != k ensures Distance(slots, from, j) != count {
    }
  }

  lemma ClearOne(slots: nat, buffer: seq<char>, from: nat, count: nat)
    requires |buffer| == slots * SIZE && from < slots
    requires Filled(slots, buffer, from, count) && count > 0
    ensures Slot(buffer, from) == PIZZA
    ensures Filled(slots, Write(buffer, from, BLANK), Ahead(slots, from, 1), count - 1)
  {
    assert Distance(slots, from, from) == 0;
    forall j: nat | j < slots && j != from
      ensures Distance(slots, Ahead(slots, from, 1), j) == Distance(slots, from, j) - 1
    {
    }
  }

  /** What the window of the ring holds, in order. */
  function Window<T>(slots: nat, tags: seq<T>, from: nat, count: nat): (r: seq<T>)
    requires |tags| == slots && from < slots && count <= slots
    ensures |r| == count
  {
    seq(count, d requires 0 <= d < count => tags[Ahead(slots, from, d)])
  }

  lemma WindowGrows<T>(slots: nat, tags: seq<T>, from: nat, count: nat, tag: T)
    requires |tags| == slots && from < slots && count < slots
    ensures Window(slots, tags[Ahead(slots, from, count) := tag], from, count + 1)
            == Window(slots, tags, from, count) + [tag]
  {
  }

  lemma WindowShrinks<T>(slots: nat, tags: seq<T>, from: nat, count: nat)
    requires |tags| == slots && from < slots && 0 < count <= slots
    ensures Window(slots, tags, from, count)
            == [tags[from]] + Window(slots, tags, Ahead(slots, from, 1), count - 1)
  {
  }
}
