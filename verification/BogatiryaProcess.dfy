/** One bogatir, as a deterministic process: what it does with a drawn value, with a received
    message, or on its own.  The functions here are the specification of the class in
    BogatiryaObject.dfy and the moves of the systems in BogatiryaCircle.dfy and
    BogatiryaRelay.dfy. */
module BogatiryaProcess {

  const FIRST_SYMBOL := 32 // ' '
  const NEWLINE := 10

  /** Where a bogatir is.  Draw is the top of the election loop and Collect its receive loop,
      the sort and the uniqueness test; the rest are the two printing loops. */
  datatype Loc =
    | Draw
    | Collect
    | LeaderLoop(pos: nat)
    | LeaderAwait(pos: nat)
    | LeaderStop
    | FollowerWait
    | FollowerPrint
    | FollowerReply
    | Exited

  /** round counts the elections this bogatir has lost to a repeated value: no branch reads it. */
  datatype Process = Process(loc: Loc, round: nat, myval: int, values: seq<int>, rank: int)

  datatype Input = Drawn(v: int) | Got(v: int) | Tick

  datatype Effect = Effect(process: Process, sent: seq<int>, printed: seq<int>)

  const START := Process(Draw, 0, 0, [], -1)

  // ---------- sorting, uniqueness, ranks ----------

  predicate Sorted(s: seq<int>)
  {
    forall i, j :: 0 <= i < j < |s| ==> s[i] <= s[j]
  }

  predicate NoRepeats(s: seq<int>)
  {
    forall i, j :: 0 <= i < j < |s| ==> s[i] != s[j]
  }

  function Insert(x: int, s: seq<int>): (r: seq<int>)
    requires Sorted(s)
    ensures multiset(r) == multiset(s) + multiset{x}
    ensures Sorted(r)
  {
    if s == [] then [x]
    else if x <= s[0] then [x] + s
    else
      var r := Insert(x, s[1..]);
      InsertBehind(x, s, r);
      [s[0]] + r
  }

  lemma InsertBehind(x: int, s: seq<int>, r: seq<int>)
    requires s != [] && Sorted(s) && s[0] < x && Sorted(r) && multiset(r) == multiset(s[1..]) + multiset{x}
    ensures Sorted([s[0]] + r) && multiset([s[0]] + r) == multiset(s) + multiset{x}
  {
    assert s == [s[0]] + s[1..];
    forall k | 0 <= k < |r| ensures s[0] <= r[k] {
      assert r[k] in multiset(r);
      assert r[k] == x || r[k] in s[1..];
    }
  }

  function Sort(s: seq<int>): (r: seq<int>)
    ensures Sorted(r) && multiset(r) == multiset(s)
    ensures |r| == |s|
  {
    if s == [] then []
    else
      assert s == [s[0]] + s[1..];
      var r := Insert(s[0], Sort(s[1..]));
      assert |r| == |multiset(r)| == |multiset(s)| == |s|;
      r
  }

  /** The position of the first x, or -1: what the rank loop computes. */
  function IndexOf(s: seq<int>, x: int): (k: int)
    ensures -1 <= k < |s|
    ensures k >= 0 ==> s[k] == x && x !in s[..k]
    ensures k == -1 <==> x !in s
  {
    if s == [] then -1
    else if s[0] == x then 0
    else
      var k := IndexOf(s[1..], x);
      assert k >= 0 ==> s[..k + 1] == [s[0]] + s[1..][..k];
      if k == -1 then -1 else k + 1
  }

  /** Two sorted sequences with the same elements are the same sequence. */
  lemma {:induction false} SortedUnique(a: seq<int>, b: seq<int>)
    requires Sorted(a) && Sorted(b) && multiset(a) == multiset(b)
    ensures a == b
  {
    if a == [] {
      assert |multiset(b)| == 0;
    } else {
      SameFirst(a, b);
      SortedUnique(a[1..], b[1..]);
      assert a == [a[0]] + a[1..] && b == [b[0]] + b[1..];
    }
  }

  lemma SameFirst(a: seq<int>, b: seq<int>)
    requires Sorted(a) && Sorted(b) && multiset(a) == multiset(b) && a != []
    ensures b != [] && a[0] == b[0] && multiset(a[1..]) == multiset(b[1..])
  {
    assert a[0] in multiset(b) && b[0] in multiset(a);
    assert a[0] <= b[0] by {
      var k :| 0 <= k < |a| && a[k] == b[0];
    }
    assert b[0] <= a[0] by {
      var k :| 0 <= k < |b| && b[k] == a[0];
    }
    DropFirst(a);
    DropFirst(b);
  }

  lemma DropFirst(a: seq<int>)
    requires a != []
    ensures multiset(a[1..]) == multiset(a) - multiset{a[0]}
  {
    assert a == [a[0]] + a[1..];
  }

  lemma SameSort(a: seq<int>, b: seq<int>)
    requires multiset(a) == multiset(b)
    ensures Sort(a) == Sort(b)
  {
    SortedUnique(Sort(a), Sort(b));
  }

  /** Having no repeated element is a property of the multiset alone. */
  lemma {:induction false} NoRepeatsMultiset(s: seq<int>)
    ensures NoRepeats(s) <==> forall x :: x in multiset(s) ==> multiset(s)[x] == 1
  {
    if s != [] {
      var r := s[1..];
      assert s == [s[0]] + r;
      NoRepeatsMultiset(r);
      assert NoRepeats(s) <==> NoRepeats(r) && s[0] !in r;
      if NoRepeats(s) {
        forall x | x in multiset(s) ensures multiset(s)[x] == 1 {
          if x != s[0] {
            assert x in multiset(r);
          }
        }
      } else if NoRepeats(r) {
        assert s[0] in multiset(r);
        assert multiset(s)[s[0]] > 1;
      } else {
        var x :| x in multiset(r) && multiset(r)[x] != 1;
        assert multiset(s)[x] > 1;
      }
    }
  }

  lemma SameRepeats(a: seq<int>, b: seq<int>)
    requires multiset(a) == multiset(b)
    ensures NoRepeats(a) <==> NoRepeats(b)
  {
    NoRepeatsMultiset(a);
    NoRepeatsMultiset(b);
  }

  // ---------- the process ----------

  predicate Accepts(n: nat, text: seq<int>, p: Process, input: Input)
  {
    match p.loc
    case Draw => input.Drawn? && input.v != 0
    case Collect => if |p.values| < n then input.Got? else input.Tick?
    case LeaderLoop(pos) => input.Tick? && pos <= |text|
    case LeaderAwait(pos) => input.Got?
    case LeaderStop => input.Tick?
    case FollowerWait => input.Got?
    case FollowerPrint => input.Tick?
    case FollowerReply => input.Tick?
    case Exited => false
  }

  /** All values are in: sort, test for a repeated value, and either draw again or take the
      place of the own value as rank. */
  function Conclude(p: Process): Process
  {
    var sorted := Sort(p.values);
    if !NoRepeats(sorted) then
      p.(loc := Draw, round := p.round + 1, values := sorted)
    else
      var rank := IndexOf(sorted, p.myval);
      p.(loc := if rank == 0 then LeaderLoop(0) else FollowerWait, values := sorted, rank := rank)
  }

  function Symbol(p: Process): int
  {
    FIRST_SYMBOL + p.rank
  }

  function Step(n: nat, text: seq<int>, p: Process, input: Input): Effect
    requires Accepts(n, text, p, input)
  {
    match p.loc
    case Draw =>
      Effect(p.(loc := Collect, myval := input.v, values := [input.v]), [input.v], [])
    case Collect =>
      if |p.values| < n then Effect(p.(values := p.values + [input.v]), [], [])
      else Effect(Conclude(p), [], [])
    case LeaderLoop(pos) =>
      if pos == |text| then Effect(p.(loc := LeaderStop), [], [NEWLINE])
      else if text[pos] == Symbol(p) then Effect(p.(loc := LeaderLoop(pos + 1)), [], [text[pos]])
      else Effect(p.(loc := LeaderAwait(pos)), [text[pos]], [])
    case LeaderAwait(pos) =>
      Effect(p.(loc := LeaderLoop(pos + 1)), [], [])
    case LeaderStop =>
      Effect(p.(loc := Exited), [0], [])
    case FollowerWait =>
      if input.v == 0 then Effect(p.(loc := Exited), [], [])
      else if input.v != Symbol(p) then Effect(p, [], [])
      else Effect(p.(loc := FollowerPrint), [], [])
    case FollowerPrint =>
      Effect(p.(loc := FollowerReply), [], [Symbol(p)])
    case FollowerReply =>
      Effect(p.(loc := FollowerWait), [Symbol(p)], [])
  }
}
