/** The bogatir as the program runs it: fields updated in place, values in an array.  Every method
    is one move of the process in BogatiryaProcess.dfy. */
module BogatiryaObject {
  import opened MessageQueue
  import opened BogatiryaProcess
  import opened BogatiryaCircle
  import opened BogatiryaRelay

  lemma SortedRepeats(s: seq<int>)
    requires Sorted(s)
    ensures NoRepeats(s) <==> forall i :: 0 <= i < |s| - 1 ==> s[i] != s[i + 1]
  {
    if forall i :: 0 <= i < |s| - 1 ==> s[i] != s[i + 1] {
      forall i, j | 0 <= i < j < |s| ensures s[i] != s[j] {
        assert s[i] < s[i + 1] <= s[j];
      }
    }
  }

  /** Sort gives the only sorted arrangement: whatever sorts in place leaves this. */
  lemma SortIsUnique(before: seq<int>, after: seq<int>)
    requires Sorted(after) && multiset(after) == multiset(before)
    ensures after == Sort(before)
  {
    SortedUnique(after, Sort(before));
  }

  /** std::sort: by the lemma above it cannot leave anything else. */
  method SortInPlace(a: array<int>)
    modifies a
    ensures a[..] == Sort(old(a[..]))
  {
    var sorted := Sort(a[..]);
    for i := 0 to a.Length
      invariant a[..i] == sorted[..i]
    {
      a[i] := sorted[i];
    }
    assert a[..a.Length] == a[..] && sorted[..a.Length] == sorted;
  }

  class Bogatir {
    const n: nat
    const text: seq<int>
    var loc: Loc
    var myval: int
    var values: array<int>
    var count: nat
    var myId: int
    ghost var round: nat

    ghost predicate Valid()
      reads this
    {
      n >= 1 && values.Length == n && count <= n
    }

    /** The process that the fields stand for. */
    ghost function View(): Process
      requires Valid()
      reads this, values
    {
      Process(loc, round, myval, values[..count], myId)
    }

    constructor (n: nat, text: seq<int>)
      requires n >= 1
      ensures Valid() && View() == START && fresh(values)
      ensures this.n == n && this.text == text
    {
      this.n, this.text := n, text;
      loc, round, myval, count, myId := Loc.Draw, 0, 0, 0, -1;
      values := new int[n](_ => 0);
    }

    /** The top of the election loop. */
    method Draw(v: int) returns (sent: int)
      requires Valid() && Accepts(n, text, View(), Drawn(v))
      modifies this, values
      ensures Valid() && values == old(values)
      ensures Effect(View(), [sent], []) == Step(n, text, old(View()), Drawn(v))
    {
      myval := v;
      values[0] := v;
      count := 1;
      loc := Collect;
      sent := v;
    }

    /** A message of the bogatir's own type: a value, a reply to the leader, or a command. */
    method Receive(v: int)
      requires Valid() && Accepts(n, text, View(), Got(v))
      modifies this, values
      ensures Valid() && values == old(values)
      ensures Effect(View(), [], []) == Step(n, text, old(View()), Got(v))
    {
      match loc {
        case Collect =>
          values[count] := v;
          count := count + 1;
        case LeaderAwait(pos) =>
          loc := LeaderLoop(pos + 1);
        case FollowerWait =>
          if v == 0 {
            loc := Exited;
          } else if v == FIRST_SYMBOL + myId {
            loc := FollowerPrint;
          }
      }
    }

    /** Whether two neighbours are equal. */
    method IsUnique() returns (unique: bool)
      requires Valid() && count == n && Sorted(values[..])
      ensures unique <==> NoRepeats(values[..])
    {
      SortedRepeats(values[..]);
      unique := true;
      var i := 0;
      while i + 1 < n
        invariant 0 <= i < n
        invariant forall k :: 0 <= k < i ==> values[k] != values[k + 1]
      {
        if values[i] == values[i + 1] {
          return false;
        }
        i := i + 1;
      }
    }

    /** The first place of the own value. */
    method FindRank() returns (rank: int)
      requires Valid() && count == n
      ensures rank == IndexOf(values[..], myval)
    {
      rank := -1;
      var i := 0;
      while i != n
        invariant 0 <= i <= n && myval !in values[..i]
      {
        if values[i] == myval {
          FirstIs(values[..], myval, i);
          return i;
        }
        i := i + 1;
      }
      assert values[..n] == values[..];
    }

    /** Sort, test for a repeated value, and draw again or take a rank. */
    method Conclude()
      requires Valid() && loc.Collect? && count == n
      modifies this, values
      ensures Valid() && values == old(values)
      ensures Effect(View(), [], []) == Step(n, text, old(View()), Tick)
    {
      hide Sort, IndexOf, NoRepeats, Sorted;
      assert values[..count] == values[..];
      SortInPlace(values);
      assert values[..count] == values[..];
      var unique := IsUnique();
      if !unique {
        loc := Loc.Draw;
        round := round + 1;
        return;
      }
      myId := FindRank();
      loc := if myId == 0 then LeaderLoop(0) else FollowerWait;
    }

    /** What a bogatir with a rank does on its own: the leader walks along the string, the
        follower prints and answers. */
    method Print() returns (sent: seq<int>, printed: seq<int>)
      requires Valid() && Accepts(n, text, View(), Tick) && !loc.Collect?
      modifies this
      ensures Valid() && values == old(values)
      ensures Effect(View(), sent, printed) == Step(n, text, old(View()), Tick)
    {
      sent, printed := [], [];
      match loc {
        case LeaderLoop(pos) =>
          if pos == |text| {
            loc, printed := LeaderStop, [NEWLINE];
          } else if text[pos] == FIRST_SYMBOL + myId {
            loc, printed := LeaderLoop(pos + 1), [text[pos]];
          } else {
            loc, sent := LeaderAwait(pos), [text[pos]];
          }
        case LeaderStop =>
          loc, sent := Exited, [0];
        case FollowerPrint =>
          loc, printed := FollowerReply, [FIRST_SYMBOL + myId];
        case FollowerReply =>
          loc, sent := FollowerWait, [FIRST_SYMBOL + myId];
      }
    }
  }

  lemma {:induction false} FirstIs(s: seq<int>, x: int, i: nat)
    requires i < |s| && s[i] == x && x !in s[..i]
    ensures IndexOf(s, x) == i
    decreases i
  {
    if i > 0 {
      assert s[0] in s[..i];
      assert s[1..][..i - 1] == s[..i][1..];
      FirstIs(s[1..], x, i - 1);
    }
  }

  /** The mailbox of bogatir j when the relay loop has got to bogatir i. */
  function Relayed(before: Queue<Letter>, letter: Letter, i: nat, j: nat): seq<Letter>
  {
    Of(before, GenMtypeFromMain(j)) + if j < i && j != letter.from then [Letter(0, letter.value)] else []
  }

  lemma RelayedMore(before: Queue<Letter>, letter: Letter, i: nat, j: nat)
    ensures Relayed(before, letter, i + 1, j)
         == if j == i && j != letter.from then Relayed(before, letter, i, j) + [Letter(0, letter.value)]
            else Relayed(before, letter, i, j)
    ensures Relayed(before, letter, 0, j) == Of(before, GenMtypeFromMain(j))
  {
  }

  lemma RelayedStep(before: Queue<Letter>, q: Queue<Letter>, letter: Letter, i: nat)
    requires forall j: nat :: Of(q, GenMtypeFromMain(j)) == Relayed(before, letter, i, j)
    ensures var r := if i != letter.from then Send(q, GenMtypeFromMain(i), Letter(0, letter.value)) else q;
            && Of(r, MAIN_MTYPE) == Of(q, MAIN_MTYPE)
            && forall j: nat :: Of(r, GenMtypeFromMain(j)) == Relayed(before, letter, i + 1, j)
  {
    hide Of, Send, Relayed;
    OfSend(q, GenMtypeFromMain(i), Letter(0, letter.value));
    forall j: nat
      ensures Of(if i != letter.from then Send(q, GenMtypeFromMain(i), Letter(0, letter.value)) else q,
                 GenMtypeFromMain(j))
           == Relayed(before, letter, i + 1, j)
    {
      RelayedMore(before, letter, i, j);
    }
  }

  /** main, with the queue it reads from and writes to. */
  class Main {
    var queue: Queue<Letter>

    /** One turn of the relay loop: everyone but the sender gets the value, behind whatever it
        has to receive already, and nothing else on the queue changes. */
    method RelayOne(n: nat) returns (value: int)
      requires Of(queue, MAIN_MTYPE) != []
      modifies this
      ensures var l := old(Of(queue, MAIN_MTYPE))[0];
              && value == l.value
              && Of(queue, MAIN_MTYPE) == old(Of(queue, MAIN_MTYPE))[1..]
              && forall i: nat :: Of(queue, GenMtypeFromMain(i))
                   == old(Of(queue, GenMtypeFromMain(i)))
                      + if i < n && i != l.from then [Letter(0, l.value)] else []
    {
      hide Of, Remove, Send;
      var letter := Of(queue, MAIN_MTYPE)[0];
      OfRemove(queue, MAIN_MTYPE);
      queue := Remove(queue, MAIN_MTYPE);
      ghost var before := queue;
      forall j: nat ensures Relayed(before, letter, 0, j) == Of(before, GenMtypeFromMain(j)) {
        RelayedMore(before, letter, 0, j);
      }
      for i := 0 to n
        invariant Of(queue, MAIN_MTYPE) == Of(before, MAIN_MTYPE)
        invariant forall j: nat :: Of(queue, GenMtypeFromMain(j)) == Relayed(before, letter, i, j)
      {
        RelayedStep(before, queue, letter, i);
        if i != letter.from {
          queue := Send(queue, GenMtypeFromMain(i), Letter(0, letter.value));
        }
      }
      value := letter.value;
    }
  }
}
