/** The cook as the program runs it: counters and arrays updated in place, loop by loop.  A day of
    it is the day function of ZachetDay.dfy, a life the sequence of days. */
module ZachetCook {
  import opened ZachetDay

  /** A hunter's message: who sent it, and whether it brought a piece. */
  datatype Letter = Letter(idFrom: nat, food: bool)

  /** The cook's mail of a day: at most one message from each hunter. */
  predicate GoodMail(n: nat, mail: seq<Letter>)
  {
    && (forall k :: 0 <= k < |mail| ==> mail[k].idFrom < n)
    && (forall j, k :: 0 <= j < k < |mail| ==> mail[j].idFrom != mail[k].idFrom)
  }

  function BroughtIn(n: nat, mail: seq<Letter>): (r: seq<bool>)
    ensures |r| == n
  {
    seq(n, i requires 0 <= i < n => Letter(i, true) in mail)
  }

  /** What the living hunters send on a day, in the order of their numbers. */
  function MailOf(alive: seq<bool>, hunts: (nat, nat) -> bool, day: nat, from: nat): (r: seq<Letter>)
    requires from <= |alive|
    ensures forall k :: 0 <= k < |r| ==> from <= r[k].idFrom < |alive|
    decreases |alive| - from
  {
    if from == |alive| then []
    else (if alive[from] then [Letter(from, hunts(day, from))] else []) + MailOf(alive, hunts, day, from + 1)
  }

  lemma {:induction false} MailGood(alive: seq<bool>, hunts: (nat, nat) -> bool, day: nat, from: nat)
    requires from <= |alive|
    ensures var mail := MailOf(alive, hunts, day, from);
            && GoodMail(|alive|, mail) && |mail| == Count(alive[from..])
            && forall i: nat, b :: Letter(i, b) in mail <==> from <= i < |alive| && alive[i] && b == hunts(day, i)
    decreases |alive| - from
  {
    if from < |alive| {
      MailGood(alive, hunts, day, from + 1);
      assert alive[from..][1..] == alive[from + 1..];
    }
  }

  lemma MailCatch(alive: seq<bool>, hunts: (nat, nat) -> bool, day: nat)
    ensures var mail := MailOf(alive, hunts, day, 0);
            && GoodMail(|alive|, mail) && |mail| == Count(alive)
            && BroughtIn(|alive|, mail) == Catch(alive, hunts, day)
  {
    MailGood(alive, hunts, day, 0);
    assert alive[0..] == alive;
  }

  lemma ServeOne(alive: seq<bool>, i: nat, victim: int, food: int, before: seq<Reply>)
    requires i < |alive|
    ensures var reply := ReplyTo(alive[i], i, victim, food);
            var next := if reply == Fed then food - 1 else food;
            && before + Serve(alive, i, victim, food) == before + [reply] + Serve(alive, i + 1, victim, next)
            && Left(alive, i, victim, food) == Left(alive, i + 1, victim, next)
  {
  }

  lemma ServeEnd(alive: seq<bool>, victim: int, food: int)
    ensures Serve(alive, |alive|, victim, food) == [] && Left(alive, |alive|, victim, food) == food
  {
  }

  class Cook {
    const n: nat
    var foodCount: int
    var huntersCount: int
    var isAlive: array<bool>
    var broughtFood: array<bool>

    ghost predicate Valid()
      reads this
    {
      isAlive.Length == broughtFood.Length == n && isAlive != broughtFood
    }

    ghost function View(): Kitchen
      reads this, isAlive
    {
      Kitchen(foodCount, huntersCount, isAlive[..])
    }

    constructor (n: nat)
      ensures Valid() && this.n == n && View() == Morning(n) && fresh(isAlive) && fresh(broughtFood)
    {
      this.n, foodCount, huntersCount := n, 0, n;
      isAlive := new bool[n](_ => true);
      broughtFood := new bool[n](_ => false);
    }

    /** The receive loop: the day's catch, whatever order the messages come in. */
    method Receive(mail: seq<Letter>)
      requires Valid() && GoodMail(n, mail) && |mail| == huntersCount
      modifies this`foodCount, broughtFood
      ensures Valid()
      ensures broughtFood[..] == BroughtIn(n, mail)
      ensures foodCount == old(foodCount) + Count(broughtFood[..])
    {
      for i := 0 to n
        invariant foodCount == old(foodCount)
        invariant forall j :: 0 <= j < i ==> !broughtFood[j]
      {
        broughtFood[i] := false;
      }
      CountZero(broughtFood[..]);
      assert Count(broughtFood[..]) == 0;
      var i := 0;
      while i != huntersCount
        invariant 0 <= i <= |mail|
        invariant Valid()
        invariant forall j: nat :: j < n ==> (broughtFood[j] <==> Letter(j, true) in mail[..i])
        invariant foodCount == old(foodCount) + Count(broughtFood[..])
        decreases |mail| - i
      {
        var id := mail[i].idFrom;
        label L:
        assert !broughtFood[id];
        CountUpdate(broughtFood[..], id, mail[i].food);
        assert mail[..i + 1] == mail[..i] + [mail[i]];
        if mail[i].food {
          broughtFood[id] := true;
          foodCount := foodCount + 1;
        } else {
          broughtFood[id] := false;
        }
        assert broughtFood[..] == old@L(broughtFood[..])[id := mail[i].food];
        i := i + 1;
      }
      assert mail[..i] == mail;
    }

    /** The two search loops for a victim. */
    method ChooseVictim() returns (victim: int)
      requires Valid()
      ensures victim == Victim(isAlive[..], broughtFood[..])
    {
      victim := -1;
      var i := 0;
      while i != n
        invariant 0 <= i <= n
        invariant FirstAlive(isAlive[..], broughtFood[..], true, i)
               == FirstAlive(isAlive[..], broughtFood[..], true, 0)
      {
        if isAlive[i] && !broughtFood[i] {
          return i;
        }
        i := i + 1;
      }
      i := 0;
      while i != n
        invariant 0 <= i <= n
        invariant FirstAlive(isAlive[..], broughtFood[..], false, i)
               == FirstAlive(isAlive[..], broughtFood[..], false, 0)
      {
        if isAlive[i] {
          return i;
        }
        i := i + 1;
      }
    }

    /** The cook eats, and picks a victim when food does not go round. */
    method Share() returns (cookHadFood: bool, victim: int)
      requires Valid()
      modifies this`foodCount, this`huntersCount
      ensures Valid()
      ensures Plan(foodCount, huntersCount, cookHadFood, victim)
           == Decide(old(foodCount), old(huntersCount), isAlive[..], broughtFood[..])
    {
      cookHadFood, victim := false, -1;
      if foodCount > 0 {
        cookHadFood := true;
        foodCount := foodCount - 1;
      }
      if foodCount < huntersCount || !cookHadFood {
        victim := ChooseVictim();
        if victim != -1 {
          foodCount := foodCount + FOOD_IN_HUNTER;
          huntersCount := huntersCount - 1;
        }
        if !cookHadFood && foodCount > 0 {
          foodCount := foodCount - 1;
          cookHadFood := true;
        }
      }
    }

    /** The reply loop. */
    method Reply(victim: int) returns (replies: seq<ZachetDay.Reply>)
      requires Valid() && -1 <= victim < n && (victim != -1 ==> isAlive[victim])
      modifies this`foodCount, isAlive
      ensures Valid()
      ensures replies == Serve(old(isAlive[..]), 0, victim, old(foodCount))
      ensures foodCount == Left(old(isAlive[..]), 0, victim, old(foodCount))
      ensures isAlive[..] == Survivors(old(isAlive[..]), victim)
    {
      hide Serve, Left;
      ghost var alive := isAlive[..];
      replies := [];
      for i := 0 to n
        invariant isAlive[..] == if victim < i then Survivors(alive, victim) else alive
        invariant replies + Serve(alive, i, victim, foodCount) == Serve(alive, 0, victim, old(foodCount))
        invariant Left(alive, i, victim, foodCount) == Left(alive, 0, victim, old(foodCount))
      {
        var reply := ReplyTo(isAlive[i], i, victim, foodCount);
        assert isAlive[i] == alive[i];
        ServeOne(alive, i, victim, foodCount, replies);
        if isAlive[i] {
          if i == victim {
            isAlive[i] := false;
          }
          if foodCount > 0 && i != victim {
            foodCount := foodCount - 1;
          }
        }
        replies := replies + [reply];
      }
      ServeEnd(alive, victim, foodCount);
    }

    /** One day, from the first message received to the last reply sent. */
    method LiveDay(mail: seq<Letter>) returns (replies: seq<ZachetDay.Reply>, cookHadFood: bool, victim: int)
      requires Valid() && GoodMail(n, mail) && |mail| == huntersCount
      modifies this`foodCount, this`huntersCount, isAlive, broughtFood
      ensures Valid()
      ensures Evening(View(), replies, cookHadFood, victim) == Day(old(View()), BroughtIn(n, mail))
    {
      Receive(mail);
      VictimLives(isAlive[..], broughtFood[..]);
      cookHadFood, victim := Share();
      replies := Reply(victim);
    }

    /** The whole life: it ends, and after exactly the days the sequence of days says. */
    method Live(hunts: (nat, nat) -> bool) returns (days: nat)
      requires Valid() && View() == Morning(n)
      modifies this`foodCount, this`huntersCount, isAlive, broughtFood
      ensures Good(Morning(n)) && days == Life(Morning(n), hunts, 0)
    {
      CountAll(n);
      days := 0;
      var alive := true;
      while alive
        invariant Valid() && Good(View()) && Good(Morning(n))
        invariant Life(Morning(n), hunts, 0) == days + if alive then Life(View(), hunts, days) else 0
        decreases alive, 3 * huntersCount + foodCount
      {
        MailCatch(isAlive[..], hunts, days);
        DayCounts(View(), Catch(isAlive[..], hunts, days));
        var _, fed, _ := LiveDay(MailOf(isAlive[..], hunts, days, 0));
        alive := fed;
        days := days + 1;
      }
    }
  }
}
