/** One day of the cook, as a function of what it had and of what its hunters brought, and a whole
    life as the iteration of days. */
module ZachetDay {

  const FOOD_IN_HUNTER := 2

  /** What the cook carries from one day to the next. */
  datatype Kitchen = Kitchen(food: int, hunters: int, alive: seq<bool>)

  /** What a hunter hears at the end of a day; Silent is no message at all. */
  datatype Reply = Silent | Hungry | Fed | Killed

  /** What the cook has decided when it starts sending replies; victim is -1 for nobody. */
  datatype Plan = Plan(food: int, hunters: int, cookFed: bool, victim: int)

  datatype Evening = Evening(kitchen: Kitchen, replies: seq<Reply>, cookFed: bool, victim: int)

  function Morning(n: nat): Kitchen
  {
    Kitchen(0, n, seq(n, _ => true))
  }

  function Count(s: seq<bool>): (c: nat)
    ensures c <= |s|
  {
    if s == [] then 0 else (if s[0] then 1 else 0) + Count(s[1..])
  }

  /** The first i at or after `from` with alive[i] and, if asked, no food brought. */
  function FirstAlive(alive: seq<bool>, brought: seq<bool>, emptyHanded: bool, from: nat): (r: int)
    requires |alive| == |brought| && from <= |alive|
    ensures r == -1 || from <= r < |alive|
    ensures r >= 0 ==> alive[r] && (emptyHanded ==> !brought[r])
    ensures forall i :: from <= i < (if r == -1 then |alive| else r) && alive[i] ==>
              emptyHanded && brought[i]
    decreases |alive| - from
  {
    if from == |alive| then -1
    else if alive[from] && (emptyHanded ==> !brought[from]) then from
    else FirstAlive(alive, brought, emptyHanded, from + 1)
  }

  /** The first living hunter that brought nothing, else the first living one. */
  function Victim(alive: seq<bool>, brought: seq<bool>): (r: int)
    requires |alive| == |brought|
    ensures -1 <= r < |alive|
  {
    var empty := FirstAlive(alive, brought, true, 0);
    if empty != -1 then empty else FirstAlive(alive, brought, false, 0)
  }

  /** The cook eats, and picks a victim when food does not go round; food is what lies there
      once the day's catch is in. */
  function Decide(food: int, hunters: int, alive: seq<bool>, brought: seq<bool>): Plan
    requires |alive| == |brought|
  {
    var ate := food > 0;
    var left := if ate then food - 1 else food;
    if left < hunters || !ate then
      var victim := Victim(alive, brought);
      var more := if victim != -1 then left + FOOD_IN_HUNTER else left;
      var h := if victim != -1 then hunters - 1 else hunters;
      if !ate && more > 0 then Plan(more - 1, h, true, victim) else Plan(more, h, ate, victim)
    else
      Plan(left, hunters, ate, -1)
  }

  /** The reply to hunter i, with food pieces left. */
  function ReplyTo(alive: bool, i: int, victim: int, food: int): Reply
  {
    if !alive then Silent
    else if i == victim then Killed
    else if food > 0 then Fed
    else Hungry
  }

  /** The replies from hunter `from` on. */
  function Serve(alive: seq<bool>, from: nat, victim: int, food: int): (r: seq<Reply>)
    requires from <= |alive|
    ensures |r| == |alive| - from
    decreases |alive| - from
  {
    if from == |alive| then []
    else
      var reply := ReplyTo(alive[from], from, victim, food);
      [reply] + Serve(alive, from + 1, victim, if reply == Fed then food - 1 else food)
  }

  /** The food left after serving from hunter `from` on. */
  function Left(alive: seq<bool>, from: nat, victim: int, food: int): int
    requires from <= |alive|
    decreases |alive| - from
  {
    if from == |alive| then food
    else Left(alive, from + 1, victim,
              if ReplyTo(alive[from], from, victim, food) == Fed then food - 1 else food)
  }

  /** The hunters alive once the victim has its reply. */
  function Survivors(alive: seq<bool>, victim: int): seq<bool>
    requires -1 <= victim < |alive|
  {
    if victim == -1 then alive else alive[victim := false]
  }

  /** One whole day; brought[i] says that hunter i lives and brought a piece. */
  function Day(k: Kitchen, brought: seq<bool>): Evening
    requires |brought| == |k.alive|
  {
    var plan := Decide(k.food + Count(brought), k.hunters, k.alive, brought);
    Evening(
      Kitchen(Left(k.alive, 0, plan.victim, plan.food), plan.hunters, Survivors(k.alive, plan.victim)),
      Serve(k.alive, 0, plan.victim, plan.food), plan.cookFed, plan.victim)
  }

  // ---------- one day ----------

  predicate Good(k: Kitchen)
  {
    k.hunters == Count(k.alive) && 0 <= k.food <= 2
  }

  predicate Hunted(k: Kitchen, brought: seq<bool>)
  {
    |brought| == |k.alive| && forall i :: 0 <= i < |brought| && brought[i] ==> k.alive[i]
  }

  lemma {:induction false} CountUpdate(s: seq<bool>, i: nat, b: bool)
    requires i < |s|
    ensures Count(s[i := b]) == Count(s) - (if s[i] then 1 else 0) + (if b then 1 else 0)
  {
    if i == 0 {
      assert s[0 := b][1..] == s[1..];
    } else {
      assert s[i := b][1..] == s[1..][i - 1 := b];
      CountUpdate(s[1..], i - 1, b);
    }
  }

  /** Less true everywhere is a smaller count, and the same count is the same sequence. */
  lemma {:induction false} CountBelow(a: seq<bool>, b: seq<bool>)
    requires |a| == |b| && forall i :: 0 <= i < |a| && a[i] ==> b[i]
    ensures Count(a) <= Count(b)
    ensures Count(a) == Count(b) ==> a == b
  {
    if a != [] {
      CountBelow(a[1..], b[1..]);
      assert a == [a[0]] + a[1..] && b == [b[0]] + b[1..];
    }
  }

  lemma {:induction false} CountAll(n: nat)
    ensures Count(seq(n, _ => true)) == n && Count(seq(n, _ => false)) == 0
  {
    if n > 0 {
      assert seq(n, _ => true)[1..] == seq(n - 1, _ => true);
      assert seq(n, _ => false)[1..] == seq(n - 1, _ => false);
      CountAll(n - 1);
    }
  }

  lemma {:induction false} CountZero(s: seq<bool>)
    ensures Count(s) == 0 <==> forall i :: 0 <= i < |s| ==> !s[i]
  {
    if s != [] {
      CountZero(s[1..]);
      assert s == [s[0]] + s[1..];
    }
  }

  /** The victim is the first living hunter that brought nothing, or, if all the living brought
      something, the first living one; only if nobody lives is there none. */
  lemma VictimLives(alive: seq<bool>, brought: seq<bool>)
    requires |alive| == |brought|
    ensures var v := Victim(alive, brought);
            && (v == -1 <==> Count(alive) == 0)
            && (v != -1 ==> alive[v])
            && (v != -1 && !brought[v] ==> forall i :: 0 <= i < v && alive[i] ==> brought[i])
            && (v != -1 && brought[v] ==>
                  && (forall i :: 0 <= i < |alive| && alive[i] ==> brought[i])
                  && (forall i :: 0 <= i < v ==> !alive[i]))
  {
    CountZero(alive);
  }

  function FedIn(replies: seq<Reply>): nat
  {
    if replies == [] then 0 else (if replies[0] == Fed then 1 else 0) + FedIn(replies[1..])
  }

  /** Serving gives one piece to each of the first living hunters, as long as there is food. */
  lemma {:induction false} ServeCounts(alive: seq<bool>, from: nat, victim: int, food: int)
    requires from <= |alive| && food >= 0
    ensures var eaters := Count(alive[from..])
                          - (if from <= victim < |alive| && alive[victim] then 1 else 0);
            && FedIn(Serve(alive, from, victim, food)) == (if food < eaters then food else eaters)
            && Left(alive, from, victim, food) == food - FedIn(Serve(alive, from, victim, food))
            && eaters >= 0
    decreases |alive| - from
  {
    if from == |alive| {
      assert alive[from..] == [];
    } else {
      var reply := ReplyTo(alive[from], from, victim, food);
      assert alive[from..] == [alive[from]] + alive[from + 1..];
      assert alive[from..][1..] == alive[from + 1..];
      var rest := Serve(alive, from + 1, victim, if reply == Fed then food - 1 else food);
      assert ([reply] + rest)[1..] == rest;
      ServeCounts(alive, from + 1, victim, if reply == Fed then food - 1 else food);
      if from <= victim < |alive| && alive[victim] {
        VictimCounts(alive, from, victim);
      }
    }
  }

  /** Living hunters other than the victim before hunter k. */
  function Eaters(alive: seq<bool>, from: nat, k: nat, victim: int): nat
    requires from <= k <= |alive|
    decreases k - from
  {
    if from == k then 0
    else (if alive[from] && from != victim then 1 else 0) + Eaters(alive, from + 1, k, victim)
  }

  /** Who gets what: the dead nothing, the victim its death, and of the others the first ones a
      piece, as many as there are pieces. */
  lemma {:induction false} ServeAt(alive: seq<bool>, from: nat, victim: int, food: int, k: nat)
    requires from <= k < |alive| && food >= 0
    ensures var reply := Serve(alive, from, victim, food)[k - from];
            && (reply == Silent <==> !alive[k])
            && (reply == Killed <==> alive[k] && k == victim)
            && (reply == Fed <==> alive[k] && k != victim && Eaters(alive, from, k, victim) < food)
    decreases k - from
  {
    if from < k {
      var reply := ReplyTo(alive[from], from, victim, food);
      var next := if reply == Fed then food - 1 else food;
      ServeAt(alive, from + 1, victim, next, k);
      assert Serve(alive, from, victim, food)[k - from] == Serve(alive, from + 1, victim, next)[k - from - 1];
    }
  }

  lemma VictimCounts(alive: seq<bool>, from: nat, victim: nat)
    requires from <= victim < |alive| && alive[victim]
    ensures Count(alive[from..]) >= 1
  {
    CountZero(alive[from..]);
    assert alive[from..][victim - from];
  }

  /** The arithmetic of a day: food in is food out, the counters stay right, at most two pieces
      are carried over, and the cook starves exactly when it has neither food nor hunters. */
  lemma DayCounts(k: Kitchen, brought: seq<bool>)
    requires Good(k) && Hunted(k, brought)
    ensures var e := Day(k, brought);
            && Good(e.kitchen)
            && |e.kitchen.alive| == |k.alive|
            && k.food + Count(brought) + (if e.victim != -1 then FOOD_IN_HUNTER else 0)
               == (if e.cookFed then 1 else 0) + FedIn(e.replies) + e.kitchen.food
            && (e.cookFed <==> k.food > 0 || k.hunters > 0)
            && (e.victim != -1 <==> k.hunters > 0 && k.food + Count(brought) <= k.hunters)
            && e.kitchen.hunters == k.hunters - (if e.victim != -1 then 1 else 0)
            && (e.cookFed ==> 3 * e.kitchen.hunters + e.kitchen.food < 3 * k.hunters + k.food)
            && (k.hunters == 1 && e.victim != -1 ==> e.kitchen.food >= 1)
            && (k.hunters == 0 ==> e.victim == -1 && e.kitchen.food == if k.food > 0 then k.food - 1 else 0)
  {
    hide Count, Victim, FedIn, Serve, Left;
    var plan := Decide(k.food + Count(brought), k.hunters, k.alive, brought);
    CountBelow(brought, k.alive);
    VictimLives(k.alive, brought);
    assert k.alive[0..] == k.alive;
    ServeCounts(k.alive, 0, plan.victim, plan.food);
    if plan.victim != -1 {
      CountUpdate(k.alive, plan.victim, false);
    }
  }

  // ---------- who is killed, who eats ----------

  predicate SomeEmptyHanded(alive: seq<bool>, brought: seq<bool>)
    requires |alive| == |brought|
  {
    exists i :: 0 <= i < |alive| && alive[i] && !brought[i]
  }

  /** Hunter v is the one to kill: the first living one that brought nothing, or, if every living
      one brought something, the first living one. */
  predicate Chosen(alive: seq<bool>, brought: seq<bool>, v: int)
    requires |alive| == |brought|
  {
    && 0 <= v < |alive| && alive[v]
    && if SomeEmptyHanded(alive, brought) then
         !brought[v] && forall i :: 0 <= i < v && alive[i] ==> brought[i]
       else forall i :: 0 <= i < v ==> !alive[i]
  }

  /** Whoever a day kills is the one to kill, and it is the only one that is not alive any more. */
  lemma DayVictim(k: Kitchen, brought: seq<bool>)
    requires |brought| == |k.alive|
    ensures var e := Day(k, brought);
            && (e.victim != -1 ==> Chosen(k.alive, brought, e.victim))
            && |e.kitchen.alive| == |k.alive|
            && forall i :: 0 <= i < |k.alive| ==> (e.kitchen.alive[i] <==> k.alive[i] && i != e.victim)
  {
    hide Serve, Left, Count;
    VictimLives(k.alive, brought);
  }

  /** Living hunters before i, the one to kill left out. */
  function Ahead(alive: seq<bool>, i: nat, v: int): set<nat>
    requires i <= |alive|
  {
    set j: nat | j < i && alive[j] && j != v
  }

  lemma {:induction false} EatersAhead(alive: seq<bool>, i: nat, v: int)
    requires i <= |alive|
    ensures Eaters(alive, 0, i, v) == |Ahead(alive, i, v)|
  {
    hide Ahead, Eaters;
    if i == 0 {
      NoneAhead(alive, v);
    } else {
      EatersAhead(alive, i - 1, v);
      EatersLast(alive, 0, i, v);
      OneAhead(alive, i, v);
    }
  }

  lemma NoneAhead(alive: seq<bool>, v: int)
    ensures Ahead(alive, 0, v) == {} && Eaters(alive, 0, 0, v) == 0
  {
  }

  lemma OneAhead(alive: seq<bool>, i: nat, v: int)
    requires 0 < i <= |alive|
    ensures |Ahead(alive, i, v)| == |Ahead(alive, i - 1, v)| + if alive[i - 1] && i - 1 != v then 1 else 0
  {
    hide Eaters;
    var before := Ahead(alive, i - 1, v);
    assert i - 1 !in before;
    if alive[i - 1] && i - 1 != v {
      assert Ahead(alive, i, v) == before + {i - 1};
    } else {
      assert Ahead(alive, i, v) == before;
    }
  }

  lemma {:induction false} EatersLast(alive: seq<bool>, from: nat, i: nat, v: int)
    requires from < i <= |alive|
    ensures Eaters(alive, from, i, v)
         == Eaters(alive, from, i - 1, v) + if alive[i - 1] && i - 1 != v then 1 else 0
    decreases i - from
  {
    if from + 1 < i {
      EatersLast(alive, from + 1, i, v);
    }
  }

  /** Everybody's reply.  The dead hear nothing and the one killed hears that; what lies there, with
      two pieces of the one killed and one for the cook off, goes to the others from the first on. */
  lemma DayReplies(k: Kitchen, brought: seq<bool>, i: nat)
    requires |brought| == |k.alive| && k.food >= 0 && i < |k.alive|
    ensures var e := Day(k, brought);
            var pieces := k.food + Count(brought) + (if e.victim != -1 then 2 else 0) - if e.cookFed then 1 else 0;
            && |e.replies| == |k.alive|
            && (e.replies[i] == Silent <==> !k.alive[i])
            && (e.replies[i] == Killed <==> i == e.victim)
            && (e.replies[i] == Fed <==> k.alive[i] && i != e.victim && |Ahead(k.alive, i, e.victim)| < pieces)
  {
    hide Left, Count, Eaters, Ahead;
    var plan := Decide(k.food + Count(brought), k.hunters, k.alive, brought);
    VictimLives(k.alive, brought);
    ServeAt(k.alive, 0, plan.victim, plan.food, i);
    EatersAhead(k.alive, i, plan.victim);
  }

  // ---------- a whole life ----------

  /** What living hunters bring on a day. */
  function Catch(alive: seq<bool>, hunts: (nat, nat) -> bool, day: nat): seq<bool>
  {
    seq(|alive|, i requires 0 <= i < |alive| => alive[i] && hunts(day, i))
  }

  /** The number of days from this morning to the cook's death, the day of death included. */
  function Life(k: Kitchen, hunts: (nat, nat) -> bool, day: nat): nat
    requires Good(k)
    decreases 3 * k.hunters + k.food
  {
    DayCounts(k, Catch(k.alive, hunts, day));
    var e := Day(k, Catch(k.alive, hunts, day));
    if e.cookFed then 1 + Life(e.kitchen, hunts, day + 1) else 1
  }

  /** However the hunts go, a cook with hunters lives at least hunters + 2 days and at most
      3 * hunters + food + 1. */
  lemma {:induction false} LifeBounds(k: Kitchen, hunts: (nat, nat) -> bool, day: nat)
    requires Good(k)
    ensures Life(k, hunts, day) <= 3 * k.hunters + k.food + 1
    ensures k.hunters >= 1 ==> Life(k, hunts, day) >= k.hunters + 2
    ensures k.hunters == 0 ==> Life(k, hunts, day) == k.food + 1
    decreases 3 * k.hunters + k.food
  {
    var brought := Catch(k.alive, hunts, day);
    DayCounts(k, brought);
    CountBelow(brought, k.alive);
    var e := Day(k, brought);
    if e.cookFed {
      LifeBounds(e.kitchen, hunts, day + 1);
    }
  }

  /** Every hunt succeeds: the upper bound is reached. */
  lemma {:induction false} LongestLife(k: Kitchen, day: nat)
    requires Good(k)
    ensures Life(k, (d, i) => true, day) == 3 * k.hunters + k.food + 1
    decreases 3 * k.hunters + k.food
  {
    hide Count, Victim, FedIn, Serve, Left;
    var brought := Catch(k.alive, (d, i) => true, day);
    assert brought == k.alive;
    var e := Day(k, brought);
    DayCounts(k, brought);
    var plan := Decide(k.food + Count(brought), k.hunters, k.alive, brought);
    VictimLives(k.alive, brought);
    assert k.alive[0..] == k.alive;
    ServeCounts(k.alive, 0, plan.victim, plan.food);
    if e.cookFed {
      assert 3 * e.kitchen.hunters + e.kitchen.food == 3 * k.hunters + k.food - 1;
      LongestLife(e.kitchen, day + 1);
    }
  }

  /** Every hunt fails: the lower bound is reached. */
  lemma {:induction false} ShortestLife(k: Kitchen, day: nat)
    requires Good(k) && k.food == 0 && k.hunters >= 1
    ensures Life(k, (d, i) => false, day) == k.hunters + 2
    decreases k.hunters
  {
    var brought := Catch(k.alive, (d, i) => false, day);
    var e := Day(k, brought);
    DayCounts(k, brought);
    CountZero(brought);
    var plan := Decide(0, k.hunters, k.alive, brought);
    VictimLives(k.alive, brought);
    assert k.alive[0..] == k.alive;
    ServeCounts(k.alive, 0, plan.victim, plan.food);
    if k.hunters == 1 {
      LifeBounds(e.kitchen, (d, i) => false, day + 1);
    } else {
      ShortestLife(e.kitchen, day + 1);
    }
  }

  /** With n >= 1 hunters the cook lives between n + 2 and 3n + 1 days, whatever they bring, and
      both bounds are attained. */
  lemma CookLife(n: nat, hunts: (nat, nat) -> bool)
    requires n >= 1
    ensures Good(Morning(n))
    ensures n + 2 <= Life(Morning(n), hunts, 0) <= 3 * n + 1
    ensures Life(Morning(n), (d, i) => true, 0) == 3 * n + 1
    ensures Life(Morning(n), (d, i) => false, 0) == n + 2
  {
    CountAll(n);
    LifeBounds(Morning(n), hunts, 0);
    LongestLife(Morning(n), 0);
    ShortestLife(Morning(n), 0);
  }
}
