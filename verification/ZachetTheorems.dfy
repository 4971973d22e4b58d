/** What the cook and the hunters promise, for every run in every interleaving and whatever the
    hunts bring. */
module ZachetTheorems {
  import opened MessageQueue
  import opened ZachetDay
  import opened ZachetSystem
  import opened ZachetProofs

  // ---------- the asynchronous system is a sequence of days ----------

  /** The results of the hunts so far, by day and hunter. */
  function HuntsOf(s: System): (nat, nat) -> bool
  {
    (day: nat, k: nat) => k < |s.hunts| && day < |s.hunts[k]| && s.hunts[k][day]
  }

  /** What the cook has on a morning, when the days are run one after another. */
  function Sequential(n: nat, hunts: (nat, nat) -> bool, day: nat): (k: Kitchen)
    ensures |k.alive| == n
  {
    if day == 0 then Morning(n)
    else
      var k := Sequential(n, hunts, day - 1);
      Day(k, Catch(k.alive, hunts, day - 1)).kitchen
  }

  lemma {:induction false} DaysLength(n: nat, past: seq<seq<bool>>)
    requires Lived(n, past)
    ensures |Days(n, past).alive| == n && Good(Days(n, past))
  {
    if past == [] {
      CountAll(n);
    } else {
      DaysLength(n, past[..|past| - 1]);
      DayCounts(Days(n, past[..|past| - 1]), past[|past| - 1]);
    }
  }

  lemma PastDay(n: nat, s: System, d: nat)
    requires Inv(n, s) && d < |s.past|
    ensures |Days(n, s.past[..d]).alive| == n
    ensures s.past[d] == Catch(Days(n, s.past[..d]).alive, HuntsOf(s), d)
  {
    LivedPrefix(n, s.past, d);
    LivedPrefix(n, s.past, d + 1);
    DaysLength(n, s.past[..d]);
    assert s.past[..d + 1][..d] == s.past[..d];
    forall k | 0 <= k < n
      ensures s.past[d][k] == Catch(Days(n, s.past[..d]).alive, HuntsOf(s), d)[k]
    {
      assert RecordedAt(n, s, k);
      assert DayRecorded(n, s.past, s.hunts[k], d, k);
    }
  }

  lemma {:induction false} LivedPrefix(n: nat, past: seq<seq<bool>>, d: nat)
    requires Lived(n, past) && d <= |past|
    ensures Lived(n, past[..d])
  {
    if d == |past| {
      assert past[..d] == past;
    } else {
      LivedPrefix(n, past[..|past| - 1], d);
      assert past[..|past| - 1][..d] == past[..d];
    }
  }

  lemma {:induction false} DaysSequential(n: nat, s: System, d: nat)
    requires Inv(n, s) && d <= |s.past|
    ensures Days(n, s.past[..d]) == Sequential(n, HuntsOf(s), d)
  {
    hide Inv, Day, Catch, HuntsOf;
    if d > 0 {
      DaysSequential(n, s, d - 1);
      PastDay(n, s, d - 1);
      assert s.past[..d][..d - 1] == s.past[..d - 1] && s.past[..d][d - 1] == s.past[d - 1];
      PastLong(n, s, d);
    }
  }

  lemma PastLong(n: nat, s: System, d: nat)
    requires Inv(n, s) && 0 < d <= |s.past|
    ensures s.past[..d] != [] && |s.past[d - 1]| == |Days(n, s.past[..d - 1]).alive|
  {
    hide HunterAt, ToldAt, RecordedAt, Day, Serve, Left;
    PastDay(n, s, d - 1);
  }

  /** Refinement.  In every interleaving the cook begins each day with exactly what running the
      days one after another gives, from the hunters' results alone: the order in which messages
      arrive, and early repliers hunting ahead, change nothing. */
  lemma Refinement(n: nat, run: seq<Action>)
    requires Valid(n, run)
    ensures var s := Exec(n, run);
            && s.morning == Sequential(n, HuntsOf(s), |s.past|)
            && Sized(n, s)
            && (s.cook.Serving? ==>
                  s.brought == Catch(s.morning.alive, HuntsOf(s), |s.past|))
  {
    var s := Exec(n, run);
    RunKeeps(n, run);
    DaysSequential(n, s, |s.past|);
    assert s.past[..|s.past|] == s.past;
    if s.cook.Serving? {
      forall k | 0 <= k < n ensures s.brought[k] == Catch(s.morning.alive, HuntsOf(s), |s.past|)[k] {
        assert RecordedAt(n, s, k);
      }
    }
  }

  /** Two runs that have come equally far with the same results have the same morning. */
  lemma OrderIrrelevant(n: nat, run: seq<Action>, other: seq<Action>)
    requires Valid(n, run) && Valid(n, other)
    requires |Exec(n, run).past| == |Exec(n, other).past|
    requires forall d: nat, k: nat :: d < |Exec(n, run).past| && k < n ==>
               HuntsOf(Exec(n, run))(d, k) == HuntsOf(Exec(n, other))(d, k)
    ensures Exec(n, run).morning == Exec(n, other).morning
  {
    Refinement(n, run);
    Refinement(n, other);
    SameDays(n, HuntsOf(Exec(n, run)), HuntsOf(Exec(n, other)), |Exec(n, run).past|);
  }

  lemma {:induction false} SameDays(n: nat, a: (nat, nat) -> bool, b: (nat, nat) -> bool, day: nat)
    requires forall d: nat, k: nat :: d < day && k < n ==> a(d, k) == b(d, k)
    ensures Sequential(n, a, day) == Sequential(n, b, day)
  {
    hide Day;
    if day > 0 {
      SameDays(n, a, b, day - 1);
      var alive := Sequential(n, a, day - 1).alive;
      assert Catch(alive, a, day - 1) == Catch(alive, b, day - 1);
    }
  }

  // ---------- what a hunter has under way ----------

  /** The cook has hunter k's message of the day and has not answered it. */
  predicate Owed(s: System, k: nat)
    requires k < |s.heard|
  {
    match s.cook
    case Receiving(_) => s.heard[k]
    case Serving(i, _, _) => k >= i
    case Dead => false
  }

  /** Each living hunter owns exactly one thing: a message to send, a message queued to the cook, a
      reply queued to it, or a message the cook still has to answer.  A dead one owns at most its
      last reply. */
  lemma OwnsOne(n: nat, run: seq<Action>, k: nat)
    requires Valid(n, run) && k < n
    ensures Sized(n, Exec(n, run))
    ensures var s := Exec(n, run);
            var mail, inbox := Mail(n, s.queue, k), Inbox(s.queue, k);
            if s.alive[k] then
              (if s.hunters[k].Hunting? then 1 else 0) + |mail| + |inbox| + (if Owed(s, k) then 1 else 0) == 1
            else mail == [] && |inbox| <= 1 && (inbox != [] <==> s.hunters[k] != Gone)
  {
    hide Exec, Valid, CookAt, ToldAt, RecordedAt, Addressed, Mail, Inbox;
    RunKeeps(n, run);
    assert HunterAt(n, Exec(n, run), k);
  }

  // ---------- how long it lasts ----------

  lemma {:induction false} LifeAfter(n: nat, s: System, d: nat)
    requires Inv(n, s) && d <= |s.past|
    ensures Good(Morning(n)) && Good(Days(n, s.past[..d]))
    ensures Life(Morning(n), HuntsOf(s), 0) == d + Life(Days(n, s.past[..d]), HuntsOf(s), d)
  {
    hide HunterAt, ToldAt, RecordedAt, Addressed, Day, Catch, HuntsOf, Serve, Good;
    CountAll(n);
    LivedPrefix(n, s.past, d);
    GoodStart(n);
    DaysLength(n, s.past[..d]);
    if d > 0 {
      LifeAfter(n, s, d - 1);
      PastDay(n, s, d - 1);
      assert s.past[..d][..d - 1] == s.past[..d - 1] && s.past[..d][d - 1] == s.past[d - 1];
      PastLong(n, s, d);
    }
  }

  lemma GoodStart(n: nat)
    ensures Good(Morning(n))
  {
    CountAll(n);
  }

  /** A dead cook died on the day the sequence of days says, between day n + 2 and day 3n + 1. */
  lemma DeathDay(n: nat, run: seq<Action>)
    requires Valid(n, run) && Exec(n, run).cook == Dead
    ensures Good(Morning(n))
    ensures |Exec(n, run).past| + 1 == Life(Morning(n), HuntsOf(Exec(n, run)), 0)
    ensures n >= 1 ==> n + 2 <= |Exec(n, run).past| + 1 <= 3 * n + 1
  {
    var s := Exec(n, run);
    RunKeeps(n, run);
    LifeAfter(n, s, |s.past|);
    assert s.past[..|s.past|] == s.past;
    LifeBounds(s.morning, HuntsOf(s), |s.past|);
    if n >= 1 {
      CookLife(n, HuntsOf(s));
    }
  }

  // ---------- nobody is forgotten ----------

  function Kills(replies: seq<Reply>): nat
  {
    if replies == [] then 0
    else Kills(replies[..|replies| - 1]) + if replies[|replies| - 1] == Killed then 1 else 0
  }

  lemma KillsAppend(replies: seq<Reply>, reply: Reply)
    ensures Kills(replies + Heeded(reply)) == Kills(replies) + if reply == Killed then 1 else 0
  {
    if reply == Silent {
      assert replies + Heeded(reply) == replies;
    } else {
      assert (replies + [reply])[..|replies|] == replies;
    }
  }

  /** One day kills hunter k when it was alive and is not any more. */
  lemma DayKills(m: Kitchen, brought: seq<bool>, k: nat)
    requires Good(m) && Hunted(m, brought) && k < |m.alive|
    ensures ReplyOn(m, brought, k) == Killed <==> m.alive[k] && !Day(m, brought).kitchen.alive[k]
    ensures !m.alive[k] ==> !Day(m, brought).kitchen.alive[k]
  {
    var plan := Planned(m, brought);
    ServeAt(m.alive, 0, plan.victim, plan.food, k);
    VictimLives(m.alive, brought);
  }

  lemma {:induction false} KilledOnce(n: nat, past: seq<seq<bool>>, k: nat)
    requires Lived(n, past) && k < n
    ensures |Days(n, past).alive| == n
    ensures Kills(Told(n, past, k)) == if Days(n, past).alive[k] then 0 else 1
  {
    DaysLength(n, past);
    if past != [] {
      var before, brought := past[..|past| - 1], past[|past| - 1];
      KilledOnce(n, before, k);
      DaysLength(n, before);
      DayKills(Days(n, before), brought, k);
      KillsAppend(Told(n, before, k), ReplyOn(Days(n, before), brought, k));
    }
  }

  lemma AliveSoFar(m: Kitchen, brought: seq<bool>, i: nat, victim: int, food: int, alive: seq<bool>, k: nat)
    requires |brought| == |m.alive| && i <= |m.alive| && k < |m.alive|
    requires ServingAt(m, brought, i, victim, food, alive)
    ensures |alive| == |m.alive|
    ensures alive[k] == if k < i then Day(m, brought).kitchen.alive[k] else m.alive[k]
  {
  }

  lemma KillsOf(n: nat, s: System, k: nat)
    requires Inv(n, s) && k < n
    ensures Kills(s.served[k]) == if s.alive[k] then 0 else 1
  {
    var m := s.morning;
    var told := Told(n, s.past, k);
    assert ToldAt(n, s, k);
    assert Kills(told) == (if m.alive[k] then 0 else 1) by { KilledOnce(n, s.past, k); }
    if s.cook.Serving? {
      AliveSoFar(m, s.brought, s.cook.i, s.cook.victim, s.food, s.alive, k);
    }
    if s.cook.Serving? && k < s.cook.i {
      var reply := ReplyOn(m, s.brought, k);
      assert reply == Killed <==> m.alive[k] && !s.alive[k] by { DayKills(m, s.brought, k); }
      assert !m.alive[k] ==> !s.alive[k] by { DayKills(m, s.brought, k); }
      KillsAppend(told, reply);
    } else {
      assert s.served[k] == told;
    }
  }

  /** Each hunter is sent MSG_KILLED once if it is dead and never while it lives; nobody is ever
      sent MSG_COOK_DEAD. */
  lemma KilledReplies(n: nat, run: seq<Action>)
    requires Valid(n, run)
    ensures var s := Exec(n, run);
            && Sized(n, s)
            && (forall k :: 0 <= k < n ==> Kills(s.served[k]) == if s.alive[k] then 0 else 1)
            && (forall k, j :: 0 <= k < n && 0 <= j < |Inbox(s.queue, k)| ==>
                  !Inbox(s.queue, k)[j].value.cookDead)
  {
    hide Exec, Valid, CookAt, HunterAt, ToldAt, RecordedAt, Addressed, Kills, Of;
    var s := Exec(n, run);
    RunKeeps(n, run);
    forall k | 0 <= k < n ensures Kills(s.served[k]) == if s.alive[k] then 0 else 1 {
      KillsOf(n, s, k);
    }
    forall k, j | 0 <= k < n && 0 <= j < |Inbox(s.queue, k)|
      ensures !Inbox(s.queue, k)[j].value.cookDead
    {
      InboxOf(n, s, k);
    }
  }

  lemma InboxOf(n: nat, s: System, k: nat)
    requires Inv(n, s) && k < n
    ensures forall j :: 0 <= j < |Inbox(s.queue, k)| ==> !Inbox(s.queue, k)[j].value.cookDead
  {
    hide CookAt, ToldAt, RecordedAt, Addressed, Inbox, Mail;
    assert HunterAt(n, s, k);
  }

  /** The cook dies only when all hunters are dead and no food is left: no hunter is left waiting
      for a reply that does not come. */
  lemma DiesLast(n: nat, run: seq<Action>)
    requires Valid(n, run) && Exec(n, run).cook == Dead
    ensures var s := Exec(n, run);
            && Sized(n, s) && s.food == 0
            && forall k :: 0 <= k < n ==>
                 && !s.alive[k] && Kills(s.served[k]) == 1
                 && (s.hunters[k] == Gone || (s.hunters[k] == Waiting && Inbox(s.queue, k) != []))
  {
    var s := Exec(n, run);
    RunKeeps(n, run);
    KilledReplies(n, run);
    CountZero(s.alive);
    forall k | 0 <= k < n
      ensures s.hunters[k] == Gone || (s.hunters[k] == Waiting && Inbox(s.queue, k) != [])
    {
      assert HunterAt(n, s, k);
    }
  }

  predicate Finished(s: System)
  {
    s.cook == Dead && forall k :: 0 <= k < |s.hunters| ==> s.hunters[k] == Gone
  }

  /** When cook and hunters have all returned, the queue that main removes is empty. */
  lemma QueueEmpty(n: nat, run: seq<Action>)
    requires Valid(n, run) && Finished(Exec(n, run))
    ensures Exec(n, run).queue == []
  {
    var s := Exec(n, run);
    RunKeeps(n, run);
    forall k: nat | k < n ensures Inbox(s.queue, k) == [] && Mail(n, s.queue, k) == [] {
      assert HunterAt(n, s, k);
    }
    NothingLeft(n, s.queue);
  }

  lemma NothingLeft(n: nat, q: Queue<Letter>)
    requires Addressed(n, q)
    requires forall k: nat :: k < n ==> Inbox(q, k) == [] && Mail(n, q, k) == []
    ensures q == []
  {
    forall t | SndToHunter(0) <= t < SndToHunter(n) ensures Of(q, t) == [] {
      assert Inbox(q, t - SndToHunter(0)) == [];
    }
    assert Of(q, CookMtype(n)) != [] ==> Mail(n, q, Of(q, CookMtype(n))[0].idFrom) != [];
    if Of(q, CookMtype(n)) != [] {
      HeadFrom(q, CookMtype(n));
    }
    assert q != [] ==> Of(q, q[0].mtype) != [];
  }

  // ---------- food ----------

  function Brought(past: seq<seq<bool>>): nat
  {
    if past == [] then 0 else Brought(past[..|past| - 1]) + Count(past[|past| - 1])
  }

  function FedOn(n: nat, past: seq<seq<bool>>): nat
  {
    if past == [] then 0
    else
      var before, brought := past[..|past| - 1], past[|past| - 1];
      var m := Days(n, before);
      FedOn(n, before) + if |brought| == |m.alive| then FedIn(Day(m, brought).replies) else 0
  }

  lemma {:induction false} Conserved(n: nat, past: seq<seq<bool>>)
    requires Lived(n, past)
    ensures Brought(past) + FOOD_IN_HUNTER * (n - Days(n, past).hunters)
            == |past| + FedOn(n, past) + Days(n, past).food
  {
    if past != [] {
      var before, brought := past[..|past| - 1], past[|past| - 1];
      Conserved(n, before);
      DaysLength(n, before);
      DayCounts(Days(n, before), brought);
    }
  }

  /** The MSG_FOOD replies sent to all hunters together. */
  function FedTo(served: seq<seq<Reply>>): nat
  {
    if served == [] then 0 else FedIn(served[0]) + FedTo(served[1..])
  }

  lemma {:induction false} FedConcat(a: seq<Reply>, b: seq<Reply>)
    ensures FedIn(a + b) == FedIn(a) + FedIn(b)
  {
    if a == [] {
      assert a + b == b;
    } else {
      assert (a + b)[1..] == a[1..] + b;
      FedConcat(a[1..], b);
    }
  }

  /** One more reply to everybody. */
  lemma {:induction false} FedMore(served: seq<seq<Reply>>, later: seq<seq<Reply>>, replies: seq<Reply>)
    requires |served| == |later| == |replies|
    requires forall k :: 0 <= k < |served| ==> later[k] == served[k] + Heeded(replies[k])
    ensures FedTo(later) == FedTo(served) + FedIn(replies)
  {
    if served != [] {
      FedConcat(served[0], Heeded(replies[0]));
      assert [replies[0]][1..] == [];
      FedMore(served[1..], later[1..], replies[1..]);
    }
  }

  lemma {:induction false} FedNone(n: nat, served: seq<seq<Reply>>)
    requires |served| == n && forall k :: 0 <= k < n ==> served[k] == []
    ensures FedTo(served) == 0
  {
    if n > 0 {
      FedNone(n - 1, served[1..]);
    }
  }

  function AllTold(n: nat, past: seq<seq<bool>>): seq<seq<Reply>>
  {
    seq(n, k requires 0 <= k < n => Told(n, past, k))
  }

  lemma {:induction false} ToldFed(n: nat, past: seq<seq<bool>>)
    requires Lived(n, past)
    ensures FedTo(AllTold(n, past)) == FedOn(n, past)
  {
    hide Decide, Serve, Left, Count, FedTo;
    if past == [] {
      FedNone(n, AllTold(n, past));
    } else {
      var before, brought := past[..|past| - 1], past[|past| - 1];
      ToldFed(n, before);
      DaysLength(n, before);
      var m := Days(n, before);
      FedMore(AllTold(n, before), AllTold(n, past), Day(m, brought).replies);
    }
  }

  /** Food is conserved.  Except while the day's replies are going out: what was brought, today's
      catch included, and two pieces per hunter killed is what the cook ate, one piece a day, the
      MSG_FOOD replies it sent, and what it has left; and it never begins a day with less than
      nothing or more than two pieces. */
  lemma FoodConserved(n: nat, run: seq<Action>)
    requires Valid(n, run)
    ensures var s := Exec(n, run);
            && Sized(n, s)
            && (!s.cook.Serving? ==>
                  Brought(s.past) + (if s.cook.Receiving? then Count(s.brought) else 0)
                  + FOOD_IN_HUNTER * (n - Count(s.alive))
                  == |s.past| + FedTo(s.served) + s.food)
            && 0 <= s.morning.food <= 2 && s.food >= 0
            && s.morning.hunters == Count(s.morning.alive)
  {
    hide Exec, Valid, HunterAt, RecordedAt, Addressed, Told, FedTo, FedOn, Brought, Days, Lived, Count;
    var s := Exec(n, run);
    RunKeeps(n, run);
    Conserved(n, s.past);
    if !s.cook.Serving? {
      ToldFed(n, s.past);
      forall k | 0 <= k < n ensures s.served[k] == Told(n, s.past, k) {
        assert ToldAt(n, s, k);
        assert Told(n, s.past, k) + [] == Told(n, s.past, k);
      }
      assert s.served == AllTold(n, s.past);
    }
  }
}
