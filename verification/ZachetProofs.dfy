/** Every action of the cook and of every hunter keeps the invariant. */
module ZachetProofs {
  import opened Sequences
  import opened MessageQueue
  import opened ZachetDay
  import opened ZachetSystem

  lemma InvInit(n: nat)
    ensures Inv(n, Init(n))
  {
    hide CookAt, HunterAt, ToldAt, RecordedAt;
    InitCook(n);
    forall k | 0 <= k < n ensures HunterAt(n, Init(n), k) && ToldAt(n, Init(n), k) && RecordedAt(n, Init(n), k) {
      InitHunter(n, k);
    }
  }

  lemma InitCook(n: nat)
    ensures CookAt(n, Init(n))
  {
    CountAll(n);
  }

  lemma InitHunter(n: nat, k: nat)
    requires k < n
    ensures HunterAt(n, Init(n), k) && ToldAt(n, Init(n), k) && RecordedAt(n, Init(n), k)
  {
  }

  // ---------- traffic ----------

  lemma {:induction false} FoodConcat(a: seq<Letter>, b: seq<Letter>, k: nat)
    ensures FoodFrom(a + b, k) == FoodFrom(a, k) + FoodFrom(b, k)
  {
    if a == [] {
      assert a + b == b && [] + FoodFrom(b, k) == FoodFrom(b, k);
    } else {
      FoodConcat(a[1..], b, k);
      FoodFirst(a[0], a[1..] + b, k);
      assert a == [a[0]] + a[1..] && a + b == [a[0]] + (a[1..] + b);
      Assoc(if a[0].idFrom == k then [a[0].value.food] else [], FoodFrom(a[1..], k), FoodFrom(b, k));
    }
  }

  lemma FoodFirst(l: Letter, a: seq<Letter>, k: nat)
    ensures FoodFrom([l] + a, k) == (if l.idFrom == k then [l.value.food] else []) + FoodFrom(a, k)
  {
    assert ([l] + a)[1..] == a;
  }

  lemma SendMail(n: nat, q: Queue<Letter>, v: Value, id: nat, k: nat)
    requires k < n
    ensures var r := Send(q, CookMtype(n), Letter(v, id));
            Mail(n, r, k) == Mail(n, q, k) + (if id == k then [v.food] else []) && Inbox(r, k) == Inbox(q, k)
  {
    OfSend(q, CookMtype(n), Letter(v, id));
    FoodConcat(Of(q, CookMtype(n)), [Letter(v, id)], k);
    assert [Letter(v, id)][1..] == [];
  }

  lemma SendReply(n: nat, q: Queue<Letter>, l: Letter, i: nat, k: nat)
    requires k < n && i < n
    ensures var r := Send(q, SndToHunter(i), l);
            Mail(n, r, k) == Mail(n, q, k) && Inbox(r, k) == Inbox(q, k) + if i == k then [l] else []
  {
    OfSend(q, SndToHunter(i), l);
  }

  lemma TakeReply(n: nat, q: Queue<Letter>, i: nat, k: nat)
    requires k < n && i < n && Inbox(q, i) != []
    ensures var r := Remove(q, SndToHunter(i));
            Mail(n, r, k) == Mail(n, q, k) && Inbox(r, k) == if i == k then Inbox(q, k)[1..] else Inbox(q, k)
  {
    OfRemove(q, SndToHunter(i));
  }

  lemma TakeMail(n: nat, q: Queue<Letter>, k: nat)
    requires k < n && Of(q, CookMtype(n)) != []
    ensures var r := Remove(q, CookMtype(n));
            var l := Of(q, CookMtype(n))[0];
            && Inbox(r, k) == Inbox(q, k)
            && Mail(n, q, k) == (if l.idFrom == k then [l.value.food] else []) + Mail(n, r, k)
  {
    OfRemove(q, CookMtype(n));
  }

  lemma SendAddressed(n: nat, q: Queue<Letter>, t: int, l: Letter)
    requires Addressed(n, q)
    requires (t == CookMtype(n) && l.idFrom < n) || SndToHunter(0) <= t < SndToHunter(n)
    ensures Addressed(n, Send(q, t, l))
  {
  }

  lemma RemoveAddressed(n: nat, q: Queue<Letter>, t: int)
    requires Addressed(n, q) && Of(q, t) != []
    ensures Addressed(n, Remove(q, t))
  {
    RemoveOne(q, t);
    var r := Remove(q, t);
    forall j | 0 <= j < |r|
      ensures (r[j].mtype == CookMtype(n) && r[j].body.idFrom < n)
              || SndToHunter(0) <= r[j].mtype < SndToHunter(n)
    {
      assert r[j] in multiset(r);
      assert r[j] in multiset(q);
    }
  }

  /** The head of the cook's messages comes from a living hunter not heard today. */
  lemma {:induction false} HeadFrom(q: Queue<Letter>, t: int)
    requires Of(q, t) != []
    ensures exists j :: 0 <= j < |q| && q[j].mtype == t && q[j].body == Of(q, t)[0]
  {
    if q[0].mtype != t {
      HeadFrom(q[1..], t);
      var j :| 0 <= j < |q[1..]| && q[1..][j].mtype == t && q[1..][j].body == Of(q[1..], t)[0];
      assert q[j + 1] == q[1..][j];
    }
  }

  lemma MailHead(n: nat, s: System)
    requires Inv(n, s) && s.cook.Receiving? && Of(s.queue, CookMtype(n)) != []
    ensures var id := Of(s.queue, CookMtype(n))[0].idFrom;
            id < n && s.alive[id] && !s.heard[id] && Mail(n, s.queue, id) != []
  {
    HeadFrom(s.queue, CookMtype(n));
    var id := Of(s.queue, CookMtype(n))[0].idFrom;
    assert HunterAt(n, s, id);
  }

  // ---------- hunters ----------

  /** The hunts of a hunter that can still hunt only grow past what the days have used. */
  lemma RecordedGrows(n: nat, s: System, t: System, k: nat)
    requires Sized(n, s) && Sized(n, t) && k < n && RecordedAt(n, s, k)
    requires t.past == s.past && t.morning == s.morning && t.cook == s.cook
    requires s.brought == t.brought && s.hunts[k] <= t.hunts[k]
    requires |s.hunts[k]| >= |s.past| || t.hunts[k] == s.hunts[k]
    ensures RecordedAt(n, t, k)
  {
    forall d | 0 <= d < |t.past| ensures DayRecorded(n, t.past, t.hunts[k], d, k) {
      assert DayRecorded(n, s.past, s.hunts[k], d, k);
    }
  }

  lemma HuntOwn(n: nat, s: System, k: nat, gotFood: bool)
    requires Inv(n, s) && Enabled(n, s, Hunt(k, gotFood))
    ensures HunterAt(n, HunterHunts(n, s, k, gotFood), k)
    ensures |s.hunts[k]| >= |s.past|
  {
    assert HunterAt(n, s, k);
    SendMail(n, s.queue, Value(gotFood, false, false), k, k);
  }

  lemma HuntKeeps(n: nat, s: System, k: nat, gotFood: bool)
    requires Inv(n, s) && Enabled(n, s, Hunt(k, gotFood))
    ensures Inv(n, HunterHunts(n, s, k, gotFood))
  {
    var t := HunterHunts(n, s, k, gotFood);
    HuntOwn(n, s, k, gotFood);
    SendAddressed(n, s.queue, CookMtype(n), Letter(Value(gotFood, false, false), k));
    forall j | 0 <= j < n ensures HunterAt(n, t, j) && ToldAt(n, t, j) && RecordedAt(n, t, j) {
      assert HunterAt(n, s, j) && ToldAt(n, s, j) && RecordedAt(n, s, j);
      SendMail(n, s.queue, Value(gotFood, false, false), k, j);
      RecordedGrows(n, s, t, j);
    }
    CookFrame(n, s, t);
  }

  lemma CookFrame(n: nat, s: System, t: System)
    requires Sized(n, s) && CookAt(n, s) && Sized(n, t)
    requires t.cook == s.cook && t.food == s.food && t.huntersCount == s.huntersCount
    requires t.alive == s.alive && t.brought == s.brought && t.heard == s.heard
    requires t.morning == s.morning && t.past == s.past
    ensures CookAt(n, t)
  {
  }

  lemma HearKeeps(n: nat, s: System, k: nat)
    requires Inv(n, s) && Enabled(n, s, Hear(k))
    ensures Inv(n, HunterHears(n, s, k))
  {
    var t := HunterHears(n, s, k);
    RemoveAddressed(n, s.queue, SndToHunter(k));
    forall j | 0 <= j < n ensures HunterAt(n, t, j) && ToldAt(n, t, j) && RecordedAt(n, t, j) {
      assert HunterAt(n, s, j) && ToldAt(n, s, j) && RecordedAt(n, s, j);
      TakeReply(n, s.queue, k, j);
      RecordedGrows(n, s, t, j);
    }
    CookFrame(n, s, t);
  }

  // ---------- the cook ----------

  lemma ReceiveCook(n: nat, s: System)
    requires Inv(n, s) && Enabled(n, s, CookStep) && s.cook.Receiving? && s.cook.i != s.huntersCount
    ensures CookAt(n, CookReceives(n, s))
  {
    var t := CookReceives(n, s);
    var l := Of(s.queue, CookMtype(n))[0];
    MailHead(n, s);
    assert !s.brought[l.idFrom];
    CountUpdate(s.heard, l.idFrom, true);
    CountUpdate(s.brought, l.idFrom, l.value.food);
    CountBelow(t.heard, s.morning.alive);
  }

  lemma ReceiveKeeps(n: nat, s: System)
    requires Inv(n, s) && Enabled(n, s, CookStep) && s.cook.Receiving? && s.cook.i != s.huntersCount
    ensures Inv(n, CookReceives(n, s))
  {
    var t := CookReceives(n, s);
    var l := Of(s.queue, CookMtype(n))[0];
    MailHead(n, s);
    ReceiveCook(n, s);
    RemoveAddressed(n, s.queue, CookMtype(n));
    forall j | 0 <= j < n ensures HunterAt(n, t, j) && ToldAt(n, t, j) && RecordedAt(n, t, j) {
      assert HunterAt(n, s, j) && ToldAt(n, s, j) && RecordedAt(n, s, j);
      TakeMail(n, s.queue, j);
      assert forall d :: 0 <= d < |s.past| ==> DayRecorded(n, s.past, s.hunts[j], d, j);
    }
  }

  /** The receive loop ends with exactly one message of today from every living hunter. */
  lemma AllHeard(n: nat, s: System)
    requires Inv(n, s) && s.cook.Receiving? && s.cook.i == s.huntersCount
    ensures s.heard == s.alive
  {
    CountBelow(s.heard, s.morning.alive);
  }

  lemma DecideCook(n: nat, s: System)
    requires Inv(n, s) && Enabled(n, s, CookStep) && s.cook.Receiving? && s.cook.i == s.huntersCount
    ensures CookAt(n, CookReceives(n, s))
    ensures CookReceives(n, s).alive == s.alive
  {
    hide Count, HunterAt, ToldAt, RecordedAt, Addressed, Days, Lived, FedIn, Of, Victim;
    var t := CookReceives(n, s);
    var m := s.morning;
    AllHeard(n, s);
    DayCounts(m, s.brought);
    var plan := Decide(m.food + Count(s.brought), m.hunters, m.alive, s.brought);
    assert Serve(m.alive, 0, plan.victim, plan.food)[0..] == Serve(m.alive, 0, plan.victim, plan.food);
  }

  lemma DecideKeeps(n: nat, s: System)
    requires Inv(n, s) && Enabled(n, s, CookStep) && s.cook.Receiving? && s.cook.i == s.huntersCount
    ensures Inv(n, CookReceives(n, s))
  {
    var t := CookReceives(n, s);
    AllHeard(n, s);
    DecideCook(n, s);
    forall j | 0 <= j < n ensures HunterAt(n, t, j) && ToldAt(n, t, j) && RecordedAt(n, t, j) {
      assert HunterAt(n, s, j) && ToldAt(n, s, j) && RecordedAt(n, s, j);
      assert forall d :: 0 <= d < |s.past| ==> DayRecorded(n, s.past, s.hunts[j], d, j);
    }
  }

  /** The reply being sent is the one the day function plans. */
  lemma ReplyPlanned(n: nat, s: System)
    requires Inv(n, s) && s.cook.Serving? && s.cook.i < n
    ensures s.alive[s.cook.i] == s.morning.alive[s.cook.i]
    ensures ReplyTo(s.alive[s.cook.i], s.cook.i, s.cook.victim, s.food)
            == ReplyOn(s.morning, s.brought, s.cook.i)
  {
    var i, m := s.cook.i, s.morning;
    var all := Serve(m.alive, 0, s.cook.victim, Planned(s.morning, s.brought).food);
    assert Serve(m.alive, i, s.cook.victim, s.food)[0] == all[i..][0];
  }

  lemma ServeStep(alive: seq<bool>, i: nat, victim: int, food: int, all: seq<Reply>)
    requires i < |alive| == |all| && Serve(alive, i, victim, food) == all[i..]
    ensures var reply := ReplyTo(alive[i], i, victim, food);
            var next := if reply == Fed then food - 1 else food;
            && reply == all[i]
            && Serve(alive, i + 1, victim, next) == all[i + 1..]
            && Left(alive, i, victim, food) == Left(alive, i + 1, victim, next)
  {
    var reply := ReplyTo(alive[i], i, victim, food);
    var rest := Serve(alive, i + 1, victim, if reply == Fed then food - 1 else food);
    assert ([reply] + rest)[1..] == rest;
    assert all[i..][1..] == all[i + 1..];
  }

  lemma ServingStep(m: Kitchen, brought: seq<bool>, i: nat, victim: int, food: int, alive: seq<bool>)
    requires |brought| == |m.alive| && i < |m.alive| && ServingAt(m, brought, i, victim, food, alive)
    ensures |alive| == |m.alive|
    ensures var reply := ReplyTo(alive[i], i, victim, food);
            ServingAt(m, brought, i + 1, victim, if reply == Fed then food - 1 else food,
                      if reply != Silent && i == victim then alive[i := false] else alive)
  {
    ServeStep(m.alive, i, victim, food, Serve(m.alive, 0, victim, Planned(m, brought).food));
    VictimLives(m.alive, brought);
  }

  lemma ServeCook(n: nat, s: System)
    requires Inv(n, s) && s.cook.Serving? && s.cook.i < n
    ensures CookAt(n, CookServes(n, s))
  {
    hide Count, HunterAt, ToldAt, RecordedAt, Addressed, Days, Lived, ServingAt, Send, Planned, Good;
    ServingStep(s.morning, s.brought, s.cook.i, s.cook.victim, s.food, s.alive);
  }

  lemma ServeHunter(n: nat, s: System, j: nat)
    requires Inv(n, s) && s.cook.Serving? && s.cook.i < n && j < n
    ensures var t := CookServes(n, s);
            Sized(n, t) && HunterAt(n, t, j) && ToldAt(n, t, j)
  {
    hide CookAt, RecordedAt, Addressed, Days, Send, Mail, Inbox, Told, ReplyOn;
    var i := s.cook.i;
    var reply := ReplyTo(s.alive[i], i, s.cook.victim, s.food);
    assert HunterAt(n, s, j) && ToldAt(n, s, j);
    ReplyPlanned(n, s);
    SendReply(n, s.queue, Letter(ValueOf(reply), 0), i, j);
  }

  lemma ServeKeeps(n: nat, s: System)
    requires Inv(n, s) && s.cook.Serving? && s.cook.i < n
    ensures Inv(n, CookServes(n, s))
  {
    var t := CookServes(n, s);
    var i := s.cook.i;
    ServeCook(n, s);
    SendAddressed(n, s.queue, SndToHunter(i),
                  Letter(ValueOf(ReplyTo(s.alive[i], i, s.cook.victim, s.food)), 0));
    forall j | 0 <= j < n ensures HunterAt(n, t, j) && ToldAt(n, t, j) && RecordedAt(n, t, j) {
      ServeHunter(n, s, j);
      assert RecordedAt(n, s, j);
      assert forall d :: 0 <= d < |s.past| ==> DayRecorded(n, s.past, s.hunts[j], d, j);
    }
  }

  /** The cook dies only of an empty pot and an empty hunting party. */
  lemma DieKeeps(n: nat, s: System)
    requires Inv(n, s) && s.cook.Serving? && s.cook.i == n && !s.cook.cookFed
    ensures Inv(n, CookServes(n, s))
  {
    var t := CookServes(n, s);
    DayCounts(s.morning, s.brought);
    CountZero(s.morning.alive);
    forall j | 0 <= j < n ensures HunterAt(n, t, j) && ToldAt(n, t, j) && RecordedAt(n, t, j) {
      hide Days, Told, Lived, Mail, Inbox, Addressed, Free, Owing;
      assert HunterAt(n, s, j) && ToldAt(n, s, j) && RecordedAt(n, s, j);
      ServeAt(s.morning.alive, 0, s.cook.victim, Planned(s.morning, s.brought).food, j);
      assert forall d :: 0 <= d < |s.past| ==> DayRecorded(n, s.past, s.hunts[j], d, j);
    }
  }

  /** The day that ends is the day function's day. */
  lemma DayEnds(n: nat, s: System)
    requires Inv(n, s) && s.cook.Serving? && s.cook.i == n
    ensures Kitchen(s.food, s.huntersCount, s.alive) == Day(s.morning, s.brought).kitchen
    ensures s.cook.cookFed == Day(s.morning, s.brought).cookFed
    ensures Hunted(s.morning, s.brought)
    ensures Days(n, s.past + [s.brought]) == Day(s.morning, s.brought).kitchen
    ensures s.cook.cookFed ==> Lived(n, s.past + [s.brought])
  {
    assert (s.past + [s.brought])[..|s.past|] == s.past;
  }

  lemma WakeKeeps(n: nat, s: System)
    requires Inv(n, s) && s.cook.Serving? && s.cook.i == n && s.cook.cookFed
    ensures Inv(n, CookServes(n, s))
  {
    var t := CookServes(n, s);
    DayEnds(n, s);
    DayCounts(s.morning, s.brought);
    CountAll(n);
    assert CookAt(n, t);
    forall j | 0 <= j < n ensures HunterAt(n, t, j) && ToldAt(n, t, j) && RecordedAt(n, t, j) {
      WakeHunter(n, s, j);
    }
  }

  lemma WakeHunter(n: nat, s: System, j: nat)
    requires Inv(n, s) && s.cook.Serving? && s.cook.i == n && s.cook.cookFed && j < n
    ensures var t := CookServes(n, s);
            Sized(n, t) && HunterAt(n, t, j) && ToldAt(n, t, j) && RecordedAt(n, t, j)
  {
    hide Days, DayRecorded, Told, ReplyOn, Place, Lived, ServingAt, Planned, Mail, Inbox, Addressed;
    assert CookAt(n, s) && HunterAt(n, s, j) && ToldAt(n, s, j) && RecordedAt(n, s, j);
    PlaceAwake(s.cook, CookServes(n, s).cook, j, |s.past|, s.alive[j], s.heard[j], s.brought[j],
               s.hunters[j], Mail(n, s.queue, j), Inbox(s.queue, j), s.hunts[j]);
    TellsOn(n, s.past, s.brought, j);
    DayGoesBy(n, s.past, s.brought, s.hunts[j], j);
  }

  /** A served hunter stands the same when the next day begins. */
  lemma PlaceAwake(cook: Cook, waking: Cook, j: nat, day: nat, living: bool, heard: bool, brought: bool,
                   p: Hunter, mail: seq<bool>, inbox: seq<Letter>, hunts: seq<bool>)
    requires cook.Serving? && j < cook.i && waking.Receiving?
    requires Place(cook, j, day, living, heard, brought, p, mail, inbox, hunts)
    ensures Place(waking, j, day + 1, living, false, false, p, mail, inbox, hunts)
  {
  }

  lemma TellsOn(n: nat, past: seq<seq<bool>>, brought: seq<bool>, j: nat)
    ensures Told(n, past + [brought], j) == Told(n, past, j) + Heeded(ReplyOn(Days(n, past), brought, j))
  {
    assert (past + [brought])[..|past|] == past;
  }

  /** The day that ends is recorded like the days before it. */
  lemma DayGoesBy(n: nat, past: seq<seq<bool>>, brought: seq<bool>, hunts: seq<bool>, j: nat)
    requires j < n && |brought| == n && |Days(n, past).alive| == n
    requires forall d :: 0 <= d < |past| ==> DayRecorded(n, past, hunts, d, j)
    requires Days(n, past).alive[j] ==> |hunts| > |past| && hunts[|past|] == brought[j]
    requires brought[j] ==> Days(n, past).alive[j]
    ensures forall d :: 0 <= d < |past| + 1 ==> DayRecorded(n, past + [brought], hunts, d, j)
  {
    hide Days;
    forall d | 0 <= d < |past| + 1 ensures DayRecorded(n, past + [brought], hunts, d, j) {
      assert (past + [brought])[..d] == past[..d];
      if d < |past| {
        assert DayRecorded(n, past, hunts, d, j);
      } else {
        assert past[..d] == past;
      }
    }
  }

  lemma ApplyKeeps(n: nat, s: System, action: Action)
    requires Inv(n, s) && Enabled(n, s, action)
    ensures Inv(n, Apply(n, s, action))
  {
    match action {
      case Hunt(k, gotFood) => HuntKeeps(n, s, k, gotFood);
      case Hear(k) => HearKeeps(n, s, k);
      case CookStep =>
        if s.cook.Receiving? {
          if s.cook.i != s.huntersCount {
            ReceiveKeeps(n, s);
          } else {
            DecideKeeps(n, s);
          }
        } else if s.cook.i < n {
          ServeKeeps(n, s);
        } else if s.cook.cookFed {
          WakeKeeps(n, s);
        } else {
          DieKeeps(n, s);
        }
    }
  }

  lemma {:induction false} RunKeeps(n: nat, run: seq<Action>)
    requires Valid(n, run)
    ensures Inv(n, Exec(n, run))
  {
    if run == [] {
      InvInit(n);
    } else {
      RunKeeps(n, run[..|run| - 1]);
      ApplyKeeps(n, Exec(n, run[..|run| - 1]), run[|run| - 1]);
    }
  }
}
