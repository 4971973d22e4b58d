/** Every run of the cook and its hunters ends, after a bounded number of actions and with
    everybody gone. */
module ZachetProgress {
  import opened MessageQueue
  import opened ZachetDay
  import opened ZachetSystem
  import opened ZachetProofs
  import opened ZachetTheorems

  /** Until everything has ended, somebody can act. */
  lemma NoDeadlock(n: nat, run: seq<Action>) returns (action: Action)
    requires Valid(n, run) && !Finished(Exec(n, run))
    ensures Enabled(n, Exec(n, run), action) && Valid(n, run + [action])
  {
    RunKeeps(n, run);
    action := SomeAction(n, Exec(n, run));
    assert (run + [action])[..|run|] == run;
  }

  lemma SomeAction(n: nat, s: System) returns (action: Action)
    requires Inv(n, s) && !Finished(s)
    ensures Enabled(n, s, action)
  {
    if s.cook.Serving? {
      return CookStep;
    }
    if s.cook == Dead {
      var k: nat :| k < n && s.hunters[k] != Gone;
      assert HunterAt(n, s, k);
      return Hear(k);
    }
    if s.cook.i == s.huntersCount {
      return CookStep;
    }
    if Of(s.queue, CookMtype(n)) != [] {
      MailHead(n, s);
      return CookStep;
    }
    var k := Unheard(n, s);
    assert HunterAt(n, s, k);
    assert Mail(n, s.queue, k) == [];
    if s.hunters[k].Hunting? {
      return Hunt(k, false);
    }
    return Hear(k);
  }

  /** A day whose receive loop is not over has a living hunter still to be heard. */
  lemma Unheard(n: nat, s: System) returns (k: nat)
    requires Inv(n, s) && s.cook.Receiving? && s.cook.i != s.huntersCount
    ensures k < n && s.alive[k] && !s.heard[k]
  {
    if k' :| 0 <= k' < n && s.alive[k'] && !s.heard[k'] {
      return k';
    }
    CountBelow(s.alive, s.heard);
    CountBelow(s.heard, s.alive);
    assert false;
  }

  // ---------- how much is left to do ----------

  /** Cook actions and the traffic they cause in one day. */
  function DayWork(n: nat): nat
  {
    4 * n + 2
  }

  function CookWork(n: nat, cook: Cook): int
  {
    match cook
    case Receiving(_) => DayWork(n)
    case Serving(i, _, _) => if i <= n then 4 * (n - i) + 1 else 0
    case Dead => 0
  }

  function QueueWork(n: nat, q: Queue<Letter>): nat
  {
    if q == [] then 0 else (if q[0].mtype == CookMtype(n) then 1 else 3) + QueueWork(n, q[1..])
  }

  function Hunters(hunters: seq<Hunter>): nat
  {
    if hunters == [] then 0 else (if hunters[0].Hunting? then 2 else 0) + Hunters(hunters[1..])
  }

  /** What the days after today may cost. */
  function DaysWork(n: nat, m: Kitchen): int
  {
    DayWork(n) * (3 * m.hunters + m.food)
  }

  /** A bound on the actions still to come. */
  function Work(n: nat, s: System): int
  {
    DaysWork(n, s.morning)
    + CookWork(n, s.cook) + QueueWork(n, s.queue) + Hunters(s.hunters)
  }

  lemma {:induction false} SendWork(n: nat, q: Queue<Letter>, t: int, l: Letter)
    ensures QueueWork(n, Send(q, t, l)) == QueueWork(n, q) + if t == CookMtype(n) then 1 else 3
  {
    var r := Send(q, t, l);
    if q == [] {
      assert r[1..] == [];
    } else {
      assert r[1..] == Send(q[1..], t, l);
      SendWork(n, q[1..], t, l);
    }
  }

  lemma {:induction false} RemoveWork(n: nat, q: Queue<Letter>, t: int)
    requires Of(q, t) != []
    ensures QueueWork(n, q) == QueueWork(n, Remove(q, t)) + if t == CookMtype(n) then 1 else 3
  {
    if q[0].mtype != t {
      RemoveWork(n, q[1..], t);
      assert Remove(q, t)[1..] == Remove(q[1..], t);
    }
  }

  lemma {:induction false} HuntersUpdate(hunters: seq<Hunter>, k: nat, p: Hunter)
    requires k < |hunters|
    ensures Hunters(hunters[k := p])
            == Hunters(hunters) - (if hunters[k].Hunting? then 2 else 0) + if p.Hunting? then 2 else 0
  {
    if k == 0 {
      assert hunters[k := p][1..] == hunters[1..];
    } else {
      assert hunters[k := p][1..] == hunters[1..][k - 1 := p];
      HuntersUpdate(hunters[1..], k - 1, p);
    }
  }

  lemma WorkFalls(n: nat, s: System, action: Action)
    requires Inv(n, s) && Enabled(n, s, action)
    ensures Work(n, Apply(n, s, action)) < Work(n, s)
  {
    hide DaysWork, QueueWork, Hunters, CookAt, HunterAt, ToldAt, RecordedAt, Addressed, Of, Send, Remove;
    match action {
      case Hunt(k, gotFood) =>
        SendWork(n, s.queue, CookMtype(n), Letter(Value(gotFood, false, false), k));
        HuntersUpdate(s.hunters, k, Waiting);
      case Hear(k) =>
        RemoveWork(n, s.queue, SndToHunter(k));
        HuntersUpdate(s.hunters, k, AfterReply(Of(s.queue, SndToHunter(k))[0].value));
      case CookStep =>
        if s.cook.Receiving? {
          if s.cook.i != s.huntersCount {
            RemoveWork(n, s.queue, CookMtype(n));
          }
        } else if s.cook.i < n {
          ServeWork(n, s);
        } else {
          EndsServing(n, s);
          if s.cook.cookFed {
            NightWork(n, s);
          }
        }
    }
  }

  lemma EndsServing(n: nat, s: System)
    requires Inv(n, s) && s.cook.Serving? && s.cook.i >= n
    ensures s.cook.i == n
  {
  }

  /** A reply costs the cook one action and the traffic three. */
  lemma ServeWork(n: nat, s: System)
    requires Sized(n, s) && s.cook.Serving? && s.cook.i < n
    ensures Work(n, CookServes(n, s)) < Work(n, s)
  {
    hide DaysWork, QueueWork, Hunters, Send;
    var i := s.cook.i;
    SendWork(n, s.queue, SndToHunter(i), Letter(ValueOf(ReplyTo(s.alive[i], i, s.cook.victim, s.food)), 0));
  }

  /** A surviving day lowers 3 * hunters + food, which pays for the next day. */
  lemma NightWork(n: nat, s: System)
    requires Inv(n, s) && s.cook.Serving? && s.cook.i == n && s.cook.cookFed
    ensures Work(n, CookServes(n, s)) < Work(n, s)
  {
    hide QueueWork, Hunters, HunterAt, ToldAt, RecordedAt, Days, Lived, Serve, Left, Decide, Count;
    var t := CookServes(n, s);
    DayEnds(n, s);
    DayCounts(s.morning, s.brought);
    Scale(DayWork(n), 3 * t.morning.hunters + t.morning.food, 3 * s.morning.hunters + s.morning.food);
  }

  lemma Scale(w: nat, a: int, b: int)
    requires a < b
    ensures w * a + w <= w * b
  {
    var d := b - a - 1;
    assert w * d >= 0;
    assert w * b == w * (a + d + 1) == w * a + w * d + w;
  }

  lemma WorkBound(n: nat, s: System)
    requires Inv(n, s)
    ensures Work(n, s) >= 0
  {
    hide QueueWork, Hunters, HunterAt, ToldAt, RecordedAt, Addressed, Days, Lived, Count;
    Scale(DayWork(n), -1, 3 * s.morning.hunters + s.morning.food);
  }

  lemma {:induction false} StepsBounded(n: nat, run: seq<Action>)
    requires Valid(n, run)
    ensures |run| + Work(n, Exec(n, run)) <= Work(n, Init(n))
  {
    if run != [] {
      var before := run[..|run| - 1];
      StepsBounded(n, before);
      RunKeeps(n, before);
      WorkFalls(n, Exec(n, before), run[|run| - 1]);
    }
  }

  lemma {:induction false} StartWork(n: nat)
    ensures Work(n, Init(n)) == DayWork(n) * (3 * n) + DayWork(n) + 2 * n
  {
    StartHunters(n);
  }

  lemma {:induction false} StartHunters(n: nat)
    ensures Hunters(seq(n, _ => Hunting(true))) == 2 * n
  {
    if n > 0 {
      assert seq(n, _ => Hunting(true))[1..] == seq(n - 1, _ => Hunting(true));
      StartHunters(n - 1);
    }
  }

  /** No run is longer than a number fixed by the number of hunters, whatever they bring and in
      whatever order everybody acts. */
  lemma RunsEnd(n: nat, run: seq<Action>)
    requires Valid(n, run)
    ensures |run| <= (4 * n + 2) * (3 * n + 1) + 2 * n
  {
    StepsBounded(n, run);
    RunKeeps(n, run);
    WorkBound(n, Exec(n, run));
    StartWork(n);
    assert DayWork(n) * (3 * n) + DayWork(n) == DayWork(n) * (3 * n + 1);
  }

  /** A run that cannot go on has ended as it should: the cook dead, every hunter told so once and
      gone, the queue empty. */
  lemma StuckIsFinished(n: nat, run: seq<Action>)
    requires Valid(n, run) && forall action :: !Enabled(n, Exec(n, run), action)
    ensures var s := Exec(n, run);
            && Finished(s) && s.queue == [] && |s.served| == n
            && forall k :: 0 <= k < n ==> Kills(s.served[k]) == 1
  {
    if !Finished(Exec(n, run)) {
      var action := NoDeadlock(n, run);
    }
    QueueEmpty(n, run);
    DiesLast(n, run);
  }
}
