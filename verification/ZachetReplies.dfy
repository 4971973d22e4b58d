/** What the hunters are told, for every run in every interleaving: the replies of the days run one
    after another, to the right hunter, in the message that the hunter reads. */
module ZachetReplies {
  import opened MessageQueue
  import opened ZachetDay
  import opened ZachetSystem
  import opened ZachetProofs
  import opened ZachetTheorems

  /** The hunter that is sent MSG_KILLED is the day's first living one whose hunt failed, or, if no
      living hunter's hunt failed, the first living one. */
  lemma KilledIsChosen(n: nat, run: seq<Action>)
    requires Valid(n, run) && Enabled(n, Exec(n, run), CookStep)
    requires Exec(n, run).cook.Serving? && Exec(n, run).cook.i < n
    requires var i := Exec(n, run).cook.i;
             Apply(n, Exec(n, run), CookStep).served[i] == Exec(n, run).served[i] + [Killed]
    ensures var s := Exec(n, run);
            Chosen(s.morning.alive, Catch(s.morning.alive, HuntsOf(s), |s.past|), s.cook.i)
  {
    hide Exec, Valid, HunterAt, ToldAt, RecordedAt, Addressed, Chosen, Serve, Left, HuntsOf, Catch;
    var s := Exec(n, run);
    RunKeeps(n, run);
    Refinement(n, run);
    DayVictim(s.morning, s.brought);
    assert [Killed] != [Silent];
    LastReply(s.served[s.cook.i], ReplyTo(s.alive[s.cook.i], s.cook.i, s.cook.victim, s.food));
  }

  lemma LastReply(told: seq<Reply>, reply: Reply)
    ensures told + [reply] == told + [Killed] ==> reply == Killed
    ensures told != told + [Killed]
  {
    assert (told + [reply])[|told|] == reply;
    assert |told| != |told + [Killed]|;
  }

  // ---------- the replies of the days ----------

  /** What hunter k hears on the first days, when they are run one after another. */
  function Script(n: nat, hunts: (nat, nat) -> bool, day: nat, k: nat): seq<Reply>
    requires k < n
  {
    if day == 0 then []
    else
      var m := Sequential(n, hunts, day - 1);
      Script(n, hunts, day - 1, k) + Heeded(Day(m, Catch(m.alive, hunts, day - 1)).replies[k])
  }

  lemma {:induction false} ToldScript(n: nat, s: System, d: nat, k: nat)
    requires Inv(n, s) && d <= |s.past| && k < n
    ensures Told(n, s.past[..d], k) == Script(n, HuntsOf(s), d, k)
  {
    hide Inv, Day, Catch, HuntsOf, Heeded, Days, Sequential;
    if d > 0 {
      ToldScript(n, s, d - 1, k);
      PastDay(n, s, d - 1);
      DaysSequential(n, s, d - 1);
      assert s.past[..d][..d - 1] == s.past[..d - 1] && s.past[..d][d - 1] == s.past[d - 1];
      PastLong(n, s, d);
    }
  }

  /** Refinement of the replies: in every interleaving each hunter has been sent exactly what the
      sequence of days tells it, today's reply included once the reply loop has passed it. */
  lemma RepliesRefine(n: nat, run: seq<Action>, k: nat)
    requires Valid(n, run) && k < n
    ensures var s := Exec(n, run);
            var days := |s.past| + if s.cook.Serving? && k < s.cook.i then 1 else 0;
            Sized(n, s) && s.served[k] == Script(n, HuntsOf(s), days, k)
  {
    hide Exec, Valid, HunterAt, CookAt, RecordedAt, Addressed, Day, Catch, HuntsOf, Heeded, Told, Sequential;
    var s := Exec(n, run);
    RunKeeps(n, run);
    Refinement(n, run);
    assert ToldAt(n, s, k);
    ToldScript(n, s, |s.past|, k);
    assert s.past[..|s.past|] == s.past;
    assert Told(n, s.past, k) + [] == Told(n, s.past, k);
    CaughtLong(n, s);
  }

  lemma CaughtLong(n: nat, s: System)
    requires Inv(n, s)
    ensures |s.brought| == |s.morning.alive| == n
  {
  }

  // ---------- what the hunter makes of its reply ----------

  function Newest(told: seq<Reply>): Reply
    requires told != []
  {
    told[|told| - 1]
  }

  /** A reply under way is the one sent last, and a hunter is pleased with itself exactly if it was
      fed, or has not heard anything yet. */
  predicate MoodAt(n: nat, s: System, k: nat)
    requires Sized(n, s) && k < n
  {
    var inbox := Inbox(s.queue, k);
    && (inbox != [] ==>
          && s.served[k] != [] && inbox == [Letter(ValueOf(Newest(s.served[k])), 0)]
          && Newest(s.served[k]) != Silent)
    && (s.hunters[k].Hunting? ==>
          s.hunters[k].success == (s.served[k] == [] || Newest(s.served[k]) == Fed))
  }

  lemma HuntMood(n: nat, s: System, k: nat, gotFood: bool, j: nat)
    requires Sized(n, s) && k < n && j < n && MoodAt(n, s, j)
    ensures MoodAt(n, HunterHunts(n, s, k, gotFood), j)
  {
    hide Of, Send;
    OfSend(s.queue, CookMtype(n), Letter(Value(gotFood, false, false), k));
  }

  lemma HearMood(n: nat, s: System, k: nat, j: nat)
    requires Enabled(n, s, Hear(k)) && j < n && MoodAt(n, s, k) && MoodAt(n, s, j)
    ensures MoodAt(n, HunterHears(n, s, k), j)
  {
    hide Of, Remove;
    OfRemove(s.queue, SndToHunter(k));
  }

  lemma ReceiveMood(n: nat, s: System, j: nat)
    requires Enabled(n, s, CookStep) && s.cook.Receiving? && j < n && MoodAt(n, s, j)
    ensures MoodAt(n, CookReceives(n, s), j)
  {
    hide Of, Remove, Decide;
    if s.cook.i != s.huntersCount {
      OfRemove(s.queue, CookMtype(n));
    }
  }

  lemma ServeMood(n: nat, s: System, j: nat)
    requires Inv(n, s) && s.cook.Serving? && j < n && MoodAt(n, s, j)
    ensures MoodAt(n, CookServes(n, s), j)
  {
    hide CookAt, ToldAt, RecordedAt, Addressed, Of, Send, Mail;
    assert HunterAt(n, s, j);
    var i := s.cook.i;
    if i < n {
      var reply := ReplyTo(s.alive[i], i, s.cook.victim, s.food);
      if reply != Silent {
        OfSend(s.queue, SndToHunter(i), Letter(ValueOf(reply), 0));
      }
    }
  }

  lemma {:induction false} RunMood(n: nat, run: seq<Action>, j: nat)
    requires Valid(n, run) && j < n
    ensures Sized(n, Exec(n, run)) && MoodAt(n, Exec(n, run), j)
    decreases |run|
  {
    hide Inv, MoodAt, HunterHunts, HunterHears, CookReceives, CookServes;
    RunKeeps(n, run);
    SizedOf(n, Exec(n, run));
    if run == [] {
      FirstMood(n, j);
    } else {
      var before := run[..|run| - 1];
      RunKeeps(n, before);
      RunMood(n, before, j);
      var s := Exec(n, before);
      match run[|run| - 1] {
        case Hunt(k, gotFood) => HuntMood(n, s, k, gotFood, j);
        case Hear(k) =>
          RunMood(n, before, k);
          HearMood(n, s, k, j);
        case CookStep =>
          if s.cook.Receiving? {
            ReceiveMood(n, s, j);
          } else {
            ServeMood(n, s, j);
          }
      }
    }
  }

  lemma SizedOf(n: nat, s: System)
    requires Inv(n, s)
    ensures Sized(n, s)
  {
  }

  lemma FirstMood(n: nat, j: nat)
    requires j < n
    ensures Sized(n, Init(n)) && MoodAt(n, Init(n), j)
  {
  }

  /** The message a hunter finds is the cook's last reply to it, with MSG_FOOD and MSG_KILLED set as
      that reply says; and a hunter goes out as a successful one exactly if its last reply was food
      or there has been none. */
  lemma HunterMood(n: nat, run: seq<Action>, k: nat)
    requires Valid(n, run) && k < n
    ensures var s := Exec(n, run);
            && Sized(n, s)
            && (Inbox(s.queue, k) != [] ==>
                  && s.served[k] != []
                  && Inbox(s.queue, k)
                     == [Letter(Value(Newest(s.served[k]) == Fed, Newest(s.served[k]) == Killed, false), 0)])
            && (s.hunters[k].Hunting? ==>
                  s.hunters[k].success == (s.served[k] == [] || Newest(s.served[k]) == Fed))
  {
    hide Exec, Valid, Of;
    RunMood(n, run, k);
  }

  /** Whatever message a hunter finds, reachable or not: it takes the oldest, leaves for good exactly
      if MSG_KILLED or MSG_COOK_DEAD is set, and touches nothing of anyone else's. */
  lemma FlagsHeeded(n: nat, s: System, k: nat)
    requires Enabled(n, s, Hear(k))
    ensures var v, t := Inbox(s.queue, k)[0].value, Apply(n, s, Hear(k));
            && t == s.(queue := t.queue, hunters := s.hunters[k := t.hunters[k]])
            && (t.hunters[k] == Gone <==> v.killed || v.cookDead)
            && (t.hunters[k] != Gone ==> t.hunters[k] == Hunting(v.food))
            && Inbox(t.queue, k) == Inbox(s.queue, k)[1..]
            && forall m :: m != SndToHunter(k) ==> Of(t.queue, m) == Of(s.queue, m)
  {
    hide Of, Remove;
    OfRemove(s.queue, SndToHunter(k));
  }
}
