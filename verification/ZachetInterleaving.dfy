/** What the scheduler may choose between the cook and its hunters. */
module ZachetInterleaving {
  import opened MessageQueue
  import opened ZachetDay
  import opened ZachetSystem
  import opened ZachetProofs

  function CookMail(n: nat, s: System): seq<Letter>
  {
    Of(s.queue, CookMtype(n))
  }

  /** In every reachable state a hunter that is to hunt can hunt, with either result; one that waits
      is held up only by an empty mailbox; and so is the cook, in its receive loop, until it dies. */
  lemma Schedules(n: nat, run: seq<Action>)
    requires Valid(n, run)
    ensures var s := Exec(n, run);
            && Sized(n, s)
            && (forall k: nat, gotFood :: k < n ==>
                  (Enabled(n, s, Hunt(k, gotFood)) <==> s.hunters[k].Hunting?))
            && (forall k: nat :: k < n ==>
                  (Enabled(n, s, Hear(k)) <==> s.hunters[k].Waiting? && Inbox(s.queue, k) != []))
            && (Enabled(n, s, CookStep)
                <==> && s.cook != Dead
                     && (s.cook.Receiving? && s.cook.i != s.huntersCount ==> CookMail(n, s) != []))
  {
    hide Exec, Valid, CookAt, HunterAt, ToldAt, RecordedAt;
    var s := Exec(n, run);
    RunKeeps(n, run);
    if CookMail(n, s) != [] {
      HeadFrom(s.queue, CookMtype(n));
    }
  }

  predicate OtherProcess(action: Action, other: Action)
  {
    match action
    case CookStep => !other.CookStep?
    case Hunt(k, _) => other.CookStep? || other.k != k
    case Hear(k) => other.CookStep? || other.k != k
  }

  /** The type of the messages that an action's process receives. */
  function Receives(n: nat, action: Action): int
  {
    match action
    case CookStep => CookMtype(n)
    case Hunt(k, _) => SndToHunter(k)
    case Hear(k) => SndToHunter(k)
  }

  /** Another process's action takes nothing out of a mailbox: it leaves it, or appends. */
  lemma MailboxGrows(n: nat, s: System, action: Action, other: Action)
    requires Enabled(n, s, action) && Enabled(n, s, other) && OtherProcess(action, other)
    ensures Of(s.queue, Receives(n, action)) <= Of(Apply(n, s, other).queue, Receives(n, action))
  {
    hide Of, Remove, Send, Decide;
    var t := Receives(n, action);
    match other {
      case Hunt(k, gotFood) => OfSend(s.queue, CookMtype(n), Letter(Value(gotFood, false, false), k));
      case Hear(k) => OfRemove(s.queue, SndToHunter(k));
      case CookStep =>
        if s.cook.Receiving? {
          if s.cook.i != s.huntersCount {
            OfRemove(s.queue, CookMtype(n));
          }
        } else if s.cook.i < n {
          var i := s.cook.i;
          OfSend(s.queue, SndToHunter(i), Letter(ValueOf(ReplyTo(s.alive[i], i, s.cook.victim, s.food)), 0));
        }
    }
  }

  /** What one process can do it can still do after an action of another, and it finds the same
      oldest message. */
  lemma StaysEnabled(n: nat, s: System, action: Action, other: Action)
    requires Enabled(n, s, action) && Enabled(n, s, other) && OtherProcess(action, other)
    ensures Enabled(n, Apply(n, s, other), action)
    ensures var t := Receives(n, action);
            Of(s.queue, t) != [] ==>
              && Of(Apply(n, s, other).queue, t) != []
              && Of(Apply(n, s, other).queue, t)[0] == Of(s.queue, t)[0]
  {
    hide Of, Remove, Send, Decide;
    MailboxGrows(n, s, action, other);
  }

  /** The messages of one type that an action leaves, given those it finds. */
  lemma ActionOf(n: nat, s: System, action: Action, t: int) returns (taken: nat, sent: seq<Letter>)
    requires Enabled(n, s, action)
    ensures taken <= 1 && (taken == 1 ==> Of(s.queue, t) != [] && t == Receives(n, action))
    ensures Of(Apply(n, s, action).queue, t) == Of(s.queue, t)[taken..] + sent
    ensures taken == Takes(n, s, action, t) && sent == Sends(n, s, action, t)
  {
    hide Of, Remove, Send, Decide;
    taken, sent := Takes(n, s, action, t), Sends(n, s, action, t);
    match action {
      case Hunt(k, gotFood) => OfSend(s.queue, CookMtype(n), Letter(Value(gotFood, false, false), k));
      case Hear(k) => OfRemove(s.queue, SndToHunter(k));
      case CookStep =>
        if s.cook.Receiving? {
          if s.cook.i != s.huntersCount {
            OfRemove(s.queue, CookMtype(n));
          }
        } else if s.cook.i < n {
          var i := s.cook.i;
          OfSend(s.queue, SndToHunter(i), Letter(ValueOf(ReplyTo(s.alive[i], i, s.cook.victim, s.food)), 0));
        }
    }
  }

  /** Whether an action receives a message of type t, and what it sends of that type. */
  function Takes(n: nat, s: System, action: Action, t: int): nat
    requires Enabled(n, s, action)
  {
    match action
    case Hunt(_, _) => 0
    case Hear(k) => if t == SndToHunter(k) then 1 else 0
    case CookStep => if s.cook.Receiving? && s.cook.i != s.huntersCount && t == CookMtype(n) then 1 else 0
  }

  function Sends(n: nat, s: System, action: Action, t: int): seq<Letter>
    requires Enabled(n, s, action)
  {
    match action
    case Hunt(k, gotFood) => if t == CookMtype(n) then [Letter(Value(gotFood, false, false), k)] else []
    case Hear(_) => []
    case CookStep =>
      if s.cook.Serving? && s.cook.i < n && t == SndToHunter(s.cook.i) then
        var reply := ReplyTo(s.alive[s.cook.i], s.cook.i, s.cook.victim, s.food);
        if reply == Silent then [] else [Letter(ValueOf(reply), 0)]
      else []
  }

  /** The actions of two processes may be swapped: all the rest is the same, and so are the messages
      of every type, unless both send to the cook. */
  lemma Swapped(n: nat, s: System, action: Action, other: Action)
    requires Enabled(n, s, action) && Enabled(n, s, other) && OtherProcess(action, other)
    ensures Enabled(n, Apply(n, s, other), action) && Enabled(n, Apply(n, s, action), other)
    ensures var t, u := Apply(n, Apply(n, s, action), other), Apply(n, Apply(n, s, other), action);
            && t == u.(queue := t.queue)
            && forall m :: Of(t.queue, m) == Of(u.queue, m)
                 || (m == CookMtype(n) && action.Hunt? && other.Hunt?)
  {
    hide Of, Remove, Send, Decide, Takes, Sends;
    StaysEnabled(n, s, action, other);
    StaysEnabled(n, s, other, action);
    var first, second := Apply(n, s, action), Apply(n, s, other);
    SameRest(n, s, action, other);
    forall m | m != CookMtype(n) || !action.Hunt? || !other.Hunt?
      ensures Of(Apply(n, first, other).queue, m) == Of(Apply(n, second, action).queue, m)
    {
      SameOf(n, s, action, other, m);
    }
  }

  lemma SameRest(n: nat, s: System, action: Action, other: Action)
    requires Enabled(n, s, action) && Enabled(n, s, other) && OtherProcess(action, other)
    requires Enabled(n, Apply(n, s, other), action) && Enabled(n, Apply(n, s, action), other)
    ensures var t, u := Apply(n, Apply(n, s, action), other), Apply(n, Apply(n, s, other), action);
            t == u.(queue := t.queue)
  {
    hide Apply, Enabled;
    if action.CookStep? {
      CookAndHunter(n, s, other);
    } else if other.CookStep? {
      CookAndHunter(n, s, action);
    } else {
      TwoHunters(n, s, action, other);
    }
  }

  lemma CookAndHunter(n: nat, s: System, action: Action)
    requires Enabled(n, s, action) && Enabled(n, s, CookStep) && !action.CookStep?
    requires Enabled(n, Apply(n, s, CookStep), action) && Enabled(n, Apply(n, s, action), CookStep)
    ensures var t := Apply(n, Apply(n, s, action), CookStep);
            var u := Apply(n, Apply(n, s, CookStep), action);
            t == u.(queue := t.queue)
  {
    hide Of, Remove, Send, Decide, ReplyTo, ValueOf;
    StaysEnabled(n, s, action, CookStep);
    StaysEnabled(n, s, CookStep, action);
    var t, u := Apply(n, Apply(n, s, action), CookStep), Apply(n, Apply(n, s, CookStep), action);
    if s.cook.Receiving? && s.cook.i != s.huntersCount {
      assert t == u.(queue := t.queue);
    } else if s.cook.Receiving? {
      assert t == u.(queue := t.queue);
    } else {
      assert t == u.(queue := t.queue);
    }
  }

  lemma TwoHunters(n: nat, s: System, action: Action, other: Action)
    requires Enabled(n, s, action) && Enabled(n, s, other) && OtherProcess(action, other)
    requires !action.CookStep? && !other.CookStep?
    requires Enabled(n, Apply(n, s, other), action) && Enabled(n, Apply(n, s, action), other)
    ensures var t, u := Apply(n, Apply(n, s, action), other), Apply(n, Apply(n, s, other), action);
            t == u.(queue := t.queue)
  {
    hide Of, Remove, Send;
    StaysEnabled(n, s, action, other);
    StaysEnabled(n, s, other, action);
    var t, u := Apply(n, Apply(n, s, action), other), Apply(n, Apply(n, s, other), action);
    assert t.hunters == u.hunters;
    assert t.hunts == u.hunts;
  }

  /** An action of another process changes neither what an action takes nor what it sends, and at
      most one of the two takes from, and one sends to, a mailbox other than the cook's. */
  lemma EffectKept(n: nat, s: System, action: Action, other: Action, m: int)
    requires Enabled(n, s, action) && Enabled(n, s, other) && OtherProcess(action, other)
    requires Enabled(n, Apply(n, s, action), other)
    requires m != CookMtype(n) || !action.Hunt? || !other.Hunt?
    ensures Takes(n, Apply(n, s, action), other, m) == Takes(n, s, other, m)
    ensures Sends(n, Apply(n, s, action), other, m) == Sends(n, s, other, m)
    ensures Takes(n, s, action, m) + Takes(n, s, other, m) <= 1
    ensures Sends(n, s, action, m) == [] || Sends(n, s, other, m) == []
  {
    hide Of, Remove, Send, Decide;
  }

  lemma SameOf(n: nat, s: System, action: Action, other: Action, m: int)
    requires Enabled(n, s, action) && Enabled(n, s, other) && OtherProcess(action, other)
    requires Enabled(n, Apply(n, s, other), action) && Enabled(n, Apply(n, s, action), other)
    requires m != CookMtype(n) || !action.Hunt? || !other.Hunt?
    ensures Of(Apply(n, Apply(n, s, action), other).queue, m) == Of(Apply(n, Apply(n, s, other), action).queue, m)
  {
    hide Of, Apply, Enabled, Takes, Sends, Receives;
    var first, second := Apply(n, s, action), Apply(n, s, other);
    EffectKept(n, s, action, other, m);
    EffectKept(n, s, other, action, m);
    var a, x := ActionOf(n, s, action, m);
    var b, y := ActionOf(n, s, other, m);
    var _, _ := ActionOf(n, first, other, m);
    var _, _ := ActionOf(n, second, action, m);
    TakeAndSend(Of(s.queue, m), a, x, b, y);
  }

  lemma TakeAndSend(l: seq<Letter>, a: nat, x: seq<Letter>, b: nat, y: seq<Letter>)
    requires a + b <= 1 && (a + b == 1 ==> l != []) && (x == [] || y == [])
    ensures b <= |l[a..] + x| && a <= |l[b..] + y|
    ensures (l[a..] + x)[b..] + y == (l[b..] + y)[a..] + x
  {
  }
}
