/** The cook and its hunters as processes around one message queue, in any interleaving.

    hunts, heard, morning, past and served are history: no action depends on them.  hunts[i]
    lists the results of hunter i's hunts; heard[i] says that hunter i's message of the current
    day has been received; morning is what the cook had when the day began; past lists what
    each earlier day brought; served[i] lists the replies sent to hunter i. */
module ZachetSystem {
  import opened MessageQueue
  import opened ZachetDay

  /** The flag bits of a message value. */
  datatype Value = Value(food: bool, killed: bool, cookDead: bool)

  datatype Letter = Letter(value: Value, idFrom: nat)

  datatype Hunter = Hunting(success: bool) | Waiting | Gone

  /** Receiving and Serving hold the loop variables of the two message loops of a day. */
  datatype Cook =
    | Receiving(i: nat)
    | Serving(i: nat, cookFed: bool, victim: int)
    | Dead

  datatype System = System(
    queue: Queue<Letter>, hunters: seq<Hunter>, cook: Cook,
    food: int, huntersCount: int, alive: seq<bool>, brought: seq<bool>,
    hunts: seq<seq<bool>>, heard: seq<bool>, morning: Kitchen, past: seq<seq<bool>>,
    served: seq<seq<Reply>>)

  datatype Action = Hunt(k: nat, gotFood: bool) | Hear(k: nat) | CookStep

  function CookMtype(n: nat): int
  {
    n + 1
  }

  function SndToHunter(id: nat): int
  {
    id + 1
  }

  function Nobody(n: nat): seq<bool>
  {
    seq(n, _ => false)
  }

  function Init(n: nat): System
  {
    System([], seq(n, _ => Hunting(true)), Receiving(0), 0, n, seq(n, _ => true), Nobody(n),
           seq(n, _ => []), Nobody(n), Morning(n), [], seq(n, _ => []))
  }

  predicate Sized(n: nat, s: System)
  {
    |s.hunters| == |s.alive| == |s.brought| == |s.hunts| == |s.heard| == |s.served| == n
  }

  predicate Enabled(n: nat, s: System, action: Action)
  {
    && Sized(n, s)
    && match action
       case Hunt(k, _) => k < n && s.hunters[k].Hunting?
       case Hear(k) => k < n && s.hunters[k].Waiting? && Of(s.queue, SndToHunter(k)) != []
       case CookStep =>
         match s.cook
         case Receiving(i) =>
           i != s.huntersCount ==> Of(s.queue, CookMtype(n)) != [] && Of(s.queue, CookMtype(n))[0].idFrom < n
         case Serving(_, _, _) => true
         case Dead => false
  }

  function HunterHunts(n: nat, s: System, k: nat, gotFood: bool): System
    requires Sized(n, s) && k < n
  {
    s.(queue := Send(s.queue, CookMtype(n), Letter(Value(gotFood, false, false), k)),
       hunters := s.hunters[k := Waiting],
       hunts := s.hunts[k := s.hunts[k] + [gotFood]])
  }

  function AfterReply(v: Value): Hunter
  {
    if v.cookDead then Gone
    else if v.killed then Gone
    else Hunting(v.food)
  }

  function HunterHears(n: nat, s: System, k: nat): System
    requires Sized(n, s) && k < n && Of(s.queue, SndToHunter(k)) != []
  {
    s.(queue := Remove(s.queue, SndToHunter(k)),
       hunters := s.hunters[k := AfterReply(Of(s.queue, SndToHunter(k))[0].value)])
  }

  function ValueOf(reply: Reply): Value
  {
    Value(reply == Fed, reply == Killed, false)
  }

  /** One message of the receive loop, or its end: eating and choosing a victim. */
  function CookReceives(n: nat, s: System): System
    requires Enabled(n, s, CookStep) && s.cook.Receiving?
  {
    var i := s.cook.i;
    if i != s.huntersCount then
      var l := Of(s.queue, CookMtype(n))[0];
      s.(queue := Remove(s.queue, CookMtype(n)),
         food := if l.value.food then s.food + 1 else s.food,
         brought := s.brought[l.idFrom := l.value.food],
         heard := s.heard[l.idFrom := true],
         cook := Receiving(i + 1))
    else
      var plan := Decide(s.food, s.huntersCount, s.alive, s.brought);
      s.(food := plan.food, huntersCount := plan.hunters, cook := Serving(0, plan.cookFed, plan.victim))
  }

  /** One round of the reply loop, or its end: the cook starves or a new day begins. */
  function CookServes(n: nat, s: System): System
    requires Sized(n, s) && s.cook.Serving?
  {
    var i := s.cook.i;
    if i < n then
      var reply := ReplyTo(s.alive[i], i, s.cook.victim, s.food);
      if reply == Silent then s.(cook := s.cook.(i := i + 1))
      else
        s.(queue := Send(s.queue, SndToHunter(i), Letter(ValueOf(reply), 0)),
           alive := if i == s.cook.victim then s.alive[i := false] else s.alive,
           food := if reply == Fed then s.food - 1 else s.food,
           served := s.served[i := s.served[i] + [reply]],
           cook := s.cook.(i := i + 1))
    else if !s.cook.cookFed then s.(cook := Dead)
    else
      s.(cook := Receiving(0), brought := Nobody(n), heard := Nobody(n),
         morning := Kitchen(s.food, s.huntersCount, s.alive), past := s.past + [s.brought])
  }

  function Apply(n: nat, s: System, action: Action): System
    requires Enabled(n, s, action)
  {
    match action
    case Hunt(k, gotFood) => HunterHunts(n, s, k, gotFood)
    case Hear(k) => HunterHears(n, s, k)
    case CookStep => if s.cook.Receiving? then CookReceives(n, s) else CookServes(n, s)
  }

  predicate Valid(n: nat, run: seq<Action>)
    decreases |run|, 0
  {
    run == []
    || (Valid(n, run[..|run| - 1])
        && Enabled(n, Exec(n, run[..|run| - 1]), run[|run| - 1]))
  }

  function Exec(n: nat, run: seq<Action>): System
    requires Valid(n, run)
    decreases |run|, 1
  {
    if run == [] then Init(n)
    else Apply(n, Exec(n, run[..|run| - 1]), run[|run| - 1])
  }

  // ---------- the invariant ----------

  /** What hunter k sent that the cook has not received. */
  function Mail(n: nat, q: Queue<Letter>, k: nat): seq<bool>
  {
    FoodFrom(Of(q, CookMtype(n)), k)
  }

  function FoodFrom(l: seq<Letter>, k: nat): seq<bool>
  {
    if l == [] then []
    else (if l[0].idFrom == k then [l[0].value.food] else []) + FoodFrom(l[1..], k)
  }

  /** The replies hunter k has not received. */
  function Inbox(q: Queue<Letter>, k: nat): seq<Letter>
  {
    Of(q, SndToHunter(k))
  }

  /** A living hunter owing nothing: about to hunt, or its message or its last reply is queued. */
  predicate Free(p: Hunter, mail: seq<bool>, inbox: seq<Letter>, day: nat, hunts: seq<bool>)
  {
    || (p.Hunting? && mail == [] && inbox == [] && |hunts| == day)
    || (p.Waiting? && |mail| == 1 && inbox == [] && |hunts| == day + 1 && hunts[day] == mail[0])
    || (p.Waiting? && mail == [] && |hunts| == day
        && |inbox| == 1 && !inbox[0].value.killed && !inbox[0].value.cookDead)
  }

  /** A living hunter whose message of the day is received and not answered. */
  predicate Owing(p: Hunter, mail: seq<bool>, inbox: seq<Letter>, day: nat, hunts: seq<bool>, brought: bool)
  {
    p.Waiting? && mail == [] && inbox == [] && |hunts| == day + 1 && hunts[day] == brought
  }

  /** A killed hunter: its last reply is queued, or it has left. */
  predicate Doomed(p: Hunter, mail: seq<bool>, inbox: seq<Letter>)
  {
    && mail == []
    && ((p.Waiting? && |inbox| == 1 && inbox[0].value.killed && !inbox[0].value.cookDead)
        || (p.Gone? && inbox == []))
  }

  predicate Place(cook: Cook, k: nat, day: nat, alive: bool, heard: bool, brought: bool,
                  p: Hunter, mail: seq<bool>, inbox: seq<Letter>, hunts: seq<bool>)
  {
    if !alive then Doomed(p, mail, inbox)
    else
      match cook
      case Receiving(_) =>
        if heard then Owing(p, mail, inbox, day, hunts, brought)
        else Free(p, mail, inbox, day, hunts)
      case Serving(i, _, _) =>
        if k >= i then Owing(p, mail, inbox, day, hunts, brought)
        else Free(p, mail, inbox, day + 1, hunts)
      case Dead => false
  }

  predicate HunterAt(n: nat, s: System, k: nat)
    requires Sized(n, s) && k < n
  {
    Place(s.cook, k, |s.past|, s.alive[k], s.heard[k], s.brought[k],
          s.hunters[k], Mail(n, s.queue, k), Inbox(s.queue, k), s.hunts[k])
  }

  /** The kitchen after the given days. */
  function Days(n: nat, past: seq<seq<bool>>): Kitchen
  {
    if past == [] then Morning(n)
    else
      var k := Days(n, past[..|past| - 1]);
      var brought := past[|past| - 1];
      if |brought| == |k.alive| then Day(k, brought).kitchen else k
  }

  /** Days the cook has lived through, with what living hunters brought on each. */
  predicate Lived(n: nat, past: seq<seq<bool>>)
  {
    past == []
    || (var before, brought := past[..|past| - 1], past[|past| - 1];
        && Lived(n, before)
        && Hunted(Days(n, before), brought)
        && Day(Days(n, before), brought).cookFed)
  }

  /** What the cook decides on a day. */
  function Planned(m: Kitchen, brought: seq<bool>): Plan
    requires |brought| == |m.alive|
  {
    Decide(m.food + Count(brought), m.hunters, m.alive, brought)
  }

  /** The reply loop at hunter i: food and the living are what serving the first i leaves. */
  predicate ServingAt(m: Kitchen, brought: seq<bool>, i: nat, victim: int, food: int, alive: seq<bool>)
    requires |brought| == |m.alive| && i <= |m.alive|
  {
    var plan := Planned(m, brought);
    && victim == plan.victim && food >= 0
    && alive == (if victim < i then Survivors(m.alive, victim) else m.alive)
    && Left(m.alive, i, victim, food) == Left(m.alive, 0, victim, plan.food)
    && Serve(m.alive, i, victim, food) == Serve(m.alive, 0, victim, plan.food)[i..]
  }

  predicate CookAt(n: nat, s: System)
    requires Sized(n, s)
  {
    var m := s.morning;
    && Good(m) && |m.alive| == n && m == Days(n, s.past) && Lived(n, s.past)
    && (forall k :: 0 <= k < n && s.heard[k] ==> m.alive[k])
    && (forall k :: 0 <= k < n && s.brought[k] ==> s.heard[k])
    && match s.cook
       case Receiving(i) =>
         && s.alive == m.alive && s.huntersCount == m.hunters
         && i == Count(s.heard) && i <= s.huntersCount
         && s.food == m.food + Count(s.brought)
       case Serving(i, cookFed, victim) =>
         && i <= n && s.heard == m.alive
         && ServingAt(m, s.brought, i, victim, s.food, s.alive)
         && var plan := Planned(m, s.brought);
            cookFed == plan.cookFed && s.huntersCount == plan.hunters
       case Dead => m.hunters == 0 && m.food == 0 && s.alive == m.alive && s.food == 0
  }

  /** The replies of some days to hunter k, silence left out. */
  function Told(n: nat, past: seq<seq<bool>>, k: nat): seq<Reply>
  {
    if past == [] then []
    else
      var before := past[..|past| - 1];
      Told(n, before, k) + Heeded(ReplyOn(Days(n, before), past[|past| - 1], k))
  }

  function ReplyOn(m: Kitchen, brought: seq<bool>, k: nat): Reply
  {
    if |brought| == |m.alive| && k < |m.alive| then Day(m, brought).replies[k] else Silent
  }

  function Heeded(reply: Reply): seq<Reply>
  {
    if reply == Silent then [] else [reply]
  }

  /** What hunter k was told: the replies of the days gone by, and today's if it has had it. */
  predicate ToldAt(n: nat, s: System, k: nat)
    requires Sized(n, s) && k < n
  {
    s.served[k]
    == Told(n, s.past, k)
       + if s.cook.Serving? && k < s.cook.i then Heeded(ReplyOn(s.morning, s.brought, k)) else []
  }

  /** The days hold what the hunters then alive brought home. */
  predicate RecordedAt(n: nat, s: System, k: nat)
    requires Sized(n, s) && k < n
  {
    && (forall d :: 0 <= d < |s.past| ==> DayRecorded(n, s.past, s.hunts[k], d, k))
    && (s.cook.Serving? && k < |s.morning.alive| && s.morning.alive[k] ==>
          |s.hunts[k]| > |s.past| && s.hunts[k][|s.past|] == s.brought[k])
  }

  predicate DayRecorded(n: nat, past: seq<seq<bool>>, hunts: seq<bool>, d: nat, k: nat)
    requires d < |past|
  {
    && |past[d]| == n && |Days(n, past[..d]).alive| == n && k < n
    && (past[d][k] <==> Days(n, past[..d]).alive[k] && d < |hunts| && hunts[d])
    && (Days(n, past[..d]).alive[k] ==> d < |hunts|)
  }

  predicate Addressed(n: nat, q: Queue<Letter>)
  {
    forall j :: 0 <= j < |q| ==>
      (q[j].mtype == CookMtype(n) && q[j].body.idFrom < n) || SndToHunter(0) <= q[j].mtype < SndToHunter(n)
  }

  predicate Inv(n: nat, s: System)
  {
    && Sized(n, s)
    && CookAt(n, s)
    && (forall k :: 0 <= k < n ==> HunterAt(n, s, k) && ToldAt(n, s, k) && RecordedAt(n, s, k))
    && Addressed(n, s.queue)
  }
}
