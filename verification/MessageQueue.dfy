/** A System V message queue (msgsnd/msgrcv, IEEE Std 1003.1-2017, System Interfaces,
    chapter 3), unbounded: one sequence of typed messages.  A receive names a positive type
    and takes the oldest message of that type, or names type 0 and takes the oldest of all. */
module MessageQueue {
  import opened Sequences

  datatype Message<T> = Message(mtype: int, body: T)

  type Queue<T> = seq<Message<T>>

  /** The messages of one type, oldest first. */
  function Of<T>(q: Queue<T>, t: int): seq<T>
  {
    if q == [] then []
    else (if q[0].mtype == t then [q[0].body] else []) + Of(q[1..], t)
  }

  function Send<T>(q: Queue<T>, t: int, body: T): Queue<T>
  {
    q + [Message(t, body)]
  }

  /** The queue after the oldest message of type t has been received. */
  function Remove<T>(q: Queue<T>, t: int): Queue<T>
    requires Of(q, t) != []
  {
    if q[0].mtype == t then q[1..] else [q[0]] + Remove(q[1..], t)
  }

  lemma OfFirst<T>(m: Message<T>, q: Queue<T>, t: int)
    ensures Of([m] + q, t) == (if m.mtype == t then [m.body] else []) + Of(q, t)
  {
    assert ([m] + q)[1..] == q;
  }

  lemma {:induction false} OfConcat<T>(q: Queue<T>, r: Queue<T>, t: int)
    ensures Of(q + r, t) == Of(q, t) + Of(r, t)
  {
    if q == [] {
      assert q + r == r && [] + Of(r, t) == Of(r, t);
    } else {
      OfConcat(q[1..], r, t);
      OfFirst(q[0], q[1..] + r, t);
      assert q == [q[0]] + q[1..] && q + r == [q[0]] + (q[1..] + r);
      Assoc(if q[0].mtype == t then [q[0].body] else [], Of(q[1..], t), Of(r, t));
    }
  }

  /** Sending appends to the messages of its own type and leaves every other type alone. */
  lemma OfSend<T>(q: Queue<T>, t: int, body: T)
    ensures Of(Send(q, t, body), t) == Of(q, t) + [body]
    ensures forall u :: u != t ==> Of(Send(q, t, body), u) == Of(q, u)
  {
    forall u ensures Of(Send(q, t, body), u) == Of(q, u) + (if u == t then [body] else []) {
      OfConcat(q, [Message(t, body)], u);
      assert [Message(t, body)][1..] == [];
    }
  }

  /** Receiving takes the head of its own type's messages and leaves every other type alone. */
  lemma {:induction false} OfRemove<T>(q: Queue<T>, t: int)
    requires Of(q, t) != []
    ensures Of(q, t) == [Of(q, t)[0]] + Of(Remove(q, t), t)
    ensures forall u :: u != t ==> Of(Remove(q, t), u) == Of(q, u)
  {
    if q[0].mtype == t {
    } else {
      OfRemove(q[1..], t);
      var r := [q[0]] + Remove(q[1..], t);
      assert r[1..] == Remove(q[1..], t);
      forall u | u != t ensures Of(r, u) == Of(q, u) {
      }
    }
  }

  /** Receiving takes one message out and keeps the others. */
  lemma {:induction false} RemoveOne<T>(q: Queue<T>, t: int)
    requires Of(q, t) != []
    ensures multiset(q) == multiset(Remove(q, t)) + multiset{Message(t, Of(q, t)[0])}
  {
    assert q == [q[0]] + q[1..];
    if q[0].mtype != t {
      RemoveOne(q[1..], t);
    }
  }
}
