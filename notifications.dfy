/** The notification queue held by `NotificationsProvider`: `addMessage`
    appends a shown message, `removeMessage` first hides it and, one timer
    later, purges it. Both timers (5000 ms after adding, 100 ms after hiding)
    are explicit method calls here, and the random id is supplied by the
    caller. */
module Notifications {
  import opened Lists

  /** The argument of `addMessage`: `{ title, message, type }`. */
  datatype Notice = Notice(title: string, message: string, kind: string)

  /** A queued message: the notice plus its `id` and `show` flag. */
  datatype Message = Message(id: string, show: bool, notice: Notice)

  /** No two messages share an id. */
  predicate DistinctIds(messages: seq<Message>) {
    forall i, j :: 0 <= i < j < |messages| ==> messages[i].id != messages[j].id
  }

  /** The hide phase: `prev.map(m => m.id === id ? { ...m, show: false } : m)`. */
  function Hidden(messages: seq<Message>, id: string): (r: seq<Message>)
    ensures |r| == |messages|
    ensures forall k :: 0 <= k < |r| ==> r[k].id == messages[k].id && r[k].notice == messages[k].notice
    ensures forall k :: 0 <= k < |r| ==> r[k].show == (messages[k].show && messages[k].id != id)
  {
    seq(|messages|, k requires 0 <= k < |messages| =>
      if messages[k].id == id then messages[k].(show := false) else messages[k])
  }

  predicate KeepsOthers(id: string, m: Message) { m.id != id }

  /** The purge phase: `prev.filter(m => m.id !== id)`. */
  function Purged(messages: seq<Message>, id: string): (r: seq<Message>)
    ensures forall k :: 0 <= k < |r| ==> r[k].id != id
    ensures forall m: Message :: m.id != id ==> multiset(r)[m] == multiset(messages)[m]
  {
    var r := Filter(messages, m => KeepsOthers(id, m));
    forall m: Message | m.id != id ensures multiset(r)[m] == multiset(messages)[m] {
      FilterCount(messages, m => KeepsOthers(id, m), m);
    }
    r
  }

  /** Purging keeps the remaining messages in their order. */
  lemma PurgedKeepsOrder(a: seq<Message>, b: seq<Message>, id: string)
    ensures Purged(a + b, id) == Purged(a, id) + Purged(b, id)
  {
    FilterAppend(a, b, m => KeepsOthers(id, m));
  }

  /** Hiding twice is hiding once. */
  lemma HideIdempotent(messages: seq<Message>, id: string)
    ensures Hidden(Hidden(messages, id), id) == Hidden(messages, id)
  {
  }

  /** Hiding an id that is not queued changes nothing. */
  lemma HideAbsent(messages: seq<Message>, id: string)
    requires forall k :: 0 <= k < |messages| ==> messages[k].id != id
    ensures Hidden(messages, id) == messages
  {
  }

  /** Purging an id that is not queued changes nothing. */
  lemma PurgeAbsent(messages: seq<Message>, id: string)
    requires forall k :: 0 <= k < |messages| ==> messages[k].id != id
    ensures Purged(messages, id) == messages
  {
    FilterKeepsAll(messages, m => KeepsOthers(id, m));
  }

  lemma HiddenCons(messages: seq<Message>, id: string)
    requires messages != []
    ensures Hidden(messages, id) == Hidden([messages[0]], id) + Hidden(messages[1..], id)
  {
  }

  lemma HideThenPurgeOne(m: Message, id: string)
    ensures Purged(Hidden([m], id), id) == Purged([m], id)
  {
    if m.id == id {
      assert Filter([m], x => KeepsOthers(id, x)) == [];
      assert Filter(Hidden([m], id), x => KeepsOthers(id, x)) == [];
    } else {
      assert Hidden([m], id) == [m];
    }
  }

  /** Hiding before purging does not change what the purge leaves. */
  lemma {:induction false} HideThenPurge(messages: seq<Message>, id: string)
    ensures Purged(Hidden(messages, id), id) == Purged(messages, id)
    decreases |messages|
  {
    if messages != [] {
      var head, tail := messages[0], messages[1..];
      assert messages == [head] + tail;
      calc {
        Purged(Hidden(messages, id), id);
        { HiddenCons(messages, id); }
        Purged(Hidden([head], id) + Hidden(tail, id), id);
        { PurgedKeepsOrder(Hidden([head], id), Hidden(tail, id), id); }
        Purged(Hidden([head], id), id) + Purged(Hidden(tail, id), id);
        { HideThenPurgeOne(head, id); HideThenPurge(tail, id); }
        Purged([head], id) + Purged(tail, id);
        { PurgedKeepsOrder([head], tail, id); }
        Purged(messages, id);
      }
    }
  }

  /** Filtering keeps ids distinct. */
  lemma {:induction false} PurgedDistinct(messages: seq<Message>, id: string)
    requires DistinctIds(messages)
    ensures DistinctIds(Purged(messages, id))
    decreases |messages|
  {
    if messages != [] {
      var head, tail := messages[0], messages[1..];
      assert DistinctIds(tail) by {
        forall i, j | 0 <= i < j < |tail| ensures tail[i].id != tail[j].id {
          assert tail[i] == messages[i + 1] && tail[j] == messages[j + 1];
        }
      }
      PurgedDistinct(tail, id);
      var rest := Purged(tail, id);
      assert Purged(messages, id) == (if head.id != id then [head] else []) + rest;
      HeadIdFresh(messages);
      if head.id != id {
        DistinctCons(head, rest);
      } else {
        assert Purged(messages, id) == rest;
      }
    }
  }

  /** In a queue with distinct ids, no later message shares the first one's id. */
  lemma HeadIdFresh(messages: seq<Message>)
    requires messages != [] && DistinctIds(messages)
    ensures forall x :: x in messages[1..] ==> x.id != messages[0].id
  {
    forall x | x in messages[1..] ensures x.id != messages[0].id {
      var j :| 0 <= j < |messages[1..]| && messages[1..][j] == x;
      assert messages[j + 1] == x;
    }
  }

  lemma DistinctCons(head: Message, rest: seq<Message>)
    requires DistinctIds(rest)
    requires forall k :: 0 <= k < |rest| ==> rest[k].id != head.id
    ensures DistinctIds([head] + rest)
  {
    var all := [head] + rest;
    forall i, j | 0 <= i < j < |all| ensures all[i].id != all[j].id {
      assert all[j] == rest[j - 1];
      if i > 0 { assert all[i] == rest[i - 1]; }
    }
  }

  class NotificationQueue {
    var messages: seq<Message>

    ghost predicate Valid()
      reads this
    {
      DistinctIds(messages)
    }

    constructor ()
      ensures Valid() && messages == []
    {
      messages := [];
    }

    /** `addMessage`: one shown message at the end, earlier ones untouched.
        `id` stands for the random id and is fresh. */
    method AddMessage(notice: Notice, id: string)
      requires Valid()
      requires forall k :: 0 <= k < |messages| ==> messages[k].id != id
      modifies this
      ensures Valid()
      ensures messages == old(messages) + [Message(id, true, notice)]
    {
      messages := messages + [Message(id, true, notice)];
    }

    /** `removeMessage`, first phase: hide every message with that id. */
    method RemoveMessage(id: string)
      requires Valid()
      modifies this
      ensures Valid()
      ensures messages == Hidden(old(messages), id)
    {
      messages := Hidden(messages, id);
    }

    /** `removeMessage`, second phase (its 100 ms timer): drop every message
        with that id. */
    method PurgeMessage(id: string)
      requires Valid()
      modifies this
      ensures Valid()
      ensures messages == Purged(old(messages), id)
      ensures forall k :: 0 <= k < |messages| ==> messages[k].id != id
    {
      PurgedDistinct(messages, id);
      messages := Purged(messages, id);
    }
  }
}
