/** The queue discipline of a reliable connection: what is kept, retransmitted and matched with acknowledgements. */
module ReliableSender {

  // A message is known by the order in which the connection accepted it; its handler goes by the same number.
  type Message = nat

  /**
   * `pending` are the messages transmitted on the current connection and not yet answered. `accepted` counts the messages
   * taken from the channel, `acked` and `cancelled` say what became of their handlers; `transmitted` and `answered` are the
   * messages sent on the current connection and those whose acknowledgement arrived on it, in order.
   */
  datatype Queue = Queue(buffer: seq<Message>, pending: seq<Message>, connected: bool, accepted: nat,
                         acked: set<Message>, cancelled: set<Message>, transmitted: seq<Message>, answered: seq<Message>)

  const EMPTY := Queue([], [], false, 0, {}, {}, [], [])

  /** `Send` is one turn of the transmission loop, `Response` what the reader yields: an acknowledgement or a failure. */
  datatype Event = Connect | Accept | Send(ok: bool) | Response(ok: bool) | Cancel(message: Message)

  function Open(ms: seq<Message>, cancelled: set<Message>): seq<Message> {
    if ms == [] then [] else (if ms[0] in cancelled then [] else [ms[0]]) + Open(ms[1..], cancelled)
  }

  /** A lost connection: everything unanswered goes back in front of the buffer. */
  function Drop(q: Queue): Queue {
    q.(buffer := q.pending + q.buffer, pending := [], connected := false, transmitted := [], answered := [])
  }

  /** While connected the buffer is emptied before anything else is looked at. */
  predicate Enabled(q: Queue, e: Event) {
    match e
    case Connect => !q.connected
    case Accept => !q.connected || q.buffer == []
    case Send(_) => q.connected && q.buffer != []
    case Response(_) => q.connected && q.buffer == []
    case Cancel(m) => m < q.accepted
  }

  function Apply(q: Queue, e: Event): Queue
    requires Enabled(q, e)
  {
    match e
    case Connect => q.(connected := true)
    case Accept =>
      var buffer := q.buffer + [q.accepted];
      q.(accepted := q.accepted + 1, buffer := if q.connected then buffer else Open(buffer, q.cancelled))
    case Send(ok) =>
      var m := q.buffer[0];
      if m in q.cancelled then q.(buffer := q.buffer[1..])
      else if ok then q.(buffer := q.buffer[1..], pending := q.pending + [m], transmitted := q.transmitted + [m])
      else Drop(q)
    case Response(ok) =>
      if q.pending == [] || !ok then Drop(q)
      else
        var m := q.pending[0];
        q.(pending := q.pending[1..], acked := q.acked + {m}, answered := q.answered + [m])
    case Cancel(m) => q.(cancelled := q.cancelled + {m})
  }

  function Run(events: seq<Event>): Queue
    decreases |events|
  {
    if events == [] then EMPTY
    else
      var q := Run(events[..|events| - 1]);
      var e := events[|events| - 1];
      if Enabled(q, e) then Apply(q, e) else q
  }

  ghost predicate Ascending(ms: seq<Message>) {
    forall i, j :: 0 <= i < j < |ms| ==> ms[i] < ms[j]
  }

  /** Messages stay in the order of acceptance, and what is neither acknowledged nor cancelled stays. */
  ghost predicate Inv(q: Queue) {
    && Ascending(q.answered + q.pending + q.buffer)
    && (forall m :: m in q.pending + q.buffer ==> m < q.accepted && m !in q.acked)
    && (forall m :: m in q.answered ==> m in q.acked)
    && (forall m :: m in q.acked ==> m < q.accepted)
    && (forall m :: 0 <= m < q.accepted && m !in q.acked && m !in q.cancelled ==> m in q.pending + q.buffer)
    && q.transmitted == q.answered + q.pending
    && (!q.connected ==> q.transmitted == [])
  }

  lemma {:induction false} OpenExact(ms: seq<Message>, cancelled: set<Message>)
    requires Ascending(ms)
    ensures Ascending(Open(ms, cancelled))
    ensures forall m :: m in Open(ms, cancelled) <==> m in ms && m !in cancelled
  {
    if ms != [] {
      assert forall i :: 0 <= i < |ms[1..]| ==> ms[1..][i] == ms[i + 1];
      OpenExact(ms[1..], cancelled);
      assert forall m :: m in ms <==> m == ms[0] || m in ms[1..];
      var rest := Open(ms[1..], cancelled);
      forall i | 0 <= i < |rest|
        ensures ms[0] < rest[i]
      {
        assert rest[i] in rest;
      }
    }
  }

  lemma AppendKeeps(q: Queue)
    requires Inv(q)
    ensures Inv(q.(accepted := q.accepted + 1, buffer := q.buffer + [q.accepted]))
  {
    var before, kept := q.answered + q.pending + q.buffer, q.pending + q.buffer;
    var t := q.(accepted := q.accepted + 1, buffer := q.buffer + [q.accepted]);
    assert t.answered + t.pending + t.buffer == before + [q.accepted] && t.pending + t.buffer == kept + [q.accepted];
    forall i | 0 <= i < |before|
      ensures before[i] < q.accepted
    {
      assert before[i] in q.answered || before[i] in kept;
    }
  }

  lemma OpenKeeps(q: Queue)
    requires Inv(q) && !q.connected
    ensures Inv(q.(buffer := Open(q.buffer, q.cancelled)))
  {
    var t := q.(buffer := Open(q.buffer, q.cancelled));
    assert q.answered == [] && q.pending == [];
    assert q.answered + q.pending + q.buffer == q.buffer && q.pending + q.buffer == q.buffer;
    assert t.answered + t.pending + t.buffer == t.buffer && t.pending + t.buffer == t.buffer;
    OpenExact(q.buffer, q.cancelled);
  }

  lemma AcceptKeeps(q: Queue)
    requires Inv(q) && Enabled(q, Accept)
    ensures Inv(Apply(q, Accept))
  {
    hide Inv, Open;
    AppendKeeps(q);
    if !q.connected {
      OpenKeeps(q.(accepted := q.accepted + 1, buffer := q.buffer + [q.accepted]));
    }
  }

  /** Leaving one message out keeps the order. */
  lemma GapAscends(a: seq<Message>, m: Message, c: seq<Message>)
    requires Ascending(a + [m] + c)
    ensures Ascending(a + c)
  {
    var all, fewer := a + [m] + c, a + c;
    forall i, j | 0 <= i < j < |fewer|
      ensures fewer[i] < fewer[j]
    {
      var i', j' := if i < |a| then i else i + 1, if j < |a| then j else j + 1;
      assert fewer[i] == all[i'] && fewer[j] == all[j'];
    }
  }

  /** A cancelled message is skipped. */
  lemma SkipKeeps(q: Queue)
    requires Inv(q) && q.buffer != [] && q.buffer[0] in q.cancelled
    ensures Inv(q.(buffer := q.buffer[1..]))
  {
    var m, rest := q.buffer[0], q.buffer[1..];
    assert q.buffer == [m] + rest;
    assert q.answered + q.pending + q.buffer == q.answered + q.pending + [m] + rest;
    GapAscends(q.answered + q.pending, m, rest);
    hide Ascending;
    assert forall k :: k in q.pending + q.buffer <==> k == m || k in q.pending + rest;
  }

  lemma TransmitKeeps(q: Queue)
    requires Inv(q) && q.connected && q.buffer != []
    ensures var m := q.buffer[0];
            Inv(q.(buffer := q.buffer[1..], pending := q.pending + [m], transmitted := q.transmitted + [m]))
  {
    hide Ascending;
    var m, rest := q.buffer[0], q.buffer[1..];
    assert q.buffer == [m] + rest;
    assert q.answered + (q.pending + [m]) + rest == q.answered + q.pending + q.buffer;
    assert q.pending + [m] + rest == q.pending + q.buffer;
    assert q.answered + (q.pending + [m]) == q.answered + q.pending + [m];
  }

  lemma SendKeeps(q: Queue, ok: bool)
    requires Inv(q) && Enabled(q, Send(ok))
    ensures Inv(Apply(q, Send(ok)))
  {
    hide Inv, Drop;
    if q.buffer[0] in q.cancelled {
      SkipKeeps(q);
    } else if ok {
      TransmitKeeps(q);
    } else {
      DropKeeps(q);
    }
  }

  lemma SuffixAscends(a: seq<Message>, b: seq<Message>, c: seq<Message>)
    requires Ascending(a + b + c)
    ensures Ascending(b + c)
  {
    var all, rest := a + b + c, b + c;
    forall i, j | 0 <= i < j < |rest|
      ensures rest[i] < rest[j]
    {
      assert rest[i] == all[|a| + i] && rest[j] == all[|a| + j];
    }
  }

  lemma HeadBelow(m: Message, rest: seq<Message>)
    requires Ascending([m] + rest)
    ensures m !in rest
  {
    var all := [m] + rest;
    forall i | 0 <= i < |rest|
      ensures m < rest[i]
    {
      assert all[0] == m && all[i + 1] == rest[i];
    }
  }

  lemma DropKeeps(q: Queue)
    requires Inv(q)
    ensures Inv(Drop(q))
  {
    SuffixAscends(q.answered, q.pending, q.buffer);
    hide Ascending;
    var t, kept := Drop(q), q.pending + q.buffer;
    assert t.answered + t.pending + t.buffer == kept && t.pending + t.buffer == kept;
  }

  lemma ResponseKeeps(q: Queue, ok: bool)
    requires Inv(q) && Enabled(q, Response(ok))
    ensures Inv(Apply(q, Response(ok)))
  {
    if q.pending == [] || !ok {
      DropKeeps(q);
    } else {
      var m, t := q.pending[0], Apply(q, Response(ok));
      SuffixAscends(q.answered, q.pending, q.buffer);
      assert q.pending == [m] + q.pending[1..];
      assert q.pending + q.buffer == [m] + (t.pending + t.buffer);
      HeadBelow(m, t.pending + t.buffer);
      hide Ascending;
      assert t.answered + t.pending + t.buffer == q.answered + q.pending + q.buffer;
      assert t.answered + t.pending == q.answered + q.pending;
    }
  }

  /**
   * Over any interleaving of sends, acknowledgements, cancellations, failures and reconnections, the unanswered
   * messages followed by the buffer are in order of acceptance and hold every message neither acknowledged nor cancelled.
   */
  lemma {:induction false} RunKeeps(events: seq<Event>)
    ensures Inv(Run(events))
    decreases |events|
  {
    if events != [] {
      var before, e := events[..|events| - 1], events[|events| - 1];
      RunKeeps(before);
      var q := Run(before);
      hide Inv;
      if Enabled(q, e) {
        match e
        case Connect => ConnectKeeps(q);
        case Accept => AcceptKeeps(q);
        case Send(ok) => SendKeeps(q, ok);
        case Response(ok) => ResponseKeeps(q, ok);
        case Cancel(m) => CancelKeeps(q, m);
      }
    }
  }

  lemma ConnectKeeps(q: Queue)
    requires Inv(q)
    ensures Inv(q.(connected := true))
  {
  }

  lemma CancelKeeps(q: Queue, m: Message)
    requires Inv(q)
    ensures Inv(q.(cancelled := q.cancelled + {m}))
  {
  }

  function Count(ms: seq<Message>, m: Message): nat {
    if ms == [] then 0 else (if ms[0] == m then 1 else 0) + Count(ms[1..], m)
  }

  lemma {:induction false} AscendingCounts(ms: seq<Message>, m: Message)
    requires Ascending(ms)
    ensures Count(ms, m) == if m in ms then 1 else 0
  {
    if ms != [] {
      assert forall i :: 0 <= i < |ms[1..]| ==> ms[1..][i] == ms[i + 1];
      AscendingCounts(ms[1..], m);
      assert m in ms <==> m == ms[0] || m in ms[1..];
    }
  }

  /** Nothing accepted is lost or doubled: an open, unacknowledged message is queued exactly once, an acknowledged one never. */
  lemma ExactlyOnce(events: seq<Event>, m: Message)
    requires m < Run(events).accepted
    ensures var q := Run(events);
            && Ascending(q.pending + q.buffer)
            && (m in q.acked ==> Count(q.pending + q.buffer, m) == 0)
            && (m !in q.acked && m !in q.cancelled ==> Count(q.pending + q.buffer, m) == 1)
            && Count(q.pending + q.buffer, m) <= 1
  {
    hide Run, Ascending, Count;
    RunKeeps(events);
    var q := Run(events);
    SuffixAscends(q.answered, q.pending, q.buffer);
    AscendingCounts(q.pending + q.buffer, m);
  }

  /** The k-th acknowledgement on a connection is given to the handler of the k-th message transmitted on it. */
  lemma AcksMatchTransmissions(events: seq<Event>, k: nat)
    requires k < |Run(events).answered|
    ensures k < |Run(events).transmitted| && Run(events).answered[k] == Run(events).transmitted[k]
    ensures Ascending(Run(events).transmitted)
  {
    RunKeeps(events);
    var q := Run(events);
    var all := q.answered + q.pending + q.buffer;
    assert forall i :: 0 <= i < |q.transmitted| ==> q.transmitted[i] == all[i];
  }

  /**
   * After any events, what one more can do. A message is transmitted only by a successful turn of the loop, when it is the first in
   * the buffer and its handler is open; only the oldest message without an answer is ever acknowledged, and only by an
   * acknowledgement; and a message taken from the channel while there is no connection clears the buffer of cancelled ones.
   */
  lemma OnlyOpenAreSent(events: seq<Event>, e: Event, m: Message)
    ensures var q := Run(events); var t := Run(events + [e]);
            && (m in t.transmitted && m !in q.transmitted ==>
                  e == Send(true) && q.connected && q.buffer != [] && m == q.buffer[0] && m !in q.cancelled)
            && (m in t.acked && m !in q.acked ==>
                  e == Response(true) && q.connected && q.buffer == [] && q.pending != [] && m == q.pending[0])
            && (e == Accept && !q.connected ==> m in t.buffer ==> m !in q.cancelled)
            && (e == Send(true) && q.connected && q.buffer != [] && q.buffer[0] !in q.cancelled ==>
                  t.transmitted == q.transmitted + [q.buffer[0]] && t.buffer == q.buffer[1..])
  {
    hide Run, Inv;
    RunKeeps(events);
    RunUnfolds(events, e);
    var q := Run(events);
    if e == Accept && !q.connected {
      AcceptedOpen(q);
    }
  }

  lemma RunUnfolds(events: seq<Event>, e: Event)
    ensures var q := Run(events); Run(events + [e]) == if Enabled(q, e) then Apply(q, e) else q
  {
    assert (events + [e])[..|events|] == events;
  }

  lemma AcceptedOpen(q: Queue)
    requires Inv(q) && !q.connected
    ensures forall m :: m in Open(q.buffer + [q.accepted], q.cancelled) ==> m !in q.cancelled
  {
    AppendKeeps(q);
    var t := q.(accepted := q.accepted + 1, buffer := q.buffer + [q.accepted]);
    assert q.answered == [] && q.pending == [];
    assert t.answered + t.pending + t.buffer == t.buffer;
    OpenExact(t.buffer, q.cancelled);
  }

  // ----- The connection as the program runs it -----

  class Connection {
    var buffer: seq<Message>
    var pendingReplies: seq<Message>
    var connected: bool
    var closed: set<Message>
    var accepted: nat
    ghost var acked: set<Message>
    ghost var transmitted: seq<Message>
    ghost var answered: seq<Message>

    ghost function Value(): Queue
      reads this
    {
      Queue(buffer, pendingReplies, connected, accepted, acked, closed, transmitted, answered)
    }

    constructor ()
      ensures Value() == EMPTY
    {
      buffer, pendingReplies, connected, closed, accepted := [], [], false, {}, 0;
      acked, transmitted, answered := {}, [], [];
    }

    method Connect()
      requires Enabled(Value(), Event.Connect)
      modifies this
      ensures Value() == Apply(old(Value()), Event.Connect)
    {
      connected := true;
    }

    /** Drops the messages whose handler was closed. */
    method Retain()
      modifies this`buffer
      ensures buffer == Open(old(buffer), closed)
    {
      var kept: seq<Message> := [];
      var i := |buffer|;
      while 0 < i
        invariant 0 <= i <= |buffer|
        invariant kept == Open(buffer[i..], closed)
        invariant buffer == old(buffer)
      {
        i := i - 1;
        assert buffer[i..][0] == buffer[i] && buffer[i..][1..] == buffer[i + 1..];
        if buffer[i] !in closed {
          kept := [buffer[i]] + kept;
        }
      }
      assert buffer[0..] == buffer;
      buffer := kept;
    }

    method Accept()
      requires Enabled(Value(), Event.Accept)
      modifies this
      ensures Value() == Apply(old(Value()), Event.Accept)
    {
      buffer := buffer + [accepted];
      accepted := accepted + 1;
      if !connected {
        Retain();
      }
    }

    /** Puts the unanswered messages back, last first, in front of the buffer. */
    method Requeue()
      modifies this
      ensures Value() == Drop(old(Value()))
    {
      while pendingReplies != []
        invariant pendingReplies + buffer == old(pendingReplies + buffer)
        invariant Value().(buffer := [], pending := []) == old(Value()).(buffer := [], pending := [])
        decreases |pendingReplies|
      {
        var n := |pendingReplies| - 1;
        assert pendingReplies[..n] + ([pendingReplies[n]] + buffer) == pendingReplies + buffer;
        buffer := [pendingReplies[n]] + buffer;
        pendingReplies := pendingReplies[..n];
      }
      assert pendingReplies + buffer == buffer;
      connected, transmitted, answered := false, [], [];
    }

    method Send(ok: bool)
      requires Enabled(Value(), Event.Send(ok))
      modifies this
      ensures Value() == Apply(old(Value()), Event.Send(ok))
    {
      var message := buffer[0];
      buffer := buffer[1..];
      if message in closed {
        return;
      }
      if ok {
        pendingReplies := pendingReplies + [message];
        transmitted := transmitted + [message];
      } else {
        buffer := [message] + buffer;
        Requeue();
      }
    }

    method Response(ok: bool)
      requires Enabled(Value(), Event.Response(ok))
      modifies this
      ensures Value() == Apply(old(Value()), Event.Response(ok))
    {
      if pendingReplies == [] {
        Requeue();
        return;
      }
      var message := pendingReplies[0];
      pendingReplies := pendingReplies[1..];
      if ok {
        acked := acked + {message};
        answered := answered + [message];
      } else {
        pendingReplies := [message] + pendingReplies;
        Requeue();
      }
    }

    method Cancel(message: Message)
      requires Enabled(Value(), Event.Cancel(message))
      modifies this
      ensures Value() == Apply(old(Value()), Event.Cancel(message))
    {
      closed := closed + {message};
    }
  }
}
