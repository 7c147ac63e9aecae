/** The actor in front of a request/response connection: it numbers requests, routes
    responses to whoever asked, and fails what is left when the connection ends.
    The language-server client starts at id 1 and survives a failed write; the daemon
    client starts at id 0 and treats a failed write as the end. */
module RequestActor {
  import opened Wrappers

  type Handle = nat

  datatype Answer<V> = Value(value: V) | RemoteError(error: V)

  datatype Reply<V> = Answered(answer: Answer<V>) | WriteFailed(message: string) | Closed(reason: Option<string>)

  /** What one turn of the loop received, in whatever order the two channels were served.
      `failure` is the outcome of writing the request out. */
  datatype Event<V> =
    | Request(handle: Handle, failure: Option<string>)
    | Notification
    | Response(id: int, answer: Answer<V>)
    | Unhandled
    | Eof
    | Failed(message: string)
    | HandlesDropped

  // ----- specification -----

  function CountRequests<V>(events: seq<Event<V>>): nat {
    if events == [] then 0
    else CountRequests(events[..|events| - 1]) + (if events[|events| - 1].Request? then 1 else 0)
  }

  /** The id the actor gives the request at position `p`. */
  function IdOf<V>(firstId: int, events: seq<Event<V>>, p: nat): int
    requires p <= |events|
  {
    firstId + CountRequests(events[..p])
  }

  /** What the request at `p` has been told by the time `i` events were handled. */
  function Fate<V>(firstId: int, events: seq<Event<V>>, p: nat, i: nat): Option<Reply<V>>
    requires p < i <= |events| && events[p].Request?
    decreases i
  {
    if i == p + 1 then
      if events[p].failure.Some? then Some(WriteFailed("write failed: " + events[p].failure.value)) else None
    else
      var before := Fate(firstId, events, p, i - 1);
      if before.Some? then before
      else if events[i - 1].Response? && events[i - 1].id == IdOf(firstId, events, p) then
        Some(Answered(events[i - 1].answer))
      else None
  }

  predicate Ends<V>(fatal: bool, e: Event<V>) {
    e.Eof? || e.Failed? || e.HandlesDropped? || (fatal && e.Request? && e.failure.Some?)
  }

  /** The loop handles exactly the first `n` events. */
  ghost predicate Handles<V>(fatal: bool, events: seq<Event<V>>, n: nat) {
    && n <= |events|
    && (forall i :: 0 <= i < n - 1 ==> !Ends(fatal, events[i]))
    && (n < |events| ==> n > 0 && Ends(fatal, events[n - 1]))
  }

  function ReasonGiven<V>(fatal: bool, e: Event<V>): Option<string> {
    match e
    case Failed(m) => Some(m)
    case Request(_, Some(m)) => if fatal then Some("write failed: " + m) else None
    case _ => None
  }

  function FinalReply<V>(firstId: int, fatal: bool, events: seq<Event<V>>, p: nat, n: nat): Reply<V>
    requires p < n <= |events| && events[p].Request?
  {
    var f := Fate(firstId, events, p, n);
    if f.Some? then f.value else Closed(ReasonGiven(fatal, events[n - 1]))
  }

  ghost predicate DistinctHandles<V>(events: seq<Event<V>>) {
    forall p, q :: 0 <= p < q < |events| && events[p].Request? && events[q].Request? ==>
        events[p].handle != events[q].handle
  }

  datatype Sent<V> = Sent(handle: Handle, reply: Reply<V>)

  /** `h` was sent exactly one reply, and it is `r`. */
  ghost predicate SentOnce<V>(sent: seq<Sent<V>>, h: Handle, r: Reply<V>) {
    exists x :: && 0 <= x < |sent| && sent[x] == Sent(h, r)
                && forall y :: 0 <= y < |sent| && y != x ==> sent[y].handle != h
  }

  ghost predicate NeverSent<V>(sent: seq<Sent<V>>, h: Handle) {
    forall x :: 0 <= x < |sent| ==> sent[x].handle != h
  }

  ghost predicate Asked<V>(events: seq<Event<V>>, i: nat, h: Handle)
    requires i <= |events|
  {
    exists p :: 0 <= p < i && events[p].Request? && events[p].handle == h
  }

  ghost predicate AskedAs<V>(firstId: int, events: seq<Event<V>>, i: nat, id: int)
    requires i <= |events|
  {
    exists p :: 0 <= p < i && events[p].Request? && IdOf(firstId, events, p) == id
  }

  ghost predicate NoStrangers<V>(events: seq<Event<V>>, i: nat, sent: seq<Sent<V>>)
    requires i <= |events|
  {
    forall x :: 0 <= x < |sent| ==> Asked(events, i, sent[x].handle)
  }

  ghost predicate OneReply<V>(firstId: int, events: seq<Event<V>>, p: nat, i: nat, sent: seq<Sent<V>>,
                              pending: map<int, Handle>)
    requires p < i <= |events| && events[p].Request?
  {
    var f, id := Fate(firstId, events, p, i), IdOf(firstId, events, p);
    if f.Some? then SentOnce(sent, events[p].handle, f.value) && id !in pending
    else NeverSent(sent, events[p].handle) && id in pending && pending[id] == events[p].handle
  }

  ghost predicate InStep<V>(firstId: int, events: seq<Event<V>>, i: nat, nextId: int, sent: seq<Sent<V>>,
                            pending: map<int, Handle>) {
    && i <= |events| && nextId == IdOf(firstId, events, i)
    && (forall p :: 0 <= p < i && events[p].Request? ==> OneReply(firstId, events, p, i, sent, pending))
    && (forall id :: id in pending ==> AskedAs(firstId, events, i, id))
    && NoStrangers(events, i, sent)
  }

  // ----- what a fate is -----

  /** The first response after the request at `p` that carries its id is event `q`. */
  ghost predicate FirstAnswer<V>(firstId: int, events: seq<Event<V>>, p: nat, q: nat, i: nat)
    requires p < i <= |events| && events[p].Request?
  {
    && p < q < i && events[q].Response? && events[q].id == IdOf(firstId, events, p)
    && (forall k :: p < k < q && events[k].Response? ==> events[k].id != IdOf(firstId, events, p))
  }

  /** A request hears about its failed write, else from the first response carrying its own id, else
      nothing yet. */
  lemma {:induction false} FateIsFirstAnswer<V>(firstId: int, events: seq<Event<V>>, p: nat, i: nat)
    requires p < i <= |events| && events[p].Request?
    ensures events[p].failure.Some? ==>
              Fate(firstId, events, p, i) == Some(WriteFailed("write failed: " + events[p].failure.value))
    ensures events[p].failure.None? ==>
              match Fate(firstId, events, p, i)
              case Some(r) => exists q: nat :: FirstAnswer(firstId, events, p, q, i) && r == Answered(events[q].answer)
              case None => forall k :: p < k < i && events[k].Response? ==> events[k].id != IdOf(firstId, events, p)
  {
    if i > p + 1 {
      FateIsFirstAnswer(firstId, events, p, i - 1);
      var before := Fate(firstId, events, p, i - 1);
      if events[p].failure.None? {
        if before.Some? {
          var q: nat :| FirstAnswer(firstId, events, p, q, i - 1) && before.value == Answered(events[q].answer);
          assert FirstAnswer(firstId, events, p, q, i);
        } else if events[i - 1].Response? && events[i - 1].id == IdOf(firstId, events, p) {
          assert FirstAnswer(firstId, events, p, i - 1, i);
        }
      }
    }
  }

  // ----- one event at a time -----

  lemma CountStep<V>(events: seq<Event<V>>, i: nat)
    requires i < |events|
    ensures CountRequests(events[..i + 1]) == CountRequests(events[..i]) + (if events[i].Request? then 1 else 0)
  {
    assert events[..i + 1][..i] == events[..i];
  }

  /** Ids never repeat. */
  lemma {:induction false} IdsNeverRepeat<V>(firstId: int, events: seq<Event<V>>, p: nat, q: nat)
    requires p < q <= |events| && events[p].Request?
    ensures firstId <= IdOf(firstId, events, p) < IdOf(firstId, events, q)
    decreases q
  {
    CountStep(events, q - 1);
    if q - 1 > p {
      IdsNeverRepeat(firstId, events, p, q - 1);
    }
  }

  lemma SentMore<V>(sent: seq<Sent<V>>, h: Handle, r: Reply<V>, h': Handle, r': Reply<V>)
    ensures NeverSent(sent, h) ==> SentOnce(sent + [Sent(h, r)], h, r)
    ensures h != h' && NeverSent(sent, h) ==> NeverSent(sent + [Sent(h', r')], h)
    ensures h != h' && SentOnce(sent, h, r) ==> SentOnce(sent + [Sent(h', r')], h, r)
  {
    assert (sent + [Sent(h, r)])[|sent|] == Sent(h, r);
    if h != h' && SentOnce(sent, h, r) {
      var x :| && 0 <= x < |sent| && sent[x] == Sent(h, r)
               && forall y :: 0 <= y < |sent| && y != x ==> sent[y].handle != h;
      assert (sent + [Sent(h', r')])[x] == Sent(h, r);
    }
  }

  lemma KnownStaysKnown<V>(events: seq<Event<V>>, i: nat, sent: seq<Sent<V>>)
    requires i < |events| && NoStrangers(events, i, sent)
    ensures NoStrangers(events, i + 1, sent)
  {
    forall x | 0 <= x < |sent|
      ensures Asked(events, i + 1, sent[x].handle)
    {
      var p :| 0 <= p < i && events[p].Request? && events[p].handle == sent[x].handle;
    }
  }

  lemma StrangersStep<V>(events: seq<Event<V>>, i: nat, sent: seq<Sent<V>>, p: nat, r: Reply<V>)
    requires p <= i < |events| && events[p].Request? && NoStrangers(events, i, sent)
    ensures NoStrangers(events, i + 1, sent + [Sent(events[p].handle, r)])
  {
    KnownStaysKnown(events, i, sent);
    var sent' := sent + [Sent(events[p].handle, r)];
    forall x | 0 <= x < |sent'|
      ensures Asked(events, i + 1, sent'[x].handle)
    {
      if x < |sent| {
        assert sent'[x] == sent[x];
      }
    }
  }

  /** A new request: its handle has been told nothing so far. */
  lemma NewHandle<V>(events: seq<Event<V>>, i: nat, sent: seq<Sent<V>>)
    requires i < |events| && events[i].Request? && DistinctHandles(events) && NoStrangers(events, i, sent)
    ensures NeverSent(sent, events[i].handle)
  {
    forall x | 0 <= x < |sent|
      ensures sent[x].handle != events[i].handle
    {
      var p :| 0 <= p < i && events[p].Request? && events[p].handle == sent[x].handle;
    }
  }

  lemma StepQuiet<V>(firstId: int, events: seq<Event<V>>, i: nat, nextId: int, sent: seq<Sent<V>>,
                     pending: map<int, Handle>)
    requires i < |events| && InStep(firstId, events, i, nextId, sent, pending)
    requires !events[i].Request? && (events[i].Response? ==> events[i].id !in pending)
    ensures InStep(firstId, events, i + 1, nextId, sent, pending)
  {
    CountStep(events, i);
    KnownStaysKnown(events, i, sent);
    forall p | 0 <= p < i + 1 && events[p].Request?
      ensures OneReply(firstId, events, p, i + 1, sent, pending)
    {
      assert OneReply(firstId, events, p, i, sent, pending);
    }
  }

  lemma StepRequest<V>(firstId: int, events: seq<Event<V>>, i: nat, nextId: int, sent: seq<Sent<V>>,
                       pending: map<int, Handle>)
    requires i < |events| && DistinctHandles(events) && InStep(firstId, events, i, nextId, sent, pending)
    requires events[i].Request?
    ensures var h, failure := events[i].handle, events[i].failure;
            if failure.None? then InStep(firstId, events, i + 1, nextId + 1, sent, pending[nextId := h])
            else InStep(firstId, events, i + 1, nextId + 1,
                        sent + [Sent(h, WriteFailed("write failed: " + failure.value))], pending)
  {
    var h, failure := events[i].handle, events[i].failure;
    CountStep(events, i);
    NewHandle(events, i, sent);
    var r := WriteFailed("write failed: " + if failure.Some? then failure.value else "");
    var sent' := if failure.None? then sent else sent + [Sent(h, r)];
    var pending' := if failure.None? then pending[nextId := h] else pending;
    forall p | 0 <= p < i && events[p].Request?
      ensures OneReply(firstId, events, p, i + 1, sent', pending')
    {
      assert OneReply(firstId, events, p, i, sent, pending);
      IdsNeverRepeat(firstId, events, p, i);
      var f := Fate(firstId, events, p, i);
      SentMore(sent, events[p].handle, if f.Some? then f.value else r, h, r);
    }
    assert OneReply(firstId, events, i, i + 1, sent', pending') by {
      SentMore(sent, h, r, h, r);
      FreshId(firstId, events, i, sent, pending);
    }
    if failure.Some? {
      StrangersStep(events, i, sent, i, r);
    } else {
      KnownStaysKnown(events, i, sent);
    }
  }

  lemma FreshId<V>(firstId: int, events: seq<Event<V>>, i: nat, sent: seq<Sent<V>>, pending: map<int, Handle>)
    requires i < |events| && InStep(firstId, events, i, IdOf(firstId, events, i), sent, pending)
    ensures IdOf(firstId, events, i) !in pending
  {
    forall id | id in pending
      ensures id != IdOf(firstId, events, i)
    {
      var p :| 0 <= p < i && events[p].Request? && IdOf(firstId, events, p) == id;
      IdsNeverRepeat(firstId, events, p, i);
    }
  }

  lemma StepResponse<V>(firstId: int, events: seq<Event<V>>, i: nat, nextId: int, sent: seq<Sent<V>>,
                        pending: map<int, Handle>)
    requires i < |events| && DistinctHandles(events) && InStep(firstId, events, i, nextId, sent, pending)
    requires events[i].Response? && events[i].id in pending
    ensures var id := events[i].id;
            InStep(firstId, events, i + 1, nextId, sent + [Sent(pending[id], Answered(events[i].answer))],
                   pending - {id})
  {
    var id, r := events[i].id, Answered(events[i].answer);
    var q :| 0 <= q < i && events[q].Request? && IdOf(firstId, events, q) == id;
    var sent', pending' := sent + [Sent(events[q].handle, r)], pending - {id};
    CountStep(events, i);
    assert OneReply(firstId, events, q, i, sent, pending);
    forall p | 0 <= p < i && events[p].Request?
      ensures OneReply(firstId, events, p, i + 1, sent', pending')
    {
      assert OneReply(firstId, events, p, i, sent, pending);
      ReplyAfterResponse(firstId, events, p, q, i, sent, pending);
    }
    StrangersStep(events, i, sent, q, r);
  }

  /** The response is for the request at `q`; any other has been told what it had been told. */
  lemma ReplyAfterResponse<V>(firstId: int, events: seq<Event<V>>, p: nat, q: nat, i: nat, sent: seq<Sent<V>>,
                              pending: map<int, Handle>)
    requires p < i < |events| && q < i && DistinctHandles(events)
    requires events[p].Request? && events[q].Request? && events[i].Response?
    requires IdOf(firstId, events, q) == events[i].id && events[i].id in pending
    requires OneReply(firstId, events, p, i, sent, pending) && OneReply(firstId, events, q, i, sent, pending)
    ensures OneReply(firstId, events, p, i + 1, sent + [Sent(events[q].handle, Answered(events[i].answer))],
                     pending - {events[i].id})
  {
    var r := Answered(events[i].answer);
    if p < q { IdsNeverRepeat(firstId, events, p, q); }
    if q < p { IdsNeverRepeat(firstId, events, q, p); }
    var f := Fate(firstId, events, p, i);
    SentMore(sent, events[p].handle, if f.Some? then f.value else r, events[q].handle, r);
  }

  // ----- the end -----

  /** Every request taken was told exactly one thing, the right one, and nobody else was told anything. */
  ghost predicate AllAnswered<V>(firstId: int, fatal: bool, events: seq<Event<V>>, n: nat, sent: seq<Sent<V>>)
    requires n <= |events|
  {
    && (forall p :: 0 <= p < n && events[p].Request? ==>
        SentOnce(sent, events[p].handle, FinalReply(firstId, fatal, events, p, n)))
    && NoStrangers(events, n, sent)
  }

  ghost predicate DrainedAt<V>(firstId: int, fatal: bool, events: seq<Event<V>>, p: nat, n: nat, low: int,
                               sent: seq<Sent<V>>, pending: map<int, Handle>)
    requires p < n <= |events| && events[p].Request?
  {
    if IdOf(firstId, events, p) < low then SentOnce(sent, events[p].handle, FinalReply(firstId, fatal, events, p, n))
    else OneReply(firstId, events, p, n, sent, pending)
  }

  /** Ids below `low` have been drained. */
  ghost predicate Draining<V>(firstId: int, fatal: bool, events: seq<Event<V>>, n: nat, low: int, sent: seq<Sent<V>>,
                              pending: map<int, Handle>)
    requires n <= |events|
  {
    && (forall p :: 0 <= p < n && events[p].Request? ==>
                      DrainedAt(firstId, fatal, events, p, n, low, sent, pending))
    && (forall id :: id in pending ==> low <= id && AskedAs(firstId, events, n, id))
    && NoStrangers(events, n, sent)
  }

  lemma DrainSkip<V>(firstId: int, fatal: bool, events: seq<Event<V>>, n: nat, id: int, sent: seq<Sent<V>>,
                     pending: map<int, Handle>)
    requires n <= |events| && Draining(firstId, fatal, events, n, id, sent, pending) && id !in pending
    ensures Draining(firstId, fatal, events, n, id + 1, sent, pending)
  {
  }

  lemma DrainOne<V>(firstId: int, fatal: bool, events: seq<Event<V>>, p: nat, q: nat, n: nat,
                    sent: seq<Sent<V>>, pending: map<int, Handle>, r: Reply<V>)
    requires p < n <= |events| && q < n && events[p].Request? && events[q].Request? && DistinctHandles(events)
    requires r == Closed(ReasonGiven(fatal, events[n - 1])) && Fate(firstId, events, q, n).None?
    requires NeverSent(sent, events[q].handle)
    requires DrainedAt(firstId, fatal, events, p, n, IdOf(firstId, events, q), sent, pending)
    ensures var id := IdOf(firstId, events, q);
            DrainedAt(firstId, fatal, events, p, n, id + 1, sent + [Sent(events[q].handle, r)], pending - {id})
  {
    if p < q { IdsNeverRepeat(firstId, events, p, q); }
    if q < p { IdsNeverRepeat(firstId, events, q, p); }
    SentMore(sent, events[p].handle, FinalReply(firstId, fatal, events, p, n), events[q].handle, r);
  }

  lemma DrainStep<V>(firstId: int, fatal: bool, events: seq<Event<V>>, n: nat, id: int, sent: seq<Sent<V>>,
                     pending: map<int, Handle>)
    requires 0 < n <= |events| && DistinctHandles(events)
    requires Draining(firstId, fatal, events, n, id, sent, pending) && id in pending
    ensures Draining(firstId, fatal, events, n, id + 1,
                     sent + [Sent(pending[id], Closed(ReasonGiven(fatal, events[n - 1])))], pending - {id})
  {
    var r: Reply<V> := Closed(ReasonGiven(fatal, events[n - 1]));
    var q :| 0 <= q < n && events[q].Request? && IdOf(firstId, events, q) == id;
    assert OneReply(firstId, events, q, n, sent, pending);
    var sent', pending' := sent + [Sent(events[q].handle, r)], pending - {id};
    forall p | 0 <= p < n && events[p].Request?
      ensures DrainedAt(firstId, fatal, events, p, n, id + 1, sent', pending')
    {
      DrainOne(firstId, fatal, events, p, q, n, sent, pending, r);
    }
    forall x | 0 <= x < |sent'|
      ensures Asked(events, n, sent'[x].handle)
    {
      if x < |sent| {
        assert sent'[x] == sent[x];
      }
    }
  }

  lemma DrainStarts<V>(firstId: int, fatal: bool, events: seq<Event<V>>, n: nat, nextId: int, sent: seq<Sent<V>>,
                       pending: map<int, Handle>)
    requires InStep(firstId, events, n, nextId, sent, pending)
    ensures Draining(firstId, fatal, events, n, firstId, sent, pending) && firstId <= nextId
  {
  }

  lemma DrainEnds<V>(firstId: int, fatal: bool, events: seq<Event<V>>, n: nat, sent: seq<Sent<V>>,
                     pending: map<int, Handle>)
    requires n <= |events| && Draining(firstId, fatal, events, n, IdOf(firstId, events, n), sent, pending)
    ensures AllAnswered(firstId, fatal, events, n, sent)
    ensures forall id :: id !in pending
  {
    forall p | 0 <= p < n && events[p].Request?
      ensures IdOf(firstId, events, p) < IdOf(firstId, events, n)
    {
      IdsNeverRepeat(firstId, events, p, n);
    }
  }

  // ----- the actor -----

  class Actor<V> {
    var pending: map<int, Handle>
    var nextId: int
    var alive: bool
    var closeReason: Option<string>
    var sent: seq<Sent<V>>
    const firstId: int
    const writeFailureIsFatal: bool

    constructor (firstId: int, writeFailureIsFatal: bool)
      ensures this.firstId == firstId && this.writeFailureIsFatal == writeFailureIsFatal
      ensures pending == map[] && nextId == firstId && alive && closeReason.None? && sent == []
    {
      this.firstId, this.writeFailureIsFatal := firstId, writeFailureIsFatal;
      pending, nextId, alive, closeReason, sent := map[], firstId, true, None, [];
    }

    method Send(h: Handle, r: Reply<V>)
      modifies this`sent
      ensures sent == old(sent) + [Sent(h, r)]
    {
      sent := sent + [Sent(h, r)];
    }

    method Dispatch(id: int, answer: Answer<V>)
      modifies this`pending, this`sent
      ensures if id in old(pending)
              then sent == old(sent) + [Sent(old(pending)[id], Answered(answer))] && pending == old(pending) - {id}
              else sent == old(sent) && pending == old(pending)
    {
      if id in pending {
        Send(pending[id], Answered(answer));
        pending := pending - {id};
      }
    }

    method TakeRequest(h: Handle, failure: Option<string>)
      modifies this`pending, this`sent, this`nextId, this`alive, this`closeReason
      ensures nextId == old(nextId) + 1
      ensures failure.None? ==> && pending == old(pending)[old(nextId) := h] && sent == old(sent)
                                && alive == old(alive) && closeReason == old(closeReason)
      ensures failure.Some? ==> && pending == old(pending)
                                && sent == old(sent) + [Sent(h, WriteFailed("write failed: " + failure.value))]
                                && alive == (old(alive) && !writeFailureIsFatal)
                                && closeReason == (if writeFailureIsFatal then Some("write failed: " + failure.value)
                                                   else old(closeReason))
    {
      var id := nextId;
      nextId := nextId + 1;
      match failure {
        case None => pending := pending[id := h];
        case Some(e) =>
          Send(h, WriteFailed("write failed: " + e));
          if writeFailureIsFatal {
            closeReason := Some("write failed: " + e);
            alive := false;
          }
      }
    }

    method Turn(e: Event<V>, ghost events: seq<Event<V>>, ghost i: nat)
      requires i < |events| && events[i] == e && DistinctHandles(events)
      requires InStep(firstId, events, i, nextId, sent, pending) && alive && closeReason.None?
      modifies this
      ensures InStep(firstId, events, i + 1, nextId, sent, pending)
      ensures alive == !Ends(writeFailureIsFatal, e)
      ensures closeReason == ReasonGiven(writeFailureIsFatal, e)
    {
      if e.Request? {
        StepRequest(firstId, events, i, nextId, sent, pending);
      } else if e.Response? && e.id in pending {
        StepResponse(firstId, events, i, nextId, sent, pending);
      } else {
        StepQuiet(firstId, events, i, nextId, sent, pending);
      }
      match e {
        case Request(h, failure) => TakeRequest(h, failure);
        case Response(id, answer) => Dispatch(id, answer);
        case Notification =>
        case Unhandled =>
        case Eof => alive := false;
        case HandlesDropped => alive := false;
        case Failed(m) =>
          closeReason := Some(m);
          alive := false;
      }
    }

    /** Fail whatever is still pending. The receivers are distinct, so the order does not show. */
    method Drain(ghost events: seq<Event<V>>, ghost n: nat)
      requires 0 < n <= |events| && DistinctHandles(events) && InStep(firstId, events, n, nextId, sent, pending)
      requires closeReason == ReasonGiven(writeFailureIsFatal, events[n - 1])
      modifies this`pending, this`sent
      ensures forall id :: id !in pending
      ensures AllAnswered(firstId, writeFailureIsFatal, events, n, sent)
    {
      DrainStarts(firstId, writeFailureIsFatal, events, n, nextId, sent, pending);
      for id := firstId to nextId
        invariant nextId == IdOf(firstId, events, n)
        invariant Draining(firstId, writeFailureIsFatal, events, n, id, sent, pending)
      {
        if id in pending {
          DrainStep(firstId, writeFailureIsFatal, events, n, id, sent, pending);
          Send(pending[id], Closed(closeReason));
          pending := pending - {id};
        } else {
          DrainSkip(firstId, writeFailureIsFatal, events, n, id, sent, pending);
        }
      }
      DrainEnds(firstId, writeFailureIsFatal, events, n, sent, pending);
    }

    /** The whole life of the actor: the loop, then the drain. A stream of events that does not end the
        loop is still going on, and leaves requests waiting. */
    method Serve(events: seq<Event<V>>) returns (n: nat)
      requires DistinctHandles(events)
      requires pending == map[] && nextId == firstId && alive && closeReason.None? && sent == []
      modifies this
      ensures Handles(writeFailureIsFatal, events, n)
      ensures alive ==> n == |events| && InStep(firstId, events, n, nextId, sent, pending)
      ensures !alive ==>
                n > 0 && (forall id :: id !in pending) && AllAnswered(firstId, writeFailureIsFatal, events, n, sent)
    {
      n := 0;
      while alive && n < |events|
        invariant n <= |events| && InStep(firstId, events, n, nextId, sent, pending)
        invariant forall i :: 0 <= i < n - 1 ==> !Ends(writeFailureIsFatal, events[i])
        invariant alive ==> closeReason.None? && (n > 0 ==> !Ends(writeFailureIsFatal, events[n - 1]))
        invariant !alive ==> n > 0 && Ends(writeFailureIsFatal, events[n - 1]) &&
                             closeReason == ReasonGiven(writeFailureIsFatal, events[n - 1])
        decreases |events| - n
      {
        Turn(events[n], events, n);
        n := n + 1;
      }
      if !alive {
        Drain(events, n);
      }
    }
  }
}
