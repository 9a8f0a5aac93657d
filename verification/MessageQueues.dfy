/** The Redis state of one application's queue for one message type, and the operations on it. */
module MessageQueues {
  import opened Outcomes
  import opened RedisLists

  /** A message; its JSON text stands for it in the lists. Times are in ticks. */
  datatype Message = Message(id: string, timeStamp: int, body: string)

  /** The retry hash of one message id; an absent hash reads as no retries. */
  datatype RetryData = RetryData(count: nat, lastRetry: Option<int>)

  const TICKS_PER_SECOND := 10_000_000
  const TICKS_PER_MINUTE := 60 * TICKS_PER_SECOND

  /** The stored text of a time keeps whole seconds only. */
  function WholeSecond(t: int): (s: int)
    ensures s <= t < s + TICKS_PER_SECOND && s % TICKS_PER_SECOND == 0
  {
    t - t % TICKS_PER_SECOND
  }

  function RetryDataOf(data: map<string, RetryData>, id: string): RetryData {
    if id in data then data[id] else RetryData(0, None)
  }

  /** One more failed retry. */
  function Bumped(d: RetryData, now: int): RetryData {
    RetryData(d.count + 1, Some(WholeSecond(now)))
  }

  /** The three lists and the retry hashes. */
  datatype Queues = Queues(published: seq<Message>, processing: seq<Message>, dead: seq<Message>,
                           retryData: map<string, RetryData>)

  class MessageQueueRepository {
    var published: seq<Message>
    var processing: seq<Message>
    var dead: seq<Message>
    var retryData: map<string, RetryData>

    constructor ()
      ensures Value() == Queues([], [], [], map[])
    {
      published, processing, dead, retryData := [], [], [], map[];
    }

    ghost function Value(): Queues
      reads this
    {
      Queues(published, processing, dead, retryData)
    }

    method GetDeadLetterMessage(index: nat) returns (m: Option<Message>)
      ensures m == if index < |dead| then Some(dead[index]) else None
    {
      m := if index < |dead| then Some(dead[index]) else None;
    }

    /** The retry count is untouched: only the exception text is written beside it. */
    method AddToDeadLetterQueue(m: Message)
      modifies this
      ensures Value() == old(Value()).(dead := [m] + old(dead))
    {
      dead := [m] + dead;
    }

    method DeleteFromDeadLetterQueue(m: Message)
      modifies this
      ensures Value() == old(Value()).(dead := RemoveAll(old(dead), m), retryData := old(retryData) - {m.id})
    {
      dead := RemoveAll(dead, m);
      retryData := retryData - {m.id};
    }

    method UpdateRetryData(m: Message, now: int)
      modifies this
      ensures Value() == old(Value()).(retryData :=
                old(retryData)[m.id := Bumped(RetryDataOf(old(retryData), m.id), now)])
    {
      retryData := retryData[m.id := Bumped(RetryDataOf(retryData, m.id), now)];
    }

    method MoveProcessingEventToDeadLetterQueue(m: Message)
      modifies this
      ensures Value() == old(Value()).(dead := [m] + old(dead), processing := RemoveLast(old(processing), m))
    {
      dead := [m] + dead;
      processing := RemoveLast(processing, m);
    }

    /** RPOPLPUSH from the published to the processing list. */
    method ListRightPopLeftPush() returns (m: Option<Message>)
      modifies this
      ensures |old(published)| == 0 ==> m == None && Value() == old(Value())
      ensures |old(published)| > 0 ==>
                && m == Some(old(published)[|old(published)| - 1])
                && Value() == old(Value()).(published := old(published)[..|old(published)| - 1],
                                            processing := [m.value] + old(processing))
    {
      if |published| == 0 {
        return None;
      }
      m := Some(published[|published| - 1]);
      published := published[..|published| - 1];
      processing := [m.value] + processing;
    }

    method RemoveFromProcessing(m: Message)
      modifies this
      ensures Value() == old(Value()).(processing := RemoveAll(old(processing), m))
    {
      processing := RemoveAll(processing, m);
    }
  }

  /** What one run of a callback came to. */
  datatype Outcome = NothingWaiting | Completed(m: Message) | DeadLettered(m: Message) | WriteThrew(m: Message)

  /** The queue after ExecuteCallback, undisturbed: the oldest message is gone from both lists, and is a dead
      letter if its handler failed and the write of the dead letter worked. */
  function Executed(q: Queues, handlerOk: Message -> bool, writeUp: bool): (Queues, Outcome) {
    if |q.published| == 0 then (q, NothingWaiting)
    else
      var m := q.published[|q.published| - 1];
      var next := q.(published := q.published[..|q.published| - 1], processing := RemoveAll(q.processing, m));
      if handlerOk(m) then (next, Completed(m))
      else if writeUp then (next.(dead := [m] + q.dead), DeadLettered(m))
      else (next, WriteThrew(m))
  }

  /** The messages whose handler fails, in list order. */
  function Failures(s: seq<Message>, handlerOk: Message -> bool): seq<Message> {
    if |s| == 0 then [] else (if handlerOk(s[0]) then [] else [s[0]]) + Failures(s[1..], handlerOk)
  }

  class RedisEventSubscriber {
    const repository: MessageQueueRepository

    constructor (repository: MessageQueueRepository)
      ensures this.repository == repository
    {
      this.repository := repository;
    }

    /** Pop to the processing list, run the handler, dead-letter on failure, and in any case take the
        message off the processing list. */
    method ExecuteCallback(handlerOk: Message -> bool, writeUp: bool) returns (o: Outcome)
      modifies repository
      ensures (repository.Value(), o) == Executed(old(repository.Value()), handlerOk, writeUp)
      ensures repository.retryData == old(repository.retryData)
      ensures |old(repository.published)| == 0 ==> repository.Value() == old(repository.Value()) && o == NothingWaiting
      ensures |old(repository.published)| != 0 ==>
                var n := |old(repository.published)|;
                var m := old(repository.published)[n - 1];
                && repository.published == old(repository.published)[..n - 1]
                && repository.processing == Without(old(repository.processing), {m})
                && repository.dead == (if !handlerOk(m) && writeUp then [m] else []) + old(repository.dead)
                && o == if handlerOk(m) then Completed(m) else if writeUp then DeadLettered(m) else WriteThrew(m)
    {
      var popped := repository.ListRightPopLeftPush();
      if popped.None? {
        return NothingWaiting;
      }
      var m := popped.value;
      RemovePushed(old(repository.processing), m);
      o := Completed(m);
      if !handlerOk(m) {
        if writeUp {
          repository.AddToDeadLetterQueue(m);
          o := DeadLettered(m);
        } else {
          o := WriteThrew(m);
        }
      }
      repository.RemoveFromProcessing(m);
    }

    /** The catch-up loop with nobody else about: it empties the published list, and the failures lie on the
        dead letters in the order in which they were waiting. */
    method CatchUp(handlerOk: Message -> bool)
      modifies repository
      ensures repository.published == []
      ensures repository.dead == Failures(old(repository.published), handlerOk) + old(repository.dead)
      ensures forall m :: m in repository.processing <==>
          m in old(repository.processing) && m !in old(repository.published)
      ensures repository.retryData == old(repository.retryData)
    {
      var awaitingEvents := |repository.published|;
      ghost var was := repository.Value();
      var i := 0;
      assert was.published[awaitingEvents..] == [] && was.published[..awaitingEvents] == was.published;
      while i < awaitingEvents
        invariant 0 <= i <= awaitingEvents
        invariant CaughtUp(was, repository.Value(), handlerOk, i)
      {
        CatchUpStep(was, repository.Value(), handlerOk, i);
        var o := ExecuteCallback(handlerOk, true);
        i := i + 1;
      }
      assert was.published[0..] == was.published;
    }
  }

  /** The queue after the `i` oldest messages were processed. */
  ghost predicate CaughtUp(was: Queues, q: Queues, handlerOk: Message -> bool, i: nat)
    requires i <= |was.published|
  {
    var k := |was.published| - i;
    && q.published == was.published[..k]
    && q.dead == Failures(was.published[k..], handlerOk) + was.dead
    && (forall m :: m in q.processing <==> m in was.processing && m !in was.published[k..])
    && q.retryData == was.retryData
  }

  lemma CatchUpStep(was: Queues, q: Queues, handlerOk: Message -> bool, i: nat)
    requires i < |was.published| && CaughtUp(was, q, handlerOk, i)
    ensures CaughtUp(was, Executed(q, handlerOk, true).0, handlerOk, i + 1)
  {
    hide Failures, RemoveAll;
    var k := |was.published| - i;
    var m, tail, left := was.published[k - 1], was.published[k..], was.published[k - 1..];
    assert left == [m] + tail;
    assert q.published[..k - 1] == was.published[..k - 1];
    FailuresOfCons(m, tail, handlerOk);
    var q' := Executed(q, handlerOk, true).0;
    assert q'.published == was.published[..k - 1] && q'.processing == RemoveAll(q.processing, m);
    assert q'.dead == Failures(left, handlerOk) + was.dead;
    forall x
      ensures x in q'.processing <==> x in was.processing && x !in left
    {
      assert x in q'.processing <==> x in q.processing && x != m;
    }
  }

  lemma FailuresOfCons(m: Message, tail: seq<Message>, handlerOk: Message -> bool)
    ensures Failures([m] + tail, handlerOk) == (if handlerOk(m) then [] else [m]) + Failures(tail, handlerOk)
  {
    assert ([m] + tail)[1..] == tail;
  }
}
