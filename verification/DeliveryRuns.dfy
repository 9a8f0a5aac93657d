/** The methods that work on the queues are interleavings of the delivery protocol: undisturbed, each comes to
    the same lists as its steps there. */
module DeliveryRuns {
  import opened DeliveryProtocol
  import opened MessageQueues
  import opened RedisLists
  import P = Publishing
  import R = Retries

  /** The steps of the delivery protocol that consumer `w` takes when nobody else does. */
  function CallbackSteps(w: nat, ok: bool, writeUp: bool): seq<Step<Message>> {
    if ok then [Pop(w), HandlerReturns(w), Remove(w)]
    else [Pop(w), HandlerThrows(w), if writeUp then DeadLetter(w) else DeadLetterThrows(w), Remove(w)]
  }

  function DoAll(q: Queue<Message>, steps: seq<Step<Message>>): Queue<Message>
    decreases |steps|
  {
    if |steps| == 0 then q else DoAll(Do(q, steps[0]), steps[1..])
  }

  /** The histories, and the processes other than consumers. */
  ghost predicate SameBesides(q: Queue<Message>, q': Queue<Message>) {
    && q'.movers == q.movers && q'.retriers == q.retriers && q'.pushed == q.pushed && q'.expired == q.expired
  }

  /** An undisturbed ExecuteCallback, after a crash of the consumer's last one if it was at work, is one of the
      interleavings of the delivery protocol: pop, handler, dead letter, removal. */
  lemma {:induction false} CallbackIsARun(q: Queue<Message>, w: nat, handlerOk: Message -> bool, writeUp: bool)
    requires q.published != []
    ensures var m := q.published[|q.published| - 1];
            var after := DoAll(Do(q, ConsumerCrash(w)), CallbackSteps(w, handlerOk(m), writeUp));
            var (expected, _) := Executed(Queues(q.published, q.processing, q.dead, map[]), handlerOk, writeUp);
            && after.published == expected.published && after.processing == expected.processing
            && after.dead == expected.dead
            && after.consumers == q.consumers - {w} && SameBesides(q, after)
            && after.popped == q.popped + [m] && after.removed == q.removed + {m}
            && after.handled == q.handled + (if handlerOk(m) then {m} else {})
            && after.dropped == q.dropped + (if handlerOk(m) || writeUp then {} else {m})
  {
    hide RemoveAll, DoAll, Do, CallbackSteps;
    CrashEffect(q, w);
    RemovePushed(q.processing, q.published[|q.published| - 1]);
    CallbackRun(Do(q, ConsumerCrash(w)), w, handlerOk(q.published[|q.published| - 1]), writeUp);
  }

  lemma CallbackRun(q: Queue<Message>, w: nat, ok: bool, writeUp: bool)
    requires w !in q.consumers && q.published != []
    ensures var n := |q.published|;
            var m := q.published[n - 1];
            DoAll(q, CallbackSteps(w, ok, writeUp))
            == q.(published := q.published[..n - 1], processing := RemoveAll([m] + q.processing, m),
                  popped := q.popped + [m], dead := (if !ok && writeUp then [m] else []) + q.dead,
                  handled := q.handled + (if ok then {m} else {}),
                  dropped := q.dropped + (if ok || writeUp then {} else {m}), removed := q.removed + {m})
  {
    hide RemoveAll, DoAll, Do;
    var m := q.published[|q.published| - 1];
    if ok {
      DoThree(q, Pop(w), HandlerReturns(w), Remove(w));
      HandledRun(q, w, m);
    } else {
      DoFour(q, Pop(w), HandlerThrows(w), if writeUp then DeadLetter(w) else DeadLetterThrows(w), Remove(w));
      ThrownRun(q, w, m, writeUp);
    }
  }

  lemma HandledRun(q: Queue<Message>, w: nat, m: Message)
    requires w !in q.consumers && q.published != [] && m == q.published[|q.published| - 1]
    ensures Do(Do(Do(q, Pop(w)), HandlerReturns(w)), Remove(w))
         == q.(published := q.published[..|q.published| - 1], processing := RemoveAll([m] + q.processing, m),
               popped := q.popped + [m], handled := q.handled + {m}, removed := q.removed + {m})
  {
    hide Do, RemoveAll;
    var q1 := PopEffect(q, w, m);
    var q2 := ReturnEffect(q1, w, m);
    RemoveEffect(q2, w, m);
    ComesAndGoes(q.consumers, w, Handling(m), Finishing(m));
  }

  lemma ThrownRun(q: Queue<Message>, w: nat, m: Message, writeUp: bool)
    requires w !in q.consumers && q.published != [] && m == q.published[|q.published| - 1]
    ensures var write := if writeUp then DeadLetter(w) else DeadLetterThrows(w);
            Do(Do(Do(Do(q, Pop(w)), HandlerThrows(w)), write), Remove(w))
            == q.(published := q.published[..|q.published| - 1], processing := RemoveAll([m] + q.processing, m),
                  popped := q.popped + [m], dead := (if writeUp then [m] else []) + q.dead,
                  dropped := q.dropped + (if writeUp then {} else {m}), removed := q.removed + {m})
  {
    hide Do, RemoveAll;
    var q1 := PopEffect(q, w, m);
    var q2 := ThrowEffect(q1, w, m, writeUp);
    RemoveEffect(q2, w, m);
    ComesAndGoes(q.consumers, w, Handling(m), Finishing(m));
  }

  lemma ComesAndGoes<T>(processes: map<nat, T>, w: nat, x: T, y: T)
    requires w !in processes
    ensures processes[w := x][w := y] - {w} == processes && processes[w := x] - {w} == processes
  {
  }

  lemma CrashEffect(q: Queue<Message>, w: nat)
    ensures Do(q, ConsumerCrash(w)) == q.(consumers := q.consumers - {w})
  {
    assert w !in q.consumers ==> q.consumers - {w} == q.consumers;
  }

  lemma ReturnEffect(q: Queue<Message>, w: nat, m: Message) returns (q1: Queue<Message>)
    requires w in q.consumers && q.consumers[w] == Handling(m)
    ensures q1 == Do(q, HandlerReturns(w))
        == q.(consumers := q.consumers[w := Finishing(m)], handled := q.handled + {m})
  {
    q1 := Do(q, HandlerReturns(w));
  }

  lemma ThrowEffect(q: Queue<Message>, w: nat, m: Message, writeUp: bool) returns (q2: Queue<Message>)
    requires w in q.consumers && q.consumers[w] == Handling(m)
    ensures q2 == Do(Do(q, HandlerThrows(w)), if writeUp then DeadLetter(w) else DeadLetterThrows(w))
    ensures q2 == q.(consumers := q.consumers[w := Finishing(m)], dead := (if writeUp then [m] else []) + q.dead,
                     dropped := q.dropped + if writeUp then {} else {m})
  {
    var q1 := Do(q, HandlerThrows(w));
    assert q1 == q.(consumers := q.consumers[w := Failing(m)]);
    q2 := Do(q1, if writeUp then DeadLetter(w) else DeadLetterThrows(w));
    assert q1.consumers[w := Finishing(m)] == q.consumers[w := Finishing(m)];
  }

  lemma PopEffect(q: Queue<Message>, w: nat, m: Message) returns (q1: Queue<Message>)
    requires w !in q.consumers && q.published != [] && m == q.published[|q.published| - 1]
    ensures q1 == Do(q, Pop(w))
        == q.(published := q.published[..|q.published| - 1], processing := [m] + q.processing,
              consumers := q.consumers[w := Handling(m)], popped := q.popped + [m])
  {
    q1 := Do(q, Pop(w));
  }

  lemma RemoveEffect(q: Queue<Message>, w: nat, m: Message)
    requires w in q.consumers && q.consumers[w] == Finishing(m)
    ensures Do(q, Remove(w))
         == q.(consumers := q.consumers - {w}, processing := RemoveAll(q.processing, m), removed := q.removed + {m})
  {
  }

  /** A push to the queue of application `s` is what the transaction of a publish does to its list. */
  lemma PushIsPublish(q: Queue<Message>, m: Message, lists: map<string, seq<Message>>, members: seq<string>, s: string)
    requires P.ListIn(lists, s) == q.published && NoDup(members) && s in members
    ensures Do(q, Push(m)).published == P.ListIn(P.PushAll(lists, members, m), s)
    ensures Do(q, Push(m)).pushed == q.pushed + [m]
  {
    P.PushAllPushesOnce(lists, members, m, s);
  }

  lemma DoThree(q: Queue<Message>, x: Step<Message>, y: Step<Message>, z: Step<Message>)
    ensures DoAll(q, [x, y, z]) == Do(Do(Do(q, x), y), z)
  {
    hide Do;
    assert [x, y, z][1..] == [y, z] && [y, z][1..] == [z] && [z][1..] == [];
    assert DoAll(Do(Do(q, x), y), [z]) == Do(Do(Do(q, x), y), z);
  }

  lemma DoFour(q: Queue<Message>, x: Step<Message>, y: Step<Message>, z: Step<Message>, u: Step<Message>)
    ensures DoAll(q, [x, y, z, u]) == Do(Do(Do(Do(q, x), y), z), u)
  {
    hide Do;
    assert [x, y, z, u][1..] == [y, z, u];
    DoThree(Do(q, x), y, z, u);
  }

  /** The steps of one turn of the retry loop. */
  function TurnSteps(r: nat, index: nat, verdict: R.Verdict, ok: bool): seq<Step<Message>> {
    match verdict
    case Skip => [Examine(r, index), RetryEnds(r)]
    case Expire => [Examine(r, index), Step.Expire(r)]
    case Retry => if ok then [Examine(r, index), RetryReturns(r), DeleteDeadLetter(r)]
        else [Examine(r, index), RetryEnds(r)]
  }

  lemma DoTwo(q: Queue<Message>, x: Step<Message>, y: Step<Message>)
    ensures DoAll(q, [x, y]) == Do(Do(q, x), y)
  {
    hide Do;
    assert [x, y][1..] == [y] && [y][1..] == [];
    assert DoAll(Do(q, x), [y]) == Do(Do(q, x), y);
  }

  /** A turn of the retry loop on the dead letter at `index`, after whatever the pass was at has ended. */
  lemma {:induction false} TurnIsARun(q: Queue<Message>, r: nat, index: nat, policy: R.Policy, env: R.Env,
                                      data: map<string, RetryData>)
    requires index < |q.dead|
    ensures var m := q.dead[index];
            var verdict := R.Judge(policy, data, m, env.checkedAt(m));
            var after := DoAll(Do(q, RetryEnds(r)), TurnSteps(r, index, verdict, env.handlerOk(m)));
            var expected := R.TurnOf(policy, env, Queues(q.published, q.processing, q.dead, data), m);
            && after.published == expected.published && after.processing == expected.processing
            && after.dead == expected.dead
            && after.retriers == q.retriers - {r} && after.consumers == q.consumers && after.movers == q.movers
            && after.handled == q.handled + (if verdict == R.Retry && env.handlerOk(m) then {m} else {})
            && after.expired == q.expired + (if verdict == R.Expire then {m} else {})
            && after.dropped == q.dropped && after.removed == q.removed && after.popped == q.popped
  {
    var m := q.dead[index];
    var verdict := R.Judge(policy, data, m, env.checkedAt(m));
    hide R.Judge, RemoveAll, DoAll, Do, TurnSteps;
    EndEffect(q, r);
    TurnRun(Do(q, RetryEnds(r)), r, index, verdict, env.handlerOk(m));
  }

  lemma TurnRun(q: Queue<Message>, r: nat, index: nat, verdict: R.Verdict, ok: bool)
    requires r !in q.retriers && index < |q.dead|
    ensures var m := q.dead[index];
            var gone := verdict == R.Expire || (verdict == R.Retry && ok);
            DoAll(q, TurnSteps(r, index, verdict, ok))
            == q.(dead := if gone then RemoveAll(q.dead, m) else q.dead,
                  handled := q.handled + (if verdict == R.Retry && ok then {m} else {}),
                  expired := q.expired + (if verdict == R.Expire then {m} else {}))
  {
    hide RemoveAll, DoAll, Do;
    var m := q.dead[index];
    var q1 := ExamineEffect(q, r, index);
    EndEffect(q1, r);
    ComesAndGoes(q.retriers, r, Examining(m), Examining(m));
    match verdict
    case Skip =>
      DoTwo(q, Examine(r, index), RetryEnds(r));
    case Expire =>
      DoTwo(q, Examine(r, index), Step.Expire(r));
      ExpireEffect(q1, r, m);
    case Retry =>
      if ok {
        DoThree(q, Examine(r, index), RetryReturns(r), DeleteDeadLetter(r));
        DeleteEffect(q1, r, m);
      } else {
        DoTwo(q, Examine(r, index), RetryEnds(r));
      }
  }

  lemma ExamineEffect(q: Queue<Message>, r: nat, index: nat) returns (q1: Queue<Message>)
    requires r !in q.retriers && index < |q.dead|
    ensures q1 == Do(q, Examine(r, index)) == q.(retriers := q.retriers[r := Examining(q.dead[index])])
  {
    q1 := Do(q, Examine(r, index));
  }

  lemma EndEffect(q: Queue<Message>, r: nat)
    ensures Do(q, RetryEnds(r)) == q.(retriers := q.retriers - {r})
  {
    assert r !in q.retriers ==> q.retriers - {r} == q.retriers;
  }

  lemma ExpireEffect(q: Queue<Message>, r: nat, m: Message)
    requires r in q.retriers && q.retriers[r] == Examining(m)
    ensures Do(q, Step.Expire(r))
         == q.(retriers := q.retriers - {r}, dead := RemoveAll(q.dead, m), expired := q.expired + {m})
  {
  }

  lemma DeleteEffect(q: Queue<Message>, r: nat, m: Message)
    requires r in q.retriers && q.retriers[r] == Examining(m)
    ensures Do(Do(q, RetryReturns(r)), DeleteDeadLetter(r))
         == q.(retriers := q.retriers - {r}, dead := RemoveAll(q.dead, m), handled := q.handled + {m})
  {
    var q1 := Do(q, RetryReturns(r));
    assert q1 == q.(retriers := q.retriers[r := Deleting(m)], handled := q.handled + {m});
    assert q1.retriers - {r} == q.retriers - {r};
  }

  function MoveSteps(v: nat, window: seq<Message>, before: int): seq<Step<Message>> {
    if |window| == 0 then [] else [MoveNext(v, window[0].timeStamp < before)] + MoveSteps(v, window[1..], before)
  }

  lemma {:induction false} MoveEachIsARun(q: Queue<Message>, v: nat, window: seq<Message>, before: int,
                                          data: map<string, RetryData>)
    requires v in q.movers && q.movers[v] == window
    ensures var after := DoAll(q, MoveSteps(v, window, before));
            var expected := R.MoveEach(Queues(q.published, q.processing, q.dead, data), window, before);
            && after.published == expected.published && after.processing == expected.processing
            && after.dead == expected.dead
            && after.movers == q.movers[v := []] && after.consumers == q.consumers && after.retriers == q.retriers
    decreases |window|
  {
    if |window| != 0 {
      var step := MoveNext(v, window[0].timeStamp < before);
      var rest := MoveSteps(v, window[1..], before);
      assert MoveSteps(v, window, before) == [step] + rest && ([step] + rest)[1..] == rest;
      hide RemoveLast;
      MoveEachIsARun(Do(q, step), v, window[1..], before, data);
    }
  }

  /** The mover of stale entries, after a crash of its last run if that was at work: the window is read once, then
      moved entry by entry. */
  lemma {:induction false} MoverIsARun(q: Queue<Message>, v: nat, now: int, data: map<string, RetryData>)
    ensures var window := Window(q.processing, R.WINDOW);
            var after := DoAll(Do(q, MoverCrash(v)), [ReadWindow(v, R.WINDOW)]
                + MoveSteps(v, window, now - R.STALE_TICKS));
            var expected := R.MovedStale(Queues(q.published, q.processing, q.dead, data), now);
            && after.published == expected.published && after.processing == expected.processing
            && after.dead == expected.dead
            && after.movers == q.movers[v := []] && after.consumers == q.consumers && after.retriers == q.retriers
  {
    hide RemoveLast, Window, R.MoveEach, MoveSteps, Do;
    var q0, step := Do(q, MoverCrash(v)), ReadWindow(v, R.WINDOW);
    var window := Window(q.processing, R.WINDOW);
    var rest := MoveSteps(v, window, now - R.STALE_TICKS);
    assert ([step] + rest)[1..] == rest;
    ReadEffect(q, v, R.WINDOW);
    MoveEachIsARun(Do(q0, step), v, window, now - R.STALE_TICKS, data);
  }

  lemma ReadEffect(q: Queue<Message>, v: nat, count: nat)
    ensures var q' := Do(Do(q, MoverCrash(v)), ReadWindow(v, count));
            q' == q.(movers := q.movers[v := Window(q.processing, count)])
  {
    assert (q.movers - {v})[v := Window(q.processing, count)] == q.movers[v := Window(q.processing, count)];
  }
}
