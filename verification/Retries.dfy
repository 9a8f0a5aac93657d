/** Retrying the dead letters: backoff, expiry, and the pass over a list that it deletes from. */
module Retries {
  import opened Arithmetic
  import opened RedisLists
  import opened MessageQueues

  const TICKS_PER_HOUR := 60 * TICKS_PER_MINUTE

  /** TimeToLiveHours, RetryIntervalMinutes and RetryIntervalMaxMinutes. */
  datatype Policy = Policy(timeToLiveHours: int, intervalMinutes: int, maxMinutes: int)

  /** The clock and the handlers during one pass, message by message. */
  datatype Env = Env(checkedAt: Message -> int, handlerOk: Message -> bool, failedAt: Message -> int)

  function Min(a: int, b: int): int {
    if a <= b then a else b
  }

  /** Minutes to wait after `count` failed retries. */
  function Interval(policy: Policy, count: nat): int {
    Min(Pow2(count) * policy.intervalMinutes, policy.maxMinutes)
  }

  predicate IntervalPassed(policy: Policy, d: RetryData, now: int) {
    d.lastRetry.Some? && now > d.lastRetry.value + Interval(policy, d.count) * TICKS_PER_MINUTE
  }

  predicate BackedOff(policy: Policy, d: RetryData, now: int) {
    !IntervalPassed(policy, d, now) && d.count > 0
  }

  predicate TooOld(policy: Policy, m: Message, now: int) {
    policy.timeToLiveHours != 0 && now > m.timeStamp + policy.timeToLiveHours * TICKS_PER_HOUR
  }

  datatype Verdict = Skip | Expire | Retry

  function Judge(policy: Policy, data: map<string, RetryData>, m: Message, now: int): Verdict {
    if BackedOff(policy, RetryDataOf(data, m.id), now) then Skip
    else if TooOld(policy, m, now) then Expire
    else Retry
  }

  // ---- stale processing entries -----------------------------------------------------------

  const WINDOW := 10
  const STALE_TICKS := 5 * TICKS_PER_MINUTE

  /** An entry from before `before` goes to the dead letters. */
  function Moved(q: Queues, m: Message, before: int): Queues {
    if m.timeStamp < before then q.(dead := [m] + q.dead, processing := RemoveLast(q.processing, m)) else q
  }

  function MoveEach(q: Queues, window: seq<Message>, before: int): Queues
    decreases |window|
  {
    if |window| == 0 then q
    else
      var m := window[0];
      var next := Moved(q, m, before);
      MoveEach(next, window[1..], before)
  }

  lemma MoveEachFrom(q: Queues, window: seq<Message>, i: nat, before: int)
    requires i < |window|
    ensures MoveEach(q, window[i..], before) == MoveEach(Moved(q, window[i], before), window[i + 1..], before)
  {
    assert window[i..][1..] == window[i + 1..];
  }

  lemma NoMoreMoves(q: Queues, window: seq<Message>, before: int)
    requires window == []
    ensures MoveEach(q, window, before) == q
  {
  }

  /** The queue after the mover, undisturbed. */
  function MovedStale(q: Queues, now: int): Queues {
    MoveEach(q, Window(q.processing, WINDOW), now - STALE_TICKS)
  }

  lemma {:induction false} RemoveLastTakesOne(s: seq<Message>, x: Message)
    requires x in s
    ensures multiset(RemoveLast(s, x)) == multiset(s) - multiset{x}
  {
    var front, last := s[..|s| - 1], s[|s| - 1];
    assert s == front + [last];
    if last != x {
      RemoveLastTakesOne(front, x);
    }
  }

  /** One entry moved. */
  lemma MoveConserves(q: Queues, m: Message)
    requires m in q.processing
    ensures multiset(RemoveLast(q.processing, m)) + multiset([m] + q.dead) == multiset(q.processing) + multiset(q.dead)
  {
    RemoveLastTakesOne(q.processing, m);
  }

  lemma RestFits(window: seq<Message>, processing: seq<Message>)
    requires |window| != 0 && multiset(window) <= multiset(processing)
    ensures window[0] in processing
    ensures multiset(window[1..]) <= multiset(processing) - multiset{window[0]}
        && multiset(window[1..]) <= multiset(processing)
  {
    assert window == [window[0]] + window[1..];
    assert window[0] in multiset(window);
  }

  lemma {:induction false} MoveEachConserves(q: Queues, window: seq<Message>, before: int)
    requires multiset(window) <= multiset(q.processing)
    ensures var q' := MoveEach(q, window, before);
            multiset(q'.processing) + multiset(q'.dead) == multiset(q.processing) + multiset(q.dead)
    decreases |window|
  {
    if |window| != 0 {
      var m := window[0];
      RestFits(window, q.processing);
      if m.timeStamp < before {
        MoveConserves(q, m);
        RemoveLastTakesOne(q.processing, m);
      }
      hide RemoveLast;
      var next := Moved(q, m, before);
      MoveEachConserves(next, window[1..], before);
    }
  }

  /** The mover neither loses nor duplicates an entry. */
  lemma {:induction false} MoverConserves(q: Queues, now: int)
    ensures var q' := MovedStale(q, now);
            multiset(q'.processing) + multiset(q'.dead) == multiset(q.processing) + multiset(q.dead)
            && q'.published == q.published && q'.retryData == q.retryData
  {
    var window := Window(q.processing, WINDOW);
    assert q.processing == q.processing[..|q.processing| - |window|] + window;
    MoveEachConserves(q, window, now - STALE_TICKS);
    MoveEachFrame(q, window, now - STALE_TICKS);
  }

  lemma {:induction false} MoveEachFrame(q: Queues, window: seq<Message>, before: int)
    ensures MoveEach(q, window, before).published == q.published && MoveEach(q, window, before).retryData == q.retryData
    decreases |window|
  {
    if |window| != 0 {
      var m := window[0];
      MoveEachFrame(Moved(q, m, before), window[1..], before);
    }
  }

  function Older(s: seq<Message>, before: int): set<Message> {
    set m | m in s && m.timeStamp < before
  }

  function NotOlder(s: seq<Message>, before: int): set<Message> {
    set m | m in s && m.timeStamp >= before
  }

  lemma OlderOfCons(m: Message, rest: seq<Message>, before: int)
    requires m !in rest
    ensures Older([m] + rest, before) == if m.timeStamp < before then {m} + Older(rest, before) else Older(rest, before)
    ensures Without([m] + rest, NotOlder([m] + rest, before))
            == (if m.timeStamp < before then [m] else []) + Without(rest, NotOlder(rest, before))
  {
    assert ([m] + rest)[1..] == rest;
    WithoutSame(rest, NotOlder([m] + rest, before), NotOlder(rest, before));
  }

  /** Moving the first entry of a window and then the others' is moving the window's. */
  lemma MovedThenRest(q: Queues, m: Message, rest: seq<Message>, before: int)
    requires NoDup(q.processing) && m !in rest
    ensures var next := Moved(q, m, before);
            && NoDup(next.processing)
            && Without(next.processing, Older(rest, before)) == Without(q.processing, Older([m] + rest, before))
            && Reverse(Without(rest, NotOlder(rest, before))) + next.dead
               == Reverse(Without([m] + rest, NotOlder([m] + rest, before))) + q.dead
  {
    hide NoDup, Reverse, Without, Older, NotOlder, RemoveLast;
    OlderOfCons(m, rest, before);
    if m.timeStamp < before {
      RemoveLastIsRemoveAll(q.processing, m);
      NoDupWithout(q.processing, {m});
      WithoutTwice(q.processing, {m}, Older(rest, before));
      ReverseOfCons(m, Without(rest, NotOlder(rest, before)), q.dead);
    } else {
      assert [] + Without(rest, NotOlder(rest, before)) == Without(rest, NotOlder(rest, before));
    }
  }

  lemma ReverseOfCons(m: Message, rest: seq<Message>, dead: seq<Message>)
    ensures Reverse([m] + rest) + dead == Reverse(rest) + ([m] + dead)
  {
    assert ([m] + rest)[1..] == rest;
  }

  lemma MoveEachStep(q: Queues, window: seq<Message>, before: int)
    requires |window| > 0 && NoDup(window) && forall m :: m in window ==> m in q.processing
    ensures MoveEach(q, window, before) == MoveEach(Moved(q, window[0], before), window[1..], before)
    ensures window == [window[0]] + window[1..] && window[0] !in window[1..] && NoDup(window[1..])
    ensures forall m :: m in window[1..] ==> m in Moved(q, window[0], before).processing
  {
  }

  /** Which entries of a window of distinct ones move, and in which order. */
  lemma {:induction false} MoveEachMoves(q: Queues, window: seq<Message>, before: int)
    requires NoDup(q.processing) && NoDup(window) && forall m :: m in window ==> m in q.processing
    ensures var q' := MoveEach(q, window, before);
            && q'.processing == Without(q.processing, Older(window, before))
            && q'.dead == Reverse(Without(window, NotOlder(window, before))) + q.dead
    decreases |window|
  {
    if |window| == 0 {
      WithoutNothing(q.processing, Older(window, before));
    } else {
      hide NoDup, Reverse, Without, Older, NotOlder, Moved, MoveEach;
      MoveEachStep(q, window, before);
      MovedThenRest(q, window[0], window[1..], before);
      MoveEachMoves(Moved(q, window[0], before), window[1..], before);
    }
  }

  /** With distinct entries: of the last ten those older than five minutes leave the processing list, the others keep
      their order, and they come to lie on the dead letters with the newest of them leftmost. */
  lemma {:induction false} MoverMovesStale(q: Queues, now: int)
    requires NoDup(q.processing)
    ensures var q' := MovedStale(q, now);
            var n := |q.processing|;
            var last := if n <= 10 then q.processing else q.processing[n - 10..];
            var stale := set m | m in last && m.timeStamp < now - 3_000_000_000;
            && q'.processing == Without(q.processing, stale)
            && q'.dead == Reverse(Without(last, set m | m in last && m.timeStamp >= now - 3_000_000_000)) + q.dead
  {
    hide NoDup, Reverse, Without, RemoveLast, MoveEach, Older, NotOlder, Window;
    LastTen(q.processing);
    var last := Window(q.processing, WINDOW);
    MoveEachMoves(q, last, now - STALE_TICKS);
    OlderAre(last, now - STALE_TICKS);
  }

  lemma LastTen(s: seq<Message>)
    requires NoDup(s)
    ensures Window(s, WINDOW) == if |s| <= 10 then s else s[|s| - 10..]
    ensures NoDup(Window(s, WINDOW)) && forall m :: m in Window(s, WINDOW) ==> m in s
  {
  }

  lemma OlderAre(s: seq<Message>, before: int)
    ensures Older(s, before) == set m | m in s && m.timeStamp < before
    ensures NotOlder(s, before) == set m | m in s && m.timeStamp >= before
  {
  }

  // ---- the pass on values -----------------------------------------------------------------

  /** What a pass over a list comes to: the letters left, the retry hashes left, the letters it looked at in
      order, and among those the ones whose handler returned and the ones that expired. */
  datatype Pass = Pass(left: seq<Message>, data: map<string, RetryData>, examined: seq<Message>,
                       succeeded: seq<Message>, expired: seq<Message>)

  /** An expired letter is deleted without being counted, so the letter that moves into its place is passed over. */
  function Walk(policy: Policy, env: Env, list: seq<Message>, data: map<string, RetryData>): Pass
    decreases |list|
  {
    if |list| == 0 then Pass([], data, [], [], [])
    else
      var m, rest := list[0], list[1..];
      match Judge(policy, data, m, env.checkedAt(m))
      case Skip =>
        var p := Walk(policy, env, rest, data);
        p.(left := [m] + p.left, examined := [m] + p.examined)
      case Expire =>
        if |rest| == 0 then Pass([], data - {m.id}, [m], [], [m])
        else
          var p := Walk(policy, env, rest[1..], data - {m.id});
          p.(left := [rest[0]] + p.left, examined := [m] + p.examined, expired := [m] + p.expired)
      case Retry =>
        if env.handlerOk(m) then
          var p := Walk(policy, env, rest, data - {m.id});
          p.(examined := [m] + p.examined, succeeded := [m] + p.succeeded)
        else
          var p := Walk(policy, env, rest, data[m.id := Bumped(RetryDataOf(data, m.id), env.failedAt(m))]);
          p.(left := [m] + p.left, examined := [m] + p.examined)
  }

  /** The queue after one letter was looked at. */
  function TurnOf(policy: Policy, env: Env, q: Queues, m: Message): Queues {
    match Judge(policy, q.retryData, m, env.checkedAt(m))
    case Skip => q
    case Expire => q.(dead := RemoveAll(q.dead, m), retryData := q.retryData - {m.id})
    case Retry =>
      if env.handlerOk(m) then q.(dead := RemoveAll(q.dead, m), retryData := q.retryData - {m.id})
      else q.(retryData := q.retryData[m.id := Bumped(RetryDataOf(q.retryData, m.id), env.failedAt(m))])
  }

  /** The queue after the letters `ms` were looked at one after the other. */
  function Turns(policy: Policy, env: Env, q: Queues, ms: seq<Message>): Queues {
    if |ms| == 0 then q else TurnOf(policy, env, Turns(policy, env, q, ms[..|ms| - 1]), ms[|ms| - 1])
  }

  lemma {:induction false} RemoveAllShrinks(s: seq<Message>, x: Message)
    ensures |RemoveAll(s, x)| <= |s| && (x in s ==> |RemoveAll(s, x)| < |s|)
  {
    if |s| != 0 {
      RemoveAllShrinks(s[1..], x);
    }
  }

  /** A pass stays at an index whose letter was processed and moves on otherwise. */
  function NextIndex(policy: Policy, env: Env, q: Queues, at: nat): nat
    requires at < |q.dead|
  {
    var m := q.dead[at];
    if Judge(policy, q.retryData, m, env.checkedAt(m)) == Retry && env.handlerOk(m) then at else at + 1
  }

  /** The letters a pass looks at from index `at` on, to the end of the list as it is by then. */
  function Looked(policy: Policy, env: Env, q: Queues, at: nat): seq<Message>
    decreases |q.dead| - at
  {
    if at >= |q.dead| then []
    else
      RemoveAllShrinks(q.dead, q.dead[at]);
      [q.dead[at]] + Looked(policy, env, TurnOf(policy, env, q, q.dead[at]), NextIndex(policy, env, q, at))
  }

  lemma LookedStep(policy: Policy, env: Env, q: Queues, at: nat)
    requires at < |q.dead|
    ensures var q', at' := TurnOf(policy, env, q, q.dead[at]), NextIndex(policy, env, q, at);
            && Looked(policy, env, q, at) == [q.dead[at]] + Looked(policy, env, q', at')
            && |q'.dead| - at' < |q.dead| - at && at <= at' <= at + 1 && |q'.dead| <= |q.dead|
  {
    RemoveAllShrinks(q.dead, q.dead[at]);
  }

  /** A pass that has looked at `examined` and goes on at index `at`. */
  ghost predicate UpTo(policy: Policy, env: Env, start: Queues, q: Queues, at: int, examined: seq<Message>) {
    && at >= 0 && q == Turns(policy, env, start, examined)
    && Looked(policy, env, start, 0) == examined + Looked(policy, env, q, at)
  }

  lemma NothingYet(policy: Policy, env: Env, start: Queues)
    ensures UpTo(policy, env, start, start, 0, [])
  {
    assert [] + Looked(policy, env, start, 0) == Looked(policy, env, start, 0);
  }

  lemma OneMoreLooked(policy: Policy, env: Env, start: Queues, q: Queues, at: nat, examined: seq<Message>)
    requires UpTo(policy, env, start, q, at, examined) && at < |q.dead|
    ensures var m := q.dead[at];
            var q', at' := TurnOf(policy, env, q, m), NextIndex(policy, env, q, at);
            && UpTo(policy, env, start, q', at', examined + [m])
            && |q'.dead| - at' < |q.dead| - at && |q'.dead| <= |q.dead|
  {
    hide Looked, Turns, TurnOf, NextIndex;
    LookedStep(policy, env, q, at);
    TurnsLast(policy, env, start, examined, q.dead[at]);
    var rest := Looked(policy, env, TurnOf(policy, env, q, q.dead[at]), NextIndex(policy, env, q, at));
    assert examined + ([q.dead[at]] + rest) == examined + [q.dead[at]] + rest;
  }

  lemma PastTheEnd(policy: Policy, env: Env, start: Queues, q: Queues, at: nat, examined: seq<Message>)
    requires UpTo(policy, env, start, q, at, examined) && at >= |q.dead|
    ensures examined == Looked(policy, env, start, 0) && q == Turns(policy, env, start, examined)
    ensures UpTo(policy, env, start, q, at + 1, examined)
  {
    assert Looked(policy, env, q, at) == [] && Looked(policy, env, q, at + 1) == [];
  }

  lemma TurnsLast(policy: Policy, env: Env, q: Queues, ms: seq<Message>, m: Message)
    ensures Turns(policy, env, q, ms + [m]) == TurnOf(policy, env, Turns(policy, env, q, ms), m)
  {
    assert (ms + [m])[..|ms|] == ms;
  }

  // ---- the pass as the code does it -------------------------------------------------------

  class RetryableSubscription {
    const repository: MessageQueueRepository
    const policy: Policy

    constructor (repository: MessageQueueRepository, policy: Policy)
      ensures this.repository == repository && this.policy == policy
    {
      this.repository, this.policy := repository, policy;
    }

    /** Expiry deletes the letter and answers no. */
    method ShouldRetry(m: Message, now: int) returns (r: bool)
      modifies repository
      ensures r <==> Judge(policy, old(repository.retryData), m, now) == Retry
      ensures repository.Value() ==
              if Judge(policy, old(repository.retryData), m, now) == Expire
              then old(repository.Value()).(dead := RemoveAll(old(repository.dead), m),
                  retryData := old(repository.retryData) - {m.id})
              else old(repository.Value())
      ensures var d := old(repository.retryData);
              var backedOff := m.id in d && d[m.id].count > 0
                               && (d[m.id].lastRetry.None?
                                   || var wait := Pow2(d[m.id].count) * policy.intervalMinutes;
                                      now <= d[m.id].lastRetry.value
                                             + (if wait <= policy.maxMinutes then wait else policy.maxMinutes)
                                               * 600_000_000);
              var tooOld := policy.timeToLiveHours != 0
                            && now > m.timeStamp + policy.timeToLiveHours * 36_000_000_000;
              && (r <==> !backedOff && !tooOld)
              && repository.published == old(repository.published)
                 && repository.processing == old(repository.processing)
              && repository.dead == (if !backedOff && tooOld then Without(old(repository.dead), {m})
                                     else old(repository.dead))
              && repository.retryData == if !backedOff && tooOld then d - {m.id} else d
    {
      var d := RetryDataOf(repository.retryData, m.id);
      var intervalPassed := d.lastRetry.Some? && now > d.lastRetry.value + Interval(policy, d.count) * TICKS_PER_MINUTE;
      if !intervalPassed && d.count > 0 {
        return false;
      }
      if policy.timeToLiveHours != 0 && now > m.timeStamp + policy.timeToLiveHours * TICKS_PER_HOUR {
        repository.DeleteFromDeadLetterQueue(m);
        return false;
      }
      r := true;
    }

    /** One turn of the loop: the answer says whether the letter counts as processed. */
    method RetryOne(m: Message, env: Env) returns (processed: bool)
      modifies repository
      ensures processed <==> Judge(policy, old(repository.retryData), m, env.checkedAt(m)) == Retry && env.handlerOk(m)
      ensures repository.Value() == TurnOf(policy, env, old(repository.Value()), m)
    {
      var should := ShouldRetry(m, env.checkedAt(m));
      if should {
        if env.handlerOk(m) {
          repository.DeleteFromDeadLetterQueue(m);
          return true;
        }
        repository.UpdateRetryData(m, env.failedAt(m));
      }
      processed := false;
    }

    /** Moves the old ones among the ten oldest processing entries to the dead letters. */
    method MoveStaleProcessingEventsToDeadLetters(now: int)
      modifies repository
      ensures repository.Value() == MovedStale(old(repository.Value()), now)
      ensures NoDup(old(repository.processing)) ==>
                var n := |old(repository.processing)|;
                var last := if n <= 10 then old(repository.processing) else old(repository.processing)[n - 10..];
                var stale := set m | m in last && m.timeStamp < now - 3_000_000_000;
                && repository.processing == Without(old(repository.processing), stale)
                && repository.dead
                   == Reverse(Without(last, set m | m in last && m.timeStamp >= now - 3_000_000_000))
                      + old(repository.dead)
    {
      hide NoDup, Reverse, Without, RemoveLast, MoveEach;
      var window := Window(repository.processing, WINDOW);
      var i := 0;
      assert window[0..] == window;
      while i < |window|
        invariant 0 <= i <= |window|
        invariant MoveEach(repository.Value(), window[i..], now - STALE_TICKS)
               == MovedStale(old(repository.Value()), now)
      {
        MoveEachFrom(repository.Value(), window, i, now - STALE_TICKS);
        if window[i].timeStamp < now - STALE_TICKS {
          repository.MoveProcessingEventToDeadLetterQueue(window[i]);
        }
        i := i + 1;
      }
      NoMoreMoves(repository.Value(), window[i..], now - STALE_TICKS);
      if NoDup(old(repository.processing)) { MoverMovesStale(old(repository.Value()), now); }
    }

    /** Moves the stale entries over, then walks the dead letters. */
    method RetryAsync(now: int, env: Env) returns (examined: seq<Message>)
      modifies repository
      ensures var q := MovedStale(old(repository.Value()), now);
              && repository.Value() == Turns(policy, env, q, examined)
              && examined == Looked(policy, env, q, 0)
              && (NoDup(q.dead) ==>
                    var p := Walk(policy, env, q.dead, q.retryData);
                    repository.dead == p.left && repository.retryData == p.data && examined == p.examined)
    {
      MoveStaleProcessingEventsToDeadLetters(now);
      examined := RetryDeadLetters(env);
    }

    /** One turn of the loop, if there still is a letter at the index. */
    method RetryAt(index: nat, env: Env, ghost start: Queues, ghost examined: seq<Message>)
      returns (looked: seq<Message>, processed: bool)
      requires UpTo(policy, env, start, repository.Value(), index, examined)
      modifies repository
      ensures UpTo(policy, env, start, repository.Value(), if processed then index else index + 1, examined + looked)
      ensures |repository.dead| <= |old(repository.dead)| && (processed ==> |repository.dead| < |old(repository.dead)|)
    {
      hide Looked, Turns, TurnOf, Judge, UpTo, RemoveAll, RetryDataOf;
      var found := repository.GetDeadLetterMessage(index);
      if found.None? {
        PastTheEnd(policy, env, start, repository.Value(), index, examined);
        assert examined + [] == examined;
        return [], false;
      }
      looked := [found.value];
      ghost var q := repository.Value();
      OneMoreLooked(policy, env, start, q, index, examined);
      processed := RetryOne(found.value, env);
      assert NextIndex(policy, env, q, index) == if processed then index else index + 1;
    }

    /** Walks the dead letters by an index that it holds back for every letter processed. */
    method RetryDeadLetters(env: Env) returns (examined: seq<Message>)
      modifies repository
      ensures repository.Value() == Turns(policy, env, old(repository.Value()), examined)
      ensures examined == Looked(policy, env, old(repository.Value()), 0)
      ensures NoDup(old(repository.dead)) ==>
                var p := Walk(policy, env, old(repository.dead), old(repository.retryData));
                repository.dead == p.left && repository.retryData == p.data && examined == p.examined
    {
      var listLength := |repository.dead|;
      var eventsProcessed := 0;
      examined := [];
      ghost var start := repository.Value();
      hide Looked, Turns, TurnOf, NoDup, Judge, UpTo, Walk, RemoveAll, RetryDataOf;
      NothingYet(policy, env, start);
      var i := 0;
      while i < listLength
        invariant 0 <= eventsProcessed <= i <= listLength
        invariant |repository.dead| <= listLength - eventsProcessed
        invariant UpTo(policy, env, start, repository.Value(), i - eventsProcessed, examined)
      {
        var looked, processed := RetryAt(i - eventsProcessed, env, start, examined);
        examined := examined + looked;
        if processed {
          eventsProcessed := eventsProcessed + 1;
        }
        i := i + 1;
      }
      PastTheEnd(policy, env, start, repository.Value(), i - eventsProcessed, examined);
      if NoDup(old(repository.dead)) {
        PassIsWalk(policy, env, start);
      }
    }
  }

  // ---- the index-compensated loop is the walk ---------------------------------------------

  function Before(s: seq<Message>, at: nat): seq<Message> {
    if at <= |s| then s[..at] else s
  }

  function From(s: seq<Message>, at: nat): seq<Message> {
    if at <= |s| then s[at..] else []
  }

  lemma RemoveAt(s: seq<Message>, at: nat)
    requires NoDup(s) && at < |s|
    ensures RemoveAll(s, s[at]) == s[..at] + s[at + 1..] && NoDup(RemoveAll(s, s[at]))
  {
    var x := s[at];
    assert s == s[..at] + ([x] + s[at + 1..]);
    WithoutConcat(s[..at], [x] + s[at + 1..], {x});
    RemovePushed(s[at + 1..], x);
    WithoutNothing(s[..at], {x});
    WithoutNothing(s[at + 1..], {x});
    NoDupWithout(s, {x});
  }

  /** Where the index points after a turn that removed the letter or not, and moved on or not. */
  lemma ListStep(s: seq<Message>, at: nat, gone: bool, expired: bool)
    requires at < |s| && (expired ==> gone)
    ensures var s' := if gone then s[..at] + s[at + 1..] else s;
            var at' := if gone && !expired then at else at + 1;
            var rest := From(s, at);
            var kept := if expired then (if |rest| > 1 then [rest[1]] else []) else if gone then [] else [s[at]];
            && Before(s', at') == Before(s, at) + kept
            && From(s', at') == if expired && |rest| > 1 then rest[2..] else rest[1..]
  {
  }

  /** The pass over a list in terms of the pass over what one turn leaves to do. */
  lemma WalkStep(policy: Policy, env: Env, list: seq<Message>, data: map<string, RetryData>)
    requires |list| > 0
    ensures var m := list[0];
            var verdict := Judge(policy, data, m, env.checkedAt(m));
            var ok := verdict == Retry && env.handlerOk(m);
            var rest := if verdict == Expire && |list| > 1 then list[2..] else list[1..];
            var kept := if verdict == Expire then (if |list| > 1 then [list[1]] else []) else if ok then [] else [m];
            var data' := if verdict == Skip then data
                         else if verdict == Expire || ok then data - {m.id}
                         else data[m.id := Bumped(RetryDataOf(data, m.id), env.failedAt(m))];
            var p, next := Walk(policy, env, list, data), Walk(policy, env, rest, data');
            && p.left == kept + next.left && p.data == next.data && p.examined == [m] + next.examined
            && p.succeeded == (if ok then [m] else []) + next.succeeded
            && p.expired == (if verdict == Expire then [m] else []) + next.expired
  {
    assert |list| > 1 ==> list[1..][1..] == list[2..];
  }

  lemma {:induction false} TurnsFirst(policy: Policy, env: Env, q: Queues, m: Message, ms: seq<Message>)
    ensures Turns(policy, env, q, [m] + ms) == Turns(policy, env, TurnOf(policy, env, q, m), ms)
  {
    var all := [m] + ms;
    if |ms| == 0 {
      assert all[..0] == [] && all == [m];
    } else {
      hide TurnOf;
      assert all[..|all| - 1] == [m] + ms[..|ms| - 1];
      TurnsFirst(policy, env, q, m, ms[..|ms| - 1]);
    }
  }

  /** What one turn keeps before the next index, and what the walk over the rest has left to do. */
  lemma TurnIsWalkStep(policy: Policy, env: Env, q: Queues, at: nat) returns (kept: seq<Message>)
    requires NoDup(q.dead) && at < |q.dead|
    ensures var m := q.dead[at];
            var q', at' := TurnOf(policy, env, q, m), NextIndex(policy, env, q, at);
            var p := Walk(policy, env, From(q.dead, at), q.retryData);
            var next := Walk(policy, env, From(q'.dead, at'), q'.retryData);
            && NoDup(q'.dead) && Before(q'.dead, at') == Before(q.dead, at) + kept
            && p.left == kept + next.left && p.data == next.data && p.examined == [m] + next.examined
  {
    var m, rest := q.dead[at], From(q.dead, at);
    var verdict := Judge(policy, q.retryData, m, env.checkedAt(m));
    var gone := verdict == Expire || (verdict == Retry && env.handlerOk(m));
    kept := if verdict == Expire then (if |rest| > 1 then [rest[1]] else []) else if gone then [] else [m];
    var q' := TurnOf(policy, env, q, m);
    RemoveAt(q.dead, at);
    hide Judge, RemoveAll, NoDup;
    assert q'.dead == if gone then q.dead[..at] + q.dead[at + 1..] else q.dead;
    ListStep(q.dead, at, gone, verdict == Expire);
    WalkStep(policy, env, rest, q.retryData);
  }

  /** On a list without repetitions, looking from index `at` on comes to the walk over what lies there, and
      what lies before stays. */
  lemma {:induction false} LookedIsWalk(policy: Policy, env: Env, q: Queues, at: nat)
    requires NoDup(q.dead)
    ensures var p := Walk(policy, env, From(q.dead, at), q.retryData);
            var after := Turns(policy, env, q, Looked(policy, env, q, at));
            && Looked(policy, env, q, at) == p.examined
            && after.dead == Before(q.dead, at) + p.left && after.retryData == p.data
    decreases |q.dead| - at
  {
    if at < |q.dead| {
      var m := q.dead[at];
      var q', at' := TurnOf(policy, env, q, m), NextIndex(policy, env, q, at);
      LookedStep(policy, env, q, at);
      hide Walk, Looked, Turns, Before, From, NoDup, TurnOf, NextIndex;
      var kept := TurnIsWalkStep(policy, env, q, at);
      LookedIsWalk(policy, env, q', at');
      TurnsFirst(policy, env, q, m, Looked(policy, env, q', at'));
      var next := Walk(policy, env, From(q'.dead, at'), q'.retryData);
      assert Before(q.dead, at) + kept + next.left == Before(q.dead, at) + (kept + next.left);
    }
  }

  lemma PassIsWalk(policy: Policy, env: Env, q: Queues)
    requires NoDup(q.dead)
    ensures var p := Walk(policy, env, q.dead, q.retryData);
            var after := Turns(policy, env, q, Looked(policy, env, q, 0));
            Looked(policy, env, q, 0) == p.examined && after.dead == p.left && after.retryData == p.data
  {
    hide Looked, Turns, Walk, NoDup;
    LookedIsWalk(policy, env, q, 0);
    assert From(q.dead, 0) == q.dead && Before(q.dead, 0) == [];
  }

  // ---- what a pass comes to, with or without repetitions ----------------------------------

  /** Nothing is looked at that was not there, and nothing more often than there are letters. */
  lemma {:induction false} LookedAtMost(policy: Policy, env: Env, q: Queues, at: nat)
    ensures forall m :: m in Looked(policy, env, q, at) ==> m in q.dead
    ensures at <= |q.dead| ==> |Looked(policy, env, q, at)| <= |q.dead| - at
    decreases |q.dead| - at
  {
    if at < |q.dead| {
      LookedStep(policy, env, q, at);
      LookedAtMost(policy, env, TurnOf(policy, env, q, q.dead[at]), NextIndex(policy, env, q, at));
    }
  }

  /** A pass deletes, wherever they stand, letters it looked at whose handler returned or that were too old,
      and leaves the others in order. */
  lemma {:induction false} TurnsAccount(policy: Policy, env: Env, q: Queues, ms: seq<Message>)
    ensures var after := Turns(policy, env, q, ms);
            && after.published == q.published && after.processing == q.processing
            && (forall m :: m in after.dead ==> m in q.dead)
            && (forall m :: m in q.dead && m !in after.dead ==>
                  m in ms && (env.handlerOk(m) || TooOld(policy, m, env.checkedAt(m))))
            && after.dead == Without(q.dead, set m | m in q.dead && m !in after.dead)
  {
    if |ms| == 0 {
      WithoutNothing(q.dead, set m | m in q.dead && m !in q.dead);
    } else {
      var front, last := ms[..|ms| - 1], ms[|ms| - 1];
      TurnsAccount(policy, env, q, front);
      var before, after := Turns(policy, env, q, front), Turns(policy, env, q, ms);
      hide Turns, BackedOff;
      if after.dead != before.dead {
        var gone, more := (set m | m in q.dead && m !in before.dead), (set m | m in q.dead && m !in after.dead);
        WithoutTwice(q.dead, gone, {last});
        WithoutSame(q.dead, gone + {last}, more);
      }
    }
  }

  // ---- what a pass comes to ---------------------------------------------------------------

  lemma PrependNoDup(m: Message, s: seq<Message>)
    requires NoDup(s) && m !in s
    ensures NoDup([m] + s)
  {
  }

  /** No letter is examined twice, and none appears from nowhere. */
  lemma {:induction false} NoneTwice(policy: Policy, env: Env, list: seq<Message>, data: map<string, RetryData>)
    requires NoDup(list)
    ensures var p := Walk(policy, env, list, data);
            && NoDup(p.examined) && (forall m :: m in p.examined ==> m in list)
            && NoDup(p.left) && (forall m :: m in p.left ==> m in list)
    decreases |list|
  {
    if |list| != 0 {
      var m := list[0];
      var (rest, data') := Turn(policy, env, list, data);
      assert NoDup(rest) && m !in rest && (|list| > 1 && rest == list[2..] ==> list[1] !in rest);
      NoneTwice(policy, env, rest, data');
      WalkStep(policy, env, list, data);
      var next := Walk(policy, env, rest, data');
      hide Walk, Judge;
      PrependNoDup(m, next.examined);
      if m !in next.left { PrependNoDup(m, next.left); }
      if |list| > 1 && list[1] !in rest { PrependNoDup(list[1], next.left); }
    }
  }

  /** The list and retry hashes that one turn of a pass leaves to do. */
  function Turn(policy: Policy, env: Env, list: seq<Message>, data: map<string, RetryData>)
    : (r: (seq<Message>, map<string, RetryData>))
    requires |list| > 0
    ensures |r.0| < |list|
  {
    var m := list[0];
    match Judge(policy, data, m, env.checkedAt(m))
    case Skip => (list[1..], data)
    case Expire => (if |list| > 1 then list[2..] else list[1..], data - {m.id})
    case Retry =>
      (list[1..], if env.handlerOk(m) then data - {m.id}
          else data[m.id := Bumped(RetryDataOf(data, m.id), env.failedAt(m))])
  }

  /** At most as many letters go unexamined as expired, and every letter is accounted for: it is still there,
      or its handler returned, or it expired. */
  lemma {:induction false} UnexaminedAtMostExpired(policy: Policy, env: Env, list: seq<Message>,
                                                   data: map<string, RetryData>)
    ensures var p := Walk(policy, env, list, data);
            && |p.examined| <= |list| <= |p.examined| + |p.expired|
            && |list| == |p.left| + |p.succeeded| + |p.expired|
            && forall m :: m in list ==> m in p.left || m in p.succeeded || m in p.expired
    decreases |list|
  {
    if |list| != 0 {
      var (rest, data') := Turn(policy, env, list, data);
      UnexaminedAtMostExpired(policy, env, rest, data');
      WalkStep(policy, env, list, data);
      hide Walk;
    }
  }

  /** When nothing is past its time to live, every letter is examined exactly once, in order, and the list
      that is left is the original one without the successes, in order. */
  lemma {:induction false} WithoutExpiryAllExamined(policy: Policy, env: Env, list: seq<Message>,
                                                    data: map<string, RetryData>)
    requires NoDup(list) && forall m :: m in list ==> !TooOld(policy, m, env.checkedAt(m))
    ensures var p := Walk(policy, env, list, data);
            && p.examined == list && p.expired == []
            && (forall m :: m in p.succeeded ==> m in list)
            && p.left == Without(list, set m | m in p.succeeded)
    decreases |list|
  {
    if |list| != 0 {
      var m, rest := list[0], list[1..];
      var data' := Turn(policy, env, list, data).1;
      assert NoDup(rest) && m !in rest && list == [m] + rest;
      assert Judge(policy, data, m, env.checkedAt(m)) != Expire;
      WalkStep(policy, env, list, data);
      hide Judge, TooOld, Walk, NoDup;
      WithoutExpiryAllExamined(policy, env, rest, data');
      var p, next := Walk(policy, env, list, data), Walk(policy, env, rest, data');
      if p.succeeded == next.succeeded {
        LeftWithout(m, rest, next.succeeded, false);
      } else {
        LeftWithout(m, rest, next.succeeded, true);
      }
    }
  }

  /** A first letter that succeeded goes, one that did not stays. */
  lemma LeftWithout(m: Message, rest: seq<Message>, succeeded: seq<Message>, ok: bool)
    requires m !in rest && forall x :: x in succeeded ==> x in rest
    ensures var all := if ok then [m] + succeeded else succeeded;
            Without([m] + rest, set x | x in all)
            == (if ok then [] else [m]) + Without(rest, set x | x in succeeded)
  {
    var all := if ok then [m] + succeeded else succeeded;
    assert ([m] + rest)[1..] == rest;
    WithoutSame(rest, (set x | x in succeeded), (set x | x in all));
  }

  lemma {:induction false} WithoutSame(s: seq<Message>, xs: set<Message>, ys: set<Message>)
    requires forall m :: m in s ==> (m in xs <==> m in ys)
    ensures Without(s, xs) == Without(s, ys)
  {
    if |s| != 0 {
      WithoutSame(s[1..], xs, ys);
    }
  }

  ghost predicate DistinctIds(list: seq<Message>) {
    forall i, j :: 0 <= i < j < |list| ==> list[i].id != list[j].id
  }

  /** Whether letter `i` is past its time to live when its turn comes. */
  predicate ExpiresAt(policy: Policy, env: Env, list: seq<Message>, data: map<string, RetryData>, i: nat)
    requires i < |list|
  {
    Judge(policy, data, list[i], env.checkedAt(list[i])) == Expire
  }

  /** With no id shared, the pass looks at every letter exactly when none but the last is due to expire. */
  lemma {:induction false} AllExaminedIff(policy: Policy, env: Env, list: seq<Message>, data: map<string, RetryData>)
    requires DistinctIds(list)
    ensures Walk(policy, env, list, data).examined == list
            <==> forall i: nat :: i < |list| - 1 ==> !ExpiresAt(policy, env, list, data, i)
    decreases |list|
  {
    hide ExpiresAt, Judge, Walk, Turn;
    if |list| <= 1 {
      FewAllExamined(policy, env, list, data);
    } else if ExpiresAt(policy, env, list, data, 0) {
      UnexaminedShort(policy, env, list, data);
    } else {
      var rest, data' := list[1..], Turn(policy, env, list, data).1;
      assert DistinctIds(rest);
      SameVerdicts(policy, env, list, data);
      AllExaminedIff(policy, env, rest, data');
      HeadExamined(policy, env, list, data);
      assert list == [list[0]] + rest;
      EndsAlike(policy, env, list, data, data');
    }
  }

  lemma FewAllExamined(policy: Policy, env: Env, list: seq<Message>, data: map<string, RetryData>)
    requires |list| <= 1
    ensures Walk(policy, env, list, data).examined == list
  {
  }

  lemma HeadExamined(policy: Policy, env: Env, list: seq<Message>, data: map<string, RetryData>)
    requires |list| > 0 && !ExpiresAt(policy, env, list, data, 0)
    ensures Walk(policy, env, list, data).examined
         == [list[0]] + Walk(policy, env, list[1..], Turn(policy, env, list, data).1).examined
  {
    WalkStep(policy, env, list, data);
  }

  /** A turn on one letter leaves the verdicts on the others as they were. */
  lemma SameVerdicts(policy: Policy, env: Env, list: seq<Message>, data: map<string, RetryData>)
    requires |list| > 0 && DistinctIds(list) && !ExpiresAt(policy, env, list, data, 0)
    ensures var data' := Turn(policy, env, list, data).1;
            forall i: nat :: i < |list[1..]| ==>
              ExpiresAt(policy, env, list[1..], data', i) == ExpiresAt(policy, env, list, data, i + 1)
  {
    hide BackedOff, TooOld;
    var data' := Turn(policy, env, list, data).1;
    forall i: nat | i < |list[1..]|
      ensures ExpiresAt(policy, env, list[1..], data', i) == ExpiresAt(policy, env, list, data, i + 1)
    {
      assert list[1..][i] == list[i + 1] && list[i + 1].id != list[0].id;
    }
  }

  /** A pass whose first letter expires looks at fewer letters than there are. */
  lemma UnexaminedShort(policy: Policy, env: Env, list: seq<Message>, data: map<string, RetryData>)
    requires |list| > 1 && ExpiresAt(policy, env, list, data, 0)
    ensures |Walk(policy, env, list, data).examined| < |list|
  {
    var (rest, data') := Turn(policy, env, list, data);
    UnexaminedAtMostExpired(policy, env, rest, data');
    WalkStep(policy, env, list, data);
  }

  lemma EndsAlike(policy: Policy, env: Env, list: seq<Message>, data: map<string, RetryData>,
                  data': map<string, RetryData>)
    requires |list| > 1 && !ExpiresAt(policy, env, list, data, 0)
    requires forall i: nat :: i < |list[1..]| ==>
               ExpiresAt(policy, env, list[1..], data', i) == ExpiresAt(policy, env, list, data, i + 1)
    ensures (forall i: nat :: i < |list[1..]| - 1 ==> !ExpiresAt(policy, env, list[1..], data', i))
            <==> forall i: nat :: i < |list| - 1 ==> !ExpiresAt(policy, env, list, data, i)
  {
    hide ExpiresAt;
    if forall i: nat :: i < |list[1..]| - 1 ==> !ExpiresAt(policy, env, list[1..], data', i) {
      forall i: nat | i < |list| - 1
        ensures !ExpiresAt(policy, env, list, data, i)
      {
        if i > 0 { assert !ExpiresAt(policy, env, list[1..], data', i - 1); }
      }
    }
  }

  /** The retry hashes when letter `i` is looked at after each of those before it. */
  function DataAfter(policy: Policy, env: Env, list: seq<Message>, data: map<string, RetryData>, i: nat)
    : map<string, RetryData>
    requires i <= |list|
  {
    if i == 0 then data else DataAfter(policy, env, list[1..], Turn(policy, env, list, data).1, i - 1)
  }

  /** Whether letter `i` is due to expire by its turn, on the hashes as the pass has made them. */
  predicate ExpiresInTurn(policy: Policy, env: Env, list: seq<Message>, data: map<string, RetryData>, i: nat)
    requires i < |list|
  {
    ExpiresAt(policy, env, list, DataAfter(policy, env, list, data, i), i)
  }

  /** Whatever ids the letters share: the pass looks at every letter exactly when none but the last is due to expire
      by its turn. */
  lemma {:induction false} AllExaminedIffInTurn(policy: Policy, env: Env, list: seq<Message>,
                                                data: map<string, RetryData>)
    ensures Walk(policy, env, list, data).examined == list
            <==> forall i: nat :: i < |list| - 1 ==> !ExpiresInTurn(policy, env, list, data, i)
    decreases |list|
  {
    hide ExpiresAt, ExpiresInTurn, Judge, Walk, Turn, DataAfter;
    if |list| <= 1 {
      FewAllExamined(policy, env, list, data);
    } else {
      var rest, data' := list[1..], Turn(policy, env, list, data).1;
      FirstInTurn(policy, env, list, data);
      if ExpiresAt(policy, env, list, data, 0) {
        UnexaminedShort(policy, env, list, data);
      } else {
        AllExaminedIffInTurn(policy, env, rest, data');
        HeadExamined(policy, env, list, data);
        assert list == [list[0]] + rest;
        if forall i: nat :: i < |rest| - 1 ==> !ExpiresInTurn(policy, env, rest, data', i) {
          forall i: nat | i < |list| - 1 ensures !ExpiresInTurn(policy, env, list, data, i) {
            if i > 0 { assert !ExpiresInTurn(policy, env, rest, data', i - 1); }
          }
        }
      }
    }
  }

  lemma FirstInTurn(policy: Policy, env: Env, list: seq<Message>, data: map<string, RetryData>)
    requires |list| > 0
    ensures ExpiresInTurn(policy, env, list, data, 0) == ExpiresAt(policy, env, list, data, 0)
    ensures forall i: nat :: i < |list[1..]| ==>
              ExpiresInTurn(policy, env, list[1..], Turn(policy, env, list, data).1, i)
              == ExpiresInTurn(policy, env, list, data, i + 1)
  {
    hide Judge, Turn;
  }

  /** So it is enough that none but the last is past its time to live. */
  lemma {:induction false} YoungLettersAllExamined(policy: Policy, env: Env, list: seq<Message>,
                                                   data: map<string, RetryData>)
    requires forall i: nat :: i < |list| - 1 ==> !TooOld(policy, list[i], env.checkedAt(list[i]))
    ensures Walk(policy, env, list, data).examined == list
  {
    hide Walk, TooOld, BackedOff, DataAfter;
    AllExaminedIffInTurn(policy, env, list, data);
  }

  /** With a shared id a letter due to expire when the pass begins need not expire: a failure of the letter before
      it puts both into backoff, and every letter is looked at. */
  lemma {:induction false} SharedIdHidesExpiry(policy: Policy, env: Env, a: Message, b: Message, c: Message)
    requires a.id == b.id && a != b && c.id != a.id && policy.intervalMinutes > 0 && policy.maxMinutes > 0
    requires !TooOld(policy, a, env.checkedAt(a)) && TooOld(policy, b, env.checkedAt(b))
    requires !TooOld(policy, c, env.checkedAt(c)) && !env.handlerOk(a)
    requires env.checkedAt(b) <= WholeSecond(env.failedAt(a)) + TICKS_PER_MINUTE
    ensures NoDup([a, b, c]) && ExpiresAt(policy, env, [a, b, c], map[], 1)
    ensures Walk(policy, env, [a, b, c], map[]).examined == [a, b, c]
  {
    var list := [a, b, c];
    var data := map[a.id := Bumped(RetryDataOf(map[], a.id), env.failedAt(a))];
    assert list[1..] == [b, c] && [b, c][1..] == [c];
    hide Walk, TooOld, ExpiresAt, WholeSecond, NoDup;
    assert NoDup(list) && ExpiresAt(policy, env, list, map[], 1);
    assert Judge(policy, map[], a, env.checkedAt(a)) == Retry;
    assert Turn(policy, env, list, map[]) == ([b, c], data);
    OneMinuteAtLeast(policy, data[a.id].count);
    assert Judge(policy, data, b, env.checkedAt(b)) == Skip;
    assert Turn(policy, env, [b, c], data) == ([c], data);
    FewAllExamined(policy, env, [c], data);
    HeadExamined(policy, env, [b, c], data);
    HeadExamined(policy, env, list, map[]);
  }

  lemma OneMinuteAtLeast(policy: Policy, count: nat)
    requires policy.intervalMinutes > 0 && policy.maxMinutes > 0
    ensures Interval(policy, count) * TICKS_PER_MINUTE >= TICKS_PER_MINUTE
  {
    assert Pow2(count) * policy.intervalMinutes >= policy.intervalMinutes;
  }

  ghost predicate AllExpire(policy: Policy, env: Env, list: seq<Message>, data: map<string, RetryData>) {
    forall m :: m in list ==>
        TooOld(policy, m, env.checkedAt(m)) && !BackedOff(policy, RetryDataOf(data, m.id), env.checkedAt(m))
  }

  /** When everything is past its time to live and out of backoff, a pass deletes every other letter only. */
  lemma {:induction false} AllExpiredHalves(policy: Policy, env: Env, list: seq<Message>, data: map<string, RetryData>)
    requires AllExpire(policy, env, list, data)
    ensures var p := Walk(policy, env, list, data);
            && |p.left| == |list| / 2
            && (forall m :: m in p.left ==> m in list)
            && (forall id :: id in p.data ==> id in data && p.data[id] == data[id])
    decreases |list|
  {
    if |list| != 0 {
      assert Judge(policy, data, list[0], env.checkedAt(list[0])) == Expire;
      var (rest, data') := Turn(policy, env, list, data);
      AllExpiredHalves(policy, env, rest, data');
      WalkStep(policy, env, list, data);
      hide Walk;
    }
  }

  /** `k` passes one after the other. */
  function Passes(policy: Policy, env: nat -> Env, list: seq<Message>, data: map<string, RetryData>, k: nat): Pass {
    if k == 0 then Pass(list, data, [], [], [])
    else
      var before := Passes(policy, env, list, data, k - 1);
      Walk(policy, env(k - 1), before.left, before.data)
  }

  /** So repeated passes do empty the list, by halving. */
  lemma {:induction false} PassesEmptyTheList(policy: Policy, env: nat -> Env, list: seq<Message>,
                                              data: map<string, RetryData>, k: nat)
    requires forall i: nat :: i < k ==> AllExpire(policy, env(i), list, data)
    ensures var p := Passes(policy, env, list, data, k);
            && |p.left| == |list| / Pow2(k)
            && (Pow2(k) > |list| ==> p.left == [])
            && LeftOf(p, list, data)
  {
    if k != 0 {
      PassesEmptyTheList(policy, env, list, data, k - 1);
      assert AllExpire(policy, env(k - 1), list, data);
      OnePassMore(policy, env(k - 1), list, data, Passes(policy, env, list, data, k - 1));
      HalfOfQuotient(|list|, Pow2(k - 1));
    }
    hide Passes, LeftOf, AllExpire;
    if Pow2(k) > |list| {
      Quotient(|list|, 0, |list|, Pow2(k));
    }
  }

  /** What is left is a part of what was there, with the retry hashes it had. */
  ghost predicate LeftOf(p: Pass, list: seq<Message>, data: map<string, RetryData>) {
    && (forall m :: m in p.left ==> m in list)
    && (forall id :: id in p.data ==> id in data && p.data[id] == data[id])
  }

  lemma OnePassMore(policy: Policy, env: Env, list: seq<Message>, data: map<string, RetryData>, before: Pass)
    requires AllExpire(policy, env, list, data) && LeftOf(before, list, data)
    ensures var p := Walk(policy, env, before.left, before.data); |p.left| == |before.left| / 2 && LeftOf(p, list, data)
  {
    assert AllExpire(policy, env, before.left, before.data);
    AllExpiredHalves(policy, env, before.left, before.data);
  }
}
