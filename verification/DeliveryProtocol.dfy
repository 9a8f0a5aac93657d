/** One subscriber's queue: publishes, consumers, the stale-entry mover and the retry pass, interleaved in
    every way, with crashes at any point. */
module DeliveryProtocol {
  import opened RedisLists

  /** A run of ExecuteCallback after its pop. Finishing stands before the removal from the processing list. */
  datatype Consumer<M> = Handling(m: M) | Failing(m: M) | Finishing(m: M)

  /** A retry pass looking at one dead letter. Deleting stands before its removal from the dead letters. */
  datatype Retrier<M> = Examining(m: M) | Deleting(m: M)

  /** The three Redis lists (left end first), the processes, and the history: what was pushed and popped in
      order, whose handler returned, what expired, whose dead-letter write threw, and what was
      taken off the processing list. */
  datatype Queue<M> = Queue(
    published: seq<M>, processing: seq<M>, dead: seq<M>,
    consumers: map<nat, Consumer<M>>, movers: map<nat, seq<M>>, retriers: map<nat, Retrier<M>>,
    pushed: seq<M>, popped: seq<M>, handled: set<M>, expired: set<M>, dropped: set<M>, removed: set<M>)

  datatype Step<M> =
    | Push(m: M)
    | Pop(w: nat)
    | HandlerReturns(w: nat)
    | HandlerThrows(w: nat)
    | DeadLetter(w: nat)
    | DeadLetterThrows(w: nat)
    | Remove(w: nat)
    | ConsumerCrash(w: nat)
    | ReadWindow(v: nat, count: nat)   // the mover reads the right end of the processing list
    | MoveNext(v: nat, stale: bool)    // and moves what is old enough, oldest last as the list goes
    | MoverCrash(v: nat)
    | Examine(r: nat, index: nat)
    | Expire(r: nat)
    | RetryReturns(r: nat)
    | RetryEnds(r: nat)                // backed off, failed again, or crashed
    | DeleteDeadLetter(r: nat)

  function Start<M>(): Queue<M> {
    Queue([], [], [], map[], map[], map[], [], [], {}, {}, {}, {})
  }

  function ConsumerStep<M(==, !new)>(q: Queue<M>, step: Step<M>, w: nat, me: Consumer<M>): Queue<M> {
    match step
    case HandlerReturns(_) =>
      if !me.Handling? then q else q.(consumers := q.consumers[w := Finishing(me.m)], handled := q.handled + {me.m})
    case HandlerThrows(_) =>
      if !me.Handling? then q else q.(consumers := q.consumers[w := Failing(me.m)])
    case DeadLetter(_) =>
      if !me.Failing? then q else q.(consumers := q.consumers[w := Finishing(me.m)], dead := [me.m] + q.dead)
    case DeadLetterThrows(_) =>
      if !me.Failing? then q else q.(consumers := q.consumers[w := Finishing(me.m)], dropped := q.dropped + {me.m})
    case Remove(_) =>
      if !me.Finishing? then q
      else
        q.(consumers := q.consumers - {w}, processing := RemoveAll(q.processing, me.m), removed := q.removed + {me.m})
    case ConsumerCrash(_) => q.(consumers := q.consumers - {w})
    case _ => q
  }

  function RetrierStep<M(==, !new)>(q: Queue<M>, step: Step<M>, r: nat, me: Retrier<M>): Queue<M> {
    match step
    case Expire(_) =>
      if !me.Examining? then q
      else q.(retriers := q.retriers - {r}, dead := RemoveAll(q.dead, me.m), expired := q.expired + {me.m})
    case RetryReturns(_) =>
      if !me.Examining? then q else q.(retriers := q.retriers[r := Deleting(me.m)], handled := q.handled + {me.m})
    case RetryEnds(_) => q.(retriers := q.retriers - {r})
    case DeleteDeadLetter(_) =>
      if !me.Deleting? then q else q.(retriers := q.retriers - {r}, dead := RemoveAll(q.dead, me.m))
    case _ => q
  }

  /** One atomic step; a step that is not enabled changes nothing. */
  function Do<M(==, !new)>(q: Queue<M>, step: Step<M>): Queue<M> {
    match step
    case Push(m) => q.(published := [m] + q.published, pushed := q.pushed + [m])
    case Pop(w) =>
      if w in q.consumers || |q.published| == 0 then q
      else
        var m := q.published[|q.published| - 1];
        q.(published := q.published[..|q.published| - 1], processing := [m] + q.processing,
           consumers := q.consumers[w := Handling(m)], popped := q.popped + [m])
    case HandlerReturns(w) => if w in q.consumers then ConsumerStep(q, step, w, q.consumers[w]) else q
    case HandlerThrows(w) => if w in q.consumers then ConsumerStep(q, step, w, q.consumers[w]) else q
    case DeadLetter(w) => if w in q.consumers then ConsumerStep(q, step, w, q.consumers[w]) else q
    case DeadLetterThrows(w) => if w in q.consumers then ConsumerStep(q, step, w, q.consumers[w]) else q
    case Remove(w) => if w in q.consumers then ConsumerStep(q, step, w, q.consumers[w]) else q
    case ConsumerCrash(w) => if w in q.consumers then ConsumerStep(q, step, w, q.consumers[w]) else q
    case ReadWindow(v, count) =>
      if v in q.movers then q else q.(movers := q.movers[v := Window(q.processing, count)])
    case MoveNext(v, stale) =>
      if v !in q.movers || |q.movers[v]| == 0 then q
      else
        var m := q.movers[v][0];
        var next := q.(movers := q.movers[v := q.movers[v][1..]]);
        if stale then next.(dead := [m] + q.dead, processing := RemoveLast(q.processing, m), removed := q.removed + {m})
        else next
    case MoverCrash(v) => q.(movers := q.movers - {v})
    case Examine(r, index) =>
      if r in q.retriers || index >= |q.dead| then q else q.(retriers := q.retriers[r := Examining(q.dead[index])])
    case Expire(r) => if r in q.retriers then RetrierStep(q, step, r, q.retriers[r]) else q
    case RetryReturns(r) => if r in q.retriers then RetrierStep(q, step, r, q.retriers[r]) else q
    case RetryEnds(r) => if r in q.retriers then RetrierStep(q, step, r, q.retriers[r]) else q
    case DeleteDeadLetter(r) => if r in q.retriers then RetrierStep(q, step, r, q.retriers[r]) else q
  }

  function Run<M(==, !new)>(steps: seq<Step<M>>): Queue<M> {
    if |steps| == 0 then Start() else Do(Run(steps[..|steps| - 1]), steps[|steps| - 1])
  }

  // ---- nothing is lost --------------------------------------------------------------------

  /** The message no longer depends on the published and processing lists. */
  predicate Settled<M(==)>(q: Queue<M>, m: M) {
    m in q.dead || m in q.handled || m in q.expired || m in q.dropped
  }

  predicate Accounted<M(==)>(q: Queue<M>, m: M) {
    m in q.published || m in q.processing || Settled(q, m)
  }

  ghost predicate ConsumersOk<M(!new)>(q: Queue<M>) {
    forall w :: w in q.consumers && q.consumers[w].Finishing? ==> Settled(q, q.consumers[w].m)
  }

  ghost predicate RetriersOk<M(!new)>(q: Queue<M>) {
    forall r :: r in q.retriers && q.retriers[r].Deleting? ==> q.retriers[r].m in q.handled
  }

  ghost predicate AllAccounted<M(!new)>(q: Queue<M>) {
    (forall m :: m in q.pushed ==> Accounted(q, m)) && ConsumersOk(q) && RetriersOk(q)
  }

  lemma PopSplits<M(!new)>(s: seq<M>)
    requires |s| != 0
    ensures forall m :: m in s <==> m in s[..|s| - 1] || m == s[|s| - 1]
  {
    assert s == s[..|s| - 1] + [s[|s| - 1]];
  }

  lemma SettledStays<M(!new)>(q: Queue<M>, step: Step<M>, m: M)
    requires Settled(q, m) && RetriersOk(q)
    ensures Settled(Do(q, step), m)
  {
    hide RemoveLast;
  }

  lemma AccountedStays<M(!new)>(q: Queue<M>, step: Step<M>, m: M)
    requires AllAccounted(q) && Accounted(q, m)
    ensures Accounted(Do(q, step), m)
  {
    if Settled(q, m) {
      SettledStays(q, step, m);
      hide Do, Settled;
    } else {
      if step.Pop? && |q.published| != 0 {
        PopSplits(q.published);
      }
    }
  }

  lemma WorkersStay<M(!new)>(q: Queue<M>, step: Step<M>)
    requires AllAccounted(q)
    ensures RetriersOk(Do(q, step)) && ConsumersOk(Do(q, step))
  {
    hide RemoveLast, RemoveAll, Settled, Accounted;
    var q' := Do(q, step);
    forall w | w in q'.consumers && q'.consumers[w].Finishing? ensures Settled(q', q'.consumers[w].m) {
      if w in q.consumers && q'.consumers[w] == q.consumers[w] {
        SettledStays(q, step, q.consumers[w].m);
      } else {
        JustFinished(q, step, w);
      }
    }
    hide Do;
    RetriersStay(q, step);
  }

  lemma JustFinished<M(!new)>(q: Queue<M>, step: Step<M>, w: nat)
    requires var q' := Do(q, step);
             w in q'.consumers && q'.consumers[w].Finishing? && (w in q.consumers ==> q'.consumers[w] != q.consumers[w])
    ensures Settled(Do(q, step), Do(q, step).consumers[w].m)
  {
    hide RemoveLast, RemoveAll;
  }

  lemma RetriersStay<M(!new)>(q: Queue<M>, step: Step<M>)
    requires RetriersOk(q)
    ensures RetriersOk(Do(q, step))
  {
    hide RemoveLast, RemoveAll;
  }

  lemma {:induction false} StepKeeps<M(!new)>(q: Queue<M>, step: Step<M>)
    requires AllAccounted(q)
    ensures AllAccounted(Do(q, step))
  {
    hide Do, RetriersOk, ConsumersOk, Accounted;
    WorkersStay(q, step);
    forall m | m in Do(q, step).pushed ensures Accounted(Do(q, step), m) {
      if m in q.pushed {
        AccountedStays(q, step, m);
      } else {
        JustPushed(q, step, m);
      }
    }
  }

  lemma JustPushed<M(!new)>(q: Queue<M>, step: Step<M>, m: M)
    requires m in Do(q, step).pushed && m !in q.pushed
    ensures Accounted(Do(q, step), m)
  {
    hide RemoveLast, RemoveAll;
  }

  lemma {:induction false} AlwaysAccounted<M(!new)>(steps: seq<Step<M>>)
    ensures AllAccounted(Run(steps))
  {
    if |steps| != 0 {
      AlwaysAccounted(steps[..|steps| - 1]);
      StepKeeps(Run(steps[..|steps| - 1]), steps[|steps| - 1]);
    }
  }

  /** No message is lost: in every reachable state each pushed payload is in one of the lists, or its handler
      has returned, or it expired, unless its own dead-letter write threw. */
  lemma {:induction false} NothingIsLost<M(!new)>(steps: seq<Step<M>>, m: M)
    ensures var q := Run(steps);
            m in q.pushed ==>
              m in q.published || m in q.processing || m in q.dead || m in q.handled || m in q.expired || m in q.dropped
  {
    AlwaysAccounted(steps);
    if m in Run(steps).pushed { assert Accounted(Run(steps), m); }
  }

  lemma DropStep<M(!new)>(q: Queue<M>, step: Step<M>)
    ensures !step.DeadLetterThrows? ==> Do(q, step).dropped == q.dropped
  {
  }

  lemma {:induction false} DroppedOnlyByThrow<M(!new)>(steps: seq<Step<M>>)
    requires forall i :: 0 <= i < |steps| ==> !steps[i].DeadLetterThrows?
    ensures Run(steps).dropped == {}
  {
    if |steps| != 0 {
      DroppedOnlyByThrow(steps[..|steps| - 1]);
      DropStep(Run(steps[..|steps| - 1]), steps[|steps| - 1]);
      hide Do;
    }
  }

  /** So as long as dead-letter writes succeed, nothing is lost at all. */
  lemma {:induction false} NothingIsLostWhileDeadLettersWork<M(!new)>(steps: seq<Step<M>>, m: M)
    requires forall i :: 0 <= i < |steps| ==> !steps[i].DeadLetterThrows?
    ensures var q := Run(steps);
            m in q.pushed ==> m in q.published || m in q.processing || m in q.dead || m in q.handled || m in q.expired
  {
    NothingIsLost(steps, m);
    DroppedOnlyByThrow(steps);
  }

  /** A run extended by one step. */
  lemma Then<M(!new)>(steps: seq<Step<M>>, step: Step<M>)
    ensures Run(steps + [step]) == Do(Run(steps), step)
  {
    assert (steps + [step])[..|steps|] == steps;
  }

  // ---- order ------------------------------------------------------------------------------

  /** `s` is `t` with some elements left out. */
  predicate Subsequence<M(==)>(s: seq<M>, t: seq<M>) {
    |s| == 0 || (|t| != 0 && (Subsequence(s, t[1..]) || (s[0] == t[0] && Subsequence(s[1..], t[1..]))))
  }

  ghost predicate InOrder<M(!new)>(q: Queue<M>) {
    && q.popped + Reverse(q.published) == q.pushed
    && (forall m :: m in q.removed ==> m in q.popped)
    && (forall m :: m in q.processing ==> m in q.popped)
    && (forall w :: w in q.consumers ==> q.consumers[w].m in q.popped)
    && (forall v, m :: v in q.movers && m in q.movers[v] ==> m in q.popped)
    && Subsequence(q.processing, Reverse(q.popped))
    && (NoDup(q.pushed) ==> q.processing == Reverse(Without(q.popped, q.removed)))
  }

  lemma {:induction false} SubsequenceWithout<M(!new)>(s: seq<M>, t: seq<M>, xs: set<M>)
    requires Subsequence(s, t)
    ensures Subsequence(Without(s, xs), t)
    decreases |t|
  {
    if |s| != 0 {
      if Subsequence(s, t[1..]) {
        SubsequenceWithout(s, t[1..], xs);
      } else {
        var kept := Without(s[1..], xs);
        SubsequenceWithout(s[1..], t[1..], xs);
        assert Without(s, xs) == if s[0] in xs then kept else [s[0]] + kept;
        assert ([s[0]] + kept)[1..] == kept;
      }
    }
  }

  lemma {:induction false} SubsequenceDrop<M(!new)>(s: seq<M>, t: seq<M>, k: nat)
    requires Subsequence(s, t) && k < |s|
    ensures Subsequence(s[..k] + s[k + 1..], t)
    decreases |t|
  {
    if Subsequence(s, t[1..]) {
      SubsequenceDrop(s, t[1..], k);
    } else if k == 0 {
      assert s[..0] + s[1..] == s[1..];
    } else {
      SubsequenceDrop(s[1..], t[1..], k - 1);
      assert (s[..k] + s[k + 1..])[1..] == s[1..][..k - 1] + s[1..][k..];
    }
  }

  /** Removing the last occurrence leaves out one position, or none when `k` is the length. */
  lemma {:induction false} RemoveLastDropsOne<M(!new)>(s: seq<M>, x: M) returns (k: nat)
    ensures k <= |s| && RemoveLast(s, x) == if k < |s| then s[..k] + s[k + 1..] else s
  {
    if |s| == 0 {
      k := 0;
    } else {
      var front, last := s[..|s| - 1], s[|s| - 1];
      assert s == front + [last];
      if last == x {
        k := |front|;
        assert s[..k] + s[k + 1..] == front;
      } else {
        k := RemoveLastDropsOne(front, x);
        if k == |front| {
          k := |s|;
        } else {
          assert s[..k] == front[..k] && s[k + 1..] == front[k + 1..] + [last];
        }
      }
    }
  }

  /** Either removal leaves a subsequence. */
  lemma SubsequenceRemove<M(!new)>(s: seq<M>, t: seq<M>, x: M)
    requires Subsequence(s, t)
    ensures Subsequence(RemoveAll(s, x), t) && Subsequence(RemoveLast(s, x), t)
  {
    hide Subsequence, RemoveLast, Without;
    SubsequenceWithout(s, t, {x});
    var k := RemoveLastDropsOne(s, x);
    if k < |s| {
      SubsequenceDrop(s, t, k);
    }
  }

  lemma SubsequencePush<M(!new)>(s: seq<M>, popped: seq<M>, m: M)
    requires Subsequence(s, Reverse(popped))
    ensures Subsequence([m] + s, Reverse(popped + [m]))
  {
    ReverseConcat(popped, [m]);
    assert Reverse([m]) == [m];
    assert ([m] + Reverse(popped))[1..] == Reverse(popped) && ([m] + s)[1..] == s;
  }

  lemma PushKeepsOrder<M(!new)>(q: Queue<M>, m: M)
    requires InOrder(q)
    ensures InOrder(Do(q, Push(m)))
  {
    assert ([m] + q.published)[1..] == q.published;
    assert forall i :: 0 <= i < |q.pushed| ==> q.pushed[i] == (q.pushed + [m])[i];
  }

  /** Popping the right end moves the oldest unpopped message to the end of the pop history. */
  lemma PopMoves<M(!new)>(published: seq<M>, popped: seq<M>)
    requires |published| != 0
    ensures var front, m := published[..|published| - 1], published[|published| - 1];
            popped + Reverse(published) == popped + [m] + Reverse(front)
  {
    var front, m := published[..|published| - 1], published[|published| - 1];
    assert published == front + [m];
    ReverseConcat(front, [m]);
    assert Reverse([m]) == [m];
  }

  lemma NewestFirst<M(!new)>(popped: seq<M>, removed: set<M>, m: M)
    requires m !in removed
    ensures [m] + Reverse(Without(popped, removed)) == Reverse(Without(popped + [m], removed))
  {
    WithoutConcat(popped, [m], removed);
    WithoutNothing([m], removed);
    ReverseConcat(Without(popped, removed), [m]);
    assert Reverse([m]) == [m];
    hide Without, Reverse;
  }

  lemma PopKeepsOrder<M(!new)>(q: Queue<M>, w: nat)
    requires InOrder(q) && |q.published| != 0
    ensures InOrder(Do(q, Pop(w)))
  {
    hide Reverse, Without, NoDup, Subsequence;
    var m, q' := q.published[|q.published| - 1], Do(q, Pop(w));
    PopMoves(q.published, q.popped);
    SubsequencePush(q.processing, q.popped, m);
    if NoDup(q.pushed) {
      FreshPop(q.popped, m, Reverse(q.published[..|q.published| - 1]));
      NewestFirst(q.popped, q.removed, m);
    }
    if w !in q.consumers {
      assert q'.popped == q.popped + [m] && q'.removed == q.removed && q'.pushed == q.pushed && q'.movers == q.movers;
      assert forall x :: x in q.popped ==> x in q'.popped;
    }
  }

  lemma FreshPop<M(!new)>(popped: seq<M>, m: M, rest: seq<M>)
    requires NoDup(popped + [m] + rest)
    ensures m !in popped
  {
    var all := popped + [m] + rest;
    assert all[|popped|] == m && forall i :: 0 <= i < |popped| ==> popped[i] == all[i];
  }

  /** Taking a message off the processing list, by either removal. */
  lemma RemovalKeepsOrder<M(!new)>(q: Queue<M>, m: M)
    requires InOrder(q)
    ensures Subsequence(RemoveAll(q.processing, m), Reverse(q.popped))
    ensures Subsequence(RemoveLast(q.processing, m), Reverse(q.popped))
    ensures NoDup(q.pushed) ==>
              && RemoveAll(q.processing, m) == Reverse(Without(q.popped, q.removed + {m}))
              && RemoveLast(q.processing, m) == RemoveAll(q.processing, m)
  {
    SubsequenceRemove(q.processing, Reverse(q.popped), m);
    hide Subsequence;
    if NoDup(q.pushed) {
      RemovalFromDistinct(q, m);
    }
  }

  lemma RemovalFromDistinct<M(!new)>(q: Queue<M>, m: M)
    requires InOrder(q) && NoDup(q.pushed)
    ensures RemoveAll(q.processing, m) == Reverse(Without(q.popped, q.removed + {m}))
    ensures RemoveLast(q.processing, m) == RemoveAll(q.processing, m)
  {
    hide Subsequence;
    var left := Without(q.popped, q.removed);
    WithoutReverse(left, {m});
    WithoutTwice(q.popped, q.removed, {m});
    assert forall i :: 0 <= i < |q.popped| ==> q.popped[i] == q.pushed[i];
    NoDupWithout(q.popped, q.removed);
    RemoveLastIsRemoveAll(q.processing, m);
  }

  lemma RemoveKeepsOrder<M(!new)>(q: Queue<M>, w: nat)
    requires InOrder(q) && w in q.consumers
    ensures InOrder(Do(q, Remove(w)))
  {
    hide NoDup, Reverse, Without, Subsequence, RemoveAll, RemoveLast;
    RemovalKeepsOrder(q, q.consumers[w].m);
  }

  lemma MoveKeepsOrder<M(!new)>(q: Queue<M>, v: nat, stale: bool)
    requires InOrder(q) && v in q.movers && |q.movers[v]| != 0
    ensures InOrder(Do(q, MoveNext(v, stale)))
  {
    hide NoDup, Reverse, Without, Subsequence, RemoveAll, RemoveLast;
    RemovalKeepsOrder(q, q.movers[v][0]);
  }

  /** Every other step leaves the lists in question alone. */
  lemma OthersKeepLists<M(!new)>(q: Queue<M>, step: Step<M>)
    requires !step.Push? && !step.Pop? && !step.Remove? && !step.MoveNext?
    ensures var q' := Do(q, step);
            && q'.published == q.published && q'.processing == q.processing && q'.popped == q.popped
               && q'.pushed == q.pushed
            && q'.removed == q.removed
  {
    hide RemoveAll, RemoveLast;
  }

  lemma OthersKeepConsumers<M(!new)>(q: Queue<M>, step: Step<M>, w: nat)
    requires !step.Pop? && w in Do(q, step).consumers
    ensures w in q.consumers && Do(q, step).consumers[w].m == q.consumers[w].m
  {
    hide RemoveAll, RemoveLast;
  }

  lemma OthersKeepMovers<M(!new)>(q: Queue<M>, step: Step<M>, v: nat, m: M)
    requires !step.MoveNext? && v in Do(q, step).movers && m in Do(q, step).movers[v]
    ensures (v in q.movers && m in q.movers[v]) || m in q.processing
  {
    hide RemoveAll, RemoveLast;
  }

  lemma OthersKeepOrder<M(!new)>(q: Queue<M>, step: Step<M>)
    requires InOrder(q) && !step.Push? && !step.Pop? && !step.Remove? && !step.MoveNext?
    ensures InOrder(Do(q, step))
  {
    hide Do, NoDup, Reverse, Without, Subsequence;
    var q' := Do(q, step);
    OthersKeepLists(q, step);
    forall w | w in q'.consumers ensures q'.consumers[w].m in q'.popped {
      OthersKeepConsumers(q, step, w);
    }
    forall v, m | v in q'.movers && m in q'.movers[v] ensures m in q'.popped {
      OthersKeepMovers(q, step, v, m);
    }
  }

  lemma {:induction false} StepKeepsOrder<M(!new)>(q: Queue<M>, step: Step<M>)
    requires InOrder(q)
    ensures InOrder(Do(q, step))
  {
    hide InOrder;
    match step
    case Push(m) => PushKeepsOrder(q, m);
    case Pop(w) => if |q.published| != 0 { PopKeepsOrder(q, w); }
    case Remove(w) => if w in q.consumers { RemoveKeepsOrder(q, w); }
    case MoveNext(v, stale) => if v in q.movers && |q.movers[v]| != 0 { MoveKeepsOrder(q, v, stale); }
    case _ => OthersKeepOrder(q, step);
  }

  lemma {:induction false} AlwaysInOrder<M(!new)>(steps: seq<Step<M>>)
    ensures InOrder(Run(steps))
  {
    if |steps| != 0 {
      AlwaysInOrder(steps[..|steps| - 1]);
      StepKeepsOrder(Run(steps[..|steps| - 1]), steps[|steps| - 1]);
    }
  }

  lemma {:induction false} WindowOfReverse<T>(s: seq<T>, count: nat)
    ensures Window(Reverse(s), count) == Reverse(if count >= |s| then s else s[..count])
  {
    if count < |s| {
      assert s == s[..count] + s[count..];
      ReverseConcat(s[..count], s[count..]);
    }
  }

  /** Messages leave in the order they came, and the processing list is part of the pop history read backwards.
      While payloads are distinct, that list is the
      popped messages not yet taken off it, newest first, so the window the mover reads is exactly the
      `count` of them that were popped earliest. */
  lemma {:induction false} FifoAndRecoveryWindow<M(!new)>(steps: seq<Step<M>>, count: nat)
    ensures var q := Run(steps);
            var unfinished := Without(q.popped, q.removed);
            && q.popped + Reverse(q.published) == q.pushed
            && Subsequence(q.processing, Reverse(q.popped))
            && (NoDup(q.pushed) ==>
                  && q.processing == Reverse(unfinished)
                  && Window(q.processing, count)
                     == Reverse(if count >= |unfinished| then unfinished else unfinished[..count]))
  {
    AlwaysInOrder(steps);
    WindowOfReverse(Without(Run(steps).popped, Run(steps).removed), count);
  }

  // ---- what a dead-letter write that throws loses -----------------------------------------

  /** Pushed, and neither in a list nor handled nor expired. */
  predicate Lost<M(==)>(q: Queue<M>, m: M) {
    && m in q.pushed
    && m !in q.published && m !in q.processing && m !in q.dead && m !in q.handled && m !in q.expired
  }

  /** A payload pushed once is not waiting any more when a consumer has it. */
  lemma PoppedIsNotPublished<M(!new)>(q: Queue<M>, m: M)
    requires InOrder(q) && NoDup(q.pushed) && m in q.popped
    ensures m in q.pushed && m !in q.published
  {
    hide Reverse, Without;
    var k :| 0 <= k < |q.popped| && q.popped[k] == m;
    var waiting := Reverse(q.published);
    assert q.pushed[k] == m;
    forall i | 0 <= i < |q.published| ensures q.published[i] != m {
      assert waiting[|waiting| - 1 - i] == q.published[i];
      assert q.pushed[|q.popped| + |waiting| - 1 - i] == q.published[i];
    }
  }

  /** What the removal in the finally block loses, in every reachable state: a message that no handler has
      completed and that nobody has dead-lettered or expired. */
  lemma {:induction false} RemovalLosesIff<M(!new)>(steps: seq<Step<M>>, w: nat)
    requires NoDup(Run(steps).pushed) && w in Run(steps).consumers && Run(steps).consumers[w].Finishing?
    ensures var q := Run(steps);
            var m := q.consumers[w].m;
            Lost(Run(steps + [Remove(w)]), m) <==> m !in q.dead && m !in q.handled && m !in q.expired
  {
    var q := Run(steps);
    var m := q.consumers[w].m;
    AlwaysInOrder(steps);
    PoppedIsNotPublished(q, m);
    Then(steps, Remove(w));
    hide Run, InOrder;
    var q' := Do(q, Remove(w));
    assert q'.processing == RemoveAll(q.processing, m) && q'.dead == q.dead && q'.published == q.published;
  }

  /** So exactly when a dead-letter write that throws loses its message: when the stale mover or a retry pass
      has not dead-lettered, handled or expired it meanwhile. */
  lemma {:induction false} ThrowingDeadLetterLosesIff<M(!new)>(steps: seq<Step<M>>, w: nat)
    requires NoDup(Run(steps).pushed) && w in Run(steps).consumers && Run(steps).consumers[w].Failing?
    ensures var q := Run(steps);
            var m := q.consumers[w].m;
            Lost(Run(steps + [DeadLetterThrows(w)] + [Remove(w)]), m)
            <==> m !in q.dead && m !in q.handled && m !in q.expired
  {
    Then(steps, DeadLetterThrows(w));
    hide Run, Lost;
    var q := Run(steps);
    var q' := Do(q, DeadLetterThrows(w));
    assert w in q'.consumers && q'.consumers[w] == Finishing(q.consumers[w].m);
    assert q'.dead == q.dead && q'.handled == q.handled && q'.expired == q.expired && q'.pushed == q.pushed;
    RemovalLosesIff(steps + [DeadLetterThrows(w)], w);
  }

  /** Nobody is still working on the message. */
  ghost predicate Unheld<M(!new)>(q: Queue<M>, m: M) {
    && (forall w :: w in q.consumers ==> q.consumers[w].m != m)
    && (forall v :: v in q.movers ==> m !in q.movers[v])
    && (forall r :: r in q.retriers ==> q.retriers[r].m != m)
  }

  lemma LostStays<M(!new)>(q: Queue<M>, step: Step<M>, m: M)
    requires Lost(q, m) && Unheld(q, m) && step != Push(m)
    ensures Lost(Do(q, step), m)
  {
    hide RemoveLast, RemoveAll;
    if step.Pop? && |q.published| != 0 {
      PopSplits(q.published);
    }
  }

  lemma NoConsumer<M(!new)>(q: Queue<M>, step: Step<M>, m: M, w: nat)
    requires Lost(q, m) && Unheld(q, m) && w in Do(q, step).consumers
    ensures Do(q, step).consumers[w].m != m
  {
    hide RemoveLast, RemoveAll;
  }

  lemma NoMover<M(!new)>(q: Queue<M>, step: Step<M>, m: M, v: nat)
    requires Lost(q, m) && Unheld(q, m) && v in Do(q, step).movers
    ensures m !in Do(q, step).movers[v]
  {
    hide RemoveLast, RemoveAll;
  }

  lemma NoRetrier<M(!new)>(q: Queue<M>, step: Step<M>, m: M, r: nat)
    requires Lost(q, m) && Unheld(q, m) && r in Do(q, step).retriers
    ensures Do(q, step).retriers[r].m != m
  {
    hide RemoveLast, RemoveAll;
  }

  lemma UnheldStays<M(!new)>(q: Queue<M>, step: Step<M>, m: M)
    requires Lost(q, m) && Unheld(q, m) && step != Push(m)
    ensures Unheld(Do(q, step), m)
  {
    hide Do, Lost;
    var q' := Do(q, step);
    forall w | w in q'.consumers ensures q'.consumers[w].m != m { NoConsumer(q, step, m, w); }
    forall v | v in q'.movers ensures m !in q'.movers[v] { NoMover(q, step, m, v); }
    forall r | r in q'.retriers ensures q'.retriers[r].m != m { NoRetrier(q, step, m, r); }
  }

  /** A lost message that nobody holds stays lost until it is pushed again. */
  lemma {:induction false} LossIsFinal<M(!new)>(steps: seq<Step<M>>, more: seq<Step<M>>, m: M)
    requires Lost(Run(steps), m) && Unheld(Run(steps), m)
    requires forall i :: 0 <= i < |more| ==> more[i] != Push(m)
    ensures Lost(Run(steps + more), m) && Unheld(Run(steps + more), m)
  {
    hide Run, Do, Lost, Unheld;
    if |more| == 0 {
      assert steps + more == steps;
    } else {
      var front, last := more[..|more| - 1], more[|more| - 1];
      LossIsFinal(steps, front, m);
      assert steps + more == steps + front + [last];
      Then(steps + front, last);
      LostStays(Run(steps + front), last, m);
      UnheldStays(Run(steps + front), last, m);
    }
  }

  /** A fresh message, popped, whose handler throws. */
  lemma FailingAlone<M(!new)>(m: M) returns (steps: seq<Step<M>>)
    ensures var q := Run(steps);
            && q.pushed == [m] && 0 in q.consumers && q.consumers[0] == Failing(m)
            && q.dead == [] && q.handled == {} && q.expired == {}
  {
    hide RemoveAll, RemoveLast, Run;
    var none: seq<Step<M>> := [];
    var s1 := none + [Push(m)];
    var s2 := s1 + [Pop(0)];
    steps := s2 + [HandlerThrows(0)];
    Then(none, Push(m));
    Then(s1, Pop(0));
    Then(s2, HandlerThrows(0));
    NoSteps<M>();
    var q1, q2 := Run(s1), Run(s2);
    assert q1.published == [m] && q1.pushed == [m] && 0 !in q1.consumers && q1.dead == [];
    assert q2.pushed == [m] && 0 in q2.consumers && q2.consumers[0] == Handling(m) && q2.dead == [];
  }

  lemma NoSteps<M(!new)>()
    ensures Run<M>([]) == Start<M>()
  {
  }

  /** Such a state is reached at once: a fresh message whose handler throws and whose dead-letter write throws too. */
  lemma {:induction false} ThrowingDeadLetterLoses<M(!new)>(m: M)
    ensures exists steps :: Lost(Run(steps), m)
  {
    hide Run, Lost;
    var steps := FailingAlone(m);
    assert NoDup([m]);
    ThrowingDeadLetterLosesIff(steps, 0);
    assert Lost(Run(steps + [DeadLetterThrows(0)] + [Remove(0)]), m);
  }
}
