/** Instances of one subscribing application starting up, catching up and reacting to notifications while
    messages are published; without the distributed lock, and with no notification dropped. */
module CatchUpProtocol {
  import opened RedisLists
  import opened MessageQueues
  import opened Publishing

  /** SubscribeAsync registers, subscribes to the channel, reads the list length, then pops that many times. */
  datatype Stage = Registered | Listening | CatchingUp(remaining: nat)

  /** `notices` counts notifications received and not yet acted upon. */
  datatype Instance = Instance(stage: Stage, notices: nat)

  /** `pushed` and `popped` record what came to the published list and what left it, in order. */
  datatype Channel<M> = Channel(registered: bool, published: seq<M>, instances: map<nat, Instance>, pushed: seq<M>,
                                popped: seq<M>)

  datatype Step<M> =
    | Register(i: nat)
    | Subscribe(i: nat)
    | ReadLength(i: nat)
    | Publish(m: M)
    | React(i: nat)       // a notification's callback pops once, whatever becomes of its handler
    | CatchUp(i: nat)     // one turn of the catch-up loop pops once
    | Stop(i: nat)

  /** The message nearest the right end goes. */
  function Pop<M>(c: Channel<M>): Channel<M> {
    var n := |c.published|;
    if n == 0 then c else c.(published := c.published[..n - 1], popped := c.popped + [c.published[n - 1]])
  }

  function Notified(i: Instance): Instance {
    if i.stage == Registered then i else i.(notices := i.notices + 1)
  }

  /** One step; a step that is not enabled changes nothing. */
  function Do<M>(c: Channel<M>, step: Step<M>): Channel<M> {
    match step
    case Register(i) =>
      if i in c.instances then c else c.(registered := true, instances := c.instances[i := Instance(Registered, 0)])
    case Subscribe(i) =>
      if i !in c.instances || c.instances[i].stage != Registered then c
      else c.(instances := c.instances[i := Instance(Listening, 0)])
    case ReadLength(i) =>
      if i !in c.instances || c.instances[i].stage != Listening then c
      else c.(instances := c.instances[i := c.instances[i].(stage := CatchingUp(|c.published|))])
    case Publish(m) =>
      var told := c.(instances := map i | i in c.instances :: Notified(c.instances[i]));
      if c.registered then told.(published := [m] + c.published, pushed := c.pushed + [m]) else told
    case React(i) =>
      if i !in c.instances || c.instances[i].notices == 0 then c
      else Pop(c).(instances := c.instances[i := c.instances[i].(notices := c.instances[i].notices - 1)])
    case CatchUp(i) =>
      if i !in c.instances || !c.instances[i].stage.CatchingUp? || c.instances[i].stage.remaining == 0 then c
      else
        var left := c.instances[i].(stage := CatchingUp(c.instances[i].stage.remaining - 1));
        Pop(c).(instances := c.instances[i := left])
    case Stop(i) => c.(instances := c.instances - {i})
  }

  function Run<M>(steps: seq<Step<M>>): Channel<M> {
    if |steps| == 0 then Channel(false, [], map[], [], []) else Do(Run(steps[..|steps| - 1]), steps[|steps| - 1])
  }

  // ---- nothing waits without a trigger ----------------------------------------------------

  /** Every waiting message has a trigger left at every instance that has read the list length. */
  ghost predicate Covered<M>(c: Channel<M>) {
    forall i :: i in c.instances && c.instances[i].stage.CatchingUp? ==>
      |c.published| <= c.instances[i].notices + c.instances[i].stage.remaining
  }

  lemma {:induction false} AlwaysCovered<M>(steps: seq<Step<M>>)
    ensures Covered(Run(steps))
  {
    if |steps| != 0 {
      AlwaysCovered(steps[..|steps| - 1]);
      StepKeeps(Run(steps[..|steps| - 1]), steps[|steps| - 1]);
    }
  }

  lemma {:induction false} StepKeeps<M>(c: Channel<M>, step: Step<M>)
    requires Covered(c)
    ensures Covered(Do(c, step))
  {
  }

  /** The list is never longer than the triggers left at a running instance; so once one such instance has
      used up its catch-up turns and notifications, nothing waits -- whatever was published before,
      during or after its subscription. */
  lemma {:induction false} DrainedAtQuiescence<M>(steps: seq<Step<M>>, i: nat)
    ensures var c := Run(steps);
            i in c.instances && c.instances[i].stage.CatchingUp? ==>
              && |c.published| <= c.instances[i].notices + c.instances[i].stage.remaining
              && (c.instances[i].notices == 0 && c.instances[i].stage.remaining == 0 ==>
                    c.published == [] && c.popped == c.pushed)
  {
    AlwaysCovered(steps);
    PoppedInOrder(steps);
    var c := Run(steps);
    assert c.published == [] ==> c.popped + Reverse(c.published) == c.popped;
  }

  // ---- each trigger pops one message, in order --------------------------------------------

  /** The messages published since somebody registered. */
  function Sent<M>(steps: seq<Step<M>>): seq<M> {
    if |steps| == 0 then []
    else
      var before, last := steps[..|steps| - 1], steps[|steps| - 1];
      Sent(before) + if last.Publish? && (exists k :: 0 <= k < |before| && before[k].Register?) then [last.m] else []
  }

  /** The reactions and catch-up turns that were due when they were taken, and found a message. */
  function Pops<M>(steps: seq<Step<M>>): nat {
    if |steps| == 0 then 0
    else
      var before := Run(steps[..|steps| - 1]);
      Pops(steps[..|steps| - 1]) + if Triggered(before, steps[|steps| - 1]) && before.published != [] then 1 else 0
  }

  predicate Triggered<M>(c: Channel<M>, step: Step<M>) {
    match step
    case React(i) => i in c.instances && c.instances[i].notices > 0
    case CatchUp(i) => i in c.instances && c.instances[i].stage.CatchingUp? && c.instances[i].stage.remaining > 0
    case _ => false
  }

  /** Over every run: what was popped, followed by what waits, oldest first, is what was published since somebody
      registered; and each trigger popped one message unless there was none. */
  lemma {:induction false} PoppedInOrder<M>(steps: seq<Step<M>>)
    ensures var c := Run(steps);
            && c.popped + Reverse(c.published) == c.pushed == Sent(steps)
            && |c.popped| == Pops(steps)
            && (c.registered <==> exists k :: 0 <= k < |steps| && steps[k].Register?)
  {
    if |steps| != 0 {
      var before, last := steps[..|steps| - 1], steps[|steps| - 1];
      PoppedInOrder(before);
      assert forall k :: 0 <= k < |before| ==> before[k] == steps[k];
      assert (exists k :: 0 <= k < |steps| && steps[k].Register?)
             <==> (exists k :: 0 <= k < |before| && before[k].Register?) || steps[|steps| - 1].Register?;
      RegisterRegisters(before);
      hide Covered;
      StepMoves(Run(before), last);
    }
  }

  lemma {:induction false} RegisterRegisters<M>(steps: seq<Step<M>>)
    ensures forall i :: i in Run(steps).instances ==> Run(steps).registered
  {
    if |steps| != 0 { RegisterRegisters(steps[..|steps| - 1]); }
  }

  lemma StepMoves<M>(c: Channel<M>, step: Step<M>)
    requires c.popped + Reverse(c.published) == c.pushed
    requires (exists i :: i in c.instances) ==> c.registered
    ensures var c' := Do(c, step);
            && c'.popped + Reverse(c'.published) == c'.pushed
            && c'.pushed == c.pushed + (if step.Publish? && c.registered then [step.m] else [])
            && |c'.popped| == |c.popped| + (if Triggered(c, step) && c.published != [] then 1 else 0)
            && (c'.registered <==> c.registered || step.Register?)
  {
    hide Reverse, Pop;
    PopKeepsOrder(c);
    match step
    case Publish(m) =>
      ReversePush(m, c.published);
      assert c.popped + (Reverse(c.published) + [m]) == c.popped + Reverse(c.published) + [m];
    case _ =>
  }

  lemma ReversePush<M>(m: M, s: seq<M>)
    ensures Reverse([m] + s) == Reverse(s) + [m]
  {
    assert ([m] + s)[1..] == s;
  }

  lemma ReverseLast<M>(s: seq<M>)
    requires |s| > 0
    ensures Reverse(s) == [s[|s| - 1]] + Reverse(s[..|s| - 1])
  {
    var front, last := s[..|s| - 1], s[|s| - 1];
    assert s == front + [last];
    ReverseSnoc(front, last);
  }

  lemma ReverseSnoc<M>(front: seq<M>, last: M)
    ensures Reverse(front + [last]) == [last] + Reverse(front)
  {
    ReverseConcat(front, [last]);
    ReverseOne(last);
    hide Reverse;
  }

  lemma ReverseOne<M>(m: M)
    ensures Reverse([m]) == [m]
  {
    assert [m][1..] == [];
  }

  lemma PopKeepsOrder<M>(c: Channel<M>)
    ensures var c' := Pop(c);
            && c'.popped + Reverse(c'.published) == c.popped + Reverse(c.published)
            && |c'.popped| == |c.popped| + (if c.published != [] then 1 else 0)
            && c'.registered == c.registered && c'.pushed == c.pushed
  {
    hide Reverse;
    var n := |c.published|;
    if n > 0 {
      ReverseLast(c.published);
      assert c.popped + ([c.published[n - 1]] + Reverse(c.published[..n - 1]))
          == c.popped + [c.published[n - 1]] + Reverse(c.published[..n - 1]);
    }
  }

  // ---- what the steps are steps of --------------------------------------------------------

  /** A reaction, and a catch-up turn, leave the published list that the callback leaves, whatever the handler does. */
  lemma PopIsCallback(c: Channel<Message>, step: Step<Message>, q: Queues, handlerOk: Message -> bool, writeUp: bool)
    requires Triggered(c, step) && q.published == c.published
    ensures var (q', o) := Executed(q, handlerOk, writeUp);
            var c' := Do(c, step);
            && c'.published == q'.published
            && c'.popped == c.popped + match o
                                       case NothingWaiting => []
                                       case Completed(m) => [m]
                                       case DeadLettered(m) => [m]
                                       case WriteThrew(m) => [m]
  {
  }

  /** A publish does to the list of application `s` what the transaction of pushes does. */
  lemma PublishIsPush(c: Channel<Message>, m: Message, lists: map<string, seq<Message>>, members: seq<string>,
                      s: string)
    requires NoDup(members) && (s in members <==> c.registered) && ListIn(lists, s) == c.published
    ensures Do(c, Publish(m)).published == ListIn(PushAll(lists, members, m), s)
  {
    PushAllPushesOnce(lists, members, m, s);
  }

  function DoAll<M>(c: Channel<M>, steps: seq<Step<M>>): Channel<M> {
    if |steps| == 0 then c else Do(DoAll(c, steps[..|steps| - 1]), steps[|steps| - 1])
  }

  lemma DoLast<M>(c: Channel<M>, steps: seq<Step<M>>, step: Step<M>)
    ensures DoAll(c, steps + [step]) == Do(DoAll(c, steps), step)
  {
    assert (steps + [step])[..|steps|] == steps;
  }

  function Turns<M>(i: nat, n: nat): seq<Step<M>> {
    seq(n, _ => CatchUp(i))
  }

  /** A restart, up to the reading of the list length. */
  function Restart<M>(i: nat): seq<Step<M>> {
    [Stop(i)] + [Register(i)] + [Subscribe(i)] + [ReadLength(i)]
  }

  lemma {:induction false} CatchesUp<M>(c: Channel<M>, i: nat, n: nat)
    requires n <= |c.published|
    ensures var c', k := DoAll(c, Restart(i) + Turns(i, n)), |c.published| - n;
            && c'.published == c.published[..k] && c'.popped == c.popped + Reverse(c.published[k..])
            && c'.registered && c'.pushed == c.pushed
            && c'.instances == c.instances[i := Instance(CatchingUp(k), 0)]
  {
    hide DoAll, Do, Restart, Turns, Reverse;
    MoreTurns<M>(i, n);
    var k := |c.published| - n;
    if n == 0 {
      RestartsAt(c, i);
      NothingReversed<M>();
      assert c.published[k..] == [] && c.published[..k] == c.published && c.popped + [] == c.popped;
    } else {
      CatchesUp(c, i, n - 1);
      DoLast(c, Restart(i) + Turns(i, n - 1), CatchUp(i));
      TurnPops(DoAll(c, Restart(i) + Turns(i, n - 1)), i, k);
      OneMorePopped(c.published, c.popped, k);
    }
  }

  lemma NothingReversed<M>()
    ensures Reverse<M>([]) == []
  {
  }

  lemma OneMorePopped<M>(published: seq<M>, popped: seq<M>, k: nat)
    requires k < |published|
    ensures published[..k + 1][..k] == published[..k] && published[..k + 1][k] == published[k]
    ensures popped + Reverse(published[k + 1..]) + [published[k]] == popped + Reverse(published[k..])
  {
    hide Reverse;
    assert published[k..] == [published[k]] + published[k + 1..];
    ReversePush(published[k], published[k + 1..]);
    assert popped + Reverse(published[k + 1..]) + [published[k]]
        == popped + (Reverse(published[k + 1..]) + [published[k]]);
  }

  lemma MoreTurns<M>(i: nat, n: nat)
    ensures Restart<M>(i) + Turns(i, n)
            == if n == 0 then Restart(i) else Restart(i) + Turns(i, n - 1) + [CatchUp(i)]
  {
    hide Restart;
  }

  lemma TurnPops<M>(c: Channel<M>, i: nat, k: nat)
    requires i in c.instances && c.instances[i] == Instance(CatchingUp(k + 1), 0) && |c.published| == k + 1
    ensures var c' := Do(c, CatchUp(i));
            && c'.published == c.published[..k] && c'.popped == c.popped + [c.published[k]]
            && c'.registered == c.registered && c'.pushed == c.pushed
            && c'.instances == c.instances[i := Instance(CatchingUp(k), 0)]
  {
  }

  lemma RestartsAt<M>(c: Channel<M>, i: nat)
    ensures DoAll(c, Restart(i)) == c.(registered := true,
                                       instances := c.instances[i := Instance(CatchingUp(|c.published|), 0)])
  {
    hide DoAll, Do;
    var none: seq<Step<M>> := [];
    NoSteps(c);
    DoLast(c, none, Stop(i));
    assert none + [Stop(i)] == [Stop(i)];
    DoLast(c, [Stop(i)], Register(i));
    DoLast(c, [Stop(i)] + [Register(i)], Subscribe(i));
    DoLast(c, [Stop(i)] + [Register(i)] + [Subscribe(i)], ReadLength(i));
    RestartStates(c, i);
  }

  lemma NoSteps<M>(c: Channel<M>)
    ensures DoAll(c, []) == c
  {
  }

  lemma RestartStates<M>(c: Channel<M>, i: nat)
    ensures Do(Do(Do(Do(c, Stop(i)), Register(i)), Subscribe(i)), ReadLength(i))
            == c.(registered := true, instances := c.instances[i := Instance(CatchingUp(|c.published|), 0)])
  {
    assert (c.instances - {i})[i := Instance(CatchingUp(|c.published|), 0)]
        == c.instances[i := Instance(CatchingUp(|c.published|), 0)];
  }

  /** An instance that restarts undisturbed pops all that waits, oldest first, one message a turn. */
  lemma {:induction false} RestartIsARun<M>(c: Channel<M>, i: nat)
    ensures var c' := DoAll(c, Restart(i) + Turns(i, |c.published|));
            && c'.published == [] && c'.popped == c.popped + Reverse(c.published) && c'.registered
            && i in c'.instances && c'.instances[i] == Instance(CatchingUp(0), 0)
  {
    CatchesUp(c, i, |c.published|);
    assert c.published[0..] == c.published;
  }

  /** A message published to an instance that listens is popped by its next reaction, if nothing waited before, and
      otherwise waits behind the others. */
  lemma {:induction false} ReactionIsARun<M>(c: Channel<M>, i: nat, m: M)
    requires i in c.instances && c.instances[i].stage != Registered && c.registered
    ensures var c' := Do(Do(c, Publish(m)), React(i));
            && i in c'.instances && c'.instances[i] == c.instances[i]
            && c'.popped == c.popped + [if c.published == [] then m else c.published[|c.published| - 1]]
            && c'.published == if c.published == [] then [] else [m] + c.published[..|c.published| - 1]
  {
    assert Do(c, Publish(m)).published == [m] + c.published;
  }
}
