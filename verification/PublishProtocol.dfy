/** Publishers of one message type racing with registrations and with consumers. */
module PublishProtocol {
  import opened Outcomes
  import opened RedisLists
  import opened Publishing

  /** Where a call of PublishAsync stands. `members` is the subscriber set as it was read, one list entry
      each; `passed` counts the capacity waits behind it. */
  datatype Phase =
    | Reading
    | Waiting(members: seq<string>, passed: nat)
    | Returned(at: set<string>)   // the subscribers registered at the instant of the commit
    | Failed

  datatype Publisher = Publisher(phase: Phase, tries: nat)

  /** `lists` are the published lists, a message being named by the call that sends it; `received` records
      everything ever pushed to each. */
  datatype Broker = Broker(subscribers: set<string>, lists: map<string, seq<nat>>, received: map<string, seq<nat>>,
                           publishers: map<nat, Publisher>)

  datatype Step =
    | Register(s: string)
    | PopOne(s: string)
    | Begin(p: nat)
    | ReadMembers(p: nat, members: seq<string>)
    | PassWait(p: nat)
    | Execute(p: nat)
    | Throw(p: nat)     // a Redis call threw, without effect

  /** The retry count, the capacity all calls use if any, and how many calls may be in flight. */
  datatype Setting = Setting(retryCount: nat, capacity: Option<int>, limit: nat)

  predicate InFlight(p: Publisher) {
    p.phase.Reading? || p.phase.Waiting?
  }

  function Flying(b: Broker): set<nat> {
    set p | p in b.publishers && InFlight(b.publishers[p])
  }

  /** One step; a step that is not enabled changes nothing. */
  function Do(c: Setting, b: Broker, step: Step): Broker {
    match step
    case Register(s) => b.(subscribers := b.subscribers + {s})
    case PopOne(s) =>
      var list := ListIn(b.lists, s);
      if |list| == 0 then b else b.(lists := b.lists[s := list[..|list| - 1]])
    case Begin(p) =>
      if p in b.publishers || |Flying(b)| >= c.limit then b
      else b.(publishers := b.publishers[p := Publisher(if c.retryCount == 0 then Failed else Reading, 0)])
    case ReadMembers(p, members) =>
      if p !in b.publishers || !b.publishers[p].phase.Reading? || !Lists(members, b.subscribers) then b
      else b.(publishers := b.publishers[p := b.publishers[p].(phase := Waiting(members, 0))])
    case PassWait(p) =>
      if p !in b.publishers || !b.publishers[p].phase.Waiting? then b
      else
        var me := b.publishers[p];
        var members, passed := me.phase.members, me.phase.passed;
        if passed >= |members| || (c.capacity.Some? && |ListIn(b.lists, members[passed])| >= c.capacity.value) then b
        else b.(publishers := b.publishers[p := me.(phase := Waiting(members, passed + 1))])
    case Execute(p) =>
      if p !in b.publishers || !b.publishers[p].phase.Waiting?
         || b.publishers[p].phase.passed < |b.publishers[p].phase.members|
      then b
      else
        var me := b.publishers[p];
        var members := me.phase.members;
        if |b.subscribers| == |members| then
          Broker(b.subscribers, PushAll(b.lists, members, p), PushAll(b.received, members, p),
                 b.publishers[p := me.(phase := Returned(b.subscribers))])
        else
          var phase := if me.tries + 1 < c.retryCount then Reading else Failed;
          b.(publishers := b.publishers[p := Publisher(phase, me.tries + 1)])
    case Throw(p) =>
      if p !in b.publishers || !InFlight(b.publishers[p]) then b
      else b.(publishers := b.publishers[p := b.publishers[p].(phase := Failed)])
  }

  function Run(c: Setting, steps: seq<Step>): Broker {
    if |steps| == 0 then Broker({}, map[], map[], map[]) else Do(c, Run(c, steps[..|steps| - 1]), steps[|steps| - 1])
  }

  // ---- exact fan-out ----------------------------------------------------------------------

  /** How often the message of call `p` was pushed to `s`. */
  function Pushes(b: Broker, p: nat, s: string): nat {
    multiset(ListIn(b.received, s))[p]
  }

  ghost predicate PublisherOk(b: Broker, p: nat) {
    if p !in b.publishers then forall s :: Pushes(b, p, s) == 0
    else match b.publishers[p].phase
      case Returned(at) => at <= b.subscribers && forall s :: Pushes(b, p, s) == if s in at then 1 else 0
      case Waiting(members, passed) =>
        passed <= |members| && NoDup(members) && (forall s :: s in members ==> s in b.subscribers)
        && forall s :: Pushes(b, p, s) == 0
      case _ => forall s :: Pushes(b, p, s) == 0
  }

  ghost predicate FanOutOk(b: Broker) {
    forall p: nat :: PublisherOk(b, p)
  }

  lemma CountPush(p: nat, list: seq<nat>, q: nat)
    ensures multiset([p] + list)[q] == multiset(list)[q] + if q == p then 1 else 0
  {
  }

  /** The pushes of a transaction that went through. */
  lemma PushesAfter(b: Broker, received: map<string, seq<nat>>, members: seq<string>, p: nat, q: nat, s: string)
    requires NoDup(members) && received == PushAll(b.received, members, p)
    ensures multiset(ListIn(received, s))[q] == Pushes(b, q, s) + if q == p && s in members then 1 else 0
  {
    PushAllPushesOnce(b.received, members, p, s);
    CountPush(p, ListIn(b.received, s), q);
  }

  lemma CommitKeepsFanOut(b: Broker, b': Broker, p: nat, members: seq<string>)
    requires FanOutOk(b) && p in b.publishers && b.publishers[p].phase.Waiting?
        && b.publishers[p].phase.members == members
    requires |b.subscribers| == |members| && b'.subscribers == b.subscribers
    requires b'.received == PushAll(b.received, members, p)
    requires b'.publishers == b.publishers[p := b.publishers[p].(phase := Returned(b.subscribers))]
    ensures FanOutOk(b')
  {
    hide Pushes, PushAll;
    assert PublisherOk(b, p);
    SameSizeSameSet(members, b.subscribers);
    forall q: nat ensures PublisherOk(b', q) {
      assert PublisherOk(b, q);
      forall s ensures Pushes(b', q, s) == Pushes(b, q, s) + if q == p && s in members then 1 else 0 {
        PushesOf(b', q, s);
        PushesAfter(b, b'.received, members, p, q, s);
      }
    }
  }

  lemma PushesOf(b: Broker, q: nat, s: string)
    ensures Pushes(b, q, s) == multiset(ListIn(b.received, s))[q]
  {
  }

  lemma ExecuteKeepsFanOut(c: Setting, b: Broker, p: nat)
    requires FanOutOk(b) && p in b.publishers
    ensures FanOutOk(Do(c, b, Execute(p)))
  {
    hide FanOutOk, Pushes, PushAll, Flying;
    var b' := Do(c, b, Execute(p));
    if b' != b {
      var members := b.publishers[p].phase.members;
      if |b.subscribers| == |members| {
        CommitKeepsFanOut(b, b', p, members);
      } else {
        RetryKeepsFanOut(b, b', p);
      }
    }
  }

  lemma RetryKeepsFanOut(b: Broker, b': Broker, p: nat)
    requires FanOutOk(b) && p in b.publishers && b.publishers[p].phase.Waiting?
    requires b'.received == b.received && b'.subscribers == b.subscribers
    requires p in b'.publishers && b'.publishers == b.publishers[p := b'.publishers[p]]
    requires b'.publishers[p].phase == Reading || b'.publishers[p].phase == Failed
    ensures FanOutOk(b')
  {
    assert PublisherOk(b, p);
    SamePushes(b, b', p);
    hide Pushes, FanOutOk;
    OneCallMoved(b, b', p);
  }

  /** A step that pushes nothing concerns one call at most. */
  lemma OneCallMoved(b: Broker, b': Broker, p: nat)
    requires FanOutOk(b) && b'.received == b.received && b.subscribers <= b'.subscribers
    requires forall q: nat :: q != p ==> (q in b'.publishers <==> q in b.publishers)
                                         && (q in b.publishers ==> b'.publishers[q] == b.publishers[q])
    requires PublisherOk(b', p)
    ensures FanOutOk(b')
  {
    forall q: nat ensures PublisherOk(b', q) {
      if q != p {
        assert PublisherOk(b, q);
        SamePushes(b, b', q);
        hide Pushes;
      }
    }
  }

  lemma SamePushes(b: Broker, b': Broker, q: nat)
    requires b'.received == b.received
    ensures forall s :: Pushes(b', q, s) == Pushes(b, q, s)
  {
  }

  lemma {:induction false} StepKeepsFanOut(c: Setting, b: Broker, step: Step)
    requires FanOutOk(b)
    ensures FanOutOk(Do(c, b, step))
  {
    var b' := Do(c, b, step);
    if step.Execute? {
      if step.p in b.publishers { ExecuteKeepsFanOut(c, b, step.p); }
    } else if b' != b {
      var p := if step.Register? || step.PopOne? then 0 else step.p;
      assert PublisherOk(b, p);
      SamePushes(b, b', p);
      hide Pushes, Flying, FanOutOk;
      OneCallMoved(b, b', p);
    }
  }

  lemma {:induction false} AlwaysFansOut(c: Setting, steps: seq<Step>)
    ensures FanOutOk(Run(c, steps))
  {
    if |steps| != 0 {
      AlwaysFansOut(c, steps[..|steps| - 1]);
      StepKeepsFanOut(c, Run(c, steps[..|steps| - 1]), steps[|steps| - 1]);
    }
  }

  /** A publish that returned pushed its message exactly once to each subscriber registered at its commit
      and to nobody else; one that failed, or is still trying, pushed it to nobody. */
  lemma {:induction false} FanOutIsExact(c: Setting, steps: seq<Step>, p: nat, s: string)
    ensures var b := Run(c, steps);
            p in b.publishers ==>
              var phase := b.publishers[p].phase;
              Pushes(b, p, s) == if phase.Returned? && s in phase.at then 1 else 0
  {
    AlwaysFansOut(c, steps);
    assert PublisherOk(Run(c, steps), p);
  }

  // ---- capacity ---------------------------------------------------------------------------

  /** The calls that are past the wait for `s` and have neither committed nor given up this try. */
  function Past(b: Broker, s: string): set<nat> {
    set p | p in b.publishers && b.publishers[p].phase.Waiting?
            && b.publishers[p].phase.passed <= |b.publishers[p].phase.members|
            && s in b.publishers[p].phase.members[..b.publishers[p].phase.passed]
  }

  ghost predicate CapacityOk(c: Setting, b: Broker)
    requires c.capacity.Some?
  {
    && |Flying(b)| <= c.limit
    && forall s :: |ListIn(b.lists, s)| + |Past(b, s)| <= c.capacity.value - 1 + c.limit
  }

  lemma {:induction false} StepKeepsCapacity(c: Setting, b: Broker, step: Step)
    requires c.capacity.Some? && c.capacity.value + c.limit >= 1
    requires FanOutOk(b) && CapacityOk(c, b)
    ensures CapacityOk(c, Do(c, b, step))
  {
    var b' := Do(c, b, step);
    FlyingStep(c, b, step);
    forall s ensures |ListIn(b'.lists, s)| + |Past(b', s)| <= c.capacity.value - 1 + c.limit {
      PastStep(c, b, step, s);
    }
  }

  lemma FlyingStep(c: Setting, b: Broker, step: Step)
    requires |Flying(b)| <= c.limit
    ensures |Flying(Do(c, b, step))| <= c.limit
  {
    var b' := Do(c, b, step);
    if step.Begin? && b' != b {
      SubsetSize(Flying(b'), Flying(b) + {step.p});
    } else {
      SubsetSize(Flying(b'), Flying(b));
    }
  }

  /** What one step does to one list and to the calls past its wait. */
  lemma PastStep(c: Setting, b: Broker, step: Step, s: string)
    requires c.capacity.Some? && FanOutOk(b)
    requires |Flying(Do(c, b, step))| <= c.limit
    requires |ListIn(b.lists, s)| + |Past(b, s)| <= c.capacity.value - 1 + c.limit
    ensures var b' := Do(c, b, step); |ListIn(b'.lists, s)| + |Past(b', s)| <= c.capacity.value - 1 + c.limit
  {
    var b' := Do(c, b, step);
    if step.Execute? {
      if b' != b { ExecuteStep(c, b, step.p, s); }
    } else if step.PassWait? {
      if |ListIn(b.lists, s)| >= c.capacity.value {
        FullListHoldsBack(c, b, step.p, s);
      } else {
        assert Past(b', s) <= Flying(b') && b'.lists == b.lists;
        SubsetSize(Past(b', s), Flying(b'));
      }
    } else {
      OthersWaitOn(c, b, step, s);
      SubsetSize(Past(b', s), Past(b, s));
    }
  }

  /** No other step takes a call past a wait or lengthens a list. */
  lemma OthersWaitOn(c: Setting, b: Broker, step: Step, s: string)
    requires !step.Execute? && !step.PassWait?
    ensures var b' := Do(c, b, step); Past(b', s) <= Past(b, s) && |ListIn(b'.lists, s)| <= |ListIn(b.lists, s)|
  {
    hide Flying;
    var b' := Do(c, b, step);
    forall p | p in Past(b', s) ensures p in Past(b, s) {
      assert p in b.publishers && b'.publishers[p] == b.publishers[p];
    }
  }

  /** A call that executes its transaction is no longer past any wait, pushed or not. */
  lemma ExecuteStep(c: Setting, b: Broker, p: nat, s: string)
    requires FanOutOk(b) && p in b.publishers && Do(c, b, Execute(p)) != b
    ensures var b' := Do(c, b, Execute(p)); |ListIn(b'.lists, s)| + |Past(b', s)| <= |ListIn(b.lists, s)| + |Past(b, s)|
  {
    assert PublisherOk(b, p);
    var b' := Do(c, b, Execute(p));
    var members := b.publishers[p].phase.members;
    PushAllPushesOnce(b.lists, members, p, s);
    PastAfterExecute(c, b, p, s);
    hide PushAll, Past, FanOutOk;
  }

  lemma PastAfterExecute(c: Setting, b: Broker, p: nat, s: string)
    requires p in b.publishers && Do(c, b, Execute(p)) != b
        && b.publishers[p].phase.passed <= |b.publishers[p].phase.members|
    ensures Past(Do(c, b, Execute(p)), s) == Past(b, s) - {p}
    ensures p in Past(b, s) <==> s in b.publishers[p].phase.members
  {
    hide PushAll;
    var members := b.publishers[p].phase.members;
    assert members[..|members|] == members;
  }

  /** A list at capacity lets no call past its wait. */
  lemma FullListHoldsBack(c: Setting, b: Broker, p: nat, s: string)
    requires c.capacity.Some? && |ListIn(b.lists, s)| >= c.capacity.value
    ensures Past(Do(c, b, PassWait(p)), s) == Past(b, s) && Do(c, b, PassWait(p)).lists == b.lists
  {
    var b' := Do(c, b, PassWait(p));
    if b' != b {
      var me := b.publishers[p].phase;
      assert me.members[..me.passed + 1] == me.members[..me.passed] + [me.members[me.passed]];
      assert s != me.members[me.passed];
      assert Past(b', s) == Past(b, s);
    }
  }

  lemma {:induction false} AlwaysWithinCapacity(c: Setting, steps: seq<Step>)
    requires c.capacity.Some? && c.capacity.value + c.limit >= 1
    ensures CapacityOk(c, Run(c, steps))
  {
    if |steps| == 0 {
      assert Flying(Run(c, steps)) == {};
      assert forall s :: Past(Run(c, steps), s) == {};
    } else {
      AlwaysWithinCapacity(c, steps[..|steps| - 1]);
      AlwaysFansOut(c, steps[..|steps| - 1]);
      StepKeepsCapacity(c, Run(c, steps[..|steps| - 1]), steps[|steps| - 1]);
    }
  }

  /** With at most `limit` calls in flight a published list exceeds the capacity by less than `limit`, even
      counting the calls about to push to it; so a single publisher never exceeds the capacity. */
  lemma {:induction false} ListsStayNearCapacity(c: Setting, steps: seq<Step>, s: string)
    requires c.capacity.Some? && c.capacity.value + c.limit >= 1
    ensures var b := Run(c, steps);
            && |ListIn(b.lists, s)| + |Past(b, s)| <= c.capacity.value - 1 + c.limit
            && (c.limit == 1 ==> |ListIn(b.lists, s)| <= c.capacity.value)
  {
    AlwaysWithinCapacity(c, steps);
  }

  // ---- an undisturbed try -----------------------------------------------------------------

  function DoAll(c: Setting, b: Broker, steps: seq<Step>): Broker {
    if |steps| == 0 then b else Do(c, DoAll(c, b, steps[..|steps| - 1]), steps[|steps| - 1])
  }

  lemma DoThen(c: Setting, b: Broker, steps: seq<Step>, step: Step)
    ensures DoAll(c, b, steps + [step]) == Do(c, DoAll(c, b, steps), step)
  {
    assert (steps + [step])[..|steps|] == steps;
  }

  /** The set is read, `n` waits are passed, and then `late` registers. */
  function TrySteps(p: nat, members: seq<string>, n: nat, late: seq<string>): seq<Step> {
    if |late| != 0 then TrySteps(p, members, n, late[..|late| - 1]) + [Register(late[|late| - 1])]
    else if n != 0 then TrySteps(p, members, n - 1, []) + [PassWait(p)]
    else [ReadMembers(p, members)]
  }

  function Elements(late: seq<string>): set<string> {
    if |late| == 0 then {} else Elements(late[..|late| - 1]) + {late[|late| - 1]}
  }

  /** Nothing is pushed yet, and the call is past `n` of its waits. */
  ghost predicate Ready(b: Broker, after: Broker, p: nat, members: seq<string>, n: nat, newcomers: set<string>)
    requires p in b.publishers
  {
    && after.subscribers == b.subscribers + newcomers && after.lists == b.lists
    && p in after.publishers && after.publishers[p] == Publisher(Waiting(members, n), b.publishers[p].tries)
  }

  lemma RegisterStays(c: Setting, b: Broker, after: Broker, p: nat, members: seq<string>, n: nat,
                      newcomers: set<string>, s: string)
    requires p in b.publishers && Ready(b, after, p, members, n, newcomers)
    ensures Ready(b, Do(c, after, Register(s)), p, members, n, newcomers + {s})
  {
    assert b.subscribers + newcomers + {s} == b.subscribers + (newcomers + {s});
  }

  /** The list of every member is shorter than the capacity, if there is one. */
  predicate Room(c: Setting, b: Broker, members: seq<string>) {
    c.capacity.Some? ==> forall i :: 0 <= i < |members| ==> |ListIn(b.lists, members[i])| < c.capacity.value
  }

  lemma WaitPasses(c: Setting, b: Broker, after: Broker, p: nat, members: seq<string>, n: nat)
    requires Room(c, b, members) && p in b.publishers && n < |members| && Ready(b, after, p, members, n, {})
    ensures Ready(b, Do(c, after, PassWait(p)), p, members, n + 1, {})
  {
  }

  lemma {:induction false} UpToExecute(c: Setting, b: Broker, p: nat, members: seq<string>, n: nat, late: seq<string>)
    requires Room(c, b, members) && p in b.publishers && b.publishers[p].phase == Reading
    requires Lists(members, b.subscribers) && n <= |members|
    ensures Ready(b, DoAll(c, b, TrySteps(p, members, n, late)), p, members, n, Elements(late))
    decreases |late|, n
  {
    if |late| != 0 {
      var front, last := late[..|late| - 1], late[|late| - 1];
      UpToExecute(c, b, p, members, n, front);
      DoThen(c, b, TrySteps(p, members, n, front), Register(last));
      hide DoAll, Do, Ready, Lists, Room;
      RegisterStays(c, b, DoAll(c, b, TrySteps(p, members, n, front)), p, members, n, Elements(front), last);
    } else if n != 0 {
      UpToExecute(c, b, p, members, n - 1, []);
      DoThen(c, b, TrySteps(p, members, n - 1, []), PassWait(p));
      hide DoAll, Do, Ready, Lists, Room;
      WaitPasses(c, b, DoAll(c, b, TrySteps(p, members, n - 1, [])), p, members, n - 1);
    } else {
      DoThen(c, b, [], ReadMembers(p, members));
      assert [] + [ReadMembers(p, members)] == [ReadMembers(p, members)];
      assert b.subscribers + {} == b.subscribers;
    }
  }

  lemma ExecutePushes(c: Setting, b: Broker, after: Broker, p: nat, members: seq<string>, newcomers: set<string>)
    requires p in b.publishers && Lists(members, b.subscribers) && Ready(b, after, p, members, |members|, newcomers)
    ensures var done := Do(c, after, Execute(p));
            && done.subscribers == b.subscribers + newcomers
            && p in done.publishers && (newcomers <= b.subscribers <==> done.publishers[p].phase.Returned?)
            && (!(newcomers <= b.subscribers) ==>
                  var tries := b.publishers[p].tries + 1;
                  done.publishers[p] == Publisher(if tries < c.retryCount then Reading else Failed, tries))
            && done.lists == if newcomers <= b.subscribers then PushAll(b.lists, members, p) else b.lists
  {
    SameSizeIff(members, b.subscribers, newcomers);
    hide Lists;
  }

  /** `TryPublish` is what these steps come to when no other call takes any and there is room in the lists; a call
      whose try meets a newcomer reads the set again as long as it has tries left. */
  lemma {:induction false} TryIsARun(c: Setting, b: Broker, p: nat, members: seq<string>, late: seq<string>)
    requires Room(c, b, members) && Lists(members, b.subscribers)
    requires p in b.publishers && b.publishers[p].phase == Reading
    ensures var after := DoAll(c, b, TrySteps(p, members, |members|, late) + [Execute(p)]);
            var newcomers, tries := Elements(late), b.publishers[p].tries + 1;
            && after.subscribers == b.subscribers + newcomers
            && p in after.publishers && (newcomers <= b.subscribers <==> after.publishers[p].phase.Returned?)
            && (newcomers <= b.subscribers ==> PushedTo(b.lists, after.lists, after.subscribers, None, p))
            && (!(newcomers <= b.subscribers) ==>
                  && after.lists == b.lists
                  && after.publishers[p] == Publisher(if tries < c.retryCount then Reading else Failed, tries))
  {
    UpToExecute(c, b, p, members, |members|, late);
    DoThen(c, b, TrySteps(p, members, |members|, late), Execute(p));
    hide DoAll, TrySteps, Do, Room;
    ExecutePushes(c, b, DoAll(c, b, TrySteps(p, members, |members|, late)), p, members, Elements(late));
    hide Ready, Elements, PushAll;
    if Elements(late) <= b.subscribers {
      assert b.subscribers + Elements(late) == b.subscribers;
      PushedOnce(b.lists, members, b.subscribers, p);
    }
  }

  /** A call at the wait for a list goes on exactly when the list is short enough by then, and a pop makes room. */
  lemma {:induction false} WaitsForRoom(c: Setting, b: Broker, p: nat, members: seq<string>, n: nat)
    requires p in b.publishers && b.publishers[p].phase == Waiting(members, n) && n < |members|
    ensures var list := ListIn(b.lists, members[n]);
            var passed := Waiting(members, n + 1);
            && (Do(c, b, PassWait(p)).publishers[p].phase == passed <==>
                  c.capacity.None? || |list| < c.capacity.value)
            && (c.capacity.Some? && |list| == c.capacity.value > 0 ==>
                  var popped := Do(c, b, PopOne(members[n]));
                  && ListIn(popped.lists, members[n]) == list[..|list| - 1]
                  && Do(c, popped, PassWait(p)).publishers[p].phase == passed)
  {
  }

  /** A call that a throw ends is over: whatever it would have done next changes nothing. */
  lemma {:induction false} ThrowEnds(c: Setting, b: Broker, p: nat, members: seq<string>)
    requires p in b.publishers && InFlight(b.publishers[p])
    ensures var after := Do(c, b, Throw(p));
            && after.lists == b.lists && after.received == b.received && after.subscribers == b.subscribers
            && Do(c, after, ReadMembers(p, members)) == after && Do(c, after, PassWait(p)) == after
            && Do(c, after, Execute(p)) == after && Flying(after) == Flying(b) - {p}
  {
    hide Lists, PushAll;
  }

  /** A call begins as long as fewer than the limit are in flight, and one with no tries fails at once. */
  lemma {:induction false} BeginsBelowLimit(c: Setting, b: Broker, p: nat)
    requires p !in b.publishers
    ensures var after := Do(c, b, Begin(p));
            if |Flying(b)| >= c.limit then after == b
            else && p in after.publishers && after.publishers[p].tries == 0
                 && (after.publishers[p].phase == Reading <==> c.retryCount > 0)
                 && (after.publishers[p].phase == Failed <==> c.retryCount == 0)
                 && after.lists == b.lists && after.subscribers == b.subscribers
  {
  }

  lemma PushedOnce(lists: map<string, seq<nat>>, members: seq<string>, subscribers: set<string>, p: nat)
    requires Lists(members, subscribers)
    ensures PushedTo(lists, PushAll(lists, members, p), subscribers, None, p)
  {
    forall s
      ensures ListIn(PushAll(lists, members, p), s) == if s in subscribers then [p] + ListIn(lists, s)
          else ListIn(lists, s)
    {
      PushAllPushesOnce(lists, members, p, s);
    }
    hide PushAll;
  }
}
