/** A retry pass while consumers push dead letters: every push shifts the indices that the pass goes by. */
module RetryRaces {
  import opened RedisLists
  import opened MessageQueues
  import opened Retries

  /** `turns` are the turns the loop has left, one for each letter there was when it read the length. */
  datatype Race = Race(q: Queues, at: nat, turns: nat, looked: seq<Message>, pushes: nat, expiries: nat)

  datatype Step =
    | Push(m: Message)   // a dead-letter write or a moved entry, at the left end
    | Look(env: Env)     // one turn of the loop

  /** One step; a step that is not enabled changes nothing. Letters are told apart by their value. */
  function Do(policy: Policy, r: Race, step: Step): Race {
    match step
    case Push(m) =>
      if m in r.q.dead then r else r.(q := r.q.(dead := [m] + r.q.dead), pushes := r.pushes + 1)
    case Look(env) =>
      if r.turns == 0 then r
      else if r.at >= |r.q.dead| then r.(at := r.at + 1, turns := r.turns - 1)
      else
        var m := r.q.dead[r.at];
        Race(TurnOf(policy, env, r.q, m), NextIndex(policy, env, r.q, r.at), r.turns - 1, r.looked + [m], r.pushes,
             r.expiries + if Judge(policy, r.q.retryData, m, env.checkedAt(m)) == Expire then 1 else 0)
  }

  function Run(policy: Policy, q: Queues, steps: seq<Step>): Race {
    if |steps| == 0 then Race(q, 0, |q.dead|, [], 0, 0)
    else Do(policy, Run(policy, q, steps[..|steps| - 1]), steps[|steps| - 1])
  }

  /** What a look does to the list and the index: the letter stays or goes, and the index moves on unless a letter
      went that had not expired. */
  ghost predicate Effect(dead: seq<Message>, at: nat, dead': seq<Message>, at': nat, expired: bool)
    requires at < |dead|
  {
    var without := dead[..at] + dead[at + 1..];
    if expired then dead' == without && at' == at + 1
    else (dead' == dead && at' == at + 1) || (dead' == without && at' == at)
  }

  lemma LookEffect(policy: Policy, env: Env, r: Race)
    requires NoDup(r.q.dead) && r.turns > 0 && r.at < |r.q.dead|
    ensures var r' := Do(policy, r, Look(env));
            && NoDup(r'.q.dead) && r'.looked == r.looked + [r.q.dead[r.at]] && r'.turns == r.turns - 1
            && r'.pushes == r.pushes && r.expiries <= r'.expiries <= r.expiries + 1
            && Effect(r.q.dead, r.at, r'.q.dead, r'.at, r'.expiries > r.expiries)
  {
    hide NoDup, BackedOff, TooOld;
    RemoveAt(r.q.dead, r.at);
  }

  /** How many letters the pass counts as processed. */
  function Processed(policy: Policy, q: Queues, steps: seq<Step>): nat {
    if |steps| == 0 then 0
    else
      var before, last := Run(policy, q, steps[..|steps| - 1]), steps[|steps| - 1];
      Processed(policy, q, steps[..|steps| - 1])
      + if last.Look? && before.turns > 0 && before.at < |before.q.dead|
           && var m := before.q.dead[before.at];
              Judge(policy, before.q.retryData, m, last.env.checkedAt(m)) == Retry && last.env.handlerOk(m)
        then 1 else 0
  }

  /** Whatever is pushed meanwhile, the index is the number of turns taken less the letters processed. */
  lemma {:induction false} IndexIsTurnsLessProcessed(policy: Policy, q: Queues, steps: seq<Step>)
    ensures var r := Run(policy, q, steps); r.at + Processed(policy, q, steps) + r.turns == |q.dead|
  {
    if |steps| != 0 {
      IndexIsTurnsLessProcessed(policy, q, steps[..|steps| - 1]);
      hide Judge, TurnOf;
    }
  }

  // ---- which letters go unlooked at -------------------------------------------------------

  /** The letters from `start[k]` on are still ahead of the index, at the end of the list. */
  ghost predicate AtEnd(start: seq<Message>, dead: seq<Message>, at: nat, k: nat) {
    && k <= |start|
    && (k < |start| ==> at + (|start| - k) <= |dead| && dead[|dead| - (|start| - k)..] == start[k..])
  }

  /** Those before have been looked at, or passed over: `missed`. */
  ghost predicate Ahead(start: seq<Message>, r: Race, k: nat, missed: seq<Message>) {
    && NoDup(r.q.dead) && AtEnd(start, r.q.dead, r.at, k) && |missed| <= r.expiries
    && (forall j :: 0 <= j < k ==> start[j] in r.looked || start[j] in missed)
    && (k < |start| ==> |r.q.dead| - r.at == r.turns + r.pushes - r.expiries)
  }

  lemma PushKeepsAhead(policy: Policy, start: seq<Message>, r: Race, m: Message, k: nat, missed: seq<Message>)
    requires Ahead(start, r, k, missed)
    ensures Ahead(start, Do(policy, r, Push(m)), k, missed)
  {
    if m !in r.q.dead {
      PrependNoDup(m, r.q.dead);
      hide NoDup;
      if k < |start| {
        var n := |r.q.dead| - (|start| - k);
        assert ([m] + r.q.dead)[n + 1..] == r.q.dead[n..];
      }
    }
  }

  /** How far a look gets: to the letter it looked at, and past the one it passed over, if there are such. */
  lemma LookMoves(start: seq<Message>, dead: seq<Message>, at: nat, dead': seq<Message>, at': nat, expired: bool,
                  k: nat)
    returns (k': nat, passed: seq<Message>)
    requires at < |dead| && Effect(dead, at, dead', at', expired) && AtEnd(start, dead, at, k)
    ensures k <= k' && AtEnd(start, dead', at', k')
    ensures forall j :: k <= j < k' ==> start[j] == dead[at] || start[j] in passed
    ensures |passed| <= if expired then 1 else 0
    ensures k' < |start| ==> k < |start|
  {
    k', passed := k, [];
    if k < |start| {
      var n := |dead| - (|start| - k);
      assert dead[n] == start[k];
      if at == n { k' := k + 1; }
      if expired && n - 1 <= at && k' < |start| {
        passed := [start[k']];
        k' := k' + 1;
      }
      EndStays(start, dead, dead', at, k, k');
    }
  }

  /** The end of the list, counted in letters of `start`, after one look. */
  lemma EndStays(start: seq<Message>, dead: seq<Message>, dead': seq<Message>, at: nat, k: nat, k': nat)
    requires k < |start| && |start| - k <= |dead| && dead[|dead| - (|start| - k)..] == start[k..]
    requires k <= k' <= |start| && at < |dead| && (dead' == dead || dead' == dead[..at] + dead[at + 1..])
    requires dead' != dead ==> at < |dead| - (|start| - k')
    ensures |start| - k' <= |dead'| && dead'[|dead'| - (|start| - k')..] == start[k'..]
  {
    var n, n' := |dead| - (|start| - k), |dead| - (|start| - k');
    assert dead[n'..] == dead[n..][n' - n..] && start[k'..] == start[k..][k' - k..];
    if dead' != dead { assert dead'[n' - 1..] == dead[n'..]; }
  }

  lemma LookKeepsAhead(policy: Policy, env: Env, start: seq<Message>, r: Race, k: nat, missed: seq<Message>)
    returns (k': nat, missed': seq<Message>)
    requires Ahead(start, r, k, missed)
    ensures Ahead(start, Do(policy, r, Look(env)), k', missed')
  {
    k', missed' := k, missed;
    if r.turns > 0 && r.at < |r.q.dead| {
      LookEffect(policy, env, r);
      var r' := Do(policy, r, Look(env));
      hide Do, AtEnd, NoDup;
      var passed;
      k', passed := LookMoves(start, r.q.dead, r.at, r'.q.dead, r'.at, r'.expiries > r.expiries, k);
      missed' := missed + passed;
    } else {
      hide NoDup;
    }
  }

  lemma {:induction false} AlwaysAhead(policy: Policy, q: Queues, steps: seq<Step>)
    returns (k: nat, missed: seq<Message>)
    requires NoDup(q.dead)
    ensures Ahead(q.dead, Run(policy, q, steps), k, missed)
  {
    if |steps| == 0 {
      k, missed := 0, [];
    } else {
      k, missed := AlwaysAhead(policy, q, steps[..|steps| - 1]);
      var r := Run(policy, q, steps[..|steps| - 1]);
      hide Ahead, Do, NoDup;
      match steps[|steps| - 1]
      case Push(m) => PushKeepsAhead(policy, q.dead, r, m, k, missed);
      case Look(env) => k, missed := LookKeepsAhead(policy, env, q.dead, r, k, missed);
    }
  }

  /** However many letters are pushed between the turns of a pass: of the letters it started with, at most as many go
      unlooked at as were pushed meanwhile, or as expired if these are more. */
  lemma {:induction false} UnlookedAtMost(policy: Policy, q: Queues, steps: seq<Step>) returns (unlooked: seq<Message>)
    requires NoDup(q.dead) && Run(policy, q, steps).turns == 0
    ensures var r := Run(policy, q, steps);
            && (forall m :: m in q.dead ==> m in r.looked || m in unlooked)
            && |unlooked| <= if r.pushes > r.expiries then r.pushes else r.expiries
  {
    var k, missed := AlwaysAhead(policy, q, steps);
    hide NoDup, Run;
    unlooked := missed + q.dead[k..];
    forall m | m in q.dead ensures m in Run(policy, q, steps).looked || m in unlooked {
      var j :| 0 <= j < |q.dead| && q.dead[j] == m;
      if j >= k { assert q.dead[k..][j - k] == m; }
    }
  }

  // ---- how often a letter is looked at ----------------------------------------------------

  /** Looks at `m` so far: no more than pushes while it is still ahead of the index, and one more at most then. */
  ghost predicate Counted(r: Race, m: Message) {
    && NoDup(r.q.dead) && multiset(r.looked)[m] <= r.pushes + 1
    && forall i :: r.at <= i < |r.q.dead| && r.q.dead[i] == m ==> multiset(r.looked)[m] <= r.pushes
  }

  lemma StepKeepsCounted(policy: Policy, r: Race, step: Step, m: Message)
    requires Counted(r, m)
    ensures Counted(Do(policy, r, step), m)
  {
    var r' := Do(policy, r, step);
    match step
    case Push(x) =>
      if x !in r.q.dead { PrependNoDup(x, r.q.dead); }
    case Look(env) =>
      if r.turns > 0 && r.at < |r.q.dead| {
        LookEffect(policy, env, r);
        hide Do;
        LookCounts(r.q.dead, r.at, r'.q.dead, r'.at, r'.expiries > r.expiries);
        assert multiset(r'.looked) == multiset(r.looked) + multiset{r.q.dead[r.at]};
      }
  }

  /** What lies ahead of the index after a look lay ahead of it before, behind the letter looked at. */
  lemma LookCounts(dead: seq<Message>, at: nat, dead': seq<Message>, at': nat, expired: bool)
    requires NoDup(dead) && at < |dead| && Effect(dead, at, dead', at', expired)
    ensures forall i :: at' <= i < |dead'| ==>
              dead'[i] != dead[at] && exists j :: at < j < |dead| && dead[j] == dead'[i]
  {
    forall i | at' <= i < |dead'|
      ensures dead'[i] != dead[at] && exists j :: at < j < |dead| && dead[j] == dead'[i]
    {
      var j := if dead' == dead then i else i + 1;
      assert dead[j] == dead'[i];
    }
  }

  /** No letter is looked at more than once more often than letters are pushed. */
  lemma {:induction false} LooksAtMost(policy: Policy, q: Queues, steps: seq<Step>, m: Message)
    requires NoDup(q.dead)
    ensures Counted(Run(policy, q, steps), m)
    ensures multiset(Run(policy, q, steps).looked)[m] <= Run(policy, q, steps).pushes + 1
  {
    if |steps| != 0 {
      LooksAtMost(policy, q, steps[..|steps| - 1], m);
      StepKeepsCounted(policy, Run(policy, q, steps[..|steps| - 1]), steps[|steps| - 1], m);
    }
  }

  /** One letter pushed between two turns, and the pass looks at the same letter again and not at the one behind it. */
  lemma {:induction false} PushRepeatsLook(policy: Policy, env: Env, q: Queues, a: Message, b: Message, c: Message)
    requires q.dead == [a, b] && NoDup([a, b, c])
    requires Judge(policy, q.retryData, a, env.checkedAt(a)) == Skip
    ensures var r := Run(policy, q, [Look(env)] + [Push(c)] + [Look(env)]);
            r.turns == 0 && r.pushes == 1 && r.expiries == 0 && r.looked == [a, a]
  {
    hide Judge;
    var one: seq<Step> := [Look(env)];
    var two := one + [Push(c)];
    assert two[..1] == one && (two + [Look(env)])[..2] == two && one[..0] == [];
    assert [a, b, c][0] == a && [a, b, c][1] == b && [a, b, c][2] == c;
    assert Run(policy, q, one) == Race(q, 1, 1, [a], 0, 0);
    assert Run(policy, q, two) == Race(q.(dead := [c, a, b]), 1, 1, [a], 1, 0);
  }

  // ---- without pushes ---------------------------------------------------------------------

  function Looks(env: Env, n: nat): seq<Step> {
    seq(n, _ => Look(env))
  }

  lemma {:induction false} LooksGoOn(policy: Policy, env: Env, q: Queues, n: nat)
    requires n <= |q.dead|
    ensures var r := Run(policy, q, Looks(env, n));
            r.turns == |q.dead| - n && r.pushes == 0 && UpTo(policy, env, q, r.q, r.at, r.looked)
            && (r.at < |r.q.dead| ==> |r.q.dead| - r.at <= r.turns)
  {
    hide UpTo, TurnOf, NextIndex, Judge;
    if n == 0 {
      NothingYet(policy, env, q);
    } else {
      LooksGoOn(policy, env, q, n - 1);
      var r := Run(policy, q, Looks(env, n - 1));
      assert Looks(env, n)[..n - 1] == Looks(env, n - 1);
      if r.at < |r.q.dead| {
        OneMoreLooked(policy, env, q, r.q, r.at, r.looked);
      } else {
        PastTheEnd(policy, env, q, r.q, r.at, r.looked);
      }
    }
  }

  /** A pass with nothing pushed meanwhile is the pass of the loop. */
  lemma {:induction false} UndisturbedIsPass(policy: Policy, env: Env, q: Queues)
    ensures var r := Run(policy, q, Looks(env, |q.dead|));
            r.turns == 0 && r.looked == Looked(policy, env, q, 0) && r.q == Turns(policy, env, q, r.looked)
  {
    hide Run;
    LooksGoOn(policy, env, q, |q.dead|);
    var r := Run(policy, q, Looks(env, |q.dead|));
    PastTheEnd(policy, env, q, r.q, r.at, r.looked);
  }
}
