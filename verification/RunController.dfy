/** The controller object itself: an uninterrupted `Execute` call over its fields is a path of the machine of
    `RunControl`; and the backoff law. */
module RunController {
  import opened Wrappers
  import opened RunControl

  const SECOND: int := 1_000_000_000
  const MAX_INT64: int := 0x7fff_ffff_ffff_ffff
  const TWO_64: int := 0x1_0000_0000_0000_0000

  function Pow2(k: nat): (p: nat)
    ensures p > 0
  {
    if k == 0 then 1 else 2 * Pow2(k - 1)
  }

  /** The signed 64-bit value that `x` wraps around to. */
  function Wrap64(x: int): (w: int)
    ensures w == if x % TWO_64 <= MAX_INT64 then x % TWO_64 else x % TWO_64 - TWO_64
    ensures 0 <= x <= MAX_INT64 ==> w == x
  {
    (x + MAX_INT64 + 1) % TWO_64 - MAX_INT64 - 1
  }

  function Delay(retryDelay: int): int {
    if retryDelay <= 0 then SECOND else retryDelay
  }

  /** The wait after attempt `k`: the duration doubles and wraps as a signed 64-bit number does, and a
      timer set to a negative duration fires at once. */
  function WaitAfter(delay: int, k: nat): nat
    requires k >= 1
  {
    var d := Wrap64(delay * Pow2(k - 1));
    if d < 0 then 0 else d
  }

  /** What is waited is what is left of the doubled delay in 64 bits, or nothing if that is taken for negative. */
  lemma WaitIsTheRest(delay: int, k: nat)
    requires k >= 1
    ensures WaitAfter(delay, k) == var rest := (delay * Pow2(k - 1)) % TWO_64; if rest <= MAX_INT64 then rest else 0
  {
    hide Wrap64;
    var product := delay * Pow2(k - 1);
    RestIsTheWait(product);
  }

  lemma RestIsTheWait(x: int)
    ensures (if Wrap64(x) < 0 then 0 else Wrap64(x)) == if x % TWO_64 <= MAX_INT64 then x % TWO_64 else 0
  {}

  /** All the waiting done before attempt `n`. */
  function WaitBefore(delay: int, n: nat): nat
    requires n >= 1
  {
    if n == 1 then 0 else WaitBefore(delay, n - 1) + WaitAfter(delay, n - 1)
  }

  /** A positive duration is waited out exactly when it fits 64 bits, and never exceeded. */
  lemma WaitIsWholeIffItFits(d: int)
    requires d > 0
    ensures var w := Wrap64(d); (if w < 0 then 0 else w) <= d && ((if w < 0 then 0 else w) == d <==> d <= MAX_INT64)
  {
  }

  /** `last` is the wait that would follow `p - 1` delays. */
  lemma OneMoreWait(delay: int, p: int)
    ensures delay * (2 * p - 1) == delay * (p - 1) + delay * p
  {
  }

  lemma DelayedIsLonger(delay: int, p: nat)
    requires delay > 0 && p > 0
    ensures 0 < delay <= delay * p
  {
  }

  lemma TwiceAsLong(delay: int, p: int)
    ensures delay * (2 * p) == 2 * (delay * p)
  {
  }

  lemma {:induction false} WaitBeforeBound(delay: int, n: nat)
    requires 0 < delay <= MAX_INT64 && n >= 1
    ensures WaitBefore(delay, n) <= delay * (Pow2(n - 1) - 1)
    ensures WaitBefore(delay, n) == delay * (Pow2(n - 1) - 1) <==> n == 1 || delay * Pow2(n - 2) <= MAX_INT64
  {
    if n == 1 {
      assert Pow2(0) - 1 == 0;
    } else {
      var p := Pow2(n - 2);
      hide Wrap64;
      WaitBeforeBound(delay, n - 1);
      OneMoreWait(delay, p);
      DelayedIsLonger(delay, p);
      WaitIsWholeIffItFits(delay * p);
      assert WaitBefore(delay, n) == WaitBefore(delay, n - 1) + WaitAfter(delay, n - 1);
      if n > 2 {
        TwiceAsLong(delay, Pow2(n - 3));
        DelayedIsLonger(delay, Pow2(n - 3));
      }
      LastWaitDecides(delay, n, p);
    }
  }

  lemma LastWaitDecides(delay: int, n: nat, p: nat)
    requires n >= 2 && p == Pow2(n - 2) && 0 < delay * p
    requires WaitBefore(delay, n - 1) <= delay * (p - 1)
    requires WaitBefore(delay, n - 1) == delay * (p - 1) <==> n == 2 || delay * Pow2(n - 3) <= MAX_INT64
    requires n > 2 ==> 0 < delay * Pow2(n - 3) && delay * p == 2 * (delay * Pow2(n - 3))
    requires delay * (Pow2(n - 1) - 1) == delay * (p - 1) + delay * p
    requires WaitAfter(delay, n - 1) <= delay * p && (WaitAfter(delay, n - 1) == delay * p <==> delay * p <= MAX_INT64)
    ensures WaitBefore(delay, n) <= delay * (Pow2(n - 1) - 1)
    ensures WaitBefore(delay, n) == delay * (Pow2(n - 1) - 1) <==> delay * p <= MAX_INT64
  {
    hide Pow2, WaitAfter;
  }

  /** The total wait is geometric exactly as long as the last wait still fits 64 bits. */
  lemma BackoffIsGeometricIffItFits(retryDelay: int, n: nat)
    requires retryDelay <= MAX_INT64 && n >= 1
    ensures WaitBefore(Delay(retryDelay), n) == Delay(retryDelay) * (Pow2(n - 1) - 1)
            <==> n == 1 || Delay(retryDelay) * Pow2(n - 2) <= MAX_INT64
  {
    WaitBeforeBound(Delay(retryDelay), n);
  }

  /** What an uninterrupted call meets: whether the end of its context wins over a slot, what each
      invocation of the operation returns, and whether each backoff runs to its end. */
  datatype Encounter = Encounter(cancelledBeforeSlot: bool, reply: nat -> Reply, wakes: nat -> bool)

  /** The loop goes on after invocation `k`: a temporary error, an attempt left, and a backoff that runs to its end. */
  predicate TriesAgain(maxAttempts: int, met: Encounter, k: nat) {
    met.reply(k) == Temporary && k < maxAttempts && met.wakes(k)
  }

  // ----- Paths of the machine of `RunControl`

  /** Where a caller gets to by a sequence of its own steps. */
  ghost function Follow(capacity: nat, sh: Shared, c: Caller, steps: seq<Step>): Option<(Shared, Caller)> {
    if steps == [] then Some((sh, c))
    else
      match Follow(capacity, sh, c, steps[..|steps| - 1])
      case None => None
      case Some((sh', c')) => Move(capacity, sh', c', steps[|steps| - 1])
  }

  /** The caller goes from one state to another by these steps. */
  ghost predicate Goes(capacity: nat, sh: Shared, c: Caller, steps: seq<Step>, sh': Shared, c': Caller) {
    Follow(capacity, sh, c, steps) == Some((sh', c'))
  }

  lemma GoesNowhere(capacity: nat, sh: Shared, c: Caller)
    ensures Goes(capacity, sh, c, [], sh, c)
  {
  }

  lemma GoesOn(capacity: nat, sh: Shared, c: Caller, steps: seq<Step>, sh1: Shared, c1: Caller, step: Step, sh2: Shared, c2: Caller)
    requires Goes(capacity, sh, c, steps, sh1, c1) && Move(capacity, sh1, c1, step) == Some((sh2, c2))
    ensures Goes(capacity, sh, c, steps + [step], sh2, c2)
  {
    hide Move;
    assert (steps + [step])[..|steps|] == steps;
  }

  /** The steps of one invocation: take the free lease, run the operation, give the lease back. */
  lemma Invocation(capacity: nat, sh: Shared, c: Caller, steps: seq<Step>, start: Shared, first: Caller, reply: Reply)
    requires Goes(capacity, start, first, steps, sh, c)
    requires c.request.Execute? && c.phase == Ready && c.request.repository !in sh.leases
    ensures Goes(capacity, start, first, steps + [Step.Invoke] + [Step.Lease] + [Step.Answer(reply)], sh, Answered(c, reply))
  {
    hide Goes;
    var c1, c2 := c.(phase := AwaitLease), c.(phase := Working);
    var leased := sh.(leases := sh.leases + {c.request.repository});
    GoesOn(capacity, start, first, steps, sh, c, Step.Invoke, sh, c1);
    GoesOn(capacity, start, first, steps + [Step.Invoke], sh, c1, Step.Lease, leased, c2);
    assert leased.leases - {c.request.repository} == sh.leases;
    assert Answered(c2, reply) == Answered(c, reply);
    GoesOn(capacity, start, first, steps + [Step.Invoke] + [Step.Lease], leased, c2, Step.Answer(reply), sh, Answered(c, reply));
  }

  lemma TurnedAway(capacity: nat, sh: Shared, r: Request)
    requires r.Execute? && (!Complete(r) || r.task in sh.running)
    ensures Goes(capacity, sh, Caller(r, Start, [], None), [Step.Enter], sh,
                 Caller(r, Done, [], Some(if !Complete(r) then Result(Failed, 0) else Result(Skipped, 0))))
  {
    hide Goes;
    var (c, c') := (Caller(r, Start, [], None), Caller(r, Done, [], Some(if !Complete(r) then Result(Failed, 0) else Result(Skipped, 0))));
    GoesNowhere(capacity, sh, c);
    GoesOn(capacity, sh, c, [], sh, c, Step.Enter, sh, c');
    assert [] + [Step.Enter] == [Step.Enter];
  }

  lemma PastTheGuard(capacity: nat, sh: Shared, r: Request)
    requires r.Execute? && Complete(r) && r.task !in sh.running
    ensures Goes(capacity, sh, Caller(r, Start, [], None), [Step.Enter], sh.(running := sh.running + {r.task}), Caller(r, AwaitSlot, [], None))
  {
    hide Goes;
    var c := Caller(r, Start, [], None);
    GoesNowhere(capacity, sh, c);
    GoesOn(capacity, sh, c, [], sh, c, Step.Enter, sh.(running := sh.running + {r.task}), c.(phase := AwaitSlot));
    assert [] + [Step.Enter] == [Step.Enter];
  }

  lemma WithoutSlot(capacity: nat, sh: Shared, r: Request)
    requires r.Execute? && Complete(r) && r.task !in sh.running
    ensures Goes(capacity, sh, Caller(r, Start, [], None), [Step.Enter] + [Step.GiveUpSlot] + [Step.Leave], sh,
                 Caller(r, Done, [], Some(Result(Cancelled, 0))))
  {
    hide Goes;
    var (c, guarded) := (Caller(r, Start, [], None), sh.(running := sh.running + {r.task}));
    var leaving := Caller(r, Depart, [], Some(Result(Cancelled, 0)));
    PastTheGuard(capacity, sh, r);
    GoesOn(capacity, sh, c, [Step.Enter], guarded, c.(phase := AwaitSlot), Step.GiveUpSlot, guarded, leaving);
    assert guarded.running - {r.task} == sh.running;
    GoesOn(capacity, sh, c, [Step.Enter] + [Step.GiveUpSlot], guarded, leaving, Step.Leave, sh, leaving.(phase := Done));
  }

  lemma ToTheMutex(capacity: nat, sh: Shared, r: Request)
    requires r.Execute? && Complete(r) && r.task !in sh.running && sh.slots < capacity
    ensures Goes(capacity, sh, Caller(r, Start, [], None), [Step.Enter] + [Step.Take],
                 sh.(running := sh.running + {r.task}, slots := sh.slots + 1), Caller(r, AwaitMutex, [], None))
  {
    hide Goes;
    var (c, guarded) := (Caller(r, Start, [], None), sh.(running := sh.running + {r.task}));
    PastTheGuard(capacity, sh, r);
    GoesOn(capacity, sh, c, [Step.Enter], guarded, c.(phase := AwaitSlot), Step.Take, guarded.(slots := sh.slots + 1), c.(phase := AwaitMutex));
  }

  /** From the last attempt to the exit, everything is given back in reverse order. */
  lemma WayOut(capacity: nat, start: Shared, first: Caller, steps: seq<Step>, sh: Shared, r: Request, replies: seq<Reply>, result: Result)
    requires r.Execute? && r.repository !in sh.mutexes && r.task !in sh.running
    requires Goes(capacity, start, first, steps, Shared(sh.running + {r.task}, sh.slots + 1, sh.mutexes + {r.repository}, sh.leases),
                  Caller(r, UnlockMutex, replies, Some(result)))
    ensures Goes(capacity, start, first, steps + [Step.Unlock] + [Step.Return] + [Step.Leave], sh, Caller(r, Done, replies, Some(result)))
  {
    hide Goes;
    var c := Caller(r, UnlockMutex, replies, Some(result));
    var (c1, c2, c3) := (c.(phase := ReturnSlot), c.(phase := Depart), c.(phase := Done));
    var sh0 := Shared(sh.running + {r.task}, sh.slots + 1, sh.mutexes + {r.repository}, sh.leases);
    var sh1 := sh0.(mutexes := sh.mutexes);
    var sh2 := sh1.(slots := sh.slots);
    assert sh0.mutexes - {r.repository} == sh.mutexes && sh2.running - {r.task} == sh.running;
    GoesOn(capacity, start, first, steps, sh0, c, Step.Unlock, sh1, c1);
    GoesOn(capacity, start, first, steps + [Step.Unlock], sh1, c1, Step.Return, sh2, c2);
    GoesOn(capacity, start, first, steps + [Step.Unlock] + [Step.Return], sh2, c2, Step.Leave, sh, c3);
  }

  lemma MutexIsFree(capacity: nat, start: Shared, first: Caller, steps: seq<Step>, sh: Shared, c: Caller)
    requires Goes(capacity, start, first, steps, sh, c)
    requires c.request.Execute? && c.phase == AwaitMutex && c.request.repository !in sh.mutexes
    ensures Goes(capacity, start, first, steps + [Step.Lock], sh.(mutexes := sh.mutexes + {c.request.repository}), c.(phase := Ready))
  {
    hide Goes;
    GoesOn(capacity, start, first, steps, sh, c, Step.Lock, sh.(mutexes := sh.mutexes + {c.request.repository}), c.(phase := Ready));
  }

  lemma NoAttemptIsDeserved(r: Request)
    requires r.Execute?
    ensures !Complete(r) ==> Deserved(r, [], Result(Failed, 0))
    ensures Complete(r) ==> Deserved(r, [], Result(Skipped, 0)) && Deserved(r, [], Result(Cancelled, 0))
  {
  }

  class Controller {
    const capacity: nat
    var runningTasks: set<string>
    var repositories: set<string>  // the repositories whose mutex is locked
    var global: nat                // occupied slots

    constructor (maxParallel: int)
      ensures capacity == if maxParallel < 1 then 1 else maxParallel
      ensures runningTasks == {} && repositories == {} && global == 0
    {
      capacity := Capacity(maxParallel);
      runningTasks, repositories, global := {}, {}, 0;
    }

    /** What the callers share, with no lease held by another service. */
    ghost function View(): Shared
      reads this
    {
      Shared(runningTasks, global, repositories, {})
    }

    /**
     * One call from guard to exit while the rest of the system stands still: a path of the machine. A call that
     * finds no slot, or its repository's mutex locked, has no result; it waits there with what it holds.
     */
    method Execute(request: Request, retryDelay: int, met: Encounter)
      returns (result: Option<Result>, replies: seq<Reply>, waited: nat, ghost caller: Caller, ghost steps: seq<Step>)
      requires request.Execute?
      modifies this
      ensures Goes(capacity, old(View()), Caller(request, Start, [], None), steps, View(), caller)
      ensures result.Some? ==> View() == old(View()) && caller == Caller(request, Done, replies, result)
      ensures result.Some? ==> Deserved(request, replies, result.value)
      // calls that are turned away, and calls that wait
      ensures request.task == "" || request.repository == "" || !request.hasOperation ==> result == Some(Result(Failed, 0))
      ensures Complete(request) && request.task in old(runningTasks) ==> result == Some(Result(Skipped, 0))
      ensures Complete(request) && request.task !in old(runningTasks) && met.cancelledBeforeSlot ==> result == Some(Result(Cancelled, 0))
      ensures GetsPastGuard(request, met, old(runningTasks)) && old(global) >= capacity ==>
        result.None? && replies == [] && caller == Caller(request, AwaitSlot, [], None)
      ensures GetsPastGuard(request, met, old(runningTasks)) && old(global) < capacity && request.repository in old(repositories) ==>
        result.None? && replies == [] && caller == Caller(request, AwaitMutex, [], None)
      // all others run, exactly until the loop does not go on
      ensures replies != [] <==>
        GetsPastGuard(request, met, old(runningTasks)) && old(global) < capacity && request.repository !in old(repositories)
      ensures replies != [] ==> result.Some? && Ran(request, retryDelay, met, replies, result.value, waited)
      ensures replies == [] ==> waited == 0
    {
      hide Goes, Move, Deserved;
      replies, waited := [], 0;
      ghost var before := View();
      ghost var first := Caller(request, Start, [], None);
      NoAttemptIsDeserved(request);
      if !Complete(request) {
        TurnedAway(capacity, before, request);
        result := Some(Result(Failed, 0));
        caller, steps := first.(phase := Done, result := result), [Step.Enter];
        return;
      }
      if request.task in runningTasks {
        TurnedAway(capacity, before, request);
        result := Some(Result(Skipped, 0));
        caller, steps := first.(phase := Done, result := result), [Step.Enter];
        return;
      }
      runningTasks := runningTasks + {request.task};
      if met.cancelledBeforeSlot {
        WithoutSlot(capacity, before, request);
        result := Some(Result(Cancelled, 0));
        runningTasks := runningTasks - {request.task};
        caller, steps := first.(phase := Done, result := result), [Step.Enter] + [Step.GiveUpSlot] + [Step.Leave];
        return;
      }
      if global >= capacity {
        PastTheGuard(capacity, before, request);
        caller, steps := first.(phase := AwaitSlot), [Step.Enter];
        return None, [], 0, caller, steps;
      }
      global := global + 1;
      ToTheMutex(capacity, before, request);
      caller, steps := first.(phase := AwaitMutex), [Step.Enter] + [Step.Take];
      if request.repository in repositories { return None, [], 0, caller, steps; }
      ghost var waiting := View();
      repositories := repositories + {request.repository};
      MutexIsFree(capacity, before, first, steps, waiting, caller);
      steps := steps + [Step.Lock];
      var outcome;
      outcome, replies, waited, steps := Attempt(request, retryDelay, met, before, steps);
      WayOut(capacity, before, first, steps, before, request, replies, outcome);
      result := Some(outcome);
      repositories := repositories - {request.repository};
      global := global - 1;
      runningTasks := runningTasks - {request.task};
      steps := steps + [Step.Unlock] + [Step.Return] + [Step.Leave];
      caller := Caller(request, Done, replies, result);
    }

    /** The call is complete, its task is not running, and its context does not end before it has a slot. */
    predicate GetsPastGuard(request: Request, met: Encounter, running: set<string>)
      requires request.Execute?
    {
      request.task != "" && request.repository != "" && request.hasOperation && request.task !in running && !met.cancelledBeforeSlot
    }

    /** What a call that ran answers: it stopped at the first invocation after which the loop does not go on, having
        waited between invocations, and the last reply, the bound and the last backoff decide its result. */
    ghost predicate Ran(request: Request, retryDelay: int, met: Encounter, replies: seq<Reply>, result: Result, waited: nat)
      requires request.Execute?
    {
      var n, most := |replies|, if request.maxAttempts < 1 then 1 else request.maxAttempts;
      && n >= 1 && (forall k: nat :: 0 < k < n ==> TriesAgain(most, met, k)) && !TriesAgain(most, met, n)
      && (forall k :: 0 <= k < n ==> replies[k] == met.reply(k + 1))
      && waited == WaitBefore(if retryDelay <= 0 then 1_000_000_000 else retryDelay, n)
      && result.attempts == n
      && result.status == match met.reply(n)
                          case Fine(status) => status
                          case Interrupted => Cancelled
                          case Permanent => Failed
                          case Temporary => if n == most then Failed else Cancelled
    }

    /** The retry loop. */
    method Attempt(request: Request, retryDelay: int, met: Encounter, ghost start: Shared, ghost before: seq<Step>)
      returns (result: Result, replies: seq<Reply>, waited: nat, ghost steps: seq<Step>)
      requires request.Execute? && Complete(request)
      requires Goes(capacity, start, Caller(request, Start, [], None), before, View(), Caller(request, Ready, [], None))
      ensures Goes(capacity, start, Caller(request, Start, [], None), steps, View(), Caller(request, UnlockMutex, replies, Some(result)))
      ensures replies != [] && Deserved(request, replies, result)
      ensures Ran(request, retryDelay, met, replies, result, waited)
    {
      hide Goes, WaitAfter, Complete;
      var maxAttempts, delay := Attempts(request.maxAttempts), Delay(retryDelay);
      ghost var first := Caller(request, Start, [], None);
      result, replies, waited, steps := Result(Failed, 0), [], 0, before;
      var attempt := 1;
      while attempt <= maxAttempts
        invariant 1 <= attempt <= maxAttempts && |replies| == attempt - 1
        invariant forall k :: 0 <= k < |replies| ==> replies[k] == met.reply(k + 1) && replies[k] == Temporary
        invariant forall k: nat :: 0 < k < attempt ==> TriesAgain(maxAttempts, met, k)
        invariant waited == WaitBefore(delay, attempt)
        invariant Goes(capacity, start, first, steps, View(), Caller(request, Ready, replies, None))
        decreases maxAttempts - attempt
      {
        var reply := met.reply(attempt);
        ghost var ready := Caller(request, Ready, replies, None);
        Invocation(capacity, View(), ready, steps, start, first, reply);
        steps := steps + [Step.Invoke] + [Step.Lease] + [Step.Answer(reply)];
        ghost var answered := Answered(ready, reply);
        replies := replies + [reply];
        if reply.Fine? {
          return Result(reply.status, attempt), replies, waited, steps;
        }
        if reply == Interrupted {
          return Result(Cancelled, attempt), replies, waited, steps;
        }
        if reply != Temporary || attempt == maxAttempts {
          return Result(Failed, attempt), replies, waited, steps;
        }
        if !met.wakes(attempt) {
          result := Result(Cancelled, attempt);
          GoesOn(capacity, start, first, steps, View(), answered, Step.GiveUpBackoff, View(), Caller(request, UnlockMutex, replies, Some(result)));
          steps := steps + [Step.GiveUpBackoff];
          return;
        }
        GoesOn(capacity, start, first, steps, View(), answered, Step.Wake, View(), Caller(request, Ready, replies, None));
        steps := steps + [Step.Wake];
        waited := waited + WaitAfter(delay, attempt);
        attempt := attempt + 1;
      }
    }
  }

  /** The per-repository lease that every service shares. */
  class Registry {
    var locks: map<string, bool>  // created on first use; true while a token is in the channel

    constructor ()
      ensures locks == map[]
    {
      locks := map[];
    }

    predicate Held(id: string)
      reads this
    {
      id in locks && locks[id]
    }

    /** `With` up to the point where the operation may run. When the context has ended and the lease is free at the
        same time, either may win; `lucky` says which. */
    method Acquire(id: string, cancelled: bool, lucky: bool) returns (acquired: bool)
      modifies this
      ensures acquired ==> !old(Held(id))
      ensures !acquired ==> cancelled || old(Held(id))
      ensures acquired <==> !old(Held(id)) && (!cancelled || lucky)
      ensures id in locks && (acquired ==> Held(id)) && (!acquired ==> Held(id) == old(Held(id)))
      ensures forall k :: k != id ==> Held(k) == old(Held(k))
    {
      if id !in locks {
        locks := locks[id := false];
      }
      acquired := !locks[id] && (!cancelled || lucky);
      if acquired {
        locks := locks[id := true];
      }
    }

    method Release(id: string)
      requires Held(id)
      modifies this
      ensures !Held(id) && locks.Keys == old(locks.Keys)
      ensures forall k :: k != id ==> Held(k) == old(Held(k))
    {
      locks := locks[id := false];
    }
  }
}
