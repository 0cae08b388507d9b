/** Any number of backup runs under one controller, each step of a run a labelled transition:
    the task guard, the slot semaphore, the repository mutex, the cancellable repository lease of
    the shared registry, the retry loop, and the deferred releases in reverse order. */
module RunControl {
  import opened Wrappers
  import opened Ownership

  datatype Status = Succeeded | Partial | Failed | Cancelled | Skipped

  /** What one invocation of the operation came to. `Interrupted` is an error that wraps a cancelled
      context, or any error once the context has ended. */
  datatype Reply = Fine(status: Status) | Temporary | Permanent | Interrupted

  datatype Result = Result(status: Status, attempts: nat)

  /** A backup run, or another service's operation that takes only the repository lease. */
  datatype Request =
    | Execute(task: string, repository: string, hasOperation: bool, maxAttempts: int)
    | Maintain(repository: string)

  datatype Phase =
    | Start | AwaitSlot | AwaitMutex | Ready | AwaitLease | Working | Backoff
    | UnlockMutex | ReturnSlot | Depart | Done

  datatype Caller = Caller(request: Request, phase: Phase, replies: seq<Reply>, result: Option<Result>)

  /** The state the callers share. */
  datatype Shared = Shared(running: set<string>, slots: nat, mutexes: set<string>, leases: set<string>)

  datatype System = System(capacity: nat, shared: Shared, callers: seq<Caller>)

  datatype Step =
    | Enter | Take | GiveUpSlot | Lock | Invoke | Lease | GiveUpLease | Answer(reply: Reply)
    | Wake | GiveUpBackoff | Unlock | Return | Leave

  function Capacity(maxParallel: int): nat {
    if maxParallel < 1 then 1 else maxParallel
  }

  function Attempts(maxAttempts: int): nat {
    if maxAttempts < 1 then 1 else maxAttempts
  }

  predicate Complete(r: Request)
    requires r.Execute?
  {
    r.task != "" && r.repository != "" && r.hasOperation
  }

  /** What the loop does after a reply: a result, or `None` to wait and try again. */
  function Verdict(maxAttempts: int, replies: seq<Reply>): Option<Result>
    requires replies != []
  {
    var n := |replies|;
    match replies[n - 1]
    case Fine(status) => Some(Result(status, n))
    case Interrupted => Some(Result(Cancelled, n))
    case Permanent => Some(Result(Failed, n))
    case Temporary => if n >= Attempts(maxAttempts) then Some(Result(Failed, n)) else None
  }

  function Answered(c: Caller, reply: Reply): Caller
    requires c.request.Execute?
  {
    var replies := c.replies + [reply];
    match Verdict(c.request.maxAttempts, replies)
    case Some(result) => c.(replies := replies, result := Some(result), phase := UnlockMutex)
    case None => c.(replies := replies, phase := Backoff)
  }

  /** One atomic step of a caller, or `None` when it cannot take that step now. */
  function Move(capacity: nat, sh: Shared, c: Caller, step: Step): Option<(Shared, Caller)> {
    if c.request.Maintain? then
      match (c.phase, step)
      case (Start, Enter) => Some((sh, c.(phase := AwaitLease)))
      case (AwaitLease, Lease) =>
        if c.request.repository in sh.leases then None
        else Some((sh.(leases := sh.leases + {c.request.repository}), c.(phase := Working)))
      case (AwaitLease, GiveUpLease) => Some((sh, c.(phase := Done)))
      case (Working, Answer(_)) => Some((sh.(leases := sh.leases - {c.request.repository}), c.(phase := Done)))
      case _ => None
    else
      var Execute(task, repository, _, maxAttempts) := c.request;
      match (c.phase, step)
      case (Start, Enter) =>
        if !Complete(c.request) then Some((sh, c.(phase := Done, result := Some(Result(Failed, 0)))))
        else if task in sh.running then Some((sh, c.(phase := Done, result := Some(Result(Skipped, 0)))))
        else Some((sh.(running := sh.running + {task}), c.(phase := AwaitSlot)))
      case (AwaitSlot, Take) => if sh.slots < capacity then Some((sh.(slots := sh.slots + 1), c.(phase := AwaitMutex))) else None
      case (AwaitSlot, GiveUpSlot) => Some((sh, c.(phase := Depart, result := Some(Result(Cancelled, 0)))))
      case (AwaitMutex, Lock) =>
        if repository in sh.mutexes then None
        else Some((sh.(mutexes := sh.mutexes + {repository}), c.(phase := Ready)))
      case (Ready, Invoke) => Some((sh, c.(phase := AwaitLease)))
      case (AwaitLease, Lease) =>
        if repository in sh.leases then None
        else Some((sh.(leases := sh.leases + {repository}), c.(phase := Working)))
      case (AwaitLease, GiveUpLease) => Some((sh, Answered(c, Interrupted)))
      case (Working, Answer(reply)) => Some((sh.(leases := sh.leases - {repository}), Answered(c, reply)))
      case (Backoff, Wake) => Some((sh, c.(phase := Ready)))
      case (Backoff, GiveUpBackoff) => Some((sh, c.(phase := UnlockMutex, result := Some(Result(Cancelled, |c.replies|)))))
      case (UnlockMutex, Unlock) => Some((sh.(mutexes := sh.mutexes - {repository}), c.(phase := ReturnSlot)))
      case (ReturnSlot, Return) => if sh.slots > 0 then Some((sh.(slots := sh.slots - 1), c.(phase := Depart))) else None
      case (Depart, Leave) => Some((sh.(running := sh.running - {task}), c.(phase := Done)))
      case _ => None
  }

  function Next(s: System, i: nat, step: Step): Option<System> {
    if i >= |s.callers| then None
    else
      match Move(s.capacity, s.shared, s.callers[i], step)
      case None => None
      case Some((sh, c)) => Some(s.(shared := sh, callers := s.callers[i := c]))
  }

  predicate Initial(s: System) {
    && s.capacity >= 1
    && s.shared == Shared({}, 0, {}, {})
    && forall i :: 0 <= i < |s.callers| ==> s.callers[i] == Caller(s.callers[i].request, Start, [], None)
  }

  // ----- Who holds what

  function GuardKey(c: Caller): Option<string> {
    if c.request.Execute? && c.phase != Start && c.phase != Done then Some(c.request.task) else None
  }

  predicate HoldsSlot(c: Caller) {
    GuardKey(c).Some? && c.phase != AwaitSlot && c.phase != Depart
  }

  function MutexKey(c: Caller): Option<string> {
    if HoldsSlot(c) && c.phase != AwaitMutex && c.phase != ReturnSlot then Some(c.request.repository) else None
  }

  function LeaseKey(c: Caller): Option<string> {
    if c.phase == Working then Some(c.request.repository) else None
  }

  /** What the replies so far allow a caller's phase and result to be. */
  ghost predicate Explained(c: Caller) {
    && (c.request.Maintain? ==> c.phase in {Start, AwaitLease, Working, Done})
    && (c.request.Execute? ==>
      var n, most := |c.replies|, Attempts(c.request.maxAttempts);
      && (c.phase !in {Start, Done} ==> Complete(c.request))
      && n <= most
      && (forall k :: 0 <= k < n - 1 ==> c.replies[k] == Temporary)
      && (c.phase in {Ready, AwaitLease, Working, Backoff} ==> n < most && c.result.None? && (n > 0 ==> c.replies[n - 1] == Temporary))
      && (c.phase in {Start, AwaitSlot, AwaitMutex} ==> n == 0 && c.result.None?)
      && (c.phase == Backoff ==> n > 0)
      && (c.phase in {UnlockMutex, ReturnSlot, Depart, Done} ==> c.result.Some? && Deserved(c.request, c.replies, c.result.value)))
  }

  /** The result a caller may report after these replies, stated without the loop. */
  ghost predicate Deserved(r: Request, replies: seq<Reply>, result: Result)
    requires r.Execute?
  {
    var n, most := |replies|, Attempts(r.maxAttempts);
    && result.attempts == n <= most
    && (forall k :: 0 <= k < n - 1 ==> replies[k] == Temporary)
    && (n == 0 ==> result.status in {Failed, Skipped, Cancelled} && (result.status == Failed <==> !Complete(r)))
    && (n > 0 ==>
          match replies[n - 1]
          case Fine(status) => result.status == status
          case Interrupted => result.status == Cancelled
          case Permanent => result.status == Failed
          case Temporary => result.status == if n == most then Failed else Cancelled)
  }

  ghost predicate Inv(s: System) {
    && s.capacity >= 1
    && Exclusive(GuardKey, s.callers, s.shared.running)
    && s.shared.slots == Count(HoldsSlot, s.callers) <= s.capacity
    && Exclusive(MutexKey, s.callers, s.shared.mutexes)
    && Exclusive(LeaseKey, s.callers, s.shared.leases)
    && forall i :: 0 <= i < |s.callers| ==> Explained(s.callers[i])
  }

  // ----- Every step keeps the invariant

  lemma InitialInv(s: System)
    requires Initial(s)
    ensures Inv(s)
  {
    NoHolderNoCount(HoldsSlot, s.callers);
  }

  lemma AnsweredExplained(c: Caller, reply: Reply)
    requires c.request.Execute? && c.phase in {AwaitLease, Working} && Explained(c)
    ensures Explained(Answered(c, reply))
  {
  }

  lemma MoveExplained(capacity: nat, sh: Shared, c: Caller, step: Step)
    requires Explained(c) && Move(capacity, sh, c, step).Some?
    ensures Explained(Move(capacity, sh, c, step).value.1)
  {
    if c.request.Execute? && c.phase in {AwaitLease, Working} {
      AnsweredExplained(c, if step.Answer? then step.reply else Interrupted);
    }
  }

  lemma MoveKeys(capacity: nat, sh: Shared, c: Caller, step: Step)
    requires Move(capacity, sh, c, step).Some?
    ensures var (sh', c') := Move(capacity, sh, c, step).value;
            && KeyChange(GuardKey(c), GuardKey(c'), sh.running, sh'.running)
            && KeyChange(MutexKey(c), MutexKey(c'), sh.mutexes, sh'.mutexes)
            && KeyChange(LeaseKey(c), LeaseKey(c'), sh.leases, sh'.leases)
  {
  }

  lemma NextSlots(s: System, i: nat, step: Step)
    requires Inv(s) && Next(s, i, step).Some?
    ensures var s' := Next(s, i, step).value; s'.shared.slots == Count(HoldsSlot, s'.callers) <= s'.capacity
  {
    hide Explained, Exclusive;
    CountUpdate(HoldsSlot, s.callers, i, Next(s, i, step).value.callers[i]);
  }

  lemma NextInv(s: System, i: nat, step: Step)
    requires Inv(s) && Next(s, i, step).Some?
    ensures Inv(Next(s, i, step).value)
  {
    hide Explained, Exclusive, Count, Move, GuardKey, MutexKey, LeaseKey, KeyChange;
    var s' := Next(s, i, step).value;
    MoveKeys(s.capacity, s.shared, s.callers[i], step);
    ExclusiveUpdate(GuardKey, s.callers, s.shared.running, i, s'.callers[i], s'.shared.running);
    ExclusiveUpdate(MutexKey, s.callers, s.shared.mutexes, i, s'.callers[i], s'.shared.mutexes);
    ExclusiveUpdate(LeaseKey, s.callers, s.shared.leases, i, s'.callers[i], s'.shared.leases);
    NextSlots(s, i, step);
    MoveExplained(s.capacity, s.shared, s.callers[i], step);
  }

  // ----- Whole runs

  ghost predicate Behaviour(states: seq<System>) {
    && states != [] && Initial(states[0])
    && forall k :: 0 < k < |states| ==> Follows(states[k - 1], states[k])
  }

  ghost predicate Follows(s: System, s': System) {
    exists i: nat, step :: Next(s, i, step) == Some(s')
  }

  lemma {:induction false} EveryStateIsSafe(states: seq<System>, k: nat)
    requires Behaviour(states) && k < |states|
    ensures Inv(states[k])
  {
    if k == 0 {
      InitialInv(states[0]);
    } else {
      EveryStateIsSafe(states, k - 1);
      assert Follows(states[k - 1], states[k]);
      var i: nat, step :| Next(states[k - 1], i, step) == Some(states[k]);
      NextInv(states[k - 1], i, step);
    }
  }

  /** From the lock of the repository's mutex to its unlock. */
  predicate WithMutex(phase: Phase) {
    phase in {Ready, AwaitLease, Working, Backoff, UnlockMutex}
  }

  /** Mutual exclusion in every reachable state: one caller per task past the guard, one operation per
      repository, one holder of a repository's lease across services, and a bounded number of slots. */
  lemma MutualExclusion(states: seq<System>, k: nat, i: nat, j: nat)
    requires Behaviour(states) && k < |states|
    requires i < j < |states[k].callers|
    ensures var a, b := states[k].callers[i], states[k].callers[j];
            && (a.request.Execute? && b.request.Execute? && a.phase !in {Start, Done} && b.phase !in {Start, Done} ==>
                  a.request.task != b.request.task)
            && (a.request.Execute? && b.request.Execute? && WithMutex(a.phase) && WithMutex(b.phase) ==>
                  a.request.repository != b.request.repository)
            && (a.phase == Working && b.phase == Working ==> a.request.repository != b.request.repository)
    ensures Count(HoldsSlot, states[k].callers) <= states[k].capacity
    ensures forall t :: t in states[k].shared.running <==>
      exists c :: c in states[k].callers && c.request.Execute? && c.request.task == t && c.phase !in {Start, Done}
  {
    EveryStateIsSafe(states, k);
    hide Behaviour, Explained, Count;
    HoldersExclude(states[k], i, j);
    GuardedAreRunning(states[k]);
  }

  lemma HoldersExclude(s: System, i: nat, j: nat)
    requires Inv(s) && i < j < |s.callers|
    ensures var a, b := s.callers[i], s.callers[j];
            && (a.request.Execute? && b.request.Execute? && a.phase !in {Start, Done} && b.phase !in {Start, Done} ==>
                  a.request.task != b.request.task)
            && (a.request.Execute? && b.request.Execute? && WithMutex(a.phase) && WithMutex(b.phase) ==>
                  a.request.repository != b.request.repository)
            && (a.phase == Working && b.phase == Working ==> a.request.repository != b.request.repository)
  {
    hide Explained, Count, Exclusive, GuardKey, HoldsSlot, MutexKey, LeaseKey;
    KeysOfHolders(s.callers[i]);
    KeysOfHolders(s.callers[j]);
    HeldOnce(GuardKey, s.callers, s.shared.running, i, j);
    HeldOnce(MutexKey, s.callers, s.shared.mutexes, i, j);
    HeldOnce(LeaseKey, s.callers, s.shared.leases, i, j);
  }

  lemma KeysOfHolders(c: Caller)
    ensures c.request.Execute? && c.phase !in {Start, Done} ==> GuardKey(c) == Some(c.request.task)
    ensures c.request.Execute? && WithMutex(c.phase) ==> MutexKey(c) == Some(c.request.repository)
    ensures c.phase == Working ==> LeaseKey(c) == Some(c.request.repository)
  {
  }

  lemma GuardedAreRunning(s: System)
    requires Inv(s)
    ensures forall t :: t in s.shared.running <==>
      exists c :: c in s.callers && c.request.Execute? && c.request.task == t && c.phase !in {Start, Done}
  {
    hide Explained, Count, MutexKey, LeaseKey;
    forall t | t in s.shared.running
      ensures exists c :: c in s.callers && c.request.Execute? && c.request.task == t && c.phase !in {Start, Done}
    {
      var m :| 0 <= m < |s.callers| && GuardKey(s.callers[m]) == Some(t);
      assert s.callers[m] in s.callers;
    }
  }

  /** Every exit path gives back what it took: once all callers are done nothing is held. */
  lemma NothingLeaks(states: seq<System>, k: nat)
    requires Behaviour(states) && k < |states|
    requires forall i :: 0 <= i < |states[k].callers| ==> states[k].callers[i].phase == Done
    ensures states[k].shared == Shared({}, 0, {}, {})
  {
    EveryStateIsSafe(states, k);
    NoHolderNoCount(HoldsSlot, states[k].callers);
    var sh := states[k].shared;
    assert sh.running == {} && sh.mutexes == {} && sh.leases == {};
  }

  /** A finished run invoked the operation at most `maxAttempts` times, went on only after temporary
      errors, and reports what its last reply deserves. */
  lemma ResultsAreDeserved(states: seq<System>, k: nat, i: nat)
    requires Behaviour(states) && k < |states| && i < |states[k].callers|
    requires states[k].callers[i].request.Execute? && states[k].callers[i].phase == Done
    ensures var c := states[k].callers[i];
            c.result.Some? && |c.replies| <= (if c.request.maxAttempts < 1 then 1 else c.request.maxAttempts) && Deserved(c.request, c.replies, c.result.value)
  {
    EveryStateIsSafe(states, k);
  }

  // ----- Progress

  predicate GivesUp(step: Step) {
    step in {GiveUpSlot, GiveUpLease, GiveUpBackoff}
  }

  /** The step a caller waits for when it waits for nobody. */
  function Willing(c: Caller): Step {
    match c.phase
    case Start => Enter
    case AwaitSlot => Take
    case AwaitMutex => Lock
    case Ready => Invoke
    case AwaitLease => Lease
    case Working => Answer(Permanent)
    case Backoff => Wake
    case UnlockMutex => Unlock
    case ReturnSlot => Return
    case Depart | Done => Leave
  }

  /** How far a caller has come in the fixed order slot, mutex, lease. */
  function Depth(c: Caller): nat {
    match c.phase
    case Start => 1
    case AwaitSlot => 2
    case AwaitMutex => 3
    case AwaitLease => 4
    case Done => 0
    case _ => 5
  }

  ghost predicate Deepest(s: System, i: nat) {
    i < |s.callers| && forall j :: 0 <= j < |s.callers| ==> Depth(s.callers[j]) <= Depth(s.callers[i])
  }

  lemma {:induction false} SomeDeepest(s: System, n: nat) returns (i: nat)
    requires 0 < n <= |s.callers|
    ensures i < n && forall j :: 0 <= j < n ==> Depth(s.callers[j]) <= Depth(s.callers[i])
  {
    i := 0;
    if n > 1 {
      i := SomeDeepest(s, n - 1);
      if Depth(s.callers[n - 1]) > Depth(s.callers[i]) {
        i := n - 1;
      }
    }
  }

  /** What a caller that is not deep yet cannot hold. */
  lemma ShallowHoldsNothing(c: Caller)
    ensures Depth(c) <= 4 ==> LeaseKey(c).None?
    ensures Depth(c) <= 3 ==> MutexKey(c).None?
    ensures Depth(c) <= 2 ==> !HoldsSlot(c)
    ensures c.phase == AwaitLease ==> Depth(c) == 4
    ensures c.phase == AwaitMutex ==> Depth(c) == 3
    ensures c.phase == AwaitSlot ==> Depth(c) == 2
  {
  }

  /** Nothing is held that a deepest caller could wait for. */
  lemma NothingAwaitedIsHeld(s: System, i: nat)
    requires Inv(s) && Deepest(s, i)
    ensures s.callers[i].phase == AwaitLease ==> s.shared.leases == {}
    ensures s.callers[i].phase == AwaitMutex ==> s.shared.mutexes == {}
    ensures s.callers[i].phase == AwaitSlot ==> s.shared.slots < s.capacity
    ensures HoldsSlot(s.callers[i]) ==> s.shared.slots > 0
  {
    hide Explained, Exclusive, Count, GuardKey, HoldsSlot, MutexKey, LeaseKey, Depth;
    forall j | 0 <= j < |s.callers|
      ensures Depth(s.callers[i]) <= 4 ==> LeaseKey(s.callers[j]).None?
      ensures Depth(s.callers[i]) <= 3 ==> MutexKey(s.callers[j]).None?
      ensures Depth(s.callers[i]) <= 2 ==> !HoldsSlot(s.callers[j])
    {
      ShallowHoldsNothing(s.callers[j]);
    }
    ShallowHoldsNothing(s.callers[i]);
    if s.callers[i].phase == AwaitLease {
      NobodyHolds(LeaseKey, s.callers, s.shared.leases);
    } else if s.callers[i].phase == AwaitMutex {
      NobodyHolds(MutexKey, s.callers, s.shared.mutexes);
    } else if s.callers[i].phase == AwaitSlot {
      NoHolderNoCount(HoldsSlot, s.callers);
    }
    if HoldsSlot(s.callers[i]) {
      HolderCounts(HoldsSlot, s.callers, i);
    }
  }

  /** Resources are taken in one order, so the caller that is deepest in it waits for nobody. */
  lemma DeepestCanMove(s: System, i: nat)
    requires Inv(s) && Deepest(s, i) && s.callers[i].phase != Done
    ensures Next(s, i, Willing(s.callers[i])).Some?
  {
    hide Explained, Exclusive, Count, GuardKey, HoldsSlot, MutexKey, LeaseKey, Depth, Move, Willing;
    NothingAwaitedIsHeld(s, i);
    CanMove(s.capacity, s.shared, s.callers[i]);
  }

  lemma CanMove(capacity: nat, sh: Shared, c: Caller)
    requires Explained(c) && c.phase != Done
    requires c.phase == AwaitLease ==> c.request.repository !in sh.leases
    requires c.phase == AwaitMutex ==> c.request.repository !in sh.mutexes
    requires c.phase == AwaitSlot ==> sh.slots < capacity
    requires HoldsSlot(c) ==> sh.slots > 0
    ensures Move(capacity, sh, c, Willing(c)).Some?
  {
  }

  /** No reachable state is stuck: some unfinished caller can step without giving up, if operations return. */
  lemma NoDeadlock(states: seq<System>, k: nat) returns (i: nat, step: Step)
    requires Behaviour(states) && k < |states|
    requires exists j :: 0 <= j < |states[k].callers| && states[k].callers[j].phase != Done
    ensures i < |states[k].callers| && states[k].callers[i].phase != Done
    ensures !GivesUp(step) && Next(states[k], i, step).Some?
  {
    hide Inv, Behaviour, Depth, Next, Willing;
    EveryStateIsSafe(states, k);
    i := SomeDeepest(states[k], |states[k].callers|);
    step := Willing(states[k].callers[i]);
    DeepestIsUnfinished(states[k], i);
    DeepestCanMove(states[k], i);
    WillingNeverGivesUp(states[k].callers[i]);
  }

  lemma DeepestIsUnfinished(s: System, i: nat)
    requires Deepest(s, i) && exists j :: 0 <= j < |s.callers| && s.callers[j].phase != Done
    ensures s.callers[i].phase != Done
  {
    var j :| 0 <= j < |s.callers| && s.callers[j].phase != Done;
    assert Depth(s.callers[j]) > 0;
  }

  lemma WillingNeverGivesUp(c: Caller)
    ensures !GivesUp(Willing(c))
  {
  }

  /** Steps a caller can still take. */
  function Rank(c: Caller): nat
    requires c.request.Execute? ==> |c.replies| <= Attempts(c.request.maxAttempts)
  {
    if c.request.Maintain? then
      match c.phase case Start => 3 case AwaitLease => 2 case Working => 1 case _ => 0
    else
      var most := Attempts(c.request.maxAttempts);
      var left := most - |c.replies|;
      match c.phase
      case Start => 4 * most + 7
      case AwaitSlot => 4 * most + 6
      case AwaitMutex => 4 * most + 5
      case Ready => 4 * left + 4
      case AwaitLease => 4 * left + 3
      case Working => 4 * left + 2
      case Backoff => 4 * left + 5
      case UnlockMutex => 3
      case ReturnSlot => 2
      case Depart => 1
      case Done => 0
  }

  function TotalRank(callers: seq<Caller>): nat
    requires forall i :: 0 <= i < |callers| && callers[i].request.Execute? ==> |callers[i].replies| <= Attempts(callers[i].request.maxAttempts)
  {
    if callers == [] then 0 else TotalRank(callers[..|callers| - 1]) + Rank(callers[|callers| - 1])
  }

  lemma {:induction false} TotalRankUpdate(callers: seq<Caller>, i: nat, c: Caller)
    requires i < |callers|
    requires forall i :: 0 <= i < |callers| && callers[i].request.Execute? ==> |callers[i].replies| <= Attempts(callers[i].request.maxAttempts)
    requires c.request.Execute? ==> |c.replies| <= Attempts(c.request.maxAttempts)
    ensures TotalRank(callers[i := c]) == TotalRank(callers) - Rank(callers[i]) + Rank(c)
  {
    var n := |callers| - 1;
    if i == n {
      assert callers[i := c][..n] == callers[..n];
    } else {
      assert callers[i := c][..n] == callers[..n][i := c];
      TotalRankUpdate(callers[..n], i, c);
    }
  }

  /** Every step, cancellation included, brings the whole system closer to the end. */
  lemma StepsRunOut(s: System, i: nat, step: Step)
    requires Inv(s) && Next(s, i, step).Some?
    ensures Inv(Next(s, i, step).value) && TotalRank(Next(s, i, step).value.callers) < TotalRank(s.callers)
  {
    hide Explained, Exclusive, Count, GuardKey, HoldsSlot, MutexKey, LeaseKey, Move, Rank, TotalRank;
    NextInv(s, i, step);
    RepliesAreFew(s);
    RepliesAreFew(Next(s, i, step).value);
    TotalRankUpdate(s.callers, i, Next(s, i, step).value.callers[i]);
    RankDrops(s.capacity, s.shared, s.callers[i], step);
  }

  lemma RepliesAreFew(s: System)
    requires Inv(s)
    ensures forall i :: 0 <= i < |s.callers| && s.callers[i].request.Execute? ==> |s.callers[i].replies| <= Attempts(s.callers[i].request.maxAttempts)
  {
    hide Exclusive, Count, GuardKey, HoldsSlot, MutexKey, LeaseKey;
  }

  lemma RankDrops(capacity: nat, sh: Shared, c: Caller, step: Step)
    requires Explained(c) && Move(capacity, sh, c, step).Some?
    requires c.request.Execute? ==> |c.replies| <= Attempts(c.request.maxAttempts)
    ensures var c' := Move(capacity, sh, c, step).value.1;
            && (c'.request.Execute? ==> |c'.replies| <= Attempts(c'.request.maxAttempts))
            && Rank(c') < Rank(c)
  {
    MoveExplained(capacity, sh, c, step);
  }

  /** So every run ends, after at most as many steps as the initial rank. */
  lemma {:induction false} RunsAreBounded(states: seq<System>, k: nat)
    requires Behaviour(states) && k < |states|
    ensures Inv(states[0]) && Inv(states[k])
    ensures k + TotalRank(states[k].callers) <= TotalRank(states[0].callers)
  {
    EveryStateIsSafe(states, 0);
    EveryStateIsSafe(states, k);
    if k > 0 {
      RunsAreBounded(states, k - 1);
      assert Follows(states[k - 1], states[k]);
      var i: nat, step :| Next(states[k - 1], i, step) == Some(states[k]);
      StepsRunOut(states[k - 1], i, step);
    }
  }
}
