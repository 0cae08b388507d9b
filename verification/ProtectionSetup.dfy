/** Setting up protection from a draft: a sequence of storage calls that can stop anywhere and be repeated. */
module ProtectionSetup {
  import opened Wrappers

  datatype ItemStatus = Pending | ItemFailed | ItemReady | Retained | ItemCancelled

  datatype DraftStatus = DraftPending | Applying | Partial | DraftReady | DraftCancelled

  // One mapping of a draft, and whether the task and the maintenance policy made from it pass validation.
  datatype Item = Item(repositoryId: string, taskId: string, status: ItemStatus, taskValid: bool, policyValid: bool)

  // Only an uninitialized repository can be initialized; `Unusable` stands for every other status but ready.
  datatype RepositoryStatus = Uninitialized | RepositoryReady | Unusable

  // What is stored. A repository has a status; a task belongs to a repository; a plan lists tasks.
  datatype State = State(status: DraftStatus, items: seq<Item>, repositories: map<string, RepositoryStatus>, tasks: map<string, string>,
                         policies: set<string>, plan: Option<seq<string>>,
                         createdRepositories: seq<string>, createdTasks: seq<string>)

  ghost predicate NoneTwice(ids: seq<string>) {
    forall i, j :: 0 <= i < j < |ids| ==> ids[i] != ids[j]
  }

  predicate IsReady(s: State, id: string) {
    id in s.repositories && s.repositories[id] == RepositoryReady
  }

  /** A repository that is there and can be neither used nor initialized. */
  predicate Blocked(s: State, id: string) {
    id in s.repositories && s.repositories[id] == Unusable
  }

  /** Nothing about the item itself stands in the way of protecting it. */
  predicate Applicable(s: State, item: Item) {
    !Blocked(s, item.repositoryId) && (item.taskId in s.tasks || item.taskValid) && item.policyValid
  }

  /** A ready repository, a task on it and a maintenance policy. */
  predicate Protected(s: State, item: Item) {
    && IsReady(s, item.repositoryId)
    && item.taskId in s.tasks && s.tasks[item.taskId] == item.repositoryId
    && item.repositoryId in s.policies
  }

  function TaskIds(items: seq<Item>): seq<string> {
    if items == [] then []
    else TaskIds(items[..|items| - 1]) + if items[|items| - 1].status == ItemReady then [items[|items| - 1].taskId] else []
  }

  ghost predicate AllReady(items: seq<Item>) {
    forall i :: 0 <= i < |items| ==> items[i].status == ItemReady
  }

  ghost predicate AllApplicable(s: State, items: seq<Item>) {
    forall i :: 0 <= i < |items| ==> items[i].status == ItemReady || Applicable(s, items[i])
  }

  /** Every item is recorded as how it went, whatever happened to the others. */
  ghost predicate EachApplied(s: State, loaded: seq<Item>, items: seq<Item>) {
    && |items| == |loaded|
    && forall i :: 0 <= i < |loaded| ==>
         items[i] == loaded[i].(status := if loaded[i].status == ItemReady || Applicable(s, loaded[i]) then ItemReady else ItemFailed)
  }

  /** No obstacle has come or gone but for the task of item `i`. */
  ghost predicate SameObstacles(s: State, t: State, i: nat)
    requires i < |s.items|
  {
    && s.tasks.Keys <= t.tasks.Keys <= s.tasks.Keys + {s.items[i].taskId}
    && forall id :: Blocked(t, id) <==> Blocked(s, id)
  }

  /** The task named by an item, if there is one, is the item's. */
  ghost predicate TasksAreOwn(s: State) {
    forall i :: 0 <= i < |s.items| && s.items[i].taskId in s.tasks ==> s.tasks[s.items[i].taskId] == s.items[i].repositoryId
  }

  /** What holds of the stored state at every moment. */
  ghost predicate Sound(s: State) {
    && s.items != [] && TasksAreOwn(s)
    && (forall i, j :: 0 <= i < j < |s.items| ==> s.items[i].taskId != s.items[j].taskId)
    && (forall i :: 0 <= i < |s.items| && s.items[i].status == ItemReady ==> Protected(s, s.items[i]))
    && (s.status == DraftReady ==> AllReady(s.items) && s.plan == Some(TaskIds(s.items)))
    && NoneTwice(s.createdRepositories) && (forall id :: id in s.createdRepositories ==> id in s.repositories)
    && NoneTwice(s.createdTasks) && (forall id :: id in s.createdTasks ==> id in s.tasks)
  }

  /** The draft is the same but for statuses, and nothing that was set up is lost. */
  ghost predicate Grows(s: State, t: State) {
    && |t.items| == |s.items|
    && (forall i :: 0 <= i < |s.items| ==> t.items[i] == s.items[i].(status := t.items[i].status))
    && (forall i :: 0 <= i < |s.items| && s.items[i].status == ItemReady ==> t.items[i].status == ItemReady)
    && s.repositories.Keys <= t.repositories.Keys && s.tasks.Keys <= t.tasks.Keys
    && s.createdRepositories <= t.createdRepositories && s.createdTasks <= t.createdTasks
  }

  class Store {
    const answers: nat -> bool       // whether the n-th storage call goes through
    var calls: nat
    var s: State
    ghost var history: seq<State>    // every state there has been, this one last

    /** Every storage call goes through. */
    ghost predicate Works() {
      forall n :: answers(n)
    }

    ghost predicate Valid()
      reads this`s, this`history
    {
      history != [] && history[|history| - 1] == s
    }

    /** Every state so far was sound, so a stop at any moment leaves a sound one. */
    ghost predicate AlwaysSound()
      reads this`history
    {
      forall k :: 0 <= k < |history| ==> Sound(history[k])
    }

    constructor (answers: nat -> bool, s: State)
      ensures Valid() && this.s == s && this.answers == answers && history == [s]
    {
      this.answers, this.s, history := answers, s, [s];
    }

    /** A call that only reads. */
    method Reach() returns (ok: bool)
      modifies this`calls
      ensures ok <==> answers(old(calls))
      ensures calls == old(calls) + 1
    {
      ok := answers(calls);
      calls := calls + 1;
    }

    /** A call that writes, in one step or not at all. */
    method Commit(t: State) returns (ok: bool)
      requires Valid()
      modifies this
      ensures Valid()
      ensures ok <==> answers(old(calls))
      ensures calls == old(calls) + 1
      ensures s == if ok then t else old(s)
      ensures history == if ok then old(history) + [t] else old(history)
      ensures old(AlwaysSound()) && (ok ==> Sound(t)) ==> AlwaysSound()
    {
      ok := answers(calls);
      calls := calls + 1;
      if ok {
        s := t;
        history := history + [t];
      }
    }

    // ----- One item

    method SetUpRepository(id: string) returns (ok: bool)
      requires Valid() && AlwaysSound() && Sound(s) && s.status == Applying
      modifies this
      ensures Valid() && AlwaysSound() && Sound(s) && Grows(old(s), s)
      ensures s == old(s).(repositories := s.repositories, createdRepositories := s.createdRepositories)
      ensures ok ==> IsReady(s, id) && !Blocked(old(s), id)
      ensures forall other :: Blocked(s, other) <==> Blocked(old(s), other)
      ensures Works() ==> (ok <==> !Blocked(old(s), id))
    {
      hide Grows, Sound, AlwaysSound;
      ghost var before := s;
      GrowsSelf(s);
      ok := Reach();
      if !ok { return; }
      if id !in s.repositories {
        CreateRepositoryIsSound(s, id);
        ok := Commit(s.(repositories := s.repositories[id := Uninitialized], createdRepositories := s.createdRepositories + [id]));
        if !ok { return; }
      }
      if s.repositories[id] != RepositoryReady {
        ghost var created := s;
        ok := Initialize(id);
        GrowsOn(before, created, s);
      }
    }

    /** Load the repository, refuse it unless it is uninitialized, make it with restic, record that it is ready. */
    method Initialize(id: string) returns (ok: bool)
      requires Valid() && AlwaysSound() && Sound(s) && s.status == Applying && id in s.repositories
      modifies this
      ensures Valid() && AlwaysSound() && Sound(s) && Grows(old(s), s)
      ensures s == old(s).(repositories := if ok then old(s).repositories[id := RepositoryReady] else old(s).repositories)
      ensures ok <==>
        old(s).repositories[id] == Uninitialized && answers(old(calls)) && answers(old(calls) + 1) && answers(old(calls) + 2)
    {
      hide Grows, Sound, AlwaysSound;
      GrowsSelf(s);
      ok := Reach();
      if !ok { return; }
      if s.repositories[id] != Uninitialized { return false; }
      ok := Reach();
      if !ok { return; }
      InitializeIsSound(s, id);
      ok := Commit(s.(repositories := s.repositories[id := RepositoryReady]));
    }

    method SetUpTask(i: nat) returns (ok: bool)
      requires Valid() && AlwaysSound() && Sound(s) && s.status == Applying && i < |s.items|
      requires IsReady(s, s.items[i].repositoryId)
      modifies this
      ensures Valid() && AlwaysSound() && Sound(s) && Grows(old(s), s)
      ensures s == old(s).(tasks := s.tasks, createdTasks := s.createdTasks, policies := s.policies)
      ensures ok ==> Protected(s, s.items[i]) && Applicable(old(s), s.items[i])
      ensures SameObstacles(old(s), s, i)
      ensures Works() ==> (ok <==> Applicable(old(s), s.items[i]))
    {
      hide Grows, Sound, AlwaysSound, Protected;
      ghost var before := s;
      var item := s.items[i];
      GrowsSelf(s);
      ok := Reach();
      if !ok { return; }
      if item.taskId !in s.tasks {
        if !item.taskValid { return false; }
        CreateTaskIsSound(s, i);
        ok := Commit(s.(tasks := s.tasks[item.taskId := item.repositoryId], createdTasks := s.createdTasks + [item.taskId]));
        if !ok { return; }
      }
      if !item.policyValid { return false; }
      SavePolicyIsSound(s, i);
      GrowsOn(before, s, s.(policies := s.policies + {item.repositoryId}));
      ok := Commit(s.(policies := s.policies + {item.repositoryId}));
    }

    /** Make the repository, the task and the policy of item `i`, each unless it is there already. */
    method ApplyItem(i: nat) returns (ok: bool)
      requires Valid() && AlwaysSound() && Sound(s) && s.status == Applying && i < |s.items|
      modifies this
      ensures Valid() && AlwaysSound() && Sound(s) && Grows(old(s), s)
      ensures s.status == Applying && s.items == old(s.items) && s.plan == old(s.plan)
      ensures ok ==> Protected(s, s.items[i]) && Applicable(old(s), s.items[i])
      ensures SameObstacles(old(s), s, i)
      ensures Works() ==> (ok <==> Applicable(old(s), s.items[i]))
    {
      hide Grows, Sound, AlwaysSound, Protected;
      ghost var before := s;
      ok := SetUpRepository(s.items[i].repositoryId);
      if !ok { return; }
      ghost var middle := s;
      ok := SetUpTask(i);
      GrowsOn(before, middle, s);
    }

    /** The plan lists the tasks of the items that are ready; without any, there is no plan to store. */
    method UpsertPlan(items: seq<Item>) returns (ok: bool)
      requires Valid() && AlwaysSound() && Sound(s) && s.status == Applying
      modifies this
      ensures Valid() && AlwaysSound() && Sound(s) && Grows(old(s), s)
      ensures s == old(s).(plan := s.plan)
      ensures ok && TaskIds(items) != [] ==> s.plan == Some(TaskIds(items))
      ensures !ok || TaskIds(items) == [] ==> s.plan == old(s).plan
      ensures Works() ==> ok
    {
      hide Grows, Sound, AlwaysSound;
      var ids := [];
      for i := 0 to |items|
        invariant ids == TaskIds(items[..i])
      {
        assert items[..i + 1][..i] == items[..i];
        if items[i].status == ItemReady { ids := ids + [items[i].taskId]; }
      }
      assert items[..|items|] == items;
      GrowsSelf(s);
      if |ids| == 0 { return true; }
      ok := Reach();
      if !ok { return; }
      SavePlanIsSound(s, ids);
      ok := Commit(s.(plan := Some(ids)));
    }

    method SetStatus(status: DraftStatus) returns (ok: bool)
      requires Valid() && AlwaysSound() && Sound(s)
      requires status == DraftReady ==> AllReady(s.items) && s.plan == Some(TaskIds(s.items))
      modifies this
      ensures Valid() && AlwaysSound() && Sound(s) && Grows(old(s), s)
      ensures ok <==> answers(old(calls))
      ensures calls == old(calls) + 1
      ensures s == if ok then old(s).(status := status) else old(s)
    {
      hide Grows, Sound, AlwaysSound, TaskIds;
      GrowsSelf(s);
      StatusIsSound(s, status);
      ok := Commit(s.(status := status));
    }

    /** Record how item `i` went, which is not recorded as ready yet. */
    method RecordItem(i: nat, status: ItemStatus) returns (ok: bool)
      requires Valid() && AlwaysSound() && Sound(s) && s.status == Applying && i < |s.items| && s.items[i].status != ItemReady
      requires status == ItemReady ==> Protected(s, s.items[i])
      modifies this
      ensures Valid() && AlwaysSound() && Sound(s) && Grows(old(s), s)
      ensures ok <==> answers(old(calls))
      ensures s == if ok then old(s).(items := old(s).items[i := old(s).items[i].(status := status)]) else old(s)
    {
      hide Grows, Sound, AlwaysSound, Protected;
      GrowsSelf(s);
      ItemIsSound(s, i, status);
      ok := Commit(s.(items := s.items[i := s.items[i].(status := status)]));
    }

    // ----- Applying a draft

    // The items as this run sees them: what it takes for ready is recorded as ready.
    ghost predicate Follows(items: seq<Item>)
      reads this
    {
      |items| == |s.items|
      && forall i :: 0 <= i < |items| ==> items[i].(status := s.items[i].status) == s.items[i] && (items[i].status == ItemReady ==> s.items[i].status == ItemReady)
    }

    /** One turn of the loop: item `i` is applied and the result recorded, here and, if that works, in the store. */
    method ApplyAndRecord(i: nat, items: seq<Item>) returns (status: ItemStatus)
      requires Valid() && AlwaysSound() && Sound(s) && s.status == Applying && Follows(items)
      requires i < |items| && items[i].status != ItemReady && items[i].status == s.items[i].status
      modifies this
      ensures Valid() && AlwaysSound() && Sound(s) && Grows(old(s), s) && s.status == Applying
      ensures status in {ItemReady, ItemFailed} && Follows(items[i := items[i].(status := status)])
      ensures forall j :: 0 <= j < |items| && j != i ==> s.items[j] == old(s).items[j]
      ensures SameObstacles(old(s), s, i)
      ensures s.plan == old(s).plan && (Works() ==> s.items[i].status == status)
      ensures status == ItemReady ==> Applicable(old(s), items[i])
      ensures Works() ==> (status == ItemReady <==> Applicable(old(s), items[i]))
    {
      hide Grows, Sound, AlwaysSound, Protected;
      ghost var before := s;
      var applied := ApplyItem(i);
      ghost var middle := s;
      var recorded := RecordItem(i, if applied then ItemReady else ItemFailed);
      GrowsOn(before, middle, s);
      status := if applied && recorded then ItemReady else ItemFailed;
    }

    method ApplyItems(loaded: seq<Item>) returns (items: seq<Item>, failed: nat)
      requires Valid() && AlwaysSound() && Sound(s) && s.status == Applying && loaded == s.items
      modifies this
      ensures Valid() && AlwaysSound() && Sound(s) && Grows(old(s), s) && s.status == Applying
      ensures Follows(items) && |items| == |loaded|
      ensures failed == 0 ==> AllReady(items)
      ensures failed == 0 ==> AllApplicable(old(s), loaded)
      ensures Works() ==> (failed == 0 <==> AllApplicable(old(s), loaded))
      ensures s.plan == old(s).plan && (Works() ==> items == s.items && EachApplied(old(s), loaded, items))
    {
      hide Grows, Sound, AlwaysSound, SoFar, EachApplied, AllApplicable, Applicable;
      ghost var before := s;
      GrowsSelf(s);
      items, failed := loaded, 0;
      NothingYet(s, Works(), loaded);
      for i := 0 to |items|
        invariant Valid() && AlwaysSound() && Sound(s) && s.status == Applying && Grows(before, s)
        invariant |items| == |loaded| && Follows(items)
        invariant SoFar(before, s, Works(), loaded, items, failed, i)
      {
        AsLoaded(before, s, Works(), loaded, items, failed, i);
        if items[i].status == ItemReady { continue; }
        ghost var (started, earlier, count) := (s, items, failed);
        var status := ApplyAndRecord(i, items);
        GrowsOn(before, started, s);
        items := items[i := items[i].(status := status)];
        if status != ItemReady { failed := failed + 1; }
        OneMoreApplied(before, started, s, Works(), loaded, earlier, count, i, status);
      }
      AllDone(before, s, Works(), loaded, items, failed);
    }

    /**
     * Apply the draft, with any storage call failing. A draft that is applied without error is stored as ready;
     * if every call goes through, that is exactly when it is not cancelled and nothing about its items is in the way.
     */
    method Apply() returns (ok: bool)
      requires Valid() && AlwaysSound() && Sound(s)
      modifies this
      ensures Valid() && AlwaysSound() && Sound(s) && Grows(old(s), s)
      ensures ok ==> s.status == DraftReady && (old(s).status == DraftReady || AllApplicable(old(s), old(s).items))
      ensures old(s).status in {DraftCancelled, DraftReady} ==> s == old(s)
      ensures Works() ==>
        (ok <==> old(s).status == DraftReady || (old(s).status != DraftCancelled && AllApplicable(old(s), old(s).items)))
      ensures Works() && old(s).status !in {DraftCancelled, DraftReady} ==>
        && EachApplied(old(s), old(s).items, s.items)
        && s.status == (if AllApplicable(old(s), old(s).items) then DraftReady else Partial)
        && s.plan == if TaskIds(s.items) == [] then old(s).plan else Some(TaskIds(s.items))
    {
      hide Grows, Sound, AlwaysSound, TaskIds, AllApplicable;
      ghost var before := s;
      GrowsSelf(s);
      ok := Reach();
      if !ok { return; }
      if s.status == DraftCancelled { return false; }
      if s.status == DraftReady { return true; }
      ok := SetStatus(Applying);
      if !ok { return; }
      ghost var started := s;
      StatusIsNoObstacle(before, Applying, s.items);
      var items, failed := ApplyItems(s.items);
      GrowsOn(before, started, s);
      ghost var applied := s;
      var planned := UpsertPlan(items);
      GrowsOn(before, applied, s);
      if !planned { failed := failed + 1; }
      if failed == 0 {
        ReadyItemsAreStored(items, s);
        AllReadyHaveTasks(s);
      }
      ghost var settled := s;
      ok := SetStatus(if failed > 0 then Partial else DraftReady);
      GrowsOn(before, settled, s);
      if !ok { return; }
      ok := Reach();
      if !ok { return; }
      ok := failed == 0;
    }

    /** What start-up does to a draft whose run was interrupted. */
    method Recover() returns (ok: bool)
      requires Valid() && AlwaysSound() && Sound(s)
      modifies this
      ensures Valid() && AlwaysSound() && Sound(s) && Grows(old(s), s)
      ensures ok <==> (old(s).status == Applying ==> answers(old(calls)))
      ensures s == if old(s).status == Applying && ok then old(s).(status := Partial) else old(s)
    {
      hide Grows, Sound, AlwaysSound;
      GrowsSelf(s);
      ok := true;
      if s.status == Applying { ok := SetStatus(Partial); }
    }

    /** However often the draft is applied, and recovered in between, every state on the way is sound. */
    method ApplyRepeatedly(times: nat) returns (ok: bool)
      requires Valid() && AlwaysSound() && Sound(s)
      modifies this
      ensures Valid() && AlwaysSound() && Sound(s) && Grows(old(s), s)
      ensures ok ==> s.status == DraftReady && times > 0
      ensures Works() && times > 0 ==>
        (old(s).status == DraftReady || (old(s).status != DraftCancelled && AllApplicable(old(s), old(s).items)) ==> ok)
    {
      hide Grows, Sound, AlwaysSound, AllApplicable, EachApplied, TaskIds;
      ghost var before := s;
      GrowsSelf(s);
      ok := false;
      for n := 0 to times
        invariant Valid() && AlwaysSound() && Sound(s) && Grows(before, s)
        invariant ok ==> s.status == DraftReady && n > 0
        invariant n == 0 ==> s == before
        invariant Works() && n > 0 ==>
          (before.status == DraftReady || (before.status != DraftCancelled && AllApplicable(before, before.items)) ==> ok)
      {
        ghost var earlier := s;
        StatusIsNoObstacle(s, Partial, s.items);
        var _ := Recover();
        ghost var recovered := s;
        GrowsOn(before, earlier, s);
        ok := Apply();
        GrowsOn(before, recovered, s);
      }
    }
  }

  /** Where the loop over the items stands: the first `i` are dealt with, the others are as they were loaded. */
  ghost predicate SoFar(before: State, now: State, works: bool, loaded: seq<Item>, items: seq<Item>, failed: nat, i: nat) {
    && i <= |items| == |loaded| == |now.items| && now.plan == before.plan
    && (forall j :: i <= j < |items| ==> items[j] == loaded[j] == now.items[j] && (Applicable(now, loaded[j]) <==> Applicable(before, loaded[j])))
    && (failed == 0 ==> AllReady(items[..i]) && AllApplicable(before, loaded[..i]))
    && (works ==> items == now.items && EachApplied(before, loaded[..i], items[..i]) && (failed == 0 <==> AllApplicable(before, loaded[..i])))
  }

  lemma NothingYet(s: State, works: bool, loaded: seq<Item>)
    requires loaded == s.items
    ensures SoFar(s, s, works, loaded, loaded, 0, 0)
  {}

  /** The next item is as it was loaded, and if it is ready there is nothing to do about it. */
  lemma AsLoaded(before: State, now: State, works: bool, loaded: seq<Item>, items: seq<Item>, failed: nat, i: nat)
    requires SoFar(before, now, works, loaded, items, failed, i) && i < |items|
    ensures items[i] == loaded[i] == now.items[i]
    ensures items[i].status == ItemReady ==> SoFar(before, now, works, loaded, items, failed, i + 1)
  {
    hide Applicable;
    assert loaded[..i + 1] == loaded[..i] + [loaded[i]] && items[..i + 1] == items[..i] + [items[i]];
  }

  lemma OneMoreApplied(before: State, prev: State, now: State, works: bool, loaded: seq<Item>, items: seq<Item>, failed: nat, i: nat,
                       status: ItemStatus)
    requires SoFar(before, prev, works, loaded, items, failed, i) && i < |items| && items[i].status != ItemReady
    requires Sound(prev) && |now.items| == |prev.items| && SameObstacles(prev, now, i) && now.plan == prev.plan
    requires forall j :: 0 <= j < |items| && j != i ==> now.items[j] == prev.items[j]
    requires now.items[i] == prev.items[i].(status := now.items[i].status) && status in {ItemReady, ItemFailed}
    requires status == ItemReady ==> Applicable(prev, items[i])
    requires works ==> (status == ItemReady <==> Applicable(prev, items[i])) && now.items[i].status == status
    ensures SoFar(before, now, works, loaded, items[i := items[i].(status := status)], failed + (if status == ItemReady then 0 else 1), i + 1)
  {
    OthersUnaffected(prev, now, i, loaded);
    hide Applicable, Sound, SameObstacles;
    var next := items[i := items[i].(status := status)];
    assert loaded[..i + 1] == loaded[..i] + [loaded[i]] && next[..i + 1] == items[..i] + [next[i]];
    assert works ==> next == now.items;
  }

  lemma AllDone(before: State, now: State, works: bool, loaded: seq<Item>, items: seq<Item>, failed: nat)
    requires SoFar(before, now, works, loaded, items, failed, |items|)
    ensures now.plan == before.plan && (failed == 0 ==> AllReady(items) && AllApplicable(before, loaded))
    ensures works ==> items == now.items && EachApplied(before, loaded, items) && (failed == 0 <==> AllApplicable(before, loaded))
  {
    hide Applicable;
    assert items[..|items|] == items && loaded[..|loaded|] == loaded;
  }

  /** Applying one item leaves the others as applicable as they were. */
  lemma OthersUnaffected(s: State, t: State, i: nat, items: seq<Item>)
    requires Sound(s) && i < |s.items| == |items| && SameObstacles(s, t, i)
    requires forall j :: i < j < |items| ==> items[j] == s.items[j]
    ensures forall j :: i < j < |items| ==> (Applicable(t, items[j]) <==> Applicable(s, items[j]))
  {
    forall j | i < j < |items| ensures Applicable(t, items[j]) <==> Applicable(s, items[j]) {
      assert s.items[i].taskId != s.items[j].taskId;
    }
  }

  lemma StatusIsNoObstacle(s: State, status: DraftStatus, items: seq<Item>)
    ensures AllApplicable(s.(status := status), items) <==> AllApplicable(s, items)
  {
    var t := s.(status := status);
    forall i | 0 <= i < |items| ensures Applicable(t, items[i]) <==> Applicable(s, items[i]) {}
  }

  lemma GrowsSelf(s: State)
    ensures Grows(s, s)
  {}

  lemma GrowsOn(r: State, s: State, t: State)
    requires Grows(r, s) && Grows(s, t)
    ensures Grows(r, t)
  {}

  lemma CreateRepositoryIsSound(s: State, id: string)
    requires Sound(s) && id !in s.repositories && s.status == Applying
    ensures var t := s.(repositories := s.repositories[id := Uninitialized], createdRepositories := s.createdRepositories + [id]);
            Sound(t) && Grows(s, t)
  {}

  lemma InitializeIsSound(s: State, id: string)
    requires Sound(s) && id in s.repositories && s.status == Applying
    ensures Sound(s.(repositories := s.repositories[id := RepositoryReady])) && Grows(s, s.(repositories := s.repositories[id := RepositoryReady]))
  {}

  lemma CreateTaskIsSound(s: State, i: nat)
    requires Sound(s) && i < |s.items| && s.items[i].taskId !in s.tasks && s.status == Applying
    ensures var t := s.(tasks := s.tasks[s.items[i].taskId := s.items[i].repositoryId], createdTasks := s.createdTasks + [s.items[i].taskId]);
            Sound(t) && Grows(s, t)
  {}

  lemma SavePolicyIsSound(s: State, i: nat)
    requires Sound(s) && i < |s.items| && s.status == Applying
    requires IsReady(s, s.items[i].repositoryId) && s.items[i].taskId in s.tasks
    ensures var t := s.(policies := s.policies + {s.items[i].repositoryId});
            Sound(t) && Grows(s, t) && Protected(t, t.items[i])
  {}

  lemma ReadyItemsAreStored(items: seq<Item>, s: State)
    requires AllReady(items) && |items| == |s.items|
    requires forall i :: 0 <= i < |items| ==> items[i].(status := s.items[i].status) == s.items[i] && (items[i].status == ItemReady ==> s.items[i].status == ItemReady)
    ensures items == s.items
  {
    forall i | 0 <= i < |items| ensures items[i] == s.items[i] {
      assert items[i].status == ItemReady;
    }
  }

  lemma SavePlanIsSound(s: State, ids: seq<string>)
    requires Sound(s) && s.status == Applying
    ensures Sound(s.(plan := Some(ids))) && Grows(s, s.(plan := Some(ids)))
  {}

  lemma StatusIsSound(s: State, status: DraftStatus)
    requires Sound(s)
    requires status == DraftReady ==> AllReady(s.items) && s.plan == Some(TaskIds(s.items))
    ensures Sound(s.(status := status)) && Grows(s, s.(status := status))
  {}

  lemma ItemIsSound(s: State, i: nat, status: ItemStatus)
    requires Sound(s) && s.status == Applying && i < |s.items| && s.items[i].status != ItemReady
    requires status == ItemReady ==> Protected(s, s.items[i])
    ensures var t := s.(items := s.items[i := s.items[i].(status := status)]);
            Sound(t) && Grows(s, t)
  {}

  /** A draft with items, all of them ready, has tasks to plan. */
  lemma AllReadyHaveTasks(s: State)
    requires Sound(s) && AllReady(s.items)
    ensures TaskIds(s.items) != [] && |TaskIds(s.items)| == |s.items|
    ensures forall i :: 0 <= i < |s.items| ==> TaskIds(s.items)[i] == s.items[i].taskId
  {
    TaskOfEach(s.items);
  }

  lemma {:induction false} TaskOfEach(items: seq<Item>)
    requires AllReady(items)
    ensures |TaskIds(items)| == |items| && forall i :: 0 <= i < |items| ==> TaskIds(items)[i] == items[i].taskId
  {
    if items != [] {
      TaskOfEach(items[..|items| - 1]);
    }
  }

  /** A draft stored as ready: every item is protected and the plan lists exactly their tasks, in order. */
  lemma ReadyMeansProtected(s: State)
    requires Sound(s) && s.status == DraftReady
    ensures forall i :: 0 <= i < |s.items| ==> Protected(s, s.items[i])
    ensures s.plan.Some? && |s.plan.value| == |s.items| && forall i :: 0 <= i < |s.items| ==> s.plan.value[i] == s.items[i].taskId
  {
    TaskOfEach(s.items);
  }
}
