/** The whole reconciliation: incremental changes that add up to a direct function of the facts. */
module Reconciler {
  import opened AlertRules
  import opened Alerts
  import opened Reconciliations
  import opened Settlement
  import opened VerdictKeys
  import opened Verdicts
  import opened Wrappers

  // NotListed: a listing failed; Stopped: a forecast could not be read; Done: with how many errors.
  datatype Ending = NotListed | Stopped | Done(failures: nat)

  method Reconcile(service: Service, listed: Option<Facts>, c: Clock, replies: string -> Reply)
    returns (ending: Ending, ghost made: seq<string>)
    requires listed.Some? ==> PrimaryKeys(listed.value)
    requires ChannelIsOwn(service.stored)
    modifies service
    ensures service.calls == old(service.calls) + made && ChannelIsOwn(service.stored)
    ensures ending.NotListed? <==> listed.None?
    ensures ending.NotListed? ==> service.stored == old(service.stored) && made == []
    ensures listed.Some? ==> (ending.Done? <==> AllForecasts(listed.value, |listed.value.repositories|))
    // in terms of the facts themselves
    ensures listed.Some? ==> (ending.Done? <==> forall r :: r in listed.value.repositories ==> !LacksForecast(listed.value, r))
    ensures ending.Done? && (forall key: string :: !replies(key).storeFails) ==>
      FollowsTheFacts(service.stored, old(service.stored), listed.value, c)
    ensures ending.Done? && (forall key: string :: !replies(key).storeFails) ==>
      forall key: string :: key != CHANNEL.Text() ==> (key in made <==> Lookup(service.stored, key) != Lookup(old(service.stored), key))
    ensures ending.Stopped? && (forall key: string :: !replies(key).storeFails) ==>
      exists n: nat :: StoppedAt(service.stored, old(service.stored), listed.value, n, c)
    // call by call, with the store refusing some
    ensures ending.Stopped? ==> Partly(service.stored, old(service.stored), Decisions(listed.value, c))
    ensures ending.Done? ==> Reconciled(service.stored, old(service.stored), Decisions(listed.value, c), replies)
    ensures ending.Done? ==> CallsAreTheChanges(made, old(service.stored), Decisions(listed.value, c))
    ensures ending.Done? ==> (ending.failures == 0 <==> AllSucceed(made, old(service.stored), Decisions(listed.value, c), replies))
  {
    hide *;
    made := [];
    if listed.None? { return NotListed, []; }
    var f := listed.value;
    ghost var (before, ds) := (service.stored, Decisions(f, c));
    var r := new Reconciliation(service, replies);
    ghost var start := r.Now();
    StartsHere(start, before);
    NoVerdictOnChannel(f, c);
    var taskNames := r.ReconcileTasks(f, c);
    var repositoryNames := r.NamesOfRepositories(f.repositories);
    var finished, reached := r.ReconcileRepositories(f, c);
    FirstTwo(start, f, c, reached, replies);
    NoneLacks(f);
    if !finished {
      ghost var some := ds[..FirstDecisions(f, c, reached)];
      PartialRun(start, before, ds, |some|, replies);
      SettledCalls(start, before, some, replies);
      SettleKeepsChannel(start, some, replies);
      NowIs(r);
      if forall key: string :: !replies(key).storeFails { Stops(service.stored, before, f, reached, c, replies); }
      return Stopped, Needed(before, some);
    }
    assert f.repositories[..reached] == f.repositories;
    r.ReconcileAgents(f, c);
    r.ReconcilePlans(f, c);
    r.ReconcileMaintenance(f, c, repositoryNames);
    r.ReconcileVerifications(f, c, taskNames);
    AllSix(start, f, c, replies);
    SettleIsPointwise(start, before, ds, replies);
    NowIs(r);
    UnseenBefore(r.Now(), before, ds, replies);
    ghost var removals := r.ResolveRemovedObjects();
    SettleMore(start, ds, removals, replies);
    WholeRun(start, before, ds, removals, replies);
    SettleKeepsChannel(start, ds + removals, replies);
    NowIs(r);
    made := Needed(before, ds + removals);
    if forall key: string :: !replies(key).storeFails {
      ReconciledFollowsTheFacts(service.stored, before, f, c, replies);
      CallsChangeTheStore(service.stored, before, ds, made, replies);
    }
    return Done(r.failures), made;
  }

  lemma NowIs(r: Reconciliation)
    ensures r.Now() == Progress(r.service.stored, r.active, r.service.calls, r.failures)
  {}

  lemma StartsHere(p: Progress, before: Ledger)
    requires p == Progress(before, before, p.calls, 0)
    ensures StartsAt(p, before)
  {}

  lemma SettledCalls(p: Progress, before: Ledger, ds: seq<Decision>, replies: string -> Reply)
    requires StartsAt(p, before) && Distinct(ds) && forall d :: d in ds ==> d.key != CHANNEL.Text()
    ensures Settle(p, ds, replies).calls == p.calls + Needed(before, ds)
  {
    hide *;
    SettleIsPointwise(p, before, ds, replies);
  }

  lemma CallsChangeTheStore(after: Ledger, before: Ledger, ds: seq<Decision>, made: seq<string>, replies: string -> Reply)
    requires Reconciled(after, before, ds, replies) && CallsAreTheChanges(made, before, ds) && forall key: string :: !replies(key).storeFails
    ensures forall key: string :: key != CHANNEL.Text() ==> (key in made <==> Lookup(after, key) != Lookup(before, key))
  {
    hide Key.Text, Expected, Lookup;
  }

  lemma NoneLacks(f: Facts)
    ensures AllForecasts(f, |f.repositories|) <==> forall r :: r in f.repositories ==> !LacksForecast(f, r)
  {
    hide LacksForecast, PolicyOf, Forecasting;
    forall i | 0 <= i < |f.repositories| ensures Forecastable(f, f.repositories[i].id) <==> !LacksForecast(f, f.repositories[i]) {
      ForecastIsLacking(f, f.repositories[i]);
    }
    assert forall i :: 0 <= i < |f.repositories| ==> f.repositories[i] in f.repositories;
  }

  lemma Stops(now: Ledger, was: Ledger, f: Facts, n: nat, c: Clock, replies: string -> Reply)
    requires n < |f.repositories| && Distinct(Decisions(f, c)) && forall key: string :: !replies(key).storeFails
    requires FirstDecisions(f, c, n) <= |Decisions(f, c)| && Advanced(now, was, Decisions(f, c)[..FirstDecisions(f, c, n)], replies)
    requires forall d :: d in Decisions(f, c) ==> d.key != CHANNEL.Text()
    requires AllForecasts(f, n) && !Forecastable(f, f.repositories[n].id)
    ensures exists n: nat :: StoppedAt(now, was, f, n, c)
  {
    hide Key.Text, Collect, Advanced, OfTask, OfRepository, OfAgent, OfPlan, OfMaintenance, OfVerification, PolicyOf, Forecasting, StoppedAt;
    CollectPrefix(f.repositories, n, OfRepository(f, c));
    var some := DecisionsBefore(f, n, c);
    assert some <= Decisions(f, c);
    assert Decisions(f, c)[..FirstDecisions(f, c, n)] == some;
    assert Distinct(some) && forall d :: d in some ==> d in Decisions(f, c);
    forall i | 0 <= i < n ensures Forecasting(PolicyOf(f.policies, f.repositories[i].id)) ==> f.repositories[i].id in f.forecasts {
      assert Forecastable(f, f.repositories[i].id);
    }
    AdvancedIsStopped(now, was, f, n, c, replies);
  }

  // How many decisions the tasks and the first `n` repositories make.
  ghost function FirstDecisions(f: Facts, c: Clock, n: nat): (m: nat)
    requires n <= |f.repositories|
  {
    |Collect(f.tasks, OfTask(f, c))| + |Collect(f.repositories[..n], OfRepository(f, c))|
  }

  lemma FirstTwo(p: Progress, f: Facts, c: Clock, n: nat, replies: string -> Reply)
    requires n <= |f.repositories|
    ensures FirstDecisions(f, c, n) <= |Decisions(f, c)|
    ensures Distinct(Decisions(f, c)) ==> Distinct(Decisions(f, c)[..FirstDecisions(f, c, n)])
    ensures Settle(Settle(p, Collect(f.tasks, OfTask(f, c)), replies), Collect(f.repositories[..n], OfRepository(f, c)), replies)
            == Settle(p, Decisions(f, c)[..FirstDecisions(f, c, n)], replies)
  {
    hide Collect, Settle, OfTask, OfRepository, OfAgent, OfPlan, OfMaintenance, OfVerification;
    var (a, b) := (Collect(f.tasks, OfTask(f, c)), Collect(f.repositories[..n], OfRepository(f, c)));
    CollectPrefix(f.repositories, n, OfRepository(f, c));
    assert a + b <= Decisions(f, c);
    assert Decisions(f, c)[..|a| + |b|] == a + b;
    SettleMore(p, a, b, replies);
  }

  lemma AllSix(p: Progress, f: Facts, c: Clock, replies: string -> Reply)
    ensures Settle(p, Decisions(f, c), replies)
            == Settle(Settle(Settle(Settle(Settle(Settle(p, Collect(f.tasks, OfTask(f, c)), replies),
                 Collect(f.repositories, OfRepository(f, c)), replies), Collect(f.agents, OfAgent(c)), replies),
                 Collect(f.plans, OfPlan(f, c)), replies), Collect(f.maintenance, OfMaintenance(f, c)), replies),
                 Collect(f.verifications, OfVerification(f, c)), replies)
    ensures KeysOf(Decisions(f, c))
            == {} + KeysOf(Collect(f.tasks, OfTask(f, c))) + KeysOf(Collect(f.repositories, OfRepository(f, c)))
               + KeysOf(Collect(f.agents, OfAgent(c))) + KeysOf(Collect(f.plans, OfPlan(f, c)))
               + KeysOf(Collect(f.maintenance, OfMaintenance(f, c))) + KeysOf(Collect(f.verifications, OfVerification(f, c)))
  {
    hide Collect, Settle, OfTask, OfRepository, OfAgent, OfPlan, OfMaintenance, OfVerification;
    var (d1, d2, d3) := (Collect(f.tasks, OfTask(f, c)), Collect(f.repositories, OfRepository(f, c)),
         Collect(f.agents, OfAgent(c)));
    var (d4, d5, d6) := (Collect(f.plans, OfPlan(f, c)), Collect(f.maintenance, OfMaintenance(f, c)),
         Collect(f.verifications, OfVerification(f, c)));
    SettleMore(p, d1, d2, replies);
    SettleMore(p, d1 + d2, d3, replies);
    SettleMore(p, d1 + d2 + d3, d4, replies);
    SettleMore(p, d1 + d2 + d3 + d4, d5, replies);
    SettleMore(p, d1 + d2 + d3 + d4 + d5, d6, replies);
    assert Decisions(f, c) == d1 + d2 + d3 + d4 + d5 + d6;
  }

  // ----- Consequences

  /** What the facts want does not change by being brought about. */
  lemma ExpectedIsStable(before: Ledger, after: Ledger, ds: seq<Decision>, key: string)
    requires Lookup(after, key) == Expected(ds, before, key)
    ensures Expected(ds, after, key) == Lookup(after, key)
  {}

  lemma NothingLeft(before: Ledger, middle: Ledger, after: Ledger, ds: seq<Decision>, made: seq<string>,
                    replies: string -> Reply, later: string -> Reply)
    requires forall key: string :: !replies(key).storeFails
    requires Reconciled(middle, before, ds, replies) && ChannelIsOwn(middle) && VerdictFor(ds, CHANNEL.Text()).None?
    requires Reconciled(after, middle, ds, later) && CallsAreTheChanges(made, middle, ds)
    ensures made == [] && Reconciled(after, before, ds, replies)
  {
    hide Key.Text, VerdictFor;
    forall key: string
      ensures Expected(ds, middle, key) == Lookup(middle, key)
    {
      if key == CHANNEL.Text() {
        assert CHANNEL_KIND !in MANAGED;
      } else {
        ExpectedIsStable(before, middle, ds, key);
      }
    }
    FirstIsMember(made);
  }

  lemma FirstIsMember(s: seq<string>)
    ensures s == [] || s[0] in s
  {}

  /** Reconciling the same facts again, after a run without a store error, makes no call and changes nothing. */
  method ReconcileAgain(service: Service, f: Facts, c: Clock, replies: string -> Reply, later: string -> Reply)
    returns (first: Ending, second: Ending, ghost made: seq<string>)
    requires PrimaryKeys(f) && ChannelIsOwn(service.stored)
    requires forall key: string :: !replies(key).storeFails
    modifies service
    ensures service.calls == old(service.calls) + made
    ensures AllForecasts(f, |f.repositories|) ==>
      && CallsAreTheChanges(made, old(service.stored), Decisions(f, c))
      && Reconciled(service.stored, old(service.stored), Decisions(f, c), replies)
      && second == Done(0)
  {
    hide Decisions, AllForecasts, PrimaryKeys, Key.Text, Expected;
    ghost var before := service.stored;
    ghost var calls, more;
    first, calls := Reconcile(service, Some(f), c, replies);
    ghost var middle := service.stored;
    second, more := Reconcile(service, Some(f), c, later);
    made := calls + more;
    NoVerdictOnChannel(f, c);
    if first.Done? {
      NothingLeft(before, middle, service.stored, Decisions(f, c), more, replies, later);
      assert calls + [] == calls;
    }
  }

  // ----- The observer of ended runs

  /** What observing a run with this status leaves under the task's run key. */
  function ObservedAlert(task: Task, status: string, c: Clock): Option<Signal> {
    if status == "success" then None
    else Some(TaskRunSignal(task, if status in TERMINAL then status else "failed", c))
  }

  /** The alerts after a run was observed: none after a success, else one as grave as how it ended. */
  ghost predicate ObservedRule(now: Ledger, t: Task, status: string, c: Clock) {
    var key, name := KeyOf("task", t.id, "run"), if t.name == "" then t.id else t.name;
    if status == "success" then key !in now && KeyOf("task", t.id, "stale") !in now
    else if status in {"partial", "skipped", "cancelled"} then
      Shows(now, Signal(key, "task_run", if status == "cancelled" then Info else Warning, t.id, name, c.render("task_run", RunEnded(status))))
    else Shows(now, Signal(key, "task_run", Critical, t.id, name, c.render("task_run", RunEnded("failed"))))
  }

  lemma Observed(now: Ledger, t: Task, status: string, c: Clock)
    requires Lookup(now, Key("task", t.id, "run").Text()) == ObservedAlert(t, status, c)
    requires status == "success" ==> Lookup(now, Key("task", t.id, "stale").Text()) == None
    ensures ObservedRule(now, t, status, c)
  {
    hide Key.Text, KeyOf;
    Spelled("task", t.id, "run");
    Spelled("task", t.id, "stale");
  }

  /** The end of an alert that is more than information could not be recorded. */
  predicate EndUntold(was: Ledger, key: string, replies: string -> Reply) {
    key in was && was[key].severity != Info && NoticeFails(replies(key))
  }

  method ObserveRun(service: Service, task: Task, status: string, c: Clock, replies: string -> Reply) returns (ok: bool)
    requires forall key: string :: !replies(key).storeFails
    modifies service
    ensures Lookup(service.stored, Key("task", task.id, "run").Text()) == ObservedAlert(task, status, c)
    ensures ObservedRule(service.stored, task, status, c)
    // an error is reported exactly when an announcement could not be recorded
    ensures var run, stale := KeyOf("task", task.id, "run"), KeyOf("task", task.id, "stale");
      ok <==> if status == "success" then !EndUntold(old(service.stored), run, replies) && !EndUntold(old(service.stored), stale, replies)
              else run in old(service.stored) || status == "cancelled" || !NoticeFails(replies(run))
    ensures forall key: string :: key !in {Key("task", task.id, "run").Text(), Key("task", task.id, "stale").Text(), CHANNEL.Text()} ==>
      Lookup(service.stored, key) == Lookup(old(service.stored), key)
    ensures status == "success" ==> Lookup(service.stored, Key("task", task.id, "stale").Text()) == None
  {
    hide Key.Text, KeyOf, TaskRunSignal, AfterCall;
    Spelled("task", task.id, "run");
    Spelled("task", task.id, "stale");
    var (runKey, staleKey) := (Key("task", task.id, "run"), Key("task", task.id, "stale"));
    DifferentKeys(runKey, staleKey);
    DifferentKeys(runKey, CHANNEL);
    DifferentKeys(staleKey, CHANNEL);
    ghost var before := service.stored;
    if status == "success" {
      ok := service.Resolve(runKey.Text(), replies(runKey.Text()));
      OnlyKey(before, runKey.Text(), None, replies(runKey.Text()));
      ghost var middle := service.stored;
      var staleOk := service.Resolve(staleKey.Text(), replies(staleKey.Text()));
      OnlyKey(middle, staleKey.Text(), None, replies(staleKey.Text()));
      ok := ok && staleOk;
    } else {
      var signal := TaskRunSignal(task, if status in TERMINAL then status else "failed", c);
      RunSignalKey(task, if status in TERMINAL then status else "failed", c);
      ok := service.Raise(signal, replies(signal.key));
      OnlyKey(before, signal.key, Some(signal), replies(signal.key));
    }
    Observed(service.stored, task, status, c);
  }

  lemma DifferentKeys(a: Key, b: Key)
    requires a.Valid() && b.Valid() && a != b
    ensures a.Text() != b.Text()
  {
    if a.Text() == b.Text() {
      TextIsInjective(a, b);
    }
  }

  lemma RunSignalKey(task: Task, status: string, c: Clock)
    ensures TaskRunSignal(task, status, c).key == Key("task", task.id, "run").Text()
    ensures status in TERMINAL ==> (TaskRunSignal(task, status, c).severity == Info <==> status == "cancelled")
  {}

  lemma OnlyKey(alerts: Ledger, key: string, after: Option<Signal>, reply: Reply)
    requires key != CHANNEL.Text() && !reply.storeFails
    ensures Lookup(AfterCall(alerts, key, after, reply), key) == after
    ensures forall other: string :: other != key && other != CHANNEL.Text() ==>
      Lookup(AfterCall(alerts, key, after, reply), other) == Lookup(alerts, other)
  {
    hide *;
    CallTouchesOneKey(alerts, key, after, reply, key);
    forall other: string | other != key && other != CHANNEL.Text()
      ensures Lookup(AfterCall(alerts, key, after, reply), other) == Lookup(alerts, other)
    {
      CallTouchesOneKey(alerts, key, after, reply, other);
    }
  }

  /** Observer and reconciler agree about the latest run, exactly when the task is enabled or the run succeeded. */
  lemma ObserverAgrees(task: Task, status: string, lastSuccessAt: Option<int>, c: Clock)
    ensures Wanted(RunVerdict(task, RunHealth(Some(status), lastSuccessAt), c), ObservedAlert(task, status, c)) == ObservedAlert(task, status, c)
            <==> task.enabled || status == "success"
  {
    hide TaskRunSignal;
  }
}
