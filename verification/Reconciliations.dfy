/** The reconciliation of the active alerts: one judgement after another on a copy of the alerts. */
module Reconciliations {
  import opened Alerts
  import opened Settlement
  import opened Verdicts
  import opened Wrappers

  class Reconciliation {
    const service: Service
    const replies: string -> Reply
    var active: Ledger
    var seen: set<string>
    var failures: nat

    ghost function Now(): Progress
      reads this, service
    {
      Progress(service.stored, active, service.calls, failures)
    }

    constructor (service: Service, replies: string -> Reply)
      ensures this.service == service && this.replies == replies
      ensures Now() == Progress(service.stored, service.stored, service.calls, 0) && seen == {}
    {
      this.service, this.replies := service, replies;
      active, seen, failures := service.stored, {}, 0;
    }

    method Raise(signal: Signal)
      modifies this, service
      ensures Now() == Change(old(Now()), signal.key, Some(signal), replies(signal.key))
      ensures seen == old(seen) + {signal.key}
    {
      seen := seen + {signal.key};
      if signal.key in active && active[signal.key] == signal { return; }
      var ok := service.Raise(signal, replies(signal.key));
      if !ok {
        failures := failures + 1;
        return;
      }
      active := active[signal.key := signal];
    }

    method Resolve(key: string)
      modifies this, service
      ensures Now() == Change(old(Now()), key, None, replies(key))
      ensures seen == old(seen) + {key}
    {
      seen := seen + {key};
      if key !in active { return; }
      var ok := service.Resolve(key, replies(key));
      if !ok {
        failures := failures + 1;
        return;
      }
      active := active - {key};
    }

    method ReconcileRun(task: Task, health: RunHealth, c: Clock)
      requires task.enabled && Key("task", task.id, "run").Text() in seen
      modifies this, service
      ensures Now() == Step(old(Now()), Decision(Key("task", task.id, "run").Text(), RunVerdict(task, health, c)), replies)
      ensures seen == old(seen)
    {
      hide Key.Text, Change;
      var runKey := Key("task", task.id, "run").Text();
      if health.latest.None? {
        Resolve(runKey);
      } else if health.latest.value in TERMINAL {
        if health.latest.value == "success" {
          Resolve(runKey);
        } else {
          Raise(TaskRunSignal(task, health.latest.value, c));
        }
      } else {
        KeepChangesNothing(Now(), Decision(runKey, RunVerdict(task, health, c)), replies);
      }
    }

    method ReconcileAge(task: Task, health: RunHealth, c: Clock)
      requires task.enabled
      modifies this, service
      ensures Now() == Step(old(Now()), Decision(Key("task", task.id, "stale").Text(), TaskStaleVerdict(task, health, c)), replies)
      ensures seen == old(seen) + {Key("task", task.id, "stale").Text()}
    {
      hide Key.Text, Change;
      var staleKey := Key("task", task.id, "stale");
      var hours := task.maxSuccessAgeHours;
      if hours == 0 {
        Resolve(staleKey.Text());
        return;
      }
      var baseline := task.createdAt;
      if health.lastSuccessAt.Some? { baseline := health.lastSuccessAt.value; }
      var recent := baseline == 0 || c.now < baseline + hours * HOUR;
      RaiseOrResolve(!recent, staleKey, "task_stale", Critical, NameOr(task.name, task.id), NoSuccessFor(hours), c);
    }

    method ReconcileTask(task: Task, health: RunHealth, c: Clock)
      modifies this, service
      ensures Now() == Settle(old(Now()), TaskDecisions(task, health, c), replies)
      ensures seen == old(seen) + KeysOf(TaskDecisions(task, health, c))
    {
      hide Key.Text, Change, Settle, Step, KeysOf, TaskDecisions, RunVerdict, TaskStaleVerdict;
      var runKey, staleKey := Key("task", task.id, "run").Text(), Key("task", task.id, "stale").Text();
      TaskSteps(Now(), task, health, c, replies);
      seen := seen + {runKey, staleKey};
      if !task.enabled {
        StepResolves(Now(), runKey, replies);
        Resolve(runKey);
        StepResolves(Now(), staleKey, replies);
        Resolve(staleKey);
        return;
      }
      ReconcileRun(task, health, c);
      ReconcileAge(task, health, c);
    }

    method RaiseOrResolve(bad: bool, key: Key, kind: string, severity: Severity, name: string, note: Note, c: Clock)
      modifies this, service
      ensures Now() == Step(old(Now()), Decision(key.Text(), RaiseIf(bad, key, kind, severity, name, note, c)), replies)
      ensures seen == old(seen) + {key.Text()}
    {
      hide Key.Text, Change;
      if bad {
        Raise(SignalOf(key, kind, severity, name, note, c));
      } else {
        Resolve(key.Text());
      }
    }

    method ReconcileIntegrity(r: Repository, c: Clock)
      modifies this, service
      ensures Now() == Step(old(Now()), Decision(Key("repository", r.id, "integrity").Text(), IntegrityVerdict(r, c)), replies)
      ensures seen == old(seen) + {Key("repository", r.id, "integrity").Text()}
    {
      hide Key.Text, Change;
      var key := Key("repository", r.id, "integrity");
      seen := seen + {key.Text()};
      if r.status == "abnormal" || "unprotected-partial:" <= r.status {
        Raise(SignalOf(key, "repository_abnormal", Critical, NameOr(r.name, r.id), NotIntact, c));
      } else if r.status == "ready" || r.status == "uninitialized" {
        Resolve(key.Text());
      } else {
        KeepChangesNothing(Now(), Decision(key.Text(), IntegrityVerdict(r, c)), replies);
      }
    }

    method ReconcileMeasured(r: Repository, p: CapacityPolicy, forecast: Forecast, c: Clock)
      requires Watched(r, p)
      modifies this, service
      ensures Now() == Step(Step(old(Now()), Decision(Key("repository", r.id, "capacity-low").Text(), LowVerdict(r, p, c)), replies),
                            Decision(Key("repository", r.id, "capacity-forecast").Text(), ForecastVerdict(r, p, forecast, c)), replies)
      ensures seen == old(seen) + {Key("repository", r.id, "capacity-low").Text(), Key("repository", r.id, "capacity-forecast").Text()}
    {
      hide Key.Text, Change, Percent;
      var low, exhaustion := Key("repository", r.id, "capacity-low"), Key("repository", r.id, "capacity-forecast");
      var name := NameOr(r.name, r.id);
      if r.capacity.None? || r.capacity.value.total == 0 {
        Resolve(low.Text());
        Resolve(exhaustion.Text());
        return;
      }
      var capacity := r.capacity.value;
      var percent := Percent(capacity);
      var belowBytes := 0 < p.minimumBytes && capacity.available < p.minimumBytes;
      var belowPercent := 0.0 < p.minimumPercent && percent < p.minimumPercent;
      RaiseOrResolve(belowBytes || belowPercent, low, "repository_capacity_low", Critical, name,
                     LowSpace(capacity.available, percent), c);
      if 0 < p.warningDays && forecast.Ready? && forecast.exhaustedAt.Some? && !(forecast.exhaustedAt.value > c.now + p.warningDays * DAY) {
        Raise(SignalOf(exhaustion, "repository_capacity_forecast", Warning, name, ExhaustedAt(forecast.exhaustedAt.value), c));
      } else {
        Resolve(exhaustion.Text());
      }
    }

    method ReconcileProbes(r: Repository, p: CapacityPolicy, c: Clock)
      requires Watched(r, p)
      modifies this, service
      ensures Now() == Step(Step(old(Now()), Decision(Key("repository", r.id, "capacity-stale").Text(), CapacityStaleVerdict(r, p, c)), replies),
                            Decision(Key("repository", r.id, "capacity-probe").Text(), ProbeVerdict(r, p, c)), replies)
      ensures seen == old(seen) + {Key("repository", r.id, "capacity-stale").Text(), Key("repository", r.id, "capacity-probe").Text()}
    {
      hide Key.Text, Change, Step, RaiseIf;
      var stale, probe := Key("repository", r.id, "capacity-stale"), Key("repository", r.id, "capacity-probe");
      var name := NameOr(r.name, r.id);
      var baseline := p.updatedAt;
      if p.lastSuccessAt.Some? { baseline := p.lastSuccessAt.value; }
      var recent := baseline == 0 || c.now < baseline + 2 * p.probeMinutes * MINUTE;
      RaiseOrResolve(!recent, stale, "repository_capacity_stale", Warning, name, NoProbeFor(2 * p.probeMinutes), c);
      RaiseOrResolve(p.lastError != "", probe, "repository_capacity_probe_failed", Warning, name, ProbeError(p.lastError), c);
    }

    method ReconcileRepository(r: Repository, p: CapacityPolicy, forecast: Forecast, c: Clock)
      modifies this, service
      ensures Now() == Settle(old(Now()), RepositoryDecisions(r, p, forecast, c), replies)
      ensures seen == old(seen) + KeysOf(RepositoryDecisions(r, p, forecast, c))
    {
      hide Key.Text, Change, Percent, Settle, Step, KeysOf, RepositoryDecisions;
      hide IntegrityVerdict, LowVerdict, ForecastVerdict, CapacityStaleVerdict, ProbeVerdict;
      RepositorySteps(Now(), r, p, forecast, c, replies);
      ReconcileIntegrity(r, c);
      if !p.enabled || r.status == "uninitialized" || r.status == "disconnected" {
        ResolveAll(Key("repository", r.id, "capacity-low").Text(), Key("repository", r.id, "capacity-forecast").Text(),
                   Key("repository", r.id, "capacity-stale").Text(), Key("repository", r.id, "capacity-probe").Text());
        return;
      }
      ReconcileMeasured(r, p, forecast, c);
      ReconcileProbes(r, p, c);
    }

    method ReconcileCertificate(a: Agent, c: Clock)
      requires !Gone(a)
      modifies this, service
      ensures Now() == Step(old(Now()), Decision(Key("agent", a.id, "certificate-expiry").Text(), CertificateVerdict(a, c)), replies)
      ensures seen == old(seen) + {Key("agent", a.id, "certificate-expiry").Text()}
    {
      hide Key.Text, Change;
      var key := Key("agent", a.id, "certificate-expiry");
      if a.certificateNotAfter.None? || a.certificateNotAfter.value > c.now + 30 * DAY {
        Resolve(key.Text());
      } else {
        var remaining := a.certificateNotAfter.value - c.now;
        var severity := Info;
        if remaining <= 14 * DAY { severity := Warning; }
        if remaining <= 7 * DAY { severity := Critical; }
        Raise(SignalOf(key, "agent_certificate_expiry", severity, a.id, ExpiresAt(a.certificateNotAfter.value), c));
      }
    }

    method ResolveAll(k0: string, k1: string, k2: string, k3: string)
      modifies this, service
      ensures Now() == Settle(old(Now()), [Decision(k0, Verdict.Resolve), Decision(k1, Verdict.Resolve),
                                           Decision(k2, Verdict.Resolve), Decision(k3, Verdict.Resolve)], replies)
      ensures seen == old(seen) + {k0, k1, k2, k3}
    {
      hide Change;
      SettleFour(Now(), Decision(k0, Verdict.Resolve), Decision(k1, Verdict.Resolve), Decision(k2, Verdict.Resolve),
                 Decision(k3, Verdict.Resolve), replies);
      Resolve(k0);
      Resolve(k1);
      Resolve(k2);
      Resolve(k3);
    }

    method ReconcileAgent(a: Agent, c: Clock)
      modifies this, service
      ensures Now() == Settle(old(Now()), AgentDecisions(a, c), replies)
      ensures seen == old(seen) + KeysOf(AgentDecisions(a, c))
    {
      hide Key.Text, Change, Settle, Step, SignalOf;
      var offline, protocol := Key("agent", a.id, "offline"), Key("agent", a.id, "protocol");
      var certificate, renewal := Key("agent", a.id, "certificate-expiry"), Key("agent", a.id, "certificate-renewal");
      ghost var ds := AgentDecisions(a, c);
      assert KeysOf(ds) == {offline.Text(), protocol.Text(), certificate.Text(), renewal.Text()};
      if a.revoked || a.uninstalled {
        assert ds == [Decision(offline.Text(), Verdict.Resolve), Decision(protocol.Text(), Verdict.Resolve),
                      Decision(certificate.Text(), Verdict.Resolve), Decision(renewal.Text(), Verdict.Resolve)];
        ResolveAll(offline.Text(), protocol.Text(), certificate.Text(), renewal.Text());
        return;
      }
      SettleFour(Now(), ds[0], ds[1], ds[2], ds[3], replies);
      RaiseOrResolve(!Online(a, c.now), offline, "agent_offline", Critical, a.id, Heartbeat(a.lastHeartbeatAt), c);
      var compatible := a.protocolMin >= 1 && a.protocolMin <= PROTOCOL_VERSION && a.protocolMax >= PROTOCOL_VERSION;
      RaiseOrResolve(!compatible, protocol, "agent_protocol", Warning, a.id, Protocols(a.protocolMin, a.protocolMax), c);
      ReconcileCertificate(a, c);
      RaiseOrResolve(a.renewalStatus == "failed", renewal, "agent_certificate_renewal", Warning, a.id, RenewalFailed, c);
    }

    method ReconcileOccurrence(key: Key, kind: string, severity: Severity, name: string, o: Occurrence, c: Clock)
      requires key.Text() in seen
      modifies this, service
      ensures Now() == Step(old(Now()), Decision(key.Text(), OccurrenceVerdict(key, kind, severity, name, o, c)), replies)
      ensures seen == old(seen)
    {
      hide Key.Text, Change;
      if o.id == "" || o.status == "pending" || o.status == "running" {
        KeepChangesNothing(Now(), Decision(key.Text(), Keep), replies);
        return;
      }
      if o.status == "success" {
        Resolve(key.Text());
        return;
      }
      Raise(SignalOf(key, kind, severity, name, OccurrenceEnded(o.status), c));
    }

    method ReconcileSchedule(enabled: bool, key: Key, kind: string, name: string, o: Occurrence, c: Clock)
      modifies this, service
      ensures Now() == Settle(old(Now()), [Decision(key.Text(), ScheduleVerdict(enabled, key, kind, name, o, c))], replies)
      ensures seen == old(seen) + {key.Text()}
    {
      hide Key.Text, Change;
      SettleOne(Now(), Decision(key.Text(), ScheduleVerdict(enabled, key, kind, name, o, c)), replies);
      seen := seen + {key.Text()};
      if !enabled {
        Resolve(key.Text());
        return;
      }
      ReconcileOccurrence(key, kind, ScheduleSeverity(o.status), name, o, c);
    }

    method ReconcileResult(taskId: string, name: string, latest: Record, c: Clock)
      modifies this, service
      ensures Now() == Step(old(Now()), Decision(Key("restore-verification", taskId, "result").Text(), ResultVerdict(taskId, name, latest, c)), replies)
      ensures seen == old(seen) + {Key("restore-verification", taskId, "result").Text()}
    {
      hide Key.Text, Change;
      var key := Key("restore-verification", taskId, "result");
      seen := seen + {key.Text()};
      if latest.id == "" {
        Resolve(key.Text());
      } else if latest.status == "success" {
        Resolve(key.Text());
      } else if latest.status != "running" {
        Raise(SignalOf(key, "restore_verification_result", CancelledIsInfo(latest.status), name,
                       VerificationEnded(latest.status, latest.errorSummary), c));
      } else {
        KeepChangesNothing(Now(), Decision(key.Text(), ResultVerdict(taskId, name, latest, c)), replies);
      }
    }

    method ReconcileVerificationSchedule(p: Verification, name: string, o: Occurrence, success: Record, c: Clock)
      requires Key("restore-verification", p.taskId, "schedule").Text() in seen
      modifies this, service
      ensures var ds := VerificationDecisions(p, name, o, NO_RECORD, success, NO_RECORD, c);
              Now() == Step(Step(old(Now()), ds[0], replies), ds[1], replies)
      ensures seen == old(seen) + {Key("restore-verification", p.taskId, "stale").Text()}
    {
      hide Key.Text, Change, ResultVerdict;
      var schedule, stale := Key("restore-verification", p.taskId, "schedule"), Key("restore-verification", p.taskId, "stale");
      if !p.enabled {
        Resolve(schedule.Text());
        Resolve(stale.Text());
      } else {
        ReconcileOccurrence(schedule, "restore_verification_schedule", CancelledIsInfo(o.status), name, o, c);
        var baseline := p.updatedAt;
        if success.id != "" {
          baseline := success.startedAt;
          if success.finishedAt.Some? { baseline := success.finishedAt.value; }
        }
        var recent := baseline == 0 || c.now < baseline + p.maximumAgeHours * HOUR;
        RaiseOrResolve(!recent, stale, "restore_verification_stale", Critical, name, NoSuccessFor(p.maximumAgeHours), c);
      }
    }

    method ReconcileVerification(p: Verification, name: string, o: Occurrence, latest: Record, success: Record,
         cleanup: Record, c: Clock)
      modifies this, service
      ensures Now() == Settle(old(Now()), VerificationDecisions(p, name, o, latest, success, cleanup, c), replies)
      ensures seen == old(seen) + KeysOf(VerificationDecisions(p, name, o, latest, success, cleanup, c))
    {
      hide Key.Text, Change, ResultVerdict, Step, Settle, RaiseIf, KeysOf, VerificationDecisions;
      var schedule, stale := Key("restore-verification", p.taskId, "schedule"), Key("restore-verification", p.taskId, "stale");
      var result, pending := Key("restore-verification", p.taskId, "result"), Key("restore-verification", p.taskId, "cleanup");
      VerificationSteps(Now(), p, name, o, latest, success, cleanup, c, replies);
      seen := seen + {schedule.Text(), result.Text(), stale.Text(), pending.Text()};
      ReconcileVerificationSchedule(p, name, o, success, c);
      ReconcileResult(p.taskId, name, latest, c);
      RaiseOrResolve(cleanup.id != "", pending, "restore_verification_cleanup", Critical, name, CleanupPending, c);
    }

    // The loops over the listed objects.

    method ReconcileTasks(f: Facts, c: Clock) returns (names: map<string, string>)
      modifies this, service
      ensures Now() == Settle(old(Now()), Collect(f.tasks, OfTask(f, c)), replies)
      ensures seen == old(seen) + KeysOf(Collect(f.tasks, OfTask(f, c)))
      ensures forall id :: Or(names, id, "") == TaskName(f.tasks, id)
    {
      hide Settle, Step, Change, KeysOf, TaskDecisions, RepositoryDecisions, AgentDecisions, PlanDecisions,
           MaintenanceDecisions, VerificationDecisions;
      Nothing(Now(), replies);
      names := map[];
      for i := 0 to |f.tasks|
        invariant Now() == Settle(old(Now()), Collect(f.tasks[..i], OfTask(f, c)), replies)
        invariant seen == old(seen) + KeysOf(Collect(f.tasks[..i], OfTask(f, c)))
        invariant forall id :: Or(names, id, "") == TaskName(f.tasks[..i], id)
      {
        var task := f.tasks[i];
        Another(old(Now()), f.tasks, i, OfTask(f, c), replies);
        assert f.tasks[..i + 1][..i] == f.tasks[..i];
        names := names[task.id := task.name];
        ReconcileTask(task, Or(f.runHealth, task.id, NO_HEALTH), c);
      }
      assert f.tasks[..|f.tasks|] == f.tasks;
    }

    // One repository with its policy; not if the forecast it needs cannot be read.
    method ReconcileListed(f: Facts, c: Clock, r: Repository, policy: CapacityPolicy) returns (ok: bool)
      requires policy == PolicyOf(f.policies, r.id)
      modifies this, service
      ensures ok <==> Forecastable(f, r.id)
      ensures ok ==> Now() == Settle(old(Now()), OfRepository(f, c)(r), replies) && seen == old(seen) + KeysOf(OfRepository(f, c)(r))
      ensures !ok ==> Now() == old(Now()) && seen == old(seen)
    {
      hide Settle, Step, Change, KeysOf, RepositoryDecisions, PolicyOf;
      var forecast := NotReady;
      if Forecasting(policy) {
        if r.id !in f.forecasts { return false; }
        forecast := f.forecasts[r.id];
      }
      ReconcileRepository(r, policy, forecast, c);
      ok := true;
    }

    // Stops at the first repository whose forecast is needed and cannot be read.
    method ReconcileRepositories(f: Facts, c: Clock) returns (finished: bool, ghost reached: nat)
      modifies this, service
      ensures reached <= |f.repositories| && (finished ==> reached == |f.repositories|)
      ensures finished <==> AllForecasts(f, |f.repositories|)
      ensures !finished ==> reached < |f.repositories| && AllForecasts(f, reached) && !Forecastable(f, f.repositories[reached].id)
      ensures Now() == Settle(old(Now()), Collect(f.repositories[..reached], OfRepository(f, c)), replies)
      ensures seen == old(seen) + KeysOf(Collect(f.repositories[..reached], OfRepository(f, c)))
    {
      hide Settle, Step, Change, KeysOf, Collect, OfRepository, PolicyOf, Forecastable, AllForecasts;
      Nothing(Now(), replies);
      NoneCollected(f.repositories, OfRepository(f, c));
      ForecastsSoFar(f, 0);
      var policies := PolicyByRepository(f.policies);
      for i := 0 to |f.repositories|
        invariant AllForecasts(f, i)
        invariant Now() == Settle(old(Now()), Collect(f.repositories[..i], OfRepository(f, c)), replies)
        invariant seen == old(seen) + KeysOf(Collect(f.repositories[..i], OfRepository(f, c)))
      {
        var r := f.repositories[i];
        Another(old(Now()), f.repositories, i, OfRepository(f, c), replies);
        ForecastsSoFar(f, i);
        var ok := ReconcileListed(f, c, r, Or(policies, r.id, NO_POLICY));
        if !ok { return false, i; }
      }
      finished, reached := true, |f.repositories|;
    }

    method NamesOfRepositories(repositories: seq<Repository>) returns (names: map<string, string>)
      ensures forall id :: Or(names, id, "") == RepositoryName(repositories, id)
    {
      names := map[];
      for i := 0 to |repositories|
        invariant forall id :: Or(names, id, "") == RepositoryName(repositories[..i], id)
      {
        assert repositories[..i + 1][..i] == repositories[..i];
        names := names[repositories[i].id := repositories[i].name];
      }
      assert repositories[..|repositories|] == repositories;
    }

    method ReconcileAgents(f: Facts, c: Clock)
      modifies this, service
      ensures Now() == Settle(old(Now()), Collect(f.agents, OfAgent(c)), replies)
      ensures seen == old(seen) + KeysOf(Collect(f.agents, OfAgent(c)))
    {
      hide Settle, Step, Change, KeysOf, TaskDecisions, RepositoryDecisions, AgentDecisions, PlanDecisions,
           MaintenanceDecisions, VerificationDecisions;
      Nothing(Now(), replies);
      for i := 0 to |f.agents|
        invariant Now() == Settle(old(Now()), Collect(f.agents[..i], OfAgent(c)), replies)
        invariant seen == old(seen) + KeysOf(Collect(f.agents[..i], OfAgent(c)))
      {
        var agent := f.agents[i];
        Another(old(Now()), f.agents, i, OfAgent(c), replies);
        ReconcileAgent(agent, c);
      }
      assert f.agents[..|f.agents|] == f.agents;
    }

    method ReconcilePlans(f: Facts, c: Clock)
      modifies this, service
      ensures Now() == Settle(old(Now()), Collect(f.plans, OfPlan(f, c)), replies)
      ensures seen == old(seen) + KeysOf(Collect(f.plans, OfPlan(f, c)))
    {
      hide Settle, Step, Change, KeysOf, TaskDecisions, RepositoryDecisions, AgentDecisions, PlanDecisions,
           MaintenanceDecisions, VerificationDecisions;
      Nothing(Now(), replies);
      for i := 0 to |f.plans|
        invariant Now() == Settle(old(Now()), Collect(f.plans[..i], OfPlan(f, c)), replies)
        invariant seen == old(seen) + KeysOf(Collect(f.plans[..i], OfPlan(f, c)))
      {
        var plan := f.plans[i];
        Another(old(Now()), f.plans, i, OfPlan(f, c), replies);
        ReconcileSchedule(plan.enabled, Key("plan", plan.id, "schedule"), "plan_schedule", plan.name,
                          Or(f.planOccurrences, plan.id, NO_OCCURRENCE), c);
        PlanKeysOf(plan, Or(f.planOccurrences, plan.id, NO_OCCURRENCE), c);
      }
      assert f.plans[..|f.plans|] == f.plans;
    }

    method ReconcileMaintenance(f: Facts, c: Clock, names: map<string, string>)
      requires forall id :: Or(names, id, "") == RepositoryName(f.repositories, id)
      modifies this, service
      ensures Now() == Settle(old(Now()), Collect(f.maintenance, OfMaintenance(f, c)), replies)
      ensures seen == old(seen) + KeysOf(Collect(f.maintenance, OfMaintenance(f, c)))
    {
      hide Settle, Step, Change, KeysOf, TaskDecisions, RepositoryDecisions, AgentDecisions, PlanDecisions,
           MaintenanceDecisions, VerificationDecisions;
      Nothing(Now(), replies);
      for i := 0 to |f.maintenance|
        invariant Now() == Settle(old(Now()), Collect(f.maintenance[..i], OfMaintenance(f, c)), replies)
        invariant seen == old(seen) + KeysOf(Collect(f.maintenance[..i], OfMaintenance(f, c)))
      {
        var policy := f.maintenance[i];
        Another(old(Now()), f.maintenance, i, OfMaintenance(f, c), replies);
        var name := NameOr(Or(names, policy.repositoryId, ""), policy.repositoryId);
        ReconcileSchedule(policy.enabled, Key("maintenance", policy.repositoryId, "schedule"), "maintenance_schedule", name,
                          Or(f.maintenanceOccurrences, policy.repositoryId, NO_OCCURRENCE), c);
        MaintenanceKeysOf(policy, name, Or(f.maintenanceOccurrences, policy.repositoryId, NO_OCCURRENCE), c);
      }
      assert f.maintenance[..|f.maintenance|] == f.maintenance;
    }

    method ReconcileVerifications(f: Facts, c: Clock, names: map<string, string>)
      requires forall id :: Or(names, id, "") == TaskName(f.tasks, id)
      modifies this, service
      ensures Now() == Settle(old(Now()), Collect(f.verifications, OfVerification(f, c)), replies)
      ensures seen == old(seen) + KeysOf(Collect(f.verifications, OfVerification(f, c)))
    {
      hide Settle, Step, Change, KeysOf, TaskDecisions, RepositoryDecisions, AgentDecisions, PlanDecisions,
           MaintenanceDecisions, VerificationDecisions;
      Nothing(Now(), replies);
      for i := 0 to |f.verifications|
        invariant Now() == Settle(old(Now()), Collect(f.verifications[..i], OfVerification(f, c)), replies)
        invariant seen == old(seen) + KeysOf(Collect(f.verifications[..i], OfVerification(f, c)))
      {
        var policy := f.verifications[i];
        Another(old(Now()), f.verifications, i, OfVerification(f, c), replies);
        var name := NameOr(Or(names, policy.taskId, ""), policy.taskId);
        ReconcileVerification(policy, name, Or(f.verificationOccurrences, policy.taskId, NO_OCCURRENCE),
                              Or(f.latest, policy.taskId, NO_RECORD), Or(f.latestSuccess, policy.taskId, NO_RECORD),
                              Or(f.cleanup, policy.taskId, NO_RECORD), c);
      }
      assert f.verifications[..|f.verifications|] == f.verifications;
    }

    method PolicyByRepository(policies: seq<CapacityPolicy>) returns (byRepository: map<string, CapacityPolicy>)
      ensures forall id :: Or(byRepository, id, NO_POLICY) == PolicyOf(policies, id)
    {
      byRepository := map[];
      for i := 0 to |policies|
        invariant forall id :: Or(byRepository, id, NO_POLICY) == PolicyOf(policies[..i], id)
      {
        assert policies[..i + 1][..i] == policies[..i];
        byRepository := byRepository[policies[i].repositoryId := policies[i]];
      }
      assert policies[..|policies|] == policies;
    }

    /** The alerts of managed kinds that nothing in the facts spoke of are resolved, in any order. */
    method ResolveRemovedObjects() returns (ghost removals: seq<Decision>)
      modifies this, service
      ensures Now() == Settle(old(Now()), removals, replies)
      ensures Removes(removals, Unseen(old(active), old(seen)))
    {
      hide *;
      removals := [];
      var todo := Unseen(active, seen);
      ghost var removed := todo;
      SettleNone(Now(), replies);
      RemovesMore([], {}, "");
      assert removed - todo == {};
      while todo != {}
        invariant todo <= removed
        invariant Now() == Settle(old(Now()), removals, replies)
        invariant Removes(removals, removed - todo)
        decreases |todo|
      {
        var key :| key in todo;
        ghost var (d, done) := (Decision(key, Verdict.Resolve), removed - todo);
        todo := todo - {key};
        StepResolves(Now(), key, replies);
        SettleMore(old(Now()), removals, [d], replies);
        SettleOne(Now(), d, replies);
        Resolve(key);
        RemovesMore(removals, done, key);
        assert removed - todo == done + {key};
        removals := removals + [d];
      }
      assert removed - todo == removed;
    }
  }

  /** The forecast of a repository could be read, if its policy asks for one. */
  predicate Forecastable(f: Facts, id: string) {
    Forecasting(PolicyOf(f.policies, id)) ==> id in f.forecasts
  }

  /** Every forecast that the first `n` repositories need could be read. */
  ghost predicate AllForecasts(f: Facts, n: nat)
    requires n <= |f.repositories|
  {
    forall i :: 0 <= i < n ==> Forecastable(f, f.repositories[i].id)
  }

  lemma Nothing(p: Progress, replies: string -> Reply)
    ensures Settle(p, [], replies) == p && KeysOf([]) == {}
  {}

  lemma Another<T>(p: Progress, items: seq<T>, i: nat, decide: T -> seq<Decision>, replies: string -> Reply)
    requires i < |items|
    ensures Settle(p, Collect(items[..i + 1], decide), replies)
            == Settle(Settle(p, Collect(items[..i], decide), replies), decide(items[i]), replies)
    ensures KeysOf(Collect(items[..i + 1], decide)) == KeysOf(Collect(items[..i], decide)) + KeysOf(decide(items[i]))
  {
    hide Settle;
    assert items[..i + 1][..i] == items[..i];
    SettleMore(p, Collect(items[..i], decide), decide(items[i]), replies);
  }

  lemma PlanKeysOf(p: Plan, o: Occurrence, c: Clock)
    ensures PlanDecisions(p, o, c) == [Decision(Key("plan", p.id, "schedule").Text(),
                                                ScheduleVerdict(p.enabled, Key("plan", p.id, "schedule"), "plan_schedule", p.name, o, c))]
    ensures KeysOf(PlanDecisions(p, o, c)) == {Key("plan", p.id, "schedule").Text()}
  {
    hide Key.Text, ScheduleVerdict;
  }

  lemma MaintenanceKeysOf(p: Maintenance, name: string, o: Occurrence, c: Clock)
    ensures var key := Key("maintenance", p.repositoryId, "schedule");
            MaintenanceDecisions(p, name, o, c) == [Decision(key.Text(), ScheduleVerdict(p.enabled, key, "maintenance_schedule", name, o, c))]
            && KeysOf(MaintenanceDecisions(p, name, o, c)) == {key.Text()}
  {
    hide Key.Text, ScheduleVerdict;
  }

  lemma SettleNone(p: Progress, replies: string -> Reply)
    ensures Settle(p, [], replies) == p
  {}

  lemma StepResolves(p: Progress, key: string, replies: string -> Reply)
    ensures Step(p, Decision(key, Verdict.Resolve), replies) == Change(p, key, None, replies(key))
  {}

  lemma TaskSteps(p: Progress, task: Task, health: RunHealth, c: Clock, replies: string -> Reply)
    ensures var (run, stale) := (Key("task", task.id, "run").Text(), Key("task", task.id, "stale").Text());
            && KeysOf(TaskDecisions(task, health, c)) == {run, stale}
            && Settle(p, TaskDecisions(task, health, c), replies)
               == Step(Step(p, Decision(run, RunVerdict(task, health, c)), replies), Decision(stale, TaskStaleVerdict(task, health, c)), replies)
            && (!task.enabled ==> RunVerdict(task, health, c) == Verdict.Resolve && TaskStaleVerdict(task, health, c) == Verdict.Resolve)
  {
    hide Key.Text, Step, Settle;
    var ds := TaskDecisions(task, health, c);
    SettleTwo(p, ds[0], ds[1], replies);
    assert KeysOf(ds) == {ds[0].key, ds[1].key};
  }

  lemma RepositorySteps(q: Progress, r: Repository, p: CapacityPolicy, forecast: Forecast, c: Clock,
       replies: string -> Reply)
    ensures var (integrity, low) := (Key("repository", r.id, "integrity").Text(), Key("repository", r.id, "capacity-low").Text());
            var (exhaustion, stale) := (Key("repository", r.id, "capacity-forecast").Text(), Key("repository", r.id,
                 "capacity-stale").Text());
            var probe := Key("repository", r.id, "capacity-probe").Text();
            var (ds, first) := (RepositoryDecisions(r, p, forecast, c), Step(q, Decision(integrity,
                 IntegrityVerdict(r, c)), replies));
            && KeysOf(ds) == {integrity, low, exhaustion, stale, probe}
            && Settle(q, ds, replies)
               == Step(Step(Step(Step(first, Decision(low, LowVerdict(r, p, c)), replies), Decision(exhaustion, ForecastVerdict(r, p, forecast, c)), replies),
                            Decision(stale, CapacityStaleVerdict(r, p, c)), replies), Decision(probe, ProbeVerdict(r, p, c)), replies)
            && (!Watched(r, p) ==>
                  Settle(q, ds, replies) == Settle(first, [Decision(low, Verdict.Resolve), Decision(exhaustion, Verdict.Resolve),
                                                           Decision(stale, Verdict.Resolve), Decision(probe, Verdict.Resolve)], replies))
  {
    hide Key.Text, Step, Settle, IntegrityVerdict, LowVerdict, ForecastVerdict, CapacityStaleVerdict, ProbeVerdict;
    var ds := RepositoryDecisions(r, p, forecast, c);
    SettleFive(q, ds[0], ds[1], ds[2], ds[3], ds[4], replies);
    SettleFour(Step(q, ds[0], replies), ds[1], ds[2], ds[3], ds[4], replies);
    assert KeysOf(ds) == {ds[0].key, ds[1].key, ds[2].key, ds[3].key, ds[4].key};
    if !Watched(r, p) { UnwatchedResolves(r, p, forecast, c); }
  }

  lemma UnwatchedResolves(r: Repository, p: CapacityPolicy, forecast: Forecast, c: Clock)
    requires !Watched(r, p)
    ensures LowVerdict(r, p, c).Resolve? && ForecastVerdict(r, p, forecast, c).Resolve?
    ensures CapacityStaleVerdict(r, p, c).Resolve? && ProbeVerdict(r, p, c).Resolve?
  {}

  lemma NoneCollected<T>(items: seq<T>, decide: T -> seq<Decision>)
    ensures Collect(items[..0], decide) == []
  {}

  /** All forecasts are there exactly when none of the repositories in turn lacks its own. */
  lemma ForecastsSoFar(f: Facts, n: nat)
    requires n <= |f.repositories|
    ensures n == 0 ==> AllForecasts(f, n)
    ensures n < |f.repositories| && AllForecasts(f, n) && Forecastable(f, f.repositories[n].id) ==> AllForecasts(f, n + 1)
    ensures n < |f.repositories| && !Forecastable(f, f.repositories[n].id) ==> !AllForecasts(f, |f.repositories|)
  {
    hide Forecastable;
  }

  lemma VerificationSteps(q: Progress, p: Verification, name: string, o: Occurrence, latest: Record, success: Record, cleanup: Record,
                          c: Clock, replies: string -> Reply)
    ensures var ds := VerificationDecisions(p, name, o, latest, success, cleanup, c);
            && Settle(q, ds, replies) == Step(Step(Step(Step(q, ds[0], replies), ds[1], replies), ds[2], replies), ds[3], replies)
            && KeysOf(ds) == {ds[0].key, ds[1].key, ds[2].key, ds[3].key}
            && ds[0] == VerificationDecisions(p, name, o, NO_RECORD, success, NO_RECORD, c)[0]
            && ds[1] == VerificationDecisions(p, name, o, NO_RECORD, success, NO_RECORD, c)[1]
            && ds[0].key == Key("restore-verification", p.taskId, "schedule").Text()
            && ds[1].key == Key("restore-verification", p.taskId, "stale").Text()
            && ds[2] == Decision(Key("restore-verification", p.taskId, "result").Text(), ResultVerdict(p.taskId, name, latest, c))
            && ds[3] == Decision(Key("restore-verification", p.taskId, "cleanup").Text(),
                                 RaiseIf(cleanup.id != "", Key("restore-verification", p.taskId, "cleanup"), "restore_verification_cleanup",
                                         Critical, name, CleanupPending, c))
  {
    hide Key.Text, Step, Settle, OccurrenceVerdict, ResultVerdict, RaiseIf;
    var ds := VerificationDecisions(p, name, o, latest, success, cleanup, c);
    SettleFour(q, ds[0], ds[1], ds[2], ds[3], replies);
  }
}
