/** What each fact about the system says about the alerts: one verdict for each state key. */
module Verdicts {
  import opened Alerts
  import opened Wrappers

  // Instants and durations count nanoseconds; instant zero is the unset time.
  const MINUTE := 60_000_000_000
  const HOUR := 60 * MINUTE
  const DAY := 24 * HOUR
  const HEARTBEAT_TIMEOUT := 2 * MINUTE
  const PROTOCOL_VERSION := 1

  // ----- The facts

  datatype Task = Task(id: string, name: string, enabled: bool, createdAt: int, maxSuccessAgeHours: int)

  datatype RunHealth = RunHealth(latest: Option<string>, lastSuccessAt: Option<int>)

  datatype Capacity = Capacity(available: nat, total: nat)

  datatype Repository = Repository(id: string, name: string, status: string, capacity: Option<Capacity>)

  datatype CapacityPolicy = CapacityPolicy(repositoryId: string, enabled: bool, minimumBytes: nat, minimumPercent: real,
                                           warningDays: int, probeMinutes: int, updatedAt: int, lastSuccessAt: Option<int>,
                                           lastError: string)

  datatype Forecast = NotReady | Ready(exhaustedAt: Option<int>)

  datatype Agent = Agent(id: string, revoked: bool, uninstalled: bool, status: string, lastHeartbeatAt: Option<int>,
                         protocolMin: int, protocolMax: int, certificateNotAfter: Option<int>, renewalStatus: string)

  datatype Plan = Plan(id: string, name: string, enabled: bool)

  datatype Maintenance = Maintenance(repositoryId: string, enabled: bool)

  datatype Verification = Verification(taskId: string, enabled: bool, updatedAt: int, maximumAgeHours: int)

  // The latest scheduled occurrence of something; an empty id is no occurrence.
  datatype Occurrence = Occurrence(id: string, status: string)

  // A restore verification run; an empty id is no run.
  datatype Record = Record(id: string, status: string, startedAt: int, finishedAt: Option<int>, errorSummary: string)

  datatype Facts = Facts(tasks: seq<Task>, runHealth: map<string, RunHealth>,
                         repositories: seq<Repository>, policies: seq<CapacityPolicy>, forecasts: map<string, Forecast>,
                         agents: seq<Agent>, plans: seq<Plan>, planOccurrences: map<string, Occurrence>,
                         maintenance: seq<Maintenance>, maintenanceOccurrences: map<string, Occurrence>,
                         verifications: seq<Verification>, verificationOccurrences: map<string, Occurrence>,
                         latest: map<string, Record>, latestSuccess: map<string, Record>, cleanup: map<string, Record>)

  const NO_HEALTH := RunHealth(None, None)
  const NO_POLICY := CapacityPolicy("", false, 0, 0.0, 0, 0, 0, None, "")
  const NO_OCCURRENCE := Occurrence("", "")
  const NO_RECORD := Record("", "", 0, None, "")

  function Or<T>(m: map<string, T>, id: string, missing: T): T {
    if id in m then m[id] else missing
  }

  // ----- Verdicts

  // What an alert's text is written from.
  datatype Note =
    | RunEnded(status: string)
    | NoSuccessFor(hours: int)
    | NotIntact
    | LowSpace(available: nat, percent: real)
    | ExhaustedAt(at: int)
    | NoProbeFor(minutes: int)
    | ProbeError(text: string)
    | Heartbeat(last: Option<int>)
    | Protocols(min: int, max: int)
    | ExpiresAt(at: int)
    | RenewalFailed
    | OccurrenceEnded(status: string)
    | VerificationEnded(status: string, error: string)
    | CleanupPending

  // The present instant, and how a note of some kind is worded.
  datatype Clock = Clock(now: int, render: (string, Note) -> Wording)

  datatype Verdict = Raise(signal: Signal) | Resolve | Keep

  datatype Decision = Decision(key: string, verdict: Verdict)

  /** What a verdict makes of the alert that is active, or not, beforehand. */
  function Wanted(v: Verdict, before: Option<Signal>): Option<Signal> {
    match v
    case Raise(s) => Some(s)
    case Resolve => None
    case Keep => before
  }

  function NameOr(name: string, id: string): string {
    if name == "" then id else name
  }

  function SignalOf(key: Key, kind: string, severity: Severity, name: string, note: Note, c: Clock): Signal {
    Signal(key.Text(), kind, severity, key.id, name, c.render(kind, note))
  }

  /** An alert that is raised under a condition and resolved otherwise. */
  function RaiseIf(bad: bool, key: Key, kind: string, severity: Severity, name: string, note: Note, c: Clock): Verdict {
    if bad then Raise(SignalOf(key, kind, severity, name, note, c)) else Resolve
  }

  /** Nothing good has happened for `limit` since the last success or, without one, since `start`. */
  predicate Overdue(start: int, lastSuccess: Option<int>, limit: int, now: int) {
    var baseline := if lastSuccess.Some? then lastSuccess.value else start;
    baseline != 0 && baseline + limit <= now
  }

  // Tasks

  const TERMINAL := {"success", "partial", "failed", "cancelled", "skipped"}

  function RunSeverity(status: string): Severity {
    if status == "partial" || status == "skipped" then Warning else if status == "cancelled" then Info else Critical
  }

  function TaskRunSignal(task: Task, status: string, c: Clock): Signal {
    SignalOf(Key("task", task.id, "run"), "task_run", RunSeverity(status), NameOr(task.name, task.id), RunEnded(status), c)
  }

  /** A run that has not ended leaves the alert of the one before it. */
  function RunVerdict(task: Task, health: RunHealth, c: Clock): Verdict {
    if !task.enabled || health.latest.None? || health.latest.value == "success" then Resolve
    else if health.latest.value in TERMINAL then Raise(TaskRunSignal(task, health.latest.value, c))
    else Keep
  }

  function TaskStaleVerdict(task: Task, health: RunHealth, c: Clock): Verdict {
    var bad := task.enabled && task.maxSuccessAgeHours != 0
               && Overdue(task.createdAt, health.lastSuccessAt, task.maxSuccessAgeHours * HOUR, c.now);
    RaiseIf(bad, Key("task", task.id, "stale"), "task_stale", Critical, NameOr(task.name, task.id),
            NoSuccessFor(task.maxSuccessAgeHours), c)
  }

  function TaskDecisions(task: Task, health: RunHealth, c: Clock): seq<Decision> {
    [Decision(Key("task", task.id, "run").Text(), RunVerdict(task, health, c)),
     Decision(Key("task", task.id, "stale").Text(), TaskStaleVerdict(task, health, c))]
  }

  // Repositories

  function IntegrityVerdict(r: Repository, c: Clock): Verdict {
    if r.status == "abnormal" || "unprotected-partial:" <= r.status then
      Raise(SignalOf(Key("repository", r.id, "integrity"), "repository_abnormal", Critical, NameOr(r.name, r.id), NotIntact, c))
    else if r.status == "ready" || r.status == "uninitialized" then Resolve
    else Keep
  }

  predicate Watched(r: Repository, p: CapacityPolicy) {
    p.enabled && r.status != "uninitialized" && r.status != "disconnected"
  }

  predicate Measured(r: Repository) {
    r.capacity.Some? && r.capacity.value.total != 0
  }

  function Percent(capacity: Capacity): real
    requires capacity.total != 0
  {
    capacity.available as real * 100.0 / capacity.total as real
  }

  function LowVerdict(r: Repository, p: CapacityPolicy, c: Clock): Verdict {
    if Watched(r, p) && Measured(r) then
      var capacity := r.capacity.value;
      var bad := (0 < p.minimumBytes && capacity.available < p.minimumBytes)
                 || (0.0 < p.minimumPercent && Percent(capacity) < p.minimumPercent);
      RaiseIf(bad, Key("repository", r.id, "capacity-low"), "repository_capacity_low", Critical, NameOr(r.name, r.id),
              LowSpace(capacity.available, Percent(capacity)), c)
    else Resolve
  }

  function ForecastVerdict(r: Repository, p: CapacityPolicy, forecast: Forecast, c: Clock): Verdict {
    if Watched(r, p) && Measured(r) && 0 < p.warningDays && forecast.Ready? && forecast.exhaustedAt.Some? then
      RaiseIf(forecast.exhaustedAt.value <= c.now + p.warningDays * DAY, Key("repository", r.id, "capacity-forecast"),
              "repository_capacity_forecast", Warning, NameOr(r.name, r.id), ExhaustedAt(forecast.exhaustedAt.value), c)
    else Resolve
  }

  function CapacityStaleVerdict(r: Repository, p: CapacityPolicy, c: Clock): Verdict {
    RaiseIf(Watched(r, p) && Overdue(p.updatedAt, p.lastSuccessAt, 2 * p.probeMinutes * MINUTE, c.now),
            Key("repository", r.id, "capacity-stale"), "repository_capacity_stale", Warning, NameOr(r.name, r.id),
            NoProbeFor(2 * p.probeMinutes), c)
  }

  function ProbeVerdict(r: Repository, p: CapacityPolicy, c: Clock): Verdict {
    RaiseIf(Watched(r, p) && p.lastError != "", Key("repository", r.id, "capacity-probe"),
            "repository_capacity_probe_failed", Warning, NameOr(r.name, r.id), ProbeError(p.lastError), c)
  }

  function RepositoryDecisions(r: Repository, p: CapacityPolicy, forecast: Forecast, c: Clock): seq<Decision> {
    [Decision(Key("repository", r.id, "integrity").Text(), IntegrityVerdict(r, c)),
     Decision(Key("repository", r.id, "capacity-low").Text(), LowVerdict(r, p, c)),
     Decision(Key("repository", r.id, "capacity-forecast").Text(), ForecastVerdict(r, p, forecast, c)),
     Decision(Key("repository", r.id, "capacity-stale").Text(), CapacityStaleVerdict(r, p, c)),
     Decision(Key("repository", r.id, "capacity-probe").Text(), ProbeVerdict(r, p, c))]
  }

  // Agents

  predicate Gone(a: Agent) {
    a.revoked || a.uninstalled
  }

  predicate Online(a: Agent, now: int) {
    a.status == "online" && a.lastHeartbeatAt.Some? && now - HEARTBEAT_TIMEOUT <= a.lastHeartbeatAt.value
  }

  predicate Compatible(a: Agent) {
    1 <= a.protocolMin <= PROTOCOL_VERSION <= a.protocolMax
  }

  function ExpirySeverity(remaining: int): Severity {
    if remaining <= 7 * DAY then Critical else if remaining <= 14 * DAY then Warning else Info
  }

  function CertificateVerdict(a: Agent, c: Clock): Verdict {
    if Gone(a) || a.certificateNotAfter.None? then Resolve
    else
      var remaining := a.certificateNotAfter.value - c.now;
      RaiseIf(remaining <= 30 * DAY, Key("agent", a.id, "certificate-expiry"), "agent_certificate_expiry",
              ExpirySeverity(remaining), a.id, ExpiresAt(a.certificateNotAfter.value), c)
  }

  function AgentDecisions(a: Agent, c: Clock): seq<Decision> {
    [Decision(Key("agent", a.id, "offline").Text(),
              RaiseIf(!Gone(a) && !Online(a, c.now), Key("agent", a.id, "offline"), "agent_offline", Critical, a.id,
                      Heartbeat(a.lastHeartbeatAt), c)),
     Decision(Key("agent", a.id, "protocol").Text(),
              RaiseIf(!Gone(a) && !Compatible(a), Key("agent", a.id, "protocol"), "agent_protocol", Warning, a.id,
                      Protocols(a.protocolMin, a.protocolMax), c)),
     Decision(Key("agent", a.id, "certificate-expiry").Text(), CertificateVerdict(a, c)),
     Decision(Key("agent", a.id, "certificate-renewal").Text(),
              RaiseIf(!Gone(a) && a.renewalStatus == "failed", Key("agent", a.id, "certificate-renewal"),
                      "agent_certificate_renewal", Warning, a.id, RenewalFailed, c))]
  }

  // Schedules

  function ScheduleSeverity(status: string): Severity {
    if status == "partial" || status == "skipped" then Warning else if status == "cancelled" then Info else Critical
  }

  /** An occurrence that is missing or has not ended leaves the alert as it is. */
  function OccurrenceVerdict(key: Key, kind: string, severity: Severity, name: string, o: Occurrence, c: Clock): Verdict {
    if o.id == "" || o.status == "pending" || o.status == "running" then Keep
    else if o.status == "success" then Resolve
    else Raise(SignalOf(key, kind, severity, name, OccurrenceEnded(o.status), c))
  }

  function ScheduleVerdict(enabled: bool, key: Key, kind: string, name: string, o: Occurrence, c: Clock): Verdict {
    if !enabled then Resolve else OccurrenceVerdict(key, kind, ScheduleSeverity(o.status), name, o, c)
  }

  function PlanDecisions(p: Plan, o: Occurrence, c: Clock): seq<Decision> {
    var key := Key("plan", p.id, "schedule");
    [Decision(key.Text(), ScheduleVerdict(p.enabled, key, "plan_schedule", p.name, o, c))]
  }

  function MaintenanceDecisions(p: Maintenance, name: string, o: Occurrence, c: Clock): seq<Decision> {
    var key := Key("maintenance", p.repositoryId, "schedule");
    [Decision(key.Text(), ScheduleVerdict(p.enabled, key, "maintenance_schedule", name, o, c))]
  }

  // Restore verification

  function CancelledIsInfo(status: string): Severity {
    if status == "cancelled" then Info else Critical
  }

  function SuccessTime(success: Record): Option<int> {
    if success.id == "" then None
    else if success.finishedAt.Some? then success.finishedAt
    else Some(success.startedAt)
  }

  function ResultVerdict(taskId: string, name: string, latest: Record, c: Clock): Verdict {
    if latest.id == "" || latest.status == "success" then Resolve
    else if latest.status == "running" then Keep
    else Raise(SignalOf(Key("restore-verification", taskId, "result"), "restore_verification_result",
                        CancelledIsInfo(latest.status), name, VerificationEnded(latest.status, latest.errorSummary), c))
  }

  function VerificationDecisions(p: Verification, name: string, o: Occurrence, latest: Record, success: Record,
                                 cleanup: Record, c: Clock): seq<Decision> {
    var schedule := Key("restore-verification", p.taskId, "schedule");
    var stale := Key("restore-verification", p.taskId, "stale");
    var pending := Key("restore-verification", p.taskId, "cleanup");
    [Decision(schedule.Text(),
              if !p.enabled then Resolve
              else OccurrenceVerdict(schedule, "restore_verification_schedule", CancelledIsInfo(o.status), name, o, c)),
     Decision(stale.Text(),
              RaiseIf(p.enabled && Overdue(p.updatedAt, SuccessTime(success), p.maximumAgeHours * HOUR, c.now),
                      stale, "restore_verification_stale", Critical, name, NoSuccessFor(p.maximumAgeHours), c)),
     Decision(Key("restore-verification", p.taskId, "result").Text(), ResultVerdict(p.taskId, name, latest, c)),
     Decision(pending.Text(),
              RaiseIf(cleanup.id != "", pending, "restore_verification_cleanup", Critical, name, CleanupPending, c))]
  }

  // ----- All of it

  function PolicyOf(policies: seq<CapacityPolicy>, id: string): CapacityPolicy {
    if policies == [] then NO_POLICY
    else if policies[|policies| - 1].repositoryId == id then policies[|policies| - 1]
    else PolicyOf(policies[..|policies| - 1], id)
  }

  function TaskName(tasks: seq<Task>, id: string): string {
    if tasks == [] then ""
    else if tasks[|tasks| - 1].id == id then tasks[|tasks| - 1].name
    else TaskName(tasks[..|tasks| - 1], id)
  }

  function RepositoryName(repositories: seq<Repository>, id: string): string {
    if repositories == [] then ""
    else if repositories[|repositories| - 1].id == id then repositories[|repositories| - 1].name
    else RepositoryName(repositories[..|repositories| - 1], id)
  }

  // The forecast is asked for only when the policy warns about it.
  predicate Forecasting(p: CapacityPolicy) {
    p.enabled && 0 < p.warningDays
  }

  function ForecastOf(f: Facts, p: CapacityPolicy, id: string): Forecast {
    if Forecasting(p) && id in f.forecasts then f.forecasts[id] else NotReady
  }

  function OfTask(f: Facts, c: Clock): Task -> seq<Decision> {
    (t: Task) => TaskDecisions(t, Or(f.runHealth, t.id, NO_HEALTH), c)
  }

  function OfRepository(f: Facts, c: Clock): Repository -> seq<Decision> {
    (r: Repository) => var p := PolicyOf(f.policies, r.id); RepositoryDecisions(r, p, ForecastOf(f, p, r.id), c)
  }

  function OfAgent(c: Clock): Agent -> seq<Decision> {
    (a: Agent) => AgentDecisions(a, c)
  }

  function OfPlan(f: Facts, c: Clock): Plan -> seq<Decision> {
    (p: Plan) => PlanDecisions(p, Or(f.planOccurrences, p.id, NO_OCCURRENCE), c)
  }

  function OfMaintenance(f: Facts, c: Clock): Maintenance -> seq<Decision> {
    (p: Maintenance) => MaintenanceDecisions(p, NameOr(RepositoryName(f.repositories, p.repositoryId), p.repositoryId),
                              Or(f.maintenanceOccurrences, p.repositoryId, NO_OCCURRENCE), c)
  }

  function OfVerification(f: Facts, c: Clock): Verification -> seq<Decision> {
    (p: Verification) => VerificationDecisions(p, NameOr(TaskName(f.tasks, p.taskId), p.taskId),
                               Or(f.verificationOccurrences, p.taskId, NO_OCCURRENCE),
                               Or(f.latest, p.taskId, NO_RECORD), Or(f.latestSuccess, p.taskId, NO_RECORD),
                               Or(f.cleanup, p.taskId, NO_RECORD), c)
  }

  /** The decisions about every item of a list, in order. */
  function Collect<T>(items: seq<T>, decide: T -> seq<Decision>): seq<Decision> {
    if items == [] then [] else Collect(items[..|items| - 1], decide) + decide(items[|items| - 1])
  }

  function Decisions(f: Facts, c: Clock): seq<Decision> {
    Collect(f.tasks, OfTask(f, c)) + Collect(f.repositories, OfRepository(f, c)) + Collect(f.agents, OfAgent(c))
    + Collect(f.plans, OfPlan(f, c)) + Collect(f.maintenance, OfMaintenance(f, c))
    + Collect(f.verifications, OfVerification(f, c))
  }

  /** The verdict on a key, if the facts give one. */
  function VerdictFor(ds: seq<Decision>, key: string): Option<Verdict> {
    if ds == [] then None
    else if ds[|ds| - 1].key == key then Some(ds[|ds| - 1].verdict)
    else VerdictFor(ds[..|ds| - 1], key)
  }

  const MANAGED := {"task_run", "task_stale", "repository_abnormal", "repository_capacity", "repository_capacity_low",
                    "repository_capacity_forecast", "repository_capacity_stale", "repository_capacity_probe_failed",
                    "agent_offline", "agent_protocol", "agent_certificate_expiry", "agent_certificate_renewal",
                    "plan_schedule", "maintenance_schedule", "restore_verification_schedule",
                    "restore_verification_result", "restore_verification_stale", "restore_verification_cleanup"}

  /**
   * The alert that should be active under a key: what the verdict on it says; without a verdict, an alert of
   * a managed kind belongs to an object that no longer exists and goes, and any other alert stays.
   */
  function Expected(ds: seq<Decision>, before: Ledger, key: string): Option<Signal> {
    var was := Lookup(before, key);
    match VerdictFor(ds, key)
    case Some(v) => Wanted(v, was)
    case None => if was.Some? && was.value.kind in MANAGED then None else was
  }
}
