/** What the alerts are after a reconciliation, key by key, in terms of the fields of the facts. Durations are
    written out in nanoseconds. */
module AlertRules {
  import opened Alerts
  import opened Settlement
  import opened VerdictKeys
  import opened Verdicts
  import opened Wrappers

  /** The key of what there is to say about an object. */
  function KeyOf(subject: string, id: string, aspect: string): string {
    subject + ":" + id + ":" + aspect
  }

  // ----- What an alert can be

  predicate Shows(now: Ledger, s: Signal) {
    s.key in now && now[s.key] == s
  }

  /** The alert is there under a condition, and only then. */
  predicate ShowsIf(now: Ledger, bad: bool, s: Signal) {
    if bad then Shows(now, s) else s.key !in now
  }

  /** The alert, or its absence, is what it was. */
  predicate AsBefore(now: Ledger, was: Ledger, key: string) {
    (key in now <==> key in was) && (key in now ==> now[key] == was[key])
  }

  // ----- Tasks

  ghost predicate RunRule(now: Ledger, was: Ledger, t: Task, latest: Option<string>, c: Clock) {
    var key, name := KeyOf("task", t.id, "run"), if t.name == "" then t.id else t.name;
    if !t.enabled || latest.None? || latest.value == "success" then key !in now
    else if latest.value in {"partial", "skipped"} then
      Shows(now, Signal(key, "task_run", Warning, t.id, name, c.render("task_run", RunEnded(latest.value))))
    else if latest.value == "cancelled" then
      Shows(now, Signal(key, "task_run", Info, t.id, name, c.render("task_run", RunEnded(latest.value))))
    else if latest.value == "failed" then
      Shows(now, Signal(key, "task_run", Critical, t.id, name, c.render("task_run", RunEnded(latest.value))))
    else AsBefore(now, was, key)
  }

  ghost predicate TaskStaleRule(now: Ledger, t: Task, lastSuccessAt: Option<int>, c: Clock) {
    var key, name := KeyOf("task", t.id, "stale"), if t.name == "" then t.id else t.name;
    var since := if lastSuccessAt.Some? then lastSuccessAt.value else t.createdAt;
    ShowsIf(now, t.enabled && t.maxSuccessAgeHours != 0 && since != 0 && since + t.maxSuccessAgeHours * 3_600_000_000_000 <= c.now,
            Signal(key, "task_stale", Critical, t.id, name, c.render("task_stale", NoSuccessFor(t.maxSuccessAgeHours))))
  }

  ghost predicate TaskRules(now: Ledger, was: Ledger, f: Facts, t: Task, c: Clock) {
    if t.id in f.runHealth then
      RunRule(now, was, t, f.runHealth[t.id].latest, c) && TaskStaleRule(now, t, f.runHealth[t.id].lastSuccessAt, c)
    else RunRule(now, was, t, None, c) && TaskStaleRule(now, t, None, c)
  }

  // ----- Repositories

  ghost predicate IntegrityRule(now: Ledger, was: Ledger, r: Repository, c: Clock) {
    var key, name := KeyOf("repository", r.id, "integrity"), if r.name == "" then r.id else r.name;
    if r.status == "abnormal" || "unprotected-partial:" <= r.status then
      Shows(now, Signal(key, "repository_abnormal", Critical, r.id, name, c.render("repository_abnormal", NotIntact)))
    else if r.status == "ready" || r.status == "uninitialized" then key !in now
    else AsBefore(now, was, key)
  }

  /** Without an enabled policy, or for a repository that is not in use, there is no capacity alert. */
  ghost predicate NoCapacityAlerts(now: Ledger, r: Repository) {
    && KeyOf("repository", r.id, "capacity-low") !in now && KeyOf("repository", r.id, "capacity-forecast") !in now
    && KeyOf("repository", r.id, "capacity-stale") !in now && KeyOf("repository", r.id, "capacity-probe") !in now
  }

  ghost predicate LowRule(now: Ledger, r: Repository, p: CapacityPolicy, c: Clock) {
    var key, name := KeyOf("repository", r.id, "capacity-low"), if r.name == "" then r.id else r.name;
    if r.capacity.None? || r.capacity.value.total == 0 then key !in now
    else
      var available := r.capacity.value.available;
      var percent := available as real * 100.0 / r.capacity.value.total as real;
      ShowsIf(now, (p.minimumBytes > 0 && available < p.minimumBytes) || (p.minimumPercent > 0.0 && percent < p.minimumPercent),
              Signal(key, "repository_capacity_low", Critical, r.id, name,
                     c.render("repository_capacity_low", LowSpace(available, percent))))
  }

  ghost predicate ForecastRule(now: Ledger, r: Repository, p: CapacityPolicy, forecasts: map<string, Forecast>, c: Clock) {
    var key, name := KeyOf("repository", r.id, "capacity-forecast"), if r.name == "" then r.id else r.name;
    if r.capacity.None? || r.capacity.value.total == 0 || p.warningDays <= 0 || r.id !in forecasts
       || forecasts[r.id].NotReady? || forecasts[r.id].exhaustedAt.None? then key !in now
    else
      var at := forecasts[r.id].exhaustedAt.value;
      ShowsIf(now, at <= c.now + p.warningDays * 86_400_000_000_000,
              Signal(key, "repository_capacity_forecast", Warning, r.id, name, c.render("repository_capacity_forecast", ExhaustedAt(at))))
  }

  ghost predicate CapacityStaleRule(now: Ledger, r: Repository, p: CapacityPolicy, c: Clock) {
    var key, name := KeyOf("repository", r.id, "capacity-stale"), if r.name == "" then r.id else r.name;
    var since := if p.lastSuccessAt.Some? then p.lastSuccessAt.value else p.updatedAt;
    ShowsIf(now, since != 0 && since + 2 * p.probeMinutes * 60_000_000_000 <= c.now,
            Signal(key, "repository_capacity_stale", Warning, r.id, name,
                   c.render("repository_capacity_stale", NoProbeFor(2 * p.probeMinutes))))
  }

  ghost predicate ProbeRule(now: Ledger, r: Repository, p: CapacityPolicy, c: Clock) {
    var key, name := KeyOf("repository", r.id, "capacity-probe"), if r.name == "" then r.id else r.name;
    ShowsIf(now, p.lastError != "", Signal(key, "repository_capacity_probe_failed", Warning, r.id, name,
                                           c.render("repository_capacity_probe_failed", ProbeError(p.lastError))))
  }

  ghost predicate CapacityRules(now: Ledger, r: Repository, p: CapacityPolicy, forecasts: map<string, Forecast>, c: Clock) {
    if !p.enabled || r.status == "uninitialized" || r.status == "disconnected" then NoCapacityAlerts(now, r)
    else LowRule(now, r, p, c) && ForecastRule(now, r, p, forecasts, c) && CapacityStaleRule(now, r, p, c) && ProbeRule(now, r, p, c)
  }

  /** The policy at `i` is the one that counts for a repository: the last that names it. */
  ghost predicate Governs(policies: seq<CapacityPolicy>, i: nat, id: string) {
    i < |policies| && policies[i].repositoryId == id && forall j :: i < j < |policies| ==> policies[j].repositoryId != id
  }

  ghost predicate RepositoryRules(now: Ledger, was: Ledger, f: Facts, r: Repository, c: Clock) {
    && IntegrityRule(now, was, r, c)
    && (forall i: nat :: Governs(f.policies, i, r.id) ==> CapacityRules(now, r, f.policies[i], f.forecasts, c))
    && ((forall i :: 0 <= i < |f.policies| ==> f.policies[i].repositoryId != r.id) ==> NoCapacityAlerts(now, r))
  }

  // ----- Agents

  ghost predicate AgentRules(now: Ledger, a: Agent, c: Clock) {
    var serves := !a.revoked && !a.uninstalled;
    && ShowsIf(now, serves && !(a.status == "online" && a.lastHeartbeatAt.Some? && a.lastHeartbeatAt.value + 120_000_000_000 >= c.now),
               Signal(KeyOf("agent", a.id, "offline"), "agent_offline", Critical, a.id, a.id, c.render("agent_offline", Heartbeat(a.lastHeartbeatAt))))
    && ShowsIf(now, serves && (a.protocolMin < 1 || a.protocolMin > 1 || a.protocolMax < 1),
               Signal(KeyOf("agent", a.id, "protocol"), "agent_protocol", Warning, a.id, a.id,
                      c.render("agent_protocol", Protocols(a.protocolMin, a.protocolMax))))
    && ShowsIf(now, serves && a.renewalStatus == "failed",
               Signal(KeyOf("agent", a.id, "certificate-renewal"), "agent_certificate_renewal", Warning, a.id, a.id,
                      c.render("agent_certificate_renewal", RenewalFailed)))
    && ExpiryRule(now, a, c)
  }

  ghost predicate ExpiryRule(now: Ledger, a: Agent, c: Clock) {
    var key := KeyOf("agent", a.id, "certificate-expiry");
    if a.revoked || a.uninstalled || a.certificateNotAfter.None? then key !in now
    else
      var at := a.certificateNotAfter.value;
      var wording := c.render("agent_certificate_expiry", ExpiresAt(at));
      if at > c.now + 30 * 86_400_000_000_000 then key !in now
      else if at > c.now + 14 * 86_400_000_000_000 then Shows(now, Signal(key, "agent_certificate_expiry", Info, a.id, a.id, wording))
      else if at > c.now + 7 * 86_400_000_000_000 then Shows(now, Signal(key, "agent_certificate_expiry", Warning, a.id, a.id, wording))
      else Shows(now, Signal(key, "agent_certificate_expiry", Critical, a.id, a.id, wording))
  }

  // ----- Schedules

  /** An occurrence that is missing or has not ended changes nothing. */
  ghost predicate OccurrenceRule(now: Ledger, was: Ledger, key: string, kind: string, severity: Severity, id: string, name: string,
                                 o: Option<Occurrence>, c: Clock) {
    if o.None? || o.value.id == "" || o.value.status in {"pending", "running"} then AsBefore(now, was, key)
    else if o.value.status == "success" then key !in now
    else Shows(now, Signal(key, kind, severity, id, name, c.render(kind, OccurrenceEnded(o.value.status))))
  }

  ghost predicate ScheduleRule(now: Ledger, was: Ledger, enabled: bool, key: string, kind: string, id: string, name: string,
                               o: Option<Occurrence>, c: Clock) {
    if !enabled then key !in now
    else if o.Some? && o.value.status in {"partial", "skipped"} then OccurrenceRule(now, was, key, kind, Warning, id, name, o, c)
    else if o.Some? && o.value.status == "cancelled" then OccurrenceRule(now, was, key, kind, Info, id, name, o, c)
    else OccurrenceRule(now, was, key, kind, Critical, id, name, o, c)
  }

  function At<T>(m: map<string, T>, id: string): Option<T> {
    if id in m then Some(m[id]) else None
  }

  /** How a listed repository is called; by its identifier without a name, or when it is not listed. */
  ghost predicate RepositoryCalled(f: Facts, id: string, name: string) {
    && (forall r :: r in f.repositories && r.id == id ==> name == if r.name == "" then id else r.name)
    && ((forall r :: r in f.repositories ==> r.id != id) ==> name == id)
  }

  ghost predicate TaskCalled(f: Facts, id: string, name: string) {
    && (forall t :: t in f.tasks && t.id == id ==> name == if t.name == "" then id else t.name)
    && ((forall t :: t in f.tasks ==> t.id != id) ==> name == id)
  }

  ghost predicate MaintenanceRule(now: Ledger, was: Ledger, f: Facts, p: Maintenance, c: Clock) {
    forall name :: RepositoryCalled(f, p.repositoryId, name) ==>
      ScheduleRule(now, was, p.enabled, KeyOf("maintenance", p.repositoryId, "schedule"), "maintenance_schedule", p.repositoryId, name,
                   At(f.maintenanceOccurrences, p.repositoryId), c)
  }

  // ----- Restore verification

  ghost predicate VerificationScheduleRule(now: Ledger, was: Ledger, p: Verification, name: string, o: Option<Occurrence>, c: Clock) {
    var key, kind := KeyOf("restore-verification", p.taskId, "schedule"), "restore_verification_schedule";
    if !p.enabled then key !in now
    else if o.Some? && o.value.status == "cancelled" then OccurrenceRule(now, was, key, kind, Info, p.taskId, name, o, c)
    else OccurrenceRule(now, was, key, kind, Critical, p.taskId, name, o, c)
  }

  ghost predicate VerificationStaleRule(now: Ledger, p: Verification, name: string, success: Option<Record>, c: Clock) {
    var key := KeyOf("restore-verification", p.taskId, "stale");
    var since := if success.None? || success.value.id == "" then p.updatedAt
                 else if success.value.finishedAt.Some? then success.value.finishedAt.value
                 else success.value.startedAt;
    ShowsIf(now, p.enabled && since != 0 && since + p.maximumAgeHours * 3_600_000_000_000 <= c.now,
            Signal(key, "restore_verification_stale", Critical, p.taskId, name, c.render("restore_verification_stale", NoSuccessFor(p.maximumAgeHours))))
  }

  ghost predicate ResultRule(now: Ledger, was: Ledger, p: Verification, name: string, latest: Option<Record>, c: Clock) {
    var key, kind := KeyOf("restore-verification", p.taskId, "result"), "restore_verification_result";
    if latest.None? || latest.value.id == "" || latest.value.status == "success" then key !in now
    else if latest.value.status == "running" then AsBefore(now, was, key)
    else
      var wording := c.render(kind, VerificationEnded(latest.value.status, latest.value.errorSummary));
      if latest.value.status == "cancelled" then Shows(now, Signal(key, kind, Info, p.taskId, name, wording))
      else Shows(now, Signal(key, kind, Critical, p.taskId, name, wording))
  }

  ghost predicate CleanupRule(now: Ledger, p: Verification, name: string, cleanup: Option<Record>, c: Clock) {
    ShowsIf(now, cleanup.Some? && cleanup.value.id != "",
            Signal(KeyOf("restore-verification", p.taskId, "cleanup"), "restore_verification_cleanup", Critical, p.taskId, name,
                   c.render("restore_verification_cleanup", CleanupPending)))
  }

  ghost predicate VerificationRules(now: Ledger, was: Ledger, f: Facts, p: Verification, c: Clock) {
    forall name :: TaskCalled(f, p.taskId, name) ==> NamedVerificationRules(now, was, f, p, name, c)
  }

  ghost predicate NamedVerificationRules(now: Ledger, was: Ledger, f: Facts, p: Verification, name: string, c: Clock) {
    && VerificationScheduleRule(now, was, p, name, At(f.verificationOccurrences, p.taskId), c)
    && VerificationStaleRule(now, p, name, At(f.latestSuccess, p.taskId), c)
    && ResultRule(now, was, p, name, At(f.latest, p.taskId), c)
    && CleanupRule(now, p, name, At(f.cleanup, p.taskId), c)
  }

  // ----- Everything else

  predicate TaskKey(key: string, id: string) {
    key == KeyOf("task", id, "run") || key == KeyOf("task", id, "stale")
  }

  predicate RepositoryKey(key: string, id: string) {
    || key == KeyOf("repository", id, "integrity") || key == KeyOf("repository", id, "capacity-low")
    || key == KeyOf("repository", id, "capacity-forecast") || key == KeyOf("repository", id, "capacity-stale")
    || key == KeyOf("repository", id, "capacity-probe")
  }

  predicate AgentKey(key: string, id: string) {
    || key == KeyOf("agent", id, "offline") || key == KeyOf("agent", id, "protocol")
    || key == KeyOf("agent", id, "certificate-expiry") || key == KeyOf("agent", id, "certificate-renewal")
  }

  predicate VerificationKey(key: string, id: string) {
    || key == KeyOf("restore-verification", id, "schedule") || key == KeyOf("restore-verification", id, "stale")
    || key == KeyOf("restore-verification", id, "result") || key == KeyOf("restore-verification", id, "cleanup")
  }

  /** The key is one of those that a listed object has. */
  ghost predicate HasObject(f: Facts, key: string) {
    || (exists t :: t in f.tasks && TaskKey(key, t.id))
    || (exists r :: r in f.repositories && RepositoryKey(key, r.id))
    || (exists a :: a in f.agents && AgentKey(key, a.id))
    || (exists p :: p in f.plans && key == KeyOf("plan", p.id, "schedule"))
    || (exists p :: p in f.maintenance && key == KeyOf("maintenance", p.repositoryId, "schedule"))
    || (exists p :: p in f.verifications && VerificationKey(key, p.taskId))
  }

  /** An alert of a managed kind whose object is not listed goes; any other stays. */
  ghost predicate RemovalRule(now: Ledger, was: Ledger, key: string) {
    if key in was && was[key].kind in {"task_run", "task_stale", "repository_abnormal", "repository_capacity", "repository_capacity_low",
         "repository_capacity_forecast", "repository_capacity_stale", "repository_capacity_probe_failed", "agent_offline",
         "agent_protocol", "agent_certificate_expiry", "agent_certificate_renewal", "plan_schedule", "maintenance_schedule",
         "restore_verification_schedule", "restore_verification_result", "restore_verification_stale", "restore_verification_cleanup"}
    then key !in now
    else AsBefore(now, was, key)
  }

  /** The whole of it; only the notification channel's own alert is not decided by the facts. */
  ghost predicate FollowsTheFacts(now: Ledger, was: Ledger, f: Facts, c: Clock) {
    && (forall t :: t in f.tasks ==> TaskRules(now, was, f, t, c))
    && (forall r :: r in f.repositories ==> RepositoryRules(now, was, f, r, c))
    && (forall a :: a in f.agents ==> AgentRules(now, a, c))
    && (forall p :: p in f.plans ==>
          ScheduleRule(now, was, p.enabled, KeyOf("plan", p.id, "schedule"), "plan_schedule", p.id, p.name, At(f.planOccurrences, p.id), c))
    && (forall p :: p in f.maintenance ==> MaintenanceRule(now, was, f, p, c))
    && (forall p :: p in f.verifications ==> VerificationRules(now, was, f, p, c))
    && (forall key: string :: key != KeyOf("notification", "channels", "delivery") && !HasObject(f, key) ==> RemovalRule(now, was, key))
  }

  /** The policy of a repository asks for a forecast that could not be read. */
  ghost predicate LacksForecast(f: Facts, r: Repository) {
    r.id !in f.forecasts && exists i: nat :: Governs(f.policies, i, r.id) && f.policies[i].enabled && f.policies[i].warningDays > 0
  }

  /** A run that stopped at repository `n`: tasks and the repositories before it are dealt with, nothing else is. */
  ghost predicate StoppedAt(now: Ledger, was: Ledger, f: Facts, n: nat, c: Clock) {
    && n < |f.repositories| && LacksForecast(f, f.repositories[n]) && (forall i :: 0 <= i < n ==> !LacksForecast(f, f.repositories[i]))
    && (forall t :: t in f.tasks ==> TaskRules(now, was, f, t, c))
    && (forall i :: 0 <= i < n ==> RepositoryRules(now, was, f, f.repositories[i], c))
    && (forall key: string :: key != KeyOf("notification", "channels", "delivery") && !HasObjectBefore(f, n, key) ==> AsBefore(now, was, key))
  }

  ghost predicate HasObjectBefore(f: Facts, n: nat, key: string)
    requires n <= |f.repositories|
  {
    (exists t :: t in f.tasks && TaskKey(key, t.id)) || (exists r :: r in f.repositories[..n] && RepositoryKey(key, r.id))
  }

  // ----- From verdicts to rules

  /** The alert under a key is what the verdict on it wants. */
  ghost predicate Obeys(now: Ledger, was: Ledger, d: Decision) {
    Lookup(now, d.key) == Wanted(d.verdict, Lookup(was, d.key))
  }

  lemma Spelled(subject: string, id: string, aspect: string)
    ensures Key(subject, id, aspect).Text() == KeyOf(subject, id, aspect)
  {}

  lemma TaskFollows(now: Ledger, was: Ledger, f: Facts, t: Task, c: Clock)
    requires forall d :: d in TaskDecisions(t, Or(f.runHealth, t.id, NO_HEALTH), c) ==> Obeys(now, was, d)
    ensures TaskRules(now, was, f, t, c)
  {
    hide Key.Text, KeyOf, RunVerdict, TaskStaleVerdict, RunRule, TaskStaleRule;
    var h := Or(f.runHealth, t.id, NO_HEALTH);
    var ds := TaskDecisions(t, h, c);
    assert ds[0] in ds && ds[1] in ds;
    RunFollows(now, was, t, h, c);
    TaskStaleFollows(now, was, t, h, c);
  }

  lemma RunFollows(now: Ledger, was: Ledger, t: Task, h: RunHealth, c: Clock)
    requires Obeys(now, was, Decision(Key("task", t.id, "run").Text(), RunVerdict(t, h, c)))
    ensures RunRule(now, was, t, h.latest, c)
  {
    hide Key.Text, KeyOf, KeyOf;
    Spelled("task", t.id, "run");
  }

  lemma TaskStaleFollows(now: Ledger, was: Ledger, t: Task, h: RunHealth, c: Clock)
    requires Obeys(now, was, Decision(Key("task", t.id, "stale").Text(), TaskStaleVerdict(t, h, c)))
    ensures TaskStaleRule(now, t, h.lastSuccessAt, c)
  {
    hide Key.Text, KeyOf, KeyOf;
    Spelled("task", t.id, "stale");
  }

  lemma IntegrityFollows(now: Ledger, was: Ledger, r: Repository, c: Clock)
    requires Obeys(now, was, Decision(Key("repository", r.id, "integrity").Text(), IntegrityVerdict(r, c)))
    ensures IntegrityRule(now, was, r, c)
  {
    hide Key.Text, KeyOf, KeyOf;
    Spelled("repository", r.id, "integrity");
  }

  lemma LowFollows(now: Ledger, was: Ledger, r: Repository, p: CapacityPolicy, c: Clock)
    requires Obeys(now, was, Decision(Key("repository", r.id, "capacity-low").Text(), LowVerdict(r, p, c)))
    ensures Watched(r, p) ==> LowRule(now, r, p, c)
    ensures !Watched(r, p) ==> KeyOf("repository", r.id, "capacity-low") !in now
  {
    hide Key.Text, KeyOf, KeyOf;
    Spelled("repository", r.id, "capacity-low");
  }

  lemma ForecastFollows(now: Ledger, was: Ledger, r: Repository, p: CapacityPolicy, f: Facts, c: Clock)
    requires Obeys(now, was, Decision(Key("repository", r.id, "capacity-forecast").Text(), ForecastVerdict(r, p, ForecastOf(f, p, r.id), c)))
    ensures Watched(r, p) ==> ForecastRule(now, r, p, f.forecasts, c)
    ensures !Watched(r, p) ==> KeyOf("repository", r.id, "capacity-forecast") !in now
  {
    hide Key.Text, KeyOf, Obeys;
    var key := Key("repository", r.id, "capacity-forecast");
    Spelled("repository", r.id, "capacity-forecast");
    var forecast := ForecastOf(f, p, r.id);
    if Watched(r, p) && Measured(r) && 0 < p.warningDays && forecast.Ready? && forecast.exhaustedAt.Some? {
      var (at, name) := (forecast.exhaustedAt.value, if r.name == "" then r.id else r.name);
      assert DAY == 86_400_000_000_000;
      ObeysIf(now, was, key, at <= c.now + p.warningDays * DAY, "repository_capacity_forecast", Warning, name, ExhaustedAt(at), c);
    } else {
      ObeysResolve(now, was, key.Text());
    }
  }

  lemma ObeysResolve(now: Ledger, was: Ledger, key: string)
    requires Obeys(now, was, Decision(key, Resolve))
    ensures key !in now
  {}

  lemma ObeysIf(now: Ledger, was: Ledger, key: Key, bad: bool, kind: string, severity: Severity, name: string, note: Note, c: Clock)
    requires Obeys(now, was, Decision(key.Text(), RaiseIf(bad, key, kind, severity, name, note, c)))
    ensures ShowsIf(now, bad, Signal(key.Text(), kind, severity, key.id, name, c.render(kind, note)))
  {
    hide Key.Text, KeyOf, KeyOf;
  }

  lemma CapacityStaleFollows(now: Ledger, was: Ledger, r: Repository, p: CapacityPolicy, c: Clock)
    requires Obeys(now, was, Decision(Key("repository", r.id, "capacity-stale").Text(), CapacityStaleVerdict(r, p, c)))
    ensures Watched(r, p) ==> CapacityStaleRule(now, r, p, c)
    ensures !Watched(r, p) ==> KeyOf("repository", r.id, "capacity-stale") !in now
  {
    hide Key.Text, KeyOf, KeyOf;
    Spelled("repository", r.id, "capacity-stale");
  }

  lemma ProbeFollows(now: Ledger, was: Ledger, r: Repository, p: CapacityPolicy, c: Clock)
    requires Obeys(now, was, Decision(Key("repository", r.id, "capacity-probe").Text(), ProbeVerdict(r, p, c)))
    ensures Watched(r, p) ==> ProbeRule(now, r, p, c)
    ensures !Watched(r, p) ==> KeyOf("repository", r.id, "capacity-probe") !in now
  {
    hide Key.Text, KeyOf, KeyOf;
    Spelled("repository", r.id, "capacity-probe");
  }

  lemma CapacityFollows(now: Ledger, was: Ledger, f: Facts, r: Repository, p: CapacityPolicy, c: Clock)
    requires forall d :: d in RepositoryDecisions(r, p, ForecastOf(f, p, r.id), c) ==> Obeys(now, was, d)
    ensures CapacityRules(now, r, p, f.forecasts, c)
  {
    hide Key.Text, KeyOf, Obeys, IntegrityVerdict, LowVerdict, ForecastVerdict, CapacityStaleVerdict, ProbeVerdict, ForecastOf,
         LowRule, ForecastRule, CapacityStaleRule, ProbeRule;
    var ds := RepositoryDecisions(r, p, ForecastOf(f, p, r.id), c);
    assert ds[1] in ds && ds[2] in ds && ds[3] in ds && ds[4] in ds;
    LowFollows(now, was, r, p, c);
    ForecastFollows(now, was, r, p, f, c);
    CapacityStaleFollows(now, was, r, p, c);
    ProbeFollows(now, was, r, p, c);
  }

  /** The policies that name a repository, the last of which counts. */
  lemma {:induction false} PolicyGoverns(policies: seq<CapacityPolicy>, id: string)
    ensures forall i: nat :: Governs(policies, i, id) ==> PolicyOf(policies, id) == policies[i]
    ensures (forall i :: 0 <= i < |policies| ==> policies[i].repositoryId != id) ==> PolicyOf(policies, id) == NO_POLICY
  {
    if policies != [] {
      var n := |policies| - 1;
      PolicyGoverns(policies[..n], id);
      forall i: nat | Governs(policies, i, id)
        ensures PolicyOf(policies, id) == policies[i]
      {
        if policies[n].repositoryId != id {
          assert Governs(policies[..n], i, id);
        } else {
          assert i == n;
        }
      }
    }
  }

  lemma RepositoryFollows(now: Ledger, was: Ledger, f: Facts, r: Repository, c: Clock)
    requires forall d :: d in OfRepository(f, c)(r) ==> Obeys(now, was, d)
    ensures RepositoryRules(now, was, f, r, c)
  {
    var p := PolicyOf(f.policies, r.id);
    hide Key.Text, KeyOf, Obeys, IntegrityVerdict, LowVerdict, ForecastVerdict, CapacityStaleVerdict, ProbeVerdict, ForecastOf,
         IntegrityRule, LowRule, ForecastRule, CapacityStaleRule, ProbeRule, PolicyOf, NoCapacityAlerts, Governs;
    var ds := RepositoryDecisions(r, p, ForecastOf(f, p, r.id), c);
    assert ds == OfRepository(f, c)(r) && ds[0] in ds;
    IntegrityFollows(now, was, r, c);
    CapacityFollows(now, was, f, r, p, c);
    PolicyGoverns(f.policies, r.id);
  }

  // Agents

  lemma OfflineFollows(now: Ledger, was: Ledger, a: Agent, c: Clock)
    requires Obeys(now, was, AgentDecisions(a, c)[0]) && Obeys(now, was, AgentDecisions(a, c)[1])
    ensures var serves := !a.revoked && !a.uninstalled;
      && ShowsIf(now, serves && !(a.status == "online" && a.lastHeartbeatAt.Some? && a.lastHeartbeatAt.value + 120_000_000_000 >= c.now),
                 Signal(KeyOf("agent", a.id, "offline"), "agent_offline", Critical, a.id, a.id, c.render("agent_offline", Heartbeat(a.lastHeartbeatAt))))
      && ShowsIf(now, serves && (a.protocolMin < 1 || a.protocolMin > 1 || a.protocolMax < 1),
                 Signal(KeyOf("agent", a.id, "protocol"), "agent_protocol", Warning, a.id, a.id,
                        c.render("agent_protocol", Protocols(a.protocolMin, a.protocolMax))))
  {
    hide Key.Text, KeyOf, KeyOf;
    Spelled("agent", a.id, "offline");
    Spelled("agent", a.id, "protocol");
  }

  lemma ExpiryFollows(now: Ledger, was: Ledger, a: Agent, c: Clock)
    requires Obeys(now, was, Decision(Key("agent", a.id, "certificate-expiry").Text(), CertificateVerdict(a, c)))
    ensures ExpiryRule(now, a, c)
  {
    hide Key.Text, KeyOf, KeyOf;
    Spelled("agent", a.id, "certificate-expiry");
  }

  lemma RenewalFollows(now: Ledger, was: Ledger, a: Agent, c: Clock)
    requires Obeys(now, was, AgentDecisions(a, c)[3])
    ensures ShowsIf(now, !a.revoked && !a.uninstalled && a.renewalStatus == "failed",
                    Signal(KeyOf("agent", a.id, "certificate-renewal"), "agent_certificate_renewal", Warning, a.id, a.id,
                           c.render("agent_certificate_renewal", RenewalFailed)))
  {
    hide Key.Text, KeyOf, KeyOf;
    Spelled("agent", a.id, "certificate-renewal");
  }

  lemma AgentFollows(now: Ledger, was: Ledger, a: Agent, c: Clock)
    requires forall d :: d in AgentDecisions(a, c) ==> Obeys(now, was, d)
    ensures AgentRules(now, a, c)
  {
    var ds := AgentDecisions(a, c);
    assert ds[0] in ds && ds[1] in ds && ds[2] in ds && ds[3] in ds;
    assert ds[2] == Decision(Key("agent", a.id, "certificate-expiry").Text(), CertificateVerdict(a, c));
    hide Key.Text, KeyOf, Obeys, ExpiryRule, CertificateVerdict, ShowsIf, AgentDecisions;
    OfflineFollows(now, was, a, c);
    ExpiryFollows(now, was, a, c);
    RenewalFollows(now, was, a, c);
  }

  // Schedules

  lemma ScheduleFollows(now: Ledger, was: Ledger, enabled: bool, key: Key, kind: string, name: string, o: Option<Occurrence>, c: Clock)
    requires Obeys(now, was, Decision(key.Text(), ScheduleVerdict(enabled, key, kind, name, if o.Some? then o.value else NO_OCCURRENCE, c)))
    ensures ScheduleRule(now, was, enabled, key.Text(), kind, key.id, name, o, c)
  {
    hide Key.Text, KeyOf, KeyOf;
  }

  lemma PlanFollows(now: Ledger, was: Ledger, f: Facts, p: Plan, c: Clock)
    requires forall d :: d in PlanDecisions(p, Or(f.planOccurrences, p.id, NO_OCCURRENCE), c) ==> Obeys(now, was, d)
    ensures ScheduleRule(now, was, p.enabled, KeyOf("plan", p.id, "schedule"), "plan_schedule", p.id, p.name, At(f.planOccurrences, p.id), c)
  {
    hide Key.Text, KeyOf, Obeys, ScheduleRule, ScheduleVerdict;
    var key := Key("plan", p.id, "schedule");
    var ds := PlanDecisions(p, Or(f.planOccurrences, p.id, NO_OCCURRENCE), c);
    assert ds[0] in ds;
    Spelled("plan", p.id, "schedule");
    ScheduleFollows(now, was, p.enabled, key, "plan_schedule", p.name, At(f.planOccurrences, p.id), c);
  }

  lemma {:induction false} RepositoryIsCalled(f: Facts, repositories: seq<Repository>, id: string)
    ensures RepositoryName(repositories, id) == "" || exists r :: r in repositories && r.id == id && r.name == RepositoryName(repositories, id)
    ensures (exists r :: r in repositories && r.id == id) ==> exists r :: r in repositories && r.id == id && r.name == RepositoryName(repositories, id)
  {
    if repositories != [] {
      var n := |repositories| - 1;
      RepositoryIsCalled(f, repositories[..n], id);
      assert repositories == repositories[..n] + [repositories[n]];
      assert repositories[n] in repositories;
    }
  }

  lemma {:induction false} TaskIsCalled(tasks: seq<Task>, id: string)
    ensures TaskName(tasks, id) == "" || exists t :: t in tasks && t.id == id && t.name == TaskName(tasks, id)
    ensures (exists t :: t in tasks && t.id == id) ==> exists t :: t in tasks && t.id == id && t.name == TaskName(tasks, id)
  {
    if tasks != [] {
      var n := |tasks| - 1;
      TaskIsCalled(tasks[..n], id);
      assert tasks == tasks[..n] + [tasks[n]];
      assert tasks[n] in tasks;
    }
  }

  lemma MaintenanceFollows(now: Ledger, was: Ledger, f: Facts, p: Maintenance, c: Clock)
    requires forall d :: d in OfMaintenance(f, c)(p) ==> Obeys(now, was, d)
    ensures MaintenanceRule(now, was, f, p, c)
  {
    hide Key.Text, KeyOf, Obeys, ScheduleRule, ScheduleVerdict, RepositoryName;
    var key := Key("maintenance", p.repositoryId, "schedule");
    var called := NameOr(RepositoryName(f.repositories, p.repositoryId), p.repositoryId);
    var ds := MaintenanceDecisions(p, called, Or(f.maintenanceOccurrences, p.repositoryId, NO_OCCURRENCE), c);
    assert ds[0] in ds;
    Spelled("maintenance", p.repositoryId, "schedule");
    RepositoryIsCalled(f, f.repositories, p.repositoryId);
    ScheduleFollows(now, was, p.enabled, key, "maintenance_schedule", called, At(f.maintenanceOccurrences, p.repositoryId), c);
    forall name | RepositoryCalled(f, p.repositoryId, name)
      ensures name == called
    {}
  }

  // Restore verification

  lemma VerificationScheduleFollows(now: Ledger, was: Ledger, p: Verification, name: string, o: Option<Occurrence>, c: Clock)
    requires var (key, occurrence) := (Key("restore-verification", p.taskId, "schedule"), if o.Some? then o.value else NO_OCCURRENCE);
      Obeys(now, was, Decision(key.Text(), if !p.enabled then Resolve
            else OccurrenceVerdict(key, "restore_verification_schedule", CancelledIsInfo(occurrence.status), name, occurrence, c)))
    ensures VerificationScheduleRule(now, was, p, name, o, c)
  {
    hide Key.Text, KeyOf, KeyOf;
    Spelled("restore-verification", p.taskId, "schedule");
  }

  lemma VerificationStaleFollows(now: Ledger, was: Ledger, p: Verification, name: string, success: Option<Record>, c: Clock)
    requires var (key, record) := (Key("restore-verification", p.taskId, "stale"), if success.Some? then success.value else NO_RECORD);
      Obeys(now, was, Decision(key.Text(), RaiseIf(p.enabled && Overdue(p.updatedAt, SuccessTime(record), p.maximumAgeHours * HOUR, c.now),
            key, "restore_verification_stale", Critical, name, NoSuccessFor(p.maximumAgeHours), c)))
    ensures VerificationStaleRule(now, p, name, success, c)
  {
    hide Key.Text, KeyOf, KeyOf;
    Spelled("restore-verification", p.taskId, "stale");
  }

  lemma ResultFollows(now: Ledger, was: Ledger, p: Verification, name: string, latest: Option<Record>, c: Clock)
    requires Obeys(now, was, Decision(Key("restore-verification", p.taskId, "result").Text(),
                                      ResultVerdict(p.taskId, name, if latest.Some? then latest.value else NO_RECORD, c)))
    ensures ResultRule(now, was, p, name, latest, c)
  {
    hide Key.Text, KeyOf, KeyOf;
    Spelled("restore-verification", p.taskId, "result");
  }

  lemma CleanupFollows(now: Ledger, was: Ledger, p: Verification, name: string, cleanup: Option<Record>, c: Clock)
    requires var (key, record) := (Key("restore-verification", p.taskId, "cleanup"), if cleanup.Some? then cleanup.value else NO_RECORD);
      Obeys(now, was, Decision(key.Text(), RaiseIf(record.id != "", key, "restore_verification_cleanup", Critical, name, CleanupPending, c)))
    ensures CleanupRule(now, p, name, cleanup, c)
  {
    hide Key.Text, KeyOf, KeyOf;
    Spelled("restore-verification", p.taskId, "cleanup");
  }

  lemma NamedVerificationFollows(now: Ledger, was: Ledger, f: Facts, p: Verification, name: string, c: Clock)
    requires var ds := VerificationDecisions(p, name, Or(f.verificationOccurrences, p.taskId, NO_OCCURRENCE), Or(f.latest, p.taskId, NO_RECORD),
                                             Or(f.latestSuccess, p.taskId, NO_RECORD), Or(f.cleanup, p.taskId, NO_RECORD), c);
      Obeys(now, was, ds[0]) && Obeys(now, was, ds[1]) && Obeys(now, was, ds[2]) && Obeys(now, was, ds[3])
    ensures NamedVerificationRules(now, was, f, p, name, c)
  {
    hide Key.Text, KeyOf, Obeys, OccurrenceVerdict, RaiseIf, ResultVerdict, SuccessTime, CancelledIsInfo, Overdue,
         VerificationScheduleRule, VerificationStaleRule, ResultRule, CleanupRule;
    VerificationScheduleFollows(now, was, p, name, At(f.verificationOccurrences, p.taskId), c);
    VerificationStaleFollows(now, was, p, name, At(f.latestSuccess, p.taskId), c);
    ResultFollows(now, was, p, name, At(f.latest, p.taskId), c);
    CleanupFollows(now, was, p, name, At(f.cleanup, p.taskId), c);
  }

  lemma TaskCalledIsName(f: Facts, id: string, name: string)
    requires TaskCalled(f, id, name)
    ensures name == NameOr(TaskName(f.tasks, id), id)
  {
    hide TaskName;
    TaskIsCalled(f.tasks, id);
  }

  lemma VerificationFollows(now: Ledger, was: Ledger, f: Facts, p: Verification, c: Clock)
    requires forall d :: d in OfVerification(f, c)(p) ==> Obeys(now, was, d)
    ensures VerificationRules(now, was, f, p, c)
  {
    hide Obeys, NameOr, TaskName, TaskCalled, NamedVerificationRules, VerificationDecisions, Or;
    forall name | TaskCalled(f, p.taskId, name)
      ensures NamedVerificationRules(now, was, f, p, name, c)
    {
      TaskCalledIsName(f, p.taskId, name);
      var ds := OfVerification(f, c)(p);
      FourVerificationDecisions(f, p, name, c);
      assert ds[0] in ds && ds[1] in ds && ds[2] in ds && ds[3] in ds;
      NamedVerificationFollows(now, was, f, p, name, c);
    }
  }

  lemma FourVerificationDecisions(f: Facts, p: Verification, name: string, c: Clock)
    ensures |VerificationDecisions(p, name, Or(f.verificationOccurrences, p.taskId, NO_OCCURRENCE), Or(f.latest, p.taskId, NO_RECORD),
                                   Or(f.latestSuccess, p.taskId, NO_RECORD), Or(f.cleanup, p.taskId, NO_RECORD), c)| == 4
  {}

  // ----- All decisions

  /** What a reconciliation without a store error has done to the key of a decision. */
  lemma DecisionIsObeyed(now: Ledger, was: Ledger, ds: seq<Decision>, replies: string -> Reply, d: Decision)
    requires Distinct(ds) && d in ds && d.key != CHANNEL.Text() && !replies(d.key).storeFails
    requires Reconciled(now, was, ds, replies)
    ensures Obeys(now, was, d)
  {
    hide Key.Text, KeyOf, VerdictFor, Wanted, Lookup, Distinct;
    VerdictOfMember(ds, d);
  }

  lemma {:induction false} CollectOnly<T>(items: seq<T>, decide: T -> seq<Decision>, d: Decision)
    requires d in Collect(items, decide)
    ensures exists item :: item in items && d in decide(item)
  {
    var n := |items| - 1;
    if d !in decide(items[n]) {
      CollectOnly(items[..n], decide, d);
    }
  }

  lemma MembersOfDecisions(f: Facts, c: Clock, d: Decision)
    ensures d in Decisions(f, c) <==>
      || d in Collect(f.tasks, OfTask(f, c)) || d in Collect(f.repositories, OfRepository(f, c)) || d in Collect(f.agents, OfAgent(c))
      || d in Collect(f.plans, OfPlan(f, c)) || d in Collect(f.maintenance, OfMaintenance(f, c))
      || d in Collect(f.verifications, OfVerification(f, c))
  {
    hide Collect;
  }

  /** Every decision is about a listed object. */
  lemma DecisionHasObject(f: Facts, c: Clock, d: Decision)
    requires d in Decisions(f, c)
    ensures HasObject(f, d.key)
  {
    hide Collect, KeyOf, TaskKey, RepositoryKey, AgentKey, VerificationKey, TaskDecisions, RepositoryDecisions, AgentDecisions, PlanDecisions, MaintenanceDecisions, VerificationDecisions,
         Decisions, NameOr, Or, PolicyOf, ForecastOf, TaskName, RepositoryName;
    MembersOfDecisions(f, c, d);
    if d in Collect(f.tasks, OfTask(f, c)) {
      CollectOnly(f.tasks, OfTask(f, c), d);
      var t :| t in f.tasks && d in OfTask(f, c)(t);
      TaskKeyed(t, Or(f.runHealth, t.id, NO_HEALTH), c, d);
    } else if d in Collect(f.repositories, OfRepository(f, c)) {
      CollectOnly(f.repositories, OfRepository(f, c), d);
      var r :| r in f.repositories && d in OfRepository(f, c)(r);
      RepositoryKeyed(r, PolicyOf(f.policies, r.id), ForecastOf(f, PolicyOf(f.policies, r.id), r.id), c, d);
    } else if d in Collect(f.agents, OfAgent(c)) {
      CollectOnly(f.agents, OfAgent(c), d);
      var a :| a in f.agents && d in OfAgent(c)(a);
      AgentKeyed(a, c, d);
    } else if d in Collect(f.plans, OfPlan(f, c)) {
      CollectOnly(f.plans, OfPlan(f, c), d);
      var p :| p in f.plans && d in OfPlan(f, c)(p);
      PlanKeyed(p, Or(f.planOccurrences, p.id, NO_OCCURRENCE), c, d);
    } else if d in Collect(f.maintenance, OfMaintenance(f, c)) {
      CollectOnly(f.maintenance, OfMaintenance(f, c), d);
      var p :| p in f.maintenance && d in OfMaintenance(f, c)(p);
      MaintenanceKeyed(p, NameOr(RepositoryName(f.repositories, p.repositoryId), p.repositoryId),
                           Or(f.maintenanceOccurrences, p.repositoryId, NO_OCCURRENCE), c, d);
    } else {
      CollectOnly(f.verifications, OfVerification(f, c), d);
      var p :| p in f.verifications && d in OfVerification(f, c)(p);
      VerificationKeyed(p, NameOr(TaskName(f.tasks, p.taskId), p.taskId), Or(f.verificationOccurrences, p.taskId, NO_OCCURRENCE),
                            Or(f.latest, p.taskId, NO_RECORD), Or(f.latestSuccess, p.taskId, NO_RECORD), Or(f.cleanup, p.taskId, NO_RECORD), c, d);
    }
  }

  lemma TaskKeyed(t: Task, h: RunHealth, c: Clock, d: Decision)
    requires d in TaskDecisions(t, h, c)
    ensures TaskKey(d.key, t.id)
  {
    hide Key.Text, KeyOf, RunVerdict, TaskStaleVerdict;
    Spelled("task", t.id, "run");
    Spelled("task", t.id, "stale");
  }

  lemma RepositoryKeyed(r: Repository, p: CapacityPolicy, forecast: Forecast, c: Clock, d: Decision)
    requires d in RepositoryDecisions(r, p, forecast, c)
    ensures RepositoryKey(d.key, r.id)
  {
    hide Key.Text, KeyOf, IntegrityVerdict, LowVerdict, ForecastVerdict, CapacityStaleVerdict, ProbeVerdict;
    Spelled("repository", r.id, "integrity");
    Spelled("repository", r.id, "capacity-low");
    Spelled("repository", r.id, "capacity-forecast");
    Spelled("repository", r.id, "capacity-stale");
    Spelled("repository", r.id, "capacity-probe");
  }

  lemma AgentKeyed(a: Agent, c: Clock, d: Decision)
    requires d in AgentDecisions(a, c)
    ensures AgentKey(d.key, a.id)
  {
    hide Key.Text, KeyOf, RaiseIf, CertificateVerdict;
    Spelled("agent", a.id, "offline");
    Spelled("agent", a.id, "protocol");
    Spelled("agent", a.id, "certificate-expiry");
    Spelled("agent", a.id, "certificate-renewal");
  }

  lemma PlanKeyed(p: Plan, o: Occurrence, c: Clock, d: Decision)
    requires d in PlanDecisions(p, o, c)
    ensures d.key == KeyOf("plan", p.id, "schedule")
  {
    hide Key.Text, KeyOf, ScheduleVerdict;
    Spelled("plan", p.id, "schedule");
  }

  lemma MaintenanceKeyed(p: Maintenance, name: string, o: Occurrence, c: Clock, d: Decision)
    requires d in MaintenanceDecisions(p, name, o, c)
    ensures d.key == KeyOf("maintenance", p.repositoryId, "schedule")
  {
    hide Key.Text, KeyOf, ScheduleVerdict;
    Spelled("maintenance", p.repositoryId, "schedule");
  }

  lemma VerificationKeyed(p: Verification, name: string, o: Occurrence, latest: Record, success: Record, cleanup: Record, c: Clock, d: Decision)
    requires d in VerificationDecisions(p, name, o, latest, success, cleanup, c)
    ensures VerificationKey(d.key, p.taskId)
  {
    hide Key.Text, KeyOf, OccurrenceVerdict, RaiseIf, ResultVerdict, SuccessTime;
    Spelled("restore-verification", p.taskId, "schedule");
    Spelled("restore-verification", p.taskId, "stale");
    Spelled("restore-verification", p.taskId, "result");
    Spelled("restore-verification", p.taskId, "cleanup");
  }

  lemma RemovalFollows(now: Ledger, was: Ledger, f: Facts, c: Clock, replies: string -> Reply, key: string)
    requires Reconciled(now, was, Decisions(f, c), replies) && !replies(key).storeFails
    requires key != CHANNEL.Text() && !HasObject(f, key)
    ensures RemovalRule(now, was, key)
  {
    hide Key.Text, KeyOf, HasObject, VerdictFor, Decisions;
    VerdictHasMember(Decisions(f, c), key);
    if VerdictFor(Decisions(f, c), key).Some? {
      DecisionHasObject(f, c, Decision(key, VerdictFor(Decisions(f, c), key).value));
    }
  }

  /** After a reconciliation of these facts without a store error the alerts are as the facts say. */
  lemma ReconciledFollowsTheFacts(now: Ledger, was: Ledger, f: Facts, c: Clock, replies: string -> Reply)
    requires PrimaryKeys(f) && forall key: string :: !replies(key).storeFails
    requires Reconciled(now, was, Decisions(f, c), replies)
    ensures FollowsTheFacts(now, was, f, c)
  {
    hide Key.Text, KeyOf, Reconciled, Obeys, Collect, HasObject, Decisions, Distinct, TaskRules, RepositoryRules, AgentRules, ScheduleRule,
         MaintenanceRule, VerificationRules, RemovalRule, TaskDecisions, RepositoryDecisions, AgentDecisions, PlanDecisions,
         MaintenanceDecisions, VerificationDecisions, PrimaryKeys, Spread, PolicyOf, ForecastOf, Or, NameOr, TaskName, RepositoryName;
    AllObeyed(now, was, f, c, replies);
    forall t | t in f.tasks ensures TaskRules(now, was, f, t, c) {
      forall d | d in OfTask(f, c)(t) ensures Obeys(now, was, d) { CollectHas(f.tasks, OfTask(f, c), t, d); MembersOfDecisions(f, c, d); }
      TaskFollows(now, was, f, t, c);
    }
    forall r | r in f.repositories ensures RepositoryRules(now, was, f, r, c) {
      forall d | d in OfRepository(f, c)(r) ensures Obeys(now, was, d) { CollectHas(f.repositories, OfRepository(f, c), r, d); MembersOfDecisions(f, c, d); }
      RepositoryFollows(now, was, f, r, c);
    }
    forall a | a in f.agents ensures AgentRules(now, a, c) {
      forall d | d in OfAgent(c)(a) ensures Obeys(now, was, d) { CollectHas(f.agents, OfAgent(c), a, d); MembersOfDecisions(f, c, d); }
      AgentFollows(now, was, a, c);
    }
    forall p | p in f.plans
      ensures ScheduleRule(now, was, p.enabled, KeyOf("plan", p.id, "schedule"), "plan_schedule", p.id, p.name, At(f.planOccurrences, p.id), c)
    {
      forall d | d in OfPlan(f, c)(p) ensures Obeys(now, was, d) { CollectHas(f.plans, OfPlan(f, c), p, d); MembersOfDecisions(f, c, d); }
      PlanFollows(now, was, f, p, c);
    }
    forall p | p in f.maintenance ensures MaintenanceRule(now, was, f, p, c) {
      forall d | d in OfMaintenance(f, c)(p) ensures Obeys(now, was, d) { CollectHas(f.maintenance, OfMaintenance(f, c), p, d); MembersOfDecisions(f, c, d); }
      MaintenanceFollows(now, was, f, p, c);
    }
    forall p | p in f.verifications ensures VerificationRules(now, was, f, p, c) {
      forall d | d in OfVerification(f, c)(p) ensures Obeys(now, was, d) { CollectHas(f.verifications, OfVerification(f, c), p, d); MembersOfDecisions(f, c, d); }
      VerificationFollows(now, was, f, p, c);
    }
    ChannelSpelled();
    forall key: string | key != KeyOf("notification", "channels", "delivery") && !HasObject(f, key) ensures RemovalRule(now, was, key) {
      RemovalFollows(now, was, f, c, replies, key);
    }
  }

  lemma ChannelSpelled()
    ensures CHANNEL.Text() == KeyOf("notification", "channels", "delivery")
  {
    Spelled("notification", "channels", "delivery");
  }

  lemma ForecastIsLacking(f: Facts, r: Repository)
    ensures LacksForecast(f, r) <==> Forecasting(PolicyOf(f.policies, r.id)) && r.id !in f.forecasts
  {
    hide PolicyOf, Governs;
    PolicyGoverns(f.policies, r.id);
    SomePolicyGoverns(f.policies, r.id);
  }

  lemma {:induction false} SomePolicyGoverns(policies: seq<CapacityPolicy>, id: string)
    ensures (exists i: nat :: Governs(policies, i, id)) || forall i :: 0 <= i < |policies| ==> policies[i].repositoryId != id
  {
    if policies != [] {
      var n := |policies| - 1;
      if policies[n].repositoryId == id {
        assert Governs(policies, n, id);
      } else {
        SomePolicyGoverns(policies[..n], id);
        if i: nat :| Governs(policies[..n], i, id) {
          assert Governs(policies, i, id);
        }
      }
    }
  }

  /** The decisions on tasks and the first `n` repositories. */
  ghost function DecisionsBefore(f: Facts, n: nat, c: Clock): seq<Decision>
    requires n <= |f.repositories|
  {
    Collect(f.tasks, OfTask(f, c)) + Collect(f.repositories[..n], OfRepository(f, c))
  }

  /** A run that stopped early, without a store error. */
  lemma AdvancedIsStopped(now: Ledger, was: Ledger, f: Facts, n: nat, c: Clock, replies: string -> Reply)
    requires n < |f.repositories| && Distinct(DecisionsBefore(f, n, c)) && forall key: string :: !replies(key).storeFails
    requires Advanced(now, was, DecisionsBefore(f, n, c), replies)
    requires forall d :: d in DecisionsBefore(f, n, c) ==> d.key != CHANNEL.Text()
    requires Forecasting(PolicyOf(f.policies, f.repositories[n].id)) && f.repositories[n].id !in f.forecasts
    requires forall i :: 0 <= i < n ==> Forecasting(PolicyOf(f.policies, f.repositories[i].id)) ==> f.repositories[i].id in f.forecasts
    ensures StoppedAt(now, was, f, n, c)
  {
    hide Key.Text, KeyOf, Advanced, Obeys, Collect, HasObjectBefore, Distinct, TaskRules, RepositoryRules, LacksForecast, Forecasting,
         TaskDecisions, RepositoryDecisions, PolicyOf, ForecastOf, Or, NameOr, TaskName, RepositoryName;
    var ds := DecisionsBefore(f, n, c);
    forall d | d in ds ensures Obeys(now, was, d) {
      AdvancedIsObeyed(now, was, ds, replies, d);
    }
    ForecastIsLacking(f, f.repositories[n]);
    forall i | 0 <= i < n ensures !LacksForecast(f, f.repositories[i]) {
      ForecastIsLacking(f, f.repositories[i]);
    }
    forall t | t in f.tasks ensures TaskRules(now, was, f, t, c) {
      forall d | d in OfTask(f, c)(t) ensures Obeys(now, was, d) { CollectHas(f.tasks, OfTask(f, c), t, d); }
      TaskFollows(now, was, f, t, c);
    }
    forall i | 0 <= i < n ensures RepositoryRules(now, was, f, f.repositories[i], c) {
      var r := f.repositories[i];
      assert f.repositories[..n][i] == r;
      forall d | d in OfRepository(f, c)(r) ensures Obeys(now, was, d) { CollectHas(f.repositories[..n], OfRepository(f, c), r, d); }
      RepositoryFollows(now, was, f, r, c);
    }
    ChannelSpelled();
    forall key: string | key != KeyOf("notification", "channels", "delivery") && !HasObjectBefore(f, n, key)
      ensures AsBefore(now, was, key)
    {
      OtherIsAsBefore(now, was, f, n, c, replies, key);
    }
  }

  lemma AdvancedIsObeyed(now: Ledger, was: Ledger, ds: seq<Decision>, replies: string -> Reply, d: Decision)
    requires Distinct(ds) && d in ds && d.key != CHANNEL.Text() && !replies(d.key).storeFails && Advanced(now, was, ds, replies)
    ensures Obeys(now, was, d)
  {
    hide Key.Text, VerdictFor, Wanted, Lookup, Distinct;
    VerdictOfMember(ds, d);
    assert AdvancedAt(now, was, ds, replies, d.key);
  }

  lemma OtherIsAsBefore(now: Ledger, was: Ledger, f: Facts, n: nat, c: Clock, replies: string -> Reply, key: string)
    requires n <= |f.repositories| && Advanced(now, was, DecisionsBefore(f, n, c), replies)
    requires key != CHANNEL.Text() && !HasObjectBefore(f, n, key)
    ensures AsBefore(now, was, key)
  {
    hide Key.Text, KeyOf, VerdictFor, Collect, TaskKey, RepositoryKey, TaskDecisions, RepositoryDecisions, PolicyOf, ForecastOf, Or;
    var ds := DecisionsBefore(f, n, c);
    VerdictHasMember(ds, key);
    assert AdvancedAt(now, was, ds, replies, key);
    if VerdictFor(ds, key).Some? {
      var d := Decision(key, VerdictFor(ds, key).value);
      if d in Collect(f.tasks, OfTask(f, c)) {
        CollectOnly(f.tasks, OfTask(f, c), d);
        var t :| t in f.tasks && d in OfTask(f, c)(t);
        TaskKeyed(t, Or(f.runHealth, t.id, NO_HEALTH), c, d);
      } else {
        CollectOnly(f.repositories[..n], OfRepository(f, c), d);
        var r :| r in f.repositories[..n] && d in OfRepository(f, c)(r);
        RepositoryKeyed(r, PolicyOf(f.policies, r.id), ForecastOf(f, PolicyOf(f.policies, r.id), r.id), c, d);
      }
    }
  }

  lemma AllObeyed(now: Ledger, was: Ledger, f: Facts, c: Clock, replies: string -> Reply)
    requires PrimaryKeys(f) && forall key: string :: !replies(key).storeFails
    requires Reconciled(now, was, Decisions(f, c), replies)
    ensures forall d :: d in Decisions(f, c) ==> Obeys(now, was, d)
  {
    hide Key.Text, KeyOf, Reconciled, Obeys, Decisions, Distinct, PrimaryKeys;
    NoVerdictOnChannel(f, c);
    forall d | d in Decisions(f, c) ensures Obeys(now, was, d) {
      DecisionIsObeyed(now, was, Decisions(f, c), replies, d);
    }
  }
}
