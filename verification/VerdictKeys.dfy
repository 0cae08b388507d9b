/** Every key gets at most one verdict, and only from an object that exists. */
module VerdictKeys {
  import opened Alerts
  import opened Verdicts
  import opened Wrappers

  ghost predicate Distinct(ds: seq<Decision>) {
    forall i, j :: 0 <= i < j < |ds| ==> ds[i].key != ds[j].key
  }

  /** `text` is a key about the object `id`. */
  ghost predicate About(text: string, subject: string, id: string) {
    exists aspect: string :: ':' !in aspect && text == Key(subject, id, aspect).Text()
  }

  lemma AboutOne(text: string, subject: string, id: string, other: string, otherId: string)
    requires ':' !in subject && ':' !in other
    requires About(text, subject, id) && About(text, other, otherId)
    ensures subject == other && id == otherId
  {
    var a: string :| ':' !in a && text == Key(subject, id, a).Text();
    var b: string :| ':' !in b && text == Key(other, otherId, b).Text();
    TextIsInjective(Key(subject, id, a), Key(other, otherId, b));
  }

  /** The decisions about one object: different keys, all about it. */
  ghost predicate OneObject(ds: seq<Decision>, subject: string, id: string) {
    Distinct(ds) && forall d :: d in ds ==> About(d.key, subject, id)
  }

  ghost predicate HasAspects(ds: seq<Decision>, subject: string, id: string, aspects: seq<string>) {
    && |aspects| == |ds| && Aspects(aspects)
    && (forall i :: 0 <= i < |ds| ==> ds[i].key == Key(subject, id, aspects[i]).Text())
  }

  ghost predicate Aspects(aspects: seq<string>) {
    && (forall i :: 0 <= i < |aspects| ==> ':' !in aspects[i])
    && (forall i, j :: 0 <= i < j < |aspects| ==> aspects[i] != aspects[j])
  }

  lemma AspectsOfRepositories()
    ensures Aspects(["integrity", "capacity-low", "capacity-forecast", "capacity-stale", "capacity-probe"])
  {
    assert |"integrity"| == 9 && |"capacity-low"| == 12 && |"capacity-forecast"| == 17;
    assert |"capacity-stale"| == 14 && |"capacity-probe"| == 14 && "capacity-stale"[9] == 's' && "capacity-probe"[9] == 'p';
  }

  lemma AspectsOfAgents()
    ensures Aspects(["offline", "protocol", "certificate-expiry", "certificate-renewal"])
  {
    assert |"offline"| == 7 && |"protocol"| == 8 && |"certificate-expiry"| == 18 && |"certificate-renewal"| == 19;
  }

  lemma AspectsDiffer(ds: seq<Decision>, subject: string, id: string, aspects: seq<string>)
    requires ':' !in subject
    requires HasAspects(ds, subject, id, aspects)
    ensures OneObject(ds, subject, id)
  {
    hide Key.Text;
    forall i, j | 0 <= i < j < |ds|
      ensures ds[i].key != ds[j].key
    {
      if ds[i].key == ds[j].key {
        TextIsInjective(Key(subject, id, aspects[i]), Key(subject, id, aspects[j]));
        assert false;
      }
    }
    forall d | d in ds
      ensures About(d.key, subject, id)
    {
      var i :| 0 <= i < |ds| && ds[i] == d;
    }
  }

  lemma TaskKeys(t: Task, h: RunHealth, c: Clock)
    ensures OneObject(TaskDecisions(t, h, c), "task", t.id)
  {
    hide Key.Text, RunVerdict, TaskStaleVerdict;
    AspectsDiffer(TaskDecisions(t, h, c), "task", t.id, ["run", "stale"]);
  }

  lemma RepositoryKeys(r: Repository, p: CapacityPolicy, forecast: Forecast, c: Clock)
    ensures OneObject(RepositoryDecisions(r, p, forecast, c), "repository", r.id)
  {
    hide Key.Text, IntegrityVerdict, LowVerdict, ForecastVerdict, CapacityStaleVerdict, ProbeVerdict, Aspects;
    AspectsOfRepositories();
    AspectsDiffer(RepositoryDecisions(r, p, forecast, c), "repository", r.id,
                  ["integrity", "capacity-low", "capacity-forecast", "capacity-stale", "capacity-probe"]);
  }

  lemma AgentKeys(a: Agent, c: Clock)
    ensures OneObject(AgentDecisions(a, c), "agent", a.id)
  {
    hide Key.Text, RaiseIf, CertificateVerdict, Aspects;
    AspectsOfAgents();
    AspectsDiffer(AgentDecisions(a, c), "agent", a.id, ["offline", "protocol", "certificate-expiry", "certificate-renewal"]);
  }

  lemma PlanKeys(p: Plan, o: Occurrence, c: Clock)
    ensures OneObject(PlanDecisions(p, o, c), "plan", p.id)
  {
    hide Key.Text, ScheduleVerdict;
    AspectsDiffer(PlanDecisions(p, o, c), "plan", p.id, ["schedule"]);
  }

  lemma MaintenanceKeys(p: Maintenance, name: string, o: Occurrence, c: Clock)
    ensures OneObject(MaintenanceDecisions(p, name, o, c), "maintenance", p.repositoryId)
  {
    hide Key.Text, ScheduleVerdict;
    AspectsDiffer(MaintenanceDecisions(p, name, o, c), "maintenance", p.repositoryId, ["schedule"]);
  }

  lemma VerificationKeys(p: Verification, name: string, o: Occurrence, latest: Record, success: Record,
       cleanup: Record, c: Clock)
    ensures OneObject(VerificationDecisions(p, name, o, latest, success, cleanup, c), "restore-verification", p.taskId)
  {
    hide Key.Text, OccurrenceVerdict, RaiseIf, ResultVerdict, SuccessTime;
    AspectsDiffer(VerificationDecisions(p, name, o, latest, success, cleanup, c), "restore-verification", p.taskId,
                  ["schedule", "stale", "result", "cleanup"]);
  }

  // ----- Lists of objects

  /** The decisions about a list of objects: different keys, each about a listed object. */
  ghost predicate Listed(ds: seq<Decision>, subject: string, ids: seq<string>) {
    Distinct(ds) && forall d :: d in ds ==> exists id :: id in ids && About(d.key, subject, id)
  }

  ghost predicate Different(ids: seq<string>) {
    forall i, j :: 0 <= i < j < |ids| ==> ids[i] != ids[j]
  }

  function Ids<T>(items: seq<T>, id: T -> string): (ids: seq<string>)
    ensures |ids| == |items| && forall i :: 0 <= i < |ids| ==> ids[i] == id(items[i])
  {
    seq(|items|, i requires 0 <= i < |items| => id(items[i]))
  }

  lemma {:induction false} CollectListed<T>(items: seq<T>, id: T -> string, decide: T -> seq<Decision>, subject: string)
    requires ':' !in subject
    requires Different(Ids(items, id))
    requires forall item :: item in items ==> OneObject(decide(item), subject, id(item))
    ensures Listed(Collect(items, decide), subject, Ids(items, id))
  {
    hide About, Distinct;
    if items == [] {
      NoneDistinct();
    } else {
      var n := |items| - 1;
      var (first, last, ids) := (Collect(items[..n], decide), decide(items[n]), Ids(items, id));
      assert Ids(items[..n], id) == ids[..n];
      CollectListed(items[..n], id, decide, subject);
      assert items[n] in items;
      forall d, e | d in first && e in last
        ensures d.key != e.key
      {
        var other :| other in ids[..n] && About(d.key, subject, other);
        if d.key == e.key {
          AboutOne(d.key, subject, other, subject, ids[n]);
          assert false;
        }
      }
      Join(first, last);
      forall d | d in first + last
        ensures exists x :: x in ids && About(d.key, subject, x)
      {
        if d in first {
          var x :| x in ids[..n] && About(d.key, subject, x);
          assert x in ids;
        } else {
          assert ids[n] in ids;
        }
      }
    }
  }

  lemma NoneDistinct()
    ensures Distinct([])
  {}

  lemma Join(a: seq<Decision>, b: seq<Decision>)
    requires Distinct(a) && Distinct(b)
    requires forall d, e :: d in a && e in b ==> d.key != e.key
    ensures Distinct(a + b)
  {
    var ds := a + b;
    forall i, j | 0 <= i < j < |ds|
      ensures ds[i].key != ds[j].key
    {
      if i < |a| <= j {
        assert ds[i] in a && ds[j] in b;
      }
    }
  }

  // ----- All the facts

  function TaskId(t: Task): string { t.id }
  function RepositoryId(r: Repository): string { r.id }
  function AgentId(a: Agent): string { a.id }
  function PlanId(p: Plan): string { p.id }
  function MaintenanceId(p: Maintenance): string { p.repositoryId }
  function VerificationId(p: Verification): string { p.taskId }

  /** The store's primary keys: an identifier is listed once. */
  ghost predicate PrimaryKeys(f: Facts) {
    && Different(Ids(f.tasks, TaskId)) && Different(Ids(f.repositories, RepositoryId)) && Different(Ids(f.agents, AgentId))
    && Different(Ids(f.plans, PlanId)) && Different(Ids(f.maintenance, MaintenanceId))
    && Different(Ids(f.verifications, VerificationId))
  }

  /** The facts list the object `id`. */
  ghost predicate Exists(f: Facts, subject: string, id: string) {
    || (subject == "task" && id in Ids(f.tasks, TaskId))
    || (subject == "repository" && id in Ids(f.repositories, RepositoryId))
    || (subject == "agent" && id in Ids(f.agents, AgentId))
    || (subject == "plan" && id in Ids(f.plans, PlanId))
    || (subject == "maintenance" && id in Ids(f.maintenance, MaintenanceId))
    || (subject == "restore-verification" && id in Ids(f.verifications, VerificationId))
  }

  ghost predicate AboutExisting(text: string, f: Facts, subjects: set<string>) {
    exists subject, id :: subject in subjects && Exists(f, subject, id) && About(text, subject, id)
  }

  ghost predicate Spread(ds: seq<Decision>, f: Facts, subjects: set<string>) {
    && Distinct(ds)
    && (forall s :: s in subjects ==> ':' !in s)
    && (forall d :: d in ds ==> AboutExisting(d.key, f, subjects))
  }

  lemma AddGroup(ds: seq<Decision>, f: Facts, subjects: set<string>, group: seq<Decision>, subject: string, ids: seq<string>)
    requires Spread(ds, f, subjects) && Listed(group, subject, ids)
    requires subject !in subjects && ':' !in subject
    requires forall id :: id in ids ==> Exists(f, subject, id)
    ensures Spread(ds + group, f, subjects + {subject})
  {
    hide About, Exists;
    forall d, e | d in ds && e in group
      ensures d.key != e.key
    {
      var s, x :| s in subjects && Exists(f, s, x) && About(d.key, s, x);
      var id :| id in ids && About(e.key, subject, id);
      if d.key == e.key {
        AboutOne(d.key, s, x, subject, id);
        assert false;
      }
    }
    Join(ds, group);
    forall d | d in ds + group
      ensures AboutExisting(d.key, f, subjects + {subject})
    {
      if d in ds {
        var s, x :| s in subjects && Exists(f, s, x) && About(d.key, s, x);
        assert s in subjects + {subject};
      } else {
        var id :| id in ids && About(d.key, subject, id);
        assert subject in subjects + {subject};
      }
    }
  }

  const SUBJECTS := {"task", "repository", "agent", "plan", "maintenance", "restore-verification"}

  lemma EachListed(f: Facts, c: Clock)
    requires PrimaryKeys(f)
    ensures Listed(Collect(f.tasks, OfTask(f, c)), "task", Ids(f.tasks, TaskId))
    ensures Listed(Collect(f.repositories, OfRepository(f, c)), "repository", Ids(f.repositories, RepositoryId))
    ensures Listed(Collect(f.agents, OfAgent(c)), "agent", Ids(f.agents, AgentId))
    ensures Listed(Collect(f.plans, OfPlan(f, c)), "plan", Ids(f.plans, PlanId))
    ensures Listed(Collect(f.maintenance, OfMaintenance(f, c)), "maintenance", Ids(f.maintenance, MaintenanceId))
    ensures Listed(Collect(f.verifications, OfVerification(f, c)), "restore-verification", Ids(f.verifications, VerificationId))
  {
    hide OneObject, Listed, Different, Collect, TaskDecisions, RepositoryDecisions, AgentDecisions, PlanDecisions,
         MaintenanceDecisions, VerificationDecisions, Or, PolicyOf, TaskName, RepositoryName, NameOr, ForecastOf;
    forall t | t in f.tasks ensures OneObject(OfTask(f, c)(t), "task", TaskId(t)) {
      TaskKeys(t, Or(f.runHealth, t.id, NO_HEALTH), c);
    }
    CollectListed(f.tasks, TaskId, OfTask(f, c), "task");
    forall r | r in f.repositories ensures OneObject(OfRepository(f, c)(r), "repository", RepositoryId(r)) {
      var p := PolicyOf(f.policies, r.id);
      RepositoryKeys(r, p, ForecastOf(f, p, r.id), c);
    }
    CollectListed(f.repositories, RepositoryId, OfRepository(f, c), "repository");
    forall a | a in f.agents ensures OneObject(OfAgent(c)(a), "agent", AgentId(a)) {
      AgentKeys(a, c);
    }
    CollectListed(f.agents, AgentId, OfAgent(c), "agent");
    forall p | p in f.plans ensures OneObject(OfPlan(f, c)(p), "plan", PlanId(p)) {
      PlanKeys(p, Or(f.planOccurrences, p.id, NO_OCCURRENCE), c);
    }
    CollectListed(f.plans, PlanId, OfPlan(f, c), "plan");
    forall p | p in f.maintenance ensures OneObject(OfMaintenance(f, c)(p), "maintenance", MaintenanceId(p)) {
      MaintenanceKeys(p, NameOr(RepositoryName(f.repositories, p.repositoryId), p.repositoryId),
                      Or(f.maintenanceOccurrences, p.repositoryId, NO_OCCURRENCE), c);
    }
    CollectListed(f.maintenance, MaintenanceId, OfMaintenance(f, c), "maintenance");
    forall p | p in f.verifications ensures OneObject(OfVerification(f, c)(p), "restore-verification", VerificationId(p)) {
      VerificationKeys(p, NameOr(TaskName(f.tasks, p.taskId), p.taskId), Or(f.verificationOccurrences, p.taskId, NO_OCCURRENCE),
                       Or(f.latest, p.taskId, NO_RECORD), Or(f.latestSuccess, p.taskId, NO_RECORD),
                       Or(f.cleanup, p.taskId, NO_RECORD), c);
    }
    CollectListed(f.verifications, VerificationId, OfVerification(f, c), "restore-verification");
  }

  /** No key is judged twice, and each verdict is about an object that exists. */
  lemma OneVerdictPerKey(f: Facts, c: Clock)
    requires PrimaryKeys(f)
    ensures Spread(Decisions(f, c), f, SUBJECTS)
  {
    EachListed(f, c);
    var (d1, d2, d3) := (Collect(f.tasks, OfTask(f, c)), Collect(f.repositories, OfRepository(f, c)),
         Collect(f.agents, OfAgent(c)));
    var (d4, d5, d6) := (Collect(f.plans, OfPlan(f, c)), Collect(f.maintenance, OfMaintenance(f, c)),
         Collect(f.verifications, OfVerification(f, c)));
    assert Decisions(f, c) == d1 + d2 + d3 + d4 + d5 + d6;
    assert Spread([], f, {});
    AddGroups(f, d1, d2, d3, d4, d5, d6);
  }

  lemma AddGroups(f: Facts, d1: seq<Decision>, d2: seq<Decision>, d3: seq<Decision>, d4: seq<Decision>,
       d5: seq<Decision>, d6: seq<Decision>)
    requires Spread([], f, {})
    requires Listed(d1, "task", Ids(f.tasks, TaskId))
    requires Listed(d2, "repository", Ids(f.repositories, RepositoryId))
    requires Listed(d3, "agent", Ids(f.agents, AgentId))
    requires Listed(d4, "plan", Ids(f.plans, PlanId))
    requires Listed(d5, "maintenance", Ids(f.maintenance, MaintenanceId))
    requires Listed(d6, "restore-verification", Ids(f.verifications, VerificationId))
    ensures Spread(d1 + d2 + d3 + d4 + d5 + d6, f, SUBJECTS)
  {
    hide Listed, Spread;
    AddGroup([], f, {}, d1, "task", Ids(f.tasks, TaskId));
    assert [] + d1 == d1 && {} + {"task"} == {"task"};
    AddGroup(d1, f, {"task"}, d2, "repository", Ids(f.repositories, RepositoryId));
    AddGroup(d1 + d2, f, {"task"} + {"repository"}, d3, "agent", Ids(f.agents, AgentId));
    AddGroup(d1 + d2 + d3, f, {"task"} + {"repository"} + {"agent"}, d4, "plan", Ids(f.plans, PlanId));
    AddGroup(d1 + d2 + d3 + d4, f, {"task"} + {"repository"} + {"agent"} + {"plan"}, d5, "maintenance", Ids(f.maintenance, MaintenanceId));
    AddGroup(d1 + d2 + d3 + d4 + d5, f, {"task"} + {"repository"} + {"agent"} + {"plan"} + {"maintenance"}, d6,
             "restore-verification", Ids(f.verifications, VerificationId));
    assert {"task"} + {"repository"} + {"agent"} + {"plan"} + {"maintenance"} + {"restore-verification"} == SUBJECTS;
  }

  // ----- Reading verdicts

  lemma {:induction false} VerdictOfMember(ds: seq<Decision>, d: Decision)
    requires Distinct(ds) && d in ds
    ensures VerdictFor(ds, d.key) == Some(d.verdict)
  {
    var n := |ds| - 1;
    if ds[n] != d {
      var i :| 0 <= i < |ds| && ds[i] == d;
      assert ds[..n][i] == d;
      VerdictOfMember(ds[..n], d);
    }
  }

  lemma {:induction false} VerdictHasMember(ds: seq<Decision>, key: string)
    ensures VerdictFor(ds, key).Some? <==> exists d :: d in ds && d.key == key
    ensures VerdictFor(ds, key).Some? ==> Decision(key, VerdictFor(ds, key).value) in ds
  {
    if ds == [] {
    } else {
      var n := |ds| - 1;
      VerdictHasMember(ds[..n], key);
      assert ds == ds[..n] + [ds[n]];
    }
  }

  /** A key about an object the facts do not list, whatever the object, has no verdict. */
  lemma RemovedObjectsHaveNoVerdict(f: Facts, c: Clock, key: Key)
    requires PrimaryKeys(f) && key.Valid()
    requires !Exists(f, key.subject, key.id)
    ensures VerdictFor(Decisions(f, c), key.Text()).None?
  {
    hide Exists, Key.Text;
    OneVerdictPerKey(f, c);
    VerdictHasMember(Decisions(f, c), key.Text());
    if VerdictFor(Decisions(f, c), key.Text()).Some? {
      var d :| d in Decisions(f, c) && d.key == key.Text();
      var s, x :| s in SUBJECTS && Exists(f, s, x) && About(d.key, s, x);
      assert About(key.Text(), key.subject, key.id);
      AboutOne(d.key, s, x, key.subject, key.id);
      assert false;
    }
  }

  lemma {:induction false} CollectHas<T>(items: seq<T>, decide: T -> seq<Decision>, item: T, d: Decision)
    requires item in items && d in decide(item)
    ensures d in Collect(items, decide)
  {
    var n := |items| - 1;
    if items[n] != item {
      CollectHas(items[..n], decide, item, d);
    }
  }

  /** The verdicts on an existing task's keys are the task's own. */
  lemma TasksAreJudged(f: Facts, c: Clock, t: Task)
    requires PrimaryKeys(f) && t in f.tasks
    ensures VerdictFor(Decisions(f, c), Key("task", t.id, "run").Text()) == Some(RunVerdict(t, Or(f.runHealth, t.id, NO_HEALTH), c))
    ensures VerdictFor(Decisions(f, c), Key("task", t.id, "stale").Text()) == Some(TaskStaleVerdict(t, Or(f.runHealth, t.id, NO_HEALTH), c))
  {
    hide Key.Text, RunVerdict, TaskStaleVerdict, Exists;
    OneVerdictPerKey(f, c);
    var ds := TaskDecisions(t, Or(f.runHealth, t.id, NO_HEALTH), c);
    forall i | 0 <= i < |ds|
      ensures VerdictFor(Decisions(f, c), ds[i].key) == Some(ds[i].verdict)
    {
      CollectHas(f.tasks, OfTask(f, c), t, ds[i]);
      VerdictOfMember(Decisions(f, c), ds[i]);
    }
    assert ds[0].key == Key("task", t.id, "run").Text() && ds[1].key == Key("task", t.id, "stale").Text();
  }
}
