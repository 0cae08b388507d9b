/** What a sequence of decisions does to the stored alerts, one call at a time. */
module Settlement {
  import opened Alerts
  import opened VerdictKeys
  import opened Verdicts
  import opened Wrappers

  // ----- The meaning of a sequence of decisions

  // Where a reconciliation stands: the stored alerts, its own copy, the store calls and the errors so far.
  datatype Progress = Progress(stored: Ledger, active: Ledger, calls: seq<string>, failures: nat)

  /** Bring one key to what is wanted, unless it is there already; the copy follows only a call without error. */
  function Change(p: Progress, key: string, wanted: Option<Signal>, reply: Reply): Progress {
    if wanted == Lookup(p.active, key) then p
    else
      var stored := AfterCall(p.stored, key, wanted, reply);
      if Succeeds(key, Lookup(p.stored, key), wanted, reply) then
        Progress(stored, Put(p.active, key, wanted), p.calls + [key], p.failures)
      else
        Progress(stored, p.active, p.calls + [key], p.failures + 1)
  }

  function Step(p: Progress, d: Decision, replies: string -> Reply): Progress {
    Change(p, d.key, Wanted(d.verdict, Lookup(p.active, d.key)), replies(d.key))
  }

  function Settle(p: Progress, ds: seq<Decision>, replies: string -> Reply): Progress {
    if ds == [] then p else Step(Settle(p, ds[..|ds| - 1], replies), ds[|ds| - 1], replies)
  }

  lemma {:induction false} SettleMore(p: Progress, a: seq<Decision>, b: seq<Decision>, replies: string -> Reply)
    ensures Settle(p, a + b, replies) == Settle(Settle(p, a, replies), b, replies)
  {
    if b == [] {
      assert a + b == a;
    } else {
      var n := |b| - 1;
      assert (a + b)[..|a| + n] == a + b[..n];
      SettleMore(p, a, b[..n], replies);
    }
  }

  lemma SettleOne(p: Progress, d: Decision, replies: string -> Reply)
    ensures Settle(p, [d], replies) == Step(p, d, replies)
  {
    assert [d][..0] == [];
    assert Settle(p, [d][..0], replies) == p;
  }

  /** What has become of one key: `was` beforehand, `wanted` by its decision. */
  ghost predicate Settled(p: Progress, key: string, was: Option<Signal>, wanted: Option<Signal>, reply: Reply) {
    && Lookup(p.stored, key) == (if reply.storeFails then was else wanted)
    && Lookup(p.active, key) == (if Succeeds(key, was, wanted, reply) then wanted else was)
  }

  ghost predicate Untouched(p: Progress, key: string, before: Ledger) {
    && Lookup(p.active, key) == Lookup(before, key)
    && (key != CHANNEL.Text() ==> Lookup(p.stored, key) == Lookup(before, key))
  }

  function Changes(before: Ledger, d: Decision): bool {
    Wanted(d.verdict, Lookup(before, d.key)) != Lookup(before, d.key)
  }

  /** The keys whose decision changes something, in order. */
  function Needed(before: Ledger, ds: seq<Decision>): seq<string> {
    if ds == [] then []
    else Needed(before, ds[..|ds| - 1]) + if Changes(before, ds[|ds| - 1]) then [ds[|ds| - 1].key] else []
  }

  ghost predicate Fails(before: Ledger, d: Decision, replies: string -> Reply) {
    Changes(before, d) && !Succeeds(d.key, Lookup(before, d.key), Wanted(d.verdict, Lookup(before, d.key)), replies(d.key))
  }

  ghost predicate StartsAt(p: Progress, before: Ledger) {
    p.stored == before && p.active == before && p.failures == 0
  }

  ghost predicate Outcome(p: Progress, before: Ledger, ds: seq<Decision>, replies: string -> Reply) {
    && (forall d :: d in ds ==> if Changes(before, d) then Settled(p, d.key, Lookup(before, d.key), Wanted(d.verdict, Lookup(before, d.key)), replies(d.key))
                                else Untouched(p, d.key, before))
    && (forall key: string :: (forall d :: d in ds ==> d.key != key) ==> Untouched(p, key, before))
    && (p.failures == 0 <==> forall d :: d in ds ==> !Fails(before, d, replies))
  }

  lemma StepSettles(p: Progress, before: Ledger, d: Decision, replies: string -> Reply)
    requires d.key != CHANNEL.Text()
    requires Untouched(p, d.key, before)
    ensures var q := Step(p, d, replies);
            && (if Changes(before, d) then Settled(q, d.key, Lookup(before, d.key), Wanted(d.verdict, Lookup(before, d.key)), replies(d.key))
                else Untouched(q, d.key, before))
            && (forall key :: key != d.key ==> Lookup(q.active, key) == Lookup(p.active, key))
            && (forall key :: key != d.key && key != CHANNEL.Text() ==> Lookup(q.stored, key) == Lookup(p.stored, key))
            && q.calls == p.calls + (if Changes(before, d) then [d.key] else [])
            && q.failures == p.failures + if Fails(before, d, replies) then 1 else 0
  {
    hide Key.Text;
    var wanted := Wanted(d.verdict, Lookup(p.active, d.key));
    CallTouchesOneKey(p.stored, d.key, wanted, replies(d.key), d.key);
    forall key | key != d.key && key != CHANNEL.Text()
      ensures Lookup(Step(p, d, replies).stored, key) == Lookup(p.stored, key)
    {
      CallTouchesOneKey(p.stored, d.key, wanted, replies(d.key), key);
    }
  }

  /** Decisions about different keys do not disturb each other: each key ends as its own decision says. */
  lemma {:induction false} SettleIsPointwise(p: Progress, before: Ledger, ds: seq<Decision>, replies: string -> Reply)
    requires StartsAt(p, before) && Distinct(ds)
    requires forall d :: d in ds ==> d.key != CHANNEL.Text()
    ensures Outcome(Settle(p, ds, replies), before, ds, replies)
    ensures Settle(p, ds, replies).calls == p.calls + Needed(before, ds)
  {
    hide Key.Text, Wanted, Step, Succeeds, AfterCall, Outcome, Changes, Untouched, Settled, Fails;
    if ds == [] {
      NoOutcome(p, before, replies);
    } else {
      var n := |ds| - 1;
      var (q, d) := (Settle(p, ds[..n], replies), ds[n]);
      SettleIsPointwise(p, before, ds[..n], replies);
      NotYetTouched(q, before, ds[..n], d, replies);
      StepSettles(q, before, d, replies);
      assert ds == ds[..n] + [d];
      ExtendOutcome(q, Step(q, d, replies), before, ds[..n], d, replies);
    }
  }

  lemma NoOutcome(p: Progress, before: Ledger, replies: string -> Reply)
    requires StartsAt(p, before)
    ensures Outcome(p, before, [], replies)
  {}

  lemma NotYetTouched(q: Progress, before: Ledger, ds: seq<Decision>, d: Decision, replies: string -> Reply)
    requires Outcome(q, before, ds, replies) && forall e :: e in ds ==> e.key != d.key
    ensures Untouched(q, d.key, before)
  {
    hide Key.Text, Wanted, Succeeds, Changes, Untouched, Settled, Fails;
  }

  lemma ExtendOutcome(q: Progress, r: Progress, before: Ledger, ds: seq<Decision>, d: Decision, replies: string -> Reply)
    requires Outcome(q, before, ds, replies)
    requires d.key != CHANNEL.Text() && forall e :: e in ds ==> e.key != d.key && e.key != CHANNEL.Text()
    requires if Changes(before, d) then Settled(r, d.key, Lookup(before, d.key), Wanted(d.verdict, Lookup(before, d.key)), replies(d.key))
             else Untouched(r, d.key, before)
    requires forall key :: key != d.key ==> Lookup(r.active, key) == Lookup(q.active, key)
    requires forall key :: key != d.key && key != CHANNEL.Text() ==> Lookup(r.stored, key) == Lookup(q.stored, key)
    requires r.failures == q.failures + if Fails(before, d, replies) then 1 else 0
    ensures Outcome(r, before, ds + [d], replies)
  {
    hide Key.Text, Wanted, Succeeds, Changes, Fails, Lookup;
    var more := ds + [d];
    assert forall e :: e in more <==> e in ds || e == d;
    forall e | e in ds
      ensures if Changes(before, e) then Settled(r, e.key, Lookup(before, e.key), Wanted(e.verdict, Lookup(before, e.key)), replies(e.key))
              else Untouched(r, e.key, before)
    {
      assert Lookup(r.active, e.key) == Lookup(q.active, e.key) && Lookup(r.stored, e.key) == Lookup(q.stored, e.key);
    }
    forall key: string | forall e :: e in more ==> e.key != key
      ensures Untouched(r, key, before)
    {
      assert d in more;
      assert forall e :: e in ds ==> e in more;
      assert Untouched(q, key, before);
    }
    assert d in more;
  }

  // Short sequences

  lemma SettleTwo(p: Progress, d0: Decision, d1: Decision, replies: string -> Reply)
    ensures Settle(p, [d0, d1], replies) == Step(Step(p, d0, replies), d1, replies)
  {
    hide Step;
    assert [d0, d1] == [d0] + [d1];
    SettleMore(p, [d0], [d1], replies);
    SettleOne(p, d0, replies);
    SettleOne(Step(p, d0, replies), d1, replies);
  }

  lemma SettleFour(p: Progress, d0: Decision, d1: Decision, d2: Decision, d3: Decision, replies: string -> Reply)
    ensures Settle(p, [d0, d1, d2, d3], replies) == Step(Step(Step(Step(p, d0, replies), d1, replies), d2, replies), d3, replies)
  {
    hide Step;
    assert [d0, d1, d2, d3] == [d0, d1] + [d2, d3];
    SettleMore(p, [d0, d1], [d2, d3], replies);
    SettleTwo(p, d0, d1, replies);
    SettleTwo(Step(Step(p, d0, replies), d1, replies), d2, d3, replies);
  }

  lemma SettleFive(p: Progress, d0: Decision, d1: Decision, d2: Decision, d3: Decision, d4: Decision,
       replies: string -> Reply)
    ensures Settle(p, [d0, d1, d2, d3, d4], replies)
            == Step(Step(Step(Step(Step(p, d0, replies), d1, replies), d2, replies), d3, replies), d4, replies)
  {
    hide Step;
    assert [d0, d1, d2, d3, d4] == [d0, d1, d2, d3] + [d4];
    SettleMore(p, [d0, d1, d2, d3], [d4], replies);
    SettleFour(p, d0, d1, d2, d3, replies);
    SettleOne(Settle(p, [d0, d1, d2, d3], replies), d4, replies);
  }

  function KeysOf(ds: seq<Decision>): set<string> {
    set d | d in ds :: d.key
  }

  function Unseen(active: Ledger, seen: set<string>): set<string> {
    set key | key in active && active[key].kind in MANAGED && key !in seen
  }

  /** `removals` resolves exactly the given keys, each once. */
  ghost predicate Removes(removals: seq<Decision>, keys: set<string>) {
    && Distinct(removals)
    && (forall d :: d in removals ==> d.verdict == Verdict.Resolve && d.key in keys)
    && (forall key :: key in keys ==> Decision(key, Verdict.Resolve) in removals)
  }

  lemma RemovesMore(removals: seq<Decision>, keys: set<string>, key: string)
    ensures Removes([], {})
    ensures Removes(removals, keys) && key !in keys ==> Removes(removals + [Decision(key, Verdict.Resolve)], keys + {key})
  {
    if Removes(removals, keys) && key !in keys {
      Join(removals, [Decision(key, Verdict.Resolve)]);
    }
  }

  lemma KeepChangesNothing(p: Progress, d: Decision, replies: string -> Reply)
    requires d.verdict.Keep?
    ensures Step(p, d, replies) == p
  {}

  // ----- What a whole reconciliation does

  /** Every stored alert but the channel's own is as the facts want it, except where the store refused the call. */
  ghost predicate Reconciled(after: Ledger, before: Ledger, ds: seq<Decision>, replies: string -> Reply) {
    forall key: string :: key != CHANNEL.Text() ==>
      Lookup(after, key) == if replies(key).storeFails then Lookup(before, key) else Expected(ds, before, key)
  }

  ghost predicate Partly(after: Ledger, before: Ledger, ds: seq<Decision>) {
    forall key: string :: key != CHANNEL.Text() ==>
      Lookup(after, key) == Lookup(before, key) || Lookup(after, key) == Expected(ds, before, key)
  }

  /** The calls made are one for each key that has to change, and no other. */
  ghost predicate CallsAreTheChanges(made: seq<string>, before: Ledger, ds: seq<Decision>) {
    && (forall key: string :: key in made <==> Expected(ds, before, key) != Lookup(before, key))
    && (forall i, j :: 0 <= i < j < |made| ==> made[i] != made[j])
  }

  ghost predicate AllSucceed(made: seq<string>, before: Ledger, ds: seq<Decision>, replies: string -> Reply) {
    forall key :: key in made ==> Succeeds(key, Lookup(before, key), Expected(ds, before, key), replies(key))
  }

  // Only notifications write the channel's own alert.
  ghost predicate ChannelIsOwn(alerts: Ledger) {
    CHANNEL.Text() in alerts ==> alerts[CHANNEL.Text()].kind == CHANNEL_KIND
  }

  lemma {:induction false} NeededKeys(before: Ledger, ds: seq<Decision>)
    requires Distinct(ds)
    ensures forall key :: key in Needed(before, ds) <==> exists d :: d in ds && d.key == key && Changes(before, d)
    ensures forall i, j :: 0 <= i < j < |Needed(before, ds)| ==> Needed(before, ds)[i] != Needed(before, ds)[j]
  {
    hide Changes;
    if ds != [] {
      var n := |ds| - 1;
      NeededKeys(before, ds[..n]);
      assert ds == ds[..n] + [ds[n]];
      assert forall d :: d in ds <==> d in ds[..n] || d == ds[n];
      if Changes(before, ds[n]) {
        assert Needed(before, ds) == Needed(before, ds[..n]) + [ds[n].key];
        assert ds[n].key !in Needed(before, ds[..n]);
      } else {
        assert Needed(before, ds) == Needed(before, ds[..n]);
      }
    }
  }

  /** A key's expected alert, from the decisions on what exists and the removal of what does not. */
  lemma ExpectedByMembers(before: Ledger, ds: seq<Decision>, removals: seq<Decision>)
    requires Distinct(ds) && Removes(removals, Unseen(before, KeysOf(ds)))
    ensures Distinct(ds + removals)
    ensures forall d :: d in ds + removals ==> Expected(ds, before, d.key) == Wanted(d.verdict, Lookup(before, d.key))
    ensures forall key: string :: (forall d :: d in ds + removals ==> d.key != key) ==> Expected(ds, before, key) == Lookup(before, key)
  {
    Join(ds, removals) by { assert forall d, e :: d in ds && e in removals ==> d.key != e.key; }
    forall d | d in ds + removals
      ensures Expected(ds, before, d.key) == Wanted(d.verdict, Lookup(before, d.key))
    {
      if d in ds {
        VerdictOfMember(ds, d);
      } else {
        VerdictHasMember(ds, d.key);
      }
    }
    forall key: string | forall d :: d in ds + removals ==> d.key != key
      ensures Expected(ds, before, key) == Lookup(before, key)
    {
      VerdictHasMember(ds, key);
      assert Decision(key, Verdict.Resolve) !in ds + removals;
      assert forall d :: d in ds ==> d in ds + removals;
    }
  }

  lemma WholeRun(p: Progress, before: Ledger, ds: seq<Decision>, removals: seq<Decision>, replies: string -> Reply)
    requires StartsAt(p, before) && ChannelIsOwn(before)
    requires Distinct(ds) && forall d :: d in ds ==> d.key != CHANNEL.Text()
    requires Removes(removals, Unseen(before, KeysOf(ds)))
    ensures var q, made := Settle(p, ds + removals, replies), Needed(before, ds + removals);
            && q.calls == p.calls + made
            && (forall d :: d in ds + removals ==> d.key != CHANNEL.Text())
            && Reconciled(q.stored, before, ds, replies)
            && CallsAreTheChanges(made, before, ds)
            && (q.failures == 0 <==> AllSucceed(made, before, ds, replies))
  {
    hide Key.Text, Expected, Wanted, Settle, Needed, Succeeds, AfterCall, Distinct;
    var (all, q) := (ds + removals, Settle(p, ds + removals, replies));
    ExpectedByMembers(before, ds, removals);
    assert forall d :: d in removals ==> d.key != CHANNEL.Text();
    SettleIsPointwise(p, before, all, replies);
    NeededKeys(before, all);
    Expectations(q, before, ds, all, replies);
    forall key: string
      ensures key in Needed(before, all) <==> Expected(ds, before, key) != Lookup(before, key)
    {
      if d :| d in all && d.key == key {
        assert Changes(before, d) <==> Expected(ds, before, key) != Lookup(before, key);
        assert forall e :: e in all && e.key == key ==> (Changes(before, e) <==> Changes(before, d));
      }
    }
    if q.failures == 0 {
      forall key | key in Needed(before, all)
        ensures Succeeds(key, Lookup(before, key), Expected(ds, before, key), replies(key))
      {
        var d :| d in all && d.key == key && Changes(before, d);
        assert !Fails(before, d, replies);
      }
    } else {
      var d :| d in all && Fails(before, d, replies);
      assert d.key in Needed(before, all);
    }
  }

  lemma Expectations(q: Progress, before: Ledger, ds: seq<Decision>, all: seq<Decision>, replies: string -> Reply)
    requires Outcome(q, before, all, replies)
    requires forall d :: d in all ==> Expected(ds, before, d.key) == Wanted(d.verdict, Lookup(before, d.key))
    requires forall key: string :: (forall d :: d in all ==> d.key != key) ==> Expected(ds, before, key) == Lookup(before, key)
    ensures Reconciled(q.stored, before, ds, replies)
  {
    hide Key.Text, Expected, Wanted, Succeeds;
    forall key: string | key != CHANNEL.Text()
      ensures Lookup(q.stored, key) == if replies(key).storeFails then Lookup(before, key) else Expected(ds, before, key)
    {
      if d :| d in all && d.key == key {
        assert if Changes(before, d) then Settled(q, d.key, Lookup(before, d.key), Wanted(d.verdict, Lookup(before, d.key)), replies(d.key))
               else Untouched(q, d.key, before);
      } else {
        assert Untouched(q, key, before);
      }
    }
  }

  /** The keys left unseen are those of the alerts that were active beforehand without a verdict. */
  lemma UnseenBefore(q: Progress, before: Ledger, ds: seq<Decision>, replies: string -> Reply)
    requires Outcome(q, before, ds, replies)
    ensures Unseen(q.active, KeysOf(ds)) == Unseen(before, KeysOf(ds))
  {
    hide Key.Text, Succeeds, Wanted;
    forall key: string | key !in KeysOf(ds)
      ensures key in Unseen(q.active, KeysOf(ds)) <==> key in Unseen(before, KeysOf(ds))
    {
      assert forall d :: d in ds ==> d.key != key;
      assert Untouched(q, key, before);
    }
  }

  lemma ChannelIsNoObject(f: Facts)
    ensures CHANNEL.Valid() && !Exists(f, CHANNEL.subject, CHANNEL.id)
  {}

  lemma NoVerdictOnChannel(f: Facts, c: Clock)
    requires PrimaryKeys(f)
    ensures Distinct(Decisions(f, c)) && forall d :: d in Decisions(f, c) ==> d.key != CHANNEL.Text()
    ensures VerdictFor(Decisions(f, c), CHANNEL.Text()).None?
  {
    hide Key.Text, Decisions, VerdictFor, AboutExisting, Exists, Distinct;
    OneVerdictPerKey(f, c);
    ChannelIsNoObject(f);
    RemovedObjectsHaveNoVerdict(f, c, CHANNEL);
    VerdictHasMember(Decisions(f, c), CHANNEL.Text());
  }

  /** After these decisions and no others, with the calls the store refused. */
  ghost predicate Advanced(after: Ledger, before: Ledger, ds: seq<Decision>, replies: string -> Reply) {
    forall key: string :: key != CHANNEL.Text() ==> AdvancedAt(after, before, ds, replies, key)
  }

  ghost predicate AdvancedAt(after: Ledger, before: Ledger, ds: seq<Decision>, replies: string -> Reply, key: string) {
    Lookup(after, key) == match VerdictFor(ds, key)
                          case None => Lookup(before, key)
                          case Some(v) => if replies(key).storeFails then Lookup(before, key) else Wanted(v, Lookup(before, key))
  }

  /** A run that stops early has taken the keys it came to where they belong and left the others. */
  lemma PartialRun(p: Progress, before: Ledger, ds: seq<Decision>, n: nat, replies: string -> Reply)
    requires StartsAt(p, before) && n <= |ds|
    requires Distinct(ds) && forall d :: d in ds ==> d.key != CHANNEL.Text()
    ensures Partly(Settle(p, ds[..n], replies).stored, before, ds)
    ensures Advanced(Settle(p, ds[..n], replies).stored, before, ds[..n], replies)
  {
    hide Key.Text, Wanted, Settle, Succeeds;
    var q := Settle(p, ds[..n], replies);
    SettleIsPointwise(p, before, ds[..n], replies);
    forall key: string | key != CHANNEL.Text()
      ensures Lookup(q.stored, key) == Lookup(before, key) || Lookup(q.stored, key) == Expected(ds, before, key)
      ensures AdvancedAt(q.stored, before, ds[..n], replies, key)
    {
      VerdictHasMember(ds[..n], key);
      if d :| d in ds[..n] && d.key == key {
        VerdictOfMember(ds, d);
        VerdictOfMember(ds[..n], d);
        assert if Changes(before, d) then Settled(q, d.key, Lookup(before, d.key), Wanted(d.verdict, Lookup(before, d.key)), replies(d.key))
               else Untouched(q, d.key, before);
      } else {
        assert Untouched(q, key, before);
      }
    }
  }

  lemma {:induction false} CollectPrefix<T>(items: seq<T>, n: nat, decide: T -> seq<Decision>)
    requires n <= |items|
    ensures Collect(items[..n], decide) <= Collect(items, decide)
  {
    if n < |items| {
      var m := |items| - 1;
      assert items[..m][..n] == items[..n];
      CollectPrefix(items[..m], n, decide);
    } else {
      assert items[..n] == items;
    }
  }

  /** Notifications keep the channel's alert the channel's own. */
  lemma {:induction false} SettleKeepsChannel(p: Progress, ds: seq<Decision>, replies: string -> Reply)
    requires ChannelIsOwn(p.stored)
    requires forall d :: d in ds ==> d.key != CHANNEL.Text()
    ensures ChannelIsOwn(Settle(p, ds, replies).stored)
  {
    hide Key.Text;
    if ds != [] {
      SettleKeepsChannel(p, ds[..|ds| - 1], replies);
    }
  }

}
