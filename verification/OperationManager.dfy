/** Any number of start and close calls on one operation manager. Each critical section, each
    persistence call and each goroutine hand-over is one step; persistence may refuse any write. */
module OperationManager {
  import opened Wrappers
  import opened Ownership

  /** A start call: its unique key after trimming ("" for none), the id it draws, and whether kind, actor
      and work were all given. */
  datatype Request = Request(key: string, id: string, complete: bool)

  predicate Acceptable(r: Request) {
    r.complete && r.id != ""
  }

  /** Where a start call, and later its goroutine, stands. */
  datatype Phase =
    | Idle
    | Creating      // the key, if any, is reserved
    | Created       // the record exists; the manager's lock is wanted
    | Refused       // the manager was closed; the record must be finished
    | Unreserve     // start has failed; the reservation must go
    | Registered    // active; the goroutine has not started the record yet
    | Working       // the work function runs
    | Finishing     // the work has returned
    | Retiring      // the record is finished; still listed as active
    | Leaving       // not active any more; the wait group still counts it
    | Existing | Failed | Ended

  datatype Start = Start(request: Request, phase: Phase, created: bool)

  datatype CloseCall = NotCalled | Waiting | Returned(first: bool)

  datatype Manager = Manager(active: map<string, string>, unique: map<string, string>, closed: bool, wg: nat)

  /** `records` counts the finish calls made for each created record. */
  datatype System = System(m: Manager, records: map<string, nat>, starts: seq<Start>, closes: seq<CloseCall>)

  datatype Step =
    | Begin | Create(stored: bool) | Register | FinishRefused | Drop
    | StartRecord(stored: bool) | WorkReturns | Finish | Retire | Leave
    | Close | CloseReturns

  // ----- The manager's critical sections

  function Reserve(m: Manager, key: string): Manager {
    m.(unique := m.unique[key := ""])
  }

  function Drop_(m: Manager, key: string): Manager {
    m.(unique := m.unique - {key})
  }

  function Registering(m: Manager, r: Request): Manager {
    m.(active := m.active[r.id := r.key], unique := if r.key != "" then m.unique[r.key := r.id] else m.unique, wg := m.wg + 1)
  }

  function Retired(m: Manager, r: Request): Manager {
    m.(active := m.active - {r.id},
       unique := if r.key != "" && r.key in m.unique && m.unique[r.key] == r.id then m.unique - {r.key} else m.unique)
  }

  function Finished(records: map<string, nat>, id: string): map<string, nat> {
    records[id := (if id in records then records[id] else 0) + 1]
  }

  /** One step of a start call, or `None` when it cannot take that step now. */
  function Move(m: Manager, records: map<string, nat>, c: Start, step: Step): Option<(Manager, map<string, nat>, Start)> {
    var r := c.request;
    match (c.phase, step)
    case (Idle, Begin) =>
      if r.key == "" then Some((m, records, c.(phase := Creating)))
      else if r.key in m.unique then Some((m, records, c.(phase := Existing)))
      else Some((Reserve(m, r.key), records, c.(phase := Creating)))
    case (Creating, Create(stored)) =>
      if Acceptable(r) && stored then
        if r.id in records then None else Some((m, records[r.id := 0], c.(phase := Created, created := true)))
      else Some((m, records, c.(phase := if r.key != "" then Unreserve else Failed)))
    case (Created, Register) =>
      if m.closed then Some((m, records, c.(phase := Refused))) else Some((Registering(m, r), records, c.(phase := Registered)))
    case (Refused, FinishRefused) => Some((m, Finished(records, r.id), c.(phase := if r.key != "" then Unreserve else Failed)))
    case (Unreserve, Drop) => Some((Drop_(m, r.key), records, c.(phase := Failed)))
    case (Registered, StartRecord(stored)) =>
      if stored then Some((m, records, c.(phase := Working)))
      else Some((m, Finished(records, r.id), c.(phase := Retiring)))
    case (Working, WorkReturns) => Some((m, records, c.(phase := Finishing)))
    case (Finishing, Finish) => Some((m, Finished(records, r.id), c.(phase := Retiring)))
    case (Retiring, Retire) => Some((Retired(m, r), records, c.(phase := Leaving)))
    case (Leaving, Leave) => if m.wg > 0 then Some((m.(wg := m.wg - 1), records, c.(phase := Ended))) else None
    case _ => None
  }

  function MoveClose(m: Manager, c: CloseCall, step: Step): Option<(Manager, CloseCall)> {
    match (c, step)
    case (NotCalled, Close) => if m.closed then Some((m, Returned(false))) else Some((m.(closed := true), Waiting))
    case (Waiting, CloseReturns) => if m.wg == 0 then Some((m, Returned(true))) else None
    case _ => None
  }

  /** Calls are numbered: the start calls first, then the close calls. */
  function Next(s: System, i: nat, step: Step): Option<System> {
    if i < |s.starts| then
      match Move(s.m, s.records, s.starts[i], step)
      case None => None
      case Some((m, records, c)) => Some(System(m, records, s.starts[i := c], s.closes))
    else if i - |s.starts| < |s.closes| then
      match MoveClose(s.m, s.closes[i - |s.starts|], step)
      case None => None
      case Some((m, c)) => Some(System(m, s.records, s.starts, s.closes[i - |s.starts| := c]))
    else None
  }

  predicate Initial(s: System) {
    && s.m == Manager(map[], map[], false, 0) && s.records == map[]
    && (forall c :: c in s.starts ==> c.phase == Idle && !c.created)
    && (forall c :: c in s.closes ==> c == NotCalled)
  }

  // ----- Who owns what

  predicate IsActive(c: Start) {
    c.phase in {Registered, Working, Finishing, Retiring}
  }

  predicate Counted(c: Start) {
    IsActive(c) || c.phase == Leaving
  }

  predicate Unfinished(c: Start) {
    c.created && c.phase in {Created, Refused, Registered, Working, Finishing}
  }

  function ActiveId(c: Start): Option<string> {
    if IsActive(c) then Some(c.request.id) else None
  }

  function RecordId(c: Start): Option<string> {
    if c.created then Some(c.request.id) else None
  }

  /** The unique key a call holds, as a reservation or through its active operation. */
  function OwnedKey(c: Start): Option<string> {
    if c.request.key != "" && (IsActive(c) || c.phase in {Creating, Created, Refused, Unreserve}) then Some(c.request.key) else None
  }

  /** The entries each call is responsible for have the right values. */
  ghost predicate Accurate(m: Manager, records: map<string, nat>, c: Start) {
    && (IsActive(c) ==> c.request.id in m.active && m.active[c.request.id] == c.request.key)
    && (OwnedKey(c).Some? ==>
          c.request.key in m.unique && m.unique[c.request.key] == if IsActive(c) then c.request.id else "")
    && (c.created ==> Acceptable(c.request) && c.request.id in records && records[c.request.id] == if Unfinished(c) then 0 else 1)
    && WellPhased(c)
  }

  predicate WellPhased(c: Start) {
    && (c.phase in {Idle, Creating, Existing} ==> !c.created)
    && (c.phase in {Created, Refused, Registered, Working, Finishing, Retiring, Leaving, Ended} ==> c.created)
    && (c.phase == Unreserve ==> c.request.key != "")
  }

  ghost predicate Inv(s: System) {
    && Exclusive(ActiveId, s.starts, s.m.active.Keys)
    && Exclusive(OwnedKey, s.starts, s.m.unique.Keys)
    && Exclusive(RecordId, s.starts, s.records.Keys)
    && s.m.wg == Count(Counted, s.starts)
    && (forall c :: c in s.starts ==> Accurate(s.m, s.records, c))
    && (Waiting in s.closes || Returned(true) in s.closes || Returned(false) in s.closes ==> s.m.closed)
    && (Returned(true) in s.closes ==> s.m.wg == 0)
    && (s.m.closed ==> Waiting in s.closes || Returned(true) in s.closes)
  }

  lemma InitialInv(s: System)
    requires Initial(s)
    ensures Inv(s)
  {
    NoHolderNoCount(Counted, s.starts);
  }

  // ----- Every step keeps the invariant

  /** What a call's own entries must be for its step to change the key sets as it should. */
  ghost predicate Entitled(m: Manager, records: map<string, nat>, c: Start) {
    && WellPhased(c)
    && (IsActive(c) ==> c.request.id in m.active)
    && (c.phase == Created ==> c.request.id !in m.active)
    && (c.created ==> c.request.id in records)
    && (OwnedKey(c).Some? ==> c.request.key in m.unique && (IsActive(c) ==> m.unique[c.request.key] == c.request.id))
  }

  lemma MoveActive(m: Manager, records: map<string, nat>, c: Start, step: Step)
    requires Move(m, records, c, step).Some? && Entitled(m, records, c)
    ensures var (m', _, c') := Move(m, records, c, step).value;
            KeyChange(ActiveId(c), ActiveId(c'), m.active.Keys, m'.active.Keys)
  {
    var (m', _, c') := Move(m, records, c, step).value;
    if ActiveId(c') != ActiveId(c) {
      assert m'.active.Keys == if ActiveId(c').Some? then m.active.Keys + {c.request.id} else m.active.Keys - {c.request.id};
    }
  }

  lemma MoveUnique(m: Manager, records: map<string, nat>, c: Start, step: Step)
    requires Move(m, records, c, step).Some? && Entitled(m, records, c)
    ensures var (m', _, c') := Move(m, records, c, step).value;
            KeyChange(OwnedKey(c), OwnedKey(c'), m.unique.Keys, m'.unique.Keys)
  {
    var (m', _, c') := Move(m, records, c, step).value;
    if OwnedKey(c') != OwnedKey(c) {
      assert m'.unique.Keys == if OwnedKey(c').Some? then m.unique.Keys + {c.request.key} else m.unique.Keys - {c.request.key};
    } else {
      assert m'.unique.Keys == m.unique.Keys;
    }
  }

  lemma MoveRecords(m: Manager, records: map<string, nat>, c: Start, step: Step)
    requires Move(m, records, c, step).Some? && Entitled(m, records, c)
    ensures var (_, records', c') := Move(m, records, c, step).value;
            KeyChange(RecordId(c), RecordId(c'), records.Keys, records'.Keys)
  {
    var (_, records', c') := Move(m, records, c, step).value;
    if RecordId(c') != RecordId(c) {
      assert records'.Keys == records.Keys + {c.request.id};
    } else {
      assert records'.Keys == records.Keys;
    }
  }

  /** The entries a step does not touch. */
  lemma MoveFrame(m: Manager, records: map<string, nat>, c: Start, step: Step)
    requires Move(m, records, c, step).Some? && Entitled(m, records, c)
    ensures var (m', records', c') := Move(m, records, c, step).value;
            && (forall id :: id in m.active && (id != c.request.id || !c'.created) ==> id in m'.active && m'.active[id] == m.active[id])
            && (forall id :: id in records && (id != c.request.id || !c'.created) ==> id in records' && records'[id] == records[id])
            && (forall key :: key in m.unique && (key != c.request.key || (OwnedKey(c).None? && OwnedKey(c').None?))
                  ==> key in m'.unique && m'.unique[key] == m.unique[key])
            && (c'.created && !c.created ==> c.request.id !in records)
            && (OwnedKey(c').Some? && OwnedKey(c).None? ==> c.request.key !in m.unique)
  {
  }

  lemma AccurateIsEntitled(s: System, i: nat)
    requires Inv(s) && i < |s.starts|
    ensures Entitled(s.m, s.records, s.starts[i])
  {
    hide Count;
    var c := s.starts[i];
    assert Accurate(s.m, s.records, c);
    forall j | 0 <= j < |s.starts| && c.phase == Created
      ensures ActiveId(s.starts[j]) != Some(c.request.id)
    {
      assert Accurate(s.m, s.records, s.starts[j]);
      assert j != i ==> RecordId(s.starts[j]) != RecordId(c);
    }
  }

  /** A step leaves the entries of every other call alone, because ids and keys are held exclusively. */
  lemma OtherStaysAccurate(m: Manager, records: map<string, nat>, c: Start, step: Step, d: Start)
    requires Move(m, records, c, step).Some? && Entitled(m, records, c) && Accurate(m, records, d)
    requires c.created && d.created ==> RecordId(c) != RecordId(d)
    requires OwnedKey(c).Some? && OwnedKey(d).Some? ==> OwnedKey(c) != OwnedKey(d)
    ensures var (m', records', _) := Move(m, records, c, step).value; Accurate(m', records', d)
  {
    MoveFrame(m, records, c, step);
    hide Move;
  }

  lemma MoverStaysAccurate(m: Manager, records: map<string, nat>, c: Start, step: Step)
    requires Move(m, records, c, step).Some? && Entitled(m, records, c) && Accurate(m, records, c)
    ensures var (m', records', c') := Move(m, records, c, step).value; Accurate(m', records', c')
  {
  }

  lemma AllStayAccurate(s: System, i: nat, step: Step, j: nat)
    requires Inv(s) && i < |s.starts| && j < |s.starts| && Next(s, i, step).Some?
    ensures var s' := Next(s, i, step).value; Accurate(s'.m, s'.records, s'.starts[j])
  {
    AccurateIsEntitled(s, i);
    var c, d := s.starts[i], s.starts[j];
    assert Accurate(s.m, s.records, c) && Accurate(s.m, s.records, d);
    if i == j {
      hide Count, Exclusive;
      MoverStaysAccurate(s.m, s.records, c, step);
    } else {
      assert c.created && d.created ==> RecordId(c) != RecordId(d);
      assert OwnedKey(c).Some? && OwnedKey(d).Some? ==> OwnedKey(c) != OwnedKey(d);
      hide Count, Exclusive, Accurate, Entitled, Move;
      OtherStaysAccurate(s.m, s.records, c, step, d);
    }
  }

  lemma CloseInv(s: System, i: nat, step: Step)
    requires Inv(s) && i >= |s.starts| && Next(s, i, step).Some?
    ensures Inv(Next(s, i, step).value)
  {
    hide Count, Exclusive;
    var s' := Next(s, i, step).value;
    forall c | c in s'.starts
      ensures Accurate(s'.m, s'.records, c)
    {
      assert Accurate(s.m, s.records, c);
    }
    var k := i - |s.starts|;
    assert forall c :: c in s'.closes ==> c in s.closes || c == s'.closes[k];
    assert s.closes[k] in s.closes;
    CloserStays(s.closes, k, s'.closes[k]);
  }

  /** The call that did the closing is still waiting or has returned from that, whatever another call does. */
  lemma CloserStays(closes: seq<CloseCall>, k: nat, c: CloseCall)
    requires k < |closes| && (closes[k].Waiting? ==> c == Returned(true)) && closes[k] != Returned(true)
    ensures Waiting in closes || Returned(true) in closes ==> Waiting in closes[k := c] || Returned(true) in closes[k := c]
    ensures c in closes[k := c]
  {
    var next := closes[k := c];
    assert next[k] == c;
    forall d | d in closes && d != closes[k] ensures d in next {
      var j :| 0 <= j < |closes| && closes[j] == d;
      assert next[j] == d;
    }
  }

  /** What a step of a start call does to the wait group. */
  lemma MoveCounts(m: Manager, records: map<string, nat>, c: Start, step: Step)
    requires Move(m, records, c, step).Some?
    ensures var (m', _, c') := Move(m, records, c, step).value;
            && m'.closed == m.closed && (Counted(c') && !Counted(c) ==> !m.closed)
            && m'.wg == m.wg + (if Counted(c') then 1 else 0) - (if Counted(c) then 1 else 0)
  {}

  lemma StartCounts(s: System, i: nat, step: Step)
    requires Inv(s) && i < |s.starts| && Next(s, i, step).Some?
    ensures var s' := Next(s, i, step).value;
            && s'.m.wg == Count(Counted, s'.starts)
            && s'.m.closed == s.m.closed && s'.closes == s.closes
            && (Returned(true) in s'.closes ==> s'.m.wg == 0)
  {
    hide Exclusive, Accurate, Move, Counted;
    MoveCounts(s.m, s.records, s.starts[i], step);
    CountUpdate(Counted, s.starts, i, Next(s, i, step).value.starts[i]);
    if Counted(s.starts[i]) {
      HolderCounts(Counted, s.starts, i);
    }
  }

  lemma StartInv(s: System, i: nat, step: Step)
    requires Inv(s) && i < |s.starts| && Next(s, i, step).Some?
    ensures Inv(Next(s, i, step).value)
  {
    var s' := Next(s, i, step).value;
    var c' := s'.starts[i];
    hide Count, Exclusive, Accurate;
    AccurateIsEntitled(s, i);
    MoveActive(s.m, s.records, s.starts[i], step);
    MoveUnique(s.m, s.records, s.starts[i], step);
    MoveRecords(s.m, s.records, s.starts[i], step);
    ExclusiveUpdate(ActiveId, s.starts, s.m.active.Keys, i, c', s'.m.active.Keys);
    ExclusiveUpdate(OwnedKey, s.starts, s.m.unique.Keys, i, c', s'.m.unique.Keys);
    ExclusiveUpdate(RecordId, s.starts, s.records.Keys, i, c', s'.records.Keys);
    StartCounts(s, i, step);
    hide Move, Entitled;
    forall j | 0 <= j < |s'.starts|
      ensures Accurate(s'.m, s'.records, s'.starts[j])
    {
      AllStayAccurate(s, i, step, j);
    }
  }

  // ----- Whole runs

  ghost predicate Follows(s: System, s': System) {
    exists i: nat, step :: Next(s, i, step) == Some(s')
  }

  ghost predicate Behaviour(states: seq<System>) {
    && states != [] && Initial(states[0])
    && forall k :: 0 < k < |states| ==> Follows(states[k - 1], states[k])
  }

  lemma {:induction false} EveryStateIsSafe(states: seq<System>, k: nat)
    requires Behaviour(states) && k < |states|
    ensures Inv(states[k])
  {
    if k == 0 {
      InitialInv(states[0]);
    } else {
      EveryStateIsSafe(states, k - 1);
      assert Follows(states[k - 1], states[k]);
      var i: nat, step :| Next(states[k - 1], i, step) == Some(states[k]);
      if i < |states[k - 1].starts| {
        StartInv(states[k - 1], i, step);
      } else {
        CloseInv(states[k - 1], i, step);
      }
    }
  }

  /** At most one unfinished operation per unique key, in every reachable state. */
  lemma OneUnfinishedPerKey(states: seq<System>, k: nat, i: nat, j: nat)
    requires Behaviour(states) && k < |states|
    requires i < j < |states[k].starts|
    requires Unfinished(states[k].starts[i]) && Unfinished(states[k].starts[j])
    ensures states[k].starts[i].request.key != states[k].starts[j].request.key || states[k].starts[i].request.key == ""
  {
    EveryStateIsSafe(states, k);
    hide Behaviour, Count, Accurate;
    var a, b := states[k].starts[i], states[k].starts[j];
    assert OwnedKey(a).Some? && OwnedKey(b).Some? ==> OwnedKey(a) != OwnedKey(b);
  }

  /** What an entry of the unique table means: an empty one has exactly one reserving call, any other
      names an active operation that carries this key. */
  lemma UniqueEntries(states: seq<System>, k: nat, key: string) returns (i: nat)
    requires Behaviour(states) && k < |states| && key in states[k].m.unique
    ensures i < |states[k].starts| && states[k].starts[i].request.key == key != ""
    ensures var s := states[k];
            if s.m.unique[key] == "" then s.starts[i].phase in {Creating, Created, Refused, Unreserve}
            else IsActive(s.starts[i]) && s.m.unique[key] == s.starts[i].request.id && s.m.unique[key] in s.m.active && s.m.active[s.m.unique[key]] == key
    ensures forall j :: 0 <= j < |states[k].starts| && j != i ==> OwnedKey(states[k].starts[j]) != Some(key)
  {
    EveryStateIsSafe(states, k);
    hide Behaviour, Count;
    var s := states[k];
    i :| 0 <= i < |s.starts| && OwnedKey(s.starts[i]) == Some(key);
    assert Accurate(s.m, s.records, s.starts[i]);
  }

  predicate Settled(c: Start) {
    c.phase in {Idle, Existing, Failed, Ended}
  }

  /** Records are finished at most once on the way, and exactly once when no start call is under way;
      by then nothing is active and no key is taken. */
  lemma FinishedExactlyOnce(states: seq<System>, k: nat)
    requires Behaviour(states) && k < |states|
    ensures forall id :: id in states[k].records ==> states[k].records[id] <= 1
    ensures (forall i :: 0 <= i < |states[k].starts| ==> Settled(states[k].starts[i]))
            ==> (forall id :: id in states[k].records ==> states[k].records[id] == 1)
                && states[k].m.active.Keys == {} && states[k].m.unique.Keys == {}
  {
    EveryStateIsSafe(states, k);
    hide Behaviour, Inv, Settled;
    RecordsFinished(states[k]);
    if forall i :: 0 <= i < |states[k].starts| ==> Settled(states[k].starts[i]) {
      SettledHoldNothing(states[k]);
    }
  }

  lemma RecordsFinished(s: System)
    requires Inv(s)
    ensures forall id :: id in s.records ==> s.records[id] <= 1
    ensures (forall i :: 0 <= i < |s.starts| ==> Settled(s.starts[i])) ==> (forall id :: id in s.records ==> s.records[id] == 1)
  {
    forall id | id in s.records
      ensures s.records[id] <= 1
      ensures (forall i :: 0 <= i < |s.starts| ==> Settled(s.starts[i])) ==> s.records[id] == 1
    {
      var c := RecordOwner(s, id);
    }
  }

  lemma SettledHoldNothing(s: System)
    requires Inv(s) && forall i :: 0 <= i < |s.starts| ==> Settled(s.starts[i])
    ensures s.m.active.Keys == {} && s.m.unique.Keys == {}
  {
    hide Count, Accurate;
    NobodyHolds(ActiveId, s.starts, s.m.active.Keys);
    NobodyHolds(OwnedKey, s.starts, s.m.unique.Keys);
  }

  lemma RecordOwner(s: System, id: string) returns (c: Start)
    requires Inv(s) && id in s.records
    ensures FinishedAsOwned(s, id, c)
  {
    hide Count;
    var i :| 0 <= i < |s.starts| && RecordId(s.starts[i]) == Some(id);
    c := s.starts[i];
    assert Accurate(s.m, s.records, c);
  }

  /** The record of `id` belongs to call `c` and has been finished as often as that call says. */
  ghost predicate FinishedAsOwned(s: System, id: string, c: Start) {
    c in s.starts && id in s.records && s.records[id] == if Unfinished(c) then 0 else 1
  }

  /** Once the close call that did the closing has returned, no work runs and nothing is active. */
  lemma NoWorkAfterClose(states: seq<System>, k: nat, c: Start)
    requires Behaviour(states) && k < |states|
    requires Returned(true) in states[k].closes && c in states[k].starts
    ensures !Counted(c) && c.phase != Working && states[k].m.active == map[]
  {
    EveryStateIsSafe(states, k);
    hide Behaviour, Accurate;
    var s := states[k];
    if exists i :: 0 <= i < |s.starts| && Counted(s.starts[i]) {
      var i :| 0 <= i < |s.starts| && Counted(s.starts[i]);
      HolderCounts(Counted, s.starts, i);
    }
    NobodyHolds(ActiveId, s.starts, s.m.active.Keys);
    assert s.m.active == map[];
  }

  // ----- What the return of a close call means

  /** The wait group is empty exactly when no operation is under way. */
  lemma NothingCountedIff(s: System)
    requires Inv(s)
    ensures s.m.wg == 0 <==> forall c :: c in s.starts ==> !Counted(c)
    ensures s.m.wg == 0 ==> s.m.active == map[]
  {
    hide Accurate, Counted;
    if c :| c in s.starts && Counted(c) {
      var i :| 0 <= i < |s.starts| && s.starts[i] == c;
      HolderCounts(Counted, s.starts, i);
    } else {
      NoHolderNoCount(Counted, s.starts);
      assert forall i :: 0 <= i < |s.starts| ==> s.starts[i] in s.starts;
      NobodyActive(s);
    }
  }

  lemma NobodyActive(s: System)
    requires Inv(s) && forall c :: c in s.starts ==> !Counted(c)
    ensures s.m.active == map[]
  {
    hide Accurate, Count;
    assert forall i :: 0 <= i < |s.starts| ==> s.starts[i] in s.starts;
    NobodyHolds(ActiveId, s.starts, s.m.active.Keys);
  }

  /** A closed manager takes up no new work. */
  lemma QuietStep(s: System, i: nat, step: Step)
    requires s.m.closed && s.m.wg == 0 && Next(s, i, step).Some?
    ensures Next(s, i, step).value.m.closed && Next(s, i, step).value.m.wg == 0
  {
  }

  lemma {:induction false} QuietEverAfter(states: seq<System>, k: nat, n: nat)
    requires Behaviour(states) && k <= n < |states| && states[k].m.closed && states[k].m.wg == 0
    ensures states[n].m.closed && states[n].m.wg == 0
  {
    hide Next, Initial;
    if n > k {
      QuietEverAfter(states, k, n - 1);
      assert Follows(states[n - 1], states[n]);
      var i: nat, step :| Next(states[n - 1], i, step) == Some(states[n]);
      QuietStep(states[n - 1], i, step);
    }
  }

  ghost predicate NoWorkFrom(states: seq<System>, k: nat) {
    forall n, c :: k <= n < |states| && c in states[n].starts ==> !Counted(c)
  }

  /**
   * No work runs after a close call has returned, if and only if the wait group was empty when it returned. The
   * call that did the closing has waited for that; a later one returns at once, whatever still runs.
   */
  lemma NoWorkAfterReturnIff(states: seq<System>, k: nat, i: nat)
    requires Behaviour(states) && 0 < k < |states|
    requires i < |states[k - 1].closes| && i < |states[k].closes|
    requires !states[k - 1].closes[i].Returned? && states[k].closes[i].Returned?
    ensures NoWorkFrom(states, k) <==> states[k].m.wg == 0
    ensures states[k].closes[i] == Returned(true) ==> states[k].m.wg == 0
  {
    hide Behaviour, Counted, Accurate, Count;
    EveryStateIsSafe(states, k);
    assert states[k].closes[i] in states[k].closes;
    NothingCountedIff(states[k]);
    if states[k].m.wg == 0 {
      forall n, c | k <= n < |states| && c in states[n].starts
        ensures !Counted(c)
      {
        QuietEverAfter(states, k, n);
        EveryStateIsSafe(states, n);
        NothingCountedIff(states[n]);
      }
    }
  }

  // ----- Progress

  /** A start call that has nothing left to do. */
  predicate Over(c: Start) {
    c.phase in {Existing, Failed, Ended}
  }

  /** The step that a call can always take: persistence may refuse, and work returns. */
  function Willing(c: Start): Step {
    match c.phase
    case Idle => Begin
    case Creating => Create(false)
    case Created => Register
    case Refused => FinishRefused
    case Unreserve => Drop
    case Registered => StartRecord(false)
    case Working => WorkReturns
    case Finishing => Finish
    case Retiring => Retire
    case _ => Leave
  }

  /** A start call never waits for another call. */
  lemma StartsNeverWait(s: System, i: nat)
    requires Inv(s) && i < |s.starts| && !Over(s.starts[i])
    ensures Next(s, i, Willing(s.starts[i])).Some?
  {
    hide Exclusive, Accurate, Count;
    if Counted(s.starts[i]) {
      HolderCounts(Counted, s.starts, i);
    }
  }

  /** As long as a call is under way, some call can step. */
  lemma NoDeadlock(states: seq<System>, k: nat) returns (i: nat, step: Step)
    requires Behaviour(states) && k < |states|
    requires (exists j :: 0 <= j < |states[k].starts| && !Over(states[k].starts[j]))
             || (exists j :: 0 <= j < |states[k].closes| && !states[k].closes[j].Returned?)
    ensures Next(states[k], i, step).Some?
  {
    hide Behaviour, Inv, Next, Over;
    EveryStateIsSafe(states, k);
    var s := states[k];
    if j :| 0 <= j < |s.starts| && !Over(s.starts[j]) {
      StartsNeverWait(s, j);
      i, step := j, Willing(s.starts[j]);
    } else {
      var j: nat :| j < |s.closes| && !s.closes[j].Returned?;
      i, step := |s.starts| + j, if s.closes[j].NotCalled? then Close else CloseReturns;
      CloseCanStep(s, j);
    }
  }

  lemma CloseCanStep(s: System, j: nat)
    requires Inv(s) && j < |s.closes| && !s.closes[j].Returned? && forall i :: 0 <= i < |s.starts| ==> Over(s.starts[i])
    ensures Next(s, |s.starts| + j, if s.closes[j].NotCalled? then Close else CloseReturns).Some?
  {
    hide Exclusive, Accurate;
    NothingCountedIff(s);
  }

  function StartRank(c: Start): nat {
    match c.phase
    case Idle => 8
    case Creating => 7
    case Created => 6
    case Registered => 5
    case Working => 4
    case Finishing => 3
    case Retiring => 2
    case Refused => 2
    case Leaving => 1
    case Unreserve => 1
    case _ => 0
  }

  function CloseRank(c: CloseCall): nat {
    if c.NotCalled? then 2 else if c.Waiting? then 1 else 0
  }

  function Rank(s: System): nat {
    Total(StartRank, s.starts) + Total(CloseRank, s.closes)
  }

  lemma StepsRunOut(s: System, i: nat, step: Step)
    requires Next(s, i, step).Some?
    ensures Rank(Next(s, i, step).value) < Rank(s)
  {
    hide Total;
    var s' := Next(s, i, step).value;
    if i < |s.starts| {
      TotalUpdate(StartRank, s.starts, i, s'.starts[i]);
    } else {
      TotalUpdate(CloseRank, s.closes, i - |s.starts|, s'.closes[i - |s.starts|]);
    }
  }

  /** No behaviour is longer than the rank of its first state. */
  lemma {:induction false} RunsAreBounded(states: seq<System>, k: nat)
    requires Behaviour(states) && k < |states|
    ensures k + Rank(states[k]) <= Rank(states[0])
  {
    hide Next, Initial, Rank;
    if k > 0 {
      RunsAreBounded(states, k - 1);
      assert Follows(states[k - 1], states[k]);
      var i: nat, step :| Next(states[k - 1], i, step) == Some(states[k]);
      StepsRunOut(states[k - 1], i, step);
    }
  }

  predicate Enabled(s: System, i: nat, step: Step) {
    Next(s, i, step).Some?
  }

  lemma SomeCloseWaited(s: System)
    requires Inv(s) && forall j :: 0 <= j < |s.closes| ==> s.closes[j].Returned?
    ensures s.closes != [] ==> Returned(true) in s.closes
  {
    hide Exclusive, Accurate, Count;
    if s.closes != [] { assert s.closes[0] in s.closes && s.closes[0] in {Returned(true), Returned(false)}; }
  }

  /** A behaviour goes on until every start call is over and every close call has returned. */
  lemma EverythingReturns(states: seq<System>)
    requires Behaviour(states)
    ensures var last := states[|states| - 1];
            || (exists i: nat, step :: Enabled(last, i, step))
            || (&& (forall c :: c in last.starts ==> Over(c)) && (forall c :: c in last.closes ==> c.Returned?)
                && (last.closes != [] ==> Returned(true) in last.closes))
  {
    hide Next, Over, Initial;
    var (n, s) := (|states| - 1, states[|states| - 1]);
    if (exists j :: 0 <= j < |s.starts| && !Over(s.starts[j])) || (exists j :: 0 <= j < |s.closes| && !s.closes[j].Returned?) {
      var i, step := NoDeadlock(states, n);
      assert Enabled(s, i, step);
    } else {
      EveryStateIsSafe(states, n);
      SomeCloseWaited(s);
    }
  }

  /** A close call that finds the manager closed returns at once, so its return promises nothing: here
      one has returned while an operation's work runs. */
  lemma LateCloseDoesNotWait() returns (states: seq<System>)
    ensures Behaviour(states)
    ensures var last := states[|states| - 1];
            Returned(false) in last.closes && |last.starts| == 1 && last.starts[0].phase == Working
  {
    hide Behaviour;
    states := Opening(Request("k", "op", true));
    states := Extend(states, 0, Begin);
    states := Extend(states, 0, Create(true));
    states := Extend(states, 0, Register);
    states := Extend(states, 0, StartRecord(true));
    states := Extend(states, 1, Close);
    states := Extend(states, 2, Close);
    assert states[|states| - 1].closes[1] == Returned(false);
  }

  lemma Opening(r: Request) returns (states: seq<System>)
    ensures Behaviour(states)
    ensures states == [System(Manager(map[], map[], false, 0), map[], [Start(r, Idle, false)], [NotCalled, NotCalled])]
  {
    states := [System(Manager(map[], map[], false, 0), map[], [Start(r, Idle, false)], [NotCalled, NotCalled])];
  }

  lemma Extend(states: seq<System>, i: nat, step: Step) returns (more: seq<System>)
    requires Behaviour(states) && Next(states[|states| - 1], i, step).Some?
    ensures Behaviour(more) && more == states + [Next(states[|states| - 1], i, step).value]
  {
    more := states + [Next(states[|states| - 1], i, step).value];
    forall k | 0 < k < |more|
      ensures Follows(more[k - 1], more[k])
    {
      if k == |states| {
        assert Next(more[k - 1], i, step) == Some(more[k]);
      } else {
        assert more[k - 1] == states[k - 1] && more[k] == states[k];
      }
    }
  }
}
