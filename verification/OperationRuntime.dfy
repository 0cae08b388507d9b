/** The operation manager's own code, one caller at a time: each call walks through the machine of `OperationManager`. */
module OperationRuntime {
  import opened OperationManager
  import opened Wrappers

  /** Where a start call gets to by a sequence of its own steps. */
  ghost function Follow(m: Manager, records: map<string, nat>, c: Start, steps: seq<Step>): Option<(Manager,
       map<string, nat>, Start)> {
    if steps == [] then Some((m, records, c))
    else
      match Follow(m, records, c, steps[..|steps| - 1])
      case None => None
      case Some((m', records', c')) => Move(m', records', c', steps[|steps| - 1])
  }

  lemma FollowMore(m: Manager, records: map<string, nat>, c: Start, steps: seq<Step>, step: Step)
    ensures Follow(m, records, c, steps + [step])
            == match Follow(m, records, c, steps) {
                 case None => None
                 case Some((m', records', c')) => Move(m', records', c', step)
               }
  {
    assert (steps + [step])[..|steps|] == steps;
  }

  lemma FollowOne(m: Manager, records: map<string, nat>, c: Start, step: Step)
    ensures Follow(m, records, c, [step]) == Move(m, records, c, step)
  {
    assert [step][..0] == [];
    assert Follow(m, records, c, []) == Some((m, records, c));
  }

  // A stored operation, and the finish calls made for it.
  datatype Record = Record(id: string, finished: nat)

  // For a key in use: the record that was read, none if it could not be, or an error while it is being made.
  datatype Outcome = Started | AlreadyThere(found: Option<Record>) | Starting | NotStarted

  class Runtime {
    var active: map<string, string>   // the unique key, by operation
    var unique: map<string, string>   // the operation, by unique key; empty while it is starting
    var closed: bool
    var wg: nat
    var records: map<string, nat>     // the finish calls made, by created record

    ghost function View(): Manager
      reads this
    {
      Manager(active, unique, closed, wg)
    }

    constructor ()
      ensures View() == Manager(map[], map[], false, 0) && records == map[]
    {
      active, unique, closed, wg, records := map[], map[], false, 0, map[];
    }

    method FinishRecord(id: string)
      modifies this`records
      ensures records == Finished(old(records), id)
    {
      records := records[id := (if id in records then records[id] else 0) + 1];
    }

    method Read(id: string, readable: bool) returns (found: Option<Record>)
      ensures found == if readable && id in records then Some(Record(id, records[id])) else None
    {
      found := if readable && id in records then Some(Record(id, records[id])) else None;
    }

    /** The record, its registration and the hand-over to the goroutine. */
    method Begin(r: Request, stored: bool, ghost c: Start) returns (ok: bool, ghost c': Start, ghost steps: seq<Step>)
      requires c == Start(r, Creating, false) && (stored ==> r.id !in records)
      modifies this
      ensures Follow(old(View()), old(records), c, steps) == Some((View(), records, c'))
      ensures ok <==> r.complete && r.id != "" && stored && !old(closed)
      ensures c'.request == r
      ensures closed == old(closed)
      ensures ok ==> c'.phase == Registered
      ensures ok ==>
        && active == old(active)[r.id := r.key] && wg == old(wg) + 1 && records == old(records)[r.id := 0]
        && unique == if r.key != "" then old(unique)[r.key := r.id] else old(unique)
      ensures !ok ==> records == if r.complete && r.id != "" && stored then old(records)[r.id := 1] else old(records)
      ensures !ok ==> c'.phase == if r.key != "" then Unreserve else Failed
      ensures !ok ==> View() == old(View())
    {
      hide Follow;
      steps := [Step.Create(stored)];
      FollowOne(View(), records, c, steps[0]);
      if !r.complete || r.id == "" || !stored {
        c' := c.(phase := if r.key != "" then Unreserve else Failed);
        return false, c', steps;
      }
      records := records[r.id := 0];
      FollowMore(old(View()), old(records), c, steps, Step.Register);
      steps := steps + [Step.Register];
      if closed {
        FinishRecord(r.id);
        FollowMore(old(View()), old(records), c, steps, Step.FinishRefused);
        steps := steps + [Step.FinishRefused];
        c' := c.(phase := if r.key != "" then Unreserve else Failed, created := true);
        return false, c', steps;
      }
      active := active[r.id := r.key];
      if r.key != "" { unique := unique[r.key := r.id]; }
      wg := wg + 1;
      c' := c.(phase := Registered, created := true);
      ok := true;
    }

    /** A start call with a unique key, or without one. */
    method StartUnique(r: Request, stored: bool, readable: bool) returns (outcome: Outcome, ghost c': Start, ghost steps: seq<Step>)
      requires stored ==> r.id !in records
      modifies this
      ensures Follow(old(View()), old(records), Start(r, Idle, false), steps) == Some((View(), records, c'))
      ensures outcome.Started? <==> c'.phase == Registered
      ensures outcome.AlreadyThere? || outcome.Starting? <==> c'.phase == Existing
      ensures outcome.NotStarted? <==> c'.phase == Failed
      // what it comes to, and the whole new state
      ensures outcome.Started? <==>
        (r.key == "" || r.key !in old(unique)) && r.complete && r.id != "" && stored && !old(closed)
      ensures outcome.AlreadyThere? || outcome.Starting? <==> r.key != "" && r.key in old(unique)
      ensures closed == old(closed)
      ensures outcome.Started? ==>
        && active == old(active)[r.id := r.key] && wg == old(wg) + 1 && records == old(records)[r.id := 0]
        && unique == if r.key != "" then old(unique)[r.key := r.id] else old(unique)
      ensures outcome.NotStarted? ==>
        records == if r.complete && r.id != "" && stored then old(records)[r.id := 1] else old(records)
      ensures outcome.AlreadyThere? || outcome.Starting? ==> r.key != "" && r.key in unique && View() == old(View()) && records == old(records)
      ensures outcome.Starting? <==> r.key != "" && r.key in old(unique) && old(unique)[r.key] == ""
      ensures outcome.AlreadyThere? ==> unique[r.key] != "" && (outcome.found.Some? <==> readable && unique[r.key] in records)
      ensures outcome.AlreadyThere? && outcome.found.Some? ==> outcome.found.value == Record(unique[r.key], records[unique[r.key]])
      ensures outcome.NotStarted? ==> View() == old(View())
    {
      ghost var c := Start(r, Idle, false);
      hide Follow;
      FollowOne(View(), records, c, Step.Begin);
      ghost var first := [Step.Begin];
      if r.key != "" {
        if r.key in unique {
          if unique[r.key] == "" { return Starting, c.(phase := Existing), first; }
          var found := Read(unique[r.key], readable);
          return AlreadyThere(found), c.(phase := Existing), first;
        }
        unique := unique[r.key := ""];
      }
      ghost var creating := c.(phase := Creating);
      ghost var (reserved, known) := (View(), records);
      var ok, began, more := Begin(r, stored, creating);
      FollowOn(old(View()), known, c, first, reserved, known, creating, more);
      steps, c' := first + more, began;
      if ok { return Started, c', steps; }
      if r.key != "" {
        unique := unique - {r.key};
        FollowMore(old(View()), known, c, steps, Step.Drop);
        steps := steps + [Step.Drop];
        c' := c'.(phase := Failed);
        assert unique == old(unique);
      }
      outcome := NotStarted;
    }

    /** The record is started, worked on and finished; one that cannot be started is finished at once. */
    method Work(r: Request, started: bool) returns (ghost steps: seq<Step>)
      modifies this`records
      ensures Follow(View(), old(records), Start(r, Registered, true), steps) == Some((View(), records, Start(r, Retiring, true)))
      ensures records == Finished(old(records), r.id)
    {
      hide Follow;
      ghost var (m, known, c) := (View(), records, Start(r, Registered, true));
      steps := [Step.StartRecord(started)];
      FollowOne(m, known, c, steps[0]);
      if started {
        FollowMore(m, known, c, steps, Step.WorkReturns);
        steps := steps + [Step.WorkReturns];
        FollowMore(m, known, c, steps, Step.Finish);
        steps := steps + [Step.Finish];
      }
      FinishRecord(r.id);
    }

    /** The goroutine of a registered operation, from start to end. */
    method Run(r: Request, started: bool) returns (ghost steps: seq<Step>)
      requires wg > 0
      modifies this
      ensures Follow(old(View()), old(records), Start(r, Registered, true), steps) == Some((View(), records, Start(r, Ended, true)))
      ensures closed == old(closed) && wg == old(wg) - 1 && active == old(active) - {r.id}
      ensures unique == if r.key != "" && r.key in old(unique) && old(unique)[r.key] == r.id then old(unique) - {r.key} else old(unique)
      ensures records == old(records)[r.id := (if r.id in old(records) then old(records)[r.id] else 0) + 1]
    {
      hide Follow;
      ghost var (m, known, c) := (View(), records, Start(r, Registered, true));
      steps := Work(r, started);
      active := active - {r.id};
      if r.key != "" && r.key in unique && unique[r.key] == r.id { unique := unique - {r.key}; }
      FollowMore(m, known, c, steps, Step.Retire);
      steps := steps + [Step.Retire];
      wg := wg - 1;
      FollowMore(m, known, c, steps, Step.Leave);
      steps := steps + [Step.Leave];
    }

    /** The lock-protected part of closing; only the first call goes on to wait for the goroutines. */
    method BeginClose() returns (waits: bool)
      modifies this
      ensures MoveClose(old(View()), NotCalled, Step.Close) == Some((View(), if waits then Waiting else Returned(false)))
      ensures waits <==> !old(closed)
      ensures closed && records == old(records) && active == old(active) && unique == old(unique) && wg == old(wg)
    {
      if closed { return false; }
      closed := true;
      waits := true;
    }
  }

  lemma {:induction false} FollowOn(m: Manager, records: map<string, nat>, c: Start, first: seq<Step>,
                                    m': Manager, records': map<string, nat>, c': Start, more: seq<Step>)
    requires Follow(m, records, c, first) == Some((m', records', c'))
    ensures Follow(m, records, c, first + more) == Follow(m', records', c', more)
  {
    if more == [] {
      assert first + more == first;
    } else {
      var n := |more| - 1;
      FollowOn(m, records, c, first, m', records', c', more[..n]);
      assert first + more == first + more[..n] + [more[n]] && more == more[..n] + [more[n]];
      FollowMore(m, records, c, first + more[..n], more[n]);
    }
  }
}
