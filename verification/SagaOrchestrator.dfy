/** The orchestrator's loop and the recovery pass, running against the store. */
module SagaOrchestrator {
  import opened Backoff
  import opened Common
  import opened SagaDefinition
  import opened SagaMachine
  import opened SagaRows
  import opened SagaShape

  /** Why `drive` returned. */
  datatype DriveEnd = Settled | Waiting | LostLease | AbandonedSaga | DidNotSettle

  datatype Report = Report(id: Id, status: Status, end: DriveEnd)

  /** How many more iterations a drive can make without waiting for anything. */
  function IterationsLeft(d: Definition, r: Record): int {
    match r.status
    case RUNNING => 2 * |d.steps| - r.cursor
    case COMPENSATING => r.cursor + 1
    case _ => 0
  }

  lemma IterationsShrink(d: Definition, policy: Policy, r: Record, t: Turn)
    requires Shape(d, policy, r) && !IsTerminal(r.status)
    requires StepOnce(d, policy, r, t).Ok?
    ensures var p := StepOnce(d, policy, r, t).value;
            && 0 < IterationsLeft(d, r)
            && (!p.release ==> IterationsLeft(d, Apply(r, p)) < IterationsLeft(d, r))
  {
  }

  lemma ReleasesWhenTerminal(d: Definition, policy: Policy, r: Record, t: Turn)
    ensures var p := StepOnce(d, policy, r, t); p.Ok? && IsTerminal(p.value.status) ==> p.value.release
  {
  }

  lemma InitialIterations(d: Definition, policy: Policy, r: Record)
    requires WellFormed(d) && Reachable(d, policy, r)
    ensures 0 <= IterationsLeft(d, r) <= 2 * |d.steps|
  {
    ReachableNext(d, policy, r, Turn(Returned(None), 0, 0.0));
  }

  /** What a drive left behind: the row, the record it reports, why it stopped, and the turns it used. */
  datatype Drove = Drove(row: Row, r: Record, end: DriveEnd, used: nat)

  /**
   * A scenario for one drive: `script[k]` is the step outcome, clock and jitter of iteration k,
   * and `others[k]` the row as some other runner left it while iteration k was working, if one
   * did. It covers a drive that runs to its iteration limit.
   */
  datatype Scenario = Scenario(script: seq<Turn>, others: seq<Option<Row>>)

  predicate Covers(d: Definition, sc: Scenario) {
    |sc.script| == |sc.others| == |d.steps| * 2 + 2
  }

  /** What other runners leave behind is leased to them, or to nobody. */
  predicate Foreign(sc: Scenario, owner: Owner) {
    forall k :: 0 <= k < |sc.others| && sc.others[k].Some? ==> sc.others[k].value.lockedBy != Some(owner)
  }

  /** What one iteration comes to: the end of the drive, or the row and record the next one starts from. */
  datatype Iteration = Ends(drove: Drove) | GoesOn(row: Row, r: Record)

  /** The row the k-th iteration finds when it comes to save. */
  function Found(row: Row, sc: Scenario, k: nat): Row
    requires k < |sc.others|
  {
    if sc.others[k].Some? then sc.others[k].value else row
  }

  function Iterate(d: Definition, policy: Policy, leaseMs: nat, owner: Owner, row: Row, current: Record, sc: Scenario, k: nat): Iteration
    requires Covers(d, sc) && k < |sc.script|
  {
    if IsTerminal(current.status) then Ends(Drove(row, current, Settled, k))
    else
      match StepOnce(d, policy, current, sc.script[k])
      case Err(_) =>
        var gone := Row(Abandoned(row.rec, CANNOT_ADVANCE), None, None);
        Ends(Drove(gone, gone.rec, AbandonedSaga, k))
      case Ok(p) =>
        var found := Found(row, sc, k);
        if found.lockedBy != Some(owner) then Ends(Drove(found, found.rec, LostLease, k))
        else
          var saved := SavedRow(found, Lease(owner, sc.script[k].now, leaseMs), p);
          if p.release then Ends(Drove(saved, saved.rec, if IsTerminal(saved.rec.status) then Settled else Waiting, k + 1))
          else GoesOn(saved, saved.rec)
  }

  function RowAfter(it: Iteration): Row {
    match it
    case Ends(o) => o.row
    case GoesOn(row, _) => row
  }

  /** The loop of `drive` from its k-th iteration on. */
  function DriveFrom(d: Definition, policy: Policy, leaseMs: nat, owner: Owner, row: Row, current: Record, sc: Scenario, k: nat): Drove
    requires Covers(d, sc) && k <= |sc.script|
    decreases |sc.script| - k
  {
    if k == |sc.script| then Drove(row, current, DidNotSettle, k)
    else
      match Iterate(d, policy, leaseMs, owner, row, current, sc, k)
      case Ends(o) => o
      case GoesOn(saved, r) => DriveFrom(d, policy, leaseMs, owner, saved, r, sc, k + 1)
  }

  /** The whole of `drive`, for a saga whose definition is registered or not. */
  function DriveAll(registry: map<string, Definition>, policy: Policy, leaseMs: nat, owner: Owner, row: Row, claimed: Record, sc: Scenario): Drove
    requires claimed.name in registry ==> Covers(registry[claimed.name], sc)
  {
    if claimed.name in registry then DriveFrom(registry[claimed.name], policy, leaseMs, owner, row, claimed, sc, 0)
    else
      var gone := Row(Abandoned(row.rec, CANNOT_ADVANCE), None, None);
      Drove(gone, gone.rec, AbandonedSaga, 0)
  }

  /**
   * A claimed saga whose definition is gone, or no longer begins with the steps its log completed, is
   * given up on at once: stuck, for anyone to see, with nothing else of it changed and no lease.
   */
  lemma UnrunnableIsStuck(registry: map<string, Definition>, policy: Policy, leaseMs: nat, owner: Owner, row: Row, claimed: Record, sc: Scenario)
    requires claimed.name in registry ==> Covers(registry[claimed.name], sc)
    requires claimed.name in registry ==>
               !IsTerminal(claimed.status) && !(ForwardDone(claimed.log) <= Names(registry[claimed.name].steps))
    ensures var stuck := row.rec.(status := STUCK, lastError := Some(Truncate(CANNOT_ADVANCE)));
            DriveAll(registry, policy, leaseMs, owner, row, claimed, sc) == Drove(Row(stuck, None, None), stuck, AbandonedSaga, 0)
  {
    if claimed.name in registry {
      RefusedExactly(registry[claimed.name], policy, claimed, sc.script[0]);
    }
  }

  /** One saga of a claimed batch: what was claimed, what others did to rows before its turn, and its scenario. */
  datatype Job = Job(id: Id, claimed: Record, between: map<Id, Row>, sc: Scenario)

  /** Nothing others do, before the saga's turn or during it, is done under this owner's id. */
  predicate JobOk(registry: map<string, Definition>, owner: Owner, j: Job) {
    && Foreign(j.sc, owner)
    && (forall id :: id in j.between ==> j.between[id].lockedBy != Some(owner))
    && (j.claimed.name in registry ==> Covers(registry[j.claimed.name], j.sc))
  }

  predicate JobsOk(registry: map<string, Definition>, owner: Owner, rows: map<Id, Row>, jobs: seq<Job>) {
    forall i :: 0 <= i < |jobs| ==> jobs[i].id in rows && JobOk(registry, owner, jobs[i])
  }

  /** The rows once the first `n` jobs are done, in turn. */
  function RowsAfter(registry: map<string, Definition>, policy: Policy, leaseMs: nat, owner: Owner, rows: map<Id, Row>, jobs: seq<Job>, n: nat): (r: map<Id, Row>)
    requires n <= |jobs| && JobsOk(registry, owner, rows, jobs)
    ensures rows.Keys <= r.Keys
  {
    if n == 0 then rows
    else
      var before := RowsAfter(registry, policy, leaseMs, owner, rows, jobs, n - 1) + jobs[n - 1].between;
      before[jobs[n - 1].id := DriveAll(registry, policy, leaseMs, owner, before[jobs[n - 1].id], jobs[n - 1].claimed, jobs[n - 1].sc).row]
  }

  lemma RunExtends(d: Definition, policy: Policy, claimed: Record, current: Record, script: seq<Turn>, used: nat)
    requires used < |script|
    requires !IsTerminal(current.status) && StepOnce(d, policy, current, script[used]).Ok?
    requires current == Run(d, policy, claimed, script[..used])
    ensures Apply(current, StepOnce(d, policy, current, script[used]).value) == Run(d, policy, claimed, script[..used + 1])
  {
    assert script[..used + 1][..used] == script[..used];
  }

  /** One more turn of a drive that has not settled: it can be taken, and brings the drive nearer its end. */
  lemma DriveTurn(d: Definition, policy: Policy, current: Record, t: Turn)
    requires WellFormed(d) && Reachable(d, policy, current) && !IsTerminal(current.status)
    ensures StepOnce(d, policy, current, t).Ok?
    ensures var p := StepOnce(d, policy, current, t).value;
            && Reachable(d, policy, Apply(current, p))
            && 0 < IterationsLeft(d, current)
            && (!p.release ==> 0 <= IterationsLeft(d, Apply(current, p)) < IterationsLeft(d, current))
  {
    ReachableNext(d, policy, current, t);
    NextKeepsShape(d, policy, current, t);
    IterationsShrink(d, policy, current, t);
    if !StepOnce(d, policy, current, t).value.release {
      InitialIterations(d, policy, Apply(current, StepOnce(d, policy, current, t).value));
    }
  }

  /** One iteration: the lease is gone, or the turn is saved and the drive ends or goes on. */
  lemma DriveStep(d: Definition, policy: Policy, leaseMs: nat, owner: Owner, row: Row, current: Record, sc: Scenario, k: nat)
    requires Covers(d, sc) && k < |sc.script| && !IsTerminal(current.status)
    requires StepOnce(d, policy, current, sc.script[k]).Ok?
    requires Foreign(sc, owner) && (row.lockedBy == Some(owner) ==> row.rec == current)
    ensures var o := DriveFrom(d, policy, leaseMs, owner, row, current, sc, k);
            var p := StepOnce(d, policy, current, sc.script[k]).value;
            var found := Found(row, sc, k);
            var saved := SavedRow(found, Lease(owner, sc.script[k].now, leaseMs), p);
            && (found.lockedBy != Some(owner) ==> o == Drove(found, found.rec, LostLease, k))
            && (found.lockedBy == Some(owner) ==> saved.rec == Apply(current, p))
            && (found.lockedBy == Some(owner) && p.release ==>
                  saved == Row(saved.rec, None, None)
                  && o == Drove(saved, saved.rec, if IsTerminal(saved.rec.status) then Settled else Waiting, k + 1))
            && (found.lockedBy == Some(owner) && !p.release ==>
                  saved.lockedBy == Some(owner) && o == DriveFrom(d, policy, leaseMs, owner, saved, saved.rec, sc, k + 1))
  {
  }

  /** How a drive that began with `current` at its k-th iteration ended. */
  predicate DroveWell(d: Definition, policy: Policy, owner: Owner, claimed: Record, current: Record, sc: Scenario, k: nat, o: Drove) {
    && (o.end == Settled || o.end == Waiting || o.end == LostLease)
    && k <= o.used <= 2 * |d.steps| && o.used <= |sc.script|
    && (o.end != LostLease ==> o.r == Run(d, policy, claimed, sc.script[..o.used]))
    && (o.end == Settled ==> IsTerminal(o.r.status))
    && (o.end == Waiting ==> !IsTerminal(o.r.status))
    && (o.end != LostLease && o.used > k ==> o.row == Row(o.r, None, None))
    && (o.end != LostLease && !IsTerminal(current.status) ==> o.used > k)
    && (o.end == LostLease ==> o.row.lockedBy != Some(owner) && o.r == o.row.rec)
  }

  /** A drive that ends with its k-th iteration. */
  lemma DriveEnds(d: Definition, policy: Policy, leaseMs: nat, owner: Owner, claimed: Record, row: Row, current: Record, sc: Scenario, k: nat)
    requires Covers(d, sc) && Foreign(sc, owner) && k < 2 * |d.steps|
    requires !IsTerminal(current.status) && StepOnce(d, policy, current, sc.script[k]).Ok?
    requires row.lockedBy == Some(owner) ==> row.rec == current
    requires var p := StepOnce(d, policy, current, sc.script[k]).value;
             && (p.release || Found(row, sc, k).lockedBy != Some(owner))
             && Apply(current, p) == Run(d, policy, claimed, sc.script[..k + 1])
    ensures DroveWell(d, policy, owner, claimed, current, sc, k, DriveFrom(d, policy, leaseMs, owner, row, current, sc, k))
  {
    DriveStep(d, policy, leaseMs, owner, row, current, sc, k);
  }

  /** A drive that goes on after its k-th iteration ends as it ends from there. */
  lemma DriveGoesOn(d: Definition, policy: Policy, leaseMs: nat, owner: Owner, claimed: Record, row: Row, current: Record, sc: Scenario,
                    k: nat, saved: Row)
    requires Covers(d, sc) && Foreign(sc, owner) && k < |sc.script|
    requires !IsTerminal(current.status) && StepOnce(d, policy, current, sc.script[k]).Ok?
    requires row.lockedBy == Some(owner) ==> row.rec == current
    requires var p := StepOnce(d, policy, current, sc.script[k]).value;
             && !p.release && Found(row, sc, k).lockedBy == Some(owner) && !IsTerminal(saved.rec.status)
             && saved == SavedRow(Found(row, sc, k), Lease(owner, sc.script[k].now, leaseMs), p)
    requires DroveWell(d, policy, owner, claimed, saved.rec, sc, k + 1, DriveFrom(d, policy, leaseMs, owner, saved, saved.rec, sc, k + 1))
    ensures DroveWell(d, policy, owner, claimed, current, sc, k, DriveFrom(d, policy, leaseMs, owner, row, current, sc, k))
  {
    DriveStep(d, policy, leaseMs, owner, row, current, sc, k);
  }

  /** What the k-th iteration saves when it goes on: the next record of the run, still leased, and not the last. */
  lemma DriveSaves(d: Definition, policy: Policy, leaseMs: nat, owner: Owner, claimed: Record, row: Row, current: Record, sc: Scenario,
                   k: nat) returns (saved: Row)
    requires WellFormed(d) && Covers(d, sc) && Foreign(sc, owner) && k < |sc.script|
    requires Reachable(d, policy, current) && !IsTerminal(current.status) && StepOnce(d, policy, current, sc.script[k]).Ok?
    requires current == Run(d, policy, claimed, sc.script[..k])
    requires row.lockedBy == Some(owner) ==> row.rec == current
    requires !StepOnce(d, policy, current, sc.script[k]).value.release && Found(row, sc, k).lockedBy == Some(owner)
    ensures saved == SavedRow(Found(row, sc, k), Lease(owner, sc.script[k].now, leaseMs), StepOnce(d, policy, current, sc.script[k]).value)
    ensures saved.rec == Run(d, policy, claimed, sc.script[..k + 1]) && saved.lockedBy == Some(owner) && !IsTerminal(saved.rec.status)
    ensures Reachable(d, policy, saved.rec) && IterationsLeft(d, saved.rec) < IterationsLeft(d, current)
  {
    var t := sc.script[k];
    saved := SavedRow(Found(row, sc, k), Lease(owner, t.now, leaseMs), StepOnce(d, policy, current, t).value);
    DriveStep(d, policy, leaseMs, owner, row, current, sc, k);
    DriveTurn(d, policy, current, t);
    RunExtends(d, policy, claimed, current, sc.script, k);
    ReleasesWhenTerminal(d, policy, current, t);
  }

  /**
   * A drive of a saga whose definition has not changed ends by settling, by scheduling a retry or
   * by finding its lease gone: it never gives up on the saga and never reaches its iteration
   * limit. Unless it lost the lease, what it wrote is the sequential run over the turns it used.
   */
  lemma {:induction false} DriveSettles(d: Definition, policy: Policy, leaseMs: nat, owner: Owner,
                                        claimed: Record, row: Row, current: Record, sc: Scenario, k: nat)
    requires WellFormed(d) && Covers(d, sc) && Foreign(sc, owner) && k <= |sc.script|
    requires Reachable(d, policy, current) && k + IterationsLeft(d, current) <= 2 * |d.steps|
    requires current == Run(d, policy, claimed, sc.script[..k])
    requires row.lockedBy == Some(owner) ==> row.rec == current
    ensures DroveWell(d, policy, owner, claimed, current, sc, k, DriveFrom(d, policy, leaseMs, owner, row, current, sc, k))
    decreases |sc.script| - k
  {
    InitialIterations(d, policy, current);
    if !IsTerminal(current.status) {
      DriveTurn(d, policy, current, sc.script[k]);
      if StepOnce(d, policy, current, sc.script[k]).value.release || Found(row, sc, k).lockedBy != Some(owner) {
        RunExtends(d, policy, claimed, current, sc.script, k);
        DriveEnds(d, policy, leaseMs, owner, claimed, row, current, sc, k);
      } else {
        var saved := DriveSaves(d, policy, leaseMs, owner, claimed, row, current, sc, k);
        DriveSettles(d, policy, leaseMs, owner, claimed, saved, saved.rec, sc, k + 1);
        DriveGoesOn(d, policy, leaseMs, owner, claimed, row, current, sc, k, saved);
      }
    }
  }

  class SagaOrchestrator {
    const store: SagaStore
    const registry: map<string, Definition>
    const policy: Policy
    const leaseMs: nat

    constructor (store: SagaStore, registry: map<string, Definition>, policy: Policy, leaseMs: nat)
      ensures this.store == store && this.registry == registry && this.policy == policy && this.leaseMs == leaseMs
    {
      this.store := store;
      this.registry := registry;
      this.policy := policy;
      this.leaseMs := leaseMs;
    }

    /** A record of a saga this orchestrator has the definition of, as some sequential run left it. */
    ghost predicate Runnable(r: Record) {
      && r.name in registry
      && registry[r.name].name == r.name
      && WellFormed(registry[r.name])
      && Reachable(registry[r.name], policy, r)
    }

    /** Saves a step under the lease, after whatever another runner did to the row in the meantime. */
    method SaveStep(id: Id, other: Option<Row>, lease: Lease, p: Progress) returns (saved: Option<Record>)
      requires id in store.rows
      modifies store
      ensures var found := if other.Some? then other.value else old(store.rows)[id];
              var held := found.lockedBy == Some(lease.owner);
              && store.rows == old(store.rows)[id := if held then SavedRow(found, lease, p) else found]
              && saved == if held then Some(store.rows[id].rec) else None
    {
      if other.Some? {
        store.rows := store.rows[id := other.value];
      }
      saved := store.Save(id, lease, p);
    }

    /** Drives a claimed saga as far as it goes without waiting. */
    method Drive(id: Id, claimed: Record, owner: Owner, sc: Scenario) returns (o: Drove)
      requires id in store.rows
      requires claimed.name in registry ==> Covers(registry[claimed.name], sc)
      modifies store
      ensures o == DriveAll(registry, policy, leaseMs, owner, old(store.rows)[id], claimed, sc)
      ensures store.rows == old(store.rows)[id := o.row]
    {
      if claimed.name !in registry {
        store.Abandon(id, CANNOT_ADVANCE);
        return Drove(store.rows[id], store.rows[id].rec, AbandonedSaga, 0);
      }
      o := DriveSteps(registry[claimed.name], id, claimed, owner, sc);
    }

    method DriveSteps(d: Definition, id: Id, claimed: Record, owner: Owner, sc: Scenario) returns (o: Drove)
      requires id in store.rows && Covers(d, sc)
      modifies store
      ensures o == DriveFrom(d, policy, leaseMs, owner, old(store.rows)[id], claimed, sc, 0)
      ensures store.rows == old(store.rows)[id := o.row]
    {
      var current := claimed;
      var maxIterations := |d.steps| * 2 + 2;
      ghost var goal := DriveFrom(d, policy, leaseMs, owner, store.rows[id], claimed, sc, 0);
      for iteration := 0 to maxIterations
        invariant id in store.rows && store.rows == old(store.rows)[id := store.rows[id]]
        invariant goal == DriveFrom(d, policy, leaseMs, owner, store.rows[id], current, sc, iteration)
      {
        var it := DriveOnce(d, id, current, owner, sc, iteration);
        if it.Ends? {
          return it.drove;
        }
        current := it.r;
      }
      return Drove(store.rows[id], current, DidNotSettle, maxIterations);
    }

    /** The body of the loop. */
    method DriveOnce(d: Definition, id: Id, current: Record, owner: Owner, sc: Scenario, iteration: nat) returns (it: Iteration)
      requires id in store.rows && Covers(d, sc) && iteration < |sc.script|
      modifies store
      ensures it == Iterate(d, policy, leaseMs, owner, old(store.rows)[id], current, sc, iteration)
      ensures store.rows == old(store.rows)[id := RowAfter(it)]
    {
      if IsTerminal(current.status) {
        return Ends(Drove(store.rows[id], current, Settled, iteration));
      }
      var stepped := StepOnce(d, policy, current, sc.script[iteration]);
      if stepped.Err? {
        store.Abandon(id, CANNOT_ADVANCE);
        return Ends(Drove(store.rows[id], store.rows[id].rec, AbandonedSaga, iteration));
      }
      var progress := stepped.value;
      var saved := SaveStep(id, sc.others[iteration], Lease(owner, sc.script[iteration].now, leaseMs), progress);
      if saved.None? {
        return Ends(Drove(store.rows[id], store.rows[id].rec, LostLease, iteration));
      }
      if progress.release {
        return Ends(Drove(store.rows[id], saved.value, if IsTerminal(saved.value.status) then Settled else Waiting, iteration + 1));
      }
      return GoesOn(store.rows[id], saved.value);
    }

    /** The drive of a runnable saga, seen from the store. */
    lemma DriveOfRunnable(claimed: Record, row: Row, owner: Owner, sc: Scenario)
      requires Runnable(claimed) && Covers(registry[claimed.name], sc) && Foreign(sc, owner)
      requires row.lockedBy == Some(owner) ==> row.rec == claimed
      ensures var o := DriveFrom(registry[claimed.name], policy, leaseMs, owner, row, claimed, sc, 0);
              && (o.end == Settled || o.end == Waiting || o.end == LostLease)
              && (!IsTerminal(claimed.status) ==> o.r == o.row.rec)
    {
      assert sc.script[..0] == [];
      InitialIterations(registry[claimed.name], policy, claimed);
      DriveSettles(registry[claimed.name], policy, leaseMs, owner, claimed, row, claimed, sc, 0);
    }

    /** Claims one saga under a fresh owner id and drives it, or reports it as it stands. */
    method Advance(id: Id, owner: Owner, now: Time, sc: Scenario) returns (r: Option<Record>, ghost end: DriveEnd)
      requires Foreign(sc, owner)
      requires id in store.rows && store.rows[id].rec.name in registry ==> Covers(registry[store.rows[id].rec.name], sc)
      modifies store
      ensures r.None? <==> id !in old(store.rows)
      ensures id in old(store.rows) && !Claimable(old(store.rows)[id], now) ==>
                store.rows == old(store.rows) && r == Some(old(store.rows)[id].rec)
      ensures id in old(store.rows) && Claimable(old(store.rows)[id], now) && Runnable(old(store.rows)[id].rec) ==>
                id in store.rows && r == Some(store.rows[id].rec) && (end == Settled || end == Waiting || end == LostLease)
      ensures forall i :: i in store.rows && i != id ==> i in old(store.rows) && store.rows[i] == old(store.rows)[i]
    {
      var claimed := store.Claim(id, Lease(owner, now, leaseMs));
      if claimed.None? {
        end := LostLease;
        return if id in store.rows then Some(store.rows[id].rec) else None, end;
      }
      ghost var row := store.rows[id];
      var o := Drive(id, claimed.value, owner, sc);
      if Runnable(claimed.value) {
        DriveOfRunnable(claimed.value, row, owner, sc);
      }
      return Some(o.r), o.end;
    }

    /** The saga's own report; it is not abandoned under an unchanged definition. */
    ghost predicate ReportOk(job: Job, report: Report) {
      report.id == job.id && (Runnable(job.claimed) ==> report.end == Settled || report.end == Waiting || report.end == LostLease)
    }

    ghost predicate Reported(jobs: seq<Job>, advanced: seq<Report>) {
      |advanced| <= |jobs| && forall i :: 0 <= i < |advanced| ==> ReportOk(jobs[i], advanced[i])
    }

    /** A lease of the batch may be lost to others meanwhile; while it is not, the record is the one claimed. */
    ghost predicate StillClaimed(rows: map<Id, Row>, owner: Owner, jobs: seq<Job>, from: nat) {
      forall j :: from <= j < |jobs| && jobs[j].id in rows && rows[jobs[j].id].lockedBy == Some(owner) ==>
                    rows[jobs[j].id].rec == jobs[j].claimed
    }

    /** One saga of the batch: others act, then it is driven. */
    method AdvanceOne(owner: Owner, ghost jobs: seq<Job>, ghost n: nat, job: Job) returns (report: Report)
      requires n < |jobs| && job == jobs[n] && job.id in store.rows && JobOk(registry, owner, job)
      requires StillClaimed(store.rows, owner, jobs, n)
      requires forall j :: n < j < |jobs| ==> jobs[j].id != job.id
      modifies store
      ensures var before := old(store.rows) + job.between;
              store.rows == before[job.id := DriveAll(registry, policy, leaseMs, owner, before[job.id], job.claimed, job.sc).row]
      ensures StillClaimed(store.rows, owner, jobs, n + 1)
      ensures ReportOk(job, report)
    {
      store.rows := store.rows + job.between;
      ghost var row := store.rows[job.id];
      var o := Drive(job.id, job.claimed, owner, job.sc);
      if Runnable(job.claimed) {
        DriveOfRunnable(job.claimed, row, owner, job.sc);
      }
      return Report(job.id, o.r.status, o.end);
    }

    /** Drives a claimed batch in turn. */
    method AdvanceBatch(owner: Owner, jobs: seq<Job>) returns (advanced: seq<Report>)
      requires JobsOk(registry, owner, store.rows, jobs)
      requires forall i, j :: 0 <= i < j < |jobs| ==> jobs[i].id != jobs[j].id
      requires StillClaimed(store.rows, owner, jobs, 0)
      modifies store
      ensures store.rows == RowsAfter(registry, policy, leaseMs, owner, old(store.rows), jobs, |jobs|)
      ensures |advanced| == |jobs| && Reported(jobs, advanced)
    {
      advanced := [];
      for i := 0 to |jobs|
        invariant store.rows == RowsAfter(registry, policy, leaseMs, owner, old(store.rows), jobs, i)
        invariant StillClaimed(store.rows, owner, jobs, i)
        invariant |advanced| == i && Reported(jobs, advanced)
      {
        var report := AdvanceOne(owner, jobs, i, jobs[i]);
        advanced := advanced + [report];
      }
    }

    /** The claimed sagas as jobs, with the records they were claimed at. */
    static function Jobs(rows: map<Id, Row>, claimed: seq<Id>, scenarios: map<Id, Scenario>, between: seq<map<Id, Row>>): (jobs: seq<Job>)
      requires |claimed| <= |between|
      requires forall i :: 0 <= i < |claimed| ==> claimed[i] in rows && claimed[i] in scenarios
      ensures |jobs| == |claimed|
      ensures forall i :: 0 <= i < |jobs| ==> jobs[i] == Job(claimed[i], rows[claimed[i]].rec, between[i], scenarios[claimed[i]])
    {
      seq(|claimed|, i requires 0 <= i < |claimed| => Job(claimed[i], rows[claimed[i]].rec, between[i], scenarios[claimed[i]]))
    }

    /** Leasing changes no record, so the jobs are those of the rows before. */
    static lemma SameJobs(was: map<Id, Row>, now: map<Id, Row>, claimed: seq<Id>, scenarios: map<Id, Scenario>, between: seq<map<Id, Row>>)
      requires |claimed| <= |between|
      requires forall i :: 0 <= i < |claimed| ==>
                 claimed[i] in was && claimed[i] in now && claimed[i] in scenarios && now[claimed[i]].rec == was[claimed[i]].rec
      ensures Jobs(now, claimed, scenarios, between) == Jobs(was, claimed, scenarios, between)
    {
    }

    /**
     * One recovery pass: claims a batch of due sagas under one owner, then drives them in turn.
     *
     * `between[i]` is what other runners did to rows before the i-th saga of the batch is
     * reached; a lease of this batch may have expired and been taken by then. Every claimed saga
     * is driven exactly once, in the order it was claimed, and none with an unchanged definition
     * is abandoned. The rows left are what that claim and those drives make of them, in turn.
     */
    method RunOnce(owner: Owner, now: Time, batchSize: nat, scenarios: map<Id, Scenario>, between: seq<map<Id, Row>>)
      returns (claimed: seq<Id>, advanced: seq<Report>)
      requires forall id :: id in store.rows ==>
                              && id in scenarios && Foreign(scenarios[id], owner)
                              && (store.rows[id].rec.name in registry ==> Covers(registry[store.rows[id].rec.name], scenarios[id]))
      requires |between| == batchSize
      requires forall i, id :: 0 <= i < |between| && id in between[i] ==> between[i][id].lockedBy != Some(owner)
      modifies store
      ensures |claimed| <= batchSize
      ensures forall i :: 0 <= i < |claimed| ==> claimed[i] in old(store.rows) && claimed[i] in Due(old(store.rows), now) && claimed[i] in scenarios
      ensures |claimed| == batchSize || forall id :: id in Due(old(store.rows), now) ==> id in claimed
      ensures var jobs := Jobs(old(store.rows), claimed, scenarios, between);
              var leased := AllLeased(old(store.rows), claimed, Lease(owner, now, leaseMs));
              && JobsOk(registry, owner, leased, jobs)
              && store.rows == RowsAfter(registry, policy, leaseMs, owner, leased, jobs, |jobs|)
              && |advanced| == |jobs| && Reported(jobs, advanced)
    {
      ghost var start := store.rows;
      var lease := Lease(owner, now, leaseMs);
      claimed := store.ClaimDue(lease, batchSize);
      assert forall i :: 0 <= i < |claimed| ==> claimed[i] in start && claimed[i] in scenarios;
      var jobs := Jobs(store.rows, claimed, scenarios, between);
      SameJobs(start, store.rows, claimed, scenarios, between);
      advanced := AdvanceBatch(owner, jobs);
    }
  }
}
