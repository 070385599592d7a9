/**
 * What a lease is for: who may take a saga and when, how long it is theirs, and that while it is,
 * nobody else touches its row.
 */
module SagaLeases {
  import opened Common
  import opened SagaMachine
  import opened SagaRows
  import opened SagaShape
  import opened SagaSystem

  /** Leased to this owner until this time. */
  predicate HeldUntil(row: Row, owner: Owner, until: Time) {
    row.lockedBy == Some(owner) && row.lockedUntil == Some(until)
  }

  predicate Unleased(row: Row) {
    row.lockedBy == None && row.lockedUntil == None
  }

  /** Every row is leased to a runner that was started, until some time, or to nobody. */
  predicate LeasesOk(s: System) {
    forall id :: id in s.rows ==> LeaseOk(s.used, s.rows[id])
  }

  predicate LeaseOk(used: set<Owner>, row: Row) {
    Unleased(row) || (row.lockedBy.Some? && row.lockedUntil.Some? && row.lockedBy.value in used)
  }

  lemma ActKeepsLeases(c: Config, s: System, a: Action)
    requires ValidConfig(c) && Inv(c, s) && LeasesOk(s)
    ensures LeasesOk(Act(c, s, a))
  {
    if a.Work? {
      WorkKeeps(c, s, a);
    } else {
      var s' := Act(c, s, a);
      forall id | id in s'.rows
        ensures LeaseOk(s'.used, s'.rows[id])
      {
        assert id in s.rows ==> LeaseOk(s.used, s.rows[id]);
      }
    }
  }

  lemma {:induction false} ExecKeepsLeases(c: Config, actions: seq<Action>)
    requires ValidConfig(c)
    ensures LeasesOk(Exec(c, actions))
  {
    if actions != [] {
      var before := actions[..|actions| - 1];
      ExecKeepsLeases(c, before);
      ExecKeeps(c, before);
      ActKeepsLeases(c, Exec(c, before), actions[|actions| - 1]);
    }
  }

  // ---------------------------------------------------------------- taking

  /**
   * In every interleaving, a runner that is just started takes exactly those rows it asks for that are
   * unsettled, due, and leased to nobody or past their lease; each is then its own for the lease's
   * length, the record as it was, and every other row is untouched.
   */
  lemma TakenExactly(c: Config, actions: seq<Action>, owner: Owner, ids: set<Id>, now: Time, id: Id)
    requires ValidConfig(c) && owner !in Exec(c, actions).used && id in Exec(c, actions).rows
    ensures var row, s' := Exec(c, actions).rows[id], Act(c, Exec(c, actions), Take(owner, ids, now));
            var free := Unleased(row) || (row.lockedUntil.Some? && row.lockedUntil.value <= now);
            && id in s'.rows && s'.rows[id].rec == row.rec
            && (if id in ids && !IsTerminal(row.rec.status) && row.rec.nextAttemptAt <= now && free
                then HeldUntil(s'.rows[id], owner, now + c.leaseMs) && IsHolding(s', owner, id) && s'.runners[owner][id].rec == row.rec
                else s'.rows[id] == row && row.lockedBy != Some(owner) && !IsHolding(s', owner, id))
  {
    ExecKeepsLeases(c, actions);
    assert LeaseOk(Exec(c, actions).used, Exec(c, actions).rows[id]);
  }

  // ---------------------------------------------------------------- holding

  /** The action is not the holder's own save, nor a claim that comes when the lease has run out. */
  predicate Within(a: Action, owner: Owner, id: Id, until: Time) {
    && !(a.Save? && a.owner == owner && a.id == id)
    && (a.Take? ==> a.now < until)
  }

  lemma ActRespectsLease(c: Config, s: System, a: Action, owner: Owner, id: Id, until: Time)
    requires ValidConfig(c) && Inv(c, s) && id in s.rows && HeldUntil(s.rows[id], owner, until)
    requires Within(a, owner, id, until)
    ensures id in Act(c, s, a).rows && Act(c, s, a).rows[id] == s.rows[id]
  {
    if a.Work? {
      WorkKeeps(c, s, a);
    }
  }

  /**
   * In every interleaving, a row leased to a runner stays exactly as it is, record and lease, until
   * that runner saves it or someone claims it after the lease has run out: whatever others claim,
   * save or do before, and whether or not the runner is still alive.
   */
  lemma {:induction false} LeaseProtects(c: Config, actions: seq<Action>, more: seq<Action>, owner: Owner, id: Id, until: Time)
    requires ValidConfig(c)
    requires id in Exec(c, actions).rows && HeldUntil(Exec(c, actions).rows[id], owner, until)
    requires forall i :: 0 <= i < |more| ==> Within(more[i], owner, id, until)
    ensures id in Exec(c, actions + more).rows && Exec(c, actions + more).rows[id] == Exec(c, actions).rows[id]
  {
    if more == [] {
      assert actions + more == actions;
    } else {
      var front := more[..|more| - 1];
      assert (actions + more)[..|actions + more| - 1] == actions + front;
      LeaseProtects(c, actions, front, owner, id, until);
      ExecKeeps(c, actions + front);
      ActRespectsLease(c, Exec(c, actions + front), more[|more| - 1], owner, id, until);
    }
  }

  // ---------------------------------------------------------------- saving

  /** A step leaves the saga to go on at once, or to wait or rest. */
  lemma ReleasedExactly(c: Config, r: Record, t: Turn)
    requires r.name in c.registry && Shape(c.registry[r.name], c.policy, r) && !IsTerminal(r.status)
    requires StepOnce(c.registry[r.name], c.policy, r, t).Ok?
    ensures var p := StepOnce(c.registry[r.name], c.policy, r, t).value;
            ReleasesRightly(p)
  {
  }

  /** The lease of a row after a save by its holder. */
  predicate RenewedOrReleased(row: Row, owner: Owner, until: Time) {
    if IsTerminal(row.rec.status) || row.rec.attempts > 0 then Unleased(row) else HeldUntil(row, owner, until)
  }

  predicate ReleasesRightly(p: Progress) {
    p.release <==> IsTerminal(p.status) || p.attempts > 0
  }

  lemma ReadyReleasesRightly(c: Config, s: System, owner: Owner, id: Id)
    requires ValidConfig(c) && Inv(c, s) && IsReady(s, owner, id)
    ensures ReleasesRightly(s.runners[owner][id].progress)
  {
    assert LocalOk(c, s, owner, id);
    var l := s.runners[owner][id];
    var k: nat :| k <= |s.landed[id]| && l.rec == Past(c, s, id, k);
    PastShape(c, s, id, k);
    ReleasedExactly(c, l.rec, l.turn);
  }

  lemma SaveLands(c: Config, s: System, owner: Owner, id: Id, now: Time)
    requires IsReady(s, owner, id) && s.rows[id].lockedBy == Some(owner) && ReleasesRightly(s.runners[owner][id].progress)
    ensures var row := SavedRow(s.rows[id], Lease(owner, now, c.leaseMs), s.runners[owner][id].progress);
            var s' := SaveWork(c, s, owner, id, now);
            && s'.rows == s.rows[id := row] && RenewedOrReleased(row, owner, now + c.leaseMs)
            && (IsHolding(s', owner, id) <==> row.lockedBy == Some(owner))
            && (IsHolding(s', owner, id) ==> s'.runners[owner][id].rec == row.rec)
  {
  }

  /**
   * In every interleaving, a save by the holder renews the lease for its full length when the saga goes
   * on at once, and the holder goes on with what it wrote; it gives the saga up exactly when that has
   * settled or waits for a retry. A save by anyone else changes no row.
   */
  lemma SavedExactly(c: Config, actions: seq<Action>, owner: Owner, id: Id, now: Time)
    requires ValidConfig(c) && IsReady(Exec(c, actions), owner, id)
    ensures var s := Exec(c, actions);
            var s' := Act(c, s, Save(owner, id, now));
            && id in s'.rows
            && if s.rows[id].lockedBy != Some(owner) then s'.rows == s.rows
               else
                 && s'.rows == s.rows[id := s'.rows[id]] && RenewedOrReleased(s'.rows[id], owner, now + c.leaseMs)
                 && (IsHolding(s', owner, id) <==> s'.rows[id].lockedBy == Some(owner))
                 && (IsHolding(s', owner, id) ==> s'.runners[owner][id].rec == s'.rows[id].rec)
  {
    var s := Exec(c, actions);
    ExecKeeps(c, actions);
    if s.rows[id].lockedBy == Some(owner) {
      ReadyReleasesRightly(c, s, owner, id);
      SaveLands(c, s, owner, id, now);
    } else {
      LostSave(c, s, owner, id, now);
    }
  }

  /**
   * In every interleaving, a row goes from one holder to another, and becomes another's, only by a
   * claim of theirs made when the first one's lease, if there is one, has run out.
   */
  lemma HandedOverOnlyWhenFree(c: Config, actions: seq<Action>, a: Action, id: Id)
    requires ValidConfig(c) && id in Exec(c, actions).rows
    ensures var row, s' := Exec(c, actions).rows[id], Act(c, Exec(c, actions), a);
            && id in s'.rows
            && (s'.rows[id].lockedBy.Some? && s'.rows[id].lockedBy != row.lockedBy ==>
                  && a.Take? && s'.rows[id].lockedBy == Some(a.owner) && id in a.ids
                  && (row.lockedUntil.Some? ==> row.lockedUntil.value <= a.now))
  {
    var s := Exec(c, actions);
    ExecKeeps(c, actions);
    ExecKeepsLeases(c, actions);
    assert LeaseOk(s.used, s.rows[id]);
    if a.Work? {
      WorkKeeps(c, s, a);
    }
  }
}
