/** The durable saga rows and the conditional updates runners make to them. */
module SagaRows {
  import opened Common
  import opened SagaMachine

  /** Saga ids, ordered as the database orders them. */
  type Id = int

  /** Runner ids: a fresh UUID per advance and per recovery pass. */
  type Owner = int

  datatype Row = Row(rec: Record, lockedBy: Option<Owner>, lockedUntil: Option<Time>)

  datatype Lease = Lease(owner: Owner, now: Time, leaseMs: nat)

  predicate Claimable(row: Row, now: Time) {
    && (row.rec.status == RUNNING || row.rec.status == COMPENSATING)
    && row.rec.nextAttemptAt <= now
    && (row.lockedUntil.None? || row.lockedUntil.value <= now)
  }

  function Leased(row: Row, lease: Lease): Row {
    row.(lockedBy := Some(lease.owner), lockedUntil := Some(lease.now + lease.leaseMs))
  }

  /** The rows once those claimed are leased. */
  function AllLeased(rows: map<Id, Row>, claimed: seq<Id>, lease: Lease): map<Id, Row> {
    map id | id in rows :: if id in claimed then Leased(rows[id], lease) else rows[id]
  }

  function SavedRow(row: Row, lease: Lease, p: Progress): Row {
    Row(Apply(row.rec, p),
        if p.release then None else Some(lease.owner),
        if p.release then None else Some(lease.now + lease.leaseMs))
  }

  /** The order `claimDue` takes rows in: longest due first, ids breaking ties. */
  predicate Before(rows: map<Id, Row>, a: Id, b: Id)
    requires a in rows && b in rows
  {
    || rows[a].rec.nextAttemptAt < rows[b].rec.nextAttemptAt
    || (rows[a].rec.nextAttemptAt == rows[b].rec.nextAttemptAt && a < b)
  }

  function Due(rows: map<Id, Row>, now: Time): set<Id> {
    set id | id in rows && Claimable(rows[id], now)
  }

  lemma BeforeTotal(rows: map<Id, Row>, a: Id, b: Id)
    requires a in rows && b in rows && a != b
    ensures Before(rows, a, b) || Before(rows, b, a)
  {
  }

  lemma BeforeTransitive(rows: map<Id, Row>, a: Id, b: Id, c: Id)
    requires a in rows && b in rows && c in rows && Before(rows, a, b) && Before(rows, b, c)
    ensures Before(rows, a, c)
  {
  }

  predicate Earliest(rows: map<Id, Row>, ids: set<Id>, e: Id)
    requires ids <= rows.Keys
  {
    e in ids && forall o :: o in ids && o != e ==> Before(rows, e, o)
  }

  lemma {:induction false} EarliestExists(rows: map<Id, Row>, ids: set<Id>)
    requires ids != {} && ids <= rows.Keys
    ensures exists e :: Earliest(rows, ids, e)
    decreases |ids|
  {
    var x := Element(ids);
    var rest := ids - {x};
    if rest == {} {
      assert forall o :: o in ids ==> o == x || o in rest;
      assert Earliest(rows, ids, x);
    } else {
      EarliestExists(rows, rest);
      var e :| Earliest(rows, rest, e);
      BeforeTotal(rows, x, e);
      if Before(rows, x, e) {
        forall o | o in ids && o != x
          ensures Before(rows, x, o)
        {
          if o != e {
            BeforeTransitive(rows, x, e, o);
          }
        }
        assert Earliest(rows, ids, x);
      } else {
        assert Earliest(rows, ids, e);
      }
    }
  }

  /** The elements of a set, each once. */
  method InAnyOrder(ids: set<Id>) returns (listed: seq<Id>)
    ensures |listed| == |ids| && forall i :: 0 <= i < |listed| ==> listed[i] in ids
    ensures forall id :: id in listed <==> id in ids
    ensures forall i, j :: 0 <= i < j < |listed| ==> listed[i] != listed[j]
  {
    listed := [];
    var left := ids;
    while left != {}
      invariant left <= ids && |listed| + |left| == |ids|
      invariant forall i :: 0 <= i < |listed| ==> listed[i] in ids
      invariant forall id :: id in listed <==> id in ids && id !in left
      invariant forall i, j :: 0 <= i < j < |listed| ==> listed[i] != listed[j]
      decreases |left|
    {
      ghost var some := Element(left);
      assert some in left;
      var id :| id in left;
      listed := listed + [id];
      left := left - {id};
    }
  }

  /** The store. Each method is one atomic statement. */
  class SagaStore {
    var rows: map<Id, Row>

    constructor ()
      ensures rows == map[]
    {
      rows := map[];
    }

    method Create(id: Id, name: string, state: State, now: Time) returns (ok: bool)
      modifies this
      ensures ok <==> id !in old(rows)
      ensures rows == if ok then old(rows)[id := Row(Start(name, state, now), None, None)] else old(rows)
    {
      ok := id !in rows;
      if ok {
        rows := rows[id := Row(Start(name, state, now), None, None)];
      }
    }

    /** Takes the lease if the saga is due and free; otherwise changes nothing. */
    method Claim(id: Id, lease: Lease) returns (r: Option<Record>)
      modifies this
      ensures r.Some? <==> && id in old(rows) && !IsTerminal(old(rows)[id].rec.status) && old(rows)[id].rec.nextAttemptAt <= lease.now
                           && (old(rows)[id].lockedUntil.Some? ==> old(rows)[id].lockedUntil.value <= lease.now)
      ensures r.Some? ==>
                && r.value == old(rows)[id].rec
                && rows == old(rows)[id := Row(r.value, Some(lease.owner), Some(lease.now + lease.leaseMs))]
      ensures r.None? ==> rows == old(rows)
    {
      if id in rows && Claimable(rows[id], lease.now) {
        rows := rows[id := Leased(rows[id], lease)];
        return Some(rows[id].rec);
      }
      return None;
    }

    /**
     * Leases up to `limit` due sagas to one owner: the ones that have been due longest, every
     * one of them due and free, and no other row touched. They come back in no particular order.
     */
    method ClaimDue(lease: Lease, limit: nat) returns (claimed: seq<Id>)
      modifies this
      ensures forall i :: 0 <= i < |claimed| ==> claimed[i] in old(rows) && claimed[i] in Due(old(rows), lease.now)
      ensures forall id :: id in Due(old(rows), lease.now) <==>
                             && id in old(rows) && !IsTerminal(old(rows)[id].rec.status) && old(rows)[id].rec.nextAttemptAt <= lease.now
                             && (old(rows)[id].lockedUntil.Some? ==> old(rows)[id].lockedUntil.value <= lease.now)
      ensures forall i, j :: 0 <= i < j < |claimed| ==> claimed[i] != claimed[j]
      ensures |claimed| == limit || forall id :: id in Due(old(rows), lease.now) ==> id in claimed
      ensures |claimed| <= limit
      ensures forall c, o :: c in claimed && c in old(rows) && o in old(rows) && o in Due(old(rows), lease.now) && o !in claimed ==>
                               var x, y := old(rows)[c].rec.nextAttemptAt, old(rows)[o].rec.nextAttemptAt; x < y || (x == y && c < o)
      ensures rows == AllLeased(old(rows), claimed, lease) && rows.Keys == old(rows).Keys
      ensures forall id :: id in rows ==>
                             rows[id] == if id in claimed then Row(old(rows)[id].rec, Some(lease.owner), Some(lease.now + lease.leaseMs)) else old(rows)[id]
    {
      var chosen: set<Id> := {};
      var left := Due(rows, lease.now);
      while |chosen| < limit && left != {}
        invariant |chosen| <= limit && rows == old(rows)
        invariant left <= rows.Keys && forall id :: id in Due(rows, lease.now) <==> id in left || id in chosen
        invariant chosen <= Due(rows, lease.now) && forall id :: id in left ==> id !in chosen
        invariant forall c, o :: c in chosen && o in left ==> Before(rows, c, o)
        decreases |left|
      {
        EarliestExists(rows, left);
        var e :| Earliest(rows, left, e);
        chosen := chosen + {e};
        left := left - {e};
      }
      claimed := InAnyOrder(chosen);
      rows := AllLeased(rows, claimed, lease);
    }

    /** Writes one advance, provided the row is still leased to the writer. */
    method Save(id: Id, lease: Lease, p: Progress) returns (r: Option<Record>)
      modifies this
      ensures r.Some? <==> id in old(rows) && old(rows)[id].lockedBy == Some(lease.owner)
      ensures r.Some? ==> r.value == Apply(old(rows)[id].rec, p) && rows == old(rows)[id := SavedRow(old(rows)[id], lease, p)]
      ensures r.None? ==> rows == old(rows)
    {
      if id in rows && rows[id].lockedBy == Some(lease.owner) {
        rows := rows[id := SavedRow(rows[id], lease, p)];
        return Some(rows[id].rec);
      }
      return None;
    }

    /** Gives up on a saga no runner can advance, whoever holds its lease. */
    method Abandon(id: Id, reason: string)
      modifies this
      ensures id !in old(rows) ==> rows == old(rows)
      ensures id in old(rows) ==>
                var given := old(rows)[id].rec.(status := STUCK, lastError := Some(Truncate(reason)));
                rows == old(rows)[id := Row(given, None, None)]
    {
      if id in rows {
        rows := rows[id := Row(Abandoned(rows[id].rec, reason), None, None)];
      }
    }
  }
}
