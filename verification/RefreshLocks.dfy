/**
 * The claim as the store runs it, a transaction that locks the token row, then the family row, then
 * writes. Every interleaving of such transactions with everything else is a run of whole claims.
 */
module RefreshLocks {
  import opened Common
  import opened RefreshTokens

  /** A claim in flight, with the rows as it read them under its locks. */
  datatype Tx =
    | HasToken(token: Id, row: Token)
    | HasBoth(token: Id, row: Token, family: Option<Family>)

  datatype System = System(core: State, txs: map<nat, Tx>)

  datatype Step =
    | Begin(tx: nat, token: Id)
    | LockFamily(tx: nat)
    | Commit(tx: nat)
    | Abort(tx: nat)
    | Whole(action: Action)

  predicate TokenLocked(s: System, token: Id) {
    exists x :: x in s.txs && s.txs[x].token == token
  }

  predicate FamilyLocked(s: System, family: Id) {
    exists x :: x in s.txs && s.txs[x].HasBoth? && s.txs[x].row.family == family
  }

  /** A statement that would write or delete a locked row waits. */
  predicate Blocked(s: System, a: Action) {
    match a
    case SignOut(token) =>
      LogoutTarget(s.core.db, token).Some? && FamilyLocked(s, LogoutTarget(s.core.db, token).value)
    case Prune(before) =>
      || (exists x :: x in s.txs && s.txs[x].row.family in Prunable(s.core.db, before))
    case _ => false
  }

  /** The decision from the two rows read under lock and the count taken then. */
  function DecideFrom(row: Token, family: Option<Family>, unspent: nat): Claim {
    if family.None? then UnknownToken
    else if row.consumed then
      if family.value.revoked.Some? then FamilyRevoked else ReuseOf(row.family, row.user, unspent)
    else if family.value.revoked.Some? then FamilyRevoked
    else ClaimOf(row.user, row.family, row.expiresAt)
  }

  /** What the transaction writes. */
  function Written(s: State, token: Id, row: Token, claim: Claim): State {
    match claim
    case ReuseOf(family, _, n) =>
      if family in s.db.families
      then s.(db := SetRevoked(s.db, family, ReuseDetected),
              history := s.history + [Reused(family, n), Revoked(family, ReuseDetected)])
      else s
    case ClaimOf(_, family, _) =>
      s.(db := s.db.(tokens := s.db.tokens[token := row.(consumed := true)]),
         claims := s.claims[token := family], history := s.history + [Claimed(token, family)])
    case _ => s
  }

  function Take(s: System, step: Step): System {
    match step
    case Begin(tx, token) =>
      if tx in s.txs || token !in s.core.db.tokens || TokenLocked(s, token) then s
      else s.(txs := s.txs[tx := HasToken(token, s.core.db.tokens[token])])
    case LockFamily(tx) =>
      if tx !in s.txs || s.txs[tx].HasBoth? || FamilyLocked(s, s.txs[tx].row.family) then s
      else
        var t := s.txs[tx];
        var f := t.row.family;
        s.(txs := s.txs[tx := HasBoth(t.token, t.row, if f in s.core.db.families then Some(s.core.db.families[f]) else None)])
    case Commit(tx) =>
      if tx !in s.txs || s.txs[tx].HasToken? then s
      else
        var t := s.txs[tx];
        var claim := DecideFrom(t.row, t.family, |Unspent(s.core.db, t.row.family)|);
        System(Written(s.core, t.token, t.row, claim), s.txs - {tx})
    case Abort(tx) => s.(txs := s.txs - {tx})
    case Whole(a) => if a.Consume? || !Allowed(s.core, a) || Blocked(s, a) then s else s.(core := Act(s.core, a))
  }

  function Interleaved(steps: seq<Step>): System {
    if steps == [] then System(INITIAL, map[])
    else Take(Interleaved(steps[..|steps| - 1]), steps[|steps| - 1])
  }

  // ---------------------------------------------------------------- locks hold rows still

  /** What a claim read under a lock is still what the row says. */
  predicate Holds(s: System, t: Tx) {
    && t.token in s.core.db.tokens && s.core.db.tokens[t.token] == t.row
    && t.row.family in s.core.db.families
    && (t.HasBoth? ==> t.family == Some(s.core.db.families[t.row.family]))
  }

  predicate Exclusive(s: System) {
    && (forall x, y :: x in s.txs && y in s.txs && x != y ==> s.txs[x].token != s.txs[y].token)
    && (forall x, y :: x in s.txs && y in s.txs && x != y && s.txs[x].HasBoth? && s.txs[y].HasBoth? ==>
          s.txs[x].row.family != s.txs[y].row.family)
  }

  ghost predicate SystemInv(s: System) {
    && Inv(s.core) && Exclusive(s)
    && forall x :: x in s.txs ==> Holds(s, s.txs[x])
  }

  /** Written from its locks, a claim is the whole claim made at that moment. */
  lemma CommitIsConsume(s: System, tx: nat)
    requires SystemInv(s) && tx in s.txs && s.txs[tx].HasBoth?
    ensures Take(s, Commit(tx)).core == Act(s.core, Consume(s.txs[tx].token))
  {
    assert Holds(s, s.txs[tx]);
  }

  lemma CommitKeeps(s: System, tx: nat)
    requires SystemInv(s) && tx in s.txs && s.txs[tx].HasBoth?
    ensures SystemInv(Take(s, Commit(tx)))
  {
    var t := s.txs[tx];
    var n := Take(s, Commit(tx));
    CommitIsConsume(s, tx);
    ActKeeps(s.core, Consume(t.token));
    forall x | x in n.txs
      ensures Holds(n, n.txs[x])
    {
      assert Holds(s, s.txs[x]) && Holds(s, t);
      assert n.txs[x].token != t.token;
    }
  }

  lemma WholeKeeps(s: System, a: Action)
    requires SystemInv(s) && !a.Consume? && Allowed(s.core, a) && !Blocked(s, a)
    ensures SystemInv(s.(core := Act(s.core, a)))
  {
    var n := s.(core := Act(s.core, a));
    ActKeeps(s.core, a);
    forall x | x in n.txs
      ensures Holds(n, n.txs[x])
    {
      assert Holds(s, s.txs[x]);
      assert s.txs[x].token in s.core.minted && s.txs[x].row.family in s.core.born;
    }
  }

  lemma BeginKeeps(s: System, tx: nat, token: Id)
    requires SystemInv(s)
    ensures SystemInv(Take(s, Begin(tx, token)))
  {
  }

  lemma LockFamilyKeeps(s: System, tx: nat)
    requires SystemInv(s)
    ensures SystemInv(Take(s, LockFamily(tx)))
  {
  }

  lemma TakeKeeps(s: System, step: Step)
    requires SystemInv(s)
    ensures SystemInv(Take(s, step))
  {
    match step
    case Begin(tx, token) => BeginKeeps(s, tx, token);
    case LockFamily(tx) => LockFamilyKeeps(s, tx);
    case Commit(tx) =>
      if tx in s.txs && s.txs[tx].HasBoth? {
        CommitKeeps(s, tx);
      }
    case Abort(tx) =>
    case Whole(a) =>
      if !a.Consume? && Allowed(s.core, a) && !Blocked(s, a) {
        WholeKeeps(s, a);
      }
  }

  lemma {:induction false} InterleavedKeeps(steps: seq<Step>)
    ensures SystemInv(Interleaved(steps))
  {
    if steps != [] {
      InterleavedKeeps(steps[..|steps| - 1]);
      TakeKeeps(Interleaved(steps[..|steps| - 1]), steps[|steps| - 1]);
    }
  }

  // ---------------------------------------------------------------- refinement

  /** The whole action a step amounts to, if any. */
  function Effect(s: System, step: Step): Option<Action> {
    match step
    case Commit(tx) => if tx in s.txs && s.txs[tx].HasBoth? then Some(Consume(s.txs[tx].token)) else None
    case Whole(a) => if a.Consume? || !Allowed(s.core, a) || Blocked(s, a) then None else Some(a)
    case _ => None
  }

  function Trace(steps: seq<Step>): seq<Action> {
    if steps == [] then []
    else
      var rest := steps[..|steps| - 1];
      match Effect(Interleaved(rest), steps[|steps| - 1])
      case Some(a) => Trace(rest) + [a]
      case None => Trace(rest)
  }

  /** Every interleaving leaves the rows, claims and history of the run of whole actions it traces. */
  lemma {:induction false} LockedClaimsAreWhole(steps: seq<Step>)
    ensures Interleaved(steps).core == Run(Trace(steps))
  {
    if steps != [] {
      var rest, step := steps[..|steps| - 1], steps[|steps| - 1];
      var s := Interleaved(rest);
      LockedClaimsAreWhole(rest);
      InterleavedKeeps(rest);
      match Effect(s, step)
      case None =>
      case Some(a) =>
        if step.Commit? {
          CommitIsConsume(s, step.tx);
        }
        assert Trace(steps)[..|Trace(steps)| - 1] == Trace(rest);
    }
  }

  /** So the guarantees of whole claims are those of the interleaved store. */
  lemma InterleavingIsOrdered(steps: seq<Step>)
    ensures Ordered(Interleaved(steps).core.history)
    ensures forall e :: e in Interleaved(steps).core.history && e.Reused? ==> e.revokedTokens <= 1
  {
    LockedClaimsAreWhole(steps);
    EveryRunIsOrdered(Trace(steps));
    InterleavedKeeps(steps);
  }

  // ---------------------------------------------------------------- nobody waits for longer than they have to

  /** No other claim is on the token, and none holds its family. */
  predicate IsFree(s: System, token: Id) {
    && token in s.core.db.tokens
    && forall x :: x in s.txs ==>
         s.txs[x].token != token && (s.txs[x].HasBoth? ==> s.txs[x].row.family != s.core.db.tokens[token].family)
  }

  lemma LocksBoth(s: System, tx: nat, token: Id)
    requires tx !in s.txs && IsFree(s, token)
    ensures var both := Take(Take(s, Begin(tx, token)), LockFamily(tx));
            both.core == s.core && tx in both.txs && both.txs[tx].HasBoth? && both.txs[tx].token == token && both.txs - {tx} == s.txs
  {
    var begun := Take(s, Begin(tx, token));
    assert begun.txs[tx] == HasToken(token, s.core.db.tokens[token]);
    assert !FamilyLocked(begun, begun.txs[tx].row.family);
  }

  /**
   * In every interleaving, a claim waits for nothing but its own two rows: with no other claim on its
   * token and none holding its family, it goes through, whatever else is in flight.
   */
  lemma ClaimGetsThrough(steps: seq<Step>, tx: nat, token: Id)
    requires tx !in Interleaved(steps).txs && IsFree(Interleaved(steps), token)
    ensures var s := Interleaved(steps);
            Take(Take(Take(s, Begin(tx, token)), LockFamily(tx)), Commit(tx)) == System(Act(s.core, Consume(token)), s.txs)
  {
    var s := Interleaved(steps);
    var begun := Take(s, Begin(tx, token));
    InterleavedKeeps(steps);
    TakeKeeps(s, Begin(tx, token));
    TakeKeeps(begun, LockFamily(tx));
    LocksBoth(s, tx, token);
    Committed(Take(begun, LockFamily(tx)), tx);
  }

  lemma Committed(s: System, tx: nat)
    requires SystemInv(s) && tx in s.txs && s.txs[tx].HasBoth?
    ensures Take(s, Commit(tx)) == System(Act(s.core, Consume(s.txs[tx].token)), s.txs - {tx})
  {
    CommitIsConsume(s, tx);
  }

  /** In every interleaving, some claim in flight can go on: none waits for a family whose holder waits. */
  lemma NoDeadlock(steps: seq<Step>)
    requires Interleaved(steps).txs != map[]
    ensures var s := Interleaved(steps);
            exists tx :: tx in s.txs &&
              (s.txs[tx].HasBoth? || (tx in Take(s, LockFamily(tx)).txs && Take(s, LockFamily(tx)).txs[tx].HasBoth?))
  {
    var s := Interleaved(steps);
    var x :| x in s.txs;
    if s.txs[x].HasToken? && FamilyLocked(s, s.txs[x].row.family) {
      var y :| y in s.txs && s.txs[y].HasBoth? && s.txs[y].row.family == s.txs[x].row.family;
    }
  }

  /** No family with a claim in flight has expired altogether. */
  predicate Spares(s: System, before: Time) {
    forall x :: x in s.txs ==> HasUnexpired(s.core.db, s.txs[x].row.family, before)
  }

  lemma SparedIsNotPrunable(s: System, before: Time, x: nat)
    requires Spares(s, before) && x in s.txs
    ensures s.txs[x].row.family !in Prunable(s.core.db, before)
  {
    assert HasUnexpired(s.core.db, s.txs[x].row.family, before);
  }

  /**
   * In every interleaving, anything but a claim takes effect at once, unless it would revoke a family a
   * claim holds, or prune one with a claim in flight.
   */
  lemma OthersGetThrough(steps: seq<Step>, a: Action)
    requires !a.Consume? && Allowed(Interleaved(steps).core, a)
    requires var s := Interleaved(steps);
             a.SignOut? && a.token in s.core.db.tokens ==>
               forall x :: x in s.txs && s.txs[x].HasBoth? ==> s.txs[x].row.family != s.core.db.tokens[a.token].family
    requires a.Prune? ==> Spares(Interleaved(steps), a.before)
    ensures Take(Interleaved(steps), Whole(a)) == Interleaved(steps).(core := Act(Interleaved(steps).core, a))
  {
    var s := Interleaved(steps);
    if a.Prune? {
      forall x | x in s.txs
        ensures s.txs[x].row.family !in Prunable(s.core.db, a.before)
      {
        SparedIsNotPrunable(s, a.before, x);
      }
    }
    assert !Blocked(s, a);
  }
}
