/** Refresh-token families: every run of sign-in, claim, rotation, sign-out and pruning. */
module RefreshTokens {
  import opened Common

  type Time = int

  /** A random UUID: a token, or the id of a family. */
  datatype Id = Uuid(bits: nat)

  datatype Reason = Logout | ReuseDetected

  datatype Family = Family(user: int, revoked: Option<Reason>)

  datatype Token = Token(user: int, family: Id, expiresAt: Time, consumed: bool)

  /** What happened, in order. */
  datatype Event =
    | Claimed(token: Id, family: Id)
    | Reused(family: Id, revokedTokens: nat)
    | Revoked(family: Id, reason: Reason)

  datatype Db = Db(families: map<Id, Family>, tokens: map<Id, Token>)

  datatype State = State(
    db: Db,
    /** Claims whose successor has not been issued yet, by the token claimed. */
    claims: map<Id, Id>,
    /** Every token and every family there has ever been. */
    minted: set<Id>,
    born: set<Id>,
    history: seq<Event>)

  const INITIAL := State(Db(map[], map[]), map[], {}, {}, [])

  // ---------------------------------------------------------------- the store's decisions

  datatype Claim =
    | UnknownToken
    | FamilyRevoked
    | ReuseOf(family: Id, user: int, revokedTokens: nat)
    | ClaimOf(user: int, family: Id, expiresAt: Time)

  /** The family's tokens nobody has presented yet. */
  function Unspent(db: Db, family: Id): set<Id> {
    set t | t in db.tokens && db.tokens[t].family == family && !db.tokens[t].consumed
  }

  function Decide(db: Db, token: Id): Claim {
    if token !in db.tokens || db.tokens[token].family !in db.families then UnknownToken
    else
      var row := db.tokens[token];
      if db.families[row.family].revoked.Some? then FamilyRevoked
      else if row.consumed then ReuseOf(row.family, row.user, |Unspent(db, row.family)|)
      else ClaimOf(row.user, row.family, row.expiresAt)
  }

  function SetRevoked(db: Db, family: Id, reason: Reason): Db
    requires family in db.families
  {
    db.(families := db.families[family := db.families[family].(revoked := Some(reason))])
  }

  function Consumed(db: Db, token: Id): Db {
    match Decide(db, token)
    case ReuseOf(family, _, _) => SetRevoked(db, family, ReuseDetected)
    case ClaimOf(_, _, _) => db.(tokens := db.tokens[token := db.tokens[token].(consumed := true)])
    case _ => db
  }

  /** The family a sign-out with this token revokes, unless it already is. */
  function LogoutTarget(db: Db, token: Id): Option<Id> {
    if token in db.tokens && db.tokens[token].family in db.families && db.families[db.tokens[token].family].revoked.None?
    then Some(db.tokens[token].family) else None
  }

  /** Families in which nothing could still be presented. */
  function Prunable(db: Db, before: Time): set<Id> {
    set f | f in db.families && forall t :: t in db.tokens && db.tokens[t].family == f ==> db.tokens[t].expiresAt < before
  }

  /** The families go, and their tokens with them. */
  function Pruned(db: Db, before: Time): Db {
    var gone := Prunable(db, before);
    Db(map f | f in db.families && f !in gone :: db.families[f],
       map t | t in db.tokens && db.tokens[t].family !in gone :: db.tokens[t])
  }

  function Started(db: Db, token: Id, family: Id, user: int, expiresAt: Time): Db {
    Db(db.families[family := Family(user, None)], db.tokens[token := Token(user, family, expiresAt, false)])
  }

  function Continued(db: Db, token: Id, family: Id, user: int, expiresAt: Time): Db {
    db.(tokens := db.tokens[token := Token(user, family, expiresAt, false)])
  }

  // ---------------------------------------------------------------- runs

  /** Tokens and family ids are drawn fresh. */
  datatype Action =
    | SignIn(token: Id, family: Id, user: int, expiresAt: Time)
    | Consume(token: Id)
    | Rotate(claimed: Id, token: Id, user: int, expiresAt: Time)
    | Forget(claimed: Id)
    | SignOut(token: Id)
    | Prune(before: Time)

  predicate Allowed(s: State, a: Action) {
    match a
    case SignIn(token, family, _, _) => token !in s.minted && family !in s.born
    case Rotate(claimed, token, _, _) => claimed in s.claims && token !in s.minted
    case _ => true
  }

  function Consuming(s: State, token: Id): State {
    var db := Consumed(s.db, token);
    match Decide(s.db, token)
    case ReuseOf(family, _, n) => s.(db := db, history := s.history + [Reused(family, n), Revoked(family, ReuseDetected)])
    case ClaimOf(_, family, _) => s.(db := db, claims := s.claims[token := family], history := s.history + [Claimed(token, family)])
    case _ => s
  }

  /** The successor is issued into the claimed token's family, unless the family has been pruned away. */
  function Rotating(s: State, claimed: Id, token: Id, user: int, expiresAt: Time): State
    requires claimed in s.claims
  {
    var family := s.claims[claimed];
    State(if family in s.db.families then Continued(s.db, token, family, user, expiresAt) else s.db,
          s.claims - {claimed}, s.minted + {token}, s.born, s.history)
  }

  function Act(s: State, a: Action): State
    requires Allowed(s, a)
  {
    match a
    case SignIn(token, family, user, expiresAt) =>
      s.(db := Started(s.db, token, family, user, expiresAt), minted := s.minted + {token}, born := s.born + {family})
    case Consume(token) => Consuming(s, token)
    case Rotate(claimed, token, user, expiresAt) => Rotating(s, claimed, token, user, expiresAt)
    case Forget(claimed) => s.(claims := s.claims - {claimed})
    case SignOut(token) =>
      (match LogoutTarget(s.db, token)
       case Some(family) => s.(db := SetRevoked(s.db, family, Logout), history := s.history + [Revoked(family, Logout)])
       case None => s)
    case Prune(before) => s.(db := Pruned(s.db, before))
  }

  /** A step that is not allowed does not happen. */
  function Run(actions: seq<Action>): State {
    if actions == [] then INITIAL
    else
      var s, a := Run(actions[..|actions| - 1]), actions[|actions| - 1];
      if Allowed(s, a) then Act(s, a) else s
  }

  // ---------------------------------------------------------------- the invariant

  /** Rows are linked, ids are never reused, and a claimed token is spent. */
  predicate Linked(s: State) {
    && (forall t :: t in s.db.tokens ==> t in s.minted && s.db.tokens[t].family in s.db.families)
    && (forall f :: f in s.db.families ==> f in s.born)
    && (forall t :: t in s.claims ==> t in s.minted && s.claims[t] in s.born)
    && (forall t :: t in s.claims && t in s.db.tokens ==> s.db.tokens[t].consumed && s.db.tokens[t].family == s.claims[t])
  }

  /** An unspent token or an outstanding claim: a way to continue the family. */
  predicate WayIn(s: State, family: Id, t: Id) {
    || (t in s.db.tokens && s.db.tokens[t].family == family && !s.db.tokens[t].consumed)
    || (t in s.claims && s.claims[t] == family)
  }

  ghost predicate OneWayIn(s: State) {
    forall f, t, u :: WayIn(s, f, t) && WayIn(s, f, u) ==> t == u
  }

  /** The history agrees with the rows. */
  predicate Recorded(s: State) {
    && (forall i :: 0 <= i < |s.history| ==> EventOk(s, s.history[i]))
    && (forall f :: f in s.db.families && s.db.families[f].revoked.Some? ==>
          Revoked(f, s.db.families[f].revoked.value) in s.history)
  }

  predicate EventOk(s: State, e: Event) {
    match e
    case Claimed(t, f) => t in s.minted && f in s.born && (t in s.db.tokens ==> s.db.tokens[t].consumed)
    case Reused(f, n) => n <= 1 && f in s.born && (f in s.db.families ==> s.db.families[f].revoked.Some?)
    case Revoked(f, r) => f in s.born && (f in s.db.families ==> s.db.families[f].revoked == Some(r))
  }

  /** Nothing that may happen once happens twice, and nothing is claimed after its family is revoked. */
  predicate Ordered(h: seq<Event>) {
    forall i, j :: 0 <= i < j < |h| ==> MayFollow(h[i], h[j])
  }

  predicate MayFollow(earlier: Event, later: Event) {
    && (earlier.Claimed? && later.Claimed? ==> earlier.token != later.token)
    && (earlier.Reused? && later.Reused? ==> earlier.family != later.family)
    && (earlier.Revoked? && (later.Claimed? || later.Revoked? || later.Reused?) ==> earlier.family != later.family)
  }

  ghost predicate Inv(s: State) {
    Linked(s) && OneWayIn(s) && Recorded(s) && Ordered(s.history)
  }

  // ---------------------------------------------------------------- every step keeps it

  lemma UnspentAtMostOne(s: State, family: Id)
    requires OneWayIn(s)
    ensures |Unspent(s.db, family)| <= 1
  {
    assert forall x :: x in Unspent(s.db, family) ==> WayIn(s, family, x);
    AtMostOne(Unspent(s.db, family));
  }

  lemma SignInKeeps(s: State, token: Id, family: Id, user: int, expiresAt: Time)
    requires Inv(s) && Allowed(s, SignIn(token, family, user, expiresAt))
    ensures Inv(Act(s, SignIn(token, family, user, expiresAt)))
  {
    var n := Act(s, SignIn(token, family, user, expiresAt));
    forall f, t, u | WayIn(n, f, t) && WayIn(n, f, u)
      ensures t == u
    {
      if f != family {
        assert WayIn(s, f, t) && WayIn(s, f, u);
      }
    }
  }

  lemma ClaimKeepsRows(s: State, token: Id)
    requires Linked(s) && OneWayIn(s) && Decide(s.db, token).ClaimOf?
    ensures Linked(Consuming(s, token)) && OneWayIn(Consuming(s, token))
  {
    var n := Consuming(s, token);
    forall f, t, u | WayIn(n, f, t) && WayIn(n, f, u)
      ensures t == u
    {
      assert WayIn(s, f, t) && WayIn(s, f, u);
    }
  }

  lemma ClaimKeeps(s: State, token: Id)
    requires Inv(s) && Decide(s.db, token).ClaimOf?
    ensures Inv(Consuming(s, token))
  {
    ClaimKeepsRows(s, token);
    var family := s.db.tokens[token].family;
    assert forall i :: 0 <= i < |s.history| ==> EventOk(s, s.history[i]) && MayFollow(s.history[i], Claimed(token, family));
    OrderedMore(s.history, Claimed(token, family));
    assert forall e :: e in s.history ==> e in Consuming(s, token).history;
  }

  /** Adding an event that may follow all the others keeps the order. */
  lemma OrderedMore(h: seq<Event>, e: Event)
    requires Ordered(h) && forall i :: 0 <= i < |h| ==> MayFollow(h[i], e)
    ensures Ordered(h + [e])
  {
  }

  lemma ReuseMayFollow(s: State, token: Id)
    requires Inv(s) && Decide(s.db, token).ReuseOf?
    ensures var family := s.db.tokens[token].family;
            var found := Reused(family, |Unspent(s.db, family)|);
            Ordered(s.history + [found, Revoked(family, ReuseDetected)])
  {
    var family := s.db.tokens[token].family;
    var found, revoked := Reused(family, |Unspent(s.db, family)|), Revoked(family, ReuseDetected);
    forall i | 0 <= i < |s.history|
      ensures MayFollow(s.history[i], found) && MayFollow(s.history[i], revoked)
    {
      assert EventOk(s, s.history[i]);
    }
    OrderedMore(s.history, found);
    OrderedMore(s.history + [found], revoked);
    assert s.history + [found] + [revoked] == s.history + [found, revoked];
  }

  lemma ReuseKeepsRows(s: State, token: Id)
    requires Linked(s) && OneWayIn(s) && Decide(s.db, token).ReuseOf?
    ensures Linked(Consuming(s, token)) && OneWayIn(Consuming(s, token))
  {
    assert forall f, t :: WayIn(Consuming(s, token), f, t) ==> WayIn(s, f, t);
  }

  lemma ReuseKeeps(s: State, token: Id)
    requires Inv(s) && Decide(s.db, token).ReuseOf?
    ensures Inv(Consuming(s, token))
  {
    var n := Consuming(s, token);
    var family := s.db.tokens[token].family;
    ReuseKeepsRows(s, token);
    UnspentAtMostOne(s, family);
    ReuseMayFollow(s, token);
    var found, revoked := Reused(family, |Unspent(s.db, family)|), Revoked(family, ReuseDetected);
    assert n.history[|s.history|] == found && n.history[|s.history| + 1] == revoked;
    assert forall i :: 0 <= i < |s.history| ==> EventOk(s, s.history[i]) && n.history[i] == s.history[i];
    assert forall e :: e in s.history ==> e in n.history;
  }

  lemma RotateKeeps(s: State, claimed: Id, token: Id, user: int, expiresAt: Time)
    requires Inv(s) && claimed in s.claims && token !in s.minted
    ensures Inv(Rotating(s, claimed, token, user, expiresAt))
  {
    var n := Rotating(s, claimed, token, user, expiresAt);
    forall f, t, u | WayIn(n, f, t) && WayIn(n, f, u)
      ensures t == u
    {
      if f == s.claims[claimed] {
        assert WayIn(s, f, claimed);
      }
      assert t == token || WayIn(s, f, t);
      assert u == token || WayIn(s, f, u);
    }
  }

  lemma SignOutKeeps(s: State, token: Id)
    requires Inv(s)
    ensures Inv(Act(s, SignOut(token)))
  {
    var n := Act(s, SignOut(token));
    match LogoutTarget(s.db, token)
    case None =>
    case Some(family) =>
      assert forall f, t :: WayIn(n, f, t) ==> WayIn(s, f, t);
      assert forall i :: 0 <= i < |s.history| ==> EventOk(s, s.history[i]) && MayFollow(s.history[i], Revoked(family, Logout));
      OrderedMore(s.history, Revoked(family, Logout));
      assert forall e :: e in s.history ==> e in n.history;
      assert n.history[|s.history|] == Revoked(family, Logout);
  }

  lemma PruneKeeps(s: State, before: Time)
    requires Inv(s)
    ensures Inv(s.(db := Pruned(s.db, before)))
  {
    var n := s.(db := Pruned(s.db, before));
    assert forall f, t :: WayIn(n, f, t) ==> WayIn(s, f, t);
    assert forall i :: 0 <= i < |s.history| ==> EventOk(s, s.history[i]);
  }

  lemma ActKeeps(s: State, a: Action)
    requires Inv(s) && Allowed(s, a)
    ensures Inv(Act(s, a))
  {
    match a
    case SignIn(token, family, user, expiresAt) => SignInKeeps(s, token, family, user, expiresAt);
    case Consume(token) =>
      if Decide(s.db, token).ClaimOf? {
        ClaimKeeps(s, token);
      } else if Decide(s.db, token).ReuseOf? {
        ReuseKeeps(s, token);
      }
    case Rotate(claimed, token, user, expiresAt) => RotateKeeps(s, claimed, token, user, expiresAt);
    case Forget(claimed) =>
      var n := Act(s, a);
      assert forall f, t :: WayIn(n, f, t) ==> WayIn(s, f, t);
    case SignOut(token) => SignOutKeeps(s, token);
    case Prune(before) => PruneKeeps(s, before);
  }

  lemma {:induction false} RunKeeps(actions: seq<Action>)
    ensures Inv(Run(actions))
  {
    if actions != [] {
      RunKeeps(actions[..|actions| - 1]);
      var s, a := Run(actions[..|actions| - 1]), actions[|actions| - 1];
      if Allowed(s, a) {
        ActKeeps(s, a);
      }
    }
  }

  // ---------------------------------------------------------------- what every run keeps

  function Outstanding(s: State, family: Id): set<Id> {
    set t | t in s.claims && s.claims[t] == family
  }

  /**
   * Over every run: a token is claimed at most once, a family reports a reuse at most once and is
   * revoked at most once, so the first reason stands, nothing is claimed in a family after it is
   * revoked, and a detection never counts more than one live token.
   */
  lemma EveryRunIsOrdered(actions: seq<Action>)
    ensures var h := Run(actions).history;
            && (forall i, j :: 0 <= i < j < |h| && h[i].Claimed? && h[j].Claimed? ==> h[i].token != h[j].token)
            && (forall i, j :: 0 <= i < j < |h| && h[i].Reused? && h[j].Reused? ==> h[i].family != h[j].family)
            && (forall i, j :: 0 <= i < j < |h| && h[i].Revoked? && h[j].Revoked? ==> h[i].family != h[j].family)
            && (forall i, j :: 0 <= i < j < |h| && h[i].Revoked? && h[j].Claimed? ==> h[i].family != h[j].family)
            && (forall i :: 0 <= i < |h| && h[i].Reused? ==> h[i].revokedTokens <= 1)
  {
    RunKeeps(actions);
    var s := Run(actions);
    assert forall i :: 0 <= i < |s.history| ==> EventOk(s, s.history[i]);
  }

  /** Unspent tokens and outstanding claims of a family, together, never exceed one. */
  lemma OneLiveTokenOrClaim(actions: seq<Action>, family: Id)
    ensures var s := Run(actions); |Unspent(s.db, family)| + |Outstanding(s, family)| <= 1
  {
    RunKeeps(actions);
    var s := Run(actions);
    var u, o := Unspent(s.db, family), Outstanding(s, family);
    assert u !! o;
    assert forall x :: x in u + o ==> WayIn(s, family, x);
    AtMostOne(u + o);
  }

  /** A family still there is revoked exactly when the history says so, for the reason it gives. */
  lemma FirstReasonStands(actions: seq<Action>, family: Id, reason: Reason)
    requires family in Run(actions).db.families
    ensures var s := Run(actions); Revoked(family, reason) in s.history <==> s.db.families[family].revoked == Some(reason)
  {
    RunKeeps(actions);
    var s := Run(actions);
    assert forall i :: 0 <= i < |s.history| ==> EventOk(s, s.history[i]);
  }

  /** Presenting any token of a revoked family, even a successor issued afterwards, is refused. */
  lemma RevokedFamilyIsClosed(actions: seq<Action>, token: Id)
    requires token in Run(actions).db.tokens
    requires exists r :: Revoked(Run(actions).db.tokens[token].family, r) in Run(actions).history
    ensures Decide(Run(actions).db, token) == FamilyRevoked
  {
    RunKeeps(actions);
    var s := Run(actions);
    var r :| Revoked(s.db.tokens[token].family, r) in s.history;
    assert forall i :: 0 <= i < |s.history| ==> EventOk(s, s.history[i]);
  }

  /** Some token of this one's family has not expired yet. */
  predicate Unexpired(db: Db, token: Id, before: Time) {
    && token in db.tokens
    && exists t :: t in db.tokens && db.tokens[t].family == db.tokens[token].family && db.tokens[t].expiresAt >= before
  }

  /**
   * Pruning is invisible to a family in which anything could still be presented: each of its tokens,
   * the long-expired ones included, meets the decision it would have met before, so a replay is still
   * recognised as one. Every token of any other family becomes unknown.
   */
  lemma PruneKeepsDecisions(actions: seq<Action>, before: Time, token: Id)
    ensures var db := Run(actions).db;
            Decide(Pruned(db, before), token) == if Unexpired(db, token, before) then Decide(db, token) else UnknownToken
  {
    RunKeeps(actions);
    var db := Run(actions).db;
    if token in db.tokens {
      var family := db.tokens[token].family;
      assert family in db.families;
      assert family in Prunable(db, before) <==> !Unexpired(db, token, before);
      if family !in Prunable(db, before) {
        assert Unspent(Pruned(db, before), family) == Unspent(db, family);
      }
    }
  }

  predicate HasUnexpired(db: Db, family: Id, before: Time) {
    exists t :: t in db.tokens && db.tokens[t].family == family && db.tokens[t].expiresAt >= before
  }

  /** At any point of any run, exactly the families with an unexpired token stay, with all their tokens, as they were. */
  lemma PruneLeavesTheLive(actions: seq<Action>, before: Time)
    ensures var db := Run(actions).db;
            var after := Pruned(db, before);
            && (forall f :: f in after.families <==> f in db.families && HasUnexpired(db, f, before))
            && (forall t :: t in after.tokens <==> Unexpired(db, t, before))
            && (forall f :: f in after.families ==> after.families[f] == db.families[f])
            && (forall t :: t in after.tokens ==> after.tokens[t] == db.tokens[t])
  {
    RunKeeps(actions);
    var db := Run(actions).db;
    forall t | t in db.tokens
      ensures Unexpired(db, t, before) <==> db.tokens[t].family !in Prunable(db, before)
    {
      assert db.tokens[t].family in db.families;
    }
  }

  /** An unspent token of a family that is not revoked is claimed as it was issued; a fresh sign-in is one. */
  lemma LiveTokenIsClaimed(actions: seq<Action>, token: Id)
    requires token in Run(actions).db.tokens && !Run(actions).db.tokens[token].consumed
    requires forall r :: Revoked(Run(actions).db.tokens[token].family, r) !in Run(actions).history
    ensures var row := Run(actions).db.tokens[token];
            Decide(Run(actions).db, token) == ClaimOf(row.user, row.family, row.expiresAt)
  {
    RunKeeps(actions);
    var s := Run(actions);
    assert s.db.tokens[token].family in s.db.families;
  }

  // ---------------------------------------------------------------- what signing in, signing out and a replay do

  /** This family is revoked, for this reason unless it had one; nothing else changes. */
  predicate RevokesOnly(db: Db, after: Db, family: Id, reason: Reason) {
    && after.tokens == db.tokens && after.families.Keys == db.families.Keys && family in db.families
    && (forall f :: f in db.families && f != family ==> after.families[f] == db.families[f])
    && after.families[family].user == db.families[family].user
    && after.families[family].revoked == if db.families[family].revoked.Some? then db.families[family].revoked else Some(reason)
  }

  /** Every token of the family, whatever became of it, is refused from now on. */
  predicate IsClosed(db: Db, family: Id) {
    forall t :: t in db.tokens && db.tokens[t].family == family ==> Decide(db, t) == FamilyRevoked
  }

  /**
   * At any point of any run, signing out with a stored token, live or spent, closes its family: a family
   * revoked before keeps its reason, any other gets `Logout`, and no other family is touched. A token
   * nobody stored does nothing.
   */
  lemma SignOutClosesTheFamily(actions: seq<Action>, token: Id)
    ensures var s := Run(actions);
            var s' := Act(s, SignOut(token));
            if token in s.db.tokens then
              var family := s.db.tokens[token].family;
              RevokesOnly(s.db, s'.db, family, Logout) && IsClosed(s'.db, family)
            else s' == s
  {
    RunKeeps(actions);
    var s := Run(actions);
    if token in s.db.tokens {
      assert s.db.tokens[token].family in s.db.families;
    }
  }

  /** At any point of any run, presenting a spent token of a live family closes the family as reused. */
  lemma ReplayClosesTheFamily(actions: seq<Action>, token: Id)
    requires var db := Run(actions).db;
             token in db.tokens && db.tokens[token].consumed && db.tokens[token].family in db.families
             && db.families[db.tokens[token].family].revoked.None?
    ensures var s := Run(actions);
            var s' := Act(s, Consume(token));
            var family := s.db.tokens[token].family;
            && RevokesOnly(s.db, s'.db, family, ReuseDetected) && IsClosed(s'.db, family)
            && s'.history == s.history + [Reused(family, |Unspent(s.db, family)|), Revoked(family, ReuseDetected)]
  {
  }

  /** At any point of any run, a fresh sign-in's token is claimed for that user, family and expiry, and no other token is affected. */
  lemma SignInIsClaimed(actions: seq<Action>, token: Id, family: Id, user: int, expiresAt: Time)
    requires Allowed(Run(actions), SignIn(token, family, user, expiresAt))
    ensures var s := Run(actions);
            var s' := Act(s, SignIn(token, family, user, expiresAt));
            && Decide(s'.db, token) == ClaimOf(user, family, expiresAt)
            && forall t :: t in s.db.tokens ==> Decide(s'.db, t) == Decide(s.db, t)
  {
    RunKeeps(actions);
    var s := Run(actions);
    var s' := Act(s, SignIn(token, family, user, expiresAt));
    forall t | t in s.db.tokens
      ensures Decide(s'.db, t) == Decide(s.db, t)
    {
      assert s.db.tokens[t].family in s.db.families && s.db.tokens[t].family in s.born;
      assert Unspent(s'.db, s.db.tokens[t].family) == Unspent(s.db, s.db.tokens[t].family);
    }
  }
}
