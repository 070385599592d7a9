/** The refresh-token store changed in place, and the rotation built on it. */
module AuthService {
  import opened Common
  import opened RefreshTokens

  class RefreshTokenStore {
    var families: map<Id, Family>
    var tokens: map<Id, Token>

    constructor ()
      ensures Rows() == Db(map[], map[])
    {
      families, tokens := map[], map[];
    }

    function Rows(): Db
      reads this
    {
      Db(families, tokens)
    }

    /** Starts a family with its first token. */
    method IssueFirst(token: Id, family: Id, user: int, expiresAt: Time)
      modifies this
      ensures Rows() == Started(old(Rows()), token, family, user, expiresAt)
    {
      families := families[family := Family(user, None)];
      tokens := tokens[token := Token(user, family, expiresAt, false)];
    }

    /** Continues a family; the foreign key refuses one that is not there. */
    method IssueInto(token: Id, family: Id, user: int, expiresAt: Time) returns (ok: bool)
      modifies this
      ensures ok == (family in old(families))
      ensures Rows() == if ok then Continued(old(Rows()), token, family, user, expiresAt) else old(Rows())
    {
      if family !in families {
        return false;
      }
      tokens := tokens[token := Token(user, family, expiresAt, false)];
      return true;
    }

    method Consume(token: Id) returns (claim: Claim)
      modifies this
      ensures claim == Decide(old(Rows()), token) && Rows() == Consumed(old(Rows()), token)
    {
      if token !in tokens {
        return UnknownToken;
      }
      var row := tokens[token];
      if row.family !in families {
        return UnknownToken;
      }
      var alreadyRevoked := families[row.family].revoked.Some?;
      if row.consumed {
        if alreadyRevoked {
          return FamilyRevoked;
        }
        var n := RevokeFamily(row.family);
        return ReuseOf(row.family, row.user, n);
      }
      if alreadyRevoked {
        return FamilyRevoked;
      }
      tokens := tokens[token := row.(consumed := true)];
      return ClaimOf(row.user, row.family, row.expiresAt);
    }

    /** Kills the family, and reports how many live tokens that cost. */
    method RevokeFamily(family: Id) returns (revokedTokens: nat)
      requires family in families
      modifies this
      ensures revokedTokens == |Unspent(old(Rows()), family)|
      ensures Rows() == SetRevoked(old(Rows()), family, ReuseDetected)
    {
      revokedTokens := |set t | t in tokens && tokens[t].family == family && !tokens[t].consumed|;
      families := families[family := families[family].(revoked := Some(ReuseDetected))];
    }

    /** Sign-out: nothing happens for a token nobody issued, and a revocation keeps its first reason. */
    method Revoke(token: Id)
      modifies this
      ensures Rows() == match LogoutTarget(old(Rows()), token)
                        case Some(family) => SetRevoked(old(Rows()), family, Logout)
                        case None => old(Rows())
    {
      if token in tokens && tokens[token].family in families && families[tokens[token].family].revoked.None? {
        var family := tokens[token].family;
        families := families[family := families[family].(revoked := Some(Logout))];
      }
    }

    method Prune(before: Time) returns (count: nat)
      modifies this
      ensures Rows() == Pruned(old(Rows()), before) && count == |Prunable(old(Rows()), before)|
    {
      var gone := Prunable(Db(families, tokens), before);
      count := |gone|;
      tokens := map t | t in tokens && tokens[t].family !in gone :: tokens[t];
      families := map f | f in families && f !in gone :: families[f];
    }
  }

  datatype RefreshResult = Rotated(token: Id) | InvalidToken | ExpiredToken | IssueFailed

  /**
   * Rotates a token: the presented one is spent and a new one issued into the same family. An
   * expired token is spent all the same, and gets no successor.
   */
  method Refresh(store: RefreshTokenStore, token: Id, now: Time, successor: Id, expiresAt: Time) returns (r: RefreshResult)
    modifies store
    ensures var claim := Decide(old(store.Rows()), token);
            match claim
            case ClaimOf(user, family, expiry) =>
              if expiry < now then r == ExpiredToken && store.Rows() == Consumed(old(store.Rows()), token)
              else r == Rotated(successor)
                   && store.Rows() == Continued(Consumed(old(store.Rows()), token), successor, family, user, expiresAt)
            case _ => r == InvalidToken && store.Rows() == Consumed(old(store.Rows()), token)
  {
    var claim := store.Consume(token);
    match claim {
      case ClaimOf(user, family, expiry) =>
        if expiry < now {
          return ExpiredToken;
        }
        var ok := store.IssueInto(successor, family, user, expiresAt);
        if !ok {
          return IssueFailed;
        }
        return Rotated(successor);
      case _ =>
        return InvalidToken;
    }
  }

  /** Right after a rotation the old token is a replay and the new one is the family's only way in. */
  lemma RotationSpendsAndReplaces(s: State, token: Id, successor: Id, user: int, expiresAt: Time)
    requires Inv(s) && Decide(s.db, token).ClaimOf? && successor !in s.minted
    ensures var c := Act(s, Action.Consume(token));
            var n := Act(c, Rotate(token, successor, user, expiresAt));
            var family := s.db.tokens[token].family;
            && Unspent(n.db, family) == {successor}
            && Decide(n.db, successor) == ClaimOf(user, family, expiresAt)
            && Decide(n.db, token) == ReuseOf(family, s.db.tokens[token].user, 1)
  {
    var c := Act(s, Action.Consume(token));
    var n := Act(c, Rotate(token, successor, user, expiresAt));
    var family := s.db.tokens[token].family;
    ActKeeps(s, Action.Consume(token));
    ActKeeps(c, Rotate(token, successor, user, expiresAt));
    assert WayIn(n, family, successor);
    assert forall t :: t in Unspent(n.db, family) ==> WayIn(n, family, t);
    assert Unspent(n.db, family) == {successor};
  }
}
