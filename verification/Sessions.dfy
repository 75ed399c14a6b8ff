/**
 * What each request about refresh tokens answers and changes, in terms of the columns
 * it reads (internal/store/users.go, internal/store/auth_workflows.go,
 * internal/store/accounts.go).
 */
module Sessions {
  import opened Prelude
  import opened Tokens

  /** All rows but those of `changed` are as they were, and no row has gone. */
  predicate OnlyChanges(tokens: map<int, Token>, tokens': map<int, Token>, changed: set<int>) {
    forall h :: h in tokens ==> h in tokens' && (h in changed || tokens'[h] == tokens[h])
  }

  // ----- issuing and rotating -----

  /** A login with an unused hash adds its token, unrevoked and without a successor. */
  lemma CreateAnswers(db: Db, user: int, hash: int, family: int, expiresAt: int)
    ensures var (db', answer) := Create(db, user, hash, family, expiresAt);
            if hash in db.tokens then answer == Some(Conflict) && db' == db
            else
              && answer.None?
              && db' == db.(tokens := db.tokens[hash := Token(user, family, expiresAt, None, None)],
                            families := db.families + {family})
  {
  }

  /** Why a rotation is refused, and that only a replay changes anything then. */
  lemma RotateRefuses(db: Db, oldHash: int, newHash: int, expiresAt: int)
    ensures var (db', r) := Rotate(db, oldHash, newHash, expiresAt);
            var known := oldHash in db.tokens && db.now < db.tokens[oldHash].expiresAt;
            && (r == Err(TokenInvalid) <==>
                !known || db.tokens[oldHash].revokedAt.Some? || db.tokens[oldHash].user in db.deletedUsers)
            && (r == Err(Conflict) <==>
                && known && db.tokens[oldHash].revokedAt.None? && db.tokens[oldHash].user !in db.deletedUsers
                && newHash in db.tokens)
            && (r.Err? && !(known && db.tokens[oldHash].revokedAt.Some?) ==> db' == db)
  {
  }

  /** A replay revokes what is left of the family, now, and changes nothing else. */
  lemma ReplayRevokes(db: Db, oldHash: int, newHash: int, expiresAt: int)
    requires oldHash in db.tokens && db.now < db.tokens[oldHash].expiresAt && db.tokens[oldHash].revokedAt.Some?
    ensures var db' := Rotate(db, oldHash, newHash, expiresAt).0;
            && db' == db.(tokens := db'.tokens) && db'.tokens.Keys == db.tokens.Keys
            && forall h :: h in db.tokens ==>
                 db'.tokens[h] ==
                 if db.tokens[h].family == db.tokens[oldHash].family && db.tokens[h].revokedAt.None?
                 then db.tokens[h].(revokedAt := Some(db.now)) else db.tokens[h]
  {
  }

  /** A rotation issues a token of the same user and family, and ends the old one now. */
  lemma RotateWrites(db: Db, oldHash: int, newHash: int, expiresAt: int)
    ensures var (db', r) := Rotate(db, oldHash, newHash, expiresAt);
            r.Ok? ==>
              && oldHash in db.tokens && newHash !in db.tokens && r.value == db.tokens[oldHash].user
              && db' == db.(tokens := db'.tokens) && db'.tokens.Keys == db.tokens.Keys + {newHash}
              && db'.tokens[newHash] ==
                 Token(db.tokens[oldHash].user, db.tokens[oldHash].family, expiresAt, None, None)
              && db'.tokens[oldHash] ==
                 db.tokens[oldHash].(revokedAt := Some(db.now), replacedBy := Some(newHash))
              && OnlyChanges(db.tokens, db'.tokens, {oldHash})
  {
  }

  // ----- ending sessions -----

  ghost predicate Unrevoked(db: Db, h: int) { h in db.tokens && db.tokens[h].revokedAt.None? }

  /**
   * Ending one session succeeds exactly when the user has an unrevoked token of the
   * family; then the family stays without one over every later run, and no token of
   * another family or user is touched.
   */
  lemma EndSessionEnds(db: Db, user: int, family: int, later: seq<Event>)
    requires OneUsable(db)
    ensures var (db', answer) := RevokeSession(db, user, family);
            && (answer.None? <==>
                exists h :: Unrevoked(db, h) && db.tokens[h].user == user && db.tokens[h].family == family)
            && (answer.Some? ==> answer == Some(NotFound) && db' == db)
            && (answer.None? ==>
                  && DeadFamily(Run(db', later), family)
                  && db' == db.(tokens := db'.tokens) && db'.tokens.Keys == db.tokens.Keys
                  && forall h :: h in db.tokens ==>
                       if db.tokens[h].family != family || db.tokens[h].user != user || !Unrevoked(db, h)
                       then db'.tokens[h] == db.tokens[h]
                       else db'.tokens[h] == db.tokens[h].(revokedAt := Some(db.now)))
  {
    var (db', answer) := RevokeSession(db, user, family);
    if answer.None? {
      var h :| h in db.tokens && InSession(db.tokens[h], user, family);
      assert Unrevoked(db, h);
      DeadFamilyStaysDead(db', later, family);
    } else {
      forall h | Unrevoked(db, h) && db.tokens[h].user == user
        ensures db.tokens[h].family != family
      {
        assert !InSession(db.tokens[h], user, family);
      }
    }
  }

  /** The like for a logout with one token, which is the last unrevoked one of its family. */
  lemma LogoutEnds(db: Db, hash: int, later: seq<Event>)
    requires OneUsable(db)
    ensures var (db', answer) := Revoke(db, hash);
            && (answer.None? <==> Unrevoked(db, hash))
            && (answer.Some? ==> answer == Some(TokenInvalid) && db' == db)
            && (answer.None? ==>
                  && db' == db.(tokens := db.tokens[hash := db.tokens[hash].(revokedAt := Some(db.now))])
                  && DeadFamily(Run(db', later), db.tokens[hash].family))
  {
    if Unrevoked(db, hash) {
      DeadFamilyStaysDead(Revoke(db, hash).0, later, db.tokens[hash].family);
    }
  }

  /** A reset needs an open, unexpired reset token; it spends all of its user's and revokes all of their tokens. */
  lemma ResetAnswers(db: Db, hash: int)
    ensures var (db', answer) := ResetPassword(db, hash);
            && (answer.None? <==> hash in db.resets && !db.resets[hash].consumed && db.now < db.resets[hash].expiresAt)
            && (answer.Some? ==> answer == Some(TokenInvalid) && db' == db)
            && (answer.None? ==>
                  var user := db.resets[hash].user;
                  && db' == db.(tokens := db'.tokens, resets := db'.resets)
                  && db'.resets.Keys == db.resets.Keys && db'.tokens.Keys == db.tokens.Keys
                  && (forall h :: h in db.resets ==>
                        db'.resets[h] == db.resets[h].(consumed := db.resets[h].consumed || db.resets[h].user == user))
                  && (forall h :: h in db.tokens ==>
                        db'.tokens[h] ==
                        if db.tokens[h].user == user && db.tokens[h].revokedAt.None?
                        then db.tokens[h].(revokedAt := Some(db.now)) else db.tokens[h]))
  {
  }

  /** A password reset leaves every family of its user dead over every later run. */
  lemma ResetIsForGood(db: Db, hash: int, later: seq<Event>, h: int)
    requires OneUsable(db) && ResetPassword(db, hash).1.None?
    requires h in db.tokens && db.tokens[h].user == db.resets[hash].user
    ensures DeadFamily(Run(ResetPassword(db, hash).0, later), db.tokens[h].family)
  {
    DeadFamilyStaysDead(ResetPassword(db, hash).0, later, db.tokens[h].family);
  }

  /** Asking for a reset opens one reset token, until the instant given, and spends the user's earlier ones. */
  lemma RequestOpens(db: Db, hash: int, user: int, expiresAt: int, h: int)
    ensures var db' := Next(db, RequestReset(hash, user, expiresAt));
            && db' == db.(resets := db'.resets) && db'.resets.Keys == db.resets.Keys + {hash}
            && db'.resets[hash] == ResetToken(user, expiresAt, false)
            && (h in db.resets && h != hash ==>
                  db'.resets[h] == db.resets[h].(consumed := db.resets[h].consumed || db.resets[h].user == user))
  {
  }

  /** A user has at most one open reset token. */
  ghost predicate OneReset(db: Db) {
    forall h, k :: OpenReset(db, h) && OpenReset(db, k) && db.resets[h].user == db.resets[k].user ==> h == k
  }

  predicate OpenReset(db: Db, h: int) {
    h in db.resets && !db.resets[h].consumed
  }

  lemma StepOneReset(db: Db, e: Event)
    requires OneReset(db)
    ensures OneReset(Next(db, e))
  {
  }

  /** In every reachable state only the reset token asked for last can be used. */
  lemma {:induction false} ResetsStaySingle(db: Db, events: seq<Event>)
    requires OneReset(db)
    ensures OneReset(Run(db, events))
  {
    if events != [] {
      ResetsStaySingle(db, events[..|events| - 1]);
      StepOneReset(Run(db, events[..|events| - 1]), events[|events| - 1]);
    }
  }

  /** Cleanup that does not fail deletes exactly the tokens that expired more than 30 days ago. */
  lemma CleanupDeletes(db: Db)
    ensures Cleanup(db).1.Some? ==> Cleanup(db).0 == db
    ensures Cleanup(db).1.None? ==>
              var db' := Cleanup(db).0;
              && db' == db.(tokens := db'.tokens) && OnlyChanges(db'.tokens, db.tokens, {})
              && forall h :: h in db'.tokens <==> h in db.tokens && db.now <= db.tokens[h].expiresAt + 30 * DAY
  {
  }
}
