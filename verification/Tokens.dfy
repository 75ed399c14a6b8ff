/**
 * Refresh-token families (internal/store/users.go and internal/store/auth_workflows.go):
 * rotation with replay detection, as in section 4.14.2 of RFC 9700.
 */
module Tokens {
  import opened Prelude

  /** A row of `refresh_tokens`; rows are keyed by `token_hash`, which is unique. */
  datatype Token = Token(user: int, family: int, expiresAt: int, revokedAt: Option<int>, replacedBy: Option<int>)

  datatype ResetToken = ResetToken(user: int, expiresAt: int, consumed: bool)

  /** `families` is every family ID generated so far; the generator never repeats one. */
  datatype Db = Db(
    now: int, deletedUsers: set<int>, tokens: map<int, Token>, resets: map<int, ResetToken>, families: set<int>)

  /** `COALESCE(revoked_at, now())`. */
  function Revoked(t: Token, now: int): Token {
    if t.revokedAt.Some? then t else t.(revokedAt := Some(now))
  }

  function RevokeFamily(tokens: map<int, Token>, family: int, now: int): map<int, Token> {
    map h | h in tokens :: if tokens[h].family == family then Revoked(tokens[h], now) else tokens[h]
  }

  function RevokeUser(tokens: map<int, Token>, user: int, now: int): map<int, Token> {
    map h | h in tokens :: if tokens[h].user == user then Revoked(tokens[h], now) else tokens[h]
  }

  predicate Usable(t: Token) { t.revokedAt.None? }

  // ----- the transactions -----

  function Create(db: Db, user: int, hash: int, family: int, expiresAt: int): (Db, Option<Error>) {
    if hash in db.tokens then (db, Some(Conflict))
    else
      (db.(tokens := db.tokens[hash := Token(user, family, expiresAt, None, None)], families := db.families + {family}),
       None)
  }

  function Rotate(db: Db, oldHash: int, newHash: int, expiresAt: int): (Db, Result<int>) {
    if oldHash !in db.tokens || db.tokens[oldHash].expiresAt <= db.now then (db, Err(TokenInvalid))
    else
      var t := db.tokens[oldHash];
      if !Usable(t) then (db.(tokens := RevokeFamily(db.tokens, t.family, db.now)), Err(TokenInvalid))
      else if t.user in db.deletedUsers then (db, Err(TokenInvalid))
      else if newHash in db.tokens then (db, Err(Conflict))
      else
        (db.(tokens := db.tokens[newHash := Token(t.user, t.family, expiresAt, None, None)]
                                [oldHash := t.(revokedAt := Some(db.now), replacedBy := Some(newHash))]),
         Ok(t.user))
  }

  function Revoke(db: Db, hash: int): (Db, Option<Error>) {
    if hash in db.tokens && Usable(db.tokens[hash])
    then (db.(tokens := db.tokens[hash := Revoked(db.tokens[hash], db.now)]), None)
    else (db, Some(TokenInvalid))
  }

  predicate InSession(t: Token, user: int, family: int) { t.user == user && t.family == family && Usable(t) }

  function RevokeSession(db: Db, user: int, family: int): (Db, Option<Error>) {
    if exists h :: h in db.tokens && InSession(db.tokens[h], user, family)
    then (db.(tokens := map h | h in db.tokens ::
                          if InSession(db.tokens[h], user, family) then Revoked(db.tokens[h], db.now)
                          else db.tokens[h]),
          None)
    else (db, Some(NotFound))
  }

  function ResetPassword(db: Db, hash: int): (Db, Option<Error>) {
    if hash in db.resets && !db.resets[hash].consumed && db.resets[hash].expiresAt > db.now
    then
      var user := db.resets[hash].user;
      (db.(resets := map h | h in db.resets ::
                       if db.resets[h].user == user then db.resets[h].(consumed := true) else db.resets[h],
           tokens := RevokeUser(db.tokens, user, db.now)), None)
    else (db, Some(TokenInvalid))
  }

  /** The token rows that `CleanupDatabase` deletes. */
  predicate Deletable(t: Token, now: int) { t.expiresAt < now - RETENTION }

  function Remaining(db: Db): map<int, Token> {
    map h | h in db.tokens && !Deletable(db.tokens[h], db.now) :: db.tokens[h]
  }

  /** `replaced_by` refers to rows of the same table. */
  ghost predicate ReferencesHold(tokens: map<int, Token>) {
    forall h :: h in tokens && tokens[h].replacedBy.Some? ==> tokens[h].replacedBy.value in tokens
  }

  /** A row that a surviving row refers to cannot be deleted: the statement then fails as a whole. */
  ghost function Cleanup(db: Db): (Db, Option<Error>) {
    if ReferencesHold(Remaining(db)) then (db.(tokens := Remaining(db)), None) else (db, Some(Invalid))
  }

  // ----- the store -----

  class Store {
    var now: int
    var deletedUsers: set<int>
    var tokens: map<int, Token>
    var resets: map<int, ResetToken>
    ghost var families: set<int>

    ghost function Contents(): Db
      reads this
    {
      Db(now, deletedUsers, tokens, resets, families)
    }

    constructor (now: int)
      ensures Contents() == Db(now, {}, map[], map[], {})
    {
      this.now, deletedUsers, tokens, resets, families := now, {}, map[], map[], {};
    }

    method CreateRefreshToken(user: int, hash: int, family: int, expiresAt: int) returns (error: Option<Error>)
      modifies this`tokens, this`families
      ensures (Contents(), error) == Create(old(Contents()), user, hash, family, expiresAt)
    {
      if hash in tokens {
        return Some(Conflict);
      }
      tokens := tokens[hash := Token(user, family, expiresAt, None, None)];
      families := families + {family};
      return None;
    }

    method RotateRefreshToken(oldHash: int, newHash: int, expiresAt: int) returns (r: Result<int>)
      modifies this`tokens
      ensures (Contents(), r) == Rotate(old(Contents()), oldHash, newHash, expiresAt)
    {
      if oldHash !in tokens {
        return Err(TokenInvalid);
      }
      var row := tokens[oldHash];
      if row.expiresAt <= now {
        return Err(TokenInvalid);
      }
      if row.revokedAt.Some? {
        tokens := map h | h in tokens :: if tokens[h].family == row.family then Revoked(tokens[h], now) else tokens[h];
        return Err(TokenInvalid);
      }
      if row.user in deletedUsers {
        return Err(TokenInvalid);
      }
      if newHash in tokens {
        return Err(Conflict);
      }
      tokens := tokens[newHash := Token(row.user, row.family, expiresAt, None, None)];
      tokens := tokens[oldHash := row.(revokedAt := Some(now), replacedBy := Some(newHash))];
      return Ok(row.user);
    }

    method RevokeRefreshToken(hash: int) returns (error: Option<Error>)
      modifies this`tokens
      ensures (Contents(), error) == Revoke(old(Contents()), hash)
    {
      if hash !in tokens || tokens[hash].revokedAt.Some? {
        return Some(TokenInvalid);
      }
      tokens := tokens[hash := tokens[hash].(revokedAt := Some(now))];
      return None;
    }

    method RevokeOneSession(user: int, family: int) returns (error: Option<Error>)
      modifies this`tokens
      ensures (Contents(), error) == RevokeSession(old(Contents()), user, family)
    {
      if forall h :: h in tokens ==> !InSession(tokens[h], user, family) {
        return Some(NotFound);
      }
      tokens := map h | h in tokens ::
        if InSession(tokens[h], user, family) then Revoked(tokens[h], now) else tokens[h];
      return None;
    }

    /** No row comes or goes; only tokens of the user that were not revoked yet change, and they are revoked now. */
    method RevokeAllSessions(user: int)
      modifies this`tokens
      ensures tokens.Keys == old(tokens).Keys
      ensures forall h :: h in tokens && (old(tokens)[h].user != user || !Usable(old(tokens)[h])) ==>
                tokens[h] == old(tokens)[h]
      ensures forall h :: h in tokens && old(tokens)[h].user == user && Usable(old(tokens)[h]) ==>
                tokens[h] == old(tokens)[h].(revokedAt := Some(now))
    {
      tokens := map h | h in tokens :: if tokens[h].user == user then Revoked(tokens[h], now) else tokens[h];
    }

    method ConsumeReset(hash: int) returns (error: Option<Error>)
      modifies this`tokens, this`resets
      ensures (Contents(), error) == ResetPassword(old(Contents()), hash)
    {
      if hash !in resets || resets[hash].consumed || resets[hash].expiresAt <= now {
        return Some(TokenInvalid);
      }
      var user := resets[hash].user;
      resets := map h | h in resets ::
        if resets[h].user == user && !resets[h].consumed then resets[h].(consumed := true) else resets[h];
      assert resets == ResetPassword(old(Contents()), hash).0.resets;
      RevokeAllSessions(user);
      assert forall h :: h in tokens ==> tokens[h] == RevokeUser(old(tokens), user, now)[h];
      assert tokens == RevokeUser(old(tokens), user, now);
      return None;
    }
  }

  // ----- runs -----

  datatype Event =
    | Tick(elapsed: nat)
    | DeleteUser(user: int)
    | Login(user: int, hash: int, family: int, expiresAt: int)
    | Refresh(oldHash: int, newHash: int, expiresAt: int)
    | Logout(hash: int)
    | EndSession(user: int, family: int)
    | EndAll(user: int)
    | RequestReset(hash: int, user: int, expiresAt: int)
    | Reset(hash: int)
    | Purge

  ghost function Next(db: Db, e: Event): Db {
    match e
    case Tick(elapsed) => db.(now := db.now + elapsed)
    case DeleteUser(user) => db.(deletedUsers := db.deletedUsers + {user})
    case Login(user, hash, family, at) => if family in db.families then db else Create(db, user, hash, family, at).0
    case Refresh(from, to, at) => Rotate(db, from, to, at).0
    case Logout(hash) => Revoke(db, hash).0
    case EndSession(user, family) => RevokeSession(db, user, family).0
    case EndAll(user) => db.(tokens := RevokeUser(db.tokens, user, db.now))
    case RequestReset(hash, user, at) =>
      db.(resets := (map h | h in db.resets ::
                       if db.resets[h].user == user then db.resets[h].(consumed := true) else db.resets[h])
                    [hash := ResetToken(user, at, false)])
    case Reset(hash) => ResetPassword(db, hash).0
    case Purge => Cleanup(db).0
  }

  ghost function Run(db: Db, events: seq<Event>): Db {
    if events == [] then db else Next(Run(db, events[..|events| - 1]), events[|events| - 1])
  }

  // ----- the invariant -----

  /** A family has one owner and at most one token that has not been revoked. */
  ghost predicate OneUsable(db: Db) {
    && (forall h :: h in db.tokens ==> db.tokens[h].family in db.families)
    && (forall h, k :: h in db.tokens && k in db.tokens && db.tokens[h].family == db.tokens[k].family ==>
          && db.tokens[h].user == db.tokens[k].user
          && (Usable(db.tokens[h]) && Usable(db.tokens[k]) ==> h == k))
  }

  lemma StepOneUsable(db: Db, e: Event)
    requires OneUsable(db)
    ensures OneUsable(Next(db, e))
  {}

  lemma {:induction false} RunOneUsable(db: Db, events: seq<Event>)
    requires OneUsable(db)
    ensures OneUsable(Run(db, events))
  {
    if events != [] {
      RunOneUsable(db, events[..|events| - 1]);
      StepOneUsable(Run(db, events[..|events| - 1]), events[|events| - 1]);
    }
  }

  /** In every reachable state each family has one owner and at most one usable token. */
  lemma {:induction false} FamiliesStaySingle(db: Db, events: seq<Event>)
    requires db.tokens == map[]
    ensures OneUsable(Run(db, events))
  {
    RunOneUsable(db, events);
  }

  // ----- replay -----

  ghost predicate DeadFamily(db: Db, family: int) {
    family in db.families && forall h :: h in db.tokens && db.tokens[h].family == family ==> !Usable(db.tokens[h])
  }

  lemma StepKeepsDead(db: Db, e: Event, family: int)
    requires DeadFamily(db, family)
    ensures DeadFamily(Next(db, e), family)
  {}

  /** A family without a usable token never gets one again. */
  lemma {:induction false} DeadFamilyStaysDead(db: Db, events: seq<Event>, family: int)
    requires DeadFamily(db, family)
    ensures DeadFamily(Run(db, events), family)
  {
    if events != [] {
      DeadFamilyStaysDead(db, events[..|events| - 1], family);
      StepKeepsDead(Run(db, events[..|events| - 1]), events[|events| - 1], family);
    }
  }

  /**
   * Replay: presenting an unexpired token that was already rotated or revoked issues
   * nothing, and from then on the whole family is revoked, whatever happens later.
   */
  lemma ReplayKillsFamily(db: Db, oldHash: int, newHash: int, expiresAt: int, later: seq<Event>)
    requires OneUsable(db)
    requires oldHash in db.tokens && db.tokens[oldHash].expiresAt > db.now && !Usable(db.tokens[oldHash])
    ensures var (db', r) := Rotate(db, oldHash, newHash, expiresAt);
            && r == Err(TokenInvalid) && db'.tokens.Keys == db.tokens.Keys
            && DeadFamily(Run(db', later), db.tokens[oldHash].family)
  {
    var db' := Rotate(db, oldHash, newHash, expiresAt).0;
    DeadFamilyStaysDead(db', later, db.tokens[oldHash].family);
  }

  /**
   * A rotation succeeds exactly for a live, unrevoked token of a remaining user, and
   * hands the family's one usable token on to the new hash.
   */
  lemma RotationMovesTheToken(db: Db, oldHash: int, newHash: int, expiresAt: int)
    requires OneUsable(db)
    ensures Rotate(db, oldHash, newHash, expiresAt).1.Ok? <==>
              && oldHash in db.tokens && db.tokens[oldHash].expiresAt > db.now && Usable(db.tokens[oldHash])
              && db.tokens[oldHash].user !in db.deletedUsers && newHash !in db.tokens
    ensures var (db', r) := Rotate(db, oldHash, newHash, expiresAt);
            r.Ok? ==>
              && oldHash in db.tokens && Usable(db.tokens[oldHash]) && r.value == db.tokens[oldHash].user
              && newHash !in db.tokens && newHash in db'.tokens
              && db'.tokens[newHash].family == db.tokens[oldHash].family
              && db'.tokens[oldHash].replacedBy == Some(newHash)
              && (forall h :: h in db'.tokens && db'.tokens[h].family == db.tokens[oldHash].family ==>
                    (Usable(db'.tokens[h]) <==> h == newHash))
              && (forall h :: h in db.tokens && h != oldHash ==> h in db'.tokens && db'.tokens[h] == db.tokens[h])
  {}

  /** A password reset leaves its user without a usable token. */
  lemma ResetEndsEverySession(db: Db, hash: int, h: int)
    requires ResetPassword(db, hash).1.None?
    ensures var db' := ResetPassword(db, hash).0;
            && hash in db.resets
            && (h in db'.tokens && db'.tokens[h].user == db.resets[hash].user ==> !Usable(db'.tokens[h]))
            && ResetPassword(db', hash).1 == Some(TokenInvalid)
  {}

  /** Ending all sessions leaves every family of the user dead over any later run, and no other token touched. */
  lemma EndAllEndsSessions(db: Db, user: int, later: seq<Event>, h: int)
    requires OneUsable(db) && h in db.tokens
    ensures var ended := Next(db, EndAll(user));
            && ended == db.(tokens := ended.tokens) && ended.tokens.Keys == db.tokens.Keys
            && (db.tokens[h].user == user ==>
                  ended.tokens[h] ==
                  if Usable(db.tokens[h]) then db.tokens[h].(revokedAt := Some(db.now)) else db.tokens[h])
            && (if db.tokens[h].user == user then DeadFamily(Run(ended, later), db.tokens[h].family)
                else ended.tokens[h] == db.tokens[h])
  {
    if db.tokens[h].user == user {
      DeadFamilyStaysDead(Next(db, EndAll(user)), later, db.tokens[h].family);
    }
  }

  // ----- cleanup and the reference from a token to its successor -----

  /** The rows after some time in which nothing happens. */
  function After(db: Db, elapsed: nat): Db { db.(now := db.now + elapsed) }

  /** Cleanup succeeds now and, if nothing else happens, at any later time. */
  ghost predicate CleanupSafe(db: Db) {
    forall elapsed: nat :: Cleanup(After(db, elapsed)).1.None?
  }

  /** A row that cleanup keeps for now and that expires later than the row it refers to. */
  predicate Outlives(db: Db, h: int) {
    && h in db.tokens && !Deletable(db.tokens[h], db.now)
    && db.tokens[h].replacedBy.Some? && db.tokens[h].replacedBy.value in db.tokens
    && db.tokens[h].expiresAt > db.tokens[db.tokens[h].replacedBy.value].expiresAt
  }

  /** The instant from which the successor of `h`, but not yet `h`, is deleted. */
  function BlockedAfter(db: Db, h: int): (elapsed: nat)
    requires Outlives(db, h)
  {
    Max(0, db.tokens[db.tokens[h].replacedBy.value].expiresAt + RETENTION + 1 - db.now)
  }

  lemma OutlivedBlocks(db: Db, h: int)
    requires Outlives(db, h)
    ensures Cleanup(After(db, BlockedAfter(db, h))).1 == Some(Invalid)
  {
    var later, next := After(db, BlockedAfter(db, h)), db.tokens[h].replacedBy.value;
    assert !Deletable(db.tokens[h], later.now) && Deletable(db.tokens[next], later.now);
    assert h in Remaining(later) && next !in Remaining(later);
    assert Remaining(later)[h].replacedBy == Some(next);
  }

  lemma BlockedIsOutlived(db: Db, elapsed: nat) returns (h: int)
    requires ReferencesHold(db.tokens) && Cleanup(After(db, elapsed)).1.Some?
    ensures Outlives(db, h)
  {
    var left := Remaining(After(db, elapsed));
    h :| h in left && left[h].replacedBy.Some? && left[h].replacedBy.value !in left;
    var next := db.tokens[h].replacedBy.value;
    assert next in db.tokens && Deletable(db.tokens[next], db.now + elapsed);
    assert !Deletable(db.tokens[h], db.now + elapsed);
  }

  /**
   * Time alone can bring cleanup to fail exactly when some token that is not yet
   * deletable expires later than the token that replaced it.
   */
  lemma ClockCanBlock(db: Db)
    requires ReferencesHold(db.tokens)
    ensures CleanupSafe(db) <==> forall h :: !Outlives(db, h)
  {
    forall h | Outlives(db, h)
      ensures !CleanupSafe(db)
    {
      OutlivedBlocks(db, h);
      assert Cleanup(After(db, BlockedAfter(db, h))).1.Some?;
    }
    if !CleanupSafe(db) {
      var elapsed: nat :| Cleanup(After(db, elapsed)).1.Some?;
      var h := BlockedIsOutlived(db, elapsed);
    }
  }

  /** A rotation that succeeds and issues a token which expires before the one it replaces. */
  predicate Shortens(db: Db, e: Event) {
    e.Refresh? && Rotate(db, e.oldHash, e.newHash, e.expiresAt).1.Ok? && e.expiresAt < db.tokens[e.oldHash].expiresAt
  }

  lemma StepKeepsReferences(db: Db, e: Event)
    requires ReferencesHold(db.tokens)
    ensures ReferencesHold(Next(db, e).tokens)
  {}

  /** A rotation that shortens leaves a token that outlives its successor. */
  lemma ShortenedOutlives(db: Db, e: Event)
    requires Shortens(db, e)
    ensures Outlives(Next(db, e), e.oldHash)
  {
    var t, tokens := db.tokens[e.oldHash], Next(db, e).tokens;
    assert tokens[e.oldHash] == t.(revokedAt := Some(db.now), replacedBy := Some(e.newHash));
    assert e.newHash in tokens && tokens[e.newHash].expiresAt == e.expiresAt;
    assert t.expiresAt > db.now && !Deletable(tokens[e.oldHash], db.now);
    assert Next(db, e).now == db.now;
    assert tokens[e.oldHash].expiresAt > tokens[tokens[e.oldHash].replacedBy.value].expiresAt;
  }

  lemma StepOutlives(db: Db, e: Event, h: int)
    requires ReferencesHold(db.tokens) && Outlives(Next(db, e), h) && !Shortens(db, e)
    ensures Outlives(db, h)
  {
    var tokens := Next(db, e).tokens;
    var next := tokens[h].replacedBy.value;
    RowsKept(db, e, h);
    RowsKept(db, e, next);
  }

  /** A step keeps the expiry of a row, adds rows without a reference, and only a rotation sets a reference. */
  lemma RowsKept(db: Db, e: Event, h: int)
    requires h in Next(db, e).tokens
    ensures h !in db.tokens ==> Next(db, e).tokens[h].replacedBy.None?
    ensures h in db.tokens ==>
              && Next(db, e).tokens[h].expiresAt == db.tokens[h].expiresAt
              && (Next(db, e).tokens[h].replacedBy == db.tokens[h].replacedBy
                  || (e.Refresh? && h == e.oldHash && Rotate(db, h, e.newHash, e.expiresAt).1.Ok?
                      && Next(db, e).tokens[h].replacedBy == Some(e.newHash)
                      && e.newHash in Next(db, e).tokens && Next(db, e).tokens[e.newHash].expiresAt == e.expiresAt))
  {}

  /** From a safe state, a step leads to an unsafe one exactly when it is a rotation that shortens. */
  lemma StepSafe(db: Db, e: Event)
    requires ReferencesHold(db.tokens) && CleanupSafe(db)
    ensures CleanupSafe(Next(db, e)) <==> !Shortens(db, e)
  {
    StepKeepsReferences(db, e);
    ClockCanBlock(db);
    ClockCanBlock(Next(db, e));
    if Shortens(db, e) {
      ShortenedOutlives(db, e);
    } else {
      forall h
        ensures Outlives(Next(db, e), h) ==> Outlives(db, h)
      {
        if Outlives(Next(db, e), h) {
          StepOutlives(db, e, h);
        }
      }
    }
  }

  ghost predicate SafeThroughout(db: Db, events: seq<Event>) {
    CleanupSafe(Run(db, events)) && (events != [] ==> SafeThroughout(db, events[..|events| - 1]))
  }

  ghost predicate NeverShortens(db: Db, events: seq<Event>) {
    events != [] ==>
      && NeverShortens(db, events[..|events| - 1])
      && !Shortens(Run(db, events[..|events| - 1]), events[|events| - 1])
  }

  lemma {:induction false} RunKeepsReferences(db: Db, events: seq<Event>)
    requires ReferencesHold(db.tokens)
    ensures ReferencesHold(Run(db, events).tokens)
  {
    if events != [] {
      RunKeepsReferences(db, events[..|events| - 1]);
      StepKeepsReferences(Run(db, events[..|events| - 1]), events[|events| - 1]);
    }
  }

  /**
   * Over every run: cleanup can never fail, at any point of the run or by waiting there,
   * if and only if no successful rotation issues a token that expires before the one it
   * replaces.
   */
  lemma {:induction false} CleanupSafeExactly(db: Db, events: seq<Event>)
    requires ReferencesHold(db.tokens) && CleanupSafe(db)
    ensures SafeThroughout(db, events) <==> NeverShortens(db, events)
  {
    if events != [] {
      var front := events[..|events| - 1];
      CleanupSafeExactly(db, front);
      if SafeThroughout(db, front) {
        RunKeepsReferences(db, front);
        StepSafe(Run(db, front), events[|events| - 1]);
      }
    }
  }

  /** Tokens are always issued with the lifetime `ttl`. */
  predicate Lifetime(db: Db, e: Event, ttl: nat) {
    && (e.Login? ==> e.expiresAt == db.now + ttl)
    && (e.Refresh? ==> e.expiresAt == db.now + ttl)
  }

  ghost predicate Lifetimes(db: Db, events: seq<Event>, ttl: nat) {
    events != [] ==>
      && Lifetimes(db, events[..|events| - 1], ttl)
      && Lifetime(Run(db, events[..|events| - 1]), events[|events| - 1], ttl)
  }

  /** No token expires further ahead than a lifetime. */
  ghost predicate Within(db: Db, ttl: nat) {
    forall h :: h in db.tokens ==> db.tokens[h].expiresAt <= db.now + ttl
  }

  lemma StepWithin(db: Db, e: Event, ttl: nat)
    requires Within(db, ttl) && Lifetime(db, e, ttl)
    ensures Within(Next(db, e), ttl) && !Shortens(db, e)
  {}

  lemma {:induction false} LifetimesNeverShorten(db: Db, events: seq<Event>, ttl: nat)
    requires Within(db, ttl) && Lifetimes(db, events, ttl)
    ensures Within(Run(db, events), ttl) && NeverShortens(db, events)
  {
    if events != [] {
      LifetimesNeverShorten(db, events[..|events| - 1], ttl);
      StepWithin(Run(db, events[..|events| - 1]), events[|events| - 1], ttl);
    }
  }

  /** With a fixed lifetime, cleanup never deletes a row that a surviving row refers to, so it never fails. */
  lemma CleanupNeverBlocked(db: Db, events: seq<Event>, ttl: nat)
    requires db.tokens == map[] && Lifetimes(db, events, ttl)
    ensures Cleanup(Run(db, events)).1.None?
    ensures ReferencesHold(Cleanup(Run(db, events)).0.tokens)
  {
    LifetimesNeverShorten(db, events, ttl);
    ClockCanBlock(db);
    CleanupSafeExactly(db, events);
    assert Cleanup(After(Run(db, events), 0)).1.None?;
    assert After(Run(db, events), 0) == Run(db, events);
  }

  lemma RunTwo(db: Db, e: Event, f: Event)
    ensures Run(db, [e, f]) == Next(Next(db, e), f)
  {
    assert [e, f][..1] == [e] && [e][..0] == [];
    assert Run(db, [e]) == Next(db, e);
  }

  /**
   * Shortening the lifetime does block cleanup: in any state, a login with the old
   * lifetime and a rotation with a shorter one make a later cleanup fail.
   */
  lemma ShorterLifetimeBlocksCleanup(db: Db, user: int, hash: int, newHash: int, family: int, long: nat, short: nat)
    requires 0 < long && short < long && user !in db.deletedUsers
    requires hash !in db.tokens && newHash !in db.tokens && hash != newHash && family !in db.families
    ensures var login := Login(user, hash, family, db.now + long);
            var refresh := Refresh(hash, newHash, db.now + short);
            exists elapsed: nat :: Cleanup(After(Run(db, [login, refresh]), elapsed)).1 == Some(Invalid)
  {
    var login, refresh := Login(user, hash, family, db.now + long), Refresh(hash, newHash, db.now + short);
    RunTwo(db, login, refresh);
    ShortenedOutlives(Next(db, login), refresh);
    OutlivedBlocks(Run(db, [login, refresh]), hash);
  }
}
