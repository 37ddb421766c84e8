/** What the handlers promise: which records each one changes, the strict expiry boundary, the
    order of the login checks, the paired token fields, and what the projections leave out. */
module Properties {
  import opened Tokens
  import opened Accounts
  import opened Transitions

  /** t' differs from t at most in the record stored under id. */
  ghost predicate OnlyChanged(t: Table, t': Table, id: Id) {
    && t'.nextId == t.nextId
    && t'.users.Keys == t.users.Keys
    && forall j :: j in t.users && j != id ==> t'.users[j] == t.users[j]
  }

  /** The record a token lookup at time now picks: the lowest id holding that token live. */
  ghost predicate FirstLiveHolder(t: Table, token: string, now: int, id: Id) {
    && id in t.users
    && t.users[id].resetToken == Some(token) && Live(t.users[id], now)
    && forall j :: j in t.users && j < id ==> !(t.users[j].resetToken == Some(token) && Live(t.users[j], now))
  }

  lemma FirstLiveHolderIsFound(t: Table, token: string, now: int, id: Id)
    requires IdsConsistent(t)
    requires FirstLiveHolder(t, token, now, id)
    ensures Find(t, ByToken(Some(token), now)) == Some(id)
  {
    FindComplete(t, ByToken(Some(token), now));
  }

  // ---------------------------------------------------------------------------
  // createUser

  lemma CreateUserRejectsMissingField(c: Crypto, t: Table, name: Field, email: Field, password: Field,
                                      random: Random32, now: int)
    requires !Truthy(name) || !Truthy(email) || !Truthy(password)
    ensures CreateUser(c, t, name, email, password, random, now) == Step(BadRequest(MsgMissingFields), t)
  {
  }

  lemma CreateUserConflictIff(c: Crypto, t: Table, name: Field, email: Field, password: Field,
                              random: Random32, now: int)
    requires Valid(t)
    requires Truthy(name) && Truthy(email) && Truthy(password)
    ensures var s := CreateUser(c, t, name, email, password, random, now);
      && (s.reply.Conflict? <==> exists id :: id in t.users && t.users[id].email == email.value)
      && (s.reply.Conflict? ==> s == Step(Conflict(MsgEmailRegistered), t))
  {
    FindComplete(t, ByEmail(email.value));
  }

  /** A successful registration appends exactly one unverified record under a fresh id. */
  lemma CreateUserInsertsOne(c: Crypto, t: Table, name: Field, email: Field, password: Field,
                             random: Random32, now: int)
    requires Valid(t)
    requires Truthy(name) && Truthy(email) && Truthy(password)
    requires forall id :: id in t.users ==> t.users[id].email != email.value
    ensures var s := CreateUser(c, t, name, email, password, random, now);
      var id := t.nextId;
      && id !in t.users
      && s.reply == Created(MsgCreated, CreatedView(id, name.value, email.value, now))
      && s.table.nextId == id + 1
      && s.table.users.Keys == t.users.Keys + {id}
      && (forall j :: j in t.users ==> s.table.users[j] == t.users[j])
      && var u := s.table.users[id];
         && u.name == name.value && u.email == email.value
         && u.passwordHash == c.hash(password.value)
         && !u.verified
         && u.resetToken == Some(TokenOf(random))
         && u.resetExpires == Some(now + 86400000)
         && u.createdAt == now
  {
    FindComplete(t, ByEmail(email.value));
  }

  /** The 201 body depends on neither the password, its hash nor the token. */
  lemma CreateReplyHidesSecrets(c1: Crypto, c2: Crypto, t: Table, name: Field, email: Field,
                                p1: Field, p2: Field, r1: Random32, r2: Random32, now: int)
    requires Truthy(p1) && Truthy(p2)
    ensures CreateUser(c1, t, name, email, p1, r1, now).reply == CreateUser(c2, t, name, email, p2, r2, now).reply
  {
  }

  lemma CreateUserPreservesValid(c: Crypto, t: Table, name: Field, email: Field, password: Field,
                                 random: Random32, now: int)
    requires Valid(t)
    ensures Valid(CreateUser(c, t, name, email, password, random, now).table)
  {
    if Truthy(name) && Truthy(email) && Truthy(password) {
      FindComplete(t, ByEmail(email.value));
    }
  }

  // ---------------------------------------------------------------------------
  // verifyEmail

  lemma VerifyEmailSucceedsIff(t: Table, token: string, now: int)
    requires Valid(t)
    ensures var s := VerifyEmail(t, token, now);
      && (s.reply.Ok? <==> exists id :: id in t.users && t.users[id].resetToken == Some(token) && Live(t.users[id], now))
      && (!s.reply.Ok? ==> s == Step(BadRequest(MsgBadToken), t))
  {
    FindComplete(t, ByToken(Some(token), now));
  }

  /** The expiry comparison is strict: a token whose expiry equals now is already dead. */
  lemma VerifyEmailExpiryIsStrict(t: Table, token: string, now: int, id: Id, expires: int)
    requires Valid(t)
    requires id in t.users && t.users[id].resetToken == Some(token) && t.users[id].resetExpires == Some(expires)
    requires forall j :: j in t.users && t.users[j].resetToken == Some(token) ==> j == id
    ensures VerifyEmail(t, token, now).reply.Ok? <==> now < expires
    ensures now == expires ==> VerifyEmail(t, token, now) == Step(BadRequest(MsgBadToken), t)
  {
    FindComplete(t, ByToken(Some(token), now));
  }

  /** Success clears the token pair, sets verified, and touches no other field or record. */
  lemma VerifyEmailEffect(t: Table, token: string, now: int, id: Id)
    requires Valid(t)
    requires FirstLiveHolder(t, token, now, id)
    ensures var s := VerifyEmail(t, token, now);
      && s.reply == Ok(MsgVerified)
      && OnlyChanged(t, s.table, id)
      && s.table.users[id] == t.users[id].(verified := true, resetToken := None, resetExpires := None, updatedAt := now)
  {
    FirstLiveHolderIsFound(t, token, now, id);
  }

  lemma VerifyEmailPreservesValid(t: Table, token: string, now: int)
    requires Valid(t)
    ensures Valid(VerifyEmail(t, token, now).table)
  {
  }

  /** A token held by one record can be consumed once: a second attempt, at any time, fails
      and changes nothing. */
  lemma VerifyTokenSingleUse(t: Table, token: string, now: int, later: int, id: Id)
    requires Valid(t)
    requires forall j :: j in t.users && t.users[j].resetToken == Some(token) ==> j == id
    requires VerifyEmail(t, token, now).reply.Ok?
    ensures var t1 := VerifyEmail(t, token, now).table;
      VerifyEmail(t1, token, later) == Step(BadRequest(MsgBadToken), t1)
  {
    FindComplete(t, ByToken(Some(token), now));
    var t1 := VerifyEmail(t, token, now).table;
    VerifyEmailPreservesValid(t, token, now);
    FindComplete(t1, ByToken(Some(token), later));
  }

  /** Whatever other rows hold, the row a verification consumed is never consumed again. */
  lemma ConsumedRowStaysConsumed(t: Table, token: string, now: int, later: int, id: Id)
    requires Valid(t)
    requires FirstLiveHolder(t, token, now, id)
    ensures var t1 := VerifyEmail(t, token, now).table;
      && t1.users[id].resetToken.None?
      && VerifyEmail(t1, token, later).table.users[id] == t1.users[id]
  {
    VerifyEmailEffect(t, token, now, id);
  }

  // ---------------------------------------------------------------------------
  // authenticate

  /** 404 before 401 before 403, and a session token for the id only when all three pass. */
  lemma AuthenticateOrder(c: Crypto, t: Table, email: Field, password: Field, now: int)
    requires Valid(t)
    ensures email.None? ==> Authenticate(c, t, email, password, now) == ServerError(MsgInternal)
    ensures email.Some? && (forall id :: id in t.users ==> t.users[id].email != email.value) ==>
      Authenticate(c, t, email, password, now) == NotFound(MsgUserNotFound)
    ensures forall id :: id in t.users && email == Some(t.users[id].email) ==>
      var u := t.users[id];
      var r := Authenticate(c, t, email, password, now);
      && (password.None? ==> r == ServerError(MsgInternal))
      && (password.Some? && !c.compare(password.value, u.passwordHash) ==> r == Unauthorized(MsgBadPassword))
      && (password.Some? && c.compare(password.value, u.passwordHash) && !u.verified ==> r == Forbidden(MsgNotVerified))
      && (password.Some? && c.compare(password.value, u.passwordHash) && u.verified ==>
            r == SessionToken(c.sign(Claims(id, now / 1000, now / 1000 + 86400))))
  {
    if email.Some? {
      FindComplete(t, ByEmail(email.value));
      forall id | id in t.users && email == Some(t.users[id].email) {
        FindByEmailUnique(t, email.value, id);
      }
    }
  }

  /** Register, log in too early, verify, log in: 403 first, then a session for the new id,
      and the verification link is dead afterwards. */
  lemma RegisterVerifyLogin(c: Crypto, t: Table, name: Field, email: Field, password: Field,
                            random: Random32, now: int, later: int)
    requires Valid(t) && HashChecks(c)
    requires Truthy(name) && Truthy(email) && Truthy(password)
    requires forall id :: id in t.users ==> t.users[id].email != email.value
    requires forall id :: id in t.users ==> t.users[id].resetToken != Some(TokenOf(random))
    requires later < now + VerificationTtl
    ensures var t1 := CreateUser(c, t, name, email, password, random, now).table;
      var s2 := VerifyEmail(t1, TokenOf(random), later);
      && Authenticate(c, t1, email, password, later) == Forbidden(MsgNotVerified)
      && s2.reply == Ok(MsgVerified)
      && Authenticate(c, s2.table, email, password, later) == SessionToken(c.sign(SessionClaims(t.nextId, later)))
      && VerifyEmail(s2.table, TokenOf(random), later).reply == BadRequest(MsgBadToken)
  {
    var id := t.nextId;
    CreateUserInsertsOne(c, t, name, email, password, random, now);
    CreateUserPreservesValid(c, t, name, email, password, random, now);
    var t1 := CreateUser(c, t, name, email, password, random, now).table;
    assert c.compare(password.value, c.hash(password.value));
    AuthenticateOrder(c, t1, email, password, later);
    assert FirstLiveHolder(t1, TokenOf(random), later, id);
    VerifyEmailEffect(t1, TokenOf(random), later, id);
    VerifyEmailPreservesValid(t1, TokenOf(random), later);
    var t2 := VerifyEmail(t1, TokenOf(random), later).table;
    AuthenticateOrder(c, t2, email, password, later);
    VerifyTokenSingleUse(t1, TokenOf(random), later, later, id);
  }

  // ---------------------------------------------------------------------------
  // updateUser

  lemma UpdateUserConflictIff(c: Crypto, t: Table, id: Id, name: Field, email: Field, password: Field, now: int)
    requires Valid(t)
    ensures var s := UpdateUser(c, t, id, name, email, password, now);
      && (s.reply.Conflict? <==> Truthy(email) && exists j :: j in t.users && j != id && t.users[j].email == email.value)
      && (s.reply.Conflict? ==> s == Step(Conflict(MsgEmailInUse), t))
  {
    if Truthy(email) {
      FindComplete(t, ByEmail(email.value));
      forall j | j in t.users && t.users[j].email == email.value {
        FindByEmailUnique(t, email.value, j);
      }
    }
  }

  lemma UpdateUserMissingTarget(c: Crypto, t: Table, id: Id, name: Field, email: Field, password: Field, now: int)
    requires id !in t.users
    requires !EmailTakenByOther(t, id, email)
    ensures UpdateUser(c, t, id, name, email, password, now) == Step(ServerError(MsgInternal), t)
  {
  }

  /** Only the target record is written: name when present, email with verified := false when a
      truthy email is supplied, the hash only when a truthy password is supplied. */
  lemma UpdateUserEffect(c: Crypto, t: Table, id: Id, name: Field, email: Field, password: Field, now: int)
    requires Valid(t)
    requires id in t.users
    requires !Truthy(email) || forall j :: j in t.users && j != id ==> t.users[j].email != email.value
    ensures var s := UpdateUser(c, t, id, name, email, password, now);
      var u := t.users[id];
      var u' := s.table.users[id];
      && OnlyChanged(t, s.table, id)
      && s.reply == Updated(MsgUpdated, UpdatedView(id, u'.name, u'.email, now))
      && u'.name == (if name.Some? then name.value else u.name)
      && u'.email == (if Truthy(email) then email.value else u.email)
      && u'.verified == (!Truthy(email) && u.verified)
      && u'.passwordHash == (if Truthy(password) then c.hash(password.value) else u.passwordHash)
      && u'.resetToken == u.resetToken && u'.resetExpires == u.resetExpires
      && u'.createdAt == u.createdAt && u'.updatedAt == now
  {
    UpdateUserConflictIff(c, t, id, name, email, password, now);
  }

  lemma UpdateUserPreservesValid(c: Crypto, t: Table, id: Id, name: Field, email: Field, password: Field, now: int)
    requires Valid(t)
    ensures Valid(UpdateUser(c, t, id, name, email, password, now).table)
  {
    UpdateUserConflictIff(c, t, id, name, email, password, now);
  }

  // ---------------------------------------------------------------------------
  // forgotPassword

  lemma ForgotPasswordUnknownEmail(t: Table, email: string, random: Random32, now: int)
    requires Valid(t)
    requires forall id :: id in t.users ==> t.users[id].email != email
    ensures ForgotPassword(t, Some(email), random, now) == Step(Ok(MsgResetSent), t)
  {
    FindComplete(t, ByEmail(email));
  }

  /** A registered email gets a fresh one-hour token; password hash and verified are kept. */
  lemma ForgotPasswordKnownEmail(t: Table, id: Id, random: Random32, now: int)
    requires Valid(t)
    requires id in t.users
    ensures var s := ForgotPassword(t, Some(t.users[id].email), random, now);
      && s.reply == Ok(MsgResetSent)
      && OnlyChanged(t, s.table, id)
      && s.table.users[id] == t.users[id].(resetToken := Some(TokenOf(random)),
                                           resetExpires := Some(now + 3600000), updatedAt := now)
  {
    FindByEmailUnique(t, t.users[id].email, id);
  }

  /** The reply reveals nothing about which emails are registered. */
  lemma ForgotPasswordReplyUniform(t1: Table, t2: Table, e1: string, e2: string,
                                   r1: Random32, r2: Random32, now1: int, now2: int)
    ensures ForgotPassword(t1, Some(e1), r1, now1).reply == ForgotPassword(t2, Some(e2), r2, now2).reply
  {
  }

  /** Verification and reset share one token slot: asking for a reset kills a pending
      verification link. */
  lemma ForgotPasswordSupersedesPendingToken(t: Table, id: Id, pending: string, random: Random32,
                                             now: int, later: int)
    requires Valid(t)
    requires id in t.users && t.users[id].resetToken == Some(pending)
    requires forall j :: j in t.users && t.users[j].resetToken == Some(pending) ==> j == id
    requires TokenOf(random) != pending
    ensures var t1 := ForgotPassword(t, Some(t.users[id].email), random, now).table;
      VerifyEmail(t1, pending, later) == Step(BadRequest(MsgBadToken), t1)
  {
    ForgotPasswordKnownEmail(t, id, random, now);
    ForgotPasswordPreservesValid(t, Some(t.users[id].email), random, now);
    var t1 := ForgotPassword(t, Some(t.users[id].email), random, now).table;
    FindComplete(t1, ByToken(Some(pending), later));
  }

  lemma ForgotPasswordPreservesValid(t: Table, email: Field, random: Random32, now: int)
    requires Valid(t)
    ensures Valid(ForgotPassword(t, email, random, now).table)
  {
  }

  // ---------------------------------------------------------------------------
  // resetPassword

  lemma ResetPasswordSucceedsIff(c: Crypto, t: Table, token: Field, newPassword: Field, now: int)
    requires Valid(t)
    ensures var s := ResetPassword(c, t, token, newPassword, now);
      && (s.reply.Ok? <==>
            (token.Some? && newPassword.Some? &&
             exists id :: id in t.users && t.users[id].resetToken == token && Live(t.users[id], now)))
      && (!s.reply.Ok? ==> s.table == t)
      && (s.reply.BadRequest? <==>
            (token.None? ||
             forall id :: id in t.users ==> !(t.users[id].resetToken == token && Live(t.users[id], now))))
  {
    if token.Some? {
      FindComplete(t, ByToken(token, now));
    }
  }

  /** resetPassword accepts exactly the tokens verifyEmail accepts and consumes the same record. */
  lemma ResetPasswordSameLookupAsVerify(c: Crypto, t: Table, token: string, newPassword: string, now: int)
    ensures var s := ResetPassword(c, t, Some(token), Some(newPassword), now);
      var v := VerifyEmail(t, token, now);
      && (s.reply.Ok? <==> v.reply.Ok?)
      && s.table.users.Keys == v.table.users.Keys
      && forall id :: id in t.users ==> (s.table.users[id] == t.users[id] <==> v.table.users[id] == t.users[id])
  {
  }

  /** Success replaces the hash and clears the token pair; verified and the rest are kept. */
  lemma ResetPasswordEffect(c: Crypto, t: Table, token: string, newPassword: string, now: int, id: Id)
    requires Valid(t)
    requires FirstLiveHolder(t, token, now, id)
    ensures var s := ResetPassword(c, t, Some(token), Some(newPassword), now);
      && s.reply == Ok(MsgPasswordReset)
      && OnlyChanged(t, s.table, id)
      && s.table.users[id] == t.users[id].(passwordHash := c.hash(newPassword), resetToken := None,
                                           resetExpires := None, updatedAt := now)
  {
    FirstLiveHolderIsFound(t, token, now, id);
  }

  lemma ResetPasswordPreservesValid(c: Crypto, t: Table, token: Field, newPassword: Field, now: int)
    requires Valid(t)
    ensures Valid(ResetPassword(c, t, token, newPassword, now).table)
  {
  }

  // ---------------------------------------------------------------------------
  // getAllUsers

  function KeysIn(users: map<Id, User>, lo: Id, hi: Id): set<Id> {
    set id | id in users && lo <= id < hi
  }

  lemma {:induction false} ListUsersLength(users: map<Id, User>, lo: Id, hi: Id)
    decreases hi - lo
    ensures |ListUsers(users, lo, hi)| == |KeysIn(users, lo, hi)|
  {
    if lo >= hi {
      assert KeysIn(users, lo, hi) == {};
    } else {
      ListUsersLength(users, lo + 1, hi);
      if lo in users {
        assert KeysIn(users, lo, hi) == {lo} + KeysIn(users, lo + 1, hi);
      } else {
        assert KeysIn(users, lo, hi) == KeysIn(users, lo + 1, hi);
      }
    }
  }

  lemma {:induction false} ListUsersComplete(users: map<Id, User>, lo: Id, hi: Id, id: Id)
    requires id in users && lo <= id < hi
    decreases hi - lo
    ensures Public(id, users[id]) in ListUsers(users, lo, hi)
  {
    if lo < id {
      ListUsersComplete(users, lo + 1, hi, id);
    }
  }

  /** The listing holds one row per record, in id order, and count is their number. */
  lemma GetAllUsersListsEveryRecord(t: Table)
    requires Valid(t)
    ensures var page := GetAllUsers(t).page;
      && page.count == |t.users| == |page.users|
      && (forall id :: id in t.users ==> Public(id, t.users[id]) in page.users)
      && (forall k :: 0 <= k < |page.users| ==> page.users[k].id in t.users && page.users[k] == Public(page.users[k].id, t.users[page.users[k].id]))
      && (forall k, l :: 0 <= k < l < |page.users| ==> page.users[k].id < page.users[l].id)
  {
    ListUsersLength(t.users, 1, t.nextId);
    assert KeysIn(t.users, 1, t.nextId) == t.users.Keys;
    forall id | id in t.users {
      ListUsersComplete(t.users, 1, t.nextId, id);
    }
  }

  lemma {:induction false} ListUsersIgnoresSecrets(a: map<Id, User>, b: map<Id, User>, lo: Id, hi: Id)
    requires SamePublicView(a, b)
    decreases hi - lo
    ensures ListUsers(a, lo, hi) == ListUsers(b, lo, hi)
  {
    if lo < hi {
      ListUsersIgnoresSecrets(a, b, lo + 1, hi);
    }
  }

  /** Hashes and tokens cannot influence the listing: tables that agree on the public fields
      list the same rows. */
  lemma GetAllUsersIgnoresSecrets(t1: Table, t2: Table)
    requires SamePublicView(t1.users, t2.users) && t1.nextId == t2.nextId
    ensures GetAllUsers(t1) == GetAllUsers(t2)
  {
    ListUsersIgnoresSecrets(t1.users, t2.users, 1, t1.nextId);
  }

  // ---------------------------------------------------------------------------
  // Any sequence of requests

  /** One request to one of the handlers, with its own clock reading and random bytes. */
  datatype Call =
    | Register(name: Field, email: Field, password: Field, random: Random32, at: int)
    | Verify(token: string, at: int)
    | Login(email: Field, password: Field, at: int)
    | Update(id: Id, name: Field, email: Field, password: Field, at: int)
    | Forgot(email: Field, random: Random32, at: int)
    | Reset(resetToken: Field, newPassword: Field, at: int)
    | ListAll

  function Handle(c: Crypto, t: Table, call: Call): Step {
    match call
    case Register(n, e, p, r, at) => CreateUser(c, t, n, e, p, r, at)
    case Verify(tok, at) => VerifyEmail(t, tok, at)
    case Login(e, p, at) => Step(Authenticate(c, t, e, p, at), t)
    case Update(id, n, e, p, at) => UpdateUser(c, t, id, n, e, p, at)
    case Forgot(e, r, at) => ForgotPassword(t, e, r, at)
    case Reset(tok, p, at) => ResetPassword(c, t, tok, p, at)
    case ListAll => Step(GetAllUsers(t), t)
  }

  function Run(c: Crypto, t: Table, calls: seq<Call>): Table
    decreases |calls|
  {
    if calls == [] then t else Run(c, Handle(c, t, calls[0]).table, calls[1..])
  }

  lemma HandlePreservesValid(c: Crypto, t: Table, call: Call)
    requires Valid(t)
    ensures Valid(Handle(c, t, call).table)
  {
    match call
    case Register(n, e, p, r, at) => CreateUserPreservesValid(c, t, n, e, p, r, at);
    case Verify(tok, at) => VerifyEmailPreservesValid(t, tok, at);
    case Login(_, _, _) =>
    case Update(id, n, e, p, at) => UpdateUserPreservesValid(c, t, id, n, e, p, at);
    case Forgot(e, r, at) => ForgotPasswordPreservesValid(t, e, r, at);
    case Reset(tok, p, at) => ResetPasswordPreservesValid(c, t, tok, p, at);
    case ListAll =>
  }

  /** Unique emails, paired token fields and well-formed tokens hold after any run. */
  lemma {:induction false} RunPreservesValid(c: Crypto, t: Table, calls: seq<Call>)
    requires Valid(t)
    decreases |calls|
    ensures Valid(Run(c, t, calls))
  {
    if calls != [] {
      HandlePreservesValid(c, t, calls[0]);
      RunPreservesValid(c, Handle(c, t, calls[0]).table, calls[1..]);
    }
  }

  /** No handler deletes a record or changes when it was created. */
  lemma {:induction false} RunKeepsRecords(c: Crypto, t: Table, calls: seq<Call>, id: Id)
    requires Valid(t)
    requires id in t.users
    decreases |calls|
    ensures id in Run(c, t, calls).users
    ensures Run(c, t, calls).users[id].createdAt == t.users[id].createdAt
  {
    if calls != [] {
      HandleKeepsRecord(c, t, calls[0], id);
      HandlePreservesValid(c, t, calls[0]);
      RunKeepsRecords(c, Handle(c, t, calls[0]).table, calls[1..], id);
    }
  }

  lemma HandleKeepsRecord(c: Crypto, t: Table, call: Call, id: Id)
    requires IdsConsistent(t)
    requires id in t.users
    ensures id in Handle(c, t, call).table.users
    ensures Handle(c, t, call).table.users[id].createdAt == t.users[id].createdAt
  {
  }

  /** verified goes from false to true only through verifyEmail, and a changed email always
      leaves the record unverified. */
  lemma VerificationTransitions(c: Crypto, t: Table, call: Call, id: Id)
    requires Valid(t)
    requires id in t.users && id in Handle(c, t, call).table.users
    ensures var u' := Handle(c, t, call).table.users[id];
      && (!t.users[id].verified && u'.verified ==> call.Verify?)
      && (u'.email != t.users[id].email ==> !u'.verified)
  {
  }
}
