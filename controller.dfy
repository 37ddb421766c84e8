/** UserController as an object over the user table. Each handler reads the table, decides, and
    writes at most one row, step by step as the TypeScript does; its postcondition ties the reply
    and the new table to the transition of the same name in module Transitions. */
module Controller {
  import opened Tokens
  import opened Accounts
  import T = Transitions
  import P = Properties

  class UserController {
    /** The user table, by id. */
    var users: map<Id, User>
    /** The next id the autoincrement column hands out. */
    var nextId: Id
    /** bcrypt and jwt, fixed for the lifetime of the process. */
    const crypto: Crypto

    function Snapshot(): Table
      reads this
    {
      Table(users, nextId)
    }

    ghost predicate Valid()
      reads this
    {
      Accounts.Valid(Snapshot())
    }

    constructor (crypto: Crypto)
      ensures Valid()
      ensures users == map[] && nextId == 1
      ensures this.crypto == crypto
    {
      users := map[];
      nextId := 1;
      this.crypto := crypto;
    }

    method CreateUser(name: Field, email: Field, password: Field, random: Random32, now: int)
      returns (r: T.Reply)
      requires Valid()
      modifies this
      ensures Valid()
      ensures var s := T.CreateUser(crypto, old(Snapshot()), name, email, password, random, now);
        r == s.reply && Snapshot() == s.table
    {
      ghost var before := Snapshot();
      P.CreateUserPreservesValid(crypto, before, name, email, password, random, now);
      if !Truthy(name) || !Truthy(email) || !Truthy(password) {
        return T.BadRequest(T.MsgMissingFields);
      }
      var existing := Find(Snapshot(), ByEmail(email.value));
      if existing.Some? {
        return T.Conflict(T.MsgEmailRegistered);
      }
      var hashed := crypto.hash(password.value);
      var token := TokenOf(random);
      var id := nextId;
      var user := User(name.value, email.value, hashed, false, Some(token), Some(now + T.VerificationTtl), now, now);
      users := users[id := user];
      nextId := nextId + 1;
      r := T.Created(T.MsgCreated, CreatedView(id, user.name, user.email, user.createdAt));
    }

    method VerifyEmail(token: string, now: int) returns (r: T.Reply)
      requires Valid()
      modifies this
      ensures Valid()
      ensures var s := T.VerifyEmail(old(Snapshot()), token, now);
        r == s.reply && Snapshot() == s.table
    {
      ghost var before := Snapshot();
      P.VerifyEmailPreservesValid(before, token, now);
      var found := Find(Snapshot(), ByToken(Some(token), now));
      if found.None? {
        return T.BadRequest(T.MsgBadToken);
      }
      var id := found.value;
      users := users[id := users[id].(verified := true, resetToken := None, resetExpires := None, updatedAt := now)];
      r := T.Ok(T.MsgVerified);
    }

    /** Reads the table only: no modifies clause. */
    method Authenticate(email: Field, password: Field, now: int) returns (r: T.Reply)
      requires Valid()
      ensures r == T.Authenticate(crypto, Snapshot(), email, password, now)
    {
      if email.None? {
        return T.ServerError(T.MsgInternal);
      }
      var found := Find(Snapshot(), ByEmail(email.value));
      if found.None? {
        return T.NotFound(T.MsgUserNotFound);
      }
      var id := found.value;
      var user := users[id];
      if password.None? {
        return T.ServerError(T.MsgInternal);
      }
      var isValid := crypto.compare(password.value, user.passwordHash);
      if !isValid {
        return T.Unauthorized(T.MsgBadPassword);
      }
      if !user.verified {
        return T.Forbidden(T.MsgNotVerified);
      }
      r := T.SessionToken(crypto.sign(T.SessionClaims(id, now)));
    }

    method UpdateUser(id: Id, name: Field, email: Field, password: Field, now: int) returns (r: T.Reply)
      requires Valid()
      modifies this
      ensures Valid()
      ensures var s := T.UpdateUser(crypto, old(Snapshot()), id, name, email, password, now);
        r == s.reply && Snapshot() == s.table
    {
      ghost var before := Snapshot();
      P.UpdateUserPreservesValid(crypto, before, id, name, email, password, now);
      var updateData := Patch(name, None, None, None);   // { name }
      if Truthy(email) {
        var existing := Find(Snapshot(), ByEmail(email.value));
        if existing.Some? && existing.value != id {
          return T.Conflict(T.MsgEmailInUse);
        }
        updateData := updateData.(email := email, verified := Some(false));
      }
      if Truthy(password) {
        updateData := updateData.(passwordHash := Some(crypto.hash(password.value)));
      }
      if id !in users {
        return T.ServerError(T.MsgInternal);
      }
      var user := ApplyPatch(users[id], updateData, now);
      users := users[id := user];
      r := T.Updated(T.MsgUpdated, UpdatedView(id, user.name, user.email, user.updatedAt));
    }

    method ForgotPassword(email: Field, random: Random32, now: int) returns (r: T.Reply)
      requires Valid()
      modifies this
      ensures Valid()
      ensures var s := T.ForgotPassword(old(Snapshot()), email, random, now);
        r == s.reply && Snapshot() == s.table
    {
      ghost var before := Snapshot();
      P.ForgotPasswordPreservesValid(before, email, random, now);
      if email.None? {
        return T.ServerError(T.MsgInternal);
      }
      var found := Find(Snapshot(), ByEmail(email.value));
      if found.None? {
        return T.Ok(T.MsgResetSent);
      }
      var id := found.value;
      var resetToken := TokenOf(random);
      users := users[id := users[id].(resetToken := Some(resetToken), resetExpires := Some(now + T.ResetTtl), updatedAt := now)];
      r := T.Ok(T.MsgResetSent);
    }

    method ResetPassword(token: Field, newPassword: Field, now: int) returns (r: T.Reply)
      requires Valid()
      modifies this
      ensures Valid()
      ensures var s := T.ResetPassword(crypto, old(Snapshot()), token, newPassword, now);
        r == s.reply && Snapshot() == s.table
    {
      ghost var before := Snapshot();
      P.ResetPasswordPreservesValid(crypto, before, token, newPassword, now);
      if token.None? {
        return T.BadRequest(T.MsgBadToken);
      }
      var found := Find(Snapshot(), ByToken(token, now));
      if found.None? {
        return T.BadRequest(T.MsgBadToken);
      }
      var id := found.value;
      if newPassword.None? {
        return T.ServerError(T.MsgInternal);
      }
      var hashedPassword := crypto.hash(newPassword.value);
      users := users[id := users[id].(passwordHash := hashedPassword, resetToken := None, resetExpires := None, updatedAt := now)];
      r := T.Ok(T.MsgPasswordReset);
    }
  }

  /** The partial update updateUser hands to prisma.user.update. */
  datatype Patch = Patch(name: Field, email: Field, verified: Option<bool>, passwordHash: Option<Digest>)

  /** Prisma's update: fields left undefined keep their value; updated_at is refreshed. */
  function ApplyPatch(u: User, p: Patch, now: int): User {
    var name := if p.name.Some? then p.name.value else u.name;
    var email := if p.email.Some? then p.email.value else u.email;
    var verified := if p.verified.Some? then p.verified.value else u.verified;
    var hash := if p.passwordHash.Some? then p.passwordHash.value else u.passwordHash;
    User(name, email, hash, verified, u.resetToken, u.resetExpires, u.createdAt, now)
  }
}
