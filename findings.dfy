/** The two handlers whose code, as written, does not do what it evidently means to, modelled
    as written next to the lemmas that show the difference. The rest of the model uses the
    corrected transitions in module Transitions. */
module Findings {
  import opened Tokens
  import opened Accounts
  import opened Transitions
  import opened Properties

  // ---------------------------------------------------------------------------
  // resetPassword without a token

  /** resetPassword as written: the body's token goes straight into the where-clause, so an
      absent token drops the reset_token filter and only the expiry filter remains. */
  function ResetPasswordAsWritten(c: Crypto, t: Table, token: Field, newPassword: Field, now: int): Step {
    ResetWith(c, t, ByToken(token, now), newPassword, now)
  }

  /** The lowest id whose token, whatever it is, is still live. */
  ghost predicate FirstLiveRecord(t: Table, now: int, id: Id) {
    && id in t.users && Live(t.users[id], now)
    && forall j :: j in t.users && j < id ==> !Live(t.users[j], now)
  }

  /** A request carrying only newPassword resets the password of the first account with a
      pending token, without knowing that token; the corrected handler refuses it. */
  lemma MissingTokenResetsPendingAccount(c: Crypto, t: Table, newPassword: string, now: int, id: Id)
    requires Valid(t)
    requires FirstLiveRecord(t, now, id)
    ensures var s := ResetPasswordAsWritten(c, t, None, Some(newPassword), now);
      && s.reply == Ok(MsgPasswordReset)
      && s.table.users[id].passwordHash == c.hash(newPassword)
    ensures ResetPassword(c, t, None, Some(newPassword), now) == Step(BadRequest(MsgBadToken), t)
  {
    FindComplete(t, ByToken(None, now));
  }

  /** Even as written, the reset keeps the table invariant: the flaw is whose row it writes,
      not what it writes. */
  lemma ResetPasswordAsWrittenPreservesValid(c: Crypto, t: Table, token: Field, newPassword: Field, now: int)
    requires Valid(t)
    ensures Valid(ResetPasswordAsWritten(c, t, token, newPassword, now).table)
  {
  }

  /** Every freshly registered account is exposed: right after createUser, a token-less reset
      takes it over within the 24 hours its verification token lives. */
  lemma MissingTokenTakesOverNewAccount(c: Crypto, name: string, email: string, password: string,
                                        random: Random32, now: int, later: int, attacker: string)
    requires name != "" && email != "" && password != ""
    requires now <= later < now + VerificationTtl
    ensures var t1 := CreateUser(c, Table(map[], 1), Some(name), Some(email), Some(password), random, now).table;
      var s := ResetPasswordAsWritten(c, t1, None, Some(attacker), later);
      && s.reply == Ok(MsgPasswordReset)
      && s.table.users[1].passwordHash == c.hash(attacker)
  {
    var t0 := Table(map[], 1);
    CreateUserInsertsOne(c, t0, Some(name), Some(email), Some(password), random, now);
    CreateUserPreservesValid(c, t0, Some(name), Some(email), Some(password), random, now);
    var t1 := CreateUser(c, t0, Some(name), Some(email), Some(password), random, now).table;
    MissingTokenResetsPendingAccount(c, t1, attacker, later, 1);
  }

  // ---------------------------------------------------------------------------
  // forgotPassword answers differ

  const MsgUnknownEmail: string := "Email enviado"

  /** forgotPassword as written: an unknown email is answered with a different message. */
  function ForgotPasswordAsWritten(t: Table, email: Field, random: Random32, now: int): Step {
    if email.None? then Step(ServerError(MsgInternal), t)
    else
      match Find(t, ByEmail(email.value))
      case None => Step(Ok(MsgUnknownEmail), t)
      case Some(id) =>
        var u := t.users[id];
        var u' := u.(resetToken := Some(TokenOf(random)), resetExpires := Some(now + ResetTtl),
                     updatedAt := now);
        Step(Ok(MsgResetSent), t.(users := t.users[id := u']))
  }

  /** As written, an unknown email is answered "Email enviado" and the table is left alone. */
  lemma ForgotPasswordAsWrittenUnknownEmail(t: Table, email: string, random: Random32, now: int)
    requires Valid(t)
    requires forall id :: id in t.users ==> t.users[id].email != email
    ensures ForgotPasswordAsWritten(t, Some(email), random, now) == Step(Ok(MsgUnknownEmail), t)
  {
    FindComplete(t, ByEmail(email));
  }

  /** As written, the reply tells a registered email from an unregistered one. */
  lemma ForgotPasswordAsWrittenRevealsAccounts(t: Table, id: Id, unknown: string, random: Random32, now: int)
    requires Valid(t)
    requires id in t.users
    requires forall j :: j in t.users ==> t.users[j].email != unknown
    ensures ForgotPasswordAsWritten(t, Some(t.users[id].email), random, now).reply
         != ForgotPasswordAsWritten(t, Some(unknown), random, now).reply
  {
    FindByEmailUnique(t, t.users[id].email, id);
    FindComplete(t, ByEmail(unknown));
  }

  /** The correction changes the reply only: both versions write the same table. */
  lemma ForgotPasswordCorrectionKeepsEffect(t: Table, email: Field, random: Random32, now: int)
    ensures ForgotPasswordAsWritten(t, email, random, now).table == ForgotPassword(t, email, random, now).table
  {
  }

  /** As written, forgot-password keeps the table invariant too. */
  lemma ForgotPasswordAsWrittenPreservesValid(t: Table, email: Field, random: Random32, now: int)
    requires Valid(t)
    ensures Valid(ForgotPasswordAsWritten(t, email, random, now).table)
  {
    ForgotPasswordCorrectionKeepsEffect(t, email, random, now);
    ForgotPasswordPreservesValid(t, email, random, now);
  }
}
