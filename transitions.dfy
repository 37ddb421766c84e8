/** The seven handlers of UserController as pure transitions: each takes the table before the
    request and returns the HTTP reply together with the table after it. The clock (now) and the
    random bytes of a fresh token are parameters. */
module Transitions {
  import opened Tokens
  import opened Accounts

  /** Lifetime of a verification token: 24 h in milliseconds. */
  const VerificationTtl: int := 86400000
  /** Lifetime of a password-reset token: 1 h in milliseconds. */
  const ResetTtl: int := 3600000
  /** Lifetime of a session token ('1d'), in seconds as JWT counts it. */
  const SessionSeconds: int := 86400

  const MsgMissingFields: string := "Todos os campos são obrigatórios"
  const MsgEmailRegistered: string := "Email já cadastrado"
  const MsgCreated: string := "Usuário criado com sucesso. Verifique seu email."
  const MsgBadToken: string := "Token inválido ou expirado"
  const MsgVerified: string := "Email verificado com sucesso!"
  const MsgUserNotFound: string := "Usuário não encontrado"
  const MsgBadPassword: string := "Senha inválida"
  const MsgNotVerified: string := "Email não verificado"
  const MsgEmailInUse: string := "Email já em uso"
  const MsgUpdated: string := "Dados atualizados com sucesso"
  const MsgResetSent: string := "Email de recuperação enviado"
  const MsgPasswordReset: string := "Senha atualizada com sucesso"
  const MsgInternal: string := "Erro interno do servidor"

  /** One variant per response shape the handlers produce (status and body). */
  datatype Reply =
    | Created(message: string, user: CreatedView)   // 201
    | Ok(message: string)                           // 200 { message }
    | SessionToken(token: string)                   // 200 { token }
    | Updated(message: string, changed: UpdatedView) // 200 { message, user }
    | BadRequest(error: string)                     // 400
    | Unauthorized(error: string)                   // 401
    | Forbidden(error: string)                      // 403
    | NotFound(error: string)                       // 404
    | Conflict(error: string)                       // 409
    | ServerError(error: string)                    // 500: an exception caught by the handler
    | Listed(page: UsersPage)                       // 200 { count, users }
  {
    function Status(): int {
      match this
      case Created(_, _) => 201
      case Ok(_) => 200
      case SessionToken(_) => 200
      case Updated(_, _) => 200
      case BadRequest(_) => 400
      case Unauthorized(_) => 401
      case Forbidden(_) => 403
      case NotFound(_) => 404
      case Conflict(_) => 409
      case ServerError(_) => 500
      case Listed(_) => 200
    }
  }

  datatype Step = Step(reply: Reply, table: Table)

  /** POST /users: validate, reject a registered email, then insert an unverified record holding
      a 24-hour verification token. */
  function CreateUser(c: Crypto, t: Table, name: Field, email: Field, password: Field,
                      random: Random32, now: int): Step
  {
    if !Truthy(name) || !Truthy(email) || !Truthy(password) then
      Step(BadRequest(MsgMissingFields), t)
    else if Find(t, ByEmail(email.value)).Some? then
      Step(Conflict(MsgEmailRegistered), t)
    else
      var id := t.nextId;
      var u := User(name.value, email.value, c.hash(password.value), false,
                    Some(TokenOf(random)), Some(now + VerificationTtl), now, now);
      Step(Created(MsgCreated, CreatedView(id, u.name, u.email, u.createdAt)),
           Table(t.users[id := u], id + 1))
  }

  /** GET /verify/:token: consume a live token and mark its record verified. */
  function VerifyEmail(t: Table, token: string, now: int): Step {
    match Find(t, ByToken(Some(token), now))
    case None => Step(BadRequest(MsgBadToken), t)
    case Some(id) =>
      var u := t.users[id];
      var u' := u.(verified := true, resetToken := None, resetExpires := None, updatedAt := now);
      Step(Ok(MsgVerified), t.(users := t.users[id := u']))
  }

  /** The session claims for a login at time now: issued-at is the floor of now in seconds. */
  function SessionClaims(id: Id, now: int): Claims {
    Claims(id, now / 1000, now / 1000 + SessionSeconds)
  }

  /** POST /auth: reads the table, never writes it. */
  function Authenticate(c: Crypto, t: Table, email: Field, password: Field, now: int): Reply {
    if email.None? then ServerError(MsgInternal)   // findUnique rejects an undefined email
    else
      match Find(t, ByEmail(email.value))
      case None => NotFound(MsgUserNotFound)
      case Some(id) =>
        var u := t.users[id];
        if password.None? then ServerError(MsgInternal)   // bcrypt.compare rejects undefined
        else if !c.compare(password.value, u.passwordHash) then Unauthorized(MsgBadPassword)
        else if !u.verified then Forbidden(MsgNotVerified)
        else SessionToken(c.sign(SessionClaims(id, now)))
  }

  /** True when a supplied email already belongs to a record other than id. */
  predicate EmailTakenByOther(t: Table, id: Id, email: Field) {
    Truthy(email) &&
    match Find(t, ByEmail(email.value))
    case None => false
    case Some(owner) => owner != id
  }

  /** PUT /users/:id: name is written when present, email (if truthy) after the conflict check
      together with verified := false, the password hash when a password is truthy. */
  function UpdateUser(c: Crypto, t: Table, id: Id, name: Field, email: Field, password: Field,
                      now: int): Step
  {
    if EmailTakenByOther(t, id, email) then Step(Conflict(MsgEmailInUse), t)
    else if id !in t.users then Step(ServerError(MsgInternal), t)   // update of a missing row throws
    else
      var u := t.users[id];
      var u' := u.(name := if name.Some? then name.value else u.name,
                   email := if Truthy(email) then email.value else u.email,
                   verified := if Truthy(email) then false else u.verified,
                   passwordHash := if Truthy(password) then c.hash(password.value) else u.passwordHash,
                   updatedAt := now);
      Step(Updated(MsgUpdated, UpdatedView(id, u'.name, u'.email, u'.updatedAt)),
           t.(users := t.users[id := u']))
  }

  /** POST /forgot-password: the same reply whether or not the email is registered; a
      registered record gets a fresh one-hour token over whatever token it held. */
  function ForgotPassword(t: Table, email: Field, random: Random32, now: int): Step {
    if email.None? then Step(ServerError(MsgInternal), t)   // findUnique rejects an undefined email
    else
      match Find(t, ByEmail(email.value))
      case None => Step(Ok(MsgResetSent), t)
      case Some(id) =>
        var u := t.users[id];
        var u' := u.(resetToken := Some(TokenOf(random)), resetExpires := Some(now + ResetTtl),
                     updatedAt := now);
        Step(Ok(MsgResetSent), t.(users := t.users[id := u']))
  }

  /** The body of POST /reset-password once the where-clause is built. */
  function ResetWith(c: Crypto, t: Table, w: Where, newPassword: Field, now: int): Step {
    match Find(t, w)
    case None => Step(BadRequest(MsgBadToken), t)
    case Some(id) =>
      if newPassword.None? then Step(ServerError(MsgInternal), t)   // bcrypt.hash rejects undefined
      else
        var u := t.users[id];
        var u' := u.(passwordHash := c.hash(newPassword.value), resetToken := None,
                     resetExpires := None, updatedAt := now);
        Step(Ok(MsgPasswordReset), t.(users := t.users[id := u']))
  }

  /** POST /reset-password: a request without a token is refused before the lookup. */
  function ResetPassword(c: Crypto, t: Table, token: Field, newPassword: Field, now: int): Step {
    if token.None? then Step(BadRequest(MsgBadToken), t)
    else ResetWith(c, t, ByToken(token, now), newPassword, now)
  }

  /** The rows of getAllUsers for ids in [lo, hi), in increasing id order. */
  function ListUsers(users: map<Id, User>, lo: Id, hi: Id): (r: seq<PublicUser>)
    decreases hi - lo
    ensures forall k :: 0 <= k < |r| ==> lo <= r[k].id < hi && r[k].id in users && r[k] == Public(r[k].id, users[r[k].id])
    ensures forall k, l :: 0 <= k < l < |r| ==> r[k].id < r[l].id
  {
    if lo >= hi then []
    else
      var rest := ListUsers(users, lo + 1, hi);
      if lo in users then
        var r := [Public(lo, users[lo])] + rest;
        assert forall k :: 1 <= k < |r| ==> r[k] == rest[k - 1];
        r
      else rest
  }

  datatype UsersPage = UsersPage(count: nat, users: seq<PublicUser>)

  /** GET /users: every record's public fields and their number. */
  function GetAllUsers(t: Table): Reply {
    var rows := ListUsers(t.users, 1, t.nextId);
    Listed(UsersPage(|rows|, rows))
  }
}
