/** The user table the controller reads and writes, its invariants, the two kinds of lookup
    the handlers issue, and the public projections of a record. */
module Accounts {
  import opened Tokens

  datatype Option<+T> = None | Some(value: T)

  /** A request-body field: None when the field is absent (undefined). */
  type Field = Option<string>

  /** JavaScript truthiness of a string field: present and not empty. */
  predicate Truthy(f: Field) {
    f.Some? && f.value != ""
  }

  type Id = int

  /** A bcrypt hash string. */
  type Digest = string

  /** A row of the user table; its id is the key it is stored under. Timestamps are
      milliseconds since the epoch (Date.now()). */
  datatype User = User(
    name: string,
    email: string,
    passwordHash: Digest,
    verified: bool,
    resetToken: Option<string>,
    resetExpires: Option<int>,
    createdAt: int,
    updatedAt: int)

  /** The user table: records by id, and the next id the autoincrement column hands out. */
  datatype Table = Table(users: map<Id, User>, nextId: Id)

  /** The claims jwt.sign puts in a session token: the payload { id } and issued-at / expiry
      in seconds. */
  datatype Claims = Claims(id: Id, iat: int, exp: int)

  /** The foreign libraries: bcrypt.hash / bcrypt.compare and jwt.sign with the process secret. */
  datatype Crypto = Crypto(
    hash: string -> Digest,
    compare: (string, Digest) -> bool,
    sign: Claims -> string)

  /** The one fact about bcrypt the model relies on: a password matches its own hash. */
  ghost predicate HashChecks(c: Crypto) {
    forall p :: c.compare(p, c.hash(p))
  }

  // ---------------------------------------------------------------------------
  // Invariants of the table

  /** Ids lie in [1, nextId): the autoincrement counter is ahead of every row. */
  ghost predicate IdsConsistent(t: Table) {
    1 <= t.nextId && forall id :: id in t.users ==> 1 <= id < t.nextId
  }

  /** The unique constraint on the email column. */
  ghost predicate EmailsUnique(users: map<Id, User>) {
    forall i, j :: i in users && j in users && users[i].email == users[j].email ==> i == j
  }

  /** reset_token is set exactly when reset_expires is set. */
  ghost predicate TokenFieldsPaired(users: map<Id, User>) {
    forall i :: i in users ==> (users[i].resetToken.Some? <==> users[i].resetExpires.Some?)
  }

  /** Every stored token is one the controller minted. */
  ghost predicate TokensWellFormed(users: map<Id, User>) {
    forall i :: i in users && users[i].resetToken.Some? ==> IsToken(users[i].resetToken.value)
  }

  ghost predicate Valid(t: Table) {
    && IdsConsistent(t)
    && EmailsUnique(t.users)
    && TokenFieldsPaired(t.users)
    && TokensWellFormed(t.users)
  }

  // ---------------------------------------------------------------------------
  // Lookups

  /** The where-clauses the handlers pass to findUnique / findFirst. In ByToken, a token of
      None is a field the request left undefined, which Prisma drops from the filter. */
  datatype Where =
    | ByEmail(email: string)
    | ByToken(token: Field, now: int)

  /** A token is live while its expiry lies strictly after now (reset_expires: { gt: now }). */
  predicate Live(u: User, now: int) {
    u.resetExpires.Some? && u.resetExpires.value > now
  }

  predicate Matches(u: User, w: Where) {
    match w
    case ByEmail(e) => u.email == e
    case ByToken(tok, now) => (tok.None? || u.resetToken == tok) && Live(u, now)
  }

  /** The lowest id in [lo, hi) whose record matches; the database's own order is unspecified. */
  function FindFirst(users: map<Id, User>, w: Where, lo: Id, hi: Id): (r: Option<Id>)
    decreases hi - lo
    ensures r.Some? ==> lo <= r.value < hi && r.value in users && Matches(users[r.value], w)
    ensures r.Some? ==> forall j :: lo <= j < r.value && j in users ==> !Matches(users[j], w)
    ensures r.None? ==> forall j :: lo <= j < hi && j in users ==> !Matches(users[j], w)
  {
    if lo >= hi then None
    else if lo in users && Matches(users[lo], w) then Some(lo)
    else FindFirst(users, w, lo + 1, hi)
  }

  function Find(t: Table, w: Where): Option<Id> {
    FindFirst(t.users, w, 1, t.nextId)
  }

  /** On a valid table the search misses a record only if no record matches. */
  lemma FindComplete(t: Table, w: Where)
    requires IdsConsistent(t)
    ensures Find(t, w).Some? ==> Find(t, w).value in t.users && Matches(t.users[Find(t, w).value], w)
    ensures Find(t, w).None? <==> forall id :: id in t.users ==> !Matches(t.users[id], w)
  {
  }

  /** Under the unique constraint, the lookup by email finds the one record with that email. */
  lemma FindByEmailUnique(t: Table, email: string, id: Id)
    requires Valid(t)
    requires id in t.users && t.users[id].email == email
    ensures Find(t, ByEmail(email)) == Some(id)
  {
    FindComplete(t, ByEmail(email));
  }

  // ---------------------------------------------------------------------------
  // Projections returned to clients

  /** select { id, name, email, created_at } of createUser. */
  datatype CreatedView = CreatedView(id: Id, name: string, email: string, createdAt: int)

  /** select { id, name, email, updated_at } of updateUser. */
  datatype UpdatedView = UpdatedView(id: Id, name: string, email: string, updatedAt: int)

  /** select { id, name, email, verified, created_at, updated_at } of getAllUsers. */
  datatype PublicUser = PublicUser(id: Id, name: string, email: string, verified: bool, createdAt: int, updatedAt: int)

  function Public(id: Id, u: User): PublicUser {
    PublicUser(id, u.name, u.email, u.verified, u.createdAt, u.updatedAt)
  }

  /** Two tables that agree on every public field, whatever their hashes and tokens. */
  ghost predicate SamePublicView(a: map<Id, User>, b: map<Id, User>) {
    && a.Keys == b.Keys
    && forall id :: id in a ==> Public(id, a[id]) == Public(id, b[id])
  }
}
