/**
 * The user document: its shape, what the schema's setters and required
 * validators demand of it, the pre-save password hook, the password check and
 * the two token generators. Usernames and emails are the schema's unique
 * fields; the store is a map from document id to record.
 */
module UserModel {
  import opened Wrappers
  import opened Text
  import Bcrypt
  import Jwt

  /** A document's `_id`. */
  type Id = nat

  /**
   * The stored `password` field: the plaintext as assigned, a settled bcrypt
   * digest, or an unsettled Promise of one (what an un-awaited `bcrypt.hash`
   * leaves in the field).
   */
  datatype Password =
    | Plain(text: string)
    | Hashed(digest: Bcrypt.Digest)
    | Pending(promised: Bcrypt.Digest)

  /** A user document without its id (the store's key) and timestamps. */
  datatype UserRecord = UserRecord(
    username: string,
    email: string,
    fullName: string,
    avatar: string,
    coverImage: string,
    password: Password,
    refreshToken: Option<string>)

  /** A document read with `.select("-password -refreshToken")`. */
  datatype PublicUser = PublicUser(
    id: Id,
    username: string,
    email: string,
    fullName: string,
    avatar: string,
    coverImage: string)

  type Store = map<Id, UserRecord>

  /** The deployment's secrets and lifetimes (`ACCESS_TOKEN_SECRET` and friends). */
  datatype Config = Config(
    accessSecret: string,
    accessExpiry: string,
    refreshSecret: string,
    refreshExpiry: string)

  /** The two token kinds are configured apart: they are signed with different secrets. */
  predicate SeparateKinds(cfg: Config) {
    cfg.accessSecret != cfg.refreshSecret
  }

  const SaltRounds: nat := 10

  function View(id: Id, rec: UserRecord): PublicUser {
    PublicUser(id, rec.username, rec.email, rec.fullName, rec.avatar, rec.coverImage)
  }

  // ---- schema ----

  /**
   * A record as the schema and the pre-save hook leave it: required fields
   * non-empty, username and email lower-cased and trimmed, full name trimmed,
   * and the password no longer the plaintext it was given.
   */
  predicate WellFormed(rec: UserRecord) {
    && rec.username != "" && IsNormalized(rec.username)
    && rec.email != "" && IsNormalized(rec.email)
    && rec.fullName != "" && IsTrimmed(rec.fullName)
    && rec.avatar != ""
    && !rec.password.Plain?
  }

  /** Every record well formed; username and email unique across records. */
  ghost predicate ValidStore(users: Store) {
    && (forall id :: id in users ==> WellFormed(users[id]))
    && (forall a, b :: a in users && b in users && users[a].username == users[b].username ==> a == b)
    && (forall a, b :: a in users && b in users && users[a].email == users[b].email ==> a == b)
  }

  // ---- pre("save") hook ----

  /**
   * The pre-save hook as written: the password is left alone unless this write
   * assigned it (`newPlain` is the plaintext assigned), and is then replaced by
   * the un-awaited `bcrypt.hash(password, 10)`.
   */
  function PreSave(current: Password, newPlain: Option<string>): (r: Password)
    ensures newPlain.None? ==> r == current
    ensures newPlain.Some? ==> r.Pending? && Bcrypt.Compare(newPlain.value, r.promised)
                               && r.promised.cost == SaltRounds
  {
    match newPlain
    case None => current
    case Some(p) => Pending(Bcrypt.Hash(p, SaltRounds))
  }

  /**
   * A document being saved: its fields, and whether this write assigned the
   * password (Mongoose's `isModified("password")`).
   */
  class UserDocument {
    var record: UserRecord
    var passwordModified: bool

    constructor(record: UserRecord, passwordModified: bool)
      ensures this.record == record && this.passwordModified == passwordModified
    {
      this.record := record;
      this.passwordModified := passwordModified;
    }

    /** The plaintext this write assigned, if the password was assigned. */
    function Assigned(): Option<string>
      reads this
    {
      if passwordModified && record.password.Plain? then Some(record.password.text) else None
    }

    /**
     * The `pre("save")` hook run in place: `this.password` is overwritten by the
     * hook's value and no other field changes. The only writes of the password
     * assign a plaintext string, which is what `bcrypt.hash` is given.
     */
    method PreSaveHook()
      requires passwordModified ==> record.password.Plain?
      modifies this
      ensures record == old(record).(password := PreSave(old(record.password), old(Assigned())))
      ensures passwordModified == old(passwordModified)
    {
      if !passwordModified {
        return;
      }
      record := record.(password := Pending(Bcrypt.Hash(record.password.text, SaltRounds)));
    }
  }

  // ---- isPasswordCorrect ----

  /**
   * `await bcrypt.compare(candidate, this.password)`: the comparison on a stored
   * digest; a plaintext in the field is no bcrypt digest and matches nothing;
   * a Promise in the field, or an undefined candidate, makes bcrypt reject with
   * an error message.
   */
  function IsPasswordCorrect(rec: UserRecord, candidate: Option<string>): (r: Result<bool, string>)
    ensures r.Success? <==> candidate.Some? && !rec.password.Pending?
    ensures r == Success(true) <==> candidate.Some? && rec.password.Hashed?
                                    && Bcrypt.Compare(candidate.value, rec.password.digest)
  {
    match (candidate, rec.password)
    case (None, _) => Failure("data and hash arguments required")
    case (_, Pending(_)) => Failure("data and hash must be strings")
    case (Some(p), Plain(_)) => Success(false)
    case (Some(p), Hashed(d)) => Success(Bcrypt.Compare(p, d))
  }

  /**
   * As the hook is written, a password it has just set can never be checked:
   * bcrypt rejects the Promise in the field, whatever the candidate.
   */
  lemma HookedPasswordRejected(rec: UserRecord, plain: string, candidate: string)
    ensures IsPasswordCorrect(rec.(password := PreSave(rec.password, Some(plain))), Some(candidate))
         == Failure("data and hash must be strings")
  {
  }

  // ---- token generators ----

  /** The claims `generateAccessToken` signs: id, email, username and full name. */
  function AccessClaimsOf(id: Id, rec: UserRecord): Jwt.Claims {
    Jwt.AccessClaims(id, rec.email, rec.username, rec.fullName)
  }

  /** `generateAccessToken()` at second `issuedAt`. */
  function GenerateAccessToken(cfg: Config, id: Id, rec: UserRecord, issuedAt: nat): (t: string)
    ensures Jwt.Decode(t) == Some(Jwt.Token(AccessClaimsOf(id, rec), cfg.accessSecret, cfg.accessExpiry, issuedAt))
    ensures Jwt.Verify(t, cfg.accessSecret) == Success(AccessClaimsOf(id, rec))
  {
    Jwt.Sign(AccessClaimsOf(id, rec), cfg.accessSecret, cfg.accessExpiry, issuedAt)
  }

  /** `generateRefreshToken()` at second `issuedAt`: the id is its only claim. */
  function GenerateRefreshToken(cfg: Config, id: Id, issuedAt: nat): (t: string)
    ensures Jwt.Decode(t) == Some(Jwt.Token(Jwt.RefreshClaims(id), cfg.refreshSecret, cfg.refreshExpiry, issuedAt))
    ensures Jwt.Verify(t, cfg.refreshSecret) == Success(Jwt.RefreshClaims(id))
  {
    Jwt.Sign(Jwt.RefreshClaims(id), cfg.refreshSecret, cfg.refreshExpiry, issuedAt)
  }

  /** With the kinds configured apart, neither kind of token verifies as the other. */
  lemma TokenKindsApart(cfg: Config, id: Id, rec: UserRecord, t1: nat, t2: nat)
    requires SeparateKinds(cfg)
    ensures Jwt.Verify(GenerateAccessToken(cfg, id, rec, t1), cfg.refreshSecret).Failure?
    ensures Jwt.Verify(GenerateRefreshToken(cfg, id, t2), cfg.accessSecret).Failure?
    ensures GenerateAccessToken(cfg, id, rec, t1) != GenerateRefreshToken(cfg, id, t2)
  {
    Jwt.VerifySigned(AccessClaimsOf(id, rec), cfg.accessSecret, cfg.accessExpiry, t1, cfg.refreshSecret);
    Jwt.VerifySigned(Jwt.RefreshClaims(id), cfg.refreshSecret, cfg.refreshExpiry, t2, cfg.accessSecret);
    assert Jwt.Decode(GenerateAccessToken(cfg, id, rec, t1)).value.claims.AccessClaims?;
    assert Jwt.Decode(GenerateRefreshToken(cfg, id, t2)).value.claims.RefreshClaims?;
  }

  // ---- queries ----

  /**
   * `{$or: [{username}, {email}]}`: the query values pass through the schema's
   * setters; an undefined value matches no record, since every record has both
   * fields.
   */
  predicate Matches(rec: UserRecord, username: Option<string>, email: Option<string>) {
    || (username.Some? && rec.username == Normalize(username.value))
    || (email.Some? && rec.email == Normalize(email.value))
  }

  lemma MinExists(ids: set<Id>)
    requires ids != {}
    ensures exists m :: m in ids && forall j :: j in ids ==> m <= j
  {
    var x :| x in ids;
    MinAtLeast(ids, x, 0);
  }

  /** Counting up from a lower bound `k` of `ids` reaches its smallest member. */
  lemma MinAtLeast(ids: set<Id>, x: Id, k: nat)
    requires x in ids && k <= x
    requires forall j :: j in ids ==> k <= j
    ensures exists m :: m in ids && forall j :: j in ids ==> m <= j
    decreases x - k
  {
    if k in ids {
      assert forall j :: j in ids ==> k <= j;
    } else {
      MinAtLeast(ids, x, k + 1);
    }
  }

  /** The smallest id of a non-empty set. */
  function MinId(ids: set<Id>): (m: Id)
    requires ids != {}
    ensures m in ids && forall j :: j in ids ==> m <= j
  {
    MinExists(ids);
    var m :| m in ids && forall j :: j in ids ==> m <= j;
    m
  }

  /**
   * `User.findOne({$or: [{username}, {email}]})`: a matching record if there is
   * one; among several, the one with the smallest id.
   */
  function FindOne(users: Store, username: Option<string>, email: Option<string>): (r: Option<Id>)
    ensures r.None? <==> forall id :: id in users ==> !Matches(users[id], username, email)
    ensures r.Some? ==> r.value in users && Matches(users[r.value], username, email)
    ensures r.Some? ==> forall id :: id in users && Matches(users[id], username, email) ==> r.value <= id
  {
    var hits := set id | id in users && Matches(users[id], username, email);
    if hits == {} then
      assert forall id :: id in users ==> id !in hits;
      None
    else
      assert forall id :: id in users && Matches(users[id], username, email) ==> id in hits;
      Some(MinId(hits))
  }

  /** A record that is the only match is the one found. */
  lemma FindOneUnique(users: Store, username: Option<string>, email: Option<string>, id: Id)
    requires id in users && Matches(users[id], username, email)
    requires forall j :: j in users && j != id ==> !Matches(users[j], username, email)
    ensures FindOne(users, username, email) == Some(id)
  {
  }

  /** A query for a username finds the same record whatever the ASCII case the username is written in. */
  lemma FindOneIgnoresCase(users: Store, u: string, v: string, email: Option<string>)
    requires EqualIgnoringCase(u, v)
    ensures FindOne(users, Some(u), email) == FindOne(users, Some(v), email)
  {
    NormalizeIgnoresCase(u, v);
    FindOneSameSetting(users, u, v, email);
  }

  /** Two usernames the setters store alike select the same record. */
  lemma FindOneSameSetting(users: Store, u: string, v: string, email: Option<string>)
    requires Normalize(u) == Normalize(v)
    ensures FindOne(users, Some(u), email) == FindOne(users, Some(v), email)
  {
    var a := FindOne(users, Some(u), email);
    var b := FindOne(users, Some(v), email);
    if a.Some? {
      assert Matches(users[a.value], Some(v), email);
      assert b.Some? && b.value <= a.value;
      assert Matches(users[b.value], Some(u), email);
    }
  }
}
