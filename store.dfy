/**
 * The MongoDB collections the routes share, as maps from each record's key to
 * the record, together with the configuration and the foreign primitives the
 * handlers call. Every route handler is a method that takes the database and
 * changes only what its `modifies`/`ensures` say.
 */
module Store {

  import opened Common
  import P = PaymentModel
  import A = AccessModel
  import opened MovieModel
  import opened AdminModel
  import opened UserModel

  /** Every movie sits under its movieId and satisfies its schema. */
  ghost predicate MoviesKeyed(movies: map<string, Movie>)
  {
    forall k :: k in movies ==> movies[k].movieId == k && movies[k].SatisfiesSchema()
  }

  /** Every payment sits under its paymentId and satisfies its schema. */
  ghost predicate PaymentsKeyed(payments: map<string, P.Payment>)
  {
    forall k :: k in payments ==> payments[k].paymentId == k && payments[k].SatisfiesSchema()
  }

  /** A payment's `access` reference points to a stored Access. */
  ghost predicate LinksResolve(payments: map<string, P.Payment>, accesses: map<string, A.Access>)
  {
    forall k :: k in payments && payments[k].access.Some? ==> payments[k].access.value in accesses
  }

  /** Every Access sits under its accessId and satisfies its schema. */
  ghost predicate AccessesKeyed(accesses: map<string, A.Access>)
  {
    forall k :: k in accesses ==> accesses[k].accessId == k && accesses[k].SatisfiesSchema()
  }

  /** No two Access records carry the same bearer token (the unique index on `token`). */
  ghost predicate TokensUnique(accesses: map<string, A.Access>)
  {
    forall k1, k2 :: k1 in accesses && k2 in accesses && accesses[k1].token == accesses[k2].token ==> k1 == k2
  }

  /**
   * Every user sits under its userId with no device listed twice, and no two
   * users share an email.
   */
  ghost predicate UsersKeyed(users: map<string, User>)
  {
    && (forall k :: k in users ==> users[k].userId == k && users[k].DevicesDistinct())
    && (forall k1, k2 :: k1 in users && k2 in users && users[k1].email == users[k2].email ==> k1 == k2)
  }

  /** Every admin sits under its id and satisfies its schema; emails are unique. */
  ghost predicate AdminsKeyed(admins: map<string, Admin>)
  {
    && (forall k :: k in admins ==> admins[k].id == k && admins[k].SatisfiesSchema())
    && (forall k1, k2 :: k1 in admins && k2 in admins && admins[k1].email == admins[k2].email ==> k1 == k2)
  }

  /** Storing a new Access under a fresh key with a fresh token keeps the Access indexes. */
  lemma InsertAccess(accesses: map<string, A.Access>, k: string, a: A.Access)
    requires AccessesKeyed(accesses) && TokensUnique(accesses)
    requires k !in accesses && a.accessId == k && a.SatisfiesSchema()
    requires forall j :: j in accesses ==> accesses[j].token != a.token
    ensures AccessesKeyed(accesses[k := a]) && TokensUnique(accesses[k := a])
  {
  }

  /** Changing an Access in place without touching its id, schema fields or token keeps the indexes. */
  lemma UpdateAccess(accesses: map<string, A.Access>, k: string, a: A.Access)
    requires AccessesKeyed(accesses) && TokensUnique(accesses)
    requires k in accesses && a.accessId == k && a.SatisfiesSchema() && a.token == accesses[k].token
    ensures AccessesKeyed(accesses[k := a]) && TokensUnique(accesses[k := a])
    ensures accesses[k := a].Keys == accesses.Keys
  {
  }

  class Database {
    /** Movies by movieId. */
    var movies: map<string, Movie>
    /** Payments by paymentId. */
    var payments: map<string, P.Payment>
    /** Access records by accessId. */
    var accesses: map<string, A.Access>
    /** Users by userId. */
    var users: map<string, User>
    /** Admins by their document id. */
    var admins: map<string, Admin>

    /** HMAC-SHA256 keyed with the gateway secret, as a hex digest. */
    const hmac: string -> string
    /** The password check (bcrypt comparison) of a password against a stored hash. */
    const passwordMatches: (string, string) -> bool
    /** The ADMIN_EMAIL setting, "" when it is not set. */
    const adminEmail: string

    /**
     * Every record sits under its own key and satisfies its schema, the unique
     * indexes hold, and a payment's `access` reference points to a stored Access.
     */
    ghost predicate Valid()
      reads this
    {
      && MoviesKeyed(movies)
      && PaymentsKeyed(payments)
      && LinksResolve(payments, accesses)
      && AccessesKeyed(accesses)
      && TokensUnique(accesses)
      && UsersKeyed(users)
      && AdminsKeyed(admins)
    }

    constructor (hmac: string -> string, passwordMatches: (string, string) -> bool, adminEmail: string)
      ensures Valid()
      ensures movies == map[] && payments == map[] && accesses == map[] && users == map[] && admins == map[]
      ensures this.hmac == hmac && this.passwordMatches == passwordMatches && this.adminEmail == adminEmail
    {
      movies, payments, accesses, users, admins := map[], map[], map[], map[], map[];
      this.hmac := hmac;
      this.passwordMatches := passwordMatches;
      this.adminEmail := adminEmail;
    }
  }
}
