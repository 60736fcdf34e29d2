/**
 * The entitlement workflow of the payment routes: opening an order, verifying
 * the gateway's signature and minting an Access, and the per-playback gate.
 */
module Payments {

  import opened Common
  import opened Ids
  import P = PaymentModel
  import A = AccessModel
  import opened MovieModel
  import opened Store

  const PaymentPrefix := "PAY"
  const PaymentSeed := "PAY10001"
  const AccessPrefix := "ACC"
  const AccessSeed := "ACC10001"
  /** Extra viewing time granted beyond the movie's runtime. */
  const GracePeriodSeconds := 1800
  /** The development bypass accepted in place of a real signature. */
  const SimulatedSignature := "simulated_signature"

  // ------------------------------------------------------------ allocators

  /** generatePaymentId: "PAY10001" first, then the successor of the greatest paymentId. */
  method GeneratePaymentId(db: Database) returns (id: string)
    ensures db.payments == map[] ==> id == "PAY10001"
    ensures db.payments != map[] ==>
      exists last :: IsLexMax(last, db.payments.Keys) && id == Successor("PAY", last)
    ensures id == AllocatedId(PaymentPrefix, PaymentSeed, db.payments.Keys)
  {
    id := NextId(PaymentPrefix, PaymentSeed, db.payments.Keys);
  }

  /** generateAccessId: "ACC10001" first, then the successor of the greatest accessId. */
  method GenerateAccessId(db: Database) returns (id: string)
    ensures db.accesses == map[] ==> id == "ACC10001"
    ensures db.accesses != map[] ==>
      exists last :: IsLexMax(last, db.accesses.Keys) && id == Successor("ACC", last)
    ensures id == AllocatedId(AccessPrefix, AccessSeed, db.accesses.Keys)
  {
    id := NextId(AccessPrefix, AccessSeed, db.accesses.Keys);
  }

  // ---------------------------------------------------------- entitlement

  /** An unexpired, paid Access (the filter create-order and the dashboard use). */
  function IsActive(a: A.Access, now: int): (b: bool)
    ensures b ==> Decide(a, now) == Playable
    ensures Decide(a, now) == Playable && now != a.expiryTime ==> b
  {
    a.expiryTime > now && a.paymentStatus == A.Success
  }

  /** An Access that is live for this movie on this device. */
  function LiveEntitlement(a: A.Access, movieId: string, deviceId: string, now: int): (b: bool)
    ensures b ==> a.movie == movieId && Matches(a, a.token, deviceId) && IsActive(a, now)
    ensures b ==> Decide(a, now) == Playable && now < a.expiryTime
    ensures a.movie == movieId && Matches(a, a.token, deviceId) && IsActive(a, now) ==> b
  {
    a.movie == movieId && a.deviceId == Some(deviceId) && IsActive(a, now)
  }

  // ---------------------------------------------------------- create-order

  datatype Order = Order(orderId: string, gatewayOrderId: string, amount: int, currency: string)

  datatype OrderError =
    | MissingOrderFields
    | MovieNotFound
    | AlreadyEntitled(accessId: string)
    | OrderSaveFailed
  {
    function HttpStatus(): int
    {
      match this
      case MissingOrderFields => 400
      case MovieNotFound => 404
      case AlreadyEntitled(_) => 400
      case OrderSaveFailed => 500
    }
  }

  /**
   * POST /create-order. `gatewayOrderId` is the id of the order the payment
   * gateway opened; `caller` the authenticated user, if any. Saving a payment
   * whose allocated id already exists violates the unique index and fails.
   */
  method CreateOrder(db: Database, movieId: Option<string>, deviceId: Option<string>,
                     caller: Option<string>, now: int, gatewayOrderId: string)
    returns (r: Result<Order, OrderError>)
    requires db.Valid()
    modifies db
    ensures db.Valid()
    ensures db.movies == old(db.movies) && db.accesses == old(db.accesses)
    ensures db.users == old(db.users) && db.admins == old(db.admins)
    ensures r.Err? ==> db.payments == old(db.payments)
    ensures !Truthy(movieId) || !Truthy(deviceId) ==> r == Err(MissingOrderFields)
    ensures Truthy(movieId) && Truthy(deviceId) && movieId.value !in db.movies ==> r == Err(MovieNotFound)
    ensures Truthy(movieId) && Truthy(deviceId) && movieId.value in db.movies ==>
      ((exists k :: k in db.accesses && LiveEntitlement(db.accesses[k], movieId.value, deviceId.value, now))
        <==> r.Err? && r.error.AlreadyEntitled?)
    ensures r.Err? && r.error.AlreadyEntitled? ==>
      r.error.accessId in db.accesses && LiveEntitlement(db.accesses[r.error.accessId], movieId.value, deviceId.value, now)
    ensures r.Ok? <==>
      && Truthy(movieId) && Truthy(deviceId) && movieId.value in old(db.movies)
      && !(exists k :: k in old(db.accesses) && LiveEntitlement(old(db.accesses)[k], movieId.value, deviceId.value, now))
      && AllocatedId(PaymentPrefix, PaymentSeed, old(db.payments).Keys) !in old(db.payments)
    ensures r == Err(OrderSaveFailed) <==>
      && Truthy(movieId) && Truthy(deviceId) && movieId.value in old(db.movies)
      && !(exists k :: k in old(db.accesses) && LiveEntitlement(old(db.accesses)[k], movieId.value, deviceId.value, now))
      && AllocatedId(PaymentPrefix, PaymentSeed, old(db.payments).Keys) in old(db.payments)
    ensures r.Ok? ==>
      && Truthy(movieId) && Truthy(deviceId) && movieId.value in db.movies
      && var id := AllocatedId(PaymentPrefix, PaymentSeed, old(db.payments).Keys);
      && var movie := db.movies[movieId.value];
      && r.value == Order(id, gatewayOrderId, movie.price, "INR")
      && id !in old(db.payments)
      && db.payments == old(db.payments)[id := P.Payment(id, caller, "razorpay", Some(gatewayOrderId), movie.price, "INR",
                                      P.Created, deviceId, movieId.value, None, Some(gatewayOrderId))]
  {
    if !Truthy(movieId) || !Truthy(deviceId) {
      return Err(MissingOrderFields);
    }
    if movieId.value !in db.movies {
      return Err(MovieNotFound);
    }
    var movie := db.movies[movieId.value];
    if exists k :: k in db.accesses && LiveEntitlement(db.accesses[k], movieId.value, deviceId.value, now) {
      var k :| k in db.accesses && LiveEntitlement(db.accesses[k], movieId.value, deviceId.value, now);
      return Err(AlreadyEntitled(k));
    }
    var id := GeneratePaymentId(db);
    if id in db.payments {
      return Err(OrderSaveFailed);
    }
    var payment := P.NewPayment(id, "razorpay", movie.price, movie.movieId)
      .(user := caller, gatewayPaymentId := Some(gatewayOrderId), deviceId := deviceId,
        meta := Some(gatewayOrderId));
    db.payments := db.payments[id := payment];
    r := Ok(Order(id, gatewayOrderId, movie.price, "INR"));
  }

  // ---------------------------------------------------------------- verify

  /** The signature check: the literal bypass, or the HMAC of "orderId|paymentId". */
  function SignatureAccepted(hmac: string -> string, gatewayOrderId: string, gatewayPaymentId: string,
                             signature: string): (b: bool)
    ensures signature == SimulatedSignature ==> b
    ensures signature == hmac(gatewayOrderId + "|" + gatewayPaymentId) ==> b
    ensures b && signature != SimulatedSignature ==> signature == hmac(gatewayOrderId + "|" + gatewayPaymentId)
  {
    signature == SimulatedSignature || signature == hmac(gatewayOrderId + "|" + gatewayPaymentId)
  }

  /** The expiry stamped on a new Access: runtime plus grace period, in milliseconds after `now`. */
  function ExpiryTime(now: int, durationSeconds: nat): (t: int)
    ensures t >= now + GracePeriodSeconds * 1000
    ensures (t - now) % 1000 == 0 && (t - now) / 1000 == durationSeconds + GracePeriodSeconds
  {
    now + (durationSeconds + GracePeriodSeconds) * 1000
  }

  /**
   * The payment after an accepted signature, before its Access is linked:
   * whatever its status was, it becomes "success"; the user is replaced only
   * by an authenticated caller; nothing else changes.
   */
  function Settled(p: P.Payment, gatewayPaymentId: string, caller: Option<string>): (q: P.Payment)
    ensures q.status == P.Success && q.gatewayPaymentId == Some(gatewayPaymentId)
    ensures caller.None? ==> q.user == p.user
    ensures caller.Some? ==> q.user == caller
    ensures q.(status := p.status, gatewayPaymentId := p.gatewayPaymentId, user := p.user) == p
  {
    p.(status := P.Success, gatewayPaymentId := Some(gatewayPaymentId),
       user := if caller.Some? then caller else p.user)
  }

  /** The Access minted from a settled payment: playback not yet started, paid. */
  function Minted(accessId: string, p: P.Payment, caller: Option<string>, token: string, expiryTime: int): (a: A.Access)
    ensures !a.playbackStarted && a.startTime.None?
    ensures a.accessId == accessId && a.movie == p.movie && a.token == token && a.expiryTime == expiryTime
    ensures a.user == caller && a.deviceId == p.deviceId && a.paymentStatus == A.Success
    ensures a.SatisfiesSchema() <==> accessId != "" && p.movie != "" && token != ""
  {
    A.NewAccess(accessId, p.movie, token, expiryTime)
      .(user := caller, deviceId := p.deviceId, paymentStatus := A.Success)
  }

  /**
   * A freshly minted Access is live: the dashboard counts it active and
   * validate-access lets it play until its expiry instant inclusive, and no later.
   */
  lemma MintedIsLive(accessId: string, p: P.Payment, caller: Option<string>, token: string,
                     now: int, durationSeconds: nat, t: int)
    requires now <= t
    ensures var a := Minted(accessId, p, caller, token, ExpiryTime(now, durationSeconds));
      && IsActive(a, now)
      && (Decide(a, t) == Playable <==> t <= now + (durationSeconds + GracePeriodSeconds) * 1000)
      && (Decide(a, t) == ExpiredAccess <==> t > now + (durationSeconds + GracePeriodSeconds) * 1000)
  {
  }

  /** No stored Access uses this token yet. */
  predicate TokenFree(accesses: map<string, A.Access>, token: string)
  {
    forall k :: k in accesses ==> accesses[k].token != token
  }

  datatype Grant = Grant(accessId: string, token: string, expiryTime: int, movieId: string, moviePath: string)

  datatype VerifyError = PaymentNotFound | InvalidSignature | VerifyFailed
  {
    function HttpStatus(): int
    {
      match this
      case PaymentNotFound => 404
      case InvalidSignature => 400
      case VerifyFailed => 500
    }
  }

  /**
   * POST /verify. `token` is the fresh random bearer token. The payment is
   * saved as settled before the movie is read and the Access is saved, so a
   * deleted movie or a colliding accessId or token leaves a successful payment
   * with no new Access (a server error).
   */
  method Verify(db: Database, orderId: string, gatewayOrderId: string, gatewayPaymentId: string,
                signature: string, caller: Option<string>, now: int, token: string)
    returns (r: Result<Grant, VerifyError>)
    requires db.Valid()
    modifies db
    ensures db.Valid()
    ensures db.movies == old(db.movies) && db.users == old(db.users) && db.admins == old(db.admins)
    ensures orderId !in old(db.payments) ==>
      r == Err(PaymentNotFound) && db.payments == old(db.payments) && db.accesses == old(db.accesses)
    ensures orderId in old(db.payments) && !SignatureAccepted(db.hmac, gatewayOrderId, gatewayPaymentId, signature) ==>
      && r == Err(InvalidSignature)
      && db.accesses == old(db.accesses)
      && db.payments == old(db.payments)[orderId := old(db.payments)[orderId].(status := P.Failed)]
    ensures orderId in old(db.payments) && SignatureAccepted(db.hmac, gatewayOrderId, gatewayPaymentId, signature) ==>
      && var paid := Settled(old(db.payments)[orderId], gatewayPaymentId, caller);
      && var accessId := AllocatedId(AccessPrefix, AccessSeed, old(db.accesses).Keys);
      && (r.Ok? <==> paid.movie in db.movies && accessId !in old(db.accesses) && token != ""
                     && TokenFree(old(db.accesses), token))
      && (r.Err? ==> r == Err(VerifyFailed) && db.accesses == old(db.accesses)
                     && db.payments == old(db.payments)[orderId := paid])
      && (r.Ok? ==>
            && var movie := db.movies[paid.movie];
            && var expiry := ExpiryTime(now, movie.durationSeconds);
            && r.value == Grant(accessId, token, expiry, movie.movieId, movie.filePath)
            && db.accesses == old(db.accesses)[accessId := Minted(accessId, paid, caller, token, expiry)]
            && db.payments == old(db.payments)[orderId := paid.(access := Some(accessId))])
  {
    if orderId !in db.payments {
      return Err(PaymentNotFound);
    }
    var payment := db.payments[orderId];
    if !SignatureAccepted(db.hmac, gatewayOrderId, gatewayPaymentId, signature) {
      db.payments := db.payments[orderId := payment.(status := P.Failed)];
      return Err(InvalidSignature);
    }
    payment := Settled(payment, gatewayPaymentId, caller);
    db.payments := db.payments[orderId := payment];
    if payment.movie !in db.movies {
      return Err(VerifyFailed);
    }
    var movie := db.movies[payment.movie];
    var expiry := ExpiryTime(now, movie.durationSeconds);
    var accessId := GenerateAccessId(db);
    if accessId in db.accesses || token == "" || !TokenFree(db.accesses, token) {
      return Err(VerifyFailed);
    }
    var access := Minted(accessId, payment, caller, token, expiry);
    InsertAccess(db.accesses, accessId, access);
    db.accesses := db.accesses[accessId := access];
    db.payments := db.payments[orderId := payment.(access := Some(accessId))];
    r := Ok(Grant(accessId, token, expiry, movie.movieId, movie.filePath));
  }

  // ------------------------------------------------------- validate-access

  /** The checks validate-access applies to the record it found, in order. */
  datatype Decision = ExpiredAccess | UnpaidAccess | Playable

  function Decide(a: A.Access, now: int): (d: Decision)
    ensures d == ExpiredAccess <==> now > a.expiryTime
    ensures d == UnpaidAccess <==> now <= a.expiryTime && a.paymentStatus != A.Success
    ensures d == Playable <==> now <= a.expiryTime && a.paymentStatus == A.Success
  {
    if now > a.expiryTime then ExpiredAccess
    else if a.paymentStatus != A.Success then UnpaidAccess
    else Playable
  }

  /** The lookup key of validate-access: token and device together. */
  predicate Matches(a: A.Access, token: string, deviceId: string)
  {
    a.token == token && a.deviceId == Some(deviceId)
  }

  /** With tokens unique, at most one stored Access matches a token and device. */
  lemma MatchIsUnique(accesses: map<string, A.Access>, token: string, deviceId: string, k1: string, k2: string)
    requires TokensUnique(accesses)
    requires k1 in accesses && Matches(accesses[k1], token, deviceId)
    requires k2 in accesses && Matches(accesses[k2], token, deviceId)
    ensures k1 == k2
  {
  }

  /**
   * The one-way playback marker: set, with the start time, on the first
   * successful validation only; nothing else in the record changes.
   */
  function StartPlayback(a: A.Access, now: int): (b: A.Access)
    ensures b.playbackStarted
    ensures a.playbackStarted ==> b == a
    ensures !a.playbackStarted ==> b.startTime == Some(now)
    ensures b.(playbackStarted := a.playbackStarted, startTime := a.startTime) == a
  {
    if a.playbackStarted then a else a.(playbackStarted := true, startTime := Some(now))
  }

  /** Later validations keep the first start time: the marker never moves. */
  lemma StartPlaybackOnce(a: A.Access, first: int, later: int)
    ensures StartPlayback(StartPlayback(a, first), later) == StartPlayback(a, first)
    ensures !a.playbackStarted ==> StartPlayback(StartPlayback(a, first), later).startTime == Some(first)
  {
  }

  datatype Validation =
    | MissingInput
    | AccessNotFound
    | Expired
    | PaymentNotSuccessful
    | Valid(accessId: string, expiryTime: int, moviePath: string)
    | ValidationFailed
  {
    function HttpStatus(): int
    {
      match this
      case MissingInput => 400
      case AccessNotFound => 404
      case ValidationFailed => 500
      case _ => 200
    }
  }

  /**
   * POST /validate-access. The playback marker is saved before the movie's
   * path is read, so a record whose movie was deleted is marked and then
   * answered with a server error.
   */
  method ValidateAccess(db: Database, token: Option<string>, deviceId: Option<string>, now: int)
    returns (r: Validation)
    requires db.Valid()
    modifies db
    ensures db.Valid()
    ensures db.movies == old(db.movies) && db.payments == old(db.payments)
    ensures db.users == old(db.users) && db.admins == old(db.admins)
    ensures !Truthy(token) || !Truthy(deviceId) ==> r == MissingInput && db.accesses == old(db.accesses)
    ensures (&& Truthy(token) && Truthy(deviceId)
             && forall k :: k in old(db.accesses) ==> !Matches(old(db.accesses)[k], token.value, deviceId.value)) ==>
      r == AccessNotFound && db.accesses == old(db.accesses)
    ensures forall k ::
      (Truthy(token) && Truthy(deviceId) && k in old(db.accesses)
       && Matches(old(db.accesses)[k], token.value, deviceId.value)) ==>
      && var a := old(db.accesses)[k];
      && (Decide(a, now) == ExpiredAccess ==> r == Expired && db.accesses == old(db.accesses))
      && (Decide(a, now) == UnpaidAccess ==> r == PaymentNotSuccessful && db.accesses == old(db.accesses))
      && (Decide(a, now) == Playable ==>
            && db.accesses == old(db.accesses)[k := StartPlayback(a, now)]
            && r == (if a.movie in db.movies then Valid(k, a.expiryTime, db.movies[a.movie].filePath)
                     else ValidationFailed))
  {
    if !Truthy(token) || !Truthy(deviceId) {
      return MissingInput;
    }
    if !exists k :: k in db.accesses && Matches(db.accesses[k], token.value, deviceId.value) {
      return AccessNotFound;
    }
    var k :| k in db.accesses && Matches(db.accesses[k], token.value, deviceId.value);
    var a := db.accesses[k];
    if now > a.expiryTime {
      return Expired;
    }
    if a.paymentStatus != A.Success {
      return PaymentNotSuccessful;
    }
    if !a.playbackStarted {
      UpdateAccess(db.accesses, k, StartPlayback(a, now));
      db.accesses := db.accesses[k := StartPlayback(a, now)];
    }
    if a.movie !in db.movies {
      return ValidationFailed;
    }
    r := Valid(k, a.expiryTime, db.movies[a.movie].filePath);
  }
}
