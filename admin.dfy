/** The admin routes: the role gate, access revocation, user toggling and the dashboard figures. */
module AdminRoutes {

  import opened Common
  import P = PaymentModel
  import A = AccessModel
  import opened AdminModel
  import opened UserModel
  import opened Store
  import opened Payments

  /**
   * requireAdmin (the same gate guards the movie routes): admits the caller
   * only if an Admin record with that id exists and its role is "admin".
   */
  method RequireAdmin(db: Database, adminId: string) returns (admitted: bool)
    ensures admitted <==> adminId in db.admins && db.admins[adminId].role == AdminRole
    ensures adminId in db.admins && db.admins[adminId].role.Name() == "editor" ==> !admitted
  {
    admitted := adminId in db.admins && db.admins[adminId].role == AdminRole;
  }

  // ------------------------------------------------------------ revocation

  /** Revocation collapses the expiry to the revocation instant and nothing else. */
  function Revoked(a: A.Access, now: int): (b: A.Access)
    ensures b.expiryTime == now
    ensures b.(expiryTime := a.expiryTime) == a
  {
    a.(expiryTime := now)
  }

  /**
   * A revoked record counts as expired from the revocation instant on and is
   * refused by validate-access at every later instant; at the revocation
   * instant itself a paid record still passes, since validation only refuses
   * once the clock is strictly past the expiry.
   */
  lemma RevokedIsExpired(a: A.Access, now: int, later: int)
    requires later >= now
    ensures Revoked(a, now).expiryTime <= later
    ensures later > now ==> Decide(Revoked(a, now), later) == ExpiredAccess
    ensures a.paymentStatus == A.Success ==> Decide(Revoked(a, now), now) == Playable
    ensures !IsActive(Revoked(a, now), later)
  {
  }

  /** DELETE /access/:accessId. Answers false (404) for an unknown id. */
  method RevokeAccess(db: Database, accessId: string, now: int) returns (found: bool)
    requires db.Valid()
    modifies db
    ensures db.Valid()
    ensures db.movies == old(db.movies) && db.payments == old(db.payments)
    ensures db.users == old(db.users) && db.admins == old(db.admins)
    ensures found <==> accessId in old(db.accesses)
    ensures !found ==> db.accesses == old(db.accesses)
    ensures found ==> db.accesses == old(db.accesses)[accessId := Revoked(old(db.accesses)[accessId], now)]
  {
    if accessId !in db.accesses {
      return false;
    }
    var a := db.accesses[accessId];
    UpdateAccess(db.accesses, accessId, Revoked(a, now));
    db.accesses := db.accesses[accessId := Revoked(a, now)];
    found := true;
  }

  // ------------------------------------------------------------ user status

  /** PUT /users/:userId/toggle-status. Answers the new `isActive`, or None (404). */
  method ToggleUserStatus(db: Database, userId: string) returns (r: Option<bool>)
    requires db.Valid()
    modifies db
    ensures db.Valid()
    ensures db.movies == old(db.movies) && db.payments == old(db.payments)
    ensures db.accesses == old(db.accesses) && db.admins == old(db.admins)
    ensures userId !in old(db.users) ==> r == None && db.users == old(db.users)
    ensures userId in old(db.users) ==>
      && r == Some(!old(db.users)[userId].isActive)
      && db.users == old(db.users)[userId := StatusToggled(old(db.users)[userId])]
  {
    if userId !in db.users {
      return None;
    }
    var u := db.users[userId];
    db.users := db.users[userId := StatusToggled(u)];
    r := Some(!u.isActive);
  }

  /** The user record after toggle-status. */
  function StatusToggled(u: User): (v: User)
    ensures v.isActive != u.isActive
    ensures v.(isActive := u.isActive) == u
  {
    u.(isActive := !u.isActive)
  }

  /** Toggling twice restores the user collection. */
  lemma ToggleTwiceRestores(users: map<string, User>, userId: string)
    requires userId in users
    ensures var once := users[userId := StatusToggled(users[userId])];
      once[userId := StatusToggled(once[userId])] == users
  {
    var once := users[userId := StatusToggled(users[userId])];
    assert StatusToggled(once[userId]) == users[userId];
  }

  // -------------------------------------------------------------- dashboard

  /** The payments `Payment.find({ status: 'success' })` returns, in collection order. */
  function SuccessfulPayments(ps: seq<P.Payment>): (r: seq<P.Payment>)
    ensures |r| <= |ps|
    ensures forall p :: p in r <==> p in ps && p.status == P.Success
  {
    if ps == [] then []
    else if ps[0].status == P.Success then [ps[0]] + SuccessfulPayments(ps[1..])
    else SuccessfulPayments(ps[1..])
  }

  /** `reduce((sum, p) => sum + p.amount, 0)`. */
  function SumAmounts(ps: seq<P.Payment>): (s: int)
    ensures (forall i :: 0 <= i < |ps| ==> ps[i].amount >= 0) ==> s >= 0
    ensures (forall i :: 0 <= i < |ps| ==> ps[i].amount >= 0) ==> forall i :: 0 <= i < |ps| ==> ps[i].amount <= s
  {
    if ps == [] then 0 else ps[0].amount + SumAmounts(ps[1..])
  }

  /** totalRevenue of the dashboard. */
  function TotalRevenue(ps: seq<P.Payment>): (r: int)
    ensures (forall p :: p in ps ==> p.amount >= 0) ==> r >= 0
    ensures (forall p :: p in ps ==> p.status != P.Success) ==> r == 0
  {
    SumAmounts(SuccessfulPayments(ps))
  }

  /** totalPayments of the dashboard. */
  function TotalPayments(ps: seq<P.Payment>): (n: nat)
    ensures n <= |ps|
    ensures n == 0 <==> forall p :: p in ps ==> p.status != P.Success
  {
    var r := SuccessfulPayments(ps);
    assert r != [] ==> r[0] in r;
    |r|
  }

  lemma {:induction false} SuccessfulAppend(ps: seq<P.Payment>, qs: seq<P.Payment>)
    ensures SuccessfulPayments(ps + qs) == SuccessfulPayments(ps) + SuccessfulPayments(qs)
  {
    if ps == [] {
      assert ps + qs == qs;
    } else {
      assert (ps + qs)[0] == ps[0] && (ps + qs)[1..] == ps[1..] + qs;
      SuccessfulAppend(ps[1..], qs);
    }
  }

  lemma {:induction false} SumAppend(ps: seq<P.Payment>, qs: seq<P.Payment>)
    ensures SumAmounts(ps + qs) == SumAmounts(ps) + SumAmounts(qs)
  {
    if ps == [] {
      assert ps + qs == qs;
    } else {
      assert (ps + qs)[0] == ps[0] && (ps + qs)[1..] == ps[1..] + qs;
      SumAppend(ps[1..], qs);
    }
  }

  /** Revenue and payment count add up over any split of the collection. */
  lemma RevenueAppend(ps: seq<P.Payment>, qs: seq<P.Payment>)
    ensures TotalRevenue(ps + qs) == TotalRevenue(ps) + TotalRevenue(qs)
    ensures TotalPayments(ps + qs) == TotalPayments(ps) + TotalPayments(qs)
  {
    SuccessfulAppend(ps, qs);
    SumAppend(SuccessfulPayments(ps), SuccessfulPayments(qs));
  }

  /**
   * Only successful payments count: a payment in any other status adds
   * nothing to the revenue or the count, and a successful one adds its amount.
   */
  lemma {:induction false} RevenueOfOne(p: P.Payment)
    ensures TotalRevenue([p]) == (if p.status == P.Success then p.amount else 0)
    ensures TotalPayments([p]) == (if p.status == P.Success then 1 else 0)
  {
    assert [p][1..] == [];
    assert SuccessfulPayments([p]) == (if p.status == P.Success then [p] else []);
    assert SumAmounts([p]) == p.amount + SumAmounts([]);
  }

  /**
   * Settling a payment in place (verify marking it "success") raises the
   * revenue by its amount and the count by one, unless it was already successful.
   */
  lemma SettlingRaisesRevenue(ps: seq<P.Payment>, i: nat, gatewayPaymentId: string, caller: Option<string>)
    requires i < |ps|
    ensures TotalRevenue(ps[i := Settled(ps[i], gatewayPaymentId, caller)]) ==
      TotalRevenue(ps) + (if ps[i].status == P.Success then 0 else ps[i].amount)
    ensures TotalPayments(ps[i := Settled(ps[i], gatewayPaymentId, caller)]) ==
      TotalPayments(ps) + (if ps[i].status == P.Success then 0 else 1)
  {
    var settled := Settled(ps[i], gatewayPaymentId, caller);
    var before, after := ps[..i], ps[i + 1..];
    assert ps == before + [ps[i]] + after;
    assert ps[i := settled] == before + [settled] + after;
    RevenueAppend(before + [ps[i]], after);
    RevenueAppend(before, [ps[i]]);
    RevenueAppend(before + [settled], after);
    RevenueAppend(before, [settled]);
    RevenueOfOne(ps[i]);
    RevenueOfOne(settled);
  }

  /** The records the dashboard counts as activeAccess. */
  function ActiveAccessIds(accesses: map<string, A.Access>, now: int): (r: set<string>)
    ensures r <= accesses.Keys
    ensures forall k :: k in r ==> Decide(accesses[k], now) == Playable
    ensures forall k :: k in accesses && Decide(accesses[k], now) == Playable && accesses[k].expiryTime != now ==> k in r
  {
    set k | k in accesses && IsActive(accesses[k], now)
  }

  /** The records the dashboard counts as expiredAccess. */
  function ExpiredAccessIds(accesses: map<string, A.Access>, now: int): (r: set<string>)
    ensures r <= accesses.Keys
    ensures forall k :: k in r ==> !IsActive(accesses[k], now)
    ensures forall k :: k in accesses && Decide(accesses[k], now) == ExpiredAccess ==> k in r
  {
    set k | k in accesses && accesses[k].expiryTime <= now
  }

  /**
   * Active and expired are disjoint, so the two counts never exceed the
   * collection; an unexpired record whose payment status is not "success" is
   * in neither.
   */
  lemma ActiveExpiredPartition(accesses: map<string, A.Access>, now: int)
    ensures ActiveAccessIds(accesses, now) !! ExpiredAccessIds(accesses, now)
    ensures |ActiveAccessIds(accesses, now)| + |ExpiredAccessIds(accesses, now)| <= |accesses|
    ensures forall k :: k in accesses && accesses[k].expiryTime > now && accesses[k].paymentStatus != A.Success ==>
      k !in ActiveAccessIds(accesses, now) && k !in ExpiredAccessIds(accesses, now)
  {
    var act, exp := ActiveAccessIds(accesses, now), ExpiredAccessIds(accesses, now);
    assert act * exp == {};
    var both := act + exp;
    assert |both| == |act| + |exp|;
    var rest := accesses.Keys - both;
    assert accesses.Keys == both + rest && both * rest == {};
    assert |accesses.Keys| == |both| + |rest|;
  }

  /** After a revocation at `now` the record is counted expired and no longer active. */
  lemma RevocationMovesToExpired(accesses: map<string, A.Access>, k: string, now: int)
    requires k in accesses
    ensures k in ExpiredAccessIds(accesses[k := Revoked(accesses[k], now)], now)
    ensures k !in ActiveAccessIds(accesses[k := Revoked(accesses[k], now)], now)
    ensures ActiveAccessIds(accesses[k := Revoked(accesses[k], now)], now) == ActiveAccessIds(accesses, now) - {k}
  {
  }
}
