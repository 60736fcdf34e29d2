// The four Mongoose schemas of the backend (Payment, Access, Movie, Admin) and
// the User record the auth and admin routes use. A reference to another
// document is held as that document's key in its store; a Date is an integer
// number of milliseconds; a nullable field is an Option. A schema's `required`
// string must be non-empty (Mongoose rejects ""), which `SatisfiesSchema` states.

module PaymentModel {

  import opened Common

  /** The `status` enum of a Payment. */
  datatype PaymentStatus = Created | Initiated | Success | Failed | Refunded
  {
    function Name(): string
    {
      match this
      case Created => "created"
      case Initiated => "initiated"
      case Success => "success"
      case Failed => "failed"
      case Refunded => "refunded"
    }
  }

  const StatusNames: set<string> := {"created", "initiated", "success", "failed", "refunded"}

  /** The enum validator: the status a stored string denotes, if it is one of the enum's values. */
  function ParseStatus(s: string): (r: Option<PaymentStatus>)
    ensures r.Some? <==> s in StatusNames
    ensures r.Some? ==> r.value.Name() == s
  {
    if s == "created" then Some(Created)
    else if s == "initiated" then Some(Initiated)
    else if s == "success" then Some(Success)
    else if s == "failed" then Some(Failed)
    else if s == "refunded" then Some(Refunded)
    else None
  }

  datatype Payment = Payment(
    paymentId: string,
    user: Option<string>,
    gateway: string,
    gatewayPaymentId: Option<string>,
    amount: int,
    currency: string,
    status: PaymentStatus,
    deviceId: Option<string>,
    movie: string,
    access: Option<string>,
    meta: Option<string>)
  {
    /** The required fields paymentId, gateway and movie are present. */
    predicate SatisfiesSchema()
    {
      paymentId != "" && gateway != "" && movie != ""
    }
  }

  /**
   * `new Payment({...})` given only the required fields: every other field
   * takes its schema default (status "created", currency "INR", the rest null).
   */
  function NewPayment(paymentId: string, gateway: string, amount: int, movie: string): (p: Payment)
    ensures p.SatisfiesSchema() <==> paymentId != "" && gateway != "" && movie != ""
    ensures p.status.Name() == "created" && p.currency == "INR"
    ensures p.user.None? && p.gatewayPaymentId.None? && p.deviceId.None? && p.access.None? && p.meta.None?
    ensures p.paymentId == paymentId && p.gateway == gateway && p.amount == amount && p.movie == movie
  {
    Payment(paymentId, None, gateway, None, amount, "INR", Created, None, movie, None, None)
  }
}

module AccessModel {

  import opened Common

  /** The `paymentStatus` enum of an Access. */
  datatype AccessStatus = Pending | Success | Failed | Refunded
  {
    function Name(): string
    {
      match this
      case Pending => "pending"
      case Success => "success"
      case Failed => "failed"
      case Refunded => "refunded"
    }
  }

  const StatusNames: set<string> := {"pending", "success", "failed", "refunded"}

  /** The enum validator for `paymentStatus`. */
  function ParseStatus(s: string): (r: Option<AccessStatus>)
    ensures r.Some? <==> s in StatusNames
    ensures r.Some? ==> r.value.Name() == s
  {
    if s == "pending" then Some(Pending)
    else if s == "success" then Some(Success)
    else if s == "failed" then Some(Failed)
    else if s == "refunded" then Some(Refunded)
    else None
  }

  datatype Access = Access(
    accessId: string,
    user: Option<string>,
    movie: string,
    deviceId: Option<string>,
    token: string,
    startTime: Option<int>,
    expiryTime: int,
    playbackStarted: bool,
    paymentStatus: AccessStatus)
  {
    /** The required fields accessId, movie and token are present. */
    predicate SatisfiesSchema()
    {
      accessId != "" && movie != "" && token != ""
    }
  }

  /**
   * `new Access({...})` given only the required fields: no user, no device,
   * playback not started, no start time, payment status "pending".
   */
  function NewAccess(accessId: string, movie: string, token: string, expiryTime: int): (a: Access)
    ensures a.SatisfiesSchema() <==> accessId != "" && movie != "" && token != ""
    ensures !a.playbackStarted && a.startTime.None? && a.paymentStatus.Name() == "pending"
    ensures a.user.None? && a.deviceId.None? && a.expiryTime == expiryTime
    ensures a.accessId == accessId && a.movie == movie && a.token == token
  {
    Access(accessId, None, movie, None, token, None, expiryTime, false, Pending)
  }
}

module MovieModel {

  import opened Common

  /** The `status` enum of a Movie. */
  datatype MovieStatus = Draft | Published | Archived
  {
    function Name(): string
    {
      match this
      case Draft => "draft"
      case Published => "published"
      case Archived => "archived"
    }
  }

  const StatusNames: set<string> := {"draft", "published", "archived"}

  /** The enum validator for a movie's `status`. */
  function ParseStatus(s: string): (r: Option<MovieStatus>)
    ensures r.Some? <==> s in StatusNames
    ensures r.Some? ==> r.value.Name() == s
  {
    if s == "draft" then Some(Draft)
    else if s == "published" then Some(Published)
    else if s == "archived" then Some(Archived)
    else None
  }

  /** Prices are integer minor units; the duration is whole seconds. */
  datatype Movie = Movie(
    movieId: string,
    title: string,
    description: Option<string>,
    durationSeconds: nat,
    price: int,
    filePath: string,
    posterPath: Option<string>,
    status: MovieStatus)
  {
    /** The required fields movieId, title and filePath are present. */
    predicate SatisfiesSchema()
    {
      movieId != "" && title != "" && filePath != ""
    }
  }

  /** `new Movie({...})` given only the required fields: no description, no poster, status "draft". */
  function NewMovie(movieId: string, title: string, durationSeconds: nat, price: int, filePath: string): (m: Movie)
    ensures m.SatisfiesSchema() <==> movieId != "" && title != "" && filePath != ""
    ensures m.status.Name() == "draft" && m.description.None? && m.posterPath.None?
    ensures m.movieId == movieId && m.title == title && m.durationSeconds == durationSeconds
    ensures m.price == price && m.filePath == filePath
  {
    Movie(movieId, title, None, durationSeconds, price, filePath, None, Draft)
  }
}

module AdminModel {

  import opened Common

  /** The `role` enum of an Admin. */
  datatype Role = AdminRole | EditorRole
  {
    function Name(): string
    {
      match this
      case AdminRole => "admin"
      case EditorRole => "editor"
    }
  }

  /** The enum validator for `role`. */
  function ParseRole(s: string): (r: Option<Role>)
    ensures r.Some? <==> s == "admin" || s == "editor"
    ensures r.Some? ==> r.value.Name() == s
  {
    if s == "admin" then Some(AdminRole) else if s == "editor" then Some(EditorRole) else None
  }

  /** `id` is the document's `_id`, the key admins are looked up by. */
  datatype Admin = Admin(id: string, email: string, passwordHash: string, role: Role)
  {
    /** The required fields email and passwordHash are present. */
    predicate SatisfiesSchema()
    {
      email != "" && passwordHash != ""
    }
  }

  /** `new Admin({...})` without a role: the role defaults to "admin". */
  function NewAdmin(id: string, email: string, passwordHash: string): (a: Admin)
    ensures a.SatisfiesSchema() <==> email != "" && passwordHash != ""
    ensures a.role.Name() == "admin"
    ensures a.id == id && a.email == email && a.passwordHash == passwordHash
  {
    Admin(id, email, passwordHash, AdminRole)
  }
}

/** The fields of a User that the auth and admin routes read and write. */
module UserModel {

  import opened Common

  /**
   * A registered user, with the fields the auth and admin routes read and
   * write. `password` is what signup hands to the user document; the user
   * document's own handling of it (hashing, comparePassword) is foreign.
   */
  datatype User = User(
    userId: string,
    name: string,
    email: string,
    password: string,
    deviceIds: seq<string>,
    isActive: bool,
    lastLogin: Option<int>)
  {
    /** No device id is listed twice. */
    predicate DevicesDistinct()
    {
      forall i, j :: 0 <= i < j < |deviceIds| ==> deviceIds[i] != deviceIds[j]
    }
  }
}
