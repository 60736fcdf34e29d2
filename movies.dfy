/**
 * The movie routes: the retrying movie-id allocator, extraction of a media
 * host public id from an asset URL, the publish toggle and movie creation.
 */
module MovieRoutes {

  import opened Common
  import opened Text
  import opened Ids
  import opened MovieModel
  import opened Store

  const MoviePrefix := "M"
  const MovieSeed := "M10001"
  /** The default number of attempts of generateMovieId. */
  const DefaultRetries := 3

  /** The degraded id: "M" followed by the current timestamp. */
  function FallbackId(stamp: nat): (id: string)
    ensures |id| > 1 && id[0] == 'M' && AllDigits(id[1..])
    ensures ParseInt(id[1..]) == Some(stamp)
  {
    ParseIntOfNatToString(stamp);
    MoviePrefix + NatToString(stamp)
  }

  /**
   * What generateMovieId answers. Attempts in `throwsAt` fail with a database
   * error. Since nothing else writes the collection between attempts, every
   * attempt that reaches the database sees the same ids: the seed for an empty
   * collection, the free successor of the greatest id, or a collision; when no
   * attempt answers, the timestamp id.
   */
  ghost function MovieIdSpec(ids: set<string>, retries: int, throwsAt: set<nat>, stamp: nat): (id: string)
    ensures |id| > 0 && id[0] == 'M'
    ensures id != FallbackId(stamp) ==> id !in ids
    ensures (forall a: nat :: a < retries ==> a in throwsAt) ==> id == FallbackId(stamp)
  {
    if exists a: nat :: a < retries && a !in throwsAt then
      if ids == {} then MovieSeed
      else if AllocatedId(MoviePrefix, MovieSeed, ids) !in ids then AllocatedId(MoviePrefix, MovieSeed, ids)
      else FallbackId(stamp)
    else FallbackId(stamp)
  }

  /**
   * generateMovieId(retries). `stamp` is Date.now(). It never fails, always
   * answers an id starting with "M", and the id is unused unless it is the
   * timestamp fallback.
   */
  method GenerateMovieId(db: Database, retries: int, throwsAt: set<nat>, stamp: nat) returns (id: string)
    ensures id == MovieIdSpec(db.movies.Keys, retries, throwsAt, stamp)
    ensures |id| > 0 && id[0] == 'M'
    ensures id != FallbackId(stamp) ==> id !in db.movies
  {
    var ids := db.movies.Keys;
    var attempt: nat := 0;
    while attempt < retries
      invariant forall a: nat :: a < attempt ==> a in throwsAt || (ids != {} && AllocatedId(MoviePrefix, MovieSeed, ids) in ids)
    {
      if attempt in throwsAt {
        if attempt == retries - 1 {
          return FallbackId(stamp);
        }
      } else {
        if ids == {} {
          return MovieSeed;
        }
        var candidate := NextId(MoviePrefix, MovieSeed, ids);
        if candidate !in ids {
          return candidate;
        }
      }
      attempt := attempt + 1;
    }
    return FallbackId(stamp);
  }

  /**
   * Once "M99999" and "M100000" both exist, the greatest id in string order is
   * "M99999", its successor "M100000" is taken, and every attempt collides:
   * the allocator falls back to the timestamp id.
   */
  lemma MovieIdFallsBackAtWidthBoundary(retries: int, throwsAt: set<nat>, stamp: nat)
    ensures MovieIdSpec({"M99999", "M100000"}, retries, throwsAt, stamp) == FallbackId(stamp)
  {
    AllocatorRepeatsAtWidthBoundary(MoviePrefix, MovieSeed);
    assert MoviePrefix + "99999" == "M99999" && MoviePrefix + "100000" == "M100000";
  }

  // ---------------------------------------------------------- public ids

  /**
   * getCloudinaryPublicId: the path segments after the one that follows the
   * first "upload" segment, joined, and cut before the last "."; None for a
   * missing URL or one without an "upload" segment.
   */
  function CloudinaryPublicId(url: Option<string>): (r: Option<string>)
    ensures r.None? <==> !Truthy(url) || "upload" !in Split(url.value, '/')
  {
    if !Truthy(url) then None
    else
      var parts := Split(url.value, '/');
      var i := IndexOf(parts, "upload");
      if i == -1 then None
      else
        var rest := Join(SliceFrom(parts, i + 2), '/');
        Some(SubstringTo(rest, LastIndexOf(rest, '.')))
  }

  /** A version segment splits off on its own. */
  lemma VersionSegment(version: string, rest: string)
    requires '/' !in version
    ensures Split(version + ['/'] + rest, '/') == [version] + Split(rest, '/')
  {
    SplitAppend(version, rest, '/');
    SplitWithoutSeparator(version, '/');
  }

  /** The "upload" segment splits off on its own. */
  lemma UploadSegment(tail: string)
    ensures Split("upload" + ['/'] + tail, '/') == ["upload"] + Split(tail, '/')
  {
    SplitAppend("upload", tail, '/');
    SplitWithoutSeparator("upload", '/');
  }

  /** The segments of an upload URL: the base's, "upload", the version, the rest's. */
  lemma UploadUrlSegments(base: string, version: string, rest: string)
    requires '/' !in version
    ensures Split(base + "/upload/" + version + "/" + rest, '/')
            == Split(base, '/') + ["upload", version] + Split(rest, '/')
  {
    var tail := version + ['/'] + rest;
    var mid := "upload" + ['/'] + tail;
    assert base + "/upload/" + version + "/" + rest == base + ['/'] + mid;
    VersionSegment(version, rest);
    UploadSegment(tail);
    SplitAppend(base, mid, '/');
  }

  /** For an upload URL the remainder is everything after the version segment. */
  lemma UploadUrlRemainder(base: string, version: string, rest: string)
    requires "upload" !in Split(base, '/')
    requires '/' !in version
    ensures CloudinaryPublicId(Some(base + "/upload/" + version + "/" + rest))
            == Some(SubstringTo(rest, LastIndexOf(rest, '.')))
  {
    var url := base + "/upload/" + version + "/" + rest;
    UploadUrlSegments(base, version, rest);
    var head := Split(base, '/');
    var parts := Split(url, '/');
    assert parts == head + (["upload", version] + Split(rest, '/'));
    IndexOfAfter(head, ["upload", version] + Split(rest, '/'), "upload");
    assert parts[|head| + 2..] == Split(rest, '/');
    JoinSplit(rest, '/');
    assert url != [];
  }

  /**
   * The URL the media host builds from a public id (base, "upload", a version
   * segment, the public id, a format) gives that public id back.
   */
  lemma PublicIdRoundTrip(base: string, version: string, publicId: string, format: string)
    requires "upload" !in Split(base, '/')
    requires '/' !in version && '.' !in format
    ensures CloudinaryPublicId(Some(base + "/upload/" + version + "/" + publicId + "." + format)) == Some(publicId)
  {
    var rest := publicId + "." + format;
    assert base + "/upload/" + version + "/" + publicId + "." + format == base + "/upload/" + version + "/" + rest;
    UploadUrlRemainder(base, version, rest);
    LastIndexOfBefore(publicId, '.', format);
    assert rest[..|publicId|] == publicId;
  }

  /** A remainder without a "." yields the empty public id, not the remainder. */
  lemma PublicIdWithoutExtension(base: string, version: string, name: string)
    requires "upload" !in Split(base, '/')
    requires '/' !in version && '.' !in name
    ensures CloudinaryPublicId(Some(base + "/upload/" + version + "/" + name)) == Some("")
  {
    UploadUrlRemainder(base, version, name);
  }

  // --------------------------------------------------------------- publish

  /** The toggle: "published" becomes "draft", every other status "published". */
  function PublishToggled(s: MovieStatus): (t: MovieStatus)
    ensures t == Draft <==> s == Published
    ensures t == Published <==> s != Published
  {
    if s == Published then Draft else Published
  }

  /** PUT /:movieId/toggle-publish. Answers the new status, or None (404). */
  method TogglePublish(db: Database, movieId: string) returns (r: Option<MovieStatus>)
    requires db.Valid()
    modifies db
    ensures db.Valid()
    ensures db.payments == old(db.payments) && db.accesses == old(db.accesses)
    ensures db.users == old(db.users) && db.admins == old(db.admins)
    ensures movieId !in old(db.movies) ==> r == None && db.movies == old(db.movies)
    ensures movieId in old(db.movies) ==>
      && r == Some(PublishToggled(old(db.movies)[movieId].status))
      && db.movies == old(db.movies)[movieId := old(db.movies)[movieId].(status := r.value)]
  {
    if movieId !in db.movies {
      return None;
    }
    var m := db.movies[movieId];
    db.movies := db.movies[movieId := m.(status := PublishToggled(m.status))];
    r := Some(PublishToggled(m.status));
  }

  // ---------------------------------------------------------------- create

  datatype CreateMovieError = MissingTitleOrPrice | MissingMovieFile | DuplicateMovieId | MovieSaveFailed
  {
    function HttpStatus(): int
    {
      match this
      case MissingTitleOrPrice => 400
      case MissingMovieFile => 400
      case DuplicateMovieId => 409
      case MovieSaveFailed => 500
    }
  }

  /** The input checks of POST /: title and price first, then the movie file. */
  function CheckCreateMovie(title: Option<string>, price: Option<string>, hasMovieFile: bool): (r: Option<CreateMovieError>)
    ensures r.None? <==> Truthy(title) && Truthy(price) && hasMovieFile
    ensures !Truthy(title) || !Truthy(price) ==> r == Some(MissingTitleOrPrice)
    ensures r == Some(MissingMovieFile) <==> Truthy(title) && Truthy(price) && !hasMovieFile
  {
    if !Truthy(title) || !Truthy(price) then Some(MissingTitleOrPrice)
    else if !hasMovieFile then Some(MissingMovieFile)
    else None
  }

  /**
   * POST / (create a movie). The measured duration, the uploaded asset URLs
   * and the parsed price come from the media host and the request; the id
   * comes from generateMovieId with its default retries.
   */
  method CreateMovie(db: Database, title: Option<string>, description: Option<string>, price: Option<string>,
                     parsedPrice: int, hasMovieFile: bool, durationSeconds: nat, videoUrl: string,
                     posterUrl: Option<string>, throwsAt: set<nat>, stamp: nat)
    returns (r: Result<Movie, CreateMovieError>)
    requires db.Valid()
    modifies db
    ensures db.Valid()
    ensures db.payments == old(db.payments) && db.accesses == old(db.accesses)
    ensures db.users == old(db.users) && db.admins == old(db.admins)
    ensures r.Err? ==> db.movies == old(db.movies)
    ensures CheckCreateMovie(title, price, hasMovieFile).Some? ==> r == Err(CheckCreateMovie(title, price, hasMovieFile).value)
    ensures (CheckCreateMovie(title, price, hasMovieFile).None? && videoUrl != ""
               && MovieIdSpec(old(db.movies).Keys, DefaultRetries, throwsAt, stamp) in old(db.movies)) ==>
      r == Err(DuplicateMovieId)
    ensures r.Ok? <==>
      && CheckCreateMovie(title, price, hasMovieFile).None? && videoUrl != ""
      && MovieIdSpec(old(db.movies).Keys, DefaultRetries, throwsAt, stamp) !in old(db.movies)
    ensures r == Err(MovieSaveFailed) <==> CheckCreateMovie(title, price, hasMovieFile).None? && videoUrl == ""
    ensures r.Ok? ==>
      && CheckCreateMovie(title, price, hasMovieFile).None?
      && var id := MovieIdSpec(old(db.movies).Keys, DefaultRetries, throwsAt, stamp);
      && id !in old(db.movies)
      && r.value == Movie(id, title.value, description, durationSeconds, parsedPrice, videoUrl, posterUrl, Draft)
      && db.movies == old(db.movies)[id := r.value]
  {
    var check := CheckCreateMovie(title, price, hasMovieFile);
    if check.Some? {
      return Err(check.value);
    }
    var id := GenerateMovieId(db, DefaultRetries, throwsAt, stamp);
    var movie := NewMovie(id, title.value, durationSeconds, parsedPrice, videoUrl)
      .(description := description, posterPath := posterUrl);
    if !movie.SatisfiesSchema() {
      return Err(MovieSaveFailed);
    }
    if id in db.movies {
      return Err(DuplicateMovieId);
    }
    db.movies := db.movies[id := movie];
    r := Ok(movie);
  }
}
