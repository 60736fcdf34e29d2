# movie-purchaser backend: entitlement model

A Dafny model of the backend of a pay-per-view movie service (an Express
server over MongoDB). A viewer opens a payment order for a movie on a device.
The payment gateway's signature settles the order and mints an **Access**
record: a bearer token tied to the movie and the device, valid for the movie's
runtime plus a 30-minute grace period. Each playback asks `validate-access`,
which admits the token and marks when playback first started. Administrators
revoke accesses, toggle users and movies, and read revenue figures.

Layout, one module per source file:

- `common.dfy`: `Option`, `Result` and JavaScript truthiness of a request field.
- `text.dfy`: the JavaScript string primitives the routes rely on. These are
  `parseInt` on a decimal suffix, number formatting, first-occurrence
  `replace`, binary string order (the order of MongoDB's descending sort on a
  string key), and `split`/`join`/`indexOf`/`lastIndexOf`/`slice`/`substring`.
- `ids.dfy`: the shared shape of the four id allocators: take the greatest id
  in string order, strip the prefix, add one, format.
- `models.dfy`: the Payment, Access, Movie, Admin and User records, their enums
  with names and defaults, and the required-field checks of each schema.
- `store.dfy`: the `Database` class. It holds the five collections as maps
  keyed by record id, the HMAC, password-check and admin-email settings, and
  the invariant `Valid()`. `Valid()` says each record sits under its own key,
  schemas and unique indexes hold, payment links resolve, and user device lists
  have no duplicates.
- `payments.dfy`: the `create-order`, `verify` and `validate-access` handlers
  and the payment/access id allocators.
- `admin.dfy`: the admin role gate, revocation, the user toggle, and the
  dashboard revenue and active/expired figures.
- `movies.dfy`: the retrying movie-id allocator, public-id extraction from
  media URLs, toggle-publish, and movie creation.
- `auth.dfy`: user-id allocation, the signup validation chain with the email
  pattern, login (admin and user), and refresh-token renewal.

Handlers are module-level methods that take the `Database` and modify it.
Each states its whole effect: every outcome with its HTTP status, the new
contents of every collection it writes, and the unchanged ones. Each also
keeps `Valid()`.
Timestamps are integer milliseconds passed in as `now`. A save rejected by a
unique index (an id the allocator repeated, a token already used) becomes the
handler's server-error outcome.

## Model

| member | source | states |
|---|---|---|
| Text.NatToString | backend/src/routes/payments.routes.js:46 | the decimal form is non-empty, all digits, without a leading zero, one digit exactly below ten |
| Text.DigitsValueOfNatToString | backend/src/routes/payments.routes.js:45-46 | reading back the decimal form of n gives n |
| Text.LeadingDigits | backend/src/routes/payments.routes.js:45 | the longest all-digit prefix |
| Text.ParseInt | backend/src/routes/payments.routes.js:45 | parseInt fails (NaN) exactly for an empty string or one not starting with a digit |
| Text.ParseIntOfNatToString | backend/src/routes/payments.routes.js:45-46 | parseInt of a formatted number gives the number |
| Text.RemoveFirstOfPrefixed | backend/src/routes/payments.routes.js:45 | replacing the prefix in prefix+t leaves t |
| Text.RemoveFirst | backend/src/routes/payments.routes.js:45 | an empty pattern changes nothing; otherwise the string is unchanged or exactly one pattern length shorter |
| Text.RemoveFirstCutsFirstOccurrence | backend/src/routes/payments.routes.js:45 | the first occurrence of the pattern, and only it, is cut out |
| Text.RemoveFirstWithoutOccurrence | backend/src/routes/payments.routes.js:45 | a string without an occurrence of the pattern is left as it is |
| Text.LexLe | backend/src/routes/payments.routes.js:41 | a prefix sorts no later than the string it starts |
| Text.LexLeReflexive | backend/src/routes/payments.routes.js:41 | the sort order on ids is reflexive |
| Text.LexLeTotal | backend/src/routes/payments.routes.js:41 | any two ids are comparable |
| Text.LexLeAntisymmetric | backend/src/routes/payments.routes.js:41 | two ids each no greater than the other are equal |
| Text.LexLeTransitive | backend/src/routes/payments.routes.js:41 | the sort order is transitive |
| Text.Split | backend/src/routes/movies.routes.js:73 | at least one part, no part contains the separator |
| Text.JoinSplit | backend/src/routes/movies.routes.js:73-78 | joining the parts of a split restores the string |
| Text.Join | backend/src/routes/movies.routes.js:78 | the first part is a prefix of the result, followed by the separator when more parts follow |
| Text.SplitJoin | backend/src/routes/movies.routes.js:73-78 | splitting what was joined from separator-free parts gives the parts back |
| Text.SplitAppend | backend/src/routes/movies.routes.js:73 | splitting at a separator splits both sides independently |
| Text.SplitWithoutSeparator | backend/src/routes/movies.routes.js:73 | a string without the separator is its own single part |
| Text.IndexOf | backend/src/routes/movies.routes.js:74 | -1 exactly when absent, otherwise the first position |
| Text.IndexOfAfter | backend/src/routes/movies.routes.js:74 | the first "upload" is where the rest starts when the prefix lacks it |
| Text.LastIndexOf | backend/src/routes/movies.routes.js:81 | -1 exactly when absent, otherwise the last position |
| Text.LastIndexOfBefore | backend/src/routes/movies.routes.js:81 | the last "." is the one before an extension without dots |
| Text.SliceFrom | backend/src/routes/movies.routes.js:78 | for a start within the sequence, the part before it and the result make up the sequence; past the end, empty |
| Text.SubstringTo | backend/src/routes/movies.routes.js:81 | a prefix of the string, of length `end` when 0 <= end <= length, the whole string from the length on |
| Ids.LexMaxExists | backend/src/routes/payments.routes.js:41 | a non-empty id collection has a greatest id in sort order |
| Ids.LexMaxUnique | backend/src/routes/payments.routes.js:41 | that greatest id is unique, so the descending sort's first id is determined |
| Ids.LexMax | backend/src/routes/payments.routes.js:41 | the id the descending sort puts first |
| Ids.AllocatedId | backend/src/routes/payments.routes.js:40-57 | the seed for an empty collection, otherwise the successor of the greatest id in string order, which keeps the prefix and is longer than it |
| Ids.Successor | backend/src/routes/payments.routes.js:45-46 | the next id keeps the prefix and is longer than it |
| Ids.SuccessorOfFormatted | backend/src/routes/payments.routes.js:45-46 | the successor of prefix+n is prefix+(n+1) |
| Ids.NextId | backend/src/routes/payments.routes.js:40-47 | the seed for an empty collection, otherwise the successor of the greatest id in string order |
| Ids.LexLeCommonPrefix | backend/src/routes/payments.routes.js:41 | under a shared prefix the order is decided by the suffixes |
| Ids.LexLeSameLengthHeads | backend/src/routes/payments.routes.js:41 | equal-length strings are ordered by their first difference |
| Ids.SameWidthOrder | backend/src/routes/payments.routes.js:41 | for numbers of equal digit count, string order is numeric order |
| Ids.AllocatedFreshWithinWidth | backend/src/routes/payments.routes.js:40-47 | while all ids have one digit width, the allocator answers the numeric successor of the greatest, unused while the width holds |
| Ids.AllocatorRepeatsAtWidthBoundary | backend/src/routes/payments.routes.js:40-47 | with ids prefix+"99999" and prefix+"100000" the allocator answers prefix+"100000", an id already taken |
| PaymentModel.ParseStatus | backend/src/models/Payment.js:12 | exactly the five status names parse, each to the status of that name |
| PaymentModel.NewPayment | backend/src/models/Payment.js:5-17 | the given paymentId, gateway, amount and movie are stored; defaults: status "created", currency "INR", null references; schema holds iff paymentId, gateway and movie are present |
| AccessModel.ParseStatus | backend/src/models/Access.js:14 | exactly the four paymentStatus names parse |
| AccessModel.NewAccess | backend/src/models/Access.js:5-15 | the given accessId, movie, token and expiry are stored; defaults: playback not started, no start time, paymentStatus "pending", null user and device; schema iff accessId, movie, token present |
| MovieModel.ParseStatus | backend/src/models/Movie.js:12 | exactly draft, published and archived parse |
| MovieModel.NewMovie | backend/src/models/Movie.js:4-13 | the given id, title, duration, price and file path are stored; default status "draft", no description or poster; schema iff movieId, title and filePath present |
| AdminModel.ParseRole | backend/src/models/Admin.js:7 | exactly "admin" and "editor" parse |
| AdminModel.NewAdmin | backend/src/models/Admin.js:4-8 | the given id, email and hash are stored; default role "admin"; schema iff email and passwordHash present |
| Store.InsertAccess | backend/src/models/Access.js:6-10 | a new Access under a fresh id with an unused token keeps the accessId and token unique indexes |
| Store.UpdateAccess | backend/src/models/Access.js:6-10 | changing an Access in place without its id or token keeps both unique indexes |
| Store.Database.Valid | backend/src/models/Access.js:5-15 | each record sits under its own id and has its required fields, accessId and token are unique, payment links resolve, user emails are unique and device lists have no duplicates |
| Payments.GeneratePaymentId | backend/src/routes/payments.routes.js:40-47 | "PAY10001" for no payments, otherwise "PAY" + successor of the greatest paymentId in string order |
| Payments.GenerateAccessId | backend/src/routes/payments.routes.js:50-57 | "ACC10001" for no accesses, otherwise "ACC" + successor of the greatest accessId in string order |
| Payments.IsActive | backend/src/routes/payments.routes.js:86-91 | an active Access is one validate-access plays; a playable one is active unless now is exactly its expiry instant |
| Payments.LiveEntitlement | backend/src/routes/payments.routes.js:86-91 | the create-order guard holds of an active Access (strictly before its expiry, paid) for that movie whose device matches, so validate-access would play it there; conversely every such Access satisfies it |
| Common.Truthy | backend/src/routes/payments.routes.js:69 | `!field` is false: the field is present and not the empty string |
| Payments.CreateOrder | backend/src/routes/payments.routes.js:65-149 | missing fields 400, unknown movie 404, refused iff a live paid Access exists for that movie and device; a save failure iff the allocated id is already taken; succeeds iff every guard passes and the allocated id is free, creating exactly one "created" razorpay/INR payment at the movie's price, caller and device, no Access; nothing persisted on any refusal |
| Payments.Settled | backend/src/routes/payments.routes.js:184-192 | status becomes success whatever it was, gatewayPaymentId set, user becomes the authenticated caller when there is one and is kept otherwise, nothing else changes |
| Payments.SignatureAccepted | backend/src/routes/payments.routes.js:166-174 | accepted iff the signature is the literal "simulated_signature" (whatever the secret) or equals the HMAC of "orderId\|paymentId" |
| Payments.ExpiryTime | backend/src/routes/payments.routes.js:195-196 | the expiry is at least 30 minutes after now, and exactly runtime plus 1800 whole seconds after it |
| Payments.Minted | backend/src/routes/payments.routes.js:203-211 | the minted Access carries the allocated id, the payment's movie and device, the caller, the token and the expiry, with paymentStatus success, playback not started and no start time |
| Payments.MintedIsLive | backend/src/routes/payments.routes.js:195-196 | a freshly minted Access is active, plays until now + (duration + 1800) * 1000 inclusive, and is expired after |
| Payments.Verify | backend/src/routes/payments.routes.js:152-238 | unknown order 404 with no change; a rejected signature marks the payment failed and mints nothing; an accepted one (HMAC of "order\|payment" or the literal bypass, prior status not consulted) settles the payment, mints the Access with the fixed expiry and links it, or (movie gone, id or token taken) leaves the payment settled with no Access |
| Payments.Decide | backend/src/routes/payments.routes.js:262-278 | expired iff now > expiry (so the expiry instant still plays), else unpaid iff status is not success, else playable |
| Payments.Matches | backend/src/routes/payments.routes.js:252 | the lookup of validate-access: the token and the device both match |
| Payments.MatchIsUnique | backend/src/routes/payments.routes.js:252 | with the token index unique, at most one stored Access matches a token and device |
| Payments.StartPlayback | backend/src/routes/payments.routes.js:280-285 | the marker is set, the start time is set only the first time, nothing else changes |
| Payments.StartPlaybackOnce | backend/src/routes/payments.routes.js:280-285 | a later validation keeps the first start time |
| Payments.ValidateAccess | backend/src/routes/payments.routes.js:241-304 | missing input 400; no record matching token and device together 404; then expired, then unpaid, each changing nothing; a playable record gets the one-way marker and answers its id, expiry and the movie's path |
| AdminRoutes.RequireAdmin | backend/src/routes/admin.routes.js:13-23 | admits iff an Admin with that id exists and its role is "admin"; an editor is refused |
| AdminRoutes.Revoked | backend/src/routes/admin.routes.js:216 | revocation sets expiryTime to now and changes no other field |
| AdminRoutes.RevokedIsExpired | backend/src/routes/admin.routes.js:216 | a revoked record is not active, and validate-access refuses it at every strictly later instant |
| AdminRoutes.RevokeAccess | backend/src/routes/admin.routes.js:207-227 | unknown id 404 with no change; otherwise only that record's expiry changes |
| AdminRoutes.StatusToggled | backend/src/routes/admin.routes.js:173 | isActive flips and nothing else in the user changes |
| AdminRoutes.ToggleTwiceRestores | backend/src/routes/admin.routes.js:165-188 | toggling the same user twice restores the users collection |
| AdminRoutes.ToggleUserStatus | backend/src/routes/admin.routes.js:165-188 | unknown user 404 with no change; otherwise isActive of that user flips and is answered |
| AdminRoutes.SuccessfulPayments | backend/src/routes/admin.routes.js:35 | exactly the payments with status success, no more of them than payments |
| AdminRoutes.SumAmounts | backend/src/routes/admin.routes.js:36 | with non-negative amounts the sum is non-negative and at least every single amount |
| AdminRoutes.TotalRevenue | backend/src/routes/admin.routes.js:35-36 | non-negative when amounts are, and zero when no payment succeeded |
| AdminRoutes.TotalPayments | backend/src/routes/admin.routes.js:35-37 | at most the number of payments, and zero exactly when no payment succeeded |
| AdminRoutes.SuccessfulAppend | backend/src/routes/admin.routes.js:35 | the filter distributes over concatenation |
| AdminRoutes.SumAppend | backend/src/routes/admin.routes.js:36 | the amount sum distributes over concatenation |
| AdminRoutes.RevenueAppend | backend/src/routes/admin.routes.js:35-37 | revenue and payment count add up over any split of the collection |
| AdminRoutes.RevenueOfOne | backend/src/routes/admin.routes.js:35-37 | a single payment contributes its amount and one only when successful |
| AdminRoutes.SettlingRaisesRevenue | backend/src/routes/admin.routes.js:35-37 | settling a payment as verify does raises revenue by its amount and count by one unless it was already successful |
| AdminRoutes.ActiveAccessIds | backend/src/routes/admin.routes.js:41-44 | ids of the collection whose records validate-access plays, including every playable one not at its expiry instant |
| AdminRoutes.ExpiredAccessIds | backend/src/routes/admin.routes.js:45-47 | ids of the collection whose records are not active, including every one validate-access refuses as expired |
| AdminRoutes.ActiveExpiredPartition | backend/src/routes/admin.routes.js:40-47 | active and expired sets are disjoint, their counts fit in the collection, an unexpired unpaid record is in neither |
| AdminRoutes.RevocationMovesToExpired | backend/src/routes/admin.routes.js:40-47 | after revocation at now the record is counted expired, and the active set loses exactly that record |
| MovieRoutes.GenerateMovieId | backend/src/routes/movies.routes.js:26-65 | never fails, answers an id starting with "M" that is unused unless it is the timestamp fallback; the seed for an empty collection, the free successor when an attempt gets through, else "M" + timestamp |
| MovieRoutes.FallbackId | backend/src/routes/movies.routes.js:64 | "M" followed by digits that parse back to the timestamp |
| MovieRoutes.MovieIdSpec | backend/src/routes/movies.routes.js:26-65 | starts with "M", unused unless it is the timestamp id, and the timestamp id when every attempt throws |
| MovieRoutes.MovieIdFallsBackAtWidthBoundary | backend/src/routes/movies.routes.js:30-64 | once "M99999" and "M100000" exist every attempt collides and the timestamp id is answered |
| MovieRoutes.CloudinaryPublicId | backend/src/routes/movies.routes.js:68-87 | null exactly for a missing or empty URL or one without an "upload" segment |
| MovieRoutes.VersionSegment | backend/src/routes/movies.routes.js:73 | a version segment splits off as one part |
| MovieRoutes.UploadSegment | backend/src/routes/movies.routes.js:73 | the "upload" segment splits off as one part |
| MovieRoutes.UploadUrlSegments | backend/src/routes/movies.routes.js:73 | an upload URL splits into the base's parts, "upload", the version, the rest's parts |
| MovieRoutes.UploadUrlRemainder | backend/src/routes/movies.routes.js:73-81 | the remainder taken is everything after the version segment |
| MovieRoutes.PublicIdRoundTrip | backend/src/routes/movies.routes.js:68-87 | for base/upload/version/publicId.format the public id is returned, with any slashes and dots inside it |
| MovieRoutes.PublicIdWithoutExtension | backend/src/routes/movies.routes.js:81 | a remainder without a "." gives the empty id |
| MovieRoutes.PublishToggled | backend/src/routes/movies.routes.js:394 | published becomes draft; every other status, archived included, becomes published |
| MovieRoutes.TogglePublish | backend/src/routes/movies.routes.js:387-407 | unknown movie 404 with no change; otherwise only that movie's status toggles |
| MovieRoutes.CheckCreateMovie | backend/src/routes/movies.routes.js:209-218 | missing title or price first, then missing movie file, else accepted |
| MovieRoutes.CreateMovie | backend/src/routes/movies.routes.js:200-300 | input checks 400; a save failure iff the checks pass but the video URL is empty; an id collision 409; succeeds iff the checks pass, the video URL is present and the allocated id is free, adding one draft movie under that id with the given fields |
| AuthRoutes.GenerateUserId | backend/src/routes/auth.routes.js:11-18 | "U10001" for no users, otherwise "U" + successor of the greatest userId, with no collision check |
| AuthRoutes.IsJsWhitespace | backend/src/routes/auth.routes.js:51 | among ASCII characters exactly space and tab through carriage return; never "@" or "." |
| AuthRoutes.MatchesEmailPattern | backend/src/routes/auth.routes.js:51 | a match has at least five characters, an "@", and does not start with "@" |
| AuthRoutes.ValidEmail | backend/src/routes/auth.routes.js:51-52 | an accepted email has at least five characters, an "@", and does not start with "@" |
| AuthRoutes.RunOfStretch | backend/src/routes/auth.routes.js:51 | a non-empty stretch of allowed characters is a run of the pattern |
| AuthRoutes.StretchOfRun | backend/src/routes/auth.routes.js:51 | every character of a run is allowed |
| AuthRoutes.AbsentFromStretch | backend/src/routes/auth.routes.js:51 | a character at no position of a stretch is not in it |
| AuthRoutes.ValidEmailMatchesPattern | backend/src/routes/auth.routes.js:51-52 | what the direct test accepts, the regular expression matches |
| AuthRoutes.MatchIsValidEmail | backend/src/routes/auth.routes.js:51-52 | a match with "@" at i and "." at j passes the direct test |
| AuthRoutes.PatternIsValidEmail | backend/src/routes/auth.routes.js:51-52 | what the regular expression matches, the direct test accepts |
| AuthRoutes.ValidEmailIffPattern | backend/src/routes/auth.routes.js:51-57 | accepted iff no whitespace, exactly one "@" with something before it, and a "." with characters on both sides after it |
| AuthRoutes.SignupCheck | backend/src/routes/auth.routes.js:43-73 | missing fields, then email pattern, then password under 6, then the reserved admin email, each iff its condition and the earlier ones pass |
| AuthRoutes.EmailRegistered | backend/src/routes/auth.routes.js:76 | some user already has this email |
| AuthRoutes.Signup | backend/src/routes/auth.routes.js:38-120 | the checks, then a registered email 409, then a save failure (500) iff the allocated userId is already taken, otherwise one new active user under the allocated id with deviceIds [deviceId] or [] |
| AuthRoutes.AddDeviceId | backend/src/routes/auth.routes.js:206-208 | the old list stays a prefix, grows by at most one, and holds exactly the old ids plus the given one |
| AuthRoutes.AddDeviceIdKeepsDistinct | backend/src/routes/auth.routes.js:206-208 | a duplicate-free device list stays duplicate-free |
| AuthRoutes.AddDeviceIdIdempotent | backend/src/routes/auth.routes.js:206-208 | adding the same device again changes nothing |
| AuthRoutes.LoggedIn | backend/src/routes/auth.routes.js:205-212 | login records the device and lastLogin and keeps identity, password and active flag |
| AuthRoutes.AdminAccepts | backend/src/routes/auth.routes.js:140-157 | an admin document with that email exists and the password matches its stored hash |
| AuthRoutes.Login | backend/src/routes/auth.routes.js:123-238 | missing fields 400; the admin email is checked only against admins (401 unless a matching hash); otherwise unknown email 401, disabled 403 before the password, wrong password 401, success records device and lastLogin |
| AuthRoutes.RefreshToken | backend/src/routes/auth.routes.js:241-300 | missing token 400; renewed iff the token verifies and its admin exists, or its user exists and is active; the new tokens carry the same claims |
| AuthRoutes.SubjectLive | backend/src/routes/auth.routes.js:255-282 | an admin subject must still exist; a user subject must exist and be active |

## Left out

- Payment gateway order creation (payments.routes.js:104-115) is a parameter, the gateway order id. Its failure (a 500) is not modelled, and `meta` keeps only that id, not the whole gateway order.
- The paise amount `Math.round(movie.price * 100)` goes only to the gateway and is not modelled. Prices and amounts are integers, not JavaScript numbers.
- CreateMovie: the price is taken as an already parsed integer. `parseFloat` and a non-numeric price (a cast error, 500) are not modelled.
- CreateMovie: the media-host uploads and the rollback deletions are not modelled. The asset URLs are parameters, and the video duration is a natural number parameter. A request without multipart files (a type error, 500) is not modelled either.
- HMAC-SHA256 keyed with the gateway secret is the uninterpreted function `Database.hmac`.
- bcrypt comparison is `Database.passwordMatches`.
- The random bearer token is a parameter of `Verify`, and the clock is the `now` parameter.
- JWT signing and verification are not modelled. `RefreshToken` takes the verified claims (or None) as a parameter and answers the claims the new tokens carry.
- `authenticateToken`, `getUserFromToken` and the JWT service are not modelled. Callers appear as the already-decoded `caller`/`adminId`.
- User.js is not part of this model. The User record holds the fields the routes read and write. It assumes `isActive` defaults to true and `userId` is unique. Signup's `password` is stored as given; any hashing hook in the user document is foreign, and login's password comparison is `passwordMatches`.
- Concurrency: each handler runs atomically over the maps, and interleavings between a read and its save are not modelled.
- The entitlement guard of create-order consults Access records only. Two orders opened for the same movie and device before either is verified both pass it, and verifying both mints two live accesses. So "at most one live access per movie and device" is not an invariant of the source, and the model does not claim it.
- `parseInt` is modelled on a leading run of decimal digits. JavaScript's skipping of whitespace, signs and radix prefixes is not modelled; allocated ids never contain them.
- Text.LexLe: string order is compared by character code point. MongoDB's byte order agrees with it on the ASCII ids the allocators produce.
- Read-only and listing endpoints are not modelled: dashboard counts of movies and users, recent payments, top movies, `/payments`, `/users`, `/access`, user details, the public movie list and details, `/my-purchases` and `/profile`. Movie update and delete are not modelled either.
- AuthRoutes.SignupCheck: the password length is counted in characters, not UTF-16 code units as JavaScript counts them; the two differ only for characters outside the Basic Multilingual Plane.
- Payments.Verify: a save that fails after the payment is settled answers 500 and leaves the payment settled. The model states that state; it does not model a partially written Access.
- Revocation at instant `now` is counted expired by the dashboard at `now`, but validate-access still admits it at that same instant (only `now > expiryTime` is refused). `AdminRoutes.RevokedIsExpired` states both.
- Text.NatToString: numbers are unbounded integers here. In JavaScript the counter is a double, exact only below 2^53, and `${n}` switches to exponent notation from 1e21 on; ids that large are not modelled.
- Ids.Successor: adds one to an unbounded integer; the loss of precision of JavaScript numbers from 2^53 on is not modelled.
- Ids.SuccessorOfFormatted: holds for every natural number here; in JavaScript it fails from 2^53 on, where adding one can leave a double unchanged.
- Payments.CreateOrder: `movieId` and `deviceId` are strings or absent. A JSON body sending an object instead (a MongoDB query operator such as `{"$ne": ""}` reaching `findOne`) is not modelled.
- Payments.Verify: `orderId`, the gateway ids and the signature are strings; a missing body field, or an object sent as `orderId` that turns `Payment.findOne({ paymentId: orderId })` into a query matching another payment, is not modelled.
- Payments.ValidateAccess: `token` and `deviceId` are strings or absent. An object sent instead, such as `{"$ne": ""}`, would turn the `findOne` into a query matching other records; that is not modelled.
- AuthRoutes.Signup: request fields are strings or absent; object-valued fields are not modelled.
- AuthRoutes.Login: request fields are strings or absent; an object-valued email reaching `findOne` is not modelled.
- AdminRoutes.TotalRevenue: the dashboard query is modelled over a sequence listing the payments collection; the figures over any split of that listing add up (`AdminRoutes.RevenueAppend`).
