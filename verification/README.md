# AfriLearn server and language rules in Dafny

AfriLearn is a tutoring platform. Its Express server keeps users, tutor and student profiles,
sessions, attendance, payments, payouts, learning content and reviews in Postgres. The browser
client translates its interface into English, French and Swahili. This project models four things:

- the server's request guards (the per-IP rate limiter, `authenticate` and `requireRole`);
- the route handlers' decisions (status codes, the fields forced onto a request, what is stored);
- the storage layer's queries and updates;
- the two pure client rules: `translate` and the language provider's initial choice and `setLanguage`.

It then proves what these promise. Every handler is a pure function. It takes the caller (or the
`Authorization` header), the request fields and the store, and returns a status code, the record
the JSON body carries, and the new store.

Layout, one module per file:

| module | file | models |
|---|---|---|
| `Wrappers` | wrappers.dfy | `Option` |
| `Text` | text.dfy | JavaScript `String.prototype.split` on one character, and `parseInt` without a radix (decimal, or hexadecimal after a `0x` prefix) |
| `Schema` | schema.dfy | shared/schema.ts: enums and labels, row records, request fields, column defaults, update merge |
| `Tables` | tables.dfy | an id-keyed table with a serial counter, filtered selection, first match, sorting |
| `Storage` | storage.dfy | server/storage.ts `DatabaseStorage` over nine in-memory tables |
| `Http` | http.dfy | the authenticated caller, the reply, the password-free user view |
| `Guards` | guards.dfy | `rateLimit`, `authenticate`, `requireRole` |
| `AuthRoutes`, `UserRoutes`, `ProfileRoutes`, `SessionRoutes`, `PaymentRoutes`, `ContentRoutes`, `ReviewRoutes` | *_routes.dfy | the handlers in server/routes.ts |
| `I18n` | i18n.dfy | client/src/lib/i18n.ts |
| `LanguageContext` | language_context.dfy | client/src/contexts/language-context.tsx |

Modelling conventions:

- **Request fields.** A JSON body field is a `Field<T>`: `Absent`, `Null` or `Given(v)`. Insert
  schemas require their `notNull` columns without defaults to be `Given`. Partial (update) schemas
  refuse `Null` for those columns. A `Fields` datatype lists exactly the columns its insert schema
  keeps, so a client can never supply `id`, `createdAt`, `updatedAt`, or the columns a schema
  omits, such as `processingFee` or the tutor aggregates.
- **Tables.** A table is a map from id to row plus the next serial id. `Storage.Valid` says every
  table is keyed by its rows' own ids below the counter, and users' emails (and present phones)
  are unique.
- **Query results.** They are stated with `Tables.Exactly`: every listed row is stored and
  matches, every stored match is listed, and none is listed twice. Unordered queries list rows by
  ascending id. That order is a modelling choice the contracts do not promise.
- **Time.** Instants are integers in milliseconds, and `now` is a parameter.
- **Crypto and randomness.** bcrypt, JWT and the random meeting link are parameters.

Behaviour of the code worth knowing, modelled as the code has it:

- Session creation performs no double-booking check.
- A client may choose the initial status of a session or a payment.
- The 5% processing fee the payment handler computes is dropped by `insertPaymentSchema`, so the
  stored fee is the column default 0.
- The webhook updates nothing.
- Reviews need no completed session and do not touch rating aggregates.
- Login never writes `lastLoginAt`.
- The refresh endpoint accepts any valid access token.
- `authenticate` ignores `isActive`, so a deactivated user can switch their account back on
  through `PATCH /api/users/me`.

## Model

| member | source | states |
|---|---|---|
| Text.Split | client/src/lib/i18n.ts:26 | a split always yields at least one piece, and no piece holds the separator |
| Text.SplitLength | client/src/lib/i18n.ts:26-27 | a split on one character yields one more piece than the string has separators |
| Text.JoinSplit | client/src/lib/i18n.ts:26 | joining the pieces of a split with the separator gives back the original string |
| Text.SplitJoin | client/src/lib/i18n.ts:26 | splitting separator-free pieces joined by the separator gives back the pieces |
| Text.ParseInt | server/routes.ts:543-547 | parseInt reads a number only from text that holds a decimal digit |
| Text.ParseIntSkipsSpace | server/routes.ts:543-547 | a leading white-space character (tab, line terminators, any space separator, byte order mark) makes no difference to parseInt |
| Text.ParseIntOfRendering | server/routes.ts:543-547 | parseInt reads a decimal rendering of n (optionally signed, followed by non-digit text) back as n |
| Text.ParseIntTrailingText | server/routes.ts:543-547 | parseInt stops at the first non-digit: "12abc" reads as 12 |
| Text.ParseIntHexPrefix | server/routes.ts:543-547 | parseInt without a radix reads a 0x prefix as hexadecimal: "0x10" reads as 16 |
| Text.ParseIntOfMagnitude | server/routes.ts:543-547 | text starting with a digit reads as its magnitude, and with a minus sign in front as its negation |
| Text.ParseIntNoDigits | server/routes.ts:543-547 | a string with no leading digits reads as NaN (None) |
| Schema.ParseSessionStatus | shared/schema.ts:24 | exactly the four session_status labels are accepted, each read as the status it labels |
| Schema.ParsePaymentStatus | shared/schema.ts:25 | exactly the five payment_status labels are accepted; "completed" is the paid status |
| Schema.ParseRole | shared/schema.ts:21 | exactly the four user_role labels are accepted |
| Schema.ParseLanguage | shared/schema.ts:23 | exactly the three language labels are accepted |
| Schema.LabelsRoundTrip | shared/schema.ts:21-25 | every enum value's label is read back as the same value |
| Schema.UserRowDetermined | shared/schema.ts:30-74 | the insert and the update relation for users each fix every column of the resulting row |
| Schema.TutorProfileRowDetermined | shared/schema.ts:76-100 | the insert and the update relation for tutor profiles each fix every column of the resulting row |
| Schema.StudentProfileRowDetermined | shared/schema.ts:102-126 | the insert and the update relation for student profiles each fix every column of the resulting row |
| Schema.SessionRowDetermined | shared/schema.ts:128-165 | the insert and the update relation for sessions each fix every column of the resulting row |
| Schema.PaymentRowDetermined | shared/schema.ts:190-218 | the insert and the update relation for payments each fix every column of the resulting row |
| Schema.PayoutRowDetermined | shared/schema.ts:220-241 | the insert and the update relation for payouts each fix every column of the resulting row |
| Schema.ContentRowDetermined | shared/schema.ts:243-272 | the insert and the update relation for content each fix every column of the resulting row |
| Schema.ReviewRowDetermined | shared/schema.ts:274-299 | the insert relation for reviews fixes every column of the resulting row |
| Schema.MergeTwice | shared/schema.ts:301-355 | applying the same field merge twice equals applying it once |
| Schema.SessionFieldsIdempotent | shared/schema.ts:128-147 | applying a session patch twice at the same instant equals applying it once |
| Schema.NoSessionFieldsOnlyTouchUpdatedAt | shared/schema.ts:128-147 | an empty session patch changes only updatedAt |
| Tables.Select | server/storage.ts:228-234 | a filter query returns exactly the stored rows that match, each once |
| Tables.SelectSorted | server/storage.ts:236-260 | an ordered filter query returns exactly the stored rows that match, each once, ordered by the key |
| Tables.FirstWhere | server/storage.ts:109-117 | a lookup by a non-key column finds a matching stored row exactly when one exists |
| Tables.SortBy | server/storage.ts:246 | sorting yields a permutation of its input, ordered by the key |
| Tables.AppendKeyed | server/storage.ts:119-122 | an insert under the serial id keeps the table keyed by its rows' ids |
| Tables.ReplaceKeyed | server/storage.ts:124-131 | replacing a row under its own id keeps the table keyed |
| Storage.EmptyStoreValid | shared/schema.ts:30-282 | the empty database meets the key and uniqueness invariants |
| Storage.GetUser | server/storage.ts:104-107 | the user with the id, or none exactly when it is absent |
| Storage.UserByEmail | server/storage.ts:109-112 | the unique user with the email, or none when no user has it |
| Storage.UserByPhone | server/storage.ts:114-117 | the unique user with the phone, or none when no user has it |
| Storage.CreateUser | server/storage.ts:119-122 | refused exactly when the email or a present phone clashes with a stored user, and a refused insert still uses up the serial id; otherwise the row gets a fresh id, every given column is stored as given, a nulled one as null, an absent one as its default (role student, active, no last login), and uniqueness is kept |
| Storage.UpdateUser | server/storage.ts:124-131 | undefined exactly for a missing id, refused exactly when the patch would duplicate another user's email or phone; otherwise every given column takes the new value, a nulled one becomes null, an absent one keeps its value, updatedAt is now, and no other row changes |
| Storage.DeactivateUser | server/storage.ts:133-140 | true exactly when the user exists; isActive becomes false and updatedAt is refreshed; nothing else changes |
| Storage.UnchangedContactsNoClash | server/storage.ts:124-131 | a patch that leaves the email and phone alone never collides with another user |
| Storage.GetTutorProfile | server/storage.ts:143-146 | the tutor profile with the id, or none exactly when absent |
| Storage.TutorProfileByUserId | server/storage.ts:148-151 | a tutor profile of the user, or none exactly when the user has none |
| Storage.CreateTutorProfile | server/storage.ts:153-156 | a fresh profile in which every given column is stored as given, a nulled one as null, an absent one as its default; the rating average, ratings count and completed sessions start at 0 |
| Storage.UpdateTutorProfile | server/storage.ts:158-165 | undefined exactly for a missing id; otherwise every given column takes the new value, a nulled one becomes null, an absent one keeps its value, updatedAt is now, the aggregates do not change, and no other row changes |
| Storage.TutorsBySubject | server/storage.ts:167-173 | exactly the profiles whose subjects contain the subject |
| Storage.TutorsByRating | server/storage.ts:175-177 | exactly the profiles whose rating average is at least the minimum |
| Storage.GetStudentProfile | server/storage.ts:180-183 | the student profile with the id, or none exactly when absent |
| Storage.StudentProfileByUserId | server/storage.ts:185-188 | a student profile of the user, or none exactly when the user has none |
| Storage.CreateStudentProfile | server/storage.ts:190-193 | a fresh profile under the next id in which every given column is stored as given, a nulled one as null, an absent one as its default; nothing else changes |
| Storage.UpdateStudentProfile | server/storage.ts:195-202 | undefined exactly for a missing id; otherwise every given column takes the new value, a nulled one becomes null, an absent one keeps its value, updatedAt is now, and no other row changes |
| Storage.StudentsByParent | server/storage.ts:204-206 | exactly the profiles with the parent id |
| Storage.GetSession | server/storage.ts:209-212 | the session with the id, or none exactly when absent |
| Storage.CreateSession | server/storage.ts:214-217 | a fresh session in which every given column is stored as given, a nulled one as null, an absent one as its default (status scheduled); nothing else changes |
| Storage.UpdateSession | server/storage.ts:219-226 | undefined exactly for a missing id; otherwise every given column takes the new value, a nulled one becomes null, an absent one keeps its value, updatedAt is now, and no other row changes |
| Storage.SessionsByStudent | server/storage.ts:228-230 | exactly the sessions with the student id |
| Storage.SessionsByTutor | server/storage.ts:232-234 | exactly the sessions with the tutor id |
| Storage.UpcomingSessions | server/storage.ts:236-247 | exactly the sessions the user takes part in that start at or after now, whatever their status, earliest first |
| Storage.PastSessions | server/storage.ts:249-260 | exactly the sessions the user takes part in that ended at or before now, latest first |
| Storage.RecordAttendance | server/storage.ts:263-266 | a fresh attendance row carrying the given session, user, times and duration |
| Storage.SessionAttendance | server/storage.ts:268-270 | exactly the attendance rows of the session |
| Storage.GetPayment | server/storage.ts:273-276 | the payment with the id, or none exactly when absent |
| Storage.CreatePayment | server/storage.ts:278-281 | a fresh payment in which every given column is stored as given, a nulled one as null, an absent one as its default (status pending), with processing fee 0 |
| Storage.UpdatePayment | server/storage.ts:283-290 | undefined exactly for a missing id; otherwise every given column takes the new value, a nulled one becomes null, an absent one keeps its value, the fee never changes, updatedAt is now, and no other row changes |
| Storage.PaymentsByUser | server/storage.ts:292-294 | exactly the payments of the user |
| Storage.PaymentsBySession | server/storage.ts:296-298 | exactly the payments of the session |
| Storage.PaymentsInEscrow | server/storage.ts:300-302 | exactly the payments whose status is held_in_escrow |
| Storage.GetPayout | server/storage.ts:305-308 | the payout with the id, or none exactly when absent |
| Storage.CreatePayout | server/storage.ts:310-313 | a fresh payout in which every given column is stored as given, a nulled one as null, an absent one as its default (pending), with fee 0 and no processing time |
| Storage.UpdatePayout | server/storage.ts:315-322 | undefined exactly for a missing id; otherwise every given column takes the new value, a nulled one becomes null, an absent one keeps its value; the table has no updatedAt, and no other row changes |
| Storage.PayoutsByTutor | server/storage.ts:324-326 | exactly the payouts of the tutor |
| Storage.GetContent | server/storage.ts:329-332 | the content item with the id, or none exactly when absent |
| Storage.CreateContent | server/storage.ts:334-337 | a fresh item in which every given column is stored as given, a nulled one as null, an absent one as its default (private, online-only, English) |
| Storage.UpdateContent | server/storage.ts:339-346 | undefined exactly for a missing id; otherwise every given column takes the new value, a nulled one becomes null, an absent one keeps its value, updatedAt is now, and no other row changes |
| Storage.ContentBySession | server/storage.ts:348-350 | exactly the items of the session |
| Storage.ContentByCreator | server/storage.ts:352-354 | exactly the items of the creator |
| Storage.PublicContent | server/storage.ts:356-358 | exactly the items marked public |
| Storage.OfflineAvailableContent | server/storage.ts:360-362 | exactly the items marked for offline use |
| Storage.GetReview | server/storage.ts:365-368 | the review with the id, or none exactly when absent |
| Storage.CreateReview | server/storage.ts:370-373 | a fresh review in which every given column is stored as given, a nulled one as null, an absent one as its default; the student, tutor and rating are as given |
| Storage.ReviewsByTutor | server/storage.ts:375-377 | exactly the reviews of the tutor |
| Storage.ReviewsByStudent | server/storage.ts:379-381 | exactly the reviews by the student |
| Storage.ReviewsBySession | server/storage.ts:383-385 | exactly the reviews of the session |
| Http.WithoutPassword | server/routes.ts:180-181 | the reply's user view keeps the id, email, role and active flag of the row |
| Guards.ClientKey | server/routes.ts:73 | a missing or empty address is counted under "unknown" |
| Guards.RateLimit | server/routes.ts:71-95 | a new or strictly expired window admits with count 1 until now + window; inside a window a request passes iff fewer than the maximum have passed, and a refusal leaves the table unchanged; other addresses are untouched |
| Guards.WindowCap | server/routes.ts:82-93 | while every request falls at or before the reset time, at most maximum minus count further requests pass |
| Guards.WindowFillsUp | server/routes.ts:82-93 | while every request falls at or before the reset time and the window has room for them all, every request passes and the count grows by one each, the reset time fixed |
| Guards.WindowAdmitsAtMostMax | server/routes.ts:76-93 | within one window opened by the first request, at most the maximum pass |
| Guards.EleventhAuthRequestRefused | server/routes.ts:144 | with the auth limit of 10 per minute, ten quick requests pass and the eleventh is refused |
| Guards.BearerToken | server/routes.ts:39 | the token is the text after "Bearer " up to the next space, and holds no space |
| Guards.BearerSplit | server/routes.ts:39 | splitting "Bearer " + rest on spaces gives "Bearer" followed by the pieces of rest |
| Guards.Authenticate | server/routes.ts:32-52 | admitted exactly for a "Bearer " header whose token verifies to a stored user's id; the caller carries that user's email and role; 401 otherwise |
| Guards.DeactivatedUserStillAuthenticates | server/routes.ts:42-48 | a deactivated user's valid token still gets through authenticate |
| Guards.RequireRole | server/routes.ts:55-67 | 401 exactly without a user, 403 exactly when the role is not listed, otherwise the user passes |
| Guards.AuthenticateWithRole | server/routes.ts:343 | the chain admits exactly authenticated callers with a listed role, 403 exactly for the others who authenticate |
| AuthRoutes.PostRegister | server/routes.ts:144-190 | 400 exactly for an invalid body, 409 exactly when the email or a non-empty phone is taken, 500 exactly when an empty phone meets another empty phone, 201 exactly otherwise; on 201 the stored row takes every given column with the password replaced by its hash, and the reply omits the password; nothing is stored on 400 or 409, and a 500 uses up the serial id |
| AuthRoutes.RegisterClash | server/routes.ts:158-188 | once both 409 checks pass, the insert collides exactly when the phone is empty and another user has an empty phone |
| AuthRoutes.EmptyPhoneClashIsServerError | server/routes.ts:163-188 | an empty phone skips the phone check, and a clash on it with another user's empty phone ends in 500 |
| AuthRoutes.PostLogin | server/routes.ts:192-243 | 400 exactly without an email and password; 403 exactly for a deactivated account with the email; 200 exactly for an active account with the email whose password matches, 401 otherwise; success refreshes only updatedAt and replies with the row as it was before that update |
| AuthRoutes.DeactivatedCannotLogIn | server/routes.ts:206-209 | after deactivation, login with the account's email answers 403 |
| AuthRoutes.PostRefreshToken | server/routes.ts:245-277 | 400 exactly without a token, 200 exactly when it verifies to a stored user, with a freshly signed token; the store is unchanged |
| AuthRoutes.AccessTokenRefreshes | server/routes.ts:245-277 | any access token that gets through authenticate is also accepted as a refresh token |
| UserRoutes.GetMe | server/routes.ts:280-296 | 404 exactly when the caller's row is gone, otherwise the row without its password |
| UserRoutes.SelfPatch | server/routes.ts:313-321 | a given role is dropped, a non-empty password is hashed, and every other field passes unchanged |
| UserRoutes.PatchMe | server/routes.ts:298-340 | 400 exactly for a body with a nulled required column; 404 exactly when the caller's row is gone; 500 exactly when the patched row would duplicate another user's email or phone; on 200 every column the self-patch gives is stored, absent ones keep their values, the role is unchanged, an empty password is stored as it is, and only the caller's row changes |
| UserRoutes.PatchMeKeepsRole | server/routes.ts:313-321 | whatever the body says, the caller's role is the same afterwards |
| UserRoutes.DeactivatedUserCanReactivate | server/routes.ts:298-340 | after deactivation, the same token authenticates and a patch with isActive true switches the account back on |
| UserRoutes.GetAdminUsers | server/routes.ts:343-352 | 200 exactly for an authenticated admin, 403 exactly for any other authenticated caller |
| ProfileRoutes.PostTutorProfile | server/routes.ts:355-390 | 409 exactly when the caller already has a tutor profile; otherwise a profile under the next id, owned by the caller, in which every column the body gives is stored and absent ones take their defaults, the aggregates start at 0, and only it is added |
| ProfileRoutes.PostTutorProfileKeepsOnePerUser | server/routes.ts:374-380 | if no user has two tutor profiles before the request, none does after |
| ProfileRoutes.BodyUserIdIgnored | server/routes.ts:358-361 | a userId in the body makes no difference to the outcome |
| ProfileRoutes.GetMyTutorProfile | server/routes.ts:392-405 | 404 exactly when the caller has no tutor profile, otherwise one of the caller's profiles |
| ProfileRoutes.PostStudentProfile | server/routes.ts:435-470 | 409 exactly when the caller already has a student profile; otherwise a profile under the next id, owned by the caller, in which every column the body gives is stored and a null or absent parent id is stored as null |
| ProfileRoutes.PostStudentProfileKeepsOnePerUser | server/routes.ts:454-460 | if no user has two student profiles before the request, none does after |
| ProfileRoutes.RatingFilter | server/routes.ts:420-421 | a rating filter applies exactly when the parameter parses to an integer from 1 to 5 |
| ProfileRoutes.GetTutors | server/routes.ts:407-432 | a non-empty subject wins, else a rating from 1 to 5 filters by minimum average, else the placeholder; always 200 and the store is unchanged |
| ProfileRoutes.FractionalRatingTruncates | server/routes.ts:420-421 | "4.5" filters by a minimum average of 4 |
| ProfileRoutes.RatingOutOfRange | server/routes.ts:421-427 | "0" and "6" give the placeholder |
| SessionRoutes.AsDate | server/routes.ts:476-480 | new Date turns null into the epoch and keeps a given instant |
| SessionRoutes.SessionRequest | server/routes.ts:476-507 | a student caller becomes the session's student, a tutor caller its tutor, and the meeting link is the generated one; every other field passes unchanged |
| SessionRoutes.PostSession | server/routes.ts:473-519 | 201 exactly when the request passes the insert schema; the stored session under the next id carries every requested column, with the caller's forced identity, the generated link and the requested or default status; nothing stored on 400 |
| SessionRoutes.NoDoubleBookingCheck | server/routes.ts:498-509 | the same tutor booking the same slot twice gets two stored sessions |
| SessionRoutes.GetUpcomingSessions | server/routes.ts:521-529 | exactly the caller's sessions starting at or after now, earliest first |
| SessionRoutes.GetPastSessions | server/routes.ts:531-539 | exactly the caller's sessions ended at or before now, latest first |
| SessionRoutes.SanitizeSessionPatch | server/routes.ts:575-583 | an admin patch is untouched; otherwise price and currency are dropped and a status other than cancelled is dropped; all other fields pass unchanged |
| SessionRoutes.SanitizeIdempotent | server/routes.ts:575-583 | sanitising twice equals sanitising once |
| SessionRoutes.PatchSession | server/routes.ts:541-595 | 400 for an unreadable id, 500 exactly for an id outside the integer column's range, then 404 exactly for a missing session, then 403 exactly for a caller who is neither participant nor admin, then 400 exactly for a body the partial schema refuses; on 200 the sanitised patch is applied column by column, so a non-admin leaves price and currency alone and can only keep, clear or cancel the status; nothing changes on error |
| SessionRoutes.CompletedSessionCanBeCancelled | server/routes.ts:575-585 | a participant can cancel a session that is already completed |
| SessionRoutes.NonAdminStatusDropped | server/routes.ts:579-582 | a non-admin asking for completed gets 200 and the status stays as it was |
| SessionRoutes.PostAttendance | server/routes.ts:597-629 | 400 exactly for an unreadable id, 500 exactly for one outside the integer column's range, 404 exactly for a missing session, otherwise a row for the caller joined now with duration 0, whether or not the caller takes part |
| PaymentRoutes.PaymentRequest | server/routes.ts:635-654 | the caller's id and a release date 24 hours on replace what the client sent; every other field passes unchanged |
| PaymentRoutes.PostPayment | server/routes.ts:632-677 | 400 exactly without an amount, currency and gateway; a stored payment under the next id carries every requested column, belongs to the caller, is released 24 hours later, carries fee 0 and the requested or pending status |
| PaymentRoutes.ClientMarksPaymentCompleted | server/routes.ts:654-667 | a client can record a payment as completed with no gateway involved |
| PaymentRoutes.GetPayments | server/routes.ts:679-687 | exactly the caller's payments |
| PaymentRoutes.PostedPaymentListed | server/routes.ts:632-687 | a payment just made appears in the caller's list |
| PaymentRoutes.PaymentWebhook | server/routes.ts:690-710 | always 200 and the store is unchanged |
| ContentRoutes.ContentRequest | server/routes.ts:716-720 | the caller becomes the creator and a given contentType wins over type; every other field passes unchanged |
| ContentRoutes.PostContent | server/routes.ts:713-746 | 400 exactly without a title, a url and a type under either name; a stored item under the next id carries every given column, is the caller's, and is private and online-only unless the body says otherwise |
| ContentRoutes.NewContentPrivateByDefault | server/routes.ts:748-756 | an item posted without isPublic is not listed as public content |
| ContentRoutes.GetPublicContent | server/routes.ts:748-756 | exactly the public items, to anyone |
| ContentRoutes.GetOfflineContent | server/routes.ts:758-766 | 401 exactly without authentication, otherwise exactly the offline items, whoever created them |
| ReviewRoutes.PostReview | server/routes.ts:769-814 | 400 exactly without a tutor and rating; for a named session, 404 exactly when it is missing and 403 exactly when the caller is not its student; a stored review under the next id is the caller's and carries the given tutor, session, rating and comment; tutor profiles are untouched; nothing is stored on error |
| ReviewRoutes.ReviewNotTiedToSession | server/routes.ts:788-804 | a student may review any tutor, with any rating, for one of their own sessions whatever its status |
| ReviewRoutes.PostReviewRoute | server/routes.ts:769 | 401 without authentication and 403 for a non-student, with the store unchanged; a stored review carries the authenticated student's id |
| ReviewRoutes.GetTutorReviews | server/routes.ts:816-830 | 400 exactly for an unreadable id, 500 exactly for one outside the integer column's range, otherwise exactly the tutor's reviews |
| ReviewRoutes.PostedReviewListed | server/routes.ts:769-830 | a review just posted appears among its tutor's reviews |
| I18n.SupportedAreSchemaLanguages | client/src/lib/i18n.ts:4-23 | the client offers exactly the languages of the language column, under the same codes |
| I18n.Entry | client/src/lib/i18n.ts:35-41 | an entry is found exactly when the language, section and key all exist and the text is non-empty |
| I18n.Translate | client/src/lib/i18n.ts:25-55 | a key not in two parts comes back unchanged; else the requested language's non-empty entry, else the English one, else the key |
| I18n.MissingLanguageIsEnglish | client/src/lib/i18n.ts:35-50 | a language the table lacks translates exactly as English |
| I18n.TranslateIsKeyOrEntry | client/src/lib/i18n.ts:25-55 | the result is the key or a non-empty stored entry of the requested language or of English |
| I18n.TwoPartsIffOneDot | client/src/lib/i18n.ts:26-27 | a key has two parts exactly when it holds exactly one dot |
| I18n.MalformedKeyUnchanged | client/src/lib/i18n.ts:26-30 | a key without exactly one dot comes back unchanged whatever the table holds |
| I18n.KeyOfParts | client/src/lib/i18n.ts:26-32 | a key built as section.subKey from dot-free parts splits back into them |
| I18n.TranslateFindsEntry | client/src/lib/i18n.ts:35-41 | looking up section.subKey returns the stored entry of the requested language |
| LanguageContext.PrimarySubtag | client/src/contexts/language-context.tsx:32 | the primary subtag is a dash-free prefix of the tag, ending at its first dash or at its end |
| LanguageContext.InitialLanguage | client/src/contexts/language-context.tsx:23-39 | the saved language if supported, else the browser's primary subtag if supported, else English; always supported |
| LanguageContext.Start | client/src/contexts/language-context.tsx:23-56 | the provider starts with the initial language, shown as the document language, storage untouched |
| LanguageContext.SetLanguage | client/src/contexts/language-context.tsx:41-51 | a supported code becomes the language, is saved and shown on the document; any other code changes nothing; consistency is kept |
| LanguageContext.LastSupported | client/src/contexts/language-context.tsx:41-51 | the supported code of a sequence that no later code follows as supported; none exactly when no code is supported |
| LanguageContext.ReplayConsistent | client/src/contexts/language-context.tsx:23-51 | through any sequence of calls the language stays supported and matches the document's |
| LanguageContext.ReplayPicksLastSupported | client/src/contexts/language-context.tsx:41-51 | after a sequence of calls the language and the saved value are the last supported code, or nothing changed when there is none |
| LanguageContext.LastSupportedCons | client/src/contexts/language-context.tsx:41-51 | the last supported code of a sequence is that of its tail, else its head when supported |
| LanguageContext.ChoiceSurvivesReload | client/src/contexts/language-context.tsx:25-29 | a supported choice is read back on the next start, whatever the browser language |

## Left out

- WebSocket chat (server/routes.ts:101-141) is left out. It is network I/O fanned out to
  concurrent connections.
- bcrypt and JWT are parameters (`hash`, `matches`, `verify`, `sign`). Token expiry and
  signature checks live inside `verify`.
- Postgres is left out: foreign keys, `onDelete` cascades and the `references` constraints are
  not enforced. A review or payment naming a missing user is stored.
- Columns no rule reads or writes are not part of the rows: descriptions, bios, tags, file sizes,
  JSON metadata and account details.
- Row order of the unordered queries is not promised. The model lists ascending ids.
- Floating point is left out: money, ratings and fees are `real`, with no rounding.
- The 5% fee the payment handler computes is dropped before storage, so it is not modelled.
- Dates are left out: `setHours(+24)` is exactly 86,400,000 ms with no daylight-saving shift.
  Date strings in a JSON body are not parsed: a session patch with a time is refused.
  Invalid dates on create are refused like absent ones.
- JSON values of the wrong type (a number where a string is expected, an unknown enum label) are
  not modelled: every body field has the type its column or handler expects. Where a handler
  validates with a Zod schema such bodies get 400; login and token refresh validate nothing.
  Zod error messages and response message texts are not modelled.
- AuthRoutes.PostLogin: a password that is not a string (a JSON number, say) with an active
  account's email makes the bcrypt comparison reject and the handler answer 500; the model's
  fields are strings, so its login never answers 500.
- AuthRoutes.PostRefreshToken: a refresh token that is not a string makes the JWT check throw,
  which the handler answers with 401; the model's token is a string.
- Concurrency is left out: the shared rate-limit map and check-then-insert races on registration
  and profile creation.
- The random meeting link is a parameter.
- Guards.RateLimit: the rate limiter is modelled on its own and not chained in front of the
  register and login handlers.
- Query strings that repeat a parameter (arrays) are not modelled, nor is `parseInt` on numbers
  beyond double precision.
- I18n.Translate: nested translation objects (a section entry that is itself an object) and
  inherited object properties are not modelled; entries are strings.
- The React UI, static data files and `document` side effects other than the `lang` attribute
  are left out.
- A 500 reply is modelled where the model can produce one: a unique-index clash on users and an
  id read from the URL outside the 32-bit `integer` range. Other database failures (lost
  connections, foreign keys) are not modelled.
- Integer fields of a JSON body (ids, ratings, durations) are taken to fit the `integer`
  columns. A larger value is refused by Postgres, which the handlers turn into 500; the model
  stores it.
- Serial counters never run out; a refused user insert still consumes its id, as a Postgres
  sequence does.
