# rent-my-vroom backend: a Dafny model of the service layer

rent-my-vroom is a car-rental marketplace backend. Renters and merchants sign in with a one-time
password (OTP) delivered over WhatsApp. They finish a registration path: profile, then KYC (the
identity check of the renter's driving licence), then admin approval. Merchants list vehicles,
renters book them, and merchants accept, reject and complete the bookings. The two parties of a
booking exchange messages, and a renter reviews a completed booking.

This project models the business logic of the NestJS services in Dafny and proves properties of it.

- **Tables.** The Prisma tables are one `Schema.Database` object. It has a sequence field per
  table, a map of refresh tokens keyed by token, and an outbox of e-mails handed to the
  notifications service. Its `Valid()` invariant holds the schema's constraints and the
  invariants the services maintain. The schema's constraints are unique phones, one KYC per
  renter, increasing vehicle ids below the id counter, unique licence plates and foreign keys.
  Two invariants come from elsewhere:
  - Ratings from 1 to 5 (`Schema.ReviewsOk`) come from the request validator
    (`@Min(1) @Max(5)` in src/reviews/dto/reviews.dto.ts).
  - Messages only between a booking's parties (`Schema.MessagesOk`) come from the guard in
    src/messages/messages.service.ts:24-28.
- **Services.** Each service operation is a `method` that changes exactly the tables it writes.
  Its `ensures` ties the new state and the result to pure functions of the old state. The
  properties the services promise are proved about those functions as lemmas.
- **OTP engine.** The OTP table is a class of its own, `Otp.OtpService`. Its invariant is that no
  record ever exceeds the attempt limit.
- **Pure code.** The phone, OTP and string helpers, upload-key normalisation, the Prisma error
  mapping, the JWT guard's decision chain and the WhatsApp webhook decisions are functions.
- **Ids and time.** Row ids of tables that are never deleted from are their positions, so
  "newest first" is descending position. Time is integer milliseconds passed in as `now`. Money
  is whole units.
- **Foreign code as parameters.** SHA-256, `Math.random`, JWT signing and S3 presigning are
  parameters: a `hash` function, a random `draw`, the new token text, and a `presign` function.

## Model

| member | source | states |
|---|---|---|
| Helpers.IsValidE164 | src/common/utils/helpers.ts:13-15 | a valid number is '+', a non-zero digit, then digits, between 3 and 16 characters long (at most 15 digits) |
| Helpers.DigitsOnly | src/common/utils/helpers.ts:23-34 | keeps exactly the ASCII digits of the input, each as often as it occurs; an all-digit input is returned unchanged |
| Helpers.DigitsOnlyChar | src/common/utils/helpers.ts:25 | a single character is kept iff it is a digit |
| Helpers.DigitsOnlyAppend | src/common/utils/helpers.ts:25 | the digits of a concatenation are the digits of each part in order, so with the single-character case the digits keep their input order |
| Helpers.FormatToE164 | src/common/utils/helpers.ts:23-34 | a '+'-prefixed number is returned unchanged; otherwise the result is exactly the country code followed by the number's digits in order, and those digits are all ASCII digits |
| Helpers.FormatToE164Valid | src/common/utils/helpers.ts:23-34 | a well-formed country code plus a local number of fitting length yields a valid E.164 number |
| Helpers.FormatToE164Idempotent | src/common/utils/helpers.ts:23-34 | formatting an already formatted number changes nothing when the country code starts with '+' |
| Helpers.MaskPhone | src/common/utils/helpers.ts:41-47 | length is preserved; short numbers are unchanged; otherwise the first 3 and last 4 characters stay and every middle character is '*' |
| Helpers.Generate | src/common/utils/helpers.ts:59-63 | for every random draw the code has exactly `length` digits and no leading zero, i.e. lies in [10^(n-1), 10^n - 1] |
| Helpers.VerifyOwnDigest | src/common/utils/helpers.ts:70-82 | verification succeeds exactly when the digest is the hash of the candidate, so a code always verifies against its own digest |
| Helpers.CalculateExpiry | src/common/utils/helpers.ts:89-100 | expiry is now plus minutes·60000; it is expired at a later instant exactly when that instant is strictly past it |
| Helpers.Capitalize | src/common/utils/helpers.ts:159-161 | same length, first character upper-cased, every other character lower-cased |
| Helpers.CapitalizeIdempotent | src/common/utils/helpers.ts:159-161 | capitalizing twice is capitalizing once |
| Helpers.Truncate | src/common/utils/helpers.ts:178-181 | short strings are unchanged; longer ones become their first maxLength-3 characters plus "..." (exactly maxLength long when maxLength >= 3) |
| Uploads.Trim | src/uploads/uploads.service.ts:64-66 | the result is the input with some leading and some trailing characters cut off, every one of them whitespace; it is empty iff every character is whitespace, and otherwise starts and ends with a non-space |
| Uploads.NormalizeKey | src/uploads/uploads.service.ts:64-71 | a blank key is refused with BadRequest('File key is required'); otherwise the result is the trimmed key with only slashes cut from its front, and it never starts with '/' |
| Uploads.NormalizeKeyIdempotent | src/uploads/uploads.service.ts:64-71 | a normalized key that does not start with whitespace normalizes to itself (the trim runs before the slash strip, so '/ a' gives ' a', which gives 'a') |
| Uploads.BuildPublicUrl | src/uploads/uploads.service.ts:55-58 | fails exactly when normalization fails; otherwise the URL is the public base, '/', and the normalized key |
| Uploads.PublicUrlShape | src/uploads/uploads.service.ts:55-58 | the URL is the base followed by exactly one '/' before the key |
| Uploads.BuildPublicUrls | src/uploads/uploads.service.ts:60-62 | element-wise: same length and order, each entry is that key's URL, and any blank key fails the whole list |
| Uploads.PlainKeyUrl | src/uploads/uploads.service.spec.ts:24-30 | a key with or without one leading '/' gets the same URL, base + '/' + key |
| Uploads.PlainStartNormalizes | src/uploads/uploads.service.ts:64-71 | a key that starts with neither whitespace nor '/' normalizes to its trimmed self |
| Uploads.PlainKeyNormalizes | src/uploads/uploads.service.ts:64-71 | a key without whitespace and without a leading '/' is its own normalization |
| Uploads.SlashedKeyNormalizes | src/uploads/uploads.service.ts:64-71 | one leading slash is stripped |
| Uploads.BlankKeyRefused | src/uploads/uploads.service.spec.ts:41-45 | a key of spaces is refused with BadRequest |
| Uploads.Extension | src/uploads/uploads.service.ts:31 | the extension is the dot-free text after the last '.' of the file name (the whole name when there is no dot) |
| Uploads.ExtensionOfKey | src/uploads/uploads.service.ts:31-32 | a string ending in '.' plus dot-free text has that text as its extension |
| Uploads.ObjectKey | src/uploads/uploads.service.ts:29-32 | the key starts with the file-type segment, so it never starts with whitespace or a slash |
| Uploads.ObjectKeyShape | src/uploads/uploads.service.ts:29-32 | the key is `fileType/userId/` + timestamp-random, and its extension is the uploaded file's extension |
| Uploads.GetPresignedUrl | src/uploads/uploads.service.ts:27-53 | returns the constructed key, the presigned URL of that key, and the public URL of that key |
| PrismaFilter.Readable | src/common/filters/prisma-exception.filter.ts:49 | every '_' becomes ' ', other characters unchanged, so no '_' remains |
| PrismaFilter.MapPrismaError | src/common/filters/prisma-exception.filter.ts:40-80 | P2002 gives 409 "<field> is already in use"; P2025 gives 404 with the cause or 'Record not found'; P2003 and P2014 give 400 with fixed texts; anything else gives 400 'Database operation failed'; the status is always 400, 404 or 409 |
| PrismaFilter.ConflictMessageHasNoUnderscore | src/common/filters/prisma-exception.filter.ts:45-54 | a unique-constraint message names the field with no '_' in it |
| PrismaFilter.NoTargetFallsBack | src/common/filters/prisma-exception.filter.ts:47-48 | with no or empty targets the message is "field is already in use" |
| JwtGuard.KnownJwtError | src/auth/guards/jwt-auth.guard.ts:38-44 | exactly the three jsonwebtoken error names have a fixed message |
| JwtGuard.HandleRequest | src/auth/guards/jwt-auth.guard.ts:37-62 | the user is returned unchanged iff info does not reject, there is no error and a user exists; info rejections come first, with the fixed message for JsonWebTokenError, TokenExpiredError and NotBeforeError and otherwise the info's own message; then err is rethrown unchanged, then a missing user gives 'Authentication required' |
| JwtGuard.ExpiredAlwaysRefused | src/auth/guards/jwt-auth.guard.ts:41-42 | an expired token is refused with 'Token has expired' whatever err and user are |
| JwtGuard.InfoBeforeError | src/auth/guards/jwt-auth.guard.ts:45-55 | an info message wins over a thrown error |
| JwtGuard.SilentInfoFallsThrough | src/auth/guards/jwt-auth.guard.ts:45-49 | info of an unknown name and no message decides nothing |
| WhatsApp.VerifyWebhook | src/whatsapp/whatsapp.controller.ts:38-44 | the challenge is returned iff mode is 'subscribe' and the token equals the configured one; otherwise Forbidden |
| WhatsApp.UnconfiguredTokenAcceptsMissingToken | src/whatsapp/whatsapp.controller.ts:19-44 | with no configured token, a handshake without a token is accepted and one with any token is refused |
| WhatsApp.MessageChanges | src/whatsapp/whatsapp.controller.ts:64-69 | the result is every entry's changes, flattened in entry order and change order, filtered to field 'messages': nothing is added, nothing is dropped, the order is kept |
| WhatsApp.HandleWebhook | src/whatsapp/whatsapp.controller.ts:58-77 | 'ignored' iff the object is not a WhatsApp business account; otherwise 'error' iff handling a messages change throws, else 'ok' |
| SystemConfig.Lookup | src/system-config/system-config.service.ts:9-12 | absent iff no row has the key; a found value is the value of a row with that key |
| SystemConfig.LookupUnique | src/system-config/system-config.service.ts:9-12 | in a key-ordered table, a stored row's value is the one read back |
| SystemConfig.Upsert | src/system-config/system-config.service.ts:18-24 | afterwards the keys are the old keys plus the key, the new row is present, and every other row is kept |
| SystemConfig.UpsertKeepsOrder | src/system-config/system-config.service.ts:14-24 | an upsert keeps the table ordered by key |
| SystemConfig.SetThenGet | src/system-config/system-config.service.ts:9-24 | after set(k, v), get(k) returns v |
| SystemConfig.SetLeavesOthers | src/system-config/system-config.service.ts:9-24 | set(k, v) leaves every other key's value unchanged |
| SystemConfig.SetIdempotent | src/system-config/system-config.service.ts:18-24 | repeating a set changes nothing |
| SystemConfig.ConfigTable.constructor | src/system-config/system-config.service.ts:7 | the table starts empty and ordered |
| SystemConfig.ConfigTable.Get | src/system-config/system-config.service.ts:9-12 | the stored value for the key, or none when no row has it |
| SystemConfig.ConfigTable.GetAll | src/system-config/system-config.service.ts:14-16 | every entry, in ascending key order |
| SystemConfig.ConfigTable.Set | src/system-config/system-config.service.ts:18-24 | returns the row; afterwards get(key) is the value and every other key reads as before |
| SystemConfig.ConfigTable.CancellationWindowHours | src/system-config/system-config.service.ts:26-30 | the parsed number when the stored value is present, non-empty and numeric; the default otherwise |
| Otp.FindValid | src/otp/otp.service.ts:179-191 | the newest record (by creation time) that is for the phone, unverified and expires strictly after now; none iff there is no such record |
| Otp.FindRecent | src/otp/otp.service.ts:150-163 | the most recently sent record of the phone within the cooldown; none iff there is none |
| Otp.WaitSeconds | src/otp/otp.service.ts:166-168 | the rounded-up seconds until the cooldown ends |
| Otp.WaitBounded | src/otp/otp.service.ts:150-171 | for a send within the cooldown and not in the future, the wait lies between 0 and the cooldown |
| Otp.RemoveAtExactly | src/otp/otp.service.ts:217-221 | deleting by a unique id removes exactly that record |
| Otp.OtpService.constructor | src/otp/otp.service.ts:16-37 | the configured limits and test code are kept, and the table starts empty |
| Otp.OtpService.IssuedCode | src/otp/otp.service.ts:50 | in test mode the fixed code; otherwise a six-digit code without a leading zero |
| Otp.OtpService.SendOtp | src/otp/otp.service.ts:43-79 | outside test mode a send within the cooldown fails with 429 and the wait, changing nothing; otherwise exactly one unverified record with zero attempts, the hashed code, now as send time and now + expiry as expiry is appended, and the code is delivered only outside test mode |
| Otp.OtpService.VerifyOtp | src/otp/otp.service.ts:85-126 | succeeds iff the fixed test code matches, or the newest valid record has attempts left and the code's hash matches; test mode removes the newest valid record; no record gives OTP_EXPIRED, the limit gives OTP_MAX_ATTEMPTS, and both change nothing; a wrong code keeps attempts+1; a right code deletes exactly the chosen record |
| Otp.OtpService.IncrementAttempts | src/otp/otp.service.ts:197-202 | only the chosen record's attempts grow by one, keeping the attempt limit invariant |
| Otp.OtpService.MarkVerified | src/otp/otp.service.ts:207-212 | only the chosen record becomes verified |
| Otp.OtpService.Delete | src/otp/otp.service.ts:217-221 | the chosen record leaves the table and every other record stays, in order |
| Otp.OtpService.CleanupExpired | src/otp/otp.service.ts:131-142 | exactly the records expiring strictly before now are deleted, in order, and the count is the number deleted |
| Otp.FilterKeepsIdsDistinct | src/otp/otp.service.ts:131-139 | deleting rows keeps record ids unique |
| Otp.ExpiringNowIsLimbo | src/otp/otp.service.ts:131-139 | a record that expires exactly now can no longer be verified, yet is not expired and so not purged |
| Users.UploadLicenseOutcome | src/users/users.service.ts:17-34 | a missing user gives NotFound and a non-renter Forbidden; otherwise the licence URL is the public URL of the key and the status is PENDING |
| Users.UploadLicense | src/users/users.service.ts:17-34 | writes exactly that user row on success and nothing otherwise |
| Users.ApproveLicenseCheck | src/users/users.service.ts:36-42 | a missing or non-admin caller gives Forbidden, checked first; then a missing target gives NotFound and a non-renter target BadRequest |
| Users.Decide | src/users/users.service.ts:44-51 | the status is the requested one, and the approval time is set (to now) iff the status is APPROVED |
| Users.ApproveLicense | src/users/users.service.ts:36-59 | on failure nothing is written; on success only the target row changes, and an approval mail is queued iff the status is APPROVED |
| Users.PendingLicenses | src/users/users.service.ts:84-97 | exactly the renters with a PENDING licence, newest first |
| Users.UploadQueuesForReview | src/users/users.service.ts:17-34 | an upload puts the renter in the review queue |
| Users.DecisionLeavesQueue | src/users/users.service.ts:36-59 | an approval or rejection takes the renter out of the queue |
| KycReview.DecisionCheck | src/kyc/kyc.service.ts:104-124 | a missing record gives NotFound and a non-PENDING one BadRequest; otherwise the decision may go ahead |
| KycReview.Approved | src/kyc/kyc.service.ts:52-58 | status APPROVED and verifiedAt now; nothing else changes |
| KycReview.Rejected | src/kyc/kyc.service.ts:79-85 | status REJECTED with the reason; nothing else changes |
| KycReview.WithKycOutcome | src/kyc/kyc.service.ts:129-141 | only the registration step and licence status change |
| KycReview.ApproveKyc | src/kyc/kyc.service.ts:48-70 | nothing is written on failure; on success the record is APPROVED and only its owner's row moves to KYC_APPROVED with an APPROVED licence |
| KycReview.RejectKyc | src/kyc/kyc.service.ts:75-97 | nothing is written on failure; on success the record stays, REJECTED with the reason, and only its owner's row goes back to PROFILE_COMPLETED with a REJECTED licence |
| KycReview.PendingRequests | src/kyc/kyc.service.ts:31-43 | exactly the PENDING records, oldest first |
| KycReview.DecidedOnce | src/kyc/kyc.service.ts:120-124 | after either decision, both decisions refuse the record with BadRequest |
| KycReview.DecisionLeavesPendingList | src/kyc/kyc.service.ts:31-97 | a decision takes that record, and only it, off the pending list |
| Vehicles.SearchWindow | src/vehicles/vehicles.service.ts:47-61 | no range means no window; a start alone gives [start, start + one day); an end not after the start is refused with BadRequest |
| Vehicles.FindAll | src/vehicles/vehicles.service.ts:43-84 | fails iff the window is refused; otherwise a vehicle is listed iff it passes the availability filter and no PENDING or ACCEPTED booking of it overlaps the window |
| Vehicles.FindAllNewestFirst | src/vehicles/vehicles.service.ts:79-81 | the listing is in strictly decreasing id order |
| Vehicles.BlocksIffSharedInstant | src/vehicles/vehicles.service.ts:66-76 | an active booking blocks a window iff the two half-open intervals share an instant |
| Vehicles.TouchingOrSettledDoesNotBlock | src/vehicles/vehicles.service.ts:66-76 | touching intervals, and bookings that are neither PENDING nor ACCEPTED, never block |
| Vehicles.StartOnlyIsOneDay | src/vehicles/vehicles.service.ts:47-57 | a start alone asks about exactly one day |
| Vehicles.MyVehicles | src/vehicles/vehicles.service.ts:86-95 | exactly the merchant's vehicles |
| Vehicles.MyVehiclesNewestFirst | src/vehicles/vehicles.service.ts:86-95 | the merchant's listing is in strictly decreasing id order (newest first) |
| Vehicles.FindOne | src/vehicles/vehicles.service.ts:97-125 | NotFound iff no vehicle has the id; otherwise that vehicle with exactly its PENDING and ACCEPTED bookings |
| Vehicles.CreateCheck | src/vehicles/vehicles.service.ts:21-25 | an unknown user gives NotFound, a non-merchant Forbidden, and a plate in use Conflict, in that order |
| Vehicles.CreateImages | src/vehicles/vehicles.service.ts:199-206 | no keys give no images; otherwise the keys' public URLs |
| Vehicles.Created | src/vehicles/vehicles.service.ts:27-38 | the new row has the fresh id, the caller as owner, the given plate and the images |
| Vehicles.Create | src/vehicles/vehicles.service.ts:21-41 | on failure nothing changes; on success exactly one vehicle with the next id and the caller as owner is appended |
| Vehicles.VerifyOwnership | src/vehicles/vehicles.service.ts:223-227 | passes iff the vehicle's merchant is the caller, else Forbidden |
| Vehicles.UpdateImages | src/vehicles/vehicles.service.ts:208-219 | without keys the images are left as given; with keys they become the keys' URLs in the same order |
| Vehicles.Changed | src/vehicles/vehicles.service.ts:127-137 | id, owner and plate stay; each of make, model, year, colour, hourly and daily price, seats, fuel type, transmission, mileage, description, features, images and availability is the given value, or the old one when left out |
| Vehicles.OwnerCheck | src/vehicles/vehicles.service.ts:187-197 | passes iff the caller owns a vehicle with the id; a missing vehicle gives NotFound, else Forbidden |
| Vehicles.Update | src/vehicles/vehicles.service.ts:127-137 | nothing changes on failure; on success only that vehicle is rewritten with the changes |
| Vehicles.Remove | src/vehicles/vehicles.service.ts:139-148 | nothing changes on failure; on success exactly that vehicle is deleted and every other stays, in order |
| Vehicles.RemoveKeepsVehiclesOk | src/vehicles/vehicles.service.ts:139-148 | deleting keeps ids increasing and plates unique |
| Bookings.Days | src/bookings/bookings.service.ts:48-50 | the day count d satisfies (d-1)·DAY < end-start <= d·DAY |
| Bookings.DaysPositive | src/bookings/bookings.service.ts:48-50 | a booking that ends after it starts lasts at least one day |
| Bookings.WholeDaysExact | src/bookings/bookings.service.ts:48-50 | an exact number of days is charged as that number |
| Bookings.DaysNotPositive | src/bookings/bookings.service.ts:48-51 | as written, an end not after the start gives no positive day count |
| Bookings.Placed | src/bookings/bookings.service.ts:48-70 | a new booking is PENDING, has the vehicle's merchant, and the given renter, vehicle, dates and notes; its total price is the daily rate times the started days |
| Bookings.CreateAsWritten | src/bookings/bookings.service.ts:19-80 | the service as written: an unknown renter ends in a 500, and success requires an available vehicle with the id |
| Bookings.CreateBooking | src/bookings/bookings.service.ts:21-51 | in order: unknown renter NotFound, non-renter Forbidden, unapproved licence Forbidden, missing vehicle NotFound, unavailable BadRequest, end not after start BadRequest; success iff all pass, with the price the daily rate times the started days |
| Bookings.Create | src/bookings/bookings.service.ts:19-80 | nothing is stored on failure; on success exactly one booking is appended and a new-booking mail to the merchant is queued |
| Bookings.ManageCheck | src/bookings/bookings.service.ts:130-140 | missing gives NotFound, then another merchant Forbidden, then the wrong status BadRequest |
| Bookings.Apply | src/bookings/bookings.service.ts:142-153 | dates, price, vehicle and parties never change |
| Bookings.Transition | src/bookings/bookings.service.ts:124-244 | nothing is written on failure; on success only that booking moves along the action's edge with its timestamp (and notes for accept/reject), and the renter is mailed |
| Bookings.TransitionFollowsEdge | src/bookings/bookings.service.ts:142-153 | every successful transition follows PENDING to ACCEPTED or REJECTED, or ACCEPTED to COMPLETED |
| Bookings.SettledIsTerminal | src/bookings/bookings.service.ts:183-234 | REJECTED and COMPLETED have no outgoing transition |
| Bookings.AcceptedOnlyCompletes | src/bookings/bookings.service.ts:124-244 | an accepted booking can be neither accepted nor rejected again, only completed |
| Bookings.RenterBookings | src/bookings/bookings.service.ts:82-101 | exactly the renter's bookings, newest first |
| Bookings.MerchantBookings | src/bookings/bookings.service.ts:103-122 | exactly the merchant's bookings, newest first |
| Bookings.KycApprovalOpensGate | src/bookings/bookings.service.ts:29-31 | a KYC approval sets exactly the licence status booking creation requires; a rejection does not |
| Bookings.LicenseUploadClosesGate | src/bookings/bookings.service.ts:29-31 | uploading a new licence closes booking until a decision |
| Bookings.MissingRenterAsWritten | src/bookings/bookings.service.spec.ts:25-36 | an unknown renter gets a 500 as written, where the tests require NotFound |
| Bookings.BackwardsDatesAsWritten | src/bookings/bookings.service.spec.ts:38-64 | as written, an end not after the start stores a booking with a non-positive price; the corrected create refuses it with BadRequest |
| Auth.RoleName | src/auth/auth.service.ts:76 | the role's first letter followed by the rest in lower case |
| Auth.RoleConflict | src/auth/auth.service.ts:75-80 | refuses iff the phone is registered under another role, naming that role |
| Auth.SendOtp | src/auth/auth.service.ts:68-98 | a role conflict is Forbidden and leaves the OTP table and deliveries alone; otherwise the OTP table becomes the send's table (unchanged on 429, one new record otherwise), the code is delivered only on success outside test mode, the only error is the 429 with its wait, and the reply is always the generic message |
| Auth.SignIn | src/auth/auth.service.ts:108-139 | an unknown phone gets a new PHONE_VERIFIED user with the requested role; a known phone with another role is Forbidden; otherwise the phone is marked verified and a set step is kept |
| Auth.SignInKeepsInvariants | src/auth/auth.service.ts:112-121 | a user is only added for a phone nobody has, so every table invariant holds |
| Auth.RefreshExpiration | src/auth/auth.service.ts:560 | the configured lifetime, or '7d' |
| Auth.Issue | src/auth/auth.service.ts:558-586 | a fresh token is stored with the user and now + the parsed days; a clash fails with InternalError |
| Auth.VerifyOtpAndAuthenticate | src/auth/auth.service.ts:103-160 | the OTP table becomes the verification's table (a wrong code counts an attempt, an accepted code deletes its record even when sign-in is then refused); a rejected OTP is BadRequest and writes nothing to users or refresh tokens; otherwise the user is signed in and a refresh token is issued |
| Auth.Authenticate | src/auth/auth.service.ts:108-148 | the database after sign-in and token issue is the one the pure sign-in and issue describe |
| Auth.ProfileCheck | src/auth/auth.service.ts:166-176 | a missing user gives Unauthorized, a step other than PHONE_VERIFIED Conflict |
| Auth.WithRenterProfile | src/auth/auth.service.ts:179-187 | the step becomes PROFILE_COMPLETED with the names; an omitted e-mail keeps the stored one |
| Auth.WithMerchantProfile | src/auth/auth.service.ts:208-262 | as for renters, plus the business: name, address line 1, city, state, postal code and country as given; address line 2, latitude and longitude as given or, when omitted, as stored; nothing else changes |
| Auth.CompleteRenterProfile | src/auth/auth.service.ts:165-203 | nothing is written on failure; on success only that user row is updated |
| Auth.CompleteMerchantProfile | src/auth/auth.service.ts:208-262 | nothing is written on failure; on success only that user row is updated |
| Auth.ProfileCompletedOnce | src/auth/auth.service.ts:174-176 | after either completion both completions refuse with Conflict |
| Auth.SubmitKycCheck | src/auth/auth.service.ts:267-287 | in order: missing user Unauthorized, non-renter Conflict, step not PROFILE_COMPLETED Conflict, existing KYC Conflict |
| Auth.SubmitKyc | src/auth/auth.service.ts:267-316 | nothing is written on failure; on success exactly one PENDING KYC row is added and the step becomes KYC_PENDING |
| Auth.StoreSubmission | src/auth/auth.service.ts:289-306 | the two writes: the KYC row is appended and the owner's step becomes KYC_PENDING |
| Auth.SubmissionKeepsInvariants | src/auth/auth.service.ts:289-306 | a renter's first KYC row keeps every table invariant |
| Auth.RejectedKycBlocksResubmission | src/auth/auth.service.ts:285-287 | after a rejection the owner is back at PROFILE_COMPLETED, yet a new submission is refused as already submitted |
| Auth.NextRegistrationStep | src/auth/auth.service.ts:628-649 | always one of the four step names |
| Auth.GetRegistrationStatus | src/auth/auth.service.ts:321-353 | Unauthorized iff the user is missing; otherwise the user's status and the next step for their registration step and role |
| Auth.NextStepAgreesWithGuards | src/auth/auth.service.ts:628-649 | 'complete_profile' iff profile completion is allowed; for a renter without KYC, 'submit_kyc' iff KYC submission is allowed |
| Auth.Rotate | src/auth/auth.service.ts:358-439 | an empty or unknown token is Unauthorized with no change; an expired one is deleted, then Unauthorized; success stores the new token and deletes the presented one, keeping every other token's row; a clash on the new token is Unauthorized with no change |
| Auth.Refresh | src/auth/auth.service.ts:358-439 | the result and the token table are exactly the rotation's |
| Auth.RefreshTokenOneTimeUse | src/auth/auth.service.ts:415-424 | a rotated token is refused afterwards |
| Auth.LoggedOut | src/auth/auth.service.ts:444-466 | the token is removed and every other token stays; an empty token changes nothing |
| Auth.Logout | src/auth/auth.service.ts:444-466 | never fails; the token table becomes the logged-out table |
| Auth.LogoutIdempotent | src/auth/auth.service.ts:444-466 | logging out twice is logging out once, and a logged-out token no longer refreshes |
| Auth.UnitsPerDay | src/auth/auth.service.ts:601-623 | each unit has at least one per day |
| Auth.ParseExpirationToDays | src/auth/auth.service.ts:601-623 | any text not matching `^\d+[dhms]$` gives 7 |
| Auth.ExpirationRoundsUpToDays | src/auth/auth.service.ts:601-623 | for any digit string, leading zeros included, "<digits>d" gives its value n; h, m and s give the rounded-up quotient of n by 24, 1440 and 86400 |
| Auth.DefaultRefreshLifetime | src/auth/auth.service.ts:560-571 | without configuration the refresh token lives 7 days |
| Reviews.ReviewCheck | src/reviews/reviews.service.ts:15-39 | in order: missing booking NotFound, someone other than its renter Forbidden, not COMPLETED BadRequest, already reviewed BadRequest |
| Reviews.Create | src/reviews/reviews.service.ts:15-65 | nothing is stored on failure; on success exactly one review with the given booking, reviewer, rating and comment is appended |
| Reviews.AddingReviewKeepsReviewsOk | src/reviews/reviews.service.ts:32-47 | a checked review keeps one review per completed booking |
| Reviews.ReviewedOnce | src/reviews/reviews.service.ts:36-39 | once a booking is reviewed, a second review is refused |
| Reviews.Mean | src/reviews/reviews.service.ts:99-100 | mean times count equals the total |
| Reviews.FindByMerchant | src/reviews/reviews.service.ts:67-107 | exactly the reviews of the merchant's bookings, newest first; the count; the average, or 0 with no reviews |
| Reviews.TotalRatingBounds | src/reviews/dto/reviews.dto.ts:9-13 | n ratings from 1 to 5 sum to between n and 5n |
| Reviews.MeanBounds | src/reviews/reviews.service.ts:99-100 | the mean of such a total lies in [1, 5] |
| Reviews.AverageRatingInRange | src/reviews/reviews.service.ts:99-105 | a merchant with reviews has an average rating in [1, 5] |
| Messages.PartyCheck | src/messages/messages.service.ts:19-28 | a missing booking gives NotFound, a caller who is not a party Forbidden |
| Messages.Receiver | src/messages/messages.service.ts:31-32 | the merchant when the renter writes, else the renter; always a party, and never the sender when the parties differ |
| Messages.Create | src/messages/messages.service.ts:13-60 | nothing is stored on failure; on success one message with the booking, sender, receiver and unchanged content is appended |
| Messages.MarkRead | src/messages/messages.service.ts:93-102 | exactly the booking's unread messages to the caller become read; every other message is unchanged |
| Messages.MarkReadIdempotent | src/messages/messages.service.ts:93-102 | marking twice is marking once |
| Messages.FindByBooking | src/messages/messages.service.ts:62-106 | the same guards; the booking's messages oldest first as they were before the update, after which the caller's are marked read |

## Left out

- SHA-256, `Math.random`, JWT signing and verification, and S3 presigning are foreign primitives.
  They are parameters: `hash`, a random `draw`, the new token text, and `presign`.
- The WhatsApp Graph API client and the SMTP notifications client are not modelled. OTP
  deliveries go to `sent` and e-mails to `Database.outbox`; neither can fail, because the
  source swallows their errors.
- Concurrency is not modelled. The OTP read, increment and compare steps and the booking check
  and update steps run in sequence; races between requests are out of scope.
- Logging, the hourly cron trigger of the OTP cleanup and the request throttler are not modelled.
- Review average rounding (`Math.round(avg * 10) / 10`) is floating point. `Reviews.FindByMerchant`
  states the exact mean instead.
- `Number(vehicle.pricePerDay)` is a decimal conversion; prices are whole money units.
- The system-config number parse is a parameter. So are the cancellation-window key and default,
  which live in a constants table outside this model.
- `Helpers.CalculateExpiry`, and with it the refresh-token expiry, is exact millisecond
  arithmetic. Local-time `setDate` and daylight-saving shifts are not modelled.
- `Auth.ParseExpirationToDays`: `parseInt` is exact here; precision loss beyond 2^53 is not modelled.
- `Auth.Issue` does not model `generateTokens`' check that the user id is non-zero. Ids here are
  positions standing for Prisma's positive ids.
- `Auth.Rotate` has no branch for a user deleted under a live token. The token table's foreign
  key (`TokensOk`) rules that case out.
- `Auth.NextRegistrationStep`: the fall-through 'unknown' cannot be reached for any step and
  role, so it is absent.
- `Auth.SendOtp` does not model a database failure inside the OTP send, which the source
  swallows.
- The JWT strategy's user lookup, all controllers and modules, and the DTO validators are not
  modelled. Validator constraints are carried as preconditions: ratings from 1 to 5, and an OTP
  draw below 900000.
- The service has no booking cancellation and no overlap check at booking creation, so neither
  is modelled. Overlap appears only in the vehicle search.
- Several DTOs lag their services. The model follows the services: `imageKeys`, `licenseKey` and
  `licenseImageKey`.
- `Vehicles.Create` drops the request's `images` field, as the service's mapping does.
- Vehicles.Remove: the delete rule of the relation from bookings to vehicles lives in the Prisma
  schema, which is not part of this model. The model deletes the vehicle and keeps its bookings,
  whose `vehicleId` then names no vehicle; `BookingsOk` has no vehicle key. A restrictive rule
  (P2003, answered 400 by src/common/filters/prisma-exception.filter.ts:62-66) or a cascade is
  not modelled.
- Helpers.FormatToE164: the default argument `countryCode = '+91'` is not modelled; the country
  code is always passed.
- Helpers.Truncate, Helpers.MaskPhone and Helpers.Capitalize count Dafny characters, not UTF-16
  code units, so lengths differ from JavaScript's for characters outside the Basic Multilingual
  Plane.
- Otp.Newest: among records with equal `createdAt` (or `lastSentAt`), the one inserted last wins;
  the database's `orderBy ... desc` leaves that tie unspecified.
- WhatsApp.HandleWebhook: payloads are typed, so a null body or a non-iterable `entry` cannot be
  expressed; the source catches the resulting exception and answers 'error'.
- The merchant business columns are grouped into one optional `Business` value.
- `users.service.ts` `getProfile`/`updateProfile`, `kyc.service.ts` `getKYCStatus` and
  `DateUtils` are outside the modelled core.

## Findings

| source | as written | input that shows it | evidently intended | confidence | as-written member | corrected member |
|---|---|---|---|---|---|---|
| src/bookings/bookings.service.ts:21-27 | the renter is looked up and its role read without a null check, so a missing renter throws a TypeError that becomes a 500 | `create(renterId = an id with no user, dto)` | NotFound('User not found'), as src/bookings/bookings.service.spec.ts:25-36 requires | high; not executed | Bookings.MissingRenterAsWritten | Bookings.CreateBooking |
| src/bookings/bookings.service.ts:48-51 | dates are never compared, so end <= start stores a PENDING booking with days <= 0 and a non-positive total price | approved renter, available vehicle, `endDate == startDate` | BadRequest before any write, as src/bookings/bookings.service.spec.ts:38-64 requires | high; not executed | Bookings.BackwardsDatesAsWritten | Bookings.CreateBooking |
