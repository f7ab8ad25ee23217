# A verified model of the LMS backend and client

This project models the core of a learning-management system in Dafny. The system has an Express/Mongoose backend and a React client. Students browse courses, enrol and watch lectures. Educators publish and edit courses. Sign-up and sign-in can use one-time passwords.

Each core source file becomes one module, and each module takes the form of its source:
- Pure helpers become functions with lemmas about them.
- Mongoose documents and stores, and React components with state, become classes. Their methods change the fields they name in `modifies`, and each is tied to a specification function.
- Loops the source runs stay `while` loops with invariants.

The modules, in dependency order:

- `Js`: the JavaScript semantics the code relies on. It covers falsy fields, `trim`, `includes`, `Math.round` and `Math.floor`, number-to-text conversion, `splice`, and `.length` as a count of UTF-16 code units (a character beyond U+FFFF counts twice). `toLowerCase` is modelled on ASCII letters only.
- `EmailPattern`: the three e-mail regular expressions the system uses. Each is written as the set of strings it matches, and the lemmas relate the three.
- `BackendValidation` (`Backend/utils/validation.js`):
  - e-mail and password checks;
  - the per-key failed-login limiter, five failures lock a key for fifteen minutes;
  - course-data validation.
- `AuthController` (`Backend/controllers/authController.js`): `register`, `login` with its lock-out gate, and `completeLogin`. Password hashing and token signing are function parameters.
- `OtpModel` (`Backend/models/OTP.js`): the one-time-password document, with its defaults, expiry, attempt counter and verification flag.
- `OtpService` (`Backend/services/otpService.js`): creating, verifying, resending and reporting codes over a store of documents. The store keeps at most one pending code per identifier and purpose.
- `OtpController` (`Backend/controllers/otpController.js`): the HTTP status and body of each OTP endpoint.
- `EnrollmentController` and `StudentController` (`Backend/controllers/`): enrolment, the enrolled-course list and progress.
- `AuthMiddleware` (`Backend/middleware/authMiddleware.js`): the bearer-token check.
- `SsrData` (`Backend/services/ssrDataService.js`): the data the server pre-renders, namely the featured and newest courses and the platform figures.
- `LlmRoutes` (`Backend/routes/llmRoutes.js`): the keyword-matched canned answers and the `/complete` endpoint.
- `YouTube`, `ClientValidation`, `ClientCourse`: the client's video-id extraction, its validation and formatting utilities, and the course shape the pages share.
- `AppContext` (`client/src/context/AppContext.jsx`): the stored session, logout, and the derived rating, duration and lecture count.
- One module per page or component:
  - `CourseDetails`, `Player`, `MyEnrollments`, `CourseCard`, `CoursesList` (the student pages);
  - `EditCourse` (the educator's editor);
  - `Authentication`, `AuthForm`, `OtpVerification` (the sign-in forms);
  - `App` (the route table and its guard).

In the model:
- Time is a parameter `now`.
- Randomness is a choice within the generator's range.
- Answers from the network and the database are parameters.

Some behaviour worth knowing, each stated by a lemma below:
- The sign-in page sends no `role`, so `register` refuses every sign-up from it (`Authentication.RegisterRequestLacksRole`).
- The shared form validates the untrimmed fields but sends the trimmed ones (`AuthForm.TrimmedPasswordRefused`).
- The shared form's unanchored pattern admits `a b@c.d`, which the backend refuses (`AuthForm.LooseEmailRefused`).
- The validation utility's e-mail check is stricter than the one `register` applies (`AuthController.RegisterEmailCheckIsWeaker`).
- The enrolments page labels a whole number of hours with a trailing space (`MyEnrollments.DurationLabelSplit`).
- The details page's total duration is NaN once a lecture has no duration, while the player counts such a lecture as zero (`Player.ChapterMinutesVsDetails`).
- A negative discount raises the price with no badge to say so (`CourseCard.BadgeIffReduced`).

## Model

| member | source | states |
|---|---|---|
| Js.Utf16Length | Backend/utils/validation.js:15 | `.length` counts each character one or two code units, never fewer than the characters nor more than twice as many |
| Js.BasicPlaneLength | Backend/utils/validation.js:15 | a string with no character beyond U+FFFF is as long as its characters |
| Js.AstralLength | Backend/utils/validation.js:15 | a character beyond U+FFFF makes the length exceed the character count |
| Js.NatToStringRoundTrip | Backend/services/ssrDataService.js:59 | the decimal text of a number reads back as that number |
| Js.DigitsLength | client/src/components/OTPVerification.jsx:109 | a digit string is as long as its characters |
| EmailPattern.EmailShapeIsRegex | Backend/controllers/authController.js:19 | the anchored pattern matches exactly the strings with one '@' after a non-empty part without spaces, and a domain with an inner dot and no spaces |
| EmailPattern.ClientRegexIsBackendRegex | client/src/utils/validation.js:5 | the client utility's pattern with its optional dot groups accepts exactly what the backend's pattern accepts |
| EmailPattern.AnchoredImpliesLoose | client/src/components/AuthForm.jsx:26 | every address the anchored pattern accepts passes the form's unanchored `\S+@\S+\.\S+` test |
| EmailPattern.LooseAcceptsSpace | client/src/components/AuthForm.jsx:26 | `a b@c.d` passes the unanchored test, and the anchored pattern refuses it |
| BackendValidation.LocalPart | Backend/utils/validation.js:7 | the text before the first `@`, or the whole address when there is none |
| BackendValidation.ValidateEmail | Backend/utils/validation.js:2-10 | true exactly for a non-empty address of the anchored `local@domain.tld` shape with no `..` before the `@` |
| BackendValidation.ValidatePassword | Backend/utils/validation.js:13-16 | true exactly when the password is at least six UTF-16 code units long |
| BackendValidation.ThreeEmojiPasswordAccepted | Backend/utils/validation.js:13-16 | three characters beyond U+FFFF make a long enough password |
| BackendValidation.EntryOrFresh | Backend/utils/validation.js:25 | the stored entry of a present key, `{count 0, lockUntil 0}` for an absent one |
| BackendValidation.AttemptTable.constructor | Backend/controllers/authController.js:7 | the limiter map starts empty |
| BackendValidation.AttemptTable.Delete | Backend/utils/validation.js:21 | removes exactly the given key |
| BackendValidation.AttemptTable.UpdateLoginAttempts | Backend/utils/validation.js:19-44 | the new map is the specification `AfterUpdate` of the old one: delete on success; on failure bump, lock at the threshold, store, and clean up above 100 entries |
| BackendValidation.IsUserLockedOut | Backend/utils/validation.js:47-53 | locked exactly when the key is stored with `lockUntil > now` |
| BackendValidation.RemainingLockoutTime | Backend/utils/validation.js:56-64 | 0 exactly when the key is not locked out; otherwise the least whole number of minutes covering `lockUntil - now`, at least 1 |
| BackendValidation.AfterUpdate | Backend/utils/validation.js:19-44 | the map after one limiter update, both clock reads as one `now`; its cases are stated by `SuccessForgetsKey`, `FirstFailure`, `FailureBelowThreshold`, `FailureAtThreshold` and `FailureCleanup` |
| BackendValidation.SuccessForgetsKey | Backend/utils/validation.js:20-23 | a success removes the key and leaves every other entry unchanged |
| BackendValidation.FailureWritesKey | Backend/utils/validation.js:25-33 | after a failure the key holds the bumped entry (non-negative lockout time, non-negative count) |
| BackendValidation.FirstFailure | Backend/utils/validation.js:25-33 | the first failure of an absent key stores count 1 and lockUntil 0 |
| BackendValidation.FailureBelowThreshold | Backend/utils/validation.js:26-33 | a failure below the threshold adds one to the count and keeps lockUntil |
| BackendValidation.FailureAtThreshold | Backend/utils/validation.js:28-31 | the failure that reaches the threshold stores count 0 and lockUntil `now + lockoutTime` |
| BackendValidation.FailureCleanup | Backend/utils/validation.js:36-43 | cleanup happens only above 100 entries and then removes exactly the entries with `lockUntil < now` and count 0; no other key changes |
| BackendValidation.FifthFailureLocks | Backend/utils/validation.js:19-33 | with the defaults, failures one to four of a fresh key count 1..4 unlocked and the fifth locks it for fifteen minutes |
| BackendValidation.LockedRightAfterThreshold | Backend/utils/validation.js:28-63 | right after the locking failure the key is locked out and the remaining time is `ceil(lockoutTime / 60000)` minutes |
| BackendValidation.CourseMessages | Backend/utils/validation.js:67-89 | the failing checks' messages in check order; `CourseMessagesFacts` states each is present exactly when its check fails |
| BackendValidation.CourseMessagesFacts | Backend/utils/validation.js:67-89 | each of the four messages is present exactly when its check fails, and the list is empty exactly when all pass |
| BackendValidation.CollectMessages | Backend/utils/validation.js:68-84 | the pushed list is the failing checks' messages in check order |
| BackendValidation.ValidateCourseData | Backend/utils/validation.js:67-90 | title trimmed < 3, description trimmed < 10, missing/zero/negative price, missing thumbnail each give their message, in that order; `isValid` exactly when none fails |
| AuthController.LoginKey | Backend/controllers/authController.js:82-89 | the key is the address (`unknown` when missing), a colon, then the e-mail as its last characters |
| AuthController.LoginGate | Backend/controllers/authController.js:84-113 | missing fields first (400, map untouched), then a lock on the key (429 with the rounded-up minutes), then unknown user or wrong password, else the user |
| AuthController.RegisterRejection | Backend/controllers/authController.js:14-33 | the first failing check in order: four fields present, e-mail pattern, password of six UTF-16 code units, no existing user |
| AuthController.RegisterEmailCheckIsWeaker | Backend/controllers/authController.js:19-20 | every address the validation utility accepts passes `register`'s pattern |
| AuthController.RegisterAcceptsDoubleDot | Backend/controllers/authController.js:19-20 | `a..b@c.d` passes `register`'s pattern but not the utility's `validateEmail` |
| AuthController.FiveFailedLoginsLock | Backend/controllers/authController.js:89-113 | with the defaults, four wrong logins from a fresh key still reach the password check and the fifth leaves the key locked, so the next login answers 429 |
| AuthController.Auth.constructor | Backend/controllers/authController.js:7-9 | empty limiter map and user collection |
| AuthController.Auth.UpdateLoginAttempts | Backend/controllers/authController.js:211-236 | the controller's copy behaves as the utility with `MAX_ATTEMPTS` 5 and `LOCKOUT_TIME` 15 minutes |
| AuthController.SameAddressKeysDiffer | Backend/controllers/authController.js:82-89 | from one address two e-mails share a limiter key exactly when they are the same e-mail |
| AuthController.Auth.Register | Backend/controllers/authController.js:11-78 | a rejected request answers 400 with its message and creates nothing; past the checks an unverified registration OTP answers 400; an accepted request whose pair has records, all verified, is signed when its role is `student` or `educator` and answers 500 otherwise; a stored user gets the token claims and the reply the user without password |
| AuthController.Auth.Login | Backend/controllers/authController.js:80-157 | missing fields and locks leave the map unchanged; bad credentials record one failure and answer 400; good credentials without a verified login OTP answer `requiresOTP` with the map unchanged; good credentials whose pair has records, all verified, delete the key and answer 200 with the user's view and claims |
| AuthController.Auth.CompleteLogin | Backend/controllers/authController.js:160-209 | the same checks without the limiter, which it neither reads nor writes; a token only with a verified login OTP, and always one when the credentials match and every login record of the pair is verified |
| OtpModel.ParsePurpose | Backend/models/OTP.js:18-22 | a purpose is accepted exactly when it is one of `registration`, `login`, `password_reset`, and then names that purpose |
| OtpModel.PurposeNameRoundTrip | Backend/models/OTP.js:18-22 | every purpose's name passes the enum check and parses back to the same purpose |
| OtpModel.Otp.constructor | Backend/models/OTP.js:3-41 | a new record has `isVerified` false, `attempts` 0, `maxAttempts` 3, purpose `registration` when omitted, and is created at `now` |
| OtpModel.Otp.Load | Backend/models/OTP.js:3-41 | a hydrated document holds exactly the stored fields |
| OtpModel.Otp.IncrementAttempts | Backend/models/OTP.js:57-60 | `attempts` goes up by exactly one and no other field changes |
| OtpModel.Otp.MarkAsVerified | Backend/models/OTP.js:63-66 | `isVerified` becomes true and no other field changes |
| OtpModel.Otp.IsExpired | Backend/models/OTP.js:47-49 | expired strictly after `expiresAt`, as `ExpiryIsStrict` states at the boundary |
| OtpModel.Otp.IsMaxAttemptsExceeded | Backend/models/OTP.js:52-54 | exhausted once the attempts reach the cap; `FreshRecordHasThreeAttempts` states three attempts with the default cap |
| OtpModel.ExpiryIsStrict | Backend/models/OTP.js:47-49 | a record is not expired at the instant `expiresAt` and is one millisecond later |
| OtpModel.FreshRecordHasThreeAttempts | Backend/models/OTP.js:35-38 | with the default cap a record is exhausted exactly from three attempts on |
| OtpService.IsValidPhone | Backend/services/otpService.js:23-26 | true exactly for an optional `+` followed by ten or more digits, white space, `-`, `(` or `)` |
| OtpService.EmailAndPhoneDisjoint | Backend/services/otpService.js:17-26 | no identifier is both an e-mail address and a phone number |
| OtpService.GetIdentifierType | Backend/services/otpService.js:29-36 | `email` exactly when the e-mail pattern matches, `phone` exactly when only the phone pattern does, else the invalid-identifier error |
| OtpService.GeneratedCodeHasSixDigits | Backend/services/otpService.js:12-14 | every value in [100000, 999999) renders as six decimal digits without a leading zero |
| OtpService.GenerateOTP | Backend/services/otpService.js:12-14 | the code is a drawn value of the range, six digits long |
| OtpService.DeletePending | Backend/services/otpService.js:106-110 | keeps exactly the records that are not unverified records of the pair |
| OtpService.DeletePendingIdempotent | Backend/services/otpService.js:106-110 | deleting a second time removes nothing more |
| OtpService.DeletePendingKeepsUnique | Backend/services/otpService.js:106-110 | deleting keeps every pair at most one unverified record |
| OtpService.UniquePendingCons | Backend/services/otpService.js:113-121 | adding a record that no other unverified record pairs with keeps pending records unique |
| OtpService.FindPending | Backend/services/otpService.js:144-148 | the index of the first unverified record of the pair, or -1 when there is none |
| OtpService.PendingIsFound | Backend/services/otpService.js:144-148 | in a store with unique pending records, `findOne` finds the only one |
| OtpService.CreateSpec | Backend/services/otpService.js:94-138 | the create's answer and store; `CreateLeavesOnePending`, `CreateRefusals` and `CreateKeepsUnique` state what it leaves |
| OtpService.CreateLeavesOnePending | Backend/services/otpService.js:94-121 | after a create that saves, the pair has exactly one unverified record, with the drawn code and expiry ten minutes from now, and verified records are untouched |
| OtpService.SavedBeforeDelivery | Backend/services/otpService.js:121-124 | the store after a failed e-mail delivery is the store after a successful one, and the failure answers the delivery error |
| OtpService.CreateRefusals | Backend/services/otpService.js:96 | a refused identifier answers its error and leaves the store unchanged; a purpose outside the enum fails the save with the store unchanged |
| OtpService.NoRecordHasUnknownPurpose | Backend/services/otpService.js:106-110 | deleting by a purpose outside the enum removes nothing |
| OtpService.CreateKeepsUnique | Backend/services/otpService.js:94-121 | creating keeps every pair at most one unverified record |
| OtpService.VerifyRefusalsChangeNothing | Backend/services/otpService.js:144-162 | no record, expired, exhausted are refused in that order, each with its message and the store unchanged |
| OtpService.VerifySpec | Backend/services/otpService.js:141-185 | the verify's answer and store; `VerifyConsumesAttempt` states the attempt it spends and the record it verifies |
| OtpService.VerifyConsumesAttempt | Backend/services/otpService.js:165-173 | past the checks every call adds one attempt; the record is verified exactly when the code matches; a wrong code answers its message; no other record changes |
| OtpService.VerifySpecPastChecks | Backend/services/otpService.js:165-180 | the store and answer after the three checks pass |
| OtpService.VerifyKeepsUnique | Backend/services/otpService.js:141-185 | verifying keeps every pair at most one unverified record |
| OtpService.SecondVerifyFindsNothing | Backend/services/otpService.js:144-152 | after a successful verification the next verification of the pair answers "No OTP found" |
| OtpService.WrongTriesCount | Backend/services/otpService.js:165-170 | `n` wrong tries on a live record add exactly `n` attempts and leave it unverified and first |
| OtpService.FirstPendingStays | Backend/services/otpService.js:165 | changing only the attempts of the first unverified record keeps it first |
| OtpService.WrongTriesLockOut | Backend/services/otpService.js:159-170 | once wrong tries have used every attempt, the right code is refused as exhausted |
| OtpService.ResendSpec | Backend/services/otpService.js:188-203 | the resend's answer and store; `ResendIsCreate` states that it is a create after dropping the pair's unverified records |
| OtpService.ResendIsCreate | Backend/services/otpService.js:188-203 | with an accepted identifier `resendOTP` is `createAndSendOTP`; with a refused one the pair's unverified records are gone anyway |
| OtpService.OtpStore.constructor | Backend/models/OTP.js:68 | the collection starts empty |
| OtpService.OtpStore.CreateAndSendOTP | Backend/services/otpService.js:94-138 | the answer and the new store are `CreateSpec` for some generated code |
| OtpService.OtpStore.VerifyOTP | Backend/services/otpService.js:141-185 | the answer and the new store are `VerifySpec` |
| OtpService.OtpStore.ResendOTP | Backend/services/otpService.js:188-203 | the answer and the new store are `ResendSpec` for some generated code |
| OtpService.OtpStore.GetOTPStatus | Backend/services/otpService.js:206-228 | "No OTP found" exactly when no record of the pair exists, verified or not; otherwise the status of one such record |
| OtpController.PurposeOrDefault | Backend/controllers/otpController.js:6 | an absent purpose becomes `registration`; a present one is kept as sent |
| OtpController.ErrorReply | Backend/controllers/otpController.js:39-46 | a service error becomes a 400 with `success` false and the error's message, or the handler's fallback when the message is empty |
| OtpController.SendOtpRejection | Backend/controllers/otpController.js:9-23 | a missing identifier answers 400 first; then a purpose outside the three names answers 400; otherwise the service is called |
| OtpController.VerifyOtpRejection | Backend/controllers/otpController.js:55-68 | the service is called exactly when identifier and code are present and the code is six digits; the two refusals' messages in order |
| OtpController.IdentifierRejection | Backend/controllers/otpController.js:99-104 | the only check of `resendOTP` and `getOTPStatus` is the identifier's presence |
| OtpController.SentReply | Backend/controllers/otpController.js:28-46 | a sent code answers 200 with the service's message and the identifier, type, purpose and expiry; an error answers `ErrorReply` |
| OtpController.VerifyReply | Backend/controllers/otpController.js:73-90 | a verified code answers 200 with the identifier and purpose; an error answers `ErrorReply` with "Failed to verify OTP" as fallback |
| OtpController.IssuedCodesPassFormatCheck | Backend/controllers/otpController.js:62-68 | every code the service issues passes the six-digit check |
| OtpController.OnlySendChecksPurpose | Backend/controllers/otpController.js:17-23 | `sendOTP` refuses a purpose outside the enum while `resendOTP` passes it to the service |
| OtpController.ServiceMessagesShown | Backend/controllers/otpController.js:83-90 | the service's verification errors are never empty, so the reply shows them instead of the fallback |
| OtpController.SendOTP | Backend/controllers/otpController.js:4-47 | a refused request answers without calling the service and leaves the store unchanged; otherwise the reply is `SentReply` of the service's create |
| OtpController.VerifyOTP | Backend/controllers/otpController.js:50-91 | a refused request leaves the store unchanged; otherwise the reply is `VerifyReply` of the service's verification with the defaulted purpose |
| OtpController.ResendOTP | Backend/controllers/otpController.js:94-128 | a missing identifier answers 400 with the store unchanged; otherwise the reply is `SentReply` of the service's resend |
| OtpController.GetOTPStatus | Backend/controllers/otpController.js:131-159 | a missing identifier answers 400; otherwise 200 with the service's status for the defaulted purpose: `No OTP found` when no record of the pair exists, else the status of one stored record of that pair |
| EnrollmentController.FindEnrollment | Backend/controllers/enrollmentController.js:19-22 | the index of the first enrolment of the (student, course) pair, or -1 when there is none |
| EnrollmentController.FindLecture | Backend/controllers/enrollmentController.js:83 | the index of the first progress entry of the lecture, or -1 when there is none |
| EnrollmentController.Upsert | Backend/controllers/enrollmentController.js:83-93 | a new lecture appends one completed entry stamped `now`; a present one is set completed and restamped, same length, other entries unchanged |
| EnrollmentController.UpsertRecordsLecture | Backend/controllers/enrollmentController.js:83-93 | with unique lectures before, the lecture has exactly one completed entry after, lectures stay unique and every other entry is kept |
| EnrollmentController.UpsertTwiceKeepsLength | Backend/controllers/enrollmentController.js:83-93 | marking the same lecture twice adds no second entry |
| EnrollmentController.EnrollmentsOf | Backend/controllers/enrollmentController.js:7 | exactly the enrolments of the student |
| EnrollmentController.EnrollmentStore.constructor | Backend/controllers/enrollmentController.js:1 | the enrolment collection starts empty |
| EnrollmentController.EnrollmentStore.EnrollCourse | Backend/controllers/enrollmentController.js:15-48 | an existing pair answers 400 "Already enrolled" before the course lookup; a missing course answers 404; otherwise one completed enrolment with empty progress and the course price is appended, pairs staying unique |
| EnrollmentController.EnrollmentStore.GetCourseProgress | Backend/controllers/enrollmentController.js:51-65 | 404 without an enrolment, otherwise its progress list |
| EnrollmentController.EnrollmentStore.UpdateCourseProgress | Backend/controllers/enrollmentController.js:68-97 | 404 and no change without an enrolment; otherwise only that enrolment's progress changes, to its `Upsert` |
| EnrollmentController.EnrollmentStore.GetEnrolledCourses | Backend/controllers/enrollmentController.js:6-12 | exactly the stored enrolments of the student |
| EnrollmentController.NewEnrollmentShape | Backend/controllers/enrollmentController.js:37-45 | the new enrolment keeps the pairs unique and its fields are those written |
| StudentController.AppendAbsentKeepsNoDuplicates | Backend/controllers/studentController.js:20-27 | appending a student not in the list keeps it duplicate-free |
| StudentController.AddToSet | Backend/controllers/studentController.js:31-33 | `$addToSet` holds the course afterwards, adds at most it, and changes nothing when it is already present |
| StudentController.CoursesOf | Backend/controllers/studentController.js:49-51 | exactly the courses whose student list holds the student |
| StudentController.Catalog.constructor | Backend/controllers/studentController.js:1-2 | no courses and no users |
| StudentController.Catalog.EnrollInCourse | Backend/controllers/studentController.js:5-41 | a missing course answers 404 before the duplicate check; an enrolled student answers 400 with nothing changed; otherwise the student is appended once and the user's course set gains the course |
| StudentController.Catalog.GetEnrolledCourses | Backend/controllers/studentController.js:44-58 | the courses whose list holds the student, which is the user's own set |
| StudentController.EnrollKeepsCoursesOf | Backend/controllers/studentController.js:26-33 | appending the student to one course adds exactly that course to the student's result and changes nobody else's |
| AuthMiddleware.RequestUser | Backend/middleware/authMiddleware.js:18-21 | every decoded field is kept and `_id` holds `id` (absent when `id` is) |
| AuthMiddleware.TokenOf | Backend/middleware/authMiddleware.js:12 | the token is what follows the seven-character prefix: prefix plus token is the header |
| AuthMiddleware.Protect | Backend/middleware/authMiddleware.js:3-26 | a missing header or one without the case-sensitive `Bearer ` prefix answers 401 "No token provided"; a failed verification answers 401 "Invalid token"; otherwise `next` with the decoded claims plus `_id` |
| AuthMiddleware.BearerRoundTrip | Backend/middleware/authMiddleware.js:8-22 | a header `Bearer ` + token hands exactly that token to the verifier |
| AuthMiddleware.LowerCaseSchemeRefused | Backend/middleware/authMiddleware.js:8-10 | a `bearer ` header is refused whatever the token |
| AuthMiddleware.BareSchemeReachesVerifier | Backend/middleware/authMiddleware.js:8-16 | the bare `Bearer ` header passes the prefix test and the verifier sees the empty token |
| AuthMiddleware.RequestUserIdempotent | Backend/middleware/authMiddleware.js:18-21 | mapping the claims twice gives the same user as once |
| SsrData.TestimonialOf | Backend/services/ssrDataService.js:26-32 | a reviewed rating gives its quote, course title and rating, the student's name or `Anonymous`, and the student's avatar when present, else `''` |
| SsrData.ReviewsOf | Backend/services/ssrDataService.js:24-34 | one testimonial per reviewed rating, none for the others, in rating order |
| SsrData.AllTestimonials | Backend/services/ssrDataService.js:23-35 | every testimonial has a non-empty quote |
| SsrData.RatedCourses | Backend/services/ssrDataService.js:18 | exactly the published courses with at least one rating |
| SsrData.AppendReviews | Backend/services/ssrDataService.js:24-34 | the inner loop appends, in order, a testimonial for each reviewed rating of the course to what came before |
| SsrData.GetTestimonials | Backend/services/ssrDataService.js:22-36 | the loops build the course-then-rating list of testimonials cut to its first six |
| SsrData.ReviewsOfCount | Backend/services/ssrDataService.js:24-34 | a course contributes exactly as many testimonials as it has reviewed ratings |
| SsrData.AllTestimonialsAppend | Backend/services/ssrDataService.js:23-35 | the testimonials of earlier courses all come before those of later ones |
| SsrData.LectureCount | Backend/services/ssrDataService.js:59 | the number of lectures over all chapters; `LectureCountAppend` states that it adds up over chapters |
| SsrData.LectureCountAppend | Backend/services/ssrDataService.js:59 | the lecture count adds up over chapters |
| SsrData.EmptyChapterAddsNothing | Backend/services/ssrDataService.js:59 | a chapter without a `lectures` array counts 0 |
| SsrData.Duration | Backend/services/ssrDataService.js:59 | a run of decimal digits that reads back as the lecture count (absent content counting as none), followed by ` lectures` |
| SsrData.MapCourse | Backend/services/ssrDataService.js:52-60 | id, title, description, price and thumbnail are copied, the educator is the populated name or `Educator`, the duration as above |
| SsrData.GetCourseData | Backend/services/ssrDataService.js:70-85 | `null` for an unknown id, otherwise the mapped course |
| SsrData.Published | Backend/services/ssrDataService.js:10 | exactly the published courses, drawn from the collection |
| SsrData.InsertKeepsOrder | Backend/services/ssrDataService.js:11 | inserting one course into a newest-first list keeps it newest first |
| SsrData.SortNewestFirst | Backend/services/ssrDataService.js:11 | a permutation of the input ordered by `createdAt`, newest first |
| SsrData.LeftOutIsOlder | Backend/services/ssrDataService.js:11-12 | in a newest-first list nothing past the first `n` is newer than those kept |
| SsrData.Featured | Backend/services/ssrDataService.js:10-12 | the featured courses; `FeaturedArePublished`, `FeaturedCount` and `FeaturedAreNewest` state what they are |
| SsrData.FeaturedArePublished | Backend/services/ssrDataService.js:10-12 | the featured courses are published courses of the collection, newest first |
| SsrData.FeaturedCount | Backend/services/ssrDataService.js:12 | six courses when at least six are published, otherwise all of them |
| SsrData.FeaturedAreNewest | Backend/services/ssrDataService.js:10-12 | no published course left out is newer than one shown |
| SsrData.CountPublished | Backend/services/ssrDataService.js:40 | never more than the courses, and zero exactly when no course is published |
| SsrData.CountRole | Backend/services/ssrDataService.js:41-42 | at most the number of users, 0 exactly when no user has the role |
| SsrData.RolesCountedOnce | Backend/services/ssrDataService.js:41-42 | students and educators together are at most all users |
| SsrData.GetPlatformStats | Backend/services/ssrDataService.js:88-99 | published courses, students and educators, counted |
| SsrData.MapAll | Backend/services/ssrDataService.js:52-60 | each course mapped in place |
| SsrData.GetSSRData | Backend/services/ssrDataService.js:8-67 | the featured courses mapped (at most six), the first six testimonials of the rated courses, and the statistics |
| LlmRoutes.FirstMatch | Backend/routes/llmRoutes.js:59-63 | the first entry, in table order, whose key occurs in the prompt, or -1 when none does |
| LlmRoutes.GetMockResponse | Backend/routes/llmRoutes.js:55-66 | the completion of the first key contained in the lower-cased, trimmed prompt, else the default entry |
| LlmRoutes.DefaultIsLastEntry | Backend/routes/llmRoutes.js:51 | the `default` key is the table's last entry |
| LlmRoutes.JavascriptShadowsJava | Backend/routes/llmRoutes.js:22-45 | a prompt starting with `javascript` gets that entry, not the later `java` one it also contains |
| LlmRoutes.TrimOfPrefix | Backend/routes/llmRoutes.js:56 | trimming keeps a leading stretch without white space |
| LlmRoutes.BlankPromptGetsDefault | Backend/routes/llmRoutes.js:56-65 | a prompt of only white space gets the default completion |
| LlmRoutes.KeysAreNonEmpty | Backend/routes/llmRoutes.js:20-52 | no key of the table is empty |
| LlmRoutes.NothingMatchesEmpty | Backend/routes/llmRoutes.js:59-63 | no non-empty key occurs in the empty prompt |
| LlmRoutes.ChooseBackend | Backend/routes/llmRoutes.js:122-131 | mock exactly in mock mode, custom exactly when not mocked and a custom URL is set, else Ollama |
| LlmRoutes.ModelLabel | Backend/routes/llmRoutes.js:137 | the label follows the same choice: `mock`, `custom` or the Ollama model |
| LlmRoutes.Complete | Backend/routes/llmRoutes.js:110-147 | a missing prompt answers 400; mock mode answers the table's completion; otherwise the chosen server's answer, or 500 when it fails |
| LlmRoutes.MockModeMakesNoCall | Backend/routes/llmRoutes.js:122-124 | in mock mode the reply does not depend on either outside service and always succeeds for a prompt |
| YouTube.MarkerAt | client/src/utils/validation.js:23 | a marker alternative at a position ends in `/` or `=` and starts with the two characters of some marker; the `.` of `youtu.be` takes one code unit |
| YouTube.LastStart | client/src/utils/validation.js:23-24 | the rightmost position up to `p` where the marker group may start, with no such position after it |
| YouTube.RunEnd | client/src/utils/validation.js:23 | the end of the longest run without `#`, `&` or `?` from `q` |
| YouTube.Group2 | client/src/utils/validation.js:23-24 | no match exactly when no marker can start anywhere; otherwise group 2 follows the rightmost marker |
| YouTube.MatchIsRightmost | client/src/utils/validation.js:23-24 | a marker at `p` with none after it gives the match |
| YouTube.LastStartIs | client/src/utils/validation.js:23-24 | the search from any later point finds the rightmost marker |
| YouTube.ExtractIdUtils | client/src/utils/validation.js:18-40 | null or 11 UTF-16 code units; when the pattern fails only an id of exactly 11 characters of `[a-zA-Z0-9_-]` is returned, unchanged |
| YouTube.IdCharsLength | client/src/utils/validation.js:29 | a string of id characters is as many code units long as it has characters |
| YouTube.ExtractIdCourseDetails | client/src/pages/student/CourseDetails.jsx:114-131 | null or 11 UTF-16 code units; when the pattern fails any input of 11 code units is returned |
| YouTube.ExtractIdPlayer | client/src/pages/student/Player.jsx:65-70 | null or 11 UTF-16 code units, and null whenever the pattern fails |
| YouTube.CopiesAgreeOnMatches | client/src/pages/student/Player.jsx:65-70 | on a URL the pattern matches, the three copies give the same answer |
| YouTube.CopiesAreNested | client/src/pages/student/CourseDetails.jsx:114-131 | what the player copy accepts the utilities copy accepts with the same id, and likewise utilities then course details |
| YouTube.NoMarkerInIdChars | client/src/utils/validation.js:23-29 | a run of id characters holds no marker |
| YouTube.RunEndOfIdChars | client/src/utils/validation.js:23 | a run of id characters holds no `#`, `&` or `?` |
| YouTube.IdAfterLastMarker | client/src/utils/validation.js:18-35 | a URL whose last marker is followed by an 11-character id gives that id |
| YouTube.WatchUrl | client/src/utils/validation.js:18-35 | `...watch?v=<id>` gives the id whatever precedes the marker |
| YouTube.ShortUrl | client/src/utils/validation.js:18-35 | `...youtu.be/<id>` gives the id whatever precedes the marker |
| YouTube.NoMarkerWithoutEnders | client/src/utils/validation.js:23 | a string with no `/` and no `=` holds no marker |
| YouTube.BareFallbacksDiffer | client/src/pages/student/CourseDetails.jsx:122-127 | `hello world` is an id to the course details copy and not to the utilities copy |
| ClientValidation.ValidateEmail | client/src/utils/validation.js:2-9 | true exactly for a present address without `..` anywhere that matches the `local@domain.tld` pattern |
| ClientValidation.ValidatePassword | client/src/utils/validation.js:12-15 | true exactly for a present password of at least six UTF-16 code units |
| ClientValidation.PasswordValidatorsAgree | client/src/utils/validation.js:12-15 | the client and backend password validators agree on every password |
| ClientValidation.ClientEmailImpliesBackend | client/src/utils/validation.js:2-9 | every address the client validator accepts the backend's accepts too |
| ClientValidation.BackendAcceptsDoubleDotDomain | client/src/utils/validation.js:7 | `a@b..c` is accepted by the backend validator and refused by the client's, so the two differ |
| ClientValidation.Values | client/src/utils/validation.js:51-63 | the values that count, never more than the items |
| ClientValidation.CalculateAverageRating | client/src/utils/validation.js:43-66 | the loop's result is the mean of the present values, 0 for a missing or empty array or when none counts |
| ClientValidation.ValuesStep | client/src/utils/validation.js:51-63 | one more element adds its value to the sum and the count exactly when it has one |
| ClientValidation.ValuesWithinBounds | client/src/utils/validation.js:51-63 | the counted values lie within any bounds the present ratings do |
| ClientValidation.AverageWithinBounds | client/src/utils/validation.js:43-66 | with a value present, the average lies within the bounds of the present ratings |
| ClientValidation.AbsentRatingIgnored | client/src/utils/validation.js:59-62 | an item without a value leaves the average unchanged |
| ClientValidation.FormatDuration | client/src/utils/validation.js:69-80 | the formatter as written; `FormatDurationCases` and `FormatDurationShowsSixtyMinutes` state its cases |
| ClientValidation.FormatDurationCases | client/src/utils/validation.js:69-80 | missing, zero or negative gives `0m`; below 60 the rounded minutes; otherwise whole hours and the rounded rest, between 0 and 60 |
| ClientValidation.FormatWholeMinutes | client/src/utils/validation.js:76-79 | on whole minutes from 60 on the text is `<n div 60>h <n mod 60>m` |
| ClientValidation.FormatDurationShowsSixtyMinutes | client/src/utils/validation.js:76-79 | 119.5 minutes is shown as `1h 60m` |
| ClientValidation.FormatDurationRounded | client/src/utils/validation.js:69-80 | the corrected formatter; `FormatDurationRoundedAgrees`, `FormatDurationRoundedBelowSixty` and `FormatDurationRoundedFixesSixty` state it |
| ClientValidation.FormatDurationRoundedAgrees | client/src/utils/validation.js:69-80 | the corrected formatter agrees with the original on whole minutes |
| ClientValidation.FormatDurationRoundedBelowSixty | client/src/utils/validation.js:69-80 | the corrected formatter's minutes field is always below 60 |
| ClientValidation.FormatDurationRoundedFixesSixty | client/src/utils/validation.js:76-79 | the corrected formatter shows 119.5 minutes as `2h 0m` |
| ClientValidation.CalculateDiscountedPrice | client/src/utils/validation.js:83-89 | a bad price gives 0; no or a negative discount gives the price; a discount up to 100 gives `price * (100 - d) / 100`; from 100 on 0; always within `[0, price]` |
| ClientCourse.LectureMinutes | client/src/context/AppContext.jsx:144 | the minutes of a run of lectures, a missing duration counting 0; `LectureMinutesAppend` and `LectureMinutesStep` state that it adds up |
| ClientCourse.TotalMinutes | client/src/context/AppContext.jsx:143-144 | the minutes of a course; `TotalsAreOverAllLectures` states that it is the minutes of all its lectures |
| ClientCourse.LectureMinutesAppend | client/src/context/AppContext.jsx:143-144 | the minutes of two runs of lectures add up |
| ClientCourse.TotalsAreOverAllLectures | client/src/context/AppContext.jsx:143-153 | the lecture total is the number of all lectures and the minute total their minutes |
| ClientCourse.LectureMinutesStep | client/src/context/AppContext.jsx:144 | one more lecture adds its minutes, a missing duration counting 0 |
| ClientCourse.ChapterStep | client/src/context/AppContext.jsx:143-153 | one more chapter adds its lecture count and its minutes |
| ClientCourse.RatingValues | client/src/context/AppContext.jsx:137 | the `rating` fields, one per rating, in order |
| ClientCourse.MeanRating | client/src/context/AppContext.jsx:135-138 | 0 without ratings; otherwise the value whose product with the count is the sum of the ratings |
| ClientCourse.MeanRatingWithinBounds | client/src/context/AppContext.jsx:135-138 | ratings within `[lo, hi]` have their mean within `[lo, hi]` |
| ClientCourse.AsItems | client/src/utils/validation.js:53-54 | each rating as an object item holding its value |
| ClientCourse.ItemValues | client/src/utils/validation.js:51-63 | the utility counts every rating of a course |
| ClientCourse.MeanRatingIsUtilityAverage | client/src/utils/validation.js:43-66 | the context's mean rating equals the utility's `calculateAverageRating` on the same ratings |
| ClientCourse.FormatMinutes | client/src/pages/student/CourseDetails.jsx:247-256 | the `<h>h <m>m` / `<m> min` label; `FormatMinutesSplit` and `FormatMinutesBelowHour` state its cases |
| ClientCourse.FormatMinutesSplit | client/src/pages/student/CourseDetails.jsx:247-256 | from one hour on the label is the whole hours and, when not 0, the leftover minutes |
| ClientCourse.SplitMinutes | client/src/pages/student/CourseDetails.jsx:252-253 | `h * 60 + m` with `m < 60` splits back into `h` and `m` |
| ClientCourse.FormatMinutesBelowHour | client/src/pages/student/CourseDetails.jsx:248-250 | below an hour the minutes and ` min` |
| ClientCourse.FormatMinutesVsUtility | client/src/utils/validation.js:69-80 | against the utility's formatter on whole minutes: equal off the hour, `<h>h` against `<h>h 0m` on the hour, ` min` against `m` below it |
| ClientCourse.FindCourse | client/src/pages/student/CourseDetails.jsx:46 | the first course with the id, found exactly when one exists |
| ClientCourse.ExpandAll | client/src/pages/student/CourseDetails.jsx:52-57 | every chapter id maps to true, and nothing else is present |
| ClientCourse.InitialExpandState | client/src/pages/student/CourseDetails.jsx:53-56 | the `forEach` loop builds exactly that map |
| ClientCourse.Toggle | client/src/pages/student/CourseDetails.jsx:72-77 | the key flips (absent counting as false) and every other key is unchanged |
| ClientCourse.ToggleTwice | client/src/pages/student/CourseDetails.jsx:72-77 | toggling a present key twice restores the map |
| ClientCourse.InsertBy | client/src/pages/student/CourseDetails.jsx:379 | insertion adds exactly the one element |
| ClientCourse.PrependSorted | client/src/pages/student/CourseDetails.jsx:379 | a sorted list stays sorted when an element no larger than its head is put first |
| ClientCourse.BoundOfInsert | client/src/pages/student/CourseDetails.jsx:379 | a lower bound of the list and the inserted element bounds the result |
| ClientCourse.InsertByKeepsOrder | client/src/pages/student/CourseDetails.jsx:379 | inserting into a sorted list keeps it sorted |
| ClientCourse.SortBy | client/src/pages/student/CourseDetails.jsx:379 | the sort is a permutation of its input |
| ClientCourse.SortByIsSorted | client/src/pages/student/CourseDetails.jsx:398 | the sort's result is ascending in the key |
| AppContext.CalculateRating | client/src/context/AppContext.jsx:135-138 | 0 without a course or ratings; otherwise the value whose product with the count is the sum of the ratings |
| AppContext.CalculateCourseDuration | client/src/context/AppContext.jsx:140-149 | `N/A` without a course or content |
| AppContext.CourseDurationShowsSplit | client/src/context/AppContext.jsx:143-148 | with content, a total of `h * 60 + m` minutes (`m < 60`, missing durations as 0) is shown `<h>h <m>m` |
| AppContext.CalculateTotalLectures | client/src/context/AppContext.jsx:151-154 | 0 without content, otherwise the number of all lectures |
| AppContext.WithProgress | client/src/context/AppContext.jsx:161-165 | the enrolled course keeps the course, and gets the number of progress entries and its lecture total |
| AppContext.MapEnrollments | client/src/context/AppContext.jsx:161-165 | each enrolment mapped in place |
| AppContext.LectureIdsAtMostLectures | client/src/context/AppContext.jsx:153 | a run of lectures has no more distinct ids than lectures |
| AppContext.DistinctIdsAtMost | client/src/context/AppContext.jsx:163 | progress entries with distinct ids drawn from a set are no more than the set |
| AppContext.ProgressAtMostTotal | client/src/context/AppContext.jsx:161-165 | when the progress ids are distinct lecture ids of the course, the shown progress never exceeds the lecture total |
| AppContext.AuthFromStorage | client/src/context/AppContext.jsx:67-89 | a user exactly when token and user are stored and the user parses, then that user; the storage is cleared exactly when the parse fails |
| AppContext.LoggedOutStorage | client/src/context/AppContext.jsx:95-96 | token and user removed, every other key unchanged |
| AppContext.LogoutThenInitializeFindsNoUser | client/src/context/AppContext.jsx:66-101 | after logout the next initialisation finds no user and clears nothing |
| AppContext.Provider.constructor | client/src/context/AppContext.jsx:60-63 | no user, not an educator, loading, no enrolled courses |
| AppContext.Provider.InitializeAuth | client/src/context/AppContext.jsx:67-89 | user and storage as `AuthFromStorage` decides, `isEducator` exactly for the educator role, loading ends |
| AppContext.Provider.Logout | client/src/context/AppContext.jsx:94-101 | storage without token and user, no user, not an educator, no enrolled courses, location `/login` |
| CourseDetails.AddMinutes | client/src/pages/student/CourseDetails.jsx:89 | adding an undefined duration gives NaN, modelled as none |
| CourseDetails.StrictMinutes | client/src/pages/student/CourseDetails.jsx:88-90 | the details page's sum without a default; `StrictMinutesFacts` states when it is a number and which |
| CourseDetails.StrictTotal | client/src/pages/student/CourseDetails.jsx:86-91 | the details page's course total; `StrictTotalFacts` states when it is a number and which |
| CourseDetails.StrictMinutesFacts | client/src/pages/student/CourseDetails.jsx:88-90 | a run of lectures has a number total exactly when every duration is present, and then it is their sum |
| CourseDetails.StrictTotalFacts | client/src/pages/student/CourseDetails.jsx:86-91 | the course total is a number exactly when every lecture is timed, and then it is the context's total |
| CourseDetails.StrictMinutesStep | client/src/pages/student/CourseDetails.jsx:88-90 | one more lecture adds its duration to the running total |
| CourseDetails.StrictTotalStep | client/src/pages/student/CourseDetails.jsx:86-91 | one more chapter adds its minutes to the running total |
| CourseDetails.AddMinutesAssoc | client/src/pages/student/CourseDetails.jsx:89 | duration addition regroups freely |
| CourseDetails.CalculateCourseTotals | client/src/pages/student/CourseDetails.jsx:80-94 | zeros without content; otherwise the lecture count and the strict duration sum |
| CourseDetails.MissingDurationSpoilsTotal | client/src/pages/student/CourseDetails.jsx:89 | one lecture without a duration makes the whole total NaN |
| CourseDetails.TimedTotalIsContextTotal | client/src/pages/student/CourseDetails.jsx:80-94 | when every lecture is timed, the page's total is the context's |
| CourseDetails.DiscountedPrice | client/src/pages/student/CourseDetails.jsx:237-239 | the price when the discount is absent or 0, otherwise `price * (100 - d) / 100` |
| CourseDetails.DiscountNotClamped | client/src/pages/student/CourseDetails.jsx:237-239 | above 100% the page's price is negative where the utility's is 0; a negative discount raises it where the utility keeps it; in between the two agree |
| CourseDetails.SortLectures | client/src/pages/student/CourseDetails.jsx:398 | a chapter's lectures reordered, its other fields kept |
| CourseDetails.ShownContent | client/src/pages/student/CourseDetails.jsx:379-398 | as many chapters as the content |
| CourseDetails.ShownContentOrdered | client/src/pages/student/CourseDetails.jsx:379-398 | chapters by ascending `chapterOrder`, each chapter's lectures by ascending `lectureOrder`, both permutations |
| CourseDetails.DetailsPage.constructor | client/src/pages/student/CourseDetails.jsx:15-18 | no course, no expanded sections, loading |
| CourseDetails.DetailsPage.Load | client/src/pages/student/CourseDetails.jsx:38-70 | nothing happens before the courses arrive; then the found course, all its chapters expanded when it has content, the sections kept otherwise, loading ends |
| CourseDetails.DetailsPage.ToggleSection | client/src/pages/student/CourseDetails.jsx:72-77 | only the one section flips |
| CourseDetails.LoadedSectionsOpen | client/src/pages/student/CourseDetails.jsx:52-77 | after loading every chapter is open, and one toggle closes it |
| Player.DataFor | client/src/pages/student/Player.jsx:91-103 | the selection of chapter `c`, lecture `l`: numbers `c + 1` and `l + 1`, the lecture's title and URL, and the player copy's video id |
| Player.FirstSelection | client/src/pages/student/Player.jsx:34-52 | a first selection exactly when the course has a first chapter with a first lecture whose URL yields an id; then it is that lecture |
| Player.FirstSelectionHasValidId | client/src/pages/student/Player.jsx:34-52 | the first selection has an id of 11 UTF-16 code units and is numbered 1.1 |
| Player.ChapterMinutes | client/src/pages/student/Player.jsx:175 | the context's total for this chapter alone, missing durations counting 0; when every lecture is timed, the details page's strict sum |
| Player.ChapterMinutesVsDetails | client/src/pages/student/Player.jsx:175 | the player's chapter minutes equal the course details sum when every lecture is timed, while the details sum is NaN otherwise |
| Player.PlayerPage.constructor | client/src/pages/student/Player.jsx:11-18 | no course, no selection, position 0.0, no expanded sections, loading |
| Player.PlayerPage.Load | client/src/pages/student/Player.jsx:20-56 | without a course id nothing changes; otherwise loading ends, an unknown course leaves no course, and a known one is stored with every chapter expanded and its first selection |
| Player.PlayerPage.HandleWatch | client/src/pages/student/Player.jsx:91-103 | the selection becomes the chosen lecture and the position its indices, nothing else changes |
| Player.PlayerPage.ToggleSection | client/src/pages/student/Player.jsx:58-63 | only the one section flips |
| Player.WatchHeading | client/src/pages/student/Player.jsx:157 | the heading reads `<c+1>.<l+1> <title>` and the numbers give back the position |
| MyEnrollments.EnrollmentsPage.constructor | client/src/pages/student/MyEnrollments.jsx:10-14 | the stored token, not authenticated, loading |
| MyEnrollments.EnrollmentsPage.CheckAuth | client/src/pages/student/MyEnrollments.jsx:16-36 | authenticated exactly when the token is present, decodes and is not expired; a refused token is removed; loading ends |
| MyEnrollments.EnrollmentsPage.RedirectIfSignedOut | client/src/pages/student/MyEnrollments.jsx:63-67 | once checked and not authenticated the page goes to `/login`, otherwise it stays |
| MyEnrollments.CheckedPageShowsOrRedirects | client/src/pages/student/MyEnrollments.jsx:16-36 | an accepted token is present; a present refused one is removed and sends the visitor to the login page |
| MyEnrollments.NoExpiryAlwaysAccepted | client/src/pages/student/MyEnrollments.jsx:23-27 | a token that decodes without `exp` is accepted at every instant |
| MyEnrollments.CalculateCourseDuration | client/src/pages/student/MyEnrollments.jsx:70-87 | `N/A` without content; otherwise the nested loops give the label of the context's minute total |
| MyEnrollments.DurationLabel | client/src/pages/student/MyEnrollments.jsx:80-86 | the page's duration label; `DurationLabelSplit` states its three shapes |
| MyEnrollments.DurationLabelSplit | client/src/pages/student/MyEnrollments.jsx:80-86 | `<h>h <m>m` with both, `<h>h ` with a trailing space on a whole hour, `<m>m` below an hour |
| MyEnrollments.DurationLabelOf | client/src/pages/student/MyEnrollments.jsx:80-86 | the label of a total split into its hours and minutes |
| MyEnrollments.DurationLabelVsContext | client/src/pages/student/MyEnrollments.jsx:70-87 | against the context's `<h>h <m>m`: equal with both parts, `<h>h ` against `<h>h 0m`, `<m>m` against `0h <m>m` |
| MyEnrollments.CalculateProgress | client/src/pages/student/MyEnrollments.jsx:90-93 | 0 when progress or total is missing or 0, otherwise `progress / total * 100` |
| MyEnrollments.Badge | client/src/pages/student/MyEnrollments.jsx:156-160 | the thumbnail badge; `CompletedIffAllRecorded` states when it reads `Completed` |
| MyEnrollments.CompletedIffAllRecorded | client/src/pages/student/MyEnrollments.jsx:156-160 | the badge reads `Completed` exactly when progress equals the total |
| MyEnrollments.NothingRecordedInProgress | client/src/pages/student/MyEnrollments.jsx:90-160 | no progress gives 0% and `In Progress` |
| MyEnrollments.ProgressWithinHundred | client/src/pages/student/MyEnrollments.jsx:90-93 | progress up to the total gives a percentage in `[0, 100]` |
| CourseCard.Rating | client/src/components/student/CourseCard.jsx:6-10 | the card's mean rating is the context's `calculateRating` of the same course |
| CourseCard.ReviewCount | client/src/components/student/CourseCard.jsx:13 | the number of ratings, 0 when there are none |
| CourseCard.ReviewLabel | client/src/components/student/CourseCard.jsx:103 | the singular `1 review` exactly for one rating |
| CourseCard.ShownPrice | client/src/components/student/CourseCard.jsx:14-16 | without a truthy discount the list price, 0 when missing; with one a price exactly when the list price exists |
| CourseCard.CardPriceIsDetailsPrice | client/src/components/student/CourseCard.jsx:14-16 | for a priced course the card shows the same price as the details page |
| CourseCard.BadgeIffReduced | client/src/components/student/CourseCard.jsx:76-79 | for a positive price the badge shows exactly when the shown price is below the list price; a negative discount raises the price with no badge |
| CourseCard.EducatorName | client/src/components/student/CourseCard.jsx:19-24 | the educator's name when there is one, otherwise `Unknown Educator` |
| CourseCard.Ceil | client/src/components/student/CourseCard.jsx:29 | the least integer not below the rating |
| CourseCard.FractionalPart | client/src/components/student/CourseCard.jsx:28 | `rating % 1` lies in `[0, 1)` and is the rating minus its floor for a non-negative rating |
| CourseCard.StarsAsWritten | client/src/components/student/CourseCard.jsx:26-29 | the stars as written; `StarsAsWrittenCount` and `StarsShortAtThreePointTwo` state how many it draws |
| CourseCard.StarsAsWrittenCount | client/src/components/student/CourseCard.jsx:26-29 | as written five stars are drawn exactly when the fractional part is 0 or at least 0.5, and four otherwise |
| CourseCard.StarsShortAtThreePointTwo | client/src/components/student/CourseCard.jsx:26-29 | a mean of 3.2 draws 3 full stars, no half and 1 empty: four stars |
| CourseCard.Stars | client/src/components/student/CourseCard.jsx:26-29 | the corrected stars; `StarsFillFive` states that there are always five |
| CourseCard.StarsFillFive | client/src/components/student/CourseCard.jsx:26-29 | the corrected row always has five stars, none negative for a rating in `[0, 5]`, and equals the written row wherever that one draws five |
| CourseCard.CardStars | client/src/components/student/CourseCard.jsx:26-29 | the card draws the row as written: a half star exactly when `rating % 1 >= 0.5`; for a non-negative rating five stars exactly when the fractional part is 0 or at least 0.5, and four otherwise |
| CourseCard.CardStarsWithinRange | client/src/components/student/CourseCard.jsx:26-29 | ratings in `[1, 5]` draw between one and five full stars, at most four empty ones, and four or five stars in all |
| CoursesList.Filtered | client/src/pages/student/CoursesList.jsx:20-25 | no longer than the catalogue, and every listed course is in it and matches the lower-cased term |
| CoursesList.FilteredMembership | client/src/pages/student/CoursesList.jsx:20-25 | a course is listed exactly when it is in the catalogue and its title matches |
| CoursesList.FilteredAppend | client/src/pages/student/CoursesList.jsx:20-25 | filtering keeps the catalogue's order: filtering a concatenation is concatenating the filtered parts |
| CoursesList.FilteredIdempotent | client/src/pages/student/CoursesList.jsx:20-25 | filtering the filtered list changes nothing |
| CoursesList.EmptyTermListsAll | client/src/pages/student/CoursesList.jsx:20-28 | the empty term lists the whole catalogue, so the copy the effect keeps without a term is the filter's result |
| CoursesList.LowerCharIdempotent | client/src/pages/student/CoursesList.jsx:23 | lower-casing a lower-cased character changes nothing |
| CoursesList.ToLowerIdempotent | client/src/pages/student/CoursesList.jsx:23 | lower-casing a lower-cased string changes nothing |
| CoursesList.SearchIgnoresCase | client/src/pages/student/CoursesList.jsx:23 | searching for the lower-cased term lists the same courses |
| CoursesList.FilteredSameTest | client/src/pages/student/CoursesList.jsx:20-25 | two terms with the same title test list the same courses |
| CoursesList.EmptyMessage | client/src/pages/student/CoursesList.jsx:85-87 | `No courses available` exactly when there is no term |
| CoursesList.CoursesListPage.constructor | client/src/pages/student/CoursesList.jsx:12-13 | the term from the route or empty, nothing listed |
| CoursesList.CoursesListPage.ApplyFilter | client/src/pages/student/CoursesList.jsx:16-30 | nothing changes on an empty catalogue; otherwise the list becomes the filtered catalogue |
| CoursesList.CoursesListPage.SetFromInput | client/src/pages/student/CoursesList.jsx:33-37 | a present route parameter becomes the term, a missing one leaves it |
| CoursesList.CoursesListPage.HandleSearch | client/src/pages/student/CoursesList.jsx:39-41 | the term becomes the searched one and the list waits for the effect |
| EditCourse.WithLecture | client/src/pages/educator/EditCourse.jsx:76-101 | the draft lecture is appended with `order` equal to its position and its duration converted, the earlier lectures unchanged, and position numbering is kept |
| EditCourse.WithChapter | client/src/pages/educator/EditCourse.jsx:103-124 | the draft chapter is appended at its position with its lectures, the earlier chapters unchanged, and position numbering is kept |
| EditCourse.RemoveThenAddRepeatsOrder | client/src/pages/educator/EditCourse.jsx:134-140 | as written, removing the first of two chapters and adding one leaves two chapters with `order` 1 |
| EditCourse.RemoveChapterAsWritten | client/src/pages/educator/EditCourse.jsx:134-140 | the chapter removal as written; `RemoveChapterAsWrittenDropsOne` states what it drops and keeps |
| EditCourse.RemoveLectureAsWritten | client/src/pages/educator/EditCourse.jsx:126-132 | the lecture removal as written; `RemoveLectureAsWrittenDropsOne` states what it drops and keeps |
| EditCourse.RemoveChapterAsWrittenDropsOne | client/src/pages/educator/EditCourse.jsx:134-140 | the written chapter removal drops exactly the chapter at the index and shifts the later ones down, their `order` kept |
| EditCourse.RemoveLectureAsWrittenDropsOne | client/src/pages/educator/EditCourse.jsx:126-132 | the written lecture removal touches only its chapter, keeps its title and `order`, and drops exactly the lecture at the index with the other lectures' `order` kept |
| EditCourse.RenumberLectures | client/src/pages/educator/EditCourse.jsx:126-132 | the same lectures, each numbered by its position |
| EditCourse.RenumberChapters | client/src/pages/educator/EditCourse.jsx:134-140 | the same chapters, each numbered by its position |
| EditCourse.RemoveChapter | client/src/pages/educator/EditCourse.jsx:134-140 | the corrected chapter removal; `RemoveChapterKeepsPositions` states its numbering |
| EditCourse.RemoveChapterKeepsPositions | client/src/pages/educator/EditCourse.jsx:134-140 | the corrected chapter removal keeps position numbering and differs from the written splice only in `order` |
| EditCourse.RemoveLectureAsWrittenStale | client/src/pages/educator/EditCourse.jsx:126-132 | as written, removing the first of two lectures leaves a lone lecture numbered 1 |
| EditCourse.RemoveLecture | client/src/pages/educator/EditCourse.jsx:126-132 | the corrected lecture removal; `RemoveLectureKeepsPositions` states its numbering |
| EditCourse.RemoveLectureKeepsPositions | client/src/pages/educator/EditCourse.jsx:126-132 | the corrected lecture removal keeps position numbering, touches only its chapter and differs from the splice only in `order` |
| EditCourse.SubmitDecision | client/src/pages/educator/EditCourse.jsx:151-185 | a request goes out exactly when the four required fields are filled, there is a chapter and the stored user has an id; the first failing check picks the message; the payload carries the converted price and discount and the content |
| EditCourse.ResponseMessage | client/src/pages/educator/EditCourse.jsx:186-195 | success, then the server's `message`, then its `error`, then the fixed failure text |
| EditCourse.CourseEditor.constructor | client/src/pages/educator/EditCourse.jsx:12-34 | the empty form with discount `0`, no content, empty drafts |
| EditCourse.CourseEditor.AddLecture | client/src/pages/educator/EditCourse.jsx:76-101 | an untitled or URL-less draft only sets the message; otherwise the draft joins the current chapter, numbered by its position, and is reset; the saved content is untouched |
| EditCourse.CourseEditor.AddChapter | client/src/pages/educator/EditCourse.jsx:103-124 | an untitled or empty chapter only sets the message; otherwise it joins the content with `order` equal to the content's length and is reset |
| EditCourse.CourseEditor.RemoveLectureAt | client/src/pages/educator/EditCourse.jsx:126-132 | the content becomes the splice as written, without renumbering; the drafts and form fields are unchanged |
| EditCourse.CourseEditor.RemoveChapterAt | client/src/pages/educator/EditCourse.jsx:134-140 | the content becomes the splice as written, without renumbering; the drafts and form fields are unchanged |
| EditCourse.CourseEditor.HandleSubmit | client/src/pages/educator/EditCourse.jsx:151-185 | the outcome is the submit decision on the form; the message is the rejection's or cleared; the form is untouched |
| EditCourse.SentContentIsNumbered | client/src/pages/educator/EditCourse.jsx:151-185 | content numbered by position is sent numbered and not empty |
| Authentication.FormError | client/src/pages/student/Authentication.jsx:77-92 | no error exactly when email and password are given, sign-up also has name and username, the e-mail matches the anchored pattern and the password has six characters; missing e-mail is reported first, then a missing password |
| Authentication.LoginIgnoresNames | client/src/pages/student/Authentication.jsx:82-85 | the sign-in check does not depend on name or username |
| Authentication.SentFormPassesRegisterChecks | client/src/pages/student/Authentication.jsx:77-92 | a sign-up form the page accepts, with a role and a new address, passes every check of `register` |
| Authentication.RequestFor | client/src/pages/student/Authentication.jsx:103-114 | a sign-in body exactly on the sign-in page, always with the typed e-mail and password |
| Authentication.LoginRequestHasFields | client/src/pages/student/Authentication.jsx:101-110 | a sign-in the page sends is never refused by `login` for missing fields |
| Authentication.RegisterRequestLacksRole | client/src/pages/student/Authentication.jsx:111-115 | the sign-up body has no role, so `register` refuses it with 400 `All fields are required` |
| Authentication.ErrorMessage | client/src/pages/student/Authentication.jsx:118-120 | the server's message, then the error's, then `Authentication failed` |
| Authentication.AuthenticationPage.constructor | client/src/pages/student/Authentication.jsx:62-69 | no error, no success, not loading, the given storage |
| Authentication.AuthenticationPage.ValidateForm | client/src/pages/student/Authentication.jsx:77-92 | passes exactly when the form has no error; the error shown is the first failure or cleared |
| Authentication.AuthenticationPage.LoginSucceeded | client/src/pages/student/Authentication.jsx:103-111 | the user and the token are stored, the success text shows and the page goes home |
| Authentication.AuthenticationPage.RegisterSucceeded | client/src/pages/student/Authentication.jsx:113-116 | the success text shows, storage is untouched and the page goes to `/auth#login` |
| Authentication.AuthenticationPage.RequestFailed | client/src/pages/student/Authentication.jsx:118-120 | the error shows the chosen message; storage and location are untouched |
| Authentication.StoredLoginIsFound | client/src/pages/student/Authentication.jsx:108-109 | after a sign-in whose user parses, the context's initialisation finds that user |
| Authentication.RegisterLeadsToLogin | client/src/pages/student/Authentication.jsx:73 | the page a sign-up goes to is the sign-in mode |
| AuthForm.InitialForm | client/src/components/AuthForm.jsx:6-8 | e-mail and password for sign-in; name, e-mail, password and role `student` for sign-up; every other value empty |
| AuthForm.FormErrors | client/src/components/AuthForm.jsx:17-38 | a field has an entry exactly when its check fails, holding that check's message |
| AuthForm.FormValidIff | client/src/components/AuthForm.jsx:17-38 | no errors exactly when the name (sign-up), the trimmed e-mail matching the loose pattern and a six-character password are all there |
| AuthForm.TrimmedForm | client/src/components/AuthForm.jsx:63-66 | the same fields, each value trimmed |
| AuthForm.TrimmedPasswordRefused | client/src/components/AuthForm.jsx:17-38 | five spaces and a letter pass the form's password check but reach `register` as one character, which it refuses |
| AuthForm.LooseEmailRefused | client/src/components/AuthForm.jsx:24-28 | an address the loose pattern admits but the anchored one refuses passes the form and is refused by `register` |
| AuthForm.SpacedEmailAdmitted | client/src/components/AuthForm.jsx:26 | `a b@c.d` passes the form's pattern, survives trimming and fails the anchored pattern |
| AuthForm.RedirectAfterLogin | client/src/components/AuthForm.jsx:87-91 | an educator goes to `/educator`, anyone else to `/` |
| AuthForm.FailureMessage | client/src/components/AuthForm.jsx:96 | the server's message, otherwise `Login failed` or `Registration failed` |
| AuthForm.AuthFormState.constructor | client/src/components/AuthForm.jsx:6-13 | the initial form, no errors, no message, not loading |
| AuthForm.AuthFormState.ValidateForm | client/src/components/AuthForm.jsx:17-38 | the errors become the form's errors and the result is true exactly when there are none |
| AuthForm.AuthFormState.HandleChange | client/src/components/AuthForm.jsx:40-47 | the field takes the value and a shown error for it is blanked |
| AuthForm.EditClearsOwnError | client/src/components/AuthForm.jsx:40-47 | after an edit the field shows no error and every other field's error is as before |
| OtpVerification.DigitsOnly | client/src/components/OTPVerification.jsx:109 | only digits, no longer than the input, and a string of digits unchanged |
| OtpVerification.FilterOtp | client/src/components/OTPVerification.jsx:109 | at most six digits: the input's digits, cut to their first six |
| OtpVerification.FilterOtpIdempotent | client/src/components/OTPVerification.jsx:109 | filtering what is shown changes nothing |
| OtpVerification.GeneratedCodeTypesThrough | client/src/components/OTPVerification.jsx:109 | a code the backend generates passes the filter whole and enables the verify button |
| OtpVerification.ResendLabel | client/src/components/OTPVerification.jsx:135 | `Resend OTP` once the countdown is over |
| OtpVerification.EnabledButtonPassesGuard | client/src/components/OTPVerification.jsx:32-37 | an enabled verify button always passes the handler's guard, and a request carries six digits |
| OtpVerification.Tick | client/src/components/OTPVerification.jsx:25-30 | a running countdown goes down by one, a finished one stays |
| OtpVerification.TickedCountsDown | client/src/components/OTPVerification.jsx:25-30 | after `n` seconds the countdown is `countdown - n`, or 0 once that is reached |
| OtpVerification.ResendHeldSixtySeconds | client/src/components/OTPVerification.jsx:25-30 | after a resend the button is disabled for exactly the first sixty seconds |
| OtpVerification.OtpPanel.constructor | client/src/components/OTPVerification.jsx:11-14 | empty code and message, no type, countdown 0 |
| OtpVerification.OtpPanel.Input | client/src/components/OTPVerification.jsx:109 | the code becomes the filtered input; at most six digits are shown |
| OtpVerification.OtpPanel.TickCountdown | client/src/components/OTPVerification.jsx:25-30 | the countdown ticks once, nothing else changes |
| OtpVerification.OtpPanel.Verify | client/src/components/OTPVerification.jsx:32-37 | the request goes out exactly when the guard passes, and then the code is six digits; otherwise the six-digit error shows; the panel invariant is kept |
| OtpVerification.OtpPanel.VerifyAnswered | client/src/components/OTPVerification.jsx:47-53 | success text on success, the server's message as an error otherwise |
| OtpVerification.OtpPanel.ResendAnswered | client/src/components/OTPVerification.jsx:70-77 | a success shows its text and starts the sixty-second hold; a failure shows the server's message |
| OtpVerification.OtpPanel.RequestFailed | client/src/components/OTPVerification.jsx:54-79 | the fixed failure text for that request, as an error |
| OtpVerification.OtpPanel.ClearMessage | client/src/components/OTPVerification.jsx:18-22 | the message is blanked five seconds later, the rest kept |
| App.Guard | client/src/App.jsx:24-30 | loading exactly while the context loads; nobody signed in goes to `/login`; the page shows exactly for a user with the role the route asks; a non-educator on an educator route goes to `/` |
| App.Render | client/src/App.jsx:40-94 | public paths render their page and a path no route matches renders nothing; student routes use the plain guard, educator routes the educator guard; static segments match whatever their case |
| App.MixedCaseIsGuarded | client/src/App.jsx:40-94 | any spelling of `my-enrollments` is the guarded route, and with nobody signed in it redirects to `/login` |
| App.CapitalisedEnrolments | client/src/App.jsx:40-94 | `/My-Enrollments` is guarded like `/my-enrollments` |
| App.EducatorInAnyCase | client/src/App.jsx:33-94 | any spelling of `educator` opens the educator area: its guard and no navigation bar |
| App.CapitalisedEducator | client/src/App.jsx:33-94 | `/Educator` is the educator route |
| App.RouteProtection | client/src/App.jsx:24-94 | the route table; `AccessByRole` and `App.Render` state whom each route shows to |
| App.ShowsNavbar | client/src/App.jsx:33-37 | the navigation bar test; `EducatorPagesHideNavbar` states where it shows |
| App.EducatorPagesHideNavbar | client/src/App.jsx:33-37 | educator routes hide the navigation bar, student routes show it |
| App.RedirectTargetsArePublic | client/src/App.jsx:27-28 | `/login` and `/` are public routes |
| App.AccessByRole | client/src/App.jsx:24-94 | a page shows to an educator on every matched route, to a student exactly on the public and signed-in routes, and to nobody signed in exactly on the public ones |
| App.LogoutLocksGuardedRoutes | client/src/App.jsx:27 | with no user in the context every guarded route redirects to `/login` |

## Left out

- `refreshToken` and the internals of JSON Web Tokens: signing and decoding are function parameters, and so is the answer of `jwtDecode` in the client.
- Password hashing: `bcrypt.hash` and `bcrypt.compare` are function parameters.
- The MongoDB TTL index that deletes expired OTP records: expiry is modelled by `isExpired` against `now` only.
- The two `Date.now()` reads in one limiter update count as a single reading `now`.
- Other clocks and timers are left out. `setTimeout` delays before a navigation are modelled as an immediate navigation, and the five-second message clearing as its own method.
- Health-check and static routes: served constants, outside the logic modelled.
- The 500 responses on database or network errors: the failing call is outside the model. Only the error paths the code decides itself are modelled.
- JSON fields of a non-string type: request fields are modelled as present strings or absent.
- Mongoose schema type casting: request fields are strings. The `role` enum is modelled only as the 500 a failed save answers.
- Floating point: prices, ratings and percentages are `real`. `toFixed` rounding of what is displayed, and NaN, are not modelled (NaN is an absent number).
- The order of ties among equal sort keys: the client's `sort` is modelled by one insertion order, and a database query's order among equal dates is not modelled.
- The prompt text and HTTP calls of `callOllama` and `callCustomLLM`: external services, whose answers are parameters.
- String concatenation where a rating arrives as text: ratings are numbers.
- Durations are whole minutes where a page sums them. A `null` duration is treated like an absent one.
- A chapter without `chapterContent` makes the client pages throw. The model requires the field.
- In-place `sort` on a shared array, and the aliasing of nested `splice` on state the pages share: the model works on values.
- `checkEducatorStatus`, `handlePreviewClick` and the payment flow: network calls and navigation with no logic beyond the call.
- The axios interceptors: they attach headers and are not part of the logic modelled.
- The toFixed rounded average on the details page: floating point.
- `fetchCourse` in the editor (network I/O) and `handleThumbnailChange` (a file input).
- The context's `setUser` and `setIsEducator` in the shared form: their effect on the context is modelled in `AppContext`.
- The `fetch` calls of the OTP panel: their answers are parameters of the answer methods.
- `Number()` conversion is modelled as a function parameter `toNumber`.
- MyEnrollments: optional numbers and percentages, floating point.
- The OTP login's `localStorage.setItem` of an undefined token: storage is not modelled for that flow.
- CoursesList.Filtered: `toLowerCase` is modelled on ASCII letters only, where JavaScript applies full Unicode case mapping, so titles with non-ASCII capitals are matched as if those letters were already lower case.
- CoursesList.SearchIgnoresCase: stated for the ASCII lower-casing only; full Unicode case mapping is not modelled.
- LlmRoutes.GetMockResponse: the prompt is lower-cased on ASCII letters only; full Unicode case mapping is not modelled.
- App.Render: static segments are compared after ASCII lower-casing; the router's case-insensitive match of non-ASCII letters is not modelled, and the route patterns are ASCII.
- AppContext.AuthFromStorage: a stored user that parses to a falsy JSON value (`0`, `false`, `""`) is not represented. The code keeps it as the user without clearing the storage, and the guard treats it as nobody signed in; the model's parse either yields a user or fails.
- AuthController.Auth.Login and AuthController.FiveFailedLoginsLock: one reading `now` serves both the lock check and the limiter update made after the awaited user lookup and password comparison. Each request also runs atomically against the stores, so concurrent logins on one key that interleave at those awaits are not modelled. Several such logins can pass the lock check before the fifth failure's lock is written, so the lemma holds only for requests made one after another.
- OtpVerification.ResendLabel: states only the finished-countdown text. The running text is the count written by `IntToString`, and stating it would repeat the body.

## Findings

| source | as written | input that shows it | evidently intended | confidence | as-written member | corrected member |
|---|---|---|---|---|---|---|
| client/src/utils/validation.js:76-79 | the minutes after the hours are rounded on their own, so the rest can round up to 60 | 119.5 minutes gives `1h 60m` | `2h 0m`: round the total first, then split it | not executed | ClientValidation.FormatDurationShowsSixtyMinutes | ClientValidation.FormatDurationRoundedFixesSixty |
| client/src/components/student/CourseCard.jsx:26-29 | the empty stars are `5 - ceil(rating)` and the half star needs `rating % 1 >= 0.5` | a mean rating of 3.2 draws 3 full stars, no half star and 1 empty star, so only four stars | always a row of five stars | not executed | CourseCard.StarsShortAtThreePointTwo | CourseCard.StarsFillFive |
| client/src/pages/educator/EditCourse.jsx:134-140 | `removeChapter` and `removeLecture` splice without renumbering while `addChapter` numbers by length | two chapters numbered 0 and 1: removing the first and adding one gives two chapters numbered 1 | each `order` equal to its position | not executed | EditCourse.RemoveThenAddRepeatsOrder | EditCourse.RemoveChapterKeepsPositions |
