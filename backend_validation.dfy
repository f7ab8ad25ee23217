/** The backend validation utilities: the e-mail and password validators, the
    login-attempt limiter with its two lockout queries, and the course-data
    validator. */
module BackendValidation {
  import opened Js
  import opened EmailPattern

  // ----- validateEmail, validatePassword -----

  /** `email.split('@')[0]`: everything before the first '@'. */
  function LocalPart(email: string): (r: string)
    ensures IndexOf(email, '@') == -1 ==> r == email
    ensures IndexOf(email, '@') >= 0 ==> r == email[..IndexOf(email, '@')]
  {
    var at := IndexOf(email, '@');
    if at == -1 then email else email[..at]
  }

  /** `validateEmail`: non-empty, of the anchored e-mail pattern, and no ".."
      in the part before the '@'. */
  function ValidateEmail(email: string): (r: bool)
    ensures r <==> email != "" && HasEmailShape(email)
                   && !Includes(email[..IndexOf(email, '@')], "..")
  {
    EmailShapeIsRegex(email);
    HasDoubleDotIsIncludes(LocalPart(email));
    email != "" && MatchesEmailRegex(email) && !HasDoubleDot(LocalPart(email))
  }

  /** `validatePassword`: the presence test is subsumed by the length test. */
  function ValidatePassword(password: string): (r: bool)
    ensures r <==> Utf16Length(password) >= 6
  {
    if password == "" then false else Utf16Length(password) >= 6
  }

  /** Three characters beyond U+FFFF are six code units, a long enough
      password. */
  lemma ThreeEmojiPasswordAccepted()
    ensures ValidatePassword("\U{1F600}\U{1F600}\U{1F600}")
  {
    var s := "\U{1F600}\U{1F600}\U{1F600}";
    assert s[..2][..1] == s[..1] && s[..1][..0] == [];
    assert Utf16Length(s[..1]) == 2;
    assert Utf16Length(s[..2]) == 4;
  }

  // ----- the login-attempt limiter -----

  const DefaultMaxAttempts: int := 5
  /** Fifteen minutes in milliseconds. */
  const DefaultLockoutTime: int := 15 * 60 * 1000

  /** One entry of the limiter: failures since the last lock, and the time
      (ms) until which the key is locked. */
  datatype Attempt = Attempt(count: int, lockUntil: int)

  /** `loginAttempts.get(key) || { count: 0, lockUntil: 0 }` */
  function EntryOrFresh(m: map<string, Attempt>, key: string): (a: Attempt)
    ensures key in m ==> a == m[key]
    ensures key !in m ==> a == Attempt(0, 0)
  {
    if key in m then m[key] else Attempt(0, 0)
  }

  /** The recorded entry after one more failure. */
  function Bumped(a: Attempt, maxAttempts: int, lockoutTime: int, now: int): Attempt
  {
    if a.count + 1 >= maxAttempts then Attempt(0, now + lockoutTime)
    else Attempt(a.count + 1, a.lockUntil)
  }

  /** An entry the periodic cleanup discards. */
  predicate Stale(a: Attempt, now: int)
  {
    a.lockUntil < now && a.count == 0
  }

  /** The map with every stale entry removed. */
  function Cleaned(m: map<string, Attempt>, now: int): map<string, Attempt>
  {
    map k | k in m && !Stale(m[k], now) :: m[k]
  }

  /** The limiter's map after `updateLoginAttempts`, with one clock reading
      `now` standing for both reads of `Date.now()`. */
  function AfterUpdate(m: map<string, Attempt>, key: string, success: bool,
                       maxAttempts: int, lockoutTime: int, now: int): map<string, Attempt>
  {
    if success then m - {key}
    else
      var m1 := m[key := Bumped(EntryOrFresh(m, key), maxAttempts, lockoutTime, now)];
      if |m1| > 100 then Cleaned(m1, now) else m1
  }

  /** The in-memory `Map` the limiter mutates. */
  class AttemptTable {
    var entries: map<string, Attempt>

    constructor()
      ensures entries == map[]
    {
      entries := map[];
    }

    /** `loginAttempts.delete(key)` */
    method Delete(key: string)
      modifies this
      ensures entries == old(entries) - {key}
    {
      entries := entries - {key};
    }

    /** `updateLoginAttempts(loginAttempts, key, success, maxAttempts, lockoutTime)` */
    method UpdateLoginAttempts(key: string, success: bool, maxAttempts: int, lockoutTime: int, now: int)
      modifies this
      ensures entries == AfterUpdate(old(entries), key, success, maxAttempts, lockoutTime, now)
    {
      if success {
        entries := entries - {key};
        return;
      }
      var attempt := EntryOrFresh(entries, key);
      attempt := attempt.(count := attempt.count + 1);
      if attempt.count >= maxAttempts {
        attempt := Attempt(0, now + lockoutTime);
      }
      entries := entries[key := attempt];
      if |entries| > 100 {
        ghost var written := entries;
        var pending := entries.Keys;
        while pending != {}
          invariant pending <= written.Keys
          invariant forall k :: k in entries <==> k in written && (k in pending || !Stale(written[k], now))
          invariant forall k | k in entries :: entries[k] == written[k]
          decreases pending
        {
          var k :| k in pending;
          if entries[k].lockUntil < now && entries[k].count == 0 {
            entries := entries - {k};
          }
          pending := pending - {k};
        }
        assert entries == Cleaned(written, now);
      }
    }
  }

  /** `isUserLockedOut` */
  function IsUserLockedOut(m: map<string, Attempt>, key: string, now: int): (r: bool)
    ensures r ==> key in m
  {
    key in m && m[key].lockUntil > now
  }

  /** `getRemainingLockoutTime`: whole minutes, rounded up, until the lock ends. */
  function RemainingLockoutTime(m: map<string, Attempt>, key: string, now: int): (r: int)
    ensures r == 0 <==> !IsUserLockedOut(m, key, now)
    ensures r != 0 ==> r >= 1 && (r - 1) * 60000 < m[key].lockUntil - now <= r * 60000
  {
    if key !in m then 0
    else if m[key].lockUntil <= now then 0
    else CeilDiv(m[key].lockUntil - now, 60000)
  }

  /** A success removes the key and keeps every other entry as it was. */
  lemma SuccessForgetsKey(m: map<string, Attempt>, key: string, maxAttempts: int, lockoutTime: int, now: int)
    ensures var r := AfterUpdate(m, key, true, maxAttempts, lockoutTime, now);
      key !in r && forall k | k != key :: (k in r <==> k in m) && (k in m ==> r[k] == m[k])
  {
  }

  /** After a failure, the key holds the bumped entry whenever that entry is
      not itself stale, in particular whenever the lockout time is not negative
      and counts are not negative. */
  lemma {:induction false} FailureWritesKey(m: map<string, Attempt>, key: string, maxAttempts: int, lockoutTime: int, now: int)
    requires lockoutTime >= 0
    requires key in m ==> m[key].count >= 0
    ensures var r := AfterUpdate(m, key, false, maxAttempts, lockoutTime, now);
      key in r && r[key] == Bumped(EntryOrFresh(m, key), maxAttempts, lockoutTime, now)
  {
    var b := Bumped(EntryOrFresh(m, key), maxAttempts, lockoutTime, now);
    assert !Stale(b, now);
  }

  /** The first failure of a fresh key stores count 1 and no lock. */
  lemma FirstFailure(m: map<string, Attempt>, key: string, maxAttempts: int, lockoutTime: int, now: int)
    requires key !in m && maxAttempts > 1 && lockoutTime >= 0
    ensures var r := AfterUpdate(m, key, false, maxAttempts, lockoutTime, now);
      key in r && r[key] == Attempt(1, 0)
  {
    FailureWritesKey(m, key, maxAttempts, lockoutTime, now);
  }

  /** A failure below the threshold adds one to the count and keeps the lock time. */
  lemma FailureBelowThreshold(m: map<string, Attempt>, key: string, maxAttempts: int, lockoutTime: int, now: int)
    requires key in m && m[key].count >= 0 && m[key].count + 1 < maxAttempts && lockoutTime >= 0
    ensures var r := AfterUpdate(m, key, false, maxAttempts, lockoutTime, now);
      key in r && r[key] == Attempt(m[key].count + 1, m[key].lockUntil)
  {
    FailureWritesKey(m, key, maxAttempts, lockoutTime, now);
  }

  /** The failure that reaches the threshold resets the count and locks the key
      for `lockoutTime` milliseconds from now. */
  lemma FailureAtThreshold(m: map<string, Attempt>, key: string, maxAttempts: int, lockoutTime: int, now: int)
    requires EntryOrFresh(m, key).count >= 0 && EntryOrFresh(m, key).count + 1 >= maxAttempts
    requires lockoutTime >= 0
    ensures var r := AfterUpdate(m, key, false, maxAttempts, lockoutTime, now);
      key in r && r[key] == Attempt(0, now + lockoutTime)
  {
    FailureWritesKey(m, key, maxAttempts, lockoutTime, now);
  }

  /** Cleanup runs only above 100 entries and then drops exactly the stale ones;
      no other entry is changed by a failure. */
  lemma FailureCleanup(m: map<string, Attempt>, key: string, maxAttempts: int, lockoutTime: int, now: int)
    ensures var m1 := m[key := Bumped(EntryOrFresh(m, key), maxAttempts, lockoutTime, now)];
      var r := AfterUpdate(m, key, false, maxAttempts, lockoutTime, now);
      (|m1| <= 100 ==> r == m1)
      && (|m1| > 100 ==> forall k :: k in r <==> k in m1 && !(m1[k].lockUntil < now && m1[k].count == 0))
      && (forall k | k in r && k != key :: k in m && r[k] == m[k])
  {
  }

  /** `n` failures of the same key at the same instant, with the default limits. */
  function Failures(m: map<string, Attempt>, key: string, n: nat, now: int): map<string, Attempt>
  {
    if n == 0 then m
    else AfterUpdate(Failures(m, key, n - 1, now), key, false, DefaultMaxAttempts, DefaultLockoutTime, now)
  }

  /** With the defaults, four failures of a fresh key count up to 4 and the
      fifth locks the key for fifteen minutes. */
  lemma {:induction false} FifthFailureLocks(m: map<string, Attempt>, key: string, n: nat, now: int)
    requires key !in m && 1 <= n <= 5
    ensures var r := Failures(m, key, n, now);
      key in r && r[key] == (if n < 5 then Attempt(n, 0) else Attempt(0, now + 15 * 60 * 1000))
  {
    if n == 1 {
      FirstFailure(m, key, DefaultMaxAttempts, DefaultLockoutTime, now);
    } else {
      FifthFailureLocks(m, key, n - 1, now);
      var p := Failures(m, key, n - 1, now);
      if n < 5 {
        FailureBelowThreshold(p, key, DefaultMaxAttempts, DefaultLockoutTime, now);
      } else {
        FailureAtThreshold(p, key, DefaultMaxAttempts, DefaultLockoutTime, now);
      }
    }
  }

  /** Right after the locking failure the key is locked out, for
      `ceil(lockoutTime / 60000)` minutes. */
  lemma LockedRightAfterThreshold(m: map<string, Attempt>, key: string, maxAttempts: int, lockoutTime: int, now: int)
    requires EntryOrFresh(m, key).count >= 0 && EntryOrFresh(m, key).count + 1 >= maxAttempts
    requires lockoutTime > 0
    ensures var r := AfterUpdate(m, key, false, maxAttempts, lockoutTime, now);
      IsUserLockedOut(r, key, now) && RemainingLockoutTime(r, key, now) == CeilDiv(lockoutTime, 60000)
  {
    FailureAtThreshold(m, key, maxAttempts, lockoutTime, now);
  }

  // ----- validateCourseData -----

  /** The course fields the validator reads; "" stands for a missing string and
      `None` for a missing price. */
  datatype CourseData = CourseData(courseTitle: string, courseDescription: string,
                                   coursePrice: Option<real>, courseThumbnail: string)

  datatype CourseValidation = CourseValidation(isValid: bool, errors: seq<string>)

  const TitleError := "Course title must be at least 3 characters long"
  const DescriptionError := "Course description must be at least 10 characters long"
  const PriceError := "Course price must be a positive number"
  const ThumbnailError := "Course thumbnail is required"

  /** `!price || price < 0`: a missing, zero or negative price fails. */
  predicate BadPrice(price: Option<real>)
  {
    price.None? || price.value <= 0.0
  }

  /** The message of a check, present only when the check fails. */
  function MessageIf(fails: bool, msg: string): seq<string>
  {
    if fails then [msg] else []
  }

  /** The messages of the failing checks, in the order the checks run. */
  function CourseMessages(titleFails: bool, descriptionFails: bool, priceFails: bool, thumbnailFails: bool): seq<string>
  {
    MessageIf(titleFails, TitleError) + MessageIf(descriptionFails, DescriptionError)
    + MessageIf(priceFails, PriceError) + MessageIf(thumbnailFails, ThumbnailError)
  }

  /** Each message appears exactly when its check fails, and the list is
      empty exactly when every check passes. */
  lemma CourseMessagesFacts(titleFails: bool, descriptionFails: bool, priceFails: bool, thumbnailFails: bool)
    ensures var e := CourseMessages(titleFails, descriptionFails, priceFails, thumbnailFails);
      (TitleError in e <==> titleFails) && (DescriptionError in e <==> descriptionFails)
      && (PriceError in e <==> priceFails) && (ThumbnailError in e <==> thumbnailFails)
      && (e == [] <==> !titleFails && !descriptionFails && !priceFails && !thumbnailFails)
  {
    assert |TitleError| == 47 && |DescriptionError| == 54;
    assert |PriceError| == 38 && |ThumbnailError| == 28;
  }

  /** Pushes the message of each failing check onto an initially empty list. */
  method CollectMessages(titleFails: bool, descriptionFails: bool, priceFails: bool, thumbnailFails: bool)
    returns (errors: seq<string>)
    ensures errors == CourseMessages(titleFails, descriptionFails, priceFails, thumbnailFails)
  {
    errors := [];
    if titleFails {
      errors := errors + [TitleError];
    }
    if descriptionFails {
      errors := errors + [DescriptionError];
    }
    if priceFails {
      errors := errors + [PriceError];
    }
    if thumbnailFails {
      errors := errors + [ThumbnailError];
    }
  }

  /** `validateCourseData`: one message per failing check, in the order of the
      checks, and valid exactly when there is none. */
  method ValidateCourseData(d: CourseData) returns (r: CourseValidation)
    ensures TitleError in r.errors <==> Utf16Length(Trim(d.courseTitle)) < 3
    ensures DescriptionError in r.errors <==> Utf16Length(Trim(d.courseDescription)) < 10
    ensures PriceError in r.errors <==> BadPrice(d.coursePrice)
    ensures ThumbnailError in r.errors <==> d.courseThumbnail == ""
    ensures r.errors == CourseMessages(Utf16Length(Trim(d.courseTitle)) < 3, Utf16Length(Trim(d.courseDescription)) < 10,
                                       BadPrice(d.coursePrice), d.courseThumbnail == "")
    ensures r.isValid <==> (Utf16Length(Trim(d.courseTitle)) >= 3 && Utf16Length(Trim(d.courseDescription)) >= 10
                            && !BadPrice(d.coursePrice) && d.courseThumbnail != "")
  {
    var titleFails := d.courseTitle == "" || Utf16Length(Trim(d.courseTitle)) < 3;
    assert titleFails == (Utf16Length(Trim(d.courseTitle)) < 3);
    var descriptionFails := d.courseDescription == "" || Utf16Length(Trim(d.courseDescription)) < 10;
    assert descriptionFails == (Utf16Length(Trim(d.courseDescription)) < 10);
    var priceFails := d.coursePrice.None? || d.coursePrice.value == 0.0 || d.coursePrice.value < 0.0;
    assert priceFails == BadPrice(d.coursePrice);
    var thumbnailFails := d.courseThumbnail == "";
    var errors := CollectMessages(titleFails, descriptionFails, priceFails, thumbnailFails);
    CourseMessagesFacts(titleFails, descriptionFails, priceFails, thumbnailFails);
    r := CourseValidation(|errors| == 0, errors);
  }
}
