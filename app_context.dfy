/** The client's application context: the rating, duration and lecture
    helpers it hands to the pages, the enrolled-course mapping, and the
    provider state that `initializeAuth` and `logout` replace. The browser's
    `localStorage` is a map from key to stored string; `JSON.parse` of the
    stored user is a parameter that fails (`None`) exactly where the code
    reaches its `catch`: text that is not JSON, and the text `null`, whose
    `.role` read throws. A truthy parsed value, a number or an array
    included, is a user whose missing fields read as absent. A falsy parsed
    value (`0`, `false`, `""`) is not represented: the code would keep it
    as the user without clearing the storage, and the route guard would
    read it as nobody signed in. */
module AppContext {
  import opened Js
  import opened ClientCourse
  import ClientValidation
  import EnrollmentController

  // ----- helpers handed to the pages -----

  /** `calculateRating`: 0 without a course or ratings, else the mean of the
      `rating` fields. */
  function CalculateRating(course: Option<Course>): (r: real)
    ensures course.None? || course.value.courseRatings.None? || |course.value.courseRatings.value| == 0 ==> r == 0.0
    ensures course.Some? && course.value.courseRatings.Some? && |course.value.courseRatings.value| > 0 ==>
      var rs := course.value.courseRatings.value;
      r * |rs| as real == ClientValidation.Sum(RatingValues(rs))
  {
    if course.None? then 0.0 else MeanRating(course.value.courseRatings)
  }

  /** `calculateCourseDuration`: 'N/A' without content, else the floored
      hours and the remainder (`%` truncates) of the total minutes, missing
      durations counted as 0. */
  function CalculateCourseDuration(course: Option<Course>): (r: string)
    ensures course.None? || course.value.courseContent.None? ==> r == "N/A"
  {
    if course.None? || course.value.courseContent.None? then "N/A"
    else
      var total := TotalMinutes(course.value.courseContent.value);
      IntToString(total / 60) + "h " + IntToString(Rem(total, 60)) + "m"
  }

  /** Whenever the total splits into `h` hours and `m < 60` minutes, the
      label shows exactly those two numbers. */
  lemma CourseDurationShowsSplit(course: Course, h: nat, m: nat)
    requires course.courseContent.Some? && m < 60
    requires TotalMinutes(course.courseContent.value) == h * 60 + m
    ensures CalculateCourseDuration(Some(course)) == NatToString(h) + "h " + NatToString(m) + "m"
  {
    var total := h * 60 + m;
    assert total / 60 == h && total % 60 == m;
  }

  /** `calculateTotalLectures`: 0 without content, else the number of
      lectures across all chapters. */
  function CalculateTotalLectures(course: Option<Course>): (n: nat)
    ensures course.None? || course.value.courseContent.None? ==> n == 0
    ensures course.Some? && course.value.courseContent.Some? ==> n == |AllLectures(course.value.courseContent.value)|
  {
    if course.None? || course.value.courseContent.None? then 0
    else
      TotalsAreOverAllLectures(course.value.courseContent.value);
      TotalLectures(course.value.courseContent.value)
  }

  // ----- enrolled courses -----

  /** An enrollment as the enrolled-courses endpoint returns it, its course
      populated. */
  datatype EnrollmentDoc = EnrollmentDoc(course: Course, progress: seq<EnrollmentController.Progress>)

  /** `{ ...enrollment.courseId, progress, totalLectures }` */
  datatype EnrolledCourse = EnrolledCourse(course: Course, progress: nat, totalLectures: nat)

  function WithProgress(e: EnrollmentDoc): (c: EnrolledCourse)
    ensures c.course == e.course && c.progress == |e.progress|
    ensures c.totalLectures == CalculateTotalLectures(Some(e.course))
  {
    EnrolledCourse(e.course, |e.progress|, CalculateTotalLectures(Some(e.course)))
  }

  /** The `map` over the response array. */
  function MapEnrollments(es: seq<EnrollmentDoc>): (r: seq<EnrolledCourse>)
    ensures |r| == |es| && forall k | 0 <= k < |es| :: r[k] == WithProgress(es[k])
  {
    seq(|es|, k requires 0 <= k < |es| => WithProgress(es[k]))
  }

  /** The lecture ids of a course. */
  function LectureIds(ls: seq<Lecture>): set<string>
  {
    set k | 0 <= k < |ls| :: ls[k].lectureId
  }

  lemma {:induction false} LectureIdsAtMostLectures(ls: seq<Lecture>)
    ensures |LectureIds(ls)| <= |ls|
    decreases |ls|
  {
    if ls != [] {
      var init := ls[..|ls| - 1];
      LectureIdsAtMostLectures(init);
      assert LectureIds(ls) <= LectureIds(init) + {ls[|ls| - 1].lectureId} by {
        forall id | id in LectureIds(ls) ensures id in LectureIds(init) + {ls[|ls| - 1].lectureId} {
          var k :| 0 <= k < |ls| && ls[k].lectureId == id;
          if k < |ls| - 1 {
            assert init[k] == ls[k];
          }
        }
      }
      var bigger := LectureIds(init) + {ls[|ls| - 1].lectureId};
      assert |bigger| <= |LectureIds(init)| + 1;
      SubsetAtMost(LectureIds(ls), bigger);
    }
  }

  lemma SubsetAtMost<T>(a: set<T>, b: set<T>)
    requires a <= b
    ensures |a| <= |b|
  {
    assert b == a + (b - a);
    assert a * (b - a) == {};
  }

  lemma {:induction false} DistinctIdsAtMost(progress: seq<EnrollmentController.Progress>, ids: set<string>)
    requires EnrollmentController.UniqueLectures(progress)
    requires forall k | 0 <= k < |progress| :: progress[k].lectureId in ids
    ensures |progress| <= |ids|
    decreases |progress|
  {
    if progress != [] {
      var last := progress[|progress| - 1];
      var init := progress[..|progress| - 1];
      forall k | 0 <= k < |init| ensures init[k].lectureId in ids - {last.lectureId} {
        assert init[k] == progress[k];
      }
      DistinctIdsAtMost(init, ids - {last.lectureId});
    }
  }

  /** When the recorded lectures are distinct lectures of the course, the
      progress count never exceeds the lecture count. The backend records
      any lecture id it is sent, so this rests on the caller. */
  lemma ProgressAtMostTotal(e: EnrollmentDoc)
    requires e.course.courseContent.Some?
    requires EnrollmentController.UniqueLectures(e.progress)
    requires forall k | 0 <= k < |e.progress| :: e.progress[k].lectureId in LectureIds(AllLectures(e.course.courseContent.value))
    ensures WithProgress(e).progress <= WithProgress(e).totalLectures
  {
    var ls := AllLectures(e.course.courseContent.value);
    DistinctIdsAtMost(e.progress, LectureIds(ls));
    LectureIdsAtMostLectures(ls);
  }

  // ----- provider state -----

  /** The parsed stored user; only its role is read here. */
  datatype StoredUser = StoredUser(id: string, role: Option<string>)

  /** A stored value is truthy when present and non-empty. */
  predicate Stored(storage: map<string, string>, key: string)
  {
    key in storage && storage[key] != ""
  }

  /** What `initializeAuth` decides from the storage: the user, and whether
      the stored token and user are removed (after a parse failure). */
  datatype AuthInit = AuthInit(user: Option<StoredUser>, clearStorage: bool)

  function AuthFromStorage(storage: map<string, string>, parse: string -> Option<StoredUser>): (a: AuthInit)
    ensures a.user.Some? <==> Stored(storage, "token") && Stored(storage, "user") && parse(storage["user"]).Some?
    ensures a.user.Some? ==> a.user == parse(storage["user"])
    ensures a.clearStorage <==> Stored(storage, "token") && Stored(storage, "user") && parse(storage["user"]).None?
  {
    if Stored(storage, "token") && Stored(storage, "user") then
      match parse(storage["user"])
      case None => AuthInit(None, true)
      case Some(u) => AuthInit(Some(u), false)
    else AuthInit(None, false)
  }

  /** `parsedUser.role === 'educator'` */
  predicate IsEducatorUser(user: Option<StoredUser>)
  {
    user.Some? && user.value.role == Some("educator")
  }

  /** The storage after `logout`. */
  function LoggedOutStorage(storage: map<string, string>): (s: map<string, string>)
    ensures "token" !in s && "user" !in s
    ensures forall k | k != "token" && k != "user" :: (k in s <==> k in storage) && (k in s ==> s[k] == storage[k])
  {
    storage - {"token", "user"}
  }

  /** After a logout, initialising again finds nobody signed in. */
  lemma LogoutThenInitializeFindsNoUser(storage: map<string, string>, parse: string -> Option<StoredUser>)
    ensures AuthFromStorage(LoggedOutStorage(storage), parse) == AuthInit(None, false)
  {
    assert !Stored(LoggedOutStorage(storage), "token");
  }

  /** The provider's state. */
  class Provider {
    var storage: map<string, string>
    var user: Option<StoredUser>
    var isEducator: bool
    var loading: bool
    var enrolledCourses: seq<EnrolledCourse>
    var location: string

    /** Only a signed-in educator is flagged as one. */
    predicate Valid()
      reads this
    {
      isEducator ==> IsEducatorUser(user)
    }

    /** The initial state: nobody signed in, loading. */
    constructor(storage0: map<string, string>, location0: string)
      ensures Valid()
      ensures storage == storage0 && user.None? && !isEducator && loading && enrolledCourses == [] && location == location0
    {
      storage := storage0;
      user := None;
      isEducator := false;
      loading := true;
      enrolledCourses := [];
      location := location0;
    }

    /** `initializeAuth` */
    method InitializeAuth(parse: string -> Option<StoredUser>)
      modifies this
      ensures Valid()
      ensures var a := AuthFromStorage(old(storage), parse);
        user == a.user && isEducator == IsEducatorUser(a.user)
        && storage == (if a.clearStorage then LoggedOutStorage(old(storage)) else old(storage))
      ensures !loading && enrolledCourses == old(enrolledCourses) && location == old(location)
    {
      var a := AuthFromStorage(storage, parse);
      if a.clearStorage {
        storage := LoggedOutStorage(storage);
      }
      user := a.user;
      isEducator := IsEducatorUser(a.user);
      loading := false;
    }

    /** `logout` */
    method Logout()
      modifies this
      ensures Valid()
      ensures storage == LoggedOutStorage(old(storage)) && user.None? && !isEducator
      ensures enrolledCourses == [] && location == "/login" && loading == old(loading)
    {
      storage := LoggedOutStorage(storage);
      user := None;
      isEducator := false;
      enrolledCourses := [];
      location := "/login";
    }
  }
}
