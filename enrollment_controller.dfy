/** The enrolment handlers: `enrollCourse`, `getCourseProgress`,
    `updateCourseProgress` (an upsert on the progress list keyed by lecture)
    and `getEnrolledCourses`. */
module EnrollmentController {
  import StudentController

  /** One entry of an enrolment's progress list. */
  datatype Progress = Progress(lectureId: string, completed: bool, completedAt: int)

  datatype Enrollment = Enrollment(studentId: string, courseId: string, paymentId: string, orderId: string,
                                   amount: real, status: string, progress: seq<Progress>)

  datatype Outcome<T> = Done(status: int, value: T) | Failed(status: int, message: string)

  const AlreadyEnrolledMessage := "Already enrolled in this course"
  const CourseNotFoundMessage := "Course not found"
  const NotEnrolledMessage := "Not enrolled in this course"

  /** Index of the first enrolment of the pair, or -1 (`findOne`). */
  function FindEnrollment(v: seq<Enrollment>, studentId: string, courseId: string): (k: int)
    ensures -1 <= k < |v|
    ensures k >= 0 ==> v[k].studentId == studentId && v[k].courseId == courseId
    ensures forall i | 0 <= i < |v| && (k == -1 || i < k) :: !(v[i].studentId == studentId && v[i].courseId == courseId)
  {
    if v == [] then -1
    else if v[0].studentId == studentId && v[0].courseId == courseId then 0
    else var k := FindEnrollment(v[1..], studentId, courseId); if k == -1 then -1 else k + 1
  }

  /** `progress.findIndex(p => p.lectureId.toString() === lectureId)` */
  function FindLecture(progress: seq<Progress>, lectureId: string): (k: int)
    ensures -1 <= k < |progress|
    ensures k >= 0 ==> progress[k].lectureId == lectureId
    ensures forall i | 0 <= i < |progress| && (k == -1 || i < k) :: progress[i].lectureId != lectureId
  {
    if progress == [] then -1
    else if progress[0].lectureId == lectureId then 0
    else var k := FindLecture(progress[1..], lectureId); if k == -1 then -1 else k + 1
  }

  /** No lecture has two progress entries. */
  predicate UniqueLectures(progress: seq<Progress>)
  {
    forall i, j | 0 <= i < j < |progress| :: progress[i].lectureId != progress[j].lectureId
  }

  /** No (student, course) pair has two enrolments. */
  predicate UniquePairs(v: seq<Enrollment>)
  {
    forall i, j | 0 <= i < j < |v| :: !(v[i].studentId == v[j].studentId && v[i].courseId == v[j].courseId)
  }

  /** The progress list after `updateCourseProgress(lectureId)` at `now`:
      a push when the lecture is new, else an update of its entry. */
  function Upsert(progress: seq<Progress>, lectureId: string, now: int): (r: seq<Progress>)
    ensures FindLecture(progress, lectureId) == -1 ==> r == progress + [Progress(lectureId, true, now)]
    ensures FindLecture(progress, lectureId) >= 0 ==>
      |r| == |progress|
      && r[FindLecture(progress, lectureId)] == Progress(lectureId, true, now)
      && forall i | 0 <= i < |progress| && i != FindLecture(progress, lectureId) :: r[i] == progress[i]
  {
    var k := FindLecture(progress, lectureId);
    if k == -1 then progress + [Progress(lectureId, true, now)]
    else progress[k := progress[k].(completed := true, completedAt := now)]
  }

  /** After an update the lecture has exactly one entry, and it is completed;
      the other entries are those of before. */
  lemma UpsertRecordsLecture(progress: seq<Progress>, lectureId: string, now: int)
    requires UniqueLectures(progress)
    ensures var r := Upsert(progress, lectureId, now);
      UniqueLectures(r)
      && (forall i | 0 <= i < |r| && r[i].lectureId == lectureId :: r[i] == Progress(lectureId, true, now))
      && (exists i | 0 <= i < |r| :: r[i].lectureId == lectureId)
      && (forall p | p in progress && p.lectureId != lectureId :: p in r)
      && |r| <= |progress| + 1
  {
    var r := Upsert(progress, lectureId, now);
    var k := FindLecture(progress, lectureId);
    if k == -1 {
      assert r[|progress|].lectureId == lectureId;
      forall i, j | 0 <= i < j < |r| ensures r[i].lectureId != r[j].lectureId {
        if j < |progress| {
          assert r[i] == progress[i] && r[j] == progress[j];
        } else {
          assert r[i] == progress[i];
        }
      }
      forall p | p in progress && p.lectureId != lectureId ensures p in r {
        var i :| 0 <= i < |progress| && progress[i] == p;
        assert r[i] == p;
      }
    } else {
      assert r[k].lectureId == lectureId;
      forall p | p in progress && p.lectureId != lectureId ensures p in r {
        var i :| 0 <= i < |progress| && progress[i] == p;
        assert r[i] == p;
      }
    }
  }

  /** Marking the same lecture twice adds no second entry. */
  lemma UpsertTwiceKeepsLength(progress: seq<Progress>, lectureId: string, now: int, later: int)
    ensures |Upsert(Upsert(progress, lectureId, now), lectureId, later)| == |Upsert(progress, lectureId, now)|
  {
    var r := Upsert(progress, lectureId, now);
    if FindLecture(progress, lectureId) == -1 {
      assert r[|progress|].lectureId == lectureId;
    }
    assert FindLecture(r, lectureId) >= 0;
  }

  /** The enrolments of one student (`Enrollment.find({ studentId })`), in
      collection order. */
  function EnrollmentsOf(v: seq<Enrollment>, studentId: string): (r: seq<Enrollment>)
    ensures |r| <= |v|
    ensures forall e :: e in r <==> e in v && e.studentId == studentId
  {
    if v == [] then []
    else (if v[0].studentId == studentId then [v[0]] else []) + EnrollmentsOf(v[1..], studentId)
  }

  /** The enrolment collection. */
  class EnrollmentStore {
    var enrollments: seq<Enrollment>

    ghost predicate Valid()
      reads this
    {
      UniquePairs(enrollments) && forall i | 0 <= i < |enrollments| :: UniqueLectures(enrollments[i].progress)
    }

    constructor()
      ensures Valid() && enrollments == []
    {
      enrollments := [];
    }

    /** `enrollCourse(courseId)` for the authenticated `studentId`; the
        duplicate check comes before the course lookup. */
    method EnrollCourse(studentId: string, courseId: string, courses: map<string, StudentController.Course>)
      returns (r: Outcome<Enrollment>)
      requires Valid()
      modifies this
      ensures Valid()
      ensures FindEnrollment(old(enrollments), studentId, courseId) >= 0 ==>
        r == Failed(400, AlreadyEnrolledMessage) && enrollments == old(enrollments)
      ensures FindEnrollment(old(enrollments), studentId, courseId) == -1 && courseId !in courses ==>
        r == Failed(404, CourseNotFoundMessage) && enrollments == old(enrollments)
      ensures FindEnrollment(old(enrollments), studentId, courseId) == -1 && courseId in courses ==>
        var e := Enrollment(studentId, courseId, "temp_payment_id", "temp_order_id", courses[courseId].price,
                            "completed", []);
        r == Done(201, e) && enrollments == old(enrollments) + [e]
    {
      if FindEnrollment(enrollments, studentId, courseId) >= 0 {
        return Failed(400, AlreadyEnrolledMessage);
      }
      if courseId !in courses {
        return Failed(404, CourseNotFoundMessage);
      }
      var e := Enrollment(studentId, courseId, "temp_payment_id", "temp_order_id", courses[courseId].price,
                          "completed", []);
      ghost var before := enrollments;
      enrollments := enrollments + [e];
      NewEnrollmentShape(studentId, courseId, courses, before);
      r := Done(201, e);
    }

    /** `getCourseProgress(courseId)` for the authenticated `studentId`. */
    method GetCourseProgress(studentId: string, courseId: string) returns (r: Outcome<seq<Progress>>)
      ensures var k := FindEnrollment(enrollments, studentId, courseId);
        (k == -1 ==> r == Failed(404, NotEnrolledMessage))
        && (k >= 0 ==> r == Done(200, enrollments[k].progress))
    {
      var k := FindEnrollment(enrollments, studentId, courseId);
      if k == -1 {
        return Failed(404, NotEnrolledMessage);
      }
      r := Done(200, enrollments[k].progress);
    }

    /** `updateCourseProgress(courseId, lectureId)` at `now`. */
    method UpdateCourseProgress(studentId: string, courseId: string, lectureId: string, now: int)
      returns (r: Outcome<Enrollment>)
      requires Valid()
      modifies this
      ensures Valid()
      ensures var k := FindEnrollment(old(enrollments), studentId, courseId);
        (k == -1 ==> r == Failed(404, NotEnrolledMessage) && enrollments == old(enrollments))
        && (k >= 0 ==>
              var e := old(enrollments)[k].(progress := Upsert(old(enrollments)[k].progress, lectureId, now));
              r == Done(200, e) && enrollments == old(enrollments)[k := e])
    {
      var k := FindEnrollment(enrollments, studentId, courseId);
      if k == -1 {
        return Failed(404, NotEnrolledMessage);
      }
      var enrollment := enrollments[k];
      var progress := enrollment.progress;
      var i := FindLecture(progress, lectureId);
      if i == -1 {
        progress := progress + [Progress(lectureId, true, now)];
      } else {
        progress := progress[i := progress[i].(completed := true, completedAt := now)];
      }
      UpsertRecordsLecture(enrollment.progress, lectureId, now);
      enrollment := enrollment.(progress := progress);
      enrollments := enrollments[k := enrollment];
      r := Done(200, enrollment);
    }

    /** `getEnrolledCourses` for the authenticated `studentId`. */
    method GetEnrolledCourses(studentId: string) returns (r: seq<Enrollment>)
      ensures forall e :: e in r <==> e in enrollments && e.studentId == studentId
    {
      r := EnrollmentsOf(enrollments, studentId);
    }
  }

  /** A new enrolment starts completed, with no progress, charged the
      course's price. */
  lemma NewEnrollmentShape(studentId: string, courseId: string, courses: map<string, StudentController.Course>,
                           v: seq<Enrollment>)
    requires courseId in courses && FindEnrollment(v, studentId, courseId) == -1
    ensures UniquePairs(v) ==> UniquePairs(v + [Enrollment(studentId, courseId, "temp_payment_id", "temp_order_id",
                                                          courses[courseId].price, "completed", [])])
  {
    var e := Enrollment(studentId, courseId, "temp_payment_id", "temp_order_id", courses[courseId].price, "completed", []);
    var w := v + [e];
    if UniquePairs(v) {
      forall i, j | 0 <= i < j < |w| ensures !(w[i].studentId == w[j].studentId && w[i].courseId == w[j].courseId) {
        assert w[i] == v[i];
        if j < |v| {
          assert w[j] == v[j];
        }
      }
    }
  }
}
