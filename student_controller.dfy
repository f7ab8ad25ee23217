/** The student handlers: `enrollInCourse`, which records the enrolment on
    both the course (`enrolledStudents`) and the user (`enrolledCourses`), and
    `getEnrolledCourses`. */
module StudentController {

  /** The course fields these handlers and the enrolment handlers read. */
  datatype Course = Course(price: real, enrolledStudents: seq<string>)

  datatype Reply = Reply(status: int, message: string)

  const CourseNotFoundMessage := "Course not found"
  const AlreadyEnrolledMessage := "Already enrolled in this course"
  const EnrolledMessage := "Successfully enrolled in course"

  /** No student appears twice in the list. */
  predicate NoDuplicates(s: seq<string>)
  {
    forall i, j | 0 <= i < j < |s| :: s[i] != s[j]
  }

  /** Appending an absent element keeps a list duplicate-free. */
  lemma AppendAbsentKeepsNoDuplicates(s: seq<string>, x: string)
    requires NoDuplicates(s) && x !in s
    ensures NoDuplicates(s + [x])
  {
    var t := s + [x];
    forall i, j | 0 <= i < j < |t| ensures t[i] != t[j] {
      if j == |s| {
        assert t[i] == s[i] && s[i] in s;
      } else {
        assert t[i] == s[i] && t[j] == s[j];
      }
    }
  }

  /** `$addToSet`: set union, so adding a present course changes nothing. */
  function AddToSet(courses: set<string>, courseId: string): (r: set<string>)
    ensures courseId in r && courses <= r && |r - courses| <= 1
    ensures courseId in courses ==> r == courses
  {
    courses + {courseId}
  }

  /** The courses `Course.find({ enrolledStudents: studentId })` returns, by id. */
  function CoursesOf(courses: map<string, Course>, studentId: string): (r: set<string>)
    ensures forall c :: c in r <==> c in courses && studentId in courses[c].enrolledStudents
  {
    set c | c in courses && studentId in courses[c].enrolledStudents
  }

  class Catalog {
    /** The course collection, by id. */
    var courses: map<string, Course>
    /** Each user's `enrolledCourses`, by user id. */
    var enrolledCourses: map<string, set<string>>

    /** Every course's student list is duplicate-free, and a user's
        `enrolledCourses` names exactly the courses that list the user. */
    ghost predicate Valid()
      reads this
    {
      (forall c | c in courses :: NoDuplicates(courses[c].enrolledStudents))
      && (forall u | u in enrolledCourses :: enrolledCourses[u] == CoursesOf(courses, u))
    }

    constructor()
      ensures Valid() && courses == map[] && enrolledCourses == map[]
    {
      courses := map[];
      enrolledCourses := map[];
    }

    /** `enrollInCourse` for the authenticated `studentId`. The user update
        is a no-op when no user has that id. */
    method EnrollInCourse(studentId: string, courseId: string) returns (reply: Reply)
      requires Valid()
      modifies this
      ensures Valid()
      ensures courseId !in old(courses) ==>
        reply == Reply(404, CourseNotFoundMessage) && courses == old(courses) && enrolledCourses == old(enrolledCourses)
      ensures courseId in old(courses) && studentId in old(courses)[courseId].enrolledStudents ==>
        reply == Reply(400, AlreadyEnrolledMessage) && courses == old(courses) && enrolledCourses == old(enrolledCourses)
      ensures courseId in old(courses) && studentId !in old(courses)[courseId].enrolledStudents ==>
        var c := old(courses)[courseId];
        reply == Reply(200, EnrolledMessage)
        && courses == old(courses)[courseId := c.(enrolledStudents := c.enrolledStudents + [studentId])]
        && enrolledCourses == (if studentId in old(enrolledCourses)
                               then old(enrolledCourses)[studentId := AddToSet(old(enrolledCourses)[studentId], courseId)]
                               else old(enrolledCourses))
    {
      if courseId !in courses {
        return Reply(404, CourseNotFoundMessage);
      }
      var course := courses[courseId];
      if studentId in course.enrolledStudents {
        return Reply(400, AlreadyEnrolledMessage);
      }
      ghost var before := courses;
      AppendAbsentKeepsNoDuplicates(course.enrolledStudents, studentId);
      courses := courses[courseId := course.(enrolledStudents := course.enrolledStudents + [studentId])];
      EnrollKeepsCoursesOf(before, courseId, studentId);
      if studentId in enrolledCourses {
        enrolledCourses := enrolledCourses[studentId := AddToSet(enrolledCourses[studentId], courseId)];
      }
      reply := Reply(200, EnrolledMessage);
    }

    /** `getEnrolledCourses` for the authenticated `studentId`. */
    method GetEnrolledCourses(studentId: string) returns (ids: set<string>)
      requires Valid()
      ensures ids == CoursesOf(courses, studentId)
      ensures studentId in enrolledCourses ==> ids == enrolledCourses[studentId]
    {
      ids := set c | c in courses && studentId in courses[c].enrolledStudents;
    }
  }

  /** Adding `studentId` to one course adds exactly that course to the
      student's list and leaves every other student's list alone. */
  lemma EnrollKeepsCoursesOf(courses: map<string, Course>, courseId: string, studentId: string)
    requires courseId in courses
    ensures var c := courses[courseId];
      var after := courses[courseId := c.(enrolledStudents := c.enrolledStudents + [studentId])];
      CoursesOf(after, studentId) == CoursesOf(courses, studentId) + {courseId}
      && forall u | u != studentId :: CoursesOf(after, u) == CoursesOf(courses, u)
  {
    var c := courses[courseId];
    var after := courses[courseId := c.(enrolledStudents := c.enrolledStudents + [studentId])];
    forall u ensures CoursesOf(after, u) == CoursesOf(courses, u) + (if u == studentId then {courseId} else {}) {
      forall k ensures k in CoursesOf(after, u) <==> k in CoursesOf(courses, u) + (if u == studentId then {courseId} else {}) {
        if k == courseId {
          assert u in c.enrolledStudents + [studentId] <==> u in c.enrolledStudents || u == studentId;
        }
      }
    }
  }
}
