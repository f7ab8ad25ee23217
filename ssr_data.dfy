/** The data service behind the server-rendered home page: the featured
    courses, the testimonials drawn from course ratings, the platform
    statistics, and the single-course view. The database queries are
    abstracted as their inputs: the course collection in natural order
    (with educators and rating students already populated) and the user
    collection. */
module SsrData {
  import opened Js

  /** A populated `educator` or `courseRatings.student` reference. */
  datatype Person = Person(name: Option<string>, avatar: Option<string>)

  datatype Rating = Rating(student: Option<Person>, review: Option<string>, rating: real)

  /** A chapter counts its `lectures` array, when it has one. */
  datatype Chapter = Chapter(lectures: Option<seq<string>>)

  datatype CourseDoc = CourseDoc(id: string, courseTitle: string, courseDescription: string, coursePrice: real,
                                 courseThumbnail: string, courseContent: Option<seq<Chapter>>,
                                 educator: Option<Person>, isPublished: bool, createdAt: int,
                                 courseRatings: seq<Rating>)

  datatype UserDoc = UserDoc(role: string)

  datatype Testimonial = Testimonial(name: string, avatar: string, course: string, quote: string, rating: real)

  datatype MappedCourse = MappedCourse(id: string, title: string, description: string, price: real,
                                       thumbnail: string, educator: string, duration: string)

  datatype Stats = Stats(totalCourses: nat, totalStudents: nat, totalEducators: nat)

  datatype SsrPayload = SsrPayload(courses: seq<MappedCourse>, testimonials: seq<Testimonial>, stats: Stats)

  const MaxShown := 6

  // ----- testimonials -----

  /** The testimonial built from a rating that has a review. */
  function TestimonialOf(course: CourseDoc, r: Rating): (t: Testimonial)
    requires !Missing(r.review)
    ensures t.quote == r.review.value && t.quote != ""
    ensures t.course == course.courseTitle && t.rating == r.rating
    ensures (r.student.None? || Missing(r.student.value.name)) ==> t.name == "Anonymous"
    ensures r.student.Some? && !Missing(r.student.value.name) ==> t.name == r.student.value.name.value
    ensures (r.student.None? || Missing(r.student.value.avatar)) ==> t.avatar == ""
    ensures r.student.Some? && !Missing(r.student.value.avatar) ==> t.avatar == r.student.value.avatar.value
  {
    var name := if r.student.Some? && !Missing(r.student.value.name) then r.student.value.name.value else "Anonymous";
    var avatar := if r.student.Some? && !Missing(r.student.value.avatar) then r.student.value.avatar.value else "";
    Testimonial(name, avatar, course.courseTitle, r.review.value, r.rating)
  }

  /** The testimonials of the first `|ratings|` ratings of `course`, in
      rating order; ratings without a review give none. */
  function ReviewsOf(course: CourseDoc, ratings: seq<Rating>): (ts: seq<Testimonial>)
    ensures |ts| <= |ratings|
    ensures forall t | t in ts :: t.quote != "" && t.course == course.courseTitle
  {
    if ratings == [] then []
    else
      var last := ratings[|ratings| - 1];
      ReviewsOf(course, ratings[..|ratings| - 1]) + (if Missing(last.review) then [] else [TestimonialOf(course, last)])
  }

  /** Every testimonial of every course, in course order then rating order. */
  function AllTestimonials(courses: seq<CourseDoc>): (ts: seq<Testimonial>)
    ensures forall t | t in ts :: t.quote != ""
  {
    if courses == [] then []
    else
      var last := courses[|courses| - 1];
      AllTestimonials(courses[..|courses| - 1]) + ReviewsOf(last, last.courseRatings)
  }

  function Take<T>(s: seq<T>, n: nat): (r: seq<T>)
    ensures |r| <= n && r <= s
    ensures |s| >= n ==> |r| == n
    ensures |s| < n ==> r == s
  {
    if |s| <= n then s else s[..n]
  }

  /** The rating documents' query: published courses with at least one
      rating, in natural order. */
  function RatedCourses(courses: seq<CourseDoc>): (r: seq<CourseDoc>)
    ensures forall c :: c in r <==> c in courses && c.isPublished && c.courseRatings != []
  {
    if courses == [] then []
    else
      var last := courses[|courses| - 1];
      RatedCourses(courses[..|courses| - 1]) + (if last.isPublished && last.courseRatings != [] then [last] else [])
  }

  /** The nested `forEach` loops and the final `slice(0, 6)`. */
  method GetTestimonials(courseDocs: seq<CourseDoc>) returns (testimonials: seq<Testimonial>)
    ensures testimonials == Take(AllTestimonials(courseDocs), MaxShown)
  {
    testimonials := [];
    var i := 0;
    while i < |courseDocs|
      invariant 0 <= i <= |courseDocs|
      invariant testimonials == AllTestimonials(courseDocs[..i])
    {
      testimonials := AppendReviews(testimonials, courseDocs[i]);
      assert courseDocs[..i + 1][..i] == courseDocs[..i];
      i := i + 1;
    }
    assert courseDocs[..i] == courseDocs;
    testimonials := Take(testimonials, MaxShown);
  }

  /** The inner `forEach` over one course's ratings. */
  method AppendReviews(acc: seq<Testimonial>, course: CourseDoc) returns (testimonials: seq<Testimonial>)
    ensures testimonials == acc + ReviewsOf(course, course.courseRatings)
  {
    testimonials := acc;
    var j := 0;
    while j < |course.courseRatings|
      invariant 0 <= j <= |course.courseRatings|
      invariant testimonials == acc + ReviewsOf(course, course.courseRatings[..j])
    {
      var rating := course.courseRatings[j];
      assert course.courseRatings[..j + 1][..j] == course.courseRatings[..j];
      if !Missing(rating.review) {
        testimonials := testimonials + [TestimonialOf(course, rating)];
      }
      j := j + 1;
    }
    assert course.courseRatings[..j] == course.courseRatings;
  }

  /** A course's testimonials come one per reviewed rating, so a course with
      `n` reviews contributes exactly `n`. */
  function ReviewCount(ratings: seq<Rating>): nat
  {
    if ratings == [] then 0
    else ReviewCount(ratings[..|ratings| - 1]) + (if Missing(ratings[|ratings| - 1].review) then 0 else 1)
  }

  lemma {:induction false} ReviewsOfCount(course: CourseDoc, ratings: seq<Rating>)
    ensures |ReviewsOf(course, ratings)| == ReviewCount(ratings)
    decreases |ratings|
  {
    if ratings != [] {
      ReviewsOfCount(course, ratings[..|ratings| - 1]);
    }
  }

  /** Testimonials keep course order: those of the earlier courses come
      first, ahead of the later ones. */
  lemma {:induction false} AllTestimonialsAppend(a: seq<CourseDoc>, b: seq<CourseDoc>)
    ensures AllTestimonials(a + b) == AllTestimonials(a) + AllTestimonials(b)
    decreases |b|
  {
    if b == [] {
      assert a + b == a;
    } else {
      var b', last := b[..|b| - 1], b[|b| - 1];
      var ab := a + b;
      assert ab[..|ab| - 1] == a + b' && ab[|ab| - 1] == last;
      var r := ReviewsOf(last, last.courseRatings);
      assert AllTestimonials(ab) == AllTestimonials(a + b') + r;
      assert AllTestimonials(b) == AllTestimonials(b') + r;
      AllTestimonialsAppend(a, b');
      ConcatAssoc(AllTestimonials(a), AllTestimonials(b'), r);
    }
  }

  // ----- course mapping -----

  /** The `reduce` over `courseContent || []` adding each chapter's
      `lectures.length`, or 0 for a chapter without lectures. */
  function LectureCount(content: seq<Chapter>): (n: nat)
  {
    if content == [] then 0
    else
      var last := content[|content| - 1];
      LectureCount(content[..|content| - 1]) + (if last.lectures.Some? then |last.lectures.value| else 0)
  }

  /** The lecture count is additive over chapters. */
  lemma {:induction false} LectureCountAppend(a: seq<Chapter>, b: seq<Chapter>)
    ensures LectureCount(a + b) == LectureCount(a) + LectureCount(b)
    decreases |b|
  {
    if b == [] {
      assert a + b == a;
    } else {
      var b' := b[..|b| - 1];
      assert (a + b)[..|a + b| - 1] == a + b';
      LectureCountAppend(a, b');
    }
  }

  /** A chapter without a lectures array adds nothing. */
  lemma EmptyChapterAddsNothing(content: seq<Chapter>)
    ensures LectureCount(content + [Chapter(None)]) == LectureCount(content)
  {
    assert (content + [Chapter(None)])[..|content|] == content;
  }

  /** `${lectureCount} lectures`: a non-empty run of digits that reads as
      the lecture count, then " lectures". */
  function Duration(c: CourseDoc): (d: string)
    ensures |d| >= 10 && d[|d| - 9..] == " lectures" && AllDigits(d[..|d| - 9])
    ensures DigitsValue(d[..|d| - 9]) == LectureCount(if c.courseContent.Some? then c.courseContent.value else [])
  {
    var count := LectureCount(if c.courseContent.Some? then c.courseContent.value else []);
    var n := NatToString(count);
    var d := n + " lectures";
    assert d[..|d| - 9] == n;
    NatToStringRoundTrip(count);
    d
  }

  /** The mapping to the home page's course fields. */
  function MapCourse(c: CourseDoc): (m: MappedCourse)
    ensures m.id == c.id && m.title == c.courseTitle && m.description == c.courseDescription
    ensures m.price == c.coursePrice && m.thumbnail == c.courseThumbnail
    ensures (c.educator.None? || Missing(c.educator.value.name)) ==> m.educator == "Educator"
    ensures c.educator.Some? && !Missing(c.educator.value.name) ==> m.educator == c.educator.value.name.value
    ensures m.duration == Duration(c)
  {
    MappedCourse(c.id, c.courseTitle, c.courseDescription, c.coursePrice, c.courseThumbnail,
                 if c.educator.Some? && !Missing(c.educator.value.name) then c.educator.value.name.value else "Educator",
                 Duration(c))
  }

  /** `getCourseData(courseId)`: `null` for an unknown id. */
  function GetCourseData(courses: map<string, CourseDoc>, courseId: string): (r: Option<MappedCourse>)
    ensures courseId !in courses ==> r.None?
    ensures courseId in courses ==> r == Some(MapCourse(courses[courseId]))
  {
    if courseId in courses then Some(MapCourse(courses[courseId])) else None
  }

  // ----- featured courses -----

  function Published(courses: seq<CourseDoc>): (r: seq<CourseDoc>)
    ensures forall c | c in r :: c.isPublished
    ensures multiset(r) <= multiset(courses)
    ensures forall c | c in courses && c.isPublished :: c in r
    ensures |r| <= |courses|
  {
    if courses == [] then []
    else
      var last := courses[|courses| - 1];
      assert courses == courses[..|courses| - 1] + [last];
      Published(courses[..|courses| - 1]) + (if last.isPublished then [last] else [])
  }

  predicate NewestFirst(s: seq<CourseDoc>)
  {
    forall i, j | 0 <= i < j < |s| :: s[i].createdAt >= s[j].createdAt
  }

  /** Insertion into a newest-first list, ahead of the first course that is
      not newer. */
  function Insert(x: CourseDoc, s: seq<CourseDoc>): (r: seq<CourseDoc>)
    ensures |r| == |s| + 1
    ensures multiset(r) == multiset(s) + multiset{x}
  {
    if s == [] || x.createdAt >= s[0].createdAt then [x] + s
    else
      assert s == [s[0]] + s[1..];
      [s[0]] + Insert(x, s[1..])
  }

  lemma {:induction false} InsertKeepsOrder(x: CourseDoc, s: seq<CourseDoc>)
    requires NewestFirst(s)
    ensures NewestFirst(Insert(x, s))
    decreases |s|
  {
    var r := Insert(x, s);
    if s == [] || x.createdAt >= s[0].createdAt {
      forall i, j | 0 <= i < j < |r| ensures r[i].createdAt >= r[j].createdAt {
        assert r[j] == s[j - 1];
        if i > 0 {
          assert r[i] == s[i - 1];
        }
      }
    } else {
      var rest := Insert(x, s[1..]);
      InsertKeepsOrder(x, s[1..]);
      InsertNoNewer(x, s[1..], s[0].createdAt);
      forall i, j | 0 <= i < j < |r| ensures r[i].createdAt >= r[j].createdAt {
        assert r[j] == rest[j - 1];
        if i > 0 {
          assert r[i] == rest[i - 1];
        }
      }
    }
  }

  /** Inserting a course no newer than `t` into courses no newer than `t`
      leaves every course no newer than `t`. */
  lemma {:induction false} InsertNoNewer(x: CourseDoc, s: seq<CourseDoc>, t: int)
    requires x.createdAt <= t && forall k | 0 <= k < |s| :: s[k].createdAt <= t
    ensures forall k | 0 <= k < |Insert(x, s)| :: Insert(x, s)[k].createdAt <= t
    decreases |s|
  {
    var r := Insert(x, s);
    if s == [] || x.createdAt >= s[0].createdAt {
      forall k | 0 < k < |r| ensures r[k].createdAt <= t {
        assert r[k] == s[k - 1];
      }
    } else {
      InsertNoNewer(x, s[1..], t);
      var rest := Insert(x, s[1..]);
      forall k | 0 < k < |r| ensures r[k].createdAt <= t {
        assert r[k] == rest[k - 1];
      }
    }
  }

  /** `sort({ createdAt: -1 })`; among courses created at the same instant
      this picks one of the orders the database may return. */
  function SortNewestFirst(s: seq<CourseDoc>): (r: seq<CourseDoc>)
    ensures NewestFirst(r)
    ensures multiset(r) == multiset(s)
  {
    if s == [] then []
    else
      assert s == s[..|s| - 1] + [s[|s| - 1]];
      var sorted := SortNewestFirst(s[..|s| - 1]);
      InsertKeepsOrder(s[|s| - 1], sorted);
      Insert(s[|s| - 1], sorted)
  }

  /** `Course.find({ isPublished: true }).sort({ createdAt: -1 }).limit(6)` */
  function Featured(courses: seq<CourseDoc>): (r: seq<CourseDoc>)
  {
    Take(SortNewestFirst(Published(courses)), MaxShown)
  }

  /** In a newest-first list, an element past the first `n` is no newer
      than any of them. */
  lemma LeftOutIsOlder(s: seq<CourseDoc>, n: nat, c: CourseDoc, k: nat)
    requires NewestFirst(s) && n <= |s| && c in s && c !in s[..n] && k < n
    ensures c.createdAt <= s[k].createdAt
  {
    var m :| 0 <= m < |s| && s[m] == c;
  }

  /** The featured courses are published courses, newest first. */
  lemma FeaturedArePublished(courses: seq<CourseDoc>)
    ensures forall c | c in Featured(courses) :: c.isPublished && c in courses
    ensures NewestFirst(Featured(courses))
  {
    var p := Published(courses);
    var s := SortNewestFirst(p);
    var r := Featured(courses);
    forall c | c in r ensures c.isPublished && c in courses {
      assert c in s;
      assert c in multiset(s);
      assert c in multiset(p);
      assert c in multiset(courses);
    }
    assert r == s[..|r|];
  }

  /** Six courses are featured when at least six are published, all of them
      otherwise. */
  lemma FeaturedCount(courses: seq<CourseDoc>)
    ensures |Featured(courses)| == (if |Published(courses)| < MaxShown then |Published(courses)| else MaxShown)
  {
    var p := Published(courses);
    var s := SortNewestFirst(p);
    assert |multiset(s)| == |multiset(p)|;
  }

  /** No published course left out is newer than any course shown. */
  lemma FeaturedAreNewest(courses: seq<CourseDoc>, c: CourseDoc, k: nat)
    requires c in courses && c.isPublished && c !in Featured(courses) && k < |Featured(courses)|
    ensures c.createdAt <= Featured(courses)[k].createdAt
  {
    var p := Published(courses);
    var s := SortNewestFirst(p);
    var r := Featured(courses);
    assert r == s[..|r|];
    assert c in multiset(p);
    assert c in multiset(s);
    LeftOutIsOlder(s, |r|, c, k);
  }

  // ----- statistics -----

  /** `Course.countDocuments({ isPublished: true })` */
  function CountPublished(courses: seq<CourseDoc>): (n: nat)
    ensures n <= |courses|
    ensures n == 0 <==> forall c | c in courses :: !c.isPublished
  {
    var r := Published(courses);
    assert r != [] ==> r[0] in multiset(r) && r[0] in multiset(courses) && r[0] in courses;
    |r|
  }

  /** `User.countDocuments({ role })` */
  function CountRole(users: seq<UserDoc>, role: string): (n: nat)
    ensures n <= |users|
    ensures n == 0 <==> forall u | u in users :: u.role != role
  {
    if users == [] then 0
    else CountRole(users[1..], role) + (if users[0].role == role then 1 else 0)
  }

  /** Every user is counted at most once, as a student or as an educator. */
  lemma {:induction false} RolesCountedOnce(users: seq<UserDoc>)
    ensures CountRole(users, "student") + CountRole(users, "educator") <= |users|
  {
    if users != [] {
      RolesCountedOnce(users[1..]);
    }
  }

  function GetPlatformStats(courses: seq<CourseDoc>, users: seq<UserDoc>): (s: Stats)
    ensures s.totalCourses == |Published(courses)|
    ensures s.totalStudents == CountRole(users, "student") && s.totalEducators == CountRole(users, "educator")
  {
    Stats(CountPublished(courses), CountRole(users, "student"), CountRole(users, "educator"))
  }

  function MapAll(cs: seq<CourseDoc>): (ms: seq<MappedCourse>)
    ensures |ms| == |cs| && forall i | 0 <= i < |cs| :: ms[i] == MapCourse(cs[i])
  {
    if cs == [] then [] else [MapCourse(cs[0])] + MapAll(cs[1..])
  }

  /** `getSSRData` */
  method GetSSRData(courses: seq<CourseDoc>, users: seq<UserDoc>) returns (data: SsrPayload)
    ensures |data.courses| <= MaxShown && data.courses == MapAll(Featured(courses))
    ensures data.testimonials == Take(AllTestimonials(RatedCourses(courses)), MaxShown)
    ensures |data.testimonials| <= MaxShown && forall t | t in data.testimonials :: t.quote != ""
    ensures data.stats == GetPlatformStats(courses, users)
  {
    var featured := Featured(courses);
    var testimonials := GetTestimonials(RatedCourses(courses));
    data := SsrPayload(MapAll(featured), testimonials, GetPlatformStats(courses, users));
  }
}
