/** The course details page: the course looked up in the context's list,
    every section initially expanded, the totals of its lectures and
    minutes, the discounted price, and the content shown with chapters and
    lectures in their stored order. Lecture durations here are added as
    they are, so a missing one makes the total `NaN` (`None`). */
module CourseDetails {
  import opened Js
  import opened ClientCourse
  import ClientValidation

  // ----- calculateCourseTotals -----

  /** `a + b` where `None` is `NaN`. */
  function AddMinutes(a: Option<int>, b: Option<int>): (r: Option<int>)
    ensures r.Some? <==> a.Some? && b.Some?
    ensures r.Some? ==> r.value == a.value + b.value
  {
    if a.None? || b.None? then None else Some(a.value + b.value)
  }

  /** The minutes of every lecture added without a default. */
  function StrictMinutes(ls: seq<Lecture>): Option<int>
  {
    if ls == [] then Some(0) else AddMinutes(StrictMinutes(ls[..|ls| - 1]), ls[|ls| - 1].lectureDuration)
  }

  function StrictTotal(chs: seq<Chapter>): Option<int>
  {
    if chs == [] then Some(0)
    else AddMinutes(StrictTotal(chs[..|chs| - 1]), StrictMinutes(chs[|chs| - 1].chapterContent))
  }

  predicate AllTimed(ls: seq<Lecture>)
  {
    forall k | 0 <= k < |ls| :: ls[k].lectureDuration.Some?
  }

  /** The strict sum is a number exactly when every duration is present,
      and then it is the sum with missing durations counted as 0. */
  lemma {:induction false} StrictMinutesFacts(ls: seq<Lecture>)
    ensures StrictMinutes(ls).Some? <==> AllTimed(ls)
    ensures StrictMinutes(ls).Some? ==> StrictMinutes(ls).value == LectureMinutes(ls)
    decreases |ls|
  {
    if ls != [] {
      var init := ls[..|ls| - 1];
      StrictMinutesFacts(init);
      assert forall k | 0 <= k < |init| :: init[k] == ls[k];
    }
  }

  lemma {:induction false} StrictTotalFacts(chs: seq<Chapter>)
    ensures StrictTotal(chs).Some? <==> AllTimed(AllLectures(chs))
    ensures StrictTotal(chs).Some? ==> StrictTotal(chs).value == TotalMinutes(chs)
    decreases |chs|
  {
    if chs != [] {
      var init := chs[..|chs| - 1];
      var last := chs[|chs| - 1].chapterContent;
      StrictTotalFacts(init);
      StrictMinutesFacts(last);
      var all := AllLectures(chs);
      assert all == AllLectures(init) + last;
      assert forall k | 0 <= k < |AllLectures(init)| :: all[k] == AllLectures(init)[k];
      assert forall k | 0 <= k < |last| :: all[|AllLectures(init)| + k] == last[k];
      if AllTimed(AllLectures(init)) && AllTimed(last) {
        forall k | 0 <= k < |all| ensures all[k].lectureDuration.Some? {
          if k >= |AllLectures(init)| {
            assert all[k] == last[k - |AllLectures(init)|];
          }
        }
      }
    }
  }

  lemma StrictMinutesStep(ls: seq<Lecture>, j: nat)
    requires j < |ls|
    ensures StrictMinutes(ls[..j + 1]) == AddMinutes(StrictMinutes(ls[..j]), ls[j].lectureDuration)
  {
    assert ls[..j + 1][..j] == ls[..j];
  }

  lemma StrictTotalStep(chs: seq<Chapter>, i: nat)
    requires i < |chs|
    ensures StrictTotal(chs[..i + 1]) == AddMinutes(StrictTotal(chs[..i]), StrictMinutes(chs[i].chapterContent))
  {
    assert chs[..i + 1][..i] == chs[..i];
  }

  lemma AddMinutesAssoc(a: Option<int>, b: Option<int>, c: Option<int>)
    ensures AddMinutes(AddMinutes(a, b), c) == AddMinutes(a, AddMinutes(b, c))
  {
  }

  /** `calculateCourseTotals`: the two `forEach` loops. */
  method CalculateCourseTotals(content: Option<seq<Chapter>>) returns (totalLectures: nat, totalDuration: Option<int>)
    ensures content.None? ==> totalLectures == 0 && totalDuration == Some(0)
    ensures content.Some? ==> totalLectures == TotalLectures(content.value)
    ensures content.Some? ==> totalDuration == StrictTotal(content.value)
  {
    if content.None? {
      return 0, Some(0);
    }
    var chs := content.value;
    totalLectures, totalDuration := 0, Some(0);
    var i := 0;
    while i < |chs|
      invariant 0 <= i <= |chs|
      invariant totalLectures == TotalLectures(chs[..i])
      invariant totalDuration == StrictTotal(chs[..i])
    {
      var ls := chs[i].chapterContent;
      ChapterStep(chs, i);
      StrictTotalStep(chs, i);
      totalLectures := totalLectures + |ls|;
      var j := 0;
      while j < |ls|
        invariant 0 <= j <= |ls|
        invariant totalDuration == AddMinutes(StrictTotal(chs[..i]), StrictMinutes(ls[..j]))
      {
        StrictMinutesStep(ls, j);
        AddMinutesAssoc(StrictTotal(chs[..i]), StrictMinutes(ls[..j]), ls[j].lectureDuration);
        totalDuration := AddMinutes(totalDuration, ls[j].lectureDuration);
        j := j + 1;
      }
      assert ls[..j] == ls;
      i := i + 1;
    }
    assert chs[..i] == chs;
  }

  /** A lecture without a duration makes the shown total `NaN`. */
  lemma MissingDurationSpoilsTotal(chs: seq<Chapter>, k: nat)
    requires k < |AllLectures(chs)| && AllLectures(chs)[k].lectureDuration.None?
    ensures StrictTotal(chs).None?
  {
    StrictTotalFacts(chs);
  }

  /** With every duration present, the total agrees with the context's
      count, which counts a missing duration as 0. */
  lemma TimedTotalIsContextTotal(chs: seq<Chapter>)
    requires AllTimed(AllLectures(chs))
    ensures StrictTotal(chs) == Some(TotalMinutes(chs))
  {
    StrictTotalFacts(chs);
  }

  // ----- discountedPrice -----

  /** `discount ? price - price * discount / 100 : price` */
  function DiscountedPrice(price: real, discount: Option<real>): (r: real)
    ensures discount.None? || discount.value == 0.0 ==> r == price
    ensures discount.Some? && discount.value != 0.0 ==> r == price * (100.0 - discount.value) / 100.0
  {
    if discount.None? || discount.value == 0.0 then price
    else price - price * discount.value / 100.0
  }

  /** Unlike the validation utility, the page does not clamp: a discount
      above 100% gives a negative price where the utility gives 0, and a
      negative discount raises the price where the utility keeps it. */
  lemma DiscountNotClamped(price: real, discount: real)
    requires price > 0.0
    ensures discount > 100.0 ==>
      DiscountedPrice(price, Some(discount)) < 0.0
      && ClientValidation.CalculateDiscountedPrice(Some(price), Some(discount)) == 0.0
    ensures discount < 0.0 ==>
      DiscountedPrice(price, Some(discount)) > price
      && ClientValidation.CalculateDiscountedPrice(Some(price), Some(discount)) == price
    ensures 0.0 < discount <= 100.0 ==>
      DiscountedPrice(price, Some(discount)) == ClientValidation.CalculateDiscountedPrice(Some(price), Some(discount))
  {
    if discount > 100.0 {
      assert price * (100.0 - discount) < 0.0;
    }
    if discount < 0.0 {
      assert price * (100.0 - discount) > price * 100.0;
    }
  }

  // ----- shown content -----

  function SortLectures(c: Chapter): (r: Chapter)
    ensures r.chapterId == c.chapterId && r.chapterOrder == c.chapterOrder && r.chapterTitle == c.chapterTitle
    ensures multiset(r.chapterContent) == multiset(c.chapterContent)
  {
    c.(chapterContent := SortBy(c.chapterContent, LectureOrder))
  }

  /** `courseContent.sort(by chapterOrder)`, each chapter's lectures sorted
      by `lectureOrder`. */
  function ShownContent(chs: seq<Chapter>): (r: seq<Chapter>)
    ensures |r| == |chs|
  {
    var sorted := SortBy(chs, ChapterOrder);
    seq(|sorted|, k requires 0 <= k < |sorted| => SortLectures(sorted[k]))
  }

  /** The chapters are shown in ascending `chapterOrder`, each chapter's
      lectures in ascending `lectureOrder`, and nothing is added or lost. */
  lemma ShownContentOrdered(chs: seq<Chapter>)
    ensures SortedBy(ShownContent(chs), ChapterOrder)
    ensures forall k | 0 <= k < |chs| :: SortedBy(ShownContent(chs)[k].chapterContent, LectureOrder)
    ensures multiset(SortBy(chs, ChapterOrder)) == multiset(chs)
    ensures forall k | 0 <= k < |chs| ::
      ShownContent(chs)[k].chapterId == SortBy(chs, ChapterOrder)[k].chapterId
      && multiset(ShownContent(chs)[k].chapterContent) == multiset(SortBy(chs, ChapterOrder)[k].chapterContent)
  {
    var sorted := SortBy(chs, ChapterOrder);
    SortByIsSorted(chs, ChapterOrder);
    var shown := ShownContent(chs);
    forall k | 0 <= k < |chs| ensures SortedBy(shown[k].chapterContent, LectureOrder) {
      SortByIsSorted(sorted[k].chapterContent, LectureOrder);
    }
  }

  // ----- page state -----

  class DetailsPage {
    var courseData: Option<Course>
    var expandedSections: map<string, bool>
    var loading: bool

    constructor()
      ensures courseData.None? && expandedSections == map[] && loading
    {
      courseData := None;
      expandedSections := map[];
      loading := true;
    }

    /** The effect that finds the course: it runs only when the context's
        list is non-empty, and expands every section of a course with
        content. */
    method Load(allCourses: seq<Course>, id: string)
      modifies this
      ensures |allCourses| == 0 ==>
        courseData == old(courseData) && expandedSections == old(expandedSections) && loading == old(loading)
      ensures |allCourses| > 0 ==> courseData == FindCourse(allCourses, id) && !loading
      ensures |allCourses| > 0 && courseData.Some? && courseData.value.courseContent.Some? ==>
        expandedSections == ExpandAll(courseData.value.courseContent.value)
      ensures |allCourses| > 0 && (courseData.None? || courseData.value.courseContent.None?) ==>
        expandedSections == old(expandedSections)
    {
      if |allCourses| > 0 {
        loading := true;
        var found := FindCourse(allCourses, id);
        courseData := found;
        if found.Some? && found.value.courseContent.Some? {
          expandedSections := InitialExpandState(found.value.courseContent.value);
        }
        loading := false;
      }
    }

    /** `toggleSection` */
    method ToggleSection(sectionId: string)
      modifies this
      ensures expandedSections == Toggle(old(expandedSections), sectionId)
      ensures courseData == old(courseData) && loading == old(loading)
    {
      expandedSections := Toggle(expandedSections, sectionId);
    }
  }

  /** Right after loading, every section is open, and one toggle closes
      exactly that section. */
  lemma LoadedSectionsOpen(chs: seq<Chapter>, k: nat)
    requires k < |chs|
    ensures chs[k].chapterId in ExpandAll(chs) && ExpandAll(chs)[chs[k].chapterId]
    ensures !Toggle(ExpandAll(chs), chs[k].chapterId)[chs[k].chapterId]
  {
    assert chs[k].chapterId in ChapterIds(chs);
  }
}
