/** The "My Enrollments" page: the token check that decides whether the
    page shows or sends the visitor to the login page, the duration label
    of each enrolled course (summed in a loop, missing durations counted as
    0), and the completion percentage with its badge. Decoding the stored
    JWT is a parameter: `None` where `jwtDecode` throws, else the decoded
    `exp` claim, itself `None` when absent. */
module MyEnrollments {
  import opened Js
  import opened ClientCourse
  import AppContext

  // ----- checkAuth -----

  class EnrollmentsPage {
    var token: Option<string>
    var isAuthenticated: bool
    var isLoading: bool
    var location: string

    constructor(token0: Option<string>, location0: string)
      ensures token == token0 && !isAuthenticated && isLoading && location == location0
    {
      token := token0;
      isAuthenticated := false;
      isLoading := true;
      location := location0;
    }

    /** `checkAuth`: a token that decodes and has not expired (`exp`
        missing, 0, or not before `now` seconds) authenticates; an expired
        or undecodable token is removed. */
    method CheckAuth(decode: string -> Option<Option<real>>, now: real)
      modifies this
      ensures isAuthenticated <==> TokenAccepted(old(token), decode, now)
      ensures token == (if !Missing(old(token)) && !isAuthenticated then None else old(token))
      ensures !isLoading && location == old(location)
    {
      if !Missing(token) {
        var decoded := decode(token.value);
        if decoded.None? {
          token := None;
          isAuthenticated := false;
        } else if Expired(decoded.value, now) {
          token := None;
          isAuthenticated := false;
        } else {
          isAuthenticated := true;
        }
      } else {
        isAuthenticated := false;
      }
      isLoading := false;
    }

    /** The redirect effect. */
    method RedirectIfSignedOut()
      modifies this
      ensures location == (if !isAuthenticated && !isLoading then "/login" else old(location))
      ensures token == old(token) && isAuthenticated == old(isAuthenticated) && isLoading == old(isLoading)
    {
      if !isAuthenticated && !isLoading {
        location := "/login";
      }
    }
  }

  /** `decoded.exp && decoded.exp < currentTime` */
  predicate Expired(exp: Option<real>, now: real)
  {
    exp.Some? && exp.value != 0.0 && exp.value < now
  }

  /** The token is present, decodes, and has not expired. */
  predicate TokenAccepted(token: Option<string>, decode: string -> Option<Option<real>>, now: real)
  {
    !Missing(token) && decode(token.value).Some? && !Expired(decode(token.value).value, now)
  }

  /** Once checked, the page either shows (a token that is kept) or goes to
      the login page (and no token is left). */
  lemma CheckedPageShowsOrRedirects(token: Option<string>, decode: string -> Option<Option<real>>, now: real)
    ensures TokenAccepted(token, decode, now) ==> !Missing(token)
    ensures !TokenAccepted(token, decode, now) && !Missing(token) ==>
      decode(token.value).None? || Expired(decode(token.value).value, now)
  {
  }

  /** A token without an `exp` claim never expires here. */
  lemma NoExpiryAlwaysAccepted(token: string, decode: string -> Option<Option<real>>, now: real)
    requires token != "" && decode(token) == Some(None)
    ensures TokenAccepted(Some(token), decode, now)
  {
  }

  // ----- calculateCourseDuration -----

  /** The label for a total: whole hours and the remainder, the remainder
      left out (but its separating space kept) on a whole hour, and only
      the minutes below one hour. */
  function DurationLabel(totalMinutes: int): string
  {
    var hours := totalMinutes / 60;
    var minutes := Rem(totalMinutes, 60);
    if hours > 0 then IntToString(hours) + "h " + (if minutes > 0 then IntToString(minutes) + "m" else "")
    else IntToString(minutes) + "m"
  }

  /** The page's own `calculateCourseDuration`, with its two nested loops. */
  method CalculateCourseDuration(course: Option<Course>) returns (text: string)
    ensures course.None? || course.value.courseContent.None? ==> text == "N/A"
    ensures course.Some? && course.value.courseContent.Some? ==>
      text == DurationLabel(TotalMinutes(course.value.courseContent.value))
  {
    if course.None? || course.value.courseContent.None? {
      return "N/A";
    }
    var chs := course.value.courseContent.value;
    var totalMinutes := 0;
    var i := 0;
    while i < |chs|
      invariant 0 <= i <= |chs|
      invariant totalMinutes == TotalMinutes(chs[..i])
    {
      var ls := chs[i].chapterContent;
      ChapterStep(chs, i);
      var j := 0;
      while j < |ls|
        invariant 0 <= j <= |ls|
        invariant totalMinutes == TotalMinutes(chs[..i]) + LectureMinutes(ls[..j])
      {
        LectureMinutesStep(ls, j);
        totalMinutes := totalMinutes + MinutesOf(ls[j]);
        j := j + 1;
      }
      assert ls[..j] == ls;
      i := i + 1;
    }
    assert chs[..i] == chs;
    text := DurationLabel(totalMinutes);
  }

  /** The label of `h` hours and `m < 60` minutes, case by case. */
  lemma DurationLabelSplit(h: nat, m: nat)
    requires m < 60
    ensures h > 0 && m > 0 ==> DurationLabel(h * 60 + m) == NatToString(h) + "h " + NatToString(m) + "m"
    ensures h > 0 && m == 0 ==> DurationLabel(h * 60 + m) == NatToString(h) + "h "
    ensures h == 0 ==> DurationLabel(h * 60 + m) == NatToString(m) + "m"
  {
    SplitMinutes(h, m);
    DurationLabelOf(h * 60 + m, h, m);
  }

  lemma DurationLabelOf(t: int, h: nat, m: nat)
    requires t >= 0 && t / 60 == h && t % 60 == m
    ensures DurationLabel(t) ==
      if h > 0 then NatToString(h) + "h " + (if m > 0 then NatToString(m) + "m" else "")
      else NatToString(m) + "m"
  {
  }

  /** This page and the context label the same course differently except
      when the total has both hours and minutes: a whole hour ends "h "
      here and "h 0m" there, and below an hour there is no "0h " here. */
  lemma DurationLabelVsContext(course: Course, h: nat, m: nat)
    requires course.courseContent.Some? && m < 60
    requires TotalMinutes(course.courseContent.value) == h * 60 + m
    ensures h > 0 && m > 0 ==>
      DurationLabel(TotalMinutes(course.courseContent.value)) == AppContext.CalculateCourseDuration(Some(course))
    ensures h > 0 && m == 0 ==>
      DurationLabel(TotalMinutes(course.courseContent.value)) + "0m" == AppContext.CalculateCourseDuration(Some(course))
    ensures h == 0 ==>
      "0h " + DurationLabel(TotalMinutes(course.courseContent.value)) == AppContext.CalculateCourseDuration(Some(course))
  {
    var t := TotalMinutes(course.courseContent.value);
    assert t / 60 == h && t % 60 == m;
    DurationLabelOf(t, h, m);
    AppContext.CourseDurationShowsSplit(course, h, m);
    assert NatToString(0) == "0";
    LabelsCompare(DurationLabel(t),
                  AppContext.CalculateCourseDuration(Some(course)), NatToString(h), NatToString(m), h, m);
  }

  /** The comparison above on the texts alone. */
  lemma LabelsCompare(shown: string, context: string, hs: string, ms: string, h: nat, m: nat)
    requires context == hs + "h " + ms + "m"
    requires h > 0 && m > 0 ==> shown == hs + "h " + ms + "m"
    requires h > 0 && m == 0 ==> shown == hs + "h " && ms == "0"
    requires h == 0 ==> shown == ms + "m" && hs == "0"
    ensures h > 0 && m > 0 ==> shown == context
    ensures h > 0 && m == 0 ==> shown + "0m" == context
    ensures h == 0 ==> "0h " + shown == context
  {
    if h > 0 && m == 0 {
      ConcatAssoc(hs + "h ", "0", "m");
    }
    if h == 0 {
      ConcatAssoc("0h ", ms, "m");
    }
  }

  // ----- calculateProgress -----

  /** `!progress || !totalLectures ? 0 : progress / totalLectures * 100` */
  function CalculateProgress(progress: Option<real>, totalLectures: Option<real>): (r: real)
    ensures progress.None? || progress.value == 0.0 || totalLectures.None? || totalLectures.value == 0.0 ==> r == 0.0
    ensures progress.Some? && progress.value != 0.0 && totalLectures.Some? && totalLectures.value != 0.0 ==>
      r * totalLectures.value == progress.value * 100.0
  {
    if progress.None? || progress.value == 0.0 || totalLectures.None? || totalLectures.value == 0.0 then 0.0
    else progress.value / totalLectures.value * 100.0
  }

  /** The badge over the thumbnail. */
  function Badge(progress: Option<real>, totalLectures: Option<real>): string
  {
    if CalculateProgress(progress, totalLectures) == 100.0 then "Completed" else "In Progress"
  }

  /** A course is marked completed exactly when its recorded lectures equal
      its lecture count (both non-zero). */
  lemma CompletedIffAllRecorded(progress: real, totalLectures: real)
    requires progress != 0.0 && totalLectures != 0.0
    ensures Badge(Some(progress), Some(totalLectures)) == "Completed" <==> progress == totalLectures
  {
    var r := CalculateProgress(Some(progress), Some(totalLectures));
    assert r * totalLectures == progress * 100.0;
    if r == 100.0 {
      assert 100.0 * totalLectures == 100.0 * progress;
    }
  }

  /** A course with nothing recorded shows "In Progress" and 0%. */
  lemma NothingRecordedInProgress(totalLectures: Option<real>)
    ensures CalculateProgress(None, totalLectures) == 0.0 && Badge(None, totalLectures) == "In Progress"
    ensures CalculateProgress(Some(0.0), totalLectures) == 0.0
  {
  }

  /** For counts where the progress never exceeds the lecture count (as the
      context guarantees for distinct lectures of the course), the
      percentage stays within 0..100. */
  lemma ProgressWithinHundred(progress: nat, totalLectures: nat)
    requires progress <= totalLectures
    ensures 0.0 <= CalculateProgress(Some(progress as real), Some(totalLectures as real)) <= 100.0
  {
    if progress != 0 && totalLectures != 0 {
      var r := CalculateProgress(Some(progress as real), Some(totalLectures as real));
      assert r * (totalLectures as real) == (progress as real) * 100.0;
      assert (progress as real) * 100.0 <= (totalLectures as real) * 100.0;
    }
  }
}
