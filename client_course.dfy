/** The course documents as the client pages receive them, and the helpers
    several pages repeat: lecture and minute totals, the mean rating, the
    duration label of the course pages, the expanded-section map and the
    sort by an order field. Durations are whole minutes, `None` when the
    field is absent. */
module ClientCourse {
  import opened Js
  import ClientValidation

  datatype Lecture = Lecture(lectureId: string, lectureTitle: string, lectureDuration: Option<int>,
                             lectureUrl: Option<string>, lectureOrder: int, isPreviewFree: bool)

  datatype Chapter = Chapter(chapterId: string, chapterOrder: int, chapterTitle: string,
                             chapterContent: seq<Lecture>)

  datatype CourseRating = CourseRating(userId: string, rating: real)

  datatype Educator = Educator(name: Option<string>)

  datatype Course = Course(id: string, courseTitle: string, coursePrice: Option<real>, discount: Option<real>,
                           courseThumbnail: string, courseContent: Option<seq<Chapter>>,
                           courseRatings: Option<seq<CourseRating>>, educator: Option<Educator>)

  // ----- totals -----

  /** `lecture.lectureDuration || 0` */
  function MinutesOf(l: Lecture): int
  {
    if l.lectureDuration.None? then 0 else l.lectureDuration.value
  }

  /** The minutes of a run of lectures, missing durations counted as 0. */
  function LectureMinutes(ls: seq<Lecture>): int
  {
    if ls == [] then 0 else LectureMinutes(ls[..|ls| - 1]) + MinutesOf(ls[|ls| - 1])
  }

  /** The minutes of every chapter. */
  function TotalMinutes(chs: seq<Chapter>): int
  {
    if chs == [] then 0 else TotalMinutes(chs[..|chs| - 1]) + LectureMinutes(chs[|chs| - 1].chapterContent)
  }

  /** The number of lectures of every chapter. */
  function TotalLectures(chs: seq<Chapter>): nat
  {
    if chs == [] then 0 else TotalLectures(chs[..|chs| - 1]) + |chs[|chs| - 1].chapterContent|
  }

  /** Every lecture, chapter by chapter. */
  function AllLectures(chs: seq<Chapter>): seq<Lecture>
  {
    if chs == [] then [] else AllLectures(chs[..|chs| - 1]) + chs[|chs| - 1].chapterContent
  }

  lemma {:induction false} LectureMinutesAppend(a: seq<Lecture>, b: seq<Lecture>)
    ensures LectureMinutes(a + b) == LectureMinutes(a) + LectureMinutes(b)
    decreases |b|
  {
    if b == [] {
      assert a + b == a;
    } else {
      var b' := b[..|b| - 1];
      assert (a + b)[..|a + b| - 1] == a + b';
      LectureMinutesAppend(a, b');
    }
  }

  /** Counting chapter by chapter counts each lecture once: the totals are
      the length and the minutes of the flattened list. */
  lemma {:induction false} TotalsAreOverAllLectures(chs: seq<Chapter>)
    ensures TotalLectures(chs) == |AllLectures(chs)|
    ensures TotalMinutes(chs) == LectureMinutes(AllLectures(chs))
    decreases |chs|
  {
    if chs != [] {
      TotalsAreOverAllLectures(chs[..|chs| - 1]);
      LectureMinutesAppend(AllLectures(chs[..|chs| - 1]), chs[|chs| - 1].chapterContent);
    }
  }

  /** A lecture adds its minutes to its chapter: one step of the loops that
      accumulate the totals. */
  lemma LectureMinutesStep(ls: seq<Lecture>, j: nat)
    requires j < |ls|
    ensures LectureMinutes(ls[..j + 1]) == LectureMinutes(ls[..j]) + MinutesOf(ls[j])
  {
    assert ls[..j + 1][..j] == ls[..j];
  }

  /** A chapter adds its lectures and minutes to the totals. */
  lemma ChapterStep(chs: seq<Chapter>, i: nat)
    requires i < |chs|
    ensures TotalLectures(chs[..i + 1]) == TotalLectures(chs[..i]) + |chs[i].chapterContent|
    ensures TotalMinutes(chs[..i + 1]) == TotalMinutes(chs[..i]) + LectureMinutes(chs[i].chapterContent)
  {
    assert chs[..i + 1][..i] == chs[..i];
  }

  // ----- mean rating -----

  /** The `rating` fields, in order. */
  function RatingValues(rs: seq<CourseRating>): (vs: seq<real>)
    ensures |vs| == |rs| && forall k | 0 <= k < |rs| :: vs[k] == rs[k].rating
  {
    seq(|rs|, k requires 0 <= k < |rs| => rs[k].rating)
  }

  /** `!courseRatings || courseRatings.length === 0 ? 0 : sum / length` */
  function MeanRating(ratings: Option<seq<CourseRating>>): (r: real)
    ensures ratings.None? || |ratings.value| == 0 ==> r == 0.0
    ensures ratings.Some? && |ratings.value| > 0 ==>
      r * |ratings.value| as real == ClientValidation.Sum(RatingValues(ratings.value))
  {
    if ratings.None? || |ratings.value| == 0 then 0.0
    else ClientValidation.Sum(RatingValues(ratings.value)) / |ratings.value| as real
  }

  /** Ratings in `[lo, hi]` have their mean in `[lo, hi]`. */
  lemma MeanRatingWithinBounds(rs: seq<CourseRating>, lo: real, hi: real)
    requires |rs| > 0 && forall k | 0 <= k < |rs| :: lo <= rs[k].rating <= hi
    ensures lo <= MeanRating(Some(rs)) <= hi
  {
    ClientValidation.MeanBounds(RatingValues(rs), lo, hi);
  }

  /** The ratings as the validation utility's array items. */
  function AsItems(rs: seq<CourseRating>): (items: seq<ClientValidation.RatingItem>)
    ensures |items| == |rs| && forall k | 0 <= k < |rs| :: items[k] == ClientValidation.Record(Some(rs[k].rating))
  {
    seq(|rs|, k requires 0 <= k < |rs| => ClientValidation.Record(Some(rs[k].rating)))
  }

  lemma {:induction false} ItemValues(rs: seq<CourseRating>)
    ensures ClientValidation.Values(AsItems(rs)) == RatingValues(rs)
    decreases |rs|
  {
    if rs != [] {
      var init := rs[..|rs| - 1];
      ItemValues(init);
      assert AsItems(rs)[..|rs| - 1] == AsItems(init);
      assert RatingValues(rs) == RatingValues(init) + [rs[|rs| - 1].rating];
    }
  }

  /** The pages' mean and the validation utility's average agree when every
      rating is present. */
  lemma MeanRatingIsUtilityAverage(rs: seq<CourseRating>)
    ensures MeanRating(Some(rs)) == ClientValidation.Average(Some(AsItems(rs)))
  {
    ItemValues(rs);
  }

  // ----- the course pages' duration label -----

  /** `formatDuration` of the course details and player pages: "<m> min"
      below an hour, else whole hours and the remaining minutes, the latter
      left out when 0. */
  function FormatMinutes(minutes: int): (r: string)
  {
    if minutes < 60 then IntToString(minutes) + " min"
    else
      var hrs := minutes / 60;
      var mins := minutes % 60;
      if mins > 0 then NatToString(hrs) + "h " + NatToString(mins) + "m" else NatToString(hrs) + "h"
  }

  /** From an hour on, the label shows the whole hours and, when not 0, the
      minutes left over. */
  lemma FormatMinutesSplit(h: nat, m: nat)
    requires h >= 1 && m < 60
    ensures FormatMinutes(h * 60 + m) == NatToString(h) + "h" + (if m > 0 then " " + NatToString(m) + "m" else "")
  {
    SplitMinutes(h, m);
  }

  lemma SplitMinutes(h: nat, m: nat)
    requires m < 60
    ensures (h * 60 + m) / 60 == h && (h * 60 + m) % 60 == m
  {
  }

  /** Below an hour, the minutes and " min". */
  lemma FormatMinutesBelowHour(m: int)
    requires m < 60
    ensures FormatMinutes(m) == IntToString(m) + " min"
  {
  }

  /** Against the validation utility's formatter on whole minutes: the same
      label when the hour is not whole, "<h>h" against "<h>h 0m" on a whole
      hour, and " min" against "m" below an hour. */
  lemma FormatMinutesVsUtility(n: nat)
    ensures n >= 60 && n % 60 > 0 ==> FormatMinutes(n) == ClientValidation.FormatDuration(Some(n as real))
    ensures n >= 60 && n % 60 == 0 ==>
      FormatMinutes(n) + " 0m" == ClientValidation.FormatDuration(Some(n as real))
    ensures 0 < n < 60 ==>
      FormatMinutes(n) == NatToString(n) + " min" && ClientValidation.FormatDuration(Some(n as real)) == NatToString(n) + "m"
  {
    if n >= 60 {
      var hs, ms := NatToString(n / 60), NatToString(n % 60);
      ClientValidation.FormatWholeMinutes(n);
      if n % 60 == 0 {
        assert FormatMinutes(n) == hs + "h" && ms == "0";
        WholeHourTexts(hs);
      }
    } else if n > 0 {
      ClientValidation.FormatDurationCases(Some(n as real));
      assert Round(n as real) == n;
    }
  }

  lemma WholeHourTexts(hs: string)
    ensures (hs + "h") + " 0m" == hs + "h " + "0" + "m"
  {
  }

  /** `allCourses.find(course => String(course._id) === String(id))` */
  function FindCourse(courses: seq<Course>, id: string): (r: Option<Course>)
    ensures r.Some? <==> exists k | 0 <= k < |courses| :: courses[k].id == id
    ensures r.Some? ==> exists k | 0 <= k < |courses| :: courses[k] == r.value && r.value.id == id
                          && forall j | 0 <= j < k :: courses[j].id != id
  {
    if courses == [] then None
    else if courses[0].id == id then Some(courses[0])
    else
      var r := FindCourse(courses[1..], id);
      assert forall k | 0 <= k < |courses| - 1 :: courses[1..][k] == courses[k + 1];
      r
  }

  // ----- expanded sections -----

  /** The chapter ids, in order. */
  function ChapterIds(chs: seq<Chapter>): set<string>
  {
    set k | 0 <= k < |chs| :: chs[k].chapterId
  }

  /** `initialExpandState`: every chapter id mapped to `true`. */
  function ExpandAll(chs: seq<Chapter>): (m: map<string, bool>)
    ensures m.Keys == ChapterIds(chs)
    ensures forall id | id in m :: m[id]
  {
    map id | id in ChapterIds(chs) :: true
  }

  /** The `forEach` that fills `initialExpandState`. */
  method InitialExpandState(chs: seq<Chapter>) returns (m: map<string, bool>)
    ensures m == ExpandAll(chs)
  {
    m := map[];
    var i := 0;
    while i < |chs|
      invariant 0 <= i <= |chs|
      invariant m == ExpandAll(chs[..i])
    {
      assert ChapterIds(chs[..i + 1]) == ChapterIds(chs[..i]) + {chs[i].chapterId} by {
        forall id | id in ChapterIds(chs[..i + 1]) ensures id in ChapterIds(chs[..i]) + {chs[i].chapterId} {
          var k :| 0 <= k < i + 1 && chs[..i + 1][k].chapterId == id;
          if k < i {
            assert chs[..i][k] == chs[..i + 1][k];
          }
        }
        forall id | id in ChapterIds(chs[..i]) ensures id in ChapterIds(chs[..i + 1]) {
          var k :| 0 <= k < i && chs[..i][k].chapterId == id;
          assert chs[..i + 1][k] == chs[..i][k];
        }
        assert chs[..i + 1][i] == chs[i];
      }
      m := m[chs[i].chapterId := true];
      i := i + 1;
    }
    assert chs[..i] == chs;
  }

  /** `toggleSection`: `{ ...prev, [id]: !prev[id] }`; an absent key reads as
      falsy, so it becomes `true`. */
  function Toggle(m: map<string, bool>, id: string): (r: map<string, bool>)
    ensures id in r && r[id] == !(id in m && m[id])
    ensures forall k | k != id :: (k in r <==> k in m) && (k in m ==> r[k] == m[k])
  {
    m[id := !(id in m && m[id])]
  }

  /** Toggling a present section twice restores the map. */
  lemma ToggleTwice(m: map<string, bool>, id: string)
    requires id in m
    ensures Toggle(Toggle(m, id), id) == m
  {
    var r := Toggle(Toggle(m, id), id);
    assert r.Keys == m.Keys;
  }

  // ----- sorting by an order field -----

  predicate SortedBy<T>(s: seq<T>, key: T -> int)
  {
    forall i, j | 0 <= i < j < |s| :: key(s[i]) <= key(s[j])
  }

  /** `x` placed before the first element with a larger key. */
  function InsertBy<T>(x: T, s: seq<T>, key: T -> int): (r: seq<T>)
    ensures |r| == |s| + 1 && multiset(r) == multiset(s) + multiset{x}
  {
    if s == [] then [x]
    else if key(x) <= key(s[0]) then [x] + s
    else
      assert s == [s[0]] + s[1..];
      [s[0]] + InsertBy(x, s[1..], key)
  }

  lemma PrependSorted<T>(y: T, t: seq<T>, key: T -> int)
    requires SortedBy(t, key) && forall j | 0 <= j < |t| :: key(y) <= key(t[j])
    ensures SortedBy([y] + t, key)
  {
    var r := [y] + t;
    forall i, j | 0 <= i < j < |r| ensures key(r[i]) <= key(r[j]) {
      assert r[j] == t[j - 1];
      if i > 0 {
        assert r[i] == t[i - 1];
      }
    }
  }

  /** Every element of `t` is `x` or one of `s`, so all lie above a bound of both. */
  lemma BoundOfInsert<T>(y: T, x: T, s: seq<T>, key: T -> int)
    requires key(y) <= key(x) && forall j | 0 <= j < |s| :: key(y) <= key(s[j])
    ensures forall j | 0 <= j < |InsertBy(x, s, key)| :: key(y) <= key(InsertBy(x, s, key)[j])
  {
    var t := InsertBy(x, s, key);
    forall j | 0 <= j < |t| ensures key(y) <= key(t[j]) {
      var z := t[j];
      assert z in multiset(t);
      if z != x {
        assert z in multiset(s);
        var k :| 0 <= k < |s| && s[k] == z;
      }
    }
  }

  lemma {:induction false} InsertByKeepsOrder<T>(x: T, s: seq<T>, key: T -> int)
    requires SortedBy(s, key)
    ensures SortedBy(InsertBy(x, s, key), key)
    decreases |s|
  {
    if s == [] || key(x) <= key(s[0]) {
      PrependSorted(x, s, key);
    } else {
      var tail := s[1..];
      assert forall k | 0 <= k < |tail| :: tail[k] == s[k + 1];
      InsertByKeepsOrder(x, tail, key);
      BoundOfInsert(s[0], x, tail, key);
      PrependSorted(s[0], InsertBy(x, tail, key), key);
    }
  }

  /** `array.sort((a, b) => key(a) - key(b))`: ascending by key, the same
      elements. */
  function SortBy<T>(s: seq<T>, key: T -> int): (r: seq<T>)
    ensures |r| == |s| && multiset(r) == multiset(s)
  {
    if s == [] then []
    else
      assert s == [s[0]] + s[1..];
      InsertBy(s[0], SortBy(s[1..], key), key)
  }

  lemma {:induction false} SortByIsSorted<T>(s: seq<T>, key: T -> int)
    ensures SortedBy(SortBy(s, key), key)
    decreases |s|
  {
    if s != [] {
      SortByIsSorted(s[1..], key);
      InsertByKeepsOrder(s[0], SortBy(s[1..], key), key);
    }
  }

  function ChapterOrder(c: Chapter): int { c.chapterOrder }

  function LectureOrder(l: Lecture): int { l.lectureOrder }
}
