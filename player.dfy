/** The course player page: the course looked up by id, every section
    expanded, the first lecture selected when its URL yields a video id,
    `handleWatch` selecting a lecture, and the per-chapter minutes. */
module Player {
  import opened Js
  import opened ClientCourse
  import YouTube
  import CourseDetails

  /** `playerData`: the video id (which may be `null`), the 1-based chapter
      and lecture numbers, and the lecture's title and URL. */
  datatype PlayerData = PlayerData(videoId: Option<string>, chapter: int, lecture: int,
                                   lectureTitle: string, lectureUrl: Option<string>)

  /** `currentLecture`, 0-based. */
  datatype Position = Position(chapterIndex: int, lectureIndex: int)

  /** The player data for lecture `l` of chapter `c`. */
  function DataFor(chs: seq<Chapter>, c: nat, l: nat): (d: PlayerData)
    requires c < |chs| && l < |chs[c].chapterContent|
    ensures d.chapter == c + 1 && d.lecture == l + 1
    ensures d.lectureTitle == chs[c].chapterContent[l].lectureTitle && d.lectureUrl == chs[c].chapterContent[l].lectureUrl
    ensures d.videoId == YouTube.ExtractIdPlayer(chs[c].chapterContent[l].lectureUrl)
  {
    var lecture := chs[c].chapterContent[l];
    PlayerData(YouTube.ExtractIdPlayer(lecture.lectureUrl), c + 1, l + 1, lecture.lectureTitle, lecture.lectureUrl)
  }

  /** The load effect's choice of a first lecture: the first lecture of the
      first chapter, and only when its URL yields a video id. */
  function FirstSelection(course: Course): (d: Option<PlayerData>)
    ensures d.Some? <==>
      course.courseContent.Some? && |course.courseContent.value| > 0
      && |course.courseContent.value[0].chapterContent| > 0
      && YouTube.ExtractIdPlayer(course.courseContent.value[0].chapterContent[0].lectureUrl).Some?
    ensures d.Some? ==> d.value == DataFor(course.courseContent.value, 0, 0) && d.value.videoId.Some?
  {
    if course.courseContent.None? || |course.courseContent.value| == 0 then None
    else
      var first := course.courseContent.value[0];
      if |first.chapterContent| == 0 || Missing(first.chapterContent[0].lectureUrl) then None
      else
        var d := DataFor(course.courseContent.value, 0, 0);
        if d.videoId.Some? then Some(d) else None
  }

  /** A selected first lecture always plays an id of 11 UTF-16 code units. */
  lemma FirstSelectionHasValidId(course: Course)
    requires FirstSelection(course).Some?
    ensures Utf16Length(FirstSelection(course).value.videoId.value) == 11
    ensures FirstSelection(course).value.chapter == 1 && FirstSelection(course).value.lecture == 1
  {
  }

  /** The heading shown over the player: "<chapter>.<lecture> <title>". */
  function Heading(d: PlayerData): string
  {
    IntToString(d.chapter) + "." + IntToString(d.lecture) + " " + d.lectureTitle
  }

  /** The per-chapter minutes of the sidebar: missing durations count as 0,
      so they are what the context's total gives for this chapter alone, and
      the details page's sum when every lecture has a duration. */
  function ChapterMinutes(ch: Chapter): (m: int)
    ensures m == TotalMinutes([ch])
    ensures CourseDetails.AllTimed(ch.chapterContent) ==> CourseDetails.StrictMinutes(ch.chapterContent) == Some(m)
  {
    assert [ch][..0] == [];
    CourseDetails.StrictMinutesFacts(ch.chapterContent);
    LectureMinutes(ch.chapterContent)
  }

  /** The sidebar and the details page agree on a chapter whose lectures all
      have durations; where one is missing the sidebar still shows a number
      while the details page shows `NaN`. */
  lemma ChapterMinutesVsDetails(ch: Chapter)
    ensures CourseDetails.AllTimed(ch.chapterContent) ==>
      CourseDetails.StrictMinutes(ch.chapterContent) == Some(ChapterMinutes(ch))
    ensures !CourseDetails.AllTimed(ch.chapterContent) ==> CourseDetails.StrictMinutes(ch.chapterContent).None?
  {
    CourseDetails.StrictMinutesFacts(ch.chapterContent);
  }

  class PlayerPage {
    var courseData: Option<Course>
    var playerData: Option<PlayerData>
    var currentLecture: Position
    var expandedSections: map<string, bool>
    var loading: bool

    constructor()
      ensures courseData.None? && playerData.None? && currentLecture == Position(0, 0)
      ensures expandedSections == map[] && loading
    {
      courseData := None;
      playerData := None;
      currentLecture := Position(0, 0);
      expandedSections := map[];
      loading := true;
    }

    /** The load effect, run when the route carries a course id. */
    method Load(allCourses: seq<Course>, courseId: string)
      modifies this
      ensures courseId == "" ==>
        courseData == old(courseData) && playerData == old(playerData) && currentLecture == old(currentLecture)
        && expandedSections == old(expandedSections) && loading == old(loading)
      ensures courseId != "" ==> !loading
      ensures courseId != "" && FindCourse(allCourses, courseId).None? ==>
        courseData == old(courseData) && playerData == old(playerData) && currentLecture == old(currentLecture)
        && expandedSections == old(expandedSections)
      ensures courseId != "" && FindCourse(allCourses, courseId).Some? ==>
        var course := FindCourse(allCourses, courseId).value;
        courseData == Some(course)
        && expandedSections == (if course.courseContent.Some? then ExpandAll(course.courseContent.value)
                                else old(expandedSections))
        && (FirstSelection(course).Some? ==> playerData == FirstSelection(course) && currentLecture == Position(0, 0))
        && (FirstSelection(course).None? ==> playerData == old(playerData) && currentLecture == old(currentLecture))
    {
      if courseId != "" {
        var found := FindCourse(allCourses, courseId);
        if found.Some? {
          var course := found.value;
          courseData := found;
          if course.courseContent.Some? {
            expandedSections := InitialExpandState(course.courseContent.value);
          }
          var first := FirstSelection(course);
          if first.Some? {
            playerData := first;
            currentLecture := Position(0, 0);
          }
        }
        loading := false;
      }
    }

    /** `handleWatch(chapterIdx, lectureIdx)` for a lecture listed in the
        sidebar. */
    method HandleWatch(chapterIdx: nat, lectureIdx: nat)
      requires courseData.Some? && courseData.value.courseContent.Some?
      requires chapterIdx < |courseData.value.courseContent.value|
      requires lectureIdx < |courseData.value.courseContent.value[chapterIdx].chapterContent|
      modifies this
      ensures courseData == old(courseData) && expandedSections == old(expandedSections) && loading == old(loading)
      ensures playerData == Some(DataFor(courseData.value.courseContent.value, chapterIdx, lectureIdx))
      ensures currentLecture == Position(chapterIdx, lectureIdx)
    {
      playerData := Some(DataFor(courseData.value.courseContent.value, chapterIdx, lectureIdx));
      currentLecture := Position(chapterIdx, lectureIdx);
    }

    /** `toggleSection` */
    method ToggleSection(sectionId: string)
      modifies this
      ensures expandedSections == Toggle(old(expandedSections), sectionId)
      ensures courseData == old(courseData) && playerData == old(playerData)
      ensures currentLecture == old(currentLecture) && loading == old(loading)
    {
      expandedSections := Toggle(expandedSections, sectionId);
    }
  }

  /** After `handleWatch(c, l)` the heading numbers the lecture `c + 1`.`l + 1`,
      and the position recorded is `(c, l)` again. */
  lemma WatchHeading(chs: seq<Chapter>, c: nat, l: nat)
    requires c < |chs| && l < |chs[c].chapterContent|
    ensures Heading(DataFor(chs, c, l)) == NatToString(c + 1) + "." + NatToString(l + 1) + " " + chs[c].chapterContent[l].lectureTitle
    ensures Position(DataFor(chs, c, l).chapter - 1, DataFor(chs, c, l).lecture - 1) == Position(c, l)
  {
  }
}
