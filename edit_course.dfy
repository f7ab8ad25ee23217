/** The educator's course editor: a lecture draft added to a chapter
    draft, a chapter draft added to the course content, lectures and
    chapters removed by index, and the checks `handleSubmit` makes before
    it sends the course. Form inputs are strings; `Number` is a parameter
    that gives `None` for `NaN`. */
module EditCourse {
  import opened Js

  /** The lecture draft (`currentLecture`). */
  datatype LectureDraft = LectureDraft(title: string, description: string, videoUrl: string,
                                       duration: string, isPreviewFree: bool)

  /** A lecture as stored in a chapter of the form. */
  datatype FormLecture = FormLecture(title: string, description: string, videoUrl: string,
                                     duration: Option<real>, isPreviewFree: bool, order: int)

  /** The chapter draft (`currentChapter`). */
  datatype ChapterDraft = ChapterDraft(title: string, description: string, lectures: seq<FormLecture>)

  /** A chapter as stored in the form's course content. */
  datatype FormChapter = FormChapter(title: string, description: string, lectures: seq<FormLecture>, order: int)

  const EmptyLecture := LectureDraft("", "", "", "", false)
  const EmptyChapter := ChapterDraft("", "", [])

  const LectureIncomplete := "Please fill in lecture title and video URL"
  const ChapterIncomplete := "Please add a title and at least one lecture to the chapter"
  const FieldsMissing := "Please fill in all required fields"
  const NoChapters := "Please add at least one chapter with lectures"
  const NoUser := "User information not found. Please log in again."

  // ----- the position numbering -----

  /** Every lecture's `order` is its index in its chapter. */
  predicate LectureOrdersArePositions(ls: seq<FormLecture>)
  {
    forall j | 0 <= j < |ls| :: ls[j].order == j
  }

  /** Every chapter's `order` is its index, and so is every lecture's. */
  predicate OrdersArePositions(chs: seq<FormChapter>)
  {
    forall k | 0 <= k < |chs| :: chs[k].order == k && LectureOrdersArePositions(chs[k].lectures)
  }

  /** `addLecture`'s new list: the draft appended, numbered by the old
      length. */
  function WithLecture(ls: seq<FormLecture>, d: LectureDraft, toNumber: string -> Option<real>): (r: seq<FormLecture>)
    ensures LectureOrdersArePositions(ls) ==> LectureOrdersArePositions(r)
    ensures |r| == |ls| + 1 && r[..|ls|] == ls
    ensures r[|ls|].title == d.title && r[|ls|].videoUrl == d.videoUrl && r[|ls|].duration == toNumber(d.duration)
  {
    ls + [FormLecture(d.title, d.description, d.videoUrl, toNumber(d.duration), d.isPreviewFree, |ls|)]
  }

  /** `addChapter`'s new content: the draft appended, numbered by the old
      length. */
  function WithChapter(chs: seq<FormChapter>, d: ChapterDraft): (r: seq<FormChapter>)
    ensures OrdersArePositions(chs) && LectureOrdersArePositions(d.lectures) ==> OrdersArePositions(r)
    ensures |r| == |chs| + 1 && r[..|chs|] == chs
    ensures r[|chs|].title == d.title && r[|chs|].lectures == d.lectures
  {
    chs + [FormChapter(d.title, d.description, d.lectures, |chs|)]
  }

  /** `removeChapter` as written: the chapter spliced out, the others keeping
      their old `order`. */
  function RemoveChapterAsWritten(chs: seq<FormChapter>, index: int): seq<FormChapter>
  {
    SpliceOne(chs, index)
  }

  /** After removing the first of two chapters and adding another, two
      chapters carry `order` 1. */
  lemma RemoveThenAddRepeatsOrder(a: FormChapter, b: FormChapter, d: ChapterDraft)
    requires a.order == 0 && b.order == 1
    ensures var r := WithChapter(RemoveChapterAsWritten([a, b], 0), d);
      |r| == 2 && r[0].order == 1 && r[1].order == 1
  {
    assert SpliceOne([a, b], 0) == [b];
  }

  function RenumberLectures(ls: seq<FormLecture>): (r: seq<FormLecture>)
    ensures |r| == |ls| && LectureOrdersArePositions(r)
    ensures forall j | 0 <= j < |ls| :: r[j] == ls[j].(order := j)
  {
    seq(|ls|, j requires 0 <= j < |ls| => ls[j].(order := j))
  }

  function RenumberChapters(chs: seq<FormChapter>): (r: seq<FormChapter>)
    ensures |r| == |chs|
    ensures forall k | 0 <= k < |chs| :: r[k] == chs[k].(order := k)
  {
    seq(|chs|, k requires 0 <= k < |chs| => chs[k].(order := k))
  }

  /** `removeChapter` with the remaining chapters renumbered. */
  function RemoveChapter(chs: seq<FormChapter>, index: int): seq<FormChapter>
  {
    RenumberChapters(SpliceOne(chs, index))
  }

  /** The corrected removal keeps the numbering, and differs from the
      written one only in the `order` fields. */
  lemma RemoveChapterKeepsPositions(chs: seq<FormChapter>, index: int)
    requires OrdersArePositions(chs)
    ensures OrdersArePositions(RemoveChapter(chs, index))
    ensures |RemoveChapter(chs, index)| == |RemoveChapterAsWritten(chs, index)|
    ensures forall k | 0 <= k < |RemoveChapter(chs, index)| ::
      RemoveChapter(chs, index)[k] == RemoveChapterAsWritten(chs, index)[k].(order := k)
  {
    var s := SpliceOne(chs, index);
    forall k | 0 <= k < |s| ensures LectureOrdersArePositions(s[k].lectures) {
      var i := SpliceStart(|chs|, index);
      if i < |chs| && k >= i {
        assert s[k] == chs[k + 1];
      } else {
        assert s[k] == chs[k];
      }
    }
  }

  /** `removeLecture` as written: the lecture spliced out of its chapter,
      the others keeping their old `order`. */
  function RemoveLectureAsWritten(chs: seq<FormChapter>, c: nat, index: int): seq<FormChapter>
    requires c < |chs|
  {
    chs[c := chs[c].(lectures := SpliceOne(chs[c].lectures, index))]
  }

  /** `removeLecture` with the chapter's remaining lectures renumbered. */
  function RemoveLecture(chs: seq<FormChapter>, c: nat, index: int): seq<FormChapter>
    requires c < |chs|
  {
    chs[c := chs[c].(lectures := RenumberLectures(SpliceOne(chs[c].lectures, index)))]
  }

  /** After removing the first of two lectures, the one left carries
      `order` 1 in a chapter of one lecture. */
  lemma RemoveLectureAsWrittenStale(ch: FormChapter, x: FormLecture, y: FormLecture)
    requires ch.lectures == [x, y] && x.order == 0 && y.order == 1
    ensures RemoveLectureAsWritten([ch], 0, 0)[0].lectures == [y]
    ensures !OrdersArePositions(RemoveLectureAsWritten([ch], 0, 0))
  {
    assert SpliceOne([x, y], 0) == [y];
    var r := RemoveLectureAsWritten([ch], 0, 0);
    assert r[0].lectures[0].order != 0;
    assert !LectureOrdersArePositions(r[0].lectures);
  }

  lemma RemoveLectureKeepsPositions(chs: seq<FormChapter>, c: nat, index: int)
    requires c < |chs| && OrdersArePositions(chs)
    ensures OrdersArePositions(RemoveLecture(chs, c, index))
    ensures |RemoveLecture(chs, c, index)| == |chs|
    ensures forall k | 0 <= k < |chs| && k != c :: RemoveLecture(chs, c, index)[k] == chs[k]
    ensures var ls := RemoveLecture(chs, c, index)[c].lectures;
      |ls| == |SpliceOne(chs[c].lectures, index)|
      && forall j | 0 <= j < |ls| :: ls[j] == SpliceOne(chs[c].lectures, index)[j].(order := j)
  {
  }

  /** As written, `removeChapter` drops exactly chapter `index`; the others
      keep their relative order and their stored `order`. */
  lemma RemoveChapterAsWrittenDropsOne(chs: seq<FormChapter>, index: nat)
    requires index < |chs|
    ensures var r := RemoveChapterAsWritten(chs, index);
      |r| == |chs| - 1
      && (forall k | 0 <= k < index :: r[k] == chs[k])
      && (forall k | index <= k < |r| :: r[k] == chs[k + 1])
  {
    SpliceOneInRange(chs, index);
  }

  /** As written, `removeLecture` changes only chapter `c`: its lecture at
      `index` goes, and the others keep their order and stored `order`. */
  lemma RemoveLectureAsWrittenDropsOne(chs: seq<FormChapter>, c: nat, index: nat)
    requires c < |chs| && index < |chs[c].lectures|
    ensures var r := RemoveLectureAsWritten(chs, c, index);
      |r| == |chs| && (forall k | 0 <= k < |chs| && k != c :: r[k] == chs[k])
      && r[c].title == chs[c].title && r[c].order == chs[c].order
      && |r[c].lectures| == |chs[c].lectures| - 1
      && (forall j | 0 <= j < index :: r[c].lectures[j] == chs[c].lectures[j])
      && (forall j | index <= j < |r[c].lectures| :: r[c].lectures[j] == chs[c].lectures[j + 1])
  {
    SpliceOneInRange(chs[c].lectures, index);
  }

  // ----- handleSubmit -----

  /** The stored user once parsed: absent (or `null`), without `_id`, with
      one, or a parse that threw with the given message. */
  datatype StoredUser = Absent | WithoutId | WithId(id: string) | ParseFailed(reason: string)

  /** What `handleSubmit` sends: the form with the price and the discount
      turned into numbers. */
  datatype Payload = Payload(courseTitle: string, courseDescription: string, coursePrice: Option<real>,
                             isPublished: bool, discount: Option<real>, courseThumbnail: string,
                             courseContent: seq<FormChapter>)

  datatype SubmitOutcome = Rejected(message: string) | Send(payload: Payload)

  /** The checks in order: the required fields, the content, the user. */
  function SubmitDecision(title: string, description: string, price: string, thumbnail: string,
                          content: seq<FormChapter>, isPublished: bool, discount: string,
                          user: StoredUser, toNumber: string -> Option<real>): (o: SubmitOutcome)
    ensures o.Send? <==> title != "" && description != "" && price != "" && thumbnail != ""
                         && |content| > 0 && user.WithId?
    ensures (title == "" || description == "" || price == "" || thumbnail == "") ==> o == Rejected(FieldsMissing)
    ensures title != "" && description != "" && price != "" && thumbnail != "" && |content| == 0 ==>
      o == Rejected(NoChapters)
    ensures o.Send? ==> o.payload.coursePrice == toNumber(price) && o.payload.discount == toNumber(discount)
                        && o.payload.courseContent == content
  {
    if title == "" || description == "" || price == "" || thumbnail == "" then Rejected(FieldsMissing)
    else if |content| == 0 then Rejected(NoChapters)
    else match user
      case ParseFailed(reason) => Rejected("Error connecting to server: " + reason)
      case Absent => Rejected(NoUser)
      case WithoutId => Rejected(NoUser)
      case WithId(_) =>
        Send(Payload(title, description, toNumber(price), isPublished, toNumber(discount), thumbnail, content))
  }

  /** The message after the server answers. */
  function ResponseMessage(ok: bool, dataMessage: Option<string>, dataError: Option<string>): (m: string)
    ensures ok ==> m == "Course updated successfully!"
    ensures !ok && !Missing(dataMessage) ==> m == dataMessage.value
    ensures !ok && Missing(dataMessage) && !Missing(dataError) ==> m == dataError.value
    ensures !ok && Missing(dataMessage) && Missing(dataError) ==> m == "Failed to update course"
  {
    if ok then "Course updated successfully!"
    else if !Missing(dataMessage) then dataMessage.value
    else if !Missing(dataError) then dataError.value
    else "Failed to update course"
  }

  class CourseEditor {
    var courseTitle: string
    var courseDescription: string
    var coursePrice: string
    var isPublished: bool
    var discount: string
    var courseThumbnail: string
    var courseContent: seq<FormChapter>
    var currentChapter: ChapterDraft
    var currentLecture: LectureDraft
    var message: string

    /** The chapter draft's lectures are numbered by position. The saved
        content need not be: a fetched course brings its own numbers, and
        the removals below do not renumber. */
    predicate Valid()
      reads this
    {
      LectureOrdersArePositions(currentChapter.lectures)
    }

    constructor()
      ensures Valid()
      ensures courseTitle == "" && courseDescription == "" && coursePrice == "" && !isPublished
      ensures discount == "0" && courseThumbnail == "" && courseContent == []
      ensures currentChapter == EmptyChapter && currentLecture == EmptyLecture && message == ""
    {
      courseTitle, courseDescription, coursePrice, isPublished := "", "", "", false;
      discount, courseThumbnail, courseContent := "0", "", [];
      currentChapter, currentLecture, message := EmptyChapter, EmptyLecture, "";
    }

    /** `addLecture` */
    method AddLecture(toNumber: string -> Option<real>)
      requires Valid()
      modifies this
      ensures Valid()
      ensures old(currentLecture.title) == "" || old(currentLecture.videoUrl) == "" ==>
        message == LectureIncomplete && currentChapter == old(currentChapter) && currentLecture == old(currentLecture)
      ensures old(currentLecture.title) != "" && old(currentLecture.videoUrl) != "" ==>
        currentChapter == old(currentChapter).(lectures := WithLecture(old(currentChapter.lectures), old(currentLecture), toNumber))
        && currentLecture == EmptyLecture && message == old(message)
      ensures courseContent == old(courseContent) && courseTitle == old(courseTitle)
      ensures coursePrice == old(coursePrice) && discount == old(discount)
    {
      if currentLecture.title == "" || currentLecture.videoUrl == "" {
        message := LectureIncomplete;
        return;
      }
      currentChapter := currentChapter.(lectures := WithLecture(currentChapter.lectures, currentLecture, toNumber));
      currentLecture := EmptyLecture;
    }

    /** `addChapter` */
    method AddChapter()
      requires Valid()
      modifies this
      ensures Valid()
      ensures old(currentChapter.title) == "" || |old(currentChapter.lectures)| == 0 ==>
        message == ChapterIncomplete && courseContent == old(courseContent) && currentChapter == old(currentChapter)
      ensures old(currentChapter.title) != "" && |old(currentChapter.lectures)| > 0 ==>
        courseContent == WithChapter(old(courseContent), old(currentChapter))
        && currentChapter == EmptyChapter && message == old(message)
      ensures currentLecture == old(currentLecture) && courseTitle == old(courseTitle)
      ensures coursePrice == old(coursePrice) && discount == old(discount)
    {
      if currentChapter.title == "" || |currentChapter.lectures| == 0 {
        message := ChapterIncomplete;
        return;
      }
      courseContent := WithChapter(courseContent, currentChapter);
      currentChapter := EmptyChapter;
    }

    /** `removeLecture(chapterIndex, lectureIndex)`: the splice, with no
        renumbering. */
    method RemoveLectureAt(chapterIndex: nat, lectureIndex: int)
      requires chapterIndex < |courseContent|
      modifies this
      ensures courseContent == RemoveLectureAsWritten(old(courseContent), chapterIndex, lectureIndex)
      ensures currentChapter == old(currentChapter) && currentLecture == old(currentLecture) && message == old(message)
      ensures courseTitle == old(courseTitle) && coursePrice == old(coursePrice) && discount == old(discount)
    {
      courseContent := RemoveLectureAsWritten(courseContent, chapterIndex, lectureIndex);
    }

    /** `removeChapter(index)`: the splice, with no renumbering. */
    method RemoveChapterAt(index: int)
      modifies this
      ensures courseContent == RemoveChapterAsWritten(old(courseContent), index)
      ensures currentChapter == old(currentChapter) && currentLecture == old(currentLecture) && message == old(message)
      ensures courseTitle == old(courseTitle) && coursePrice == old(coursePrice) && discount == old(discount)
    {
      courseContent := RemoveChapterAsWritten(courseContent, index);
    }

    /** `handleSubmit` up to the request: the message is cleared, then set
        to the first failed check. */
    method HandleSubmit(user: StoredUser, toNumber: string -> Option<real>) returns (outcome: SubmitOutcome)
      modifies this
      ensures outcome == SubmitDecision(courseTitle, courseDescription, coursePrice, courseThumbnail,
                                        courseContent, isPublished, discount, user, toNumber)
      ensures message == (if outcome.Rejected? then outcome.message else "")
      ensures courseTitle == old(courseTitle) && courseDescription == old(courseDescription)
      ensures coursePrice == old(coursePrice) && courseThumbnail == old(courseThumbnail)
      ensures courseContent == old(courseContent) && isPublished == old(isPublished) && discount == old(discount)
      ensures currentChapter == old(currentChapter) && currentLecture == old(currentLecture)
    {
      message := "";
      outcome := SubmitDecision(courseTitle, courseDescription, coursePrice, courseThumbnail,
                                courseContent, isPublished, discount, user, toNumber);
      if outcome.Rejected? {
        message := outcome.message;
      }
    }
  }

  /** The request carries the content as the form holds it, so content
      numbered by position, as the corrected removals keep it, is sent
      numbered and not empty. */
  lemma SentContentIsNumbered(title: string, description: string, price: string, thumbnail: string,
                              content: seq<FormChapter>, isPublished: bool, discount: string,
                              user: StoredUser, toNumber: string -> Option<real>)
    requires OrdersArePositions(content)
    requires SubmitDecision(title, description, price, thumbnail, content, isPublished, discount, user, toNumber).Send?
    ensures var p := SubmitDecision(title, description, price, thumbnail, content, isPublished, discount, user, toNumber).payload;
      OrdersArePositions(p.courseContent) && |p.courseContent| > 0
  {
  }
}
