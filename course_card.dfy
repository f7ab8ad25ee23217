/** The course card of the catalogue: the mean rating and its stars, the
    review count, the discounted price with its badge and struck-through
    list price, and the educator's name. A missing or non-numeric price in
    the discounted formula gives `NaN`, written `None`. */
module CourseCard {
  import opened Js
  import opened ClientCourse
  import AppContext
  import CourseDetails

  /** `calculateRating` */
  function Rating(course: Course): (r: real)
    ensures r == AppContext.CalculateRating(Some(course))
  {
    MeanRating(course.courseRatings)
  }

  /** `course.courseRatings?.length || 0` */
  function ReviewCount(course: Course): (n: nat)
    ensures course.courseRatings.None? ==> n == 0
    ensures course.courseRatings.Some? ==> n == |course.courseRatings.value|
  {
    if course.courseRatings.None? then 0 else |course.courseRatings.value|
  }

  /** "1 review", otherwise "<n> reviews". */
  function ReviewLabel(n: nat): (s: string)
    ensures n == 1 <==> s == "1 review"
  {
    NatToString(n) + " " + (if n == 1 then "review" else "reviews")
  }

  /** A truthy discount is present and non-zero. */
  predicate DiscountTruthy(discount: Option<real>)
  {
    discount.Some? && discount.value != 0.0
  }

  /** The price shown in bold, before `toFixed(2)`. */
  function ShownPrice(course: Course): (p: Option<real>)
    ensures !DiscountTruthy(course.discount) ==>
      p == Some(if course.coursePrice.Some? then course.coursePrice.value else 0.0)
    ensures DiscountTruthy(course.discount) ==> (p.Some? <==> course.coursePrice.Some?)
  {
    if DiscountTruthy(course.discount) then
      if course.coursePrice.None? then None
      else Some(course.coursePrice.value - (course.discount.value * course.coursePrice.value) / 100.0)
    else
      Some(if course.coursePrice.Some? then course.coursePrice.value else 0.0)
  }

  /** The card and the details page show the same price for a priced
      course. */
  lemma CardPriceIsDetailsPrice(course: Course)
    requires course.coursePrice.Some?
    ensures ShownPrice(course) == Some(CourseDetails.DiscountedPrice(course.coursePrice.value, course.discount))
  {
    if DiscountTruthy(course.discount) {
      var p, d := course.coursePrice.value, course.discount.value;
      assert ShownPrice(course).Some?;
      assert ShownPrice(course).value == p - (d * p) / 100.0;
      assert CourseDetails.DiscountedPrice(p, course.discount) == p * (100.0 - d) / 100.0;
      assert p - (d * p) / 100.0 == p * (100.0 - d) / 100.0 by {
        assert p * (100.0 - d) == 100.0 * p - d * p;
      }
    }
  }

  /** `course.discount > 0`: the badge and the struck-through list price. */
  predicate ShowsDiscount(course: Course)
  {
    course.discount.Some? && course.discount.value > 0.0
  }

  /** For a positive price, the badge shows exactly when the shown price is
      below the list price; a negative discount raises the price with no
      badge to say so. */
  lemma BadgeIffReduced(course: Course)
    requires course.coursePrice.Some? && course.coursePrice.value > 0.0
    ensures ShowsDiscount(course) <==> ShownPrice(course).value < course.coursePrice.value
    ensures course.discount.Some? && course.discount.value < 0.0 ==>
      ShownPrice(course).value > course.coursePrice.value && !ShowsDiscount(course)
  {
    var p := course.coursePrice.value;
    if course.discount.Some? {
      var d := course.discount.value;
      if d > 0.0 {
        assert d * p > 0.0;
      } else if d < 0.0 {
        assert d * p < 0.0;
      }
    }
  }

  /** `getEducatorName` */
  function EducatorName(course: Course): (s: string)
    ensures s != "Unknown Educator" ==> course.educator.Some? && course.educator.value.name == Some(s)
    ensures course.educator.None? || Missing(course.educator.value.name) ==> s == "Unknown Educator"
  {
    if course.educator.Some? && !Missing(course.educator.value.name) then course.educator.value.name.value
    else "Unknown Educator"
  }

  // ----- renderStars -----

  /** The numbers of full, half and empty stars drawn. */
  datatype StarRow = StarRow(full: int, half: bool, empty: int)

  function Ceil(x: real): (n: int)
    ensures (n - 1) as real < x <= n as real
  {
    -((-x).Floor)
  }

  /** `rating % 1` for a non-negative rating, and its truncated remainder
      (never above 0) for a negative one. */
  function FractionalPart(x: real): (f: real)
    ensures x >= 0.0 ==> 0.0 <= f < 1.0 && f == x - x.Floor as real
    ensures x < 0.0 ==> f <= 0.0
  {
    if x >= 0.0 then x - x.Floor as real else x - Ceil(x) as real
  }

  function StarCount(row: StarRow): int
  {
    row.full + (if row.half then 1 else 0) + row.empty
  }

  /** `renderStars` as written: floor, `rating % 1 >= 0.5`, `5 - ceil`. */
  function StarsAsWritten(rating: real): StarRow
  {
    StarRow(rating.Floor, FractionalPart(rating) >= 0.5, 5 - Ceil(rating))
  }

  /** As written, a non-negative rating whose fractional part is strictly
      between 0 and 0.5 draws four stars instead of five. */
  lemma StarsAsWrittenCount(rating: real)
    requires rating >= 0.0
    ensures StarCount(StarsAsWritten(rating)) == 5 <==>
      FractionalPart(rating) == 0.0 || FractionalPart(rating) >= 0.5
    ensures 0.0 < FractionalPart(rating) < 0.5 ==> StarCount(StarsAsWritten(rating)) == 4
  {
    if FractionalPart(rating) == 0.0 {
      assert rating == rating.Floor as real;
      assert Ceil(rating) == rating.Floor;
    } else {
      assert Ceil(rating) == rating.Floor + 1;
    }
  }

  /** A mean rating of 3.2 draws three full stars, no half star and one
      empty star. */
  lemma StarsShortAtThreePointTwo()
    ensures StarsAsWritten(3.2) == StarRow(3, false, 1)
    ensures StarCount(StarsAsWritten(3.2)) == 4
  {
    assert (3.2).Floor == 3;
    assert Ceil(3.2) == 4;
  }

  /** `renderStars` with the empty stars filling up to five. */
  function Stars(rating: real): StarRow
  {
    var full := rating.Floor;
    var half := FractionalPart(rating) >= 0.5;
    StarRow(full, half, 5 - full - (if half then 1 else 0))
  }

  /** Always five stars; for a rating in 0..5 no part is negative; and the
      corrected row differs from the written one only where that one draws
      four. */
  lemma StarsFillFive(rating: real)
    ensures StarCount(Stars(rating)) == 5
    ensures 0.0 <= rating <= 5.0 ==> Stars(rating).full >= 0 && Stars(rating).empty >= 0
    ensures rating >= 0.0 && !(0.0 < FractionalPart(rating) < 0.5) ==> Stars(rating) == StarsAsWritten(rating)
  {
    if rating >= 0.0 && !(0.0 < FractionalPart(rating) < 0.5) {
      StarsAsWrittenCount(rating);
    }
    if 0.0 <= rating <= 5.0 && rating.Floor == 5 {
      assert FractionalPart(rating) == 0.0;
    }
  }

  /** The stars drawn on a card, as written: five exactly when the mean's
      fractional part is 0 or at least one half, and four when it lies
      strictly in between. */
  function CardStars(course: Course): (row: StarRow)
    ensures row.half <==> FractionalPart(Rating(course)) >= 0.5
    ensures Rating(course) >= 0.0 ==>
      (StarCount(row) == 5 <==> FractionalPart(Rating(course)) == 0.0 || FractionalPart(Rating(course)) >= 0.5)
    ensures Rating(course) >= 0.0 && 0.0 < FractionalPart(Rating(course)) < 0.5 ==> StarCount(row) == 4
  {
    var r := Rating(course);
    if r >= 0.0 then
      StarsAsWrittenCount(r);
      StarsAsWritten(r)
    else
      StarsAsWritten(r)
  }

  /** A card whose ratings all lie in 1..5 draws one to five full stars, at
      most four empty ones, and four or five stars in all. */
  lemma CardStarsWithinRange(course: Course)
    requires course.courseRatings.Some? && |course.courseRatings.value| > 0
    requires forall k | 0 <= k < |course.courseRatings.value| :: 1.0 <= course.courseRatings.value[k].rating <= 5.0
    ensures 1 <= CardStars(course).full <= 5 && 0 <= CardStars(course).empty <= 4
    ensures 4 <= StarCount(CardStars(course)) <= 5
  {
    MeanRatingWithinBounds(course.courseRatings.value, 1.0, 5.0);
    var r := Rating(course);
    assert 1.0 <= r <= 5.0;
    StarsAsWrittenCount(r);
    assert 1 <= Ceil(r) <= 5;
  }
}
