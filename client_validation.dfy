/** The client's validation utilities: the e-mail and password validators,
    the average of a ratings array, the duration formatter and the
    discounted price. Absent, `null` and non-array arguments are `None`;
    numbers are exact reals (`NaN` and floating-point rounding are not
    modelled). */
module ClientValidation {
  import opened Js
  import opened EmailPattern
  import BackendValidation

  // ----- validateEmail, validatePassword -----

  /** `validateEmail`: non-empty, no ".." anywhere, and of the client's
      e-mail pattern. */
  function ValidateEmail(email: Option<string>): (r: bool)
    ensures r <==> !Missing(email) && !Includes(email.value, "..") && MatchesEmailRegex(email.value)
  {
    if Missing(email) then false
    else
      HasDoubleDotIsIncludes(email.value);
      ClientRegexIsBackendRegex(email.value);
      !HasDoubleDot(email.value) && MatchesClientEmailRegex(email.value)
  }

  /** `validatePassword` */
  function ValidatePassword(password: Option<string>): (r: bool)
    ensures r <==> password.Some? && Utf16Length(password.value) >= 6
  {
    if Missing(password) then false else Utf16Length(password.value) >= 6
  }

  /** Both password validators agree on every string. */
  lemma PasswordValidatorsAgree(password: string)
    ensures ValidatePassword(Some(password)) == BackendValidation.ValidatePassword(password)
  {
  }

  lemma DoubleDotInPrefix(s: string, n: nat)
    requires n <= |s| && HasDoubleDot(s[..n])
    ensures HasDoubleDot(s)
  {
    var k :| 0 <= k < n - 1 && s[..n][k] == '.' && s[..n][k + 1] == '.';
    assert s[k] == '.' && s[k + 1] == '.';
  }

  /** Every address the client accepts, the backend accepts too. */
  lemma ClientEmailImpliesBackend(email: string)
    requires ValidateEmail(Some(email))
    ensures BackendValidation.ValidateEmail(email)
  {
    EmailShapeIsRegex(email);
    var at := IndexOf(email, '@');
    HasDoubleDotIsIncludes(email);
    HasDoubleDotIsIncludes(email[..at]);
    if HasDoubleDot(email[..at]) {
      DoubleDotInPrefix(email, at);
    }
  }

  /** The converse fails: the backend lets ".." through in the domain. */
  lemma BackendAcceptsDoubleDotDomain()
    ensures BackendValidation.ValidateEmail("a@b..c")
    ensures !ValidateEmail(Some("a@b..c"))
  {
    DoubleDotDomainMatches();
    DoubleDotDomainLocalPart();
    DoubleDotDomainHasDoubleDot();
  }

  lemma DoubleDotDomainMatches()
    ensures MatchesEmailRegex("a@b..c")
  {
    var s := "a@b..c";
    assert s[..1] == "a" && s[2..3] == "b" && s[4..] == ".c";
    assert SplitMatches(s, 1, 3);
  }

  lemma DoubleDotDomainLocalPart()
    ensures !HasDoubleDot(BackendValidation.LocalPart("a@b..c"))
  {
    var s := "a@b..c";
    assert IndexOf(s, '@') == 1;
    assert s[..1] == "a";
    assert !HasDoubleDot(s[..1]);
    HasDoubleDotIsIncludes(s[..1]);
  }

  lemma DoubleDotDomainHasDoubleDot()
    ensures Includes("a@b..c", "..")
  {
    var s := "a@b..c";
    assert s[3] == '.' && s[4] == '.';
    HasDoubleDotIsIncludes(s);
  }

  // ----- calculateAverageRating -----

  /** An element of the ratings array: an object's `rating` field, or a bare
      value; `None` is `null` or `undefined`. */
  datatype RatingItem = Record(rating: Option<real>) | Bare(value: Option<real>)

  function ValueOf(item: RatingItem): Option<real>
  {
    match item
    case Record(r) => r
    case Bare(v) => v
  }

  /** The values that count, in array order. */
  function Values(items: seq<RatingItem>): (vs: seq<real>)
    ensures |vs| <= |items|
  {
    if items == [] then []
    else
      var v := ValueOf(items[|items| - 1]);
      Values(items[..|items| - 1]) + (if v.Some? then [v.value] else [])
  }

  function Sum(vs: seq<real>): real
  {
    if vs == [] then 0.0 else Sum(vs[..|vs| - 1]) + vs[|vs| - 1]
  }

  /** The mean of the values that count, or 0 when none do. */
  function Average(ratings: Option<seq<RatingItem>>): real
  {
    if ratings.None? || |Values(ratings.value)| == 0 then 0.0
    else Sum(Values(ratings.value)) / |Values(ratings.value)| as real
  }

  /** `calculateAverageRating`: the `forEach` loop accumulating `sum` and
      `count`. */
  method CalculateAverageRating(ratings: Option<seq<RatingItem>>) returns (r: real)
    ensures r == Average(ratings)
  {
    if ratings.None? || |ratings.value| == 0 {
      return 0.0;
    }
    var items := ratings.value;
    var sum := 0.0;
    var count := 0;
    var i := 0;
    while i < |items|
      invariant 0 <= i <= |items|
      invariant sum == Sum(Values(items[..i]))
      invariant count == |Values(items[..i])|
    {
      ValuesStep(items, i);
      var value := ValueOf(items[i]);
      if value.Some? {
        sum := sum + value.value;
        count := count + 1;
      }
      i := i + 1;
    }
    assert items[..i] == items;
    r := if count > 0 then sum / count as real else 0.0;
  }

  /** One more element adds its value, when it has one. */
  lemma ValuesStep(items: seq<RatingItem>, i: nat)
    requires i < |items|
    ensures var v := ValueOf(items[i]);
      Values(items[..i + 1]) == Values(items[..i]) + (if v.Some? then [v.value] else [])
      && (v.Some? ==> Sum(Values(items[..i + 1])) == Sum(Values(items[..i])) + v.value)
      && (v.None? ==> Values(items[..i + 1]) == Values(items[..i]))
  {
    assert items[..i + 1][..i] == items[..i];
    var v := ValueOf(items[i]);
    if v.Some? {
      var w := Values(items[..i]) + [v.value];
      assert w[..|w| - 1] == Values(items[..i]);
    }
  }

  /** A mean of values in `[lo, hi]` lies in `[lo, hi]`. */
  lemma DivBounds(total: real, n: real, lo: real, hi: real)
    requires n > 0.0 && lo * n <= total <= hi * n
    ensures lo <= total / n <= hi
  {
    var q := total / n;
    assert q * n == total;
    if q < lo {
      MulMonotone(q, lo, n);
    }
    if q > hi {
      MulMonotone(hi, q, n);
    }
  }

  lemma {:induction false} SumBounds(vs: seq<real>, lo: real, hi: real)
    requires forall k | 0 <= k < |vs| :: lo <= vs[k] <= hi
    ensures lo * |vs| as real <= Sum(vs) <= hi * |vs| as real
    decreases |vs|
  {
    if vs != [] {
      var init := vs[..|vs| - 1];
      assert forall k | 0 <= k < |init| :: init[k] == vs[k];
      SumBounds(init, lo, hi);
    }
  }

  /** The mean of values in `[lo, hi]` lies in `[lo, hi]`. */
  lemma MeanBounds(vs: seq<real>, lo: real, hi: real)
    requires |vs| > 0 && forall k | 0 <= k < |vs| :: lo <= vs[k] <= hi
    ensures lo <= Sum(vs) / |vs| as real <= hi
  {
    SumBounds(vs, lo, hi);
    DivBounds(Sum(vs), |vs| as real, lo, hi);
  }

  /** The values that count lie where the present ratings do. */
  lemma {:induction false} ValuesWithinBounds(items: seq<RatingItem>, lo: real, hi: real)
    requires forall k | 0 <= k < |items| :: ValueOf(items[k]).Some? ==> lo <= ValueOf(items[k]).value <= hi
    ensures forall k | 0 <= k < |Values(items)| :: lo <= Values(items)[k] <= hi
    decreases |items|
  {
    if items != [] {
      var init := items[..|items| - 1];
      assert forall k | 0 <= k < |init| :: init[k] == items[k];
      ValuesWithinBounds(init, lo, hi);
    }
  }

  /** When every present rating lies in `[lo, hi]` and one is present, the
      average lies in `[lo, hi]`; absent values do not pull it toward 0. */
  lemma AverageWithinBounds(items: seq<RatingItem>, lo: real, hi: real)
    requires forall k | 0 <= k < |items| :: ValueOf(items[k]).Some? ==> lo <= ValueOf(items[k]).value <= hi
    requires |Values(items)| > 0
    ensures lo <= Average(Some(items)) <= hi
  {
    ValuesWithinBounds(items, lo, hi);
    MeanBounds(Values(items), lo, hi);
  }

  /** An absent rating changes nothing. */
  lemma AbsentRatingIgnored(items: seq<RatingItem>, item: RatingItem)
    requires ValueOf(item).None?
    ensures Average(Some(items + [item])) == Average(Some(items))
  {
    var w := items + [item];
    assert w[..|w| - 1] == items;
    assert Values(w) == Values(items);
  }

  // ----- formatDuration -----

  /** `formatDuration` as written: the hours are floored and the remaining
      minutes rounded separately. */
  function FormatDuration(minutes: Option<real>): (r: string)
  {
    if minutes.None? || minutes.value == 0.0 || minutes.value < 0.0 then "0m"
    else
      var m := minutes.value;
      if m < 60.0 then IntToString(Round(m)) + "m"
      else
        var hrs := FloorDiv(m, 60);
        var mins := Round(m - 60.0 * hrs as real);
        if mins > 0 then IntToString(hrs) + "h " + IntToString(mins) + "m"
        else IntToString(hrs) + "h 0m"
  }

  /** Missing, zero and negative inputs give "0m"; below an hour the
      rounded minutes; from an hour on "<h>h <m>m" with `h` the whole hours
      and `m` the rounded rest, which can reach 60. */
  lemma FormatDurationCases(minutes: Option<real>)
    ensures minutes.None? || minutes.value <= 0.0 ==> FormatDuration(minutes) == "0m"
    ensures minutes.Some? && 0.0 < minutes.value < 60.0 ==>
      FormatDuration(minutes) == NatToString(Round(minutes.value)) + "m"
    ensures minutes.Some? && minutes.value >= 60.0 ==>
      var h := FloorDiv(minutes.value, 60);
      var m := Round(minutes.value - 60.0 * h as real);
      h >= 1 && 0 <= m <= 60 && FormatDuration(minutes) == NatToString(h) + "h " + NatToString(m) + "m"
  {
    if minutes.Some? && minutes.value >= 60.0 {
      var h := FloorDiv(minutes.value, 60);
      var m := Round(minutes.value - 60.0 * h as real);
      assert m == 0 ==> NatToString(m) == "0";
    }
  }

  /** On whole minutes the rounding does nothing, so the minutes field is
      the remainder and stays below 60. */
  lemma FormatWholeMinutes(n: nat)
    requires n >= 60
    ensures FormatDuration(Some(n as real)) == NatToString(n / 60) + "h " + NatToString(n % 60) + "m"
  {
    WholeHours(n);
    var m := n % 60;
    assert Round(n as real - 60.0 * (n / 60) as real) == m by {
      assert n as real - 60.0 * (n / 60) as real == m as real;
    }
    FormatDurationCases(Some(n as real));
  }

  /** On whole minutes the hours are the integer quotient. */
  lemma WholeHours(n: nat)
    ensures FloorDiv(n as real, 60) == n / 60
    ensures n as real - 60.0 * (n / 60) as real == (n % 60) as real
  {
    var h := FloorDiv(n as real, 60);
    assert h * 60 <= n < (h + 1) * 60 by {
      assert h as real * 60.0 <= n as real < (h + 1) as real * 60.0;
    }
  }

  /** A remainder that rounds up to a whole hour is shown as 60 minutes. */
  lemma FormatDurationShowsSixtyMinutes()
    ensures FormatDuration(Some(119.5)) == "1h 60m"
  {
    assert FloorDiv(119.5, 60) == 1;
    assert Round(59.5) == 60;
    assert NatToString(60) == "60";
  }

  /** The formatter with the total rounded first, so the minutes field is
      always below 60. */
  function FormatDurationRounded(minutes: Option<real>): (r: string)
  {
    if minutes.None? || minutes.value <= 0.0 then "0m"
    else
      var t := Round(minutes.value);
      if t < 60 then NatToString(t) + "m"
      else NatToString(t / 60) + "h " + NatToString(t % 60) + "m"
  }

  /** The corrected formatter agrees with the original on whole minutes. */
  lemma FormatDurationRoundedAgrees(n: nat)
    requires n >= 60
    ensures FormatDurationRounded(Some(n as real)) == FormatDuration(Some(n as real))
  {
    FormatWholeMinutes(n);
    assert Round(n as real) == n;
  }

  /** The corrected formatter never shows 60 minutes or more. */
  lemma FormatDurationRoundedBelowSixty(minutes: real)
    requires minutes > 0.0
    ensures var r := FormatDurationRounded(Some(minutes));
      exists h: nat, m: nat | m < 60 :: r == NatToString(m) + "m" || r == NatToString(h) + "h " + NatToString(m) + "m"
  {
    var t := Round(minutes);
    if t < 60 {
      assert FormatDurationRounded(Some(minutes)) == NatToString(t) + "m";
    } else {
      assert FormatDurationRounded(Some(minutes)) == NatToString(t / 60) + "h " + NatToString(t % 60) + "m";
    }
  }

  lemma FormatDurationRoundedFixesSixty()
    ensures FormatDurationRounded(Some(119.5)) == "2h 0m"
  {
    assert Round(119.5) == 120;
    assert NatToString(2) == "2" && NatToString(0) == "0";
  }

  // ----- calculateDiscountedPrice -----

  /** `calculateDiscountedPrice` */
  function CalculateDiscountedPrice(originalPrice: Option<real>, discountPercentage: Option<real>): (r: real)
    ensures originalPrice.None? || originalPrice.value <= 0.0 ==> r == 0.0
    ensures originalPrice.Some? && originalPrice.value > 0.0 ==>
      0.0 <= r <= originalPrice.value
    ensures (originalPrice.Some? && originalPrice.value > 0.0
             && (discountPercentage.None? || discountPercentage.value <= 0.0)) ==> r == originalPrice.value
    ensures (originalPrice.Some? && originalPrice.value > 0.0
             && discountPercentage.Some? && 0.0 < discountPercentage.value <= 100.0) ==>
      r == originalPrice.value * (100.0 - discountPercentage.value) / 100.0
    ensures (originalPrice.Some? && originalPrice.value > 0.0
             && discountPercentage.Some? && discountPercentage.value >= 100.0) ==> r == 0.0
  {
    if originalPrice.None? || originalPrice.value == 0.0 || originalPrice.value < 0.0 then 0.0
    else if discountPercentage.None? || discountPercentage.value == 0.0 || discountPercentage.value < 0.0 then
      originalPrice.value
    else
      var price := originalPrice.value;
      var discount := (discountPercentage.value * price) / 100.0;
      MulMonotone(0.0, discountPercentage.value, price);
      if 0.0 > price - discount then 0.0 else price - discount
  }
}
