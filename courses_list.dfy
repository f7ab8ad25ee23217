/** The course list page: the search term taken from the route, and the
    courses whose lower-cased title contains the lower-cased term. */
module CoursesList {
  import opened Js
  import opened ClientCourse

  /** The title test of the filter. */
  predicate Matches(c: Course, term: string)
  {
    Includes(ToLower(c.courseTitle), ToLower(term))
  }

  /** `filter(test)`: the courses passing the test, in the list's own order. */
  function Select(all: seq<Course>, test: Course -> bool): (r: seq<Course>)
    ensures |r| <= |all|
    ensures forall c | c in r :: c in all && test(c)
  {
    if all == [] then []
    else
      var rest := Select(all[..|all| - 1], test);
      if test(all[|all| - 1]) then rest + [all[|all| - 1]] else rest
  }

  lemma {:induction false} SelectMembership(all: seq<Course>, test: Course -> bool, c: Course)
    ensures c in Select(all, test) <==> c in all && test(c)
    decreases |all|
  {
    if all != [] {
      var init := all[..|all| - 1];
      SelectMembership(init, test, c);
      assert all == init + [all[|all| - 1]];
    }
  }

  /** One more course at the end is selected after the others, or not at all. */
  lemma SelectSnoc(init: seq<Course>, last: Course, test: Course -> bool)
    ensures Select(init + [last], test) == Select(init, test) + (if test(last) then [last] else [])
  {
    var all := init + [last];
    assert all[..|all| - 1] == init && all[|all| - 1] == last;
  }

  lemma {:induction false} SelectAppend(a: seq<Course>, b: seq<Course>, test: Course -> bool)
    ensures Select(a + b, test) == Select(a, test) + Select(b, test)
    decreases |b|
  {
    if b == [] {
      assert a + b == a;
    } else {
      var initB, last := b[..|b| - 1], b[|b| - 1];
      SelectAppend(a, initB, test);
      assert b == initB + [last];
      assert a + b == (a + initB) + [last];
      SelectSnoc(a + initB, last, test);
      SelectSnoc(initB, last, test);
      ConcatAssoc(Select(a, test), Select(initB, test), if test(last) then [last] else []);
    }
  }

  lemma {:induction false} SelectIdempotent(all: seq<Course>, test: Course -> bool)
    ensures Select(Select(all, test), test) == Select(all, test)
    decreases |all|
  {
    if all != [] {
      var init, last := all[..|all| - 1], all[|all| - 1];
      SelectIdempotent(init, test);
      if test(last) {
        SelectAppend(Select(init, test), [last], test);
      }
    }
  }

  lemma {:induction false} SelectAllPass(all: seq<Course>, test: Course -> bool)
    requires forall k | 0 <= k < |all| :: test(all[k])
    ensures Select(all, test) == all
    decreases |all|
  {
    if all != [] {
      SelectAllPass(all[..|all| - 1], test);
      assert all == all[..|all| - 1] + [all[|all| - 1]];
    }
  }

  lemma {:induction false} SelectSameTest(all: seq<Course>, t1: Course -> bool, t2: Course -> bool)
    requires forall c :: t1(c) == t2(c)
    ensures Select(all, t1) == Select(all, t2)
    decreases |all|
  {
    if all != [] {
      SelectSameTest(all[..|all| - 1], t1, t2);
    }
  }

  /** `allCourses.slice().filter(...)` on the lower-cased title. */
  function Filtered(all: seq<Course>, term: string): (r: seq<Course>)
    ensures |r| <= |all|
    ensures forall c | c in r :: c in all && Matches(c, term)
  {
    Select(all, c => Matches(c, term))
  }

  /** A course is listed exactly when it is in the catalogue and its title
      matches. */
  lemma FilteredMembership(all: seq<Course>, term: string, c: Course)
    ensures c in Filtered(all, term) <==> c in all && Matches(c, term)
  {
    SelectMembership(all, c => Matches(c, term), c);
  }

  /** Filtering a concatenation filters each part in turn: the order of the
      catalogue is kept. */
  lemma FilteredAppend(a: seq<Course>, b: seq<Course>, term: string)
    ensures Filtered(a + b, term) == Filtered(a, term) + Filtered(b, term)
  {
    SelectAppend(a, b, c => Matches(c, term));
  }

  /** Searching the results again for the same term changes nothing. */
  lemma FilteredIdempotent(all: seq<Course>, term: string)
    ensures Filtered(Filtered(all, term), term) == Filtered(all, term)
  {
    SelectIdempotent(all, c => Matches(c, term));
  }

  /** Every title contains the empty term, so an empty term lists all. */
  lemma EmptyTermListsAll(all: seq<Course>)
    ensures Filtered(all, "") == all
  {
    forall k | 0 <= k < |all| ensures Matches(all[k], "") {
      EverythingIncludesEmpty(ToLower(all[k].courseTitle));
    }
    SelectAllPass(all, c => Matches(c, ""));
  }

  lemma LowerCharIdempotent(c: char)
    ensures LowerChar(LowerChar(c)) == LowerChar(c)
  {
  }

  lemma ToLowerIdempotent(s: string)
    ensures ToLower(ToLower(s)) == ToLower(s)
  {
    forall k | 0 <= k < |s| ensures ToLower(ToLower(s))[k] == ToLower(s)[k] {
      LowerCharIdempotent(s[k]);
    }
  }

  /** The search ignores the case of the term: a term and its lower-cased
      form list the same courses. */
  lemma SearchIgnoresCase(all: seq<Course>, term: string)
    ensures Filtered(all, ToLower(term)) == Filtered(all, term)
  {
    ToLowerIdempotent(term);
    assert forall c :: Matches(c, ToLower(term)) == Matches(c, term);
    FilteredSameTest(all, ToLower(term), term);
  }

  /** Two terms with the same title test list the same courses. */
  lemma FilteredSameTest(all: seq<Course>, t1: string, t2: string)
    requires forall c :: Matches(c, t1) == Matches(c, t2)
    ensures Filtered(all, t1) == Filtered(all, t2)
  {
    SelectSameTest(all, c => Matches(c, t1), c => Matches(c, t2));
  }

  /** The message shown when nothing is listed. */
  function EmptyMessage(term: string): (s: string)
    ensures term == "" <==> s == "No courses available"
  {
    if term != "" then "No courses found matching \"" + term + "\"" else "No courses available"
  }

  class CoursesListPage {
    var searchTerm: string
    var filteredCourses: seq<Course>

    /** `useState(input || "")` */
    constructor(input: Option<string>)
      ensures searchTerm == (if Missing(input) then "" else input.value) && filteredCourses == []
    {
      searchTerm := if Missing(input) then "" else input.value;
      filteredCourses := [];
    }

    /** The filter effect: nothing happens while the catalogue is empty. */
    method ApplyFilter(allCourses: seq<Course>)
      modifies this
      ensures searchTerm == old(searchTerm)
      ensures |allCourses| == 0 ==> filteredCourses == old(filteredCourses)
      ensures |allCourses| > 0 ==> filteredCourses == Filtered(allCourses, searchTerm)
    {
      if |allCourses| > 0 {
        var temp := allCourses;
        if searchTerm != "" {
          filteredCourses := Filtered(temp, searchTerm);
        } else {
          EmptyTermListsAll(temp);
          filteredCourses := temp;
        }
      }
    }

    /** The route-parameter effect. */
    method SetFromInput(input: Option<string>)
      modifies this
      ensures searchTerm == (if Missing(input) then old(searchTerm) else input.value)
      ensures filteredCourses == old(filteredCourses)
    {
      if !Missing(input) {
        searchTerm := input.value;
      }
    }

    /** `handleSearch`, and "Clear Search" with the empty term. */
    method HandleSearch(newSearchTerm: string)
      modifies this
      ensures searchTerm == newSearchTerm && filteredCourses == old(filteredCourses)
    {
      searchTerm := newSearchTerm;
    }
  }
}
