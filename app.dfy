/** The client's routes: which paths are public, which need a signed-in
    user and which need an educator, the `ProtectedRoute` guard that
    decides what such a path renders, and the navigation bar that is hidden
    under `/educator`. A path is given as its list of segments. The router
    matches the static segments of a pattern without regard to case; every
    static segment of these patterns is lower-case ASCII, for which that
    comparison is equality after ASCII lower-casing. */
module App {
  import opened Js
  import AppContext

  /** What `ProtectedRoute` renders, and `NoMatch` for a path that no route
      matches, where `<Routes>` renders nothing. */
  datatype Outcome = ShowLoading | RedirectTo(path: string) | ShowChildren | NoMatch

  /** `ProtectedRoute`: loading first, then a user, then the educator role
      where the route asks for it. */
  function Guard(loading: bool, user: Option<AppContext.StoredUser>, requireEducator: bool): (o: Outcome)
    ensures loading <==> o == ShowLoading
    ensures !loading && user.None? ==> o == RedirectTo("/login")
    ensures o == ShowChildren <==> !loading && user.Some? && (!requireEducator || AppContext.IsEducatorUser(user))
    ensures o == RedirectTo("/") <==> !loading && user.Some? && requireEducator && !AppContext.IsEducatorUser(user)
  {
    if loading then ShowLoading
    else if user.None? then RedirectTo("/login")
    else if requireEducator && user.value.role != Some("educator") then RedirectTo("/")
    else ShowChildren
  }

  datatype Protection = Public | SignedIn | EducatorOnly | NoRoute

  /** A path segment matches a static pattern segment. */
  predicate SegmentIs(segment: string, name: string)
  {
    ToLower(segment) == name
  }

  /** A one-segment path `/name`. */
  predicate IsPath1(segments: seq<string>, name: string)
  {
    |segments| == 1 && SegmentIs(segments[0], name)
  }

  /** A two-segment path `/first/second`. */
  predicate IsPath2(segments: seq<string>, first: string, second: string)
  {
    |segments| == 2 && SegmentIs(segments[0], first) && SegmentIs(segments[1], second)
  }

  /** The route table. */
  function RouteProtection(segments: seq<string>): Protection
  {
    if segments == [] || IsPath1(segments, "courses-list") || IsPath1(segments, "register") || IsPath1(segments, "login")
    then Public
    else if |segments| == 2 && segments[1] != "" && (SegmentIs(segments[0], "courses-list") || SegmentIs(segments[0], "courses"))
    then Public
    else if IsPath1(segments, "my-enrollments") then SignedIn
    else if |segments| == 2 && SegmentIs(segments[0], "player") && segments[1] != "" then SignedIn
    else if IsPath1(segments, "educator") || IsPath2(segments, "educator", "dashboard")
         || IsPath2(segments, "educator", "add-course") || IsPath2(segments, "educator", "my-courses")
         || IsPath2(segments, "educator", "student-enrolled") then EducatorOnly
    else if |segments| == 3 && SegmentIs(segments[0], "educator") && SegmentIs(segments[1], "edit-course")
         && segments[2] != "" then EducatorOnly
    else if |segments| == 4 && SegmentIs(segments[0], "educator") && SegmentIs(segments[1], "courses")
         && segments[2] != "" && SegmentIs(segments[3], "students") then EducatorOnly
    else NoRoute
  }

  /** What a path renders for the given context state. */
  function Render(segments: seq<string>, loading: bool, user: Option<AppContext.StoredUser>): (o: Outcome)
    ensures RouteProtection(segments) == Public ==> o == ShowChildren
    ensures RouteProtection(segments) == NoRoute <==> o == NoMatch
    ensures RouteProtection(segments) == SignedIn ==> o == Guard(loading, user, false)
    ensures RouteProtection(segments) == EducatorOnly ==> o == Guard(loading, user, true)
  {
    match RouteProtection(segments)
    case Public => ShowChildren
    case NoRoute => NoMatch
    case SignedIn => Guard(loading, user, false)
    case EducatorOnly => Guard(loading, user, true)
  }

  /** `!useMatch('/educator/...')`: the bar is hidden on `/educator` and below. */
  predicate ShowsNavbar(segments: seq<string>)
  {
    !(|segments| >= 1 && SegmentIs(segments[0], "educator"))
  }

  /** Every educator page is under `/educator`, so none shows the student
      navigation bar; and every guarded path is one of the listed routes. */
  lemma EducatorPagesHideNavbar(segments: seq<string>)
    ensures RouteProtection(segments) == EducatorOnly ==> !ShowsNavbar(segments)
    ensures RouteProtection(segments) == SignedIn ==> ShowsNavbar(segments)
  {
  }

  /** Both places the guard sends a visitor are public, so a redirect never
      lands on another guard. */
  lemma RedirectTargetsArePublic()
    ensures RouteProtection(["login"]) == Public && RouteProtection([]) == Public
  {
  }

  /** Once the context has loaded, a signed-in educator reaches every route,
      a signed-in student every route but the educator's, and nobody signed
      in only the public ones; the educator flag the context keeps agrees
      with the guard. */
  lemma AccessByRole(segments: seq<string>, user: Option<AppContext.StoredUser>)
    ensures AppContext.IsEducatorUser(user) ==>
      (Render(segments, false, user) == ShowChildren <==> RouteProtection(segments) != NoRoute)
    ensures user.Some? && !AppContext.IsEducatorUser(user) ==>
      (Render(segments, false, user) == ShowChildren <==>
        RouteProtection(segments) == Public || RouteProtection(segments) == SignedIn)
    ensures user.None? ==>
      (Render(segments, false, user) == ShowChildren <==> RouteProtection(segments) == Public)
  {
  }

  /** Matching ignores case: any spelling of `/my-enrollments`, such as
      `/My-Enrollments`, is the guarded enrolments route, so a visitor who
      is not signed in is sent to the login page. */
  lemma MixedCaseIsGuarded(segment: string)
    requires ToLower(segment) == "my-enrollments"
    ensures RouteProtection([segment]) == SignedIn
    ensures Render([segment], false, None) == RedirectTo("/login")
  {
  }

  /** `/My-Enrollments` is one such spelling. */
  lemma CapitalisedEnrolments()
    ensures RouteProtection(["My-Enrollments"]) == SignedIn
    ensures Render(["My-Enrollments"], false, None) == RedirectTo("/login")
  {
    LowerEnrolments();
    MixedCaseIsGuarded("My-Enrollments");
  }

  lemma LowerEnrolments()
    ensures ToLower("My-Enrollments") == "my-enrollments"
  {
    var s := "My-Enrollments";
    forall k | 0 <= k < |s| ensures ToLower(s)[k] == "my-enrollments"[k] {
    }
  }

  /** Any spelling of `/educator` is the educator's dashboard route, and
      hides the navigation bar. */
  lemma EducatorInAnyCase(segment: string)
    requires ToLower(segment) == "educator"
    ensures RouteProtection([segment]) == EducatorOnly && !ShowsNavbar([segment])
  {
  }

  /** `/Educator` is one such spelling. */
  lemma CapitalisedEducator()
    ensures RouteProtection(["Educator"]) == EducatorOnly && !ShowsNavbar(["Educator"])
  {
    LowerEducator();
    EducatorInAnyCase("Educator");
  }

  lemma LowerEducator()
    ensures ToLower("Educator") == "educator"
  {
    CapitalisedWord("E", "ducator");
    assert "E" + "ducator" == "Educator";
  }

  /** A capital followed by no capitals lower-cases to its small letter and
      the rest unchanged. */
  lemma CapitalisedWord(a: string, b: string)
    requires |a| == 1 && 'A' <= a[0] <= 'Z' && forall k | 0 <= k < |b| :: !('A' <= b[k] <= 'Z')
    ensures ToLower(a + b) == [(a[0] as int + 32) as char] + b
  {
    ToLowerAppend(a, b);
    ToLowerNoCapitals(b);
  }

  /** After `logout` (no user, loading over) every guarded route sends the
      visitor to the login page. */
  lemma LogoutLocksGuardedRoutes(p: AppContext.Provider, segments: seq<string>)
    requires p.user.None? && !p.loading
    requires RouteProtection(segments) == SignedIn || RouteProtection(segments) == EducatorOnly
    ensures Render(segments, p.loading, p.user) == RedirectTo("/login")
  {
  }
}
