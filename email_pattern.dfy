/** The e-mail patterns the application tests addresses against.

    The backend (validation utilities, registration, the OTP service) uses the
    anchored pattern `^[^\s@]+@[^\s@]+\.[^\s@]+$`; the client validation
    utility uses `^[^\s@]+(\.[^\s@]+)*@[^\s@]+\.[^\s@]+$`; the authentication
    form uses the unanchored `\S+@\S+\.\S+`. Each is written here as the set of
    strings the regular expression matches, and the anchored one also as a
    shape (one '@', no white space, a dot inside the domain) that is proved to
    describe the same set. */
module EmailPattern {
  import opened Js

  /** `[^\s@]` */
  predicate IsEmailChar(c: char)
  {
    !IsSpace(c) && c != '@'
  }

  predicate AllEmailChars(s: string)
  {
    forall k | 0 <= k < |s| :: IsEmailChar(s[k])
  }

  // ----- ^[^\s@]+@[^\s@]+\.[^\s@]+$ -----

  /** `s` splits at '@' (index `i`) and '.' (index `j`) into three non-empty
      runs of `[^\s@]`. */
  predicate SplitMatches(s: string, i: int, j: int)
    requires 0 <= i < j < |s|
  {
    1 <= i && i + 1 < j && j + 1 < |s| && s[i] == '@' && s[j] == '.'
    && AllEmailChars(s[..i]) && AllEmailChars(s[i + 1..j]) && AllEmailChars(s[j + 1..])
  }

  /** The strings the backend's anchored e-mail pattern matches. */
  predicate MatchesEmailRegex(s: string)
  {
    exists i, j | 0 <= i < j < |s| :: SplitMatches(s, i, j)
  }

  /** Index of the first occurrence of `c`, or -1 (`indexOf`). */
  function IndexOf(s: string, c: char): (k: int)
    ensures -1 <= k < |s|
    ensures k >= 0 ==> s[k] == c && forall m | 0 <= m < k :: s[m] != c
    ensures k == -1 ==> forall m | 0 <= m < |s| :: s[m] != c
  {
    if s == [] then -1
    else if s[0] == c then 0
    else var k := IndexOf(s[1..], c); if k == -1 then -1 else k + 1
  }

  /** A dot that is neither the first nor the last character. */
  predicate InnerDot(d: string)
  {
    exists k | 1 <= k < |d| - 1 :: d[k] == '.'
  }

  /** The shape of an accepted address: exactly one '@', after a non-empty
      local part; no white space anywhere; a '.' inside the domain that is
      neither its first nor its last character. */
  predicate HasEmailShape(s: string)
  {
    var at := IndexOf(s, '@');
    at >= 1 && NoSpace(s) && IndexOf(s[at + 1..], '@') == -1 && InnerDot(s[at + 1..])
  }

  /** The shape describes exactly what the anchored pattern matches. */
  lemma EmailShapeIsRegex(s: string)
    ensures HasEmailShape(s) <==> MatchesEmailRegex(s)
  {
    if HasEmailShape(s) {
      ShapeMatchesRegex(s);
    }
    if MatchesEmailRegex(s) {
      RegexHasShape(s);
    }
  }

  lemma ShapeMatchesRegex(s: string)
    requires HasEmailShape(s)
    ensures MatchesEmailRegex(s)
  {
    var at := IndexOf(s, '@');
    var d := s[at + 1..];
    var k :| 1 <= k < |d| - 1 && d[k] == '.';
    var j := at + 1 + k;
    assert s[j] == d[k];
    assert AllEmailChars(s[..at]) by {
      forall m | 0 <= m < at ensures IsEmailChar(s[..at][m]) {
        assert s[..at][m] == s[m];
      }
    }
    var host, tld := s[at + 1..j], s[j + 1..];
    assert AllEmailChars(host) by {
      forall m | 0 <= m < |host| ensures IsEmailChar(host[m]) {
        assert host[m] == d[m] == s[at + 1 + m];
      }
    }
    assert AllEmailChars(tld) by {
      forall m | 0 <= m < |tld| ensures IsEmailChar(tld[m]) {
        assert tld[m] == d[k + 1 + m] == s[j + 1 + m];
      }
    }
    assert SplitMatches(s, at, j);
  }

  lemma RegexHasShape(s: string)
    requires MatchesEmailRegex(s)
    ensures HasEmailShape(s)
  {
    var i, j :| 0 <= i < j < |s| && SplitMatches(s, i, j);
    assert forall m | 0 <= m < i :: s[m] == s[..i][m];
    assert IndexOf(s, '@') == i;
    var d := s[i + 1..];
    forall m | 0 <= m < |d| ensures IsEmailChar(d[m]) || (m == j - i - 1 && d[m] == '.') {
      if m < j - i - 1 {
        assert d[m] == s[i + 1..j][m];
      } else if m > j - i - 1 {
        assert d[m] == s[j + 1..][m - (j - i)];
      }
    }
    assert IndexOf(d, '@') == -1;
    assert d[j - i - 1] == '.';
    assert InnerDot(d);
    forall m | 0 <= m < |s| ensures !IsSpace(s[m]) {
      if m < i {
        assert s[m] == s[..i][m];
      } else if m > i {
        assert s[m] == d[m - i - 1];
      }
    }
  }

  // ----- ^[^\s@]+(\.[^\s@]+)*@[^\s@]+\.[^\s@]+$ -----

  /** `(\.[^\s@]+)*`: zero or more groups of a dot and a non-empty run. */
  predicate DotGroups(s: string)
    decreases |s|
  {
    s == [] || (s[0] == '.' && exists k | 2 <= k <= |s| :: AllEmailChars(s[1..k]) && DotGroups(s[k..]))
  }

  /** `[^\s@]+(\.[^\s@]+)*` */
  predicate DottedLocal(s: string)
  {
    exists k | 1 <= k <= |s| :: AllEmailChars(s[..k]) && DotGroups(s[k..])
  }

  predicate ClientSplitMatches(s: string, i: int, j: int)
    requires 0 <= i < j < |s|
  {
    1 <= i && i + 1 < j && j + 1 < |s| && s[i] == '@' && s[j] == '.'
    && DottedLocal(s[..i]) && AllEmailChars(s[i + 1..j]) && AllEmailChars(s[j + 1..])
  }

  /** The strings the client validation utility's e-mail pattern matches. */
  predicate MatchesClientEmailRegex(s: string)
  {
    exists i, j | 0 <= i < j < |s| :: ClientSplitMatches(s, i, j)
  }

  lemma {:induction false} DotGroupsAreEmailChars(s: string)
    requires DotGroups(s)
    ensures AllEmailChars(s)
    decreases |s|
  {
    if s != [] {
      var k :| 2 <= k <= |s| && AllEmailChars(s[1..k]) && DotGroups(s[k..]);
      DotGroupsAreEmailChars(s[k..]);
      forall m | 0 <= m < |s| ensures IsEmailChar(s[m]) {
        if 1 <= m < k {
          assert s[m] == s[1..k][m - 1];
        } else if m >= k {
          assert s[m] == s[k..][m - k];
        }
      }
    }
  }

  /** Since `[^\s@]` already contains '.', the optional dot groups add nothing. */
  lemma DottedLocalIsRun(s: string)
    ensures DottedLocal(s) <==> (|s| >= 1 && AllEmailChars(s))
  {
    if DottedLocal(s) {
      var k :| 1 <= k <= |s| && AllEmailChars(s[..k]) && DotGroups(s[k..]);
      DotGroupsAreEmailChars(s[k..]);
      forall m | 0 <= m < |s| ensures IsEmailChar(s[m]) {
        if m < k {
          assert s[m] == s[..k][m];
        } else {
          assert s[m] == s[k..][m - k];
        }
      }
    }
    if |s| >= 1 && AllEmailChars(s) {
      assert s[..|s|] == s;
      assert DotGroups(s[|s|..]);
    }
  }

  /** The client's pattern and the backend's accept the same addresses. */
  lemma ClientRegexIsBackendRegex(s: string)
    ensures MatchesClientEmailRegex(s) <==> MatchesEmailRegex(s)
  {
    if MatchesClientEmailRegex(s) {
      var i, j :| 0 <= i < j < |s| && ClientSplitMatches(s, i, j);
      DottedLocalIsRun(s[..i]);
      assert SplitMatches(s, i, j);
    }
    if MatchesEmailRegex(s) {
      var i, j :| 0 <= i < j < |s| && SplitMatches(s, i, j);
      DottedLocalIsRun(s[..i]);
      assert ClientSplitMatches(s, i, j);
    }
  }

  // ----- \S+@\S+\.\S+ (unanchored) -----

  /** The slice `s[a..e]` is `\S+@\S+\.\S+` with the '@' at `i` and the '.' at `j`. */
  predicate LooseSplitMatches(s: string, a: int, i: int, j: int, e: int)
    requires 0 <= a < i < j < e <= |s|
  {
    s[i] == '@' && i + 1 < j && s[j] == '.' && j + 1 < e
    && NoSpace(s[a..i]) && NoSpace(s[i + 1..j]) && NoSpace(s[j + 1..e])
  }

  /** The unanchored pattern matches somewhere inside `s`. */
  predicate MatchesLooseEmailRegex(s: string)
  {
    exists a, i, j, e | 0 <= a < i < j < e <= |s| :: LooseSplitMatches(s, a, i, j, e)
  }

  /** Every address the backend accepts passes the form's looser test. */
  lemma AnchoredImpliesLoose(s: string)
    requires MatchesEmailRegex(s)
    ensures MatchesLooseEmailRegex(s)
  {
    var i, j :| 0 <= i < j < |s| && SplitMatches(s, i, j);
    assert s[0..i] == s[..i];
    assert s[j + 1..|s|] == s[j + 1..];
    assert LooseSplitMatches(s, 0, i, j, |s|);
  }

  /** The converse fails: the form accepts an address with a space in it. */
  lemma LooseAcceptsSpace()
    ensures MatchesLooseEmailRegex("a b@c.d")
    ensures !MatchesEmailRegex("a b@c.d")
  {
    LooseMatchAfterSpace();
    AnchoredRefusesSpace();
  }

  lemma LooseMatchAfterSpace()
    ensures MatchesLooseEmailRegex("a b@c.d")
  {
    var s := "a b@c.d";
    assert s[2..3] == [s[2]];
    assert s[4..5] == [s[4]];
    assert s[6..7] == [s[6]];
    assert LooseSplitMatches(s, 2, 3, 5, 7);
  }

  lemma AnchoredRefusesSpace()
    ensures !MatchesEmailRegex("a b@c.d")
  {
    var s := "a b@c.d";
    EmailShapeIsRegex(s);
    assert !IsSpace(s[0]) && s[1] == ' ';
  }
}
