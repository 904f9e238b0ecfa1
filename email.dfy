/**
 * The e-mail key of a lead (webapp/app.py): the submitted address is stripped and
 * lower-cased, then checked against the pattern `^[^@\s]+@[^@\s]+\.[^@\s]+$`.
 */
module EmailAddress {
  import opened Text

  /**
   * `email.strip().lower()`: the key under which a lead is stored is a slice of the
   * input with only whitespace around it, lower-cased.
   */
  function Normalize(s: string): (key: string)
    ensures exists a, b :: SpaceOutside(s, a, b) && key == Lower(s[a..b])
    ensures IsTrimmed(key)
    ensures forall i :: 0 <= i < |key| ==> !IsUpper(key[i])
  {
    LowerOfSlice(s, Trim(s));
    Lower(Trim(s))
  }

  /** Lower-casing a slice of `s` with whitespace around it gives a lower-cased slice of `s` with whitespace around it. */
  lemma {:induction false} LowerOfSlice(s: string, t: string)
    requires exists a, b :: SpaceOutside(s, a, b) && t == s[a..b]
    ensures exists a, b :: SpaceOutside(s, a, b) && Lower(t) == Lower(s[a..b])
  {
    var a, b :| SpaceOutside(s, a, b) && t == s[a..b];
    assert SpaceOutside(s, a, b) && Lower(t) == Lower(s[a..b]);
  }

  /** Normalising twice is normalising once: a stored key is its own key. */
  lemma NormalizeIdempotent(s: string)
    ensures Normalize(Normalize(s)) == Normalize(s)
  {
    var key := Normalize(s);
    TrimOfTrimmed(key);
    LowerIdempotent(Trim(s));
  }

  /** Addresses that differ only in letter case get the same key. */
  lemma NormalizeIgnoresCase(s: string)
    ensures Normalize(Lower(s)) == Normalize(s)
  {
    TrimLower(s);
    LowerIdempotent(Trim(s));
  }

  /** `"Foo@Bar.com"` and `"foo@bar.com"` are stored under the same key. */
  lemma NormalizeExample()
    ensures Normalize("Foo@Bar.com") == Normalize("foo@bar.com")
  {
    var lower := "foo@bar.com";
    assert Lower("Foo@Bar.com") == lower by {
      forall i | 0 <= i < |lower| ensures Lower("Foo@Bar.com")[i] == lower[i] {
        assert LowerChar("Foo@Bar.com"[i]) == lower[i];
      }
    }
    NormalizeIgnoresCase("Foo@Bar.com");
  }

  /** A character allowed by the class `[^@\s]`. */
  predicate IsPlain(c: char) {
    c != '@' && !IsSpace(c)
  }

  /** Every character of `s[lo..hi]` is allowed by `[^@\s]`. */
  predicate PlainRange(s: string, lo: int, hi: int)
    requires 0 <= lo <= hi <= |s|
  {
    forall k :: lo <= k < hi ==> IsPlain(s[k])
  }

  /** The domain has a dot that is neither its first nor its last character. */
  predicate HasInnerDot(domain: string) {
    exists j :: 0 < j < |domain| - 1 && domain[j] == '.'
  }

  /**
   * The hand-written reading of the pattern: no whitespace, exactly one `@`,
   * a non-empty local part, and a dot strictly inside the domain.
   */
  predicate IsEmail(s: string) {
    && (forall i :: 0 <= i < |s| ==> !IsSpace(s[i]))
    && var at := |BeforeFirst(s, '@')|;
    && 0 < at < |s|
    && '@' !in s[at + 1..]
    && HasInnerDot(s[at + 1..])
  }

  /**
   * The regex read literally: `s` splits as local `@` label `.` tail, each part
   * a non-empty run of `[^@\s]`; `i` is the `@` and `j` the dot the match uses.
   */
  ghost predicate PatternAt(s: string, i: int, j: int) {
    && 0 < i && i + 1 < j && j + 1 < |s|
    && s[i] == '@' && s[j] == '.'
    && PlainRange(s, 0, i) && PlainRange(s, i + 1, j) && PlainRange(s, j + 1, |s|)
  }

  ghost predicate FullMatch(s: string) {
    exists i, j :: PatternAt(s, i, j)
  }

  /** `EMAIL_RE.match(s)`: in Python, `$` also matches just before a final newline. */
  ghost predicate RegexMatch(s: string) {
    FullMatch(s) || (|s| > 0 && s[|s| - 1] == '\n' && FullMatch(s[..|s| - 1]))
  }

  lemma IsEmailToPattern(s: string)
    requires IsEmail(s)
    ensures FullMatch(s)
  {
    var prefix := BeforeFirst(s, '@');
    var at := |prefix|;
    var domain := s[at + 1..];
    var d :| 0 < d < |domain| - 1 && domain[d] == '.';
    var j := at + 1 + d;
    assert s[j] == '.';
    assert PlainRange(s, 0, at) by {
      forall k | 0 <= k < at ensures IsPlain(s[k]) {
        assert s[k] == prefix[k];
      }
    }
    assert PlainRange(s, at + 1, |s|) by {
      forall k | at + 1 <= k < |s| ensures IsPlain(s[k]) {
        assert s[k] == domain[k - at - 1];
      }
    }
    assert PatternAt(s, at, j);
  }

  lemma PatternToIsEmail(s: string, i: int, j: int)
    requires PatternAt(s, i, j)
    ensures IsEmail(s)
  {
    var prefix := BeforeFirst(s, '@');
    var at := |prefix|;
    assert at == i;
    var domain := s[at + 1..];
    assert domain[j - at - 1] == '.';
    forall k | 0 <= k < |domain| ensures domain[k] != '@' {
      assert domain[k] == s[at + 1 + k];
    }
  }

  /**
   * On a stripped string (which never ends in a newline) the hand-written
   * predicate and the regular expression accept exactly the same strings.
   */
  lemma IsEmailMatchesRegex(s: string)
    requires IsTrimmed(s)
    ensures IsEmail(s) <==> RegexMatch(s)
  {
    if IsEmail(s) {
      IsEmailToPattern(s);
    }
    if FullMatch(s) {
      var i, j :| PatternAt(s, i, j);
      PatternToIsEmail(s, i, j);
    }
  }

  /** `"a@b"` has no dot in its domain. */
  lemma RejectsMissingDot()
    ensures !IsEmail("a@b")
  {
    assert BeforeFirst("a@b", '@') == "a";
  }

  /** `"not-an-email"` has no `@`. */
  lemma RejectsMissingAt()
    ensures !IsEmail("not-an-email")
  {
    assert '@' !in "not-an-email";
    assert |BeforeFirst("not-an-email", '@')| == |"not-an-email"|;
  }

  /** Printable ASCII other than the space is never whitespace. */
  lemma PrintableHasNoSpace(s: string)
    requires forall i :: 0 <= i < |s| ==> '!' <= s[i] <= '~'
    ensures forall i :: 0 <= i < |s| ==> !IsSpace(s[i])
  {
  }

  lemma AcceptsExample()
    ensures IsEmail("foo@bar.com")
  {
    var s := "foo@bar.com";
    PrintableHasNoSpace(s);
    assert s[..3] == "foo";
    BeforeFirstAt(s, '@', 3);
    assert s[4..] == "bar.com";
    assert s[4..][3] == '.';
  }
}
