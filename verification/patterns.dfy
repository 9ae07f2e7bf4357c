/**
 The three regular expressions the job-application form tests its text
 fields against, written as explicit string predicates, together with the
 number coercion it applies to the experience field.

 Each pattern appears twice: once as the language the regular expression
 denotes (a ghost predicate built from the expression's own pieces), and
 once as the predicate the validator uses. A lemma shows the two agree on
 every string.
 */
module Patterns {
  import opened Wrappers

  /** The characters JavaScript's `\s` class matches: the ECMAScript
      WhiteSpace and LineTerminator characters. All of them lie in the
      Basic Multilingual Plane. */
  predicate IsSpace(c: char) {
    || c == '\t' || c == '\n' || c == '\U{000B}' || c == '\U{000C}' || c == '\r'
    || c == ' ' || c == '\U{00A0}' || c == '\U{1680}'
    || ('\U{2000}' <= c <= '\U{200A}')
    || c == '\U{2028}' || c == '\U{2029}' || c == '\U{202F}' || c == '\U{205F}'
    || c == '\U{3000}' || c == '\U{FEFF}'
  }

  /** JavaScript's `\d` without the `u` flag: ASCII digits only. */
  predicate IsDigit(c: char) {
    '0' <= c <= '9'
  }

  predicate NoSpace(s: string) {
    forall k :: 0 <= k < |s| ==> !IsSpace(s[k])
  }

  /** The language of `\S+`. */
  predicate NonSpaceRun(s: string) {
    |s| > 0 && NoSpace(s)
  }

  predicate AllDigits(s: string) {
    forall k :: 0 <= k < |s| ==> IsDigit(s[k])
  }

  /** The language of `^\d+$`, the phone-number pattern. */
  predicate DigitRun(s: string) {
    |s| > 0 && AllDigits(s)
  }

  // ---------------------------------------------------------------------
  // Phone number: /^\d+$/

  /** What the phone regular expression denotes: a digit followed by
      `\d*`, read one digit at a time. */
  ghost predicate DigitsLanguage(s: string)
    decreases |s|
  {
    |s| > 0 && IsDigit(s[0]) && (|s| == 1 || DigitsLanguage(s[1..]))
  }

  /** The validator's phone predicate accepts exactly the strings the
      phone regular expression matches. */
  lemma {:induction false} PhoneMatchesRegex(s: string)
    ensures DigitRun(s) <==> DigitsLanguage(s)
    decreases |s|
  {
    if |s| > 1 {
      PhoneMatchesRegex(s[1..]);
      if DigitRun(s) {
        assert forall k :: 0 <= k < |s| - 1 ==> s[1..][k] == s[k + 1];
      }
      if DigitsLanguage(s) {
        forall k | 0 <= k < |s|
          ensures IsDigit(s[k])
        {
          if k > 0 {
            assert s[k] == s[1..][k - 1];
          }
        }
      }
    }
  }

  // ---------------------------------------------------------------------
  // Email: /^\S+@\S+\.\S+$/

  /** What the email regular expression denotes: three non-space runs
      joined by an at-sign and a dot. */
  ghost predicate EmailLanguage(s: string) {
    exists a: string, b: string, c: string
      :: NonSpaceRun(a) && NonSpaceRun(b) && NonSpaceRun(c) && s == a + "@" + b + "." + c
  }

  /** The email shape by positions: no whitespace anywhere, an at-sign
      after at least one character, and a later dot with at least one
      character on each side of it. */
  predicate IsEmail(s: string) {
    && NoSpace(s)
    && exists i, j | 0 <= i < |s| && 0 <= j < |s|
         :: 0 < i && i + 1 < j < |s| - 1 && s[i] == '@' && s[j] == '.'
  }

  lemma NoSpaceSlice(s: string, lo: int, hi: int)
    requires NoSpace(s) && 0 <= lo <= hi <= |s|
    ensures NoSpace(s[lo..hi])
  {
  }

  lemma EmailShapeIsLanguage(s: string)
    requires IsEmail(s)
    ensures EmailLanguage(s)
  {
    var i, j :| 0 <= i < |s| && 0 <= j < |s| && 0 < i && i + 1 < j < |s| - 1 && s[i] == '@' && s[j] == '.';
    var a, b, c := s[..i], s[i + 1..j], s[j + 1..];
    NoSpaceSlice(s, 0, i);
    NoSpaceSlice(s, i + 1, j);
    NoSpaceSlice(s, j + 1, |s|);
    assert s == a + "@" + b + "." + c by {
      assert s == s[..i] + [s[i]] + s[i + 1..j] + [s[j]] + s[j + 1..];
    }
    assert NonSpaceRun(a) && NonSpaceRun(b) && NonSpaceRun(c);
  }

  lemma EmailLanguageIsShape(s: string)
    requires EmailLanguage(s)
    ensures IsEmail(s)
  {
    var a, b, c :| NonSpaceRun(a) && NonSpaceRun(b) && NonSpaceRun(c) && s == a + "@" + b + "." + c;
    var i, j := |a|, |a| + 1 + |b|;
    assert s[i] == '@' && s[j] == '.';
    forall k | 0 <= k < |s|
      ensures !IsSpace(s[k])
    {
      if k < i {
        assert s[k] == a[k];
      } else if k == i || k == j {
      } else if k < j {
        assert s[k] == b[k - i - 1];
      } else {
        assert s[k] == c[k - j - 1];
      }
    }
  }

  /** The validator's email predicate accepts exactly the strings the
      email regular expression matches. */
  lemma EmailMatchesRegex(s: string)
    ensures IsEmail(s) <==> EmailLanguage(s)
  {
    if IsEmail(s) {
      EmailShapeIsLanguage(s);
    }
    if EmailLanguage(s) {
      EmailLanguageIsShape(s);
    }
  }

  // ---------------------------------------------------------------------
  // Portfolio URL: /^https?:\/\/\S+$/

  /** What the URL regular expression denotes: `http://` or `https://`
      followed by a non-space run. */
  ghost predicate UrlLanguage(s: string) {
    exists rest: string :: NonSpaceRun(rest) && (s == "http://" + rest || s == "https://" + rest)
  }

  /** The URL shape by prefixes. */
  predicate IsHttpUrl(s: string) {
    || (|s| > 7 && s[..7] == "http://" && NoSpace(s[7..]))
    || (|s| > 8 && s[..8] == "https://" && NoSpace(s[8..]))
  }

  /** The validator's URL predicate accepts exactly the strings the URL
      regular expression matches. */
  lemma UrlMatchesRegex(s: string)
    ensures IsHttpUrl(s) <==> UrlLanguage(s)
  {
    if |s| > 7 && s[..7] == "http://" && NoSpace(s[7..]) {
      assert s == "http://" + s[7..];
      assert NonSpaceRun(s[7..]);
    } else if |s| > 8 && s[..8] == "https://" && NoSpace(s[8..]) {
      assert s == "https://" + s[8..];
      assert NonSpaceRun(s[8..]);
    }
    if UrlLanguage(s) {
      var rest :| NonSpaceRun(rest) && (s == "http://" + rest || s == "https://" + rest);
      if s == "http://" + rest {
        assert s[..7] == "http://" && s[7..] == rest;
      } else {
        assert s[..8] == "https://" && s[8..] == rest;
      }
    }
  }

  /** Sample inputs: a bare word and a missing name between the at-sign
      and the dot are rejected, spaces are rejected, a plain address
      passes; a scheme with nothing after it is rejected. */
  lemma PatternExamples()
    ensures !IsEmail("foo") && !IsEmail("a@.com") && !IsEmail("a b@c.d")
    ensures IsEmail("a@b.com")
    ensures IsHttpUrl("https://x.io") && IsHttpUrl("http://x")
    ensures !IsHttpUrl("https://") && !IsHttpUrl("ftp://x.io") && !IsHttpUrl("http:// x")
  {
    assert "a@b.com"[1] == '@' && "a@b.com"[3] == '.';
    assert IsSpace("a b@c.d"[1]);
    assert IsSpace("http:// x"[7]);
    assert "https://x.io"[..8] == "https://";
    assert "http://x"[..7] == "http://";
    assert "https://"[..7] != "http://" by {
      assert "https://"[4] == 's';
    }
    assert "ftp://x.io"[..7] != "http://" && "ftp://x.io"[..8] != "https://" by {
      assert "ftp://x.io"[0] == 'f';
    }
    assert "http:// x"[..8] != "https://" by {
      assert "http:// x"[4] == ':';
    }
  }

  // ---------------------------------------------------------------------
  // Experience: the number the text coerces to

  function DigitValue(c: char): (d: nat)
    requires IsDigit(c)
    ensures d < 10
  {
    (c as int) - ('0' as int)
  }

  function DigitChar(d: nat): (c: char)
    requires d < 10
    ensures IsDigit(c) && DigitValue(c) == d
  {
    ('0' as int + d) as char
  }

  /** The value of a string of decimal digits, most significant first. */
  function DigitsValue(s: string): nat
    requires AllDigits(s)
  {
    if |s| == 0 then 0 else 10 * DigitsValue(s[..|s| - 1]) + DigitValue(s[|s| - 1])
  }

  /** The number an experience text coerces to, for texts of the form
      `[+-]?[0-9]+`; `None` stands for every other text. */
  function ParseInt(s: string): (r: Option<int>)
    ensures r.Some? <==> DigitRun(s) || (|s| > 1 && (s[0] == '+' || s[0] == '-') && DigitRun(s[1..]))
    ensures r.Some? && |s| > 0 && s[0] == '-' ==> r.value <= 0
    ensures r.Some? && |s| > 0 && s[0] != '-' ==> r.value >= 0
  {
    if |s| > 1 && (s[0] == '+' || s[0] == '-') && DigitRun(s[1..]) then
      Some(if s[0] == '-' then -(DigitsValue(s[1..]) as int) else DigitsValue(s[1..]))
    else if DigitRun(s) then
      Some(DigitsValue(s))
    else
      None
  }

  predicate AllSpace(s: string) {
    forall k :: 0 <= k < |s| ==> IsSpace(s[k])
  }

  /** The text without its leading and trailing whitespace, as
      JavaScript's `String.prototype.trim` gives it. */
  function Trim(s: string): (t: string)
    ensures |t| <= |s|
    ensures t == "" || (!IsSpace(t[0]) && !IsSpace(t[|t| - 1]))
    decreases |s|
  {
    if |s| > 0 && IsSpace(s[0]) then Trim(s[1..])
    else if |s| > 0 && IsSpace(s[|s| - 1]) then Trim(s[..|s| - 1])
    else s
  }

  /** The number JavaScript's `Number` gives a text, for texts that are an
      integer literal with optional surrounding whitespace: whitespace
      around the literal is ignored and a text of whitespace only is zero.
      `None` stands for every other text. */
  function ToNumber(s: string): (r: Option<int>)
    ensures AllSpace(s) ==> r == Some(0)
    ensures ParseInt(s).Some? ==> r == ParseInt(s)
    ensures r.Some? ==>
      (AllSpace(s) || exists p, t, q :: AllSpace(p) && AllSpace(q) && s == p + t + q && ParseInt(t) == r)
  {
    var t := Trim(s);
    assert t == "" ==> AllSpace(s) by {
      if t == "" {
        TrimSplits(s);
        var p, q :| AllSpace(p) && AllSpace(q) && s == p + Trim(s) + q;
        assert s == p + q;
        AllSpaceConcat(p, q);
      }
    }
    assert exists p, q :: AllSpace(p) && AllSpace(q) && s == p + t + q by {
      TrimSplits(s);
    }
    assert AllSpace(s) ==> t == "" by {
      if AllSpace(s) {
        TrimAllSpace(s);
      }
    }
    assert ParseInt(s).Some? ==> t == s by {
      if ParseInt(s).Some? && !DigitRun(s) {
        assert s[|s| - 1] == s[1..][|s| - 2];
      }
    }
    if t == "" then Some(0) else ParseInt(t)
  }

  /** A text is its trimmed part with whitespace before and after it, so
      trimming removes whitespace from the two ends and nothing else. */
  lemma {:induction false} TrimSplits(s: string)
    ensures exists p, q :: AllSpace(p) && AllSpace(q) && s == p + Trim(s) + q
    decreases |s|
  {
    if |s| > 0 && IsSpace(s[0]) {
      var rest := s[1..];
      assert Trim(s) == Trim(rest);
      TrimSplits(rest);
      var p, q :| AllSpace(p) && AllSpace(q) && rest == p + Trim(rest) + q;
      SpaceBefore(s[0], p, Trim(rest), q);
      assert s == [s[0]] + rest;
    } else if |s| > 0 && IsSpace(s[|s| - 1]) {
      var rest := s[..|s| - 1];
      assert Trim(s) == Trim(rest);
      TrimSplits(rest);
      var p, q :| AllSpace(p) && AllSpace(q) && rest == p + Trim(rest) + q;
      SpaceAfter(p, Trim(rest), q, s[|s| - 1]);
      assert s == rest + [s[|s| - 1]];
    } else {
      assert s == [] + Trim(s) + [];
      assert AllSpace([]);
    }
  }

  /** One more whitespace character in front stays in the leading part. */
  lemma SpaceBefore(c: char, p: string, t: string, q: string)
    requires IsSpace(c) && AllSpace(p)
    ensures AllSpace([c] + p)
    ensures [c] + (p + t + q) == ([c] + p) + t + q
  {
    var p' := [c] + p;
    forall k | 0 <= k < |p'| ensures IsSpace(p'[k]) {
      if k > 0 {
        assert p'[k] == p[k - 1];
      }
    }
  }

  /** One more whitespace character behind stays in the trailing part. */
  lemma SpaceAfter(p: string, t: string, q: string, c: char)
    requires IsSpace(c) && AllSpace(q)
    ensures AllSpace(q + [c])
    ensures (p + t + q) + [c] == p + t + (q + [c])
  {
    var q' := q + [c];
    forall k | 0 <= k < |q'| ensures IsSpace(q'[k]) {
      if k < |q| {
        assert q'[k] == q[k];
      }
    }
  }

  lemma AllSpaceConcat(a: string, b: string)
    requires AllSpace(a) && AllSpace(b)
    ensures AllSpace(a + b)
  {
    forall k | 0 <= k < |a + b| ensures IsSpace((a + b)[k]) {
      if k >= |a| {
        assert (a + b)[k] == b[k - |a|];
      }
    }
  }

  lemma {:induction false} TrimAllSpace(s: string)
    requires AllSpace(s)
    ensures Trim(s) == ""
    decreases |s|
  {
    if s != "" {
      TrimAllSpace(s[1..]);
    }
  }

  /** Trimming ignores one whitespace character added in front. */
  lemma TrimSpaceFront(c: char, s: string)
    requires IsSpace(c)
    ensures Trim([c] + s) == Trim(s)
  {
    assert ([c] + s)[1..] == s;
  }

  /** Trimming ignores one whitespace character added at the end. */
  lemma {:induction false} TrimSpaceBack(s: string, c: char)
    requires IsSpace(c)
    ensures Trim(s + [c]) == Trim(s)
    decreases |s|
  {
    var u := s + [c];
    assert u[..|u| - 1] == s;
    if |s| > 0 && IsSpace(s[0]) {
      assert u[1..] == s[1..] + [c];
      TrimSpaceBack(s[1..], c);
    }
  }

  /** Trimming ignores whitespace added in front. */
  lemma {:induction false} TrimPaddedFront(p: string, s: string)
    requires AllSpace(p)
    ensures Trim(p + s) == Trim(s)
    decreases |p|
  {
    if p != "" {
      assert p + s == [p[0]] + (p[1..] + s);
      TrimSpaceFront(p[0], p[1..] + s);
      TrimPaddedFront(p[1..], s);
    } else {
      assert p + s == s;
    }
  }

  /** Trimming ignores whitespace added at the end. */
  lemma {:induction false} TrimPaddedBack(s: string, q: string)
    requires AllSpace(q)
    ensures Trim(s + q) == Trim(s)
    decreases |q|
  {
    if q != "" {
      var q' := q[..|q| - 1];
      assert s + q == (s + q') + [q[|q| - 1]];
      TrimSpaceBack(s + q', q[|q| - 1]);
      TrimPaddedBack(s, q');
    } else {
      assert s + q == s;
    }
  }

  /** Whitespace added around an experience text does not change the
      number it coerces to. */
  lemma ToNumberIgnoresPadding(p: string, s: string, q: string)
    requires AllSpace(p) && AllSpace(q)
    ensures ToNumber(p + s + q) == ToNumber(s)
  {
    TrimPaddedBack(p + s, q);
    TrimPaddedFront(p, s);
  }

  /** The canonical decimal text of a natural number, as a number input
      holds it. */
  function ShowNat(n: nat): (s: string)
    ensures DigitRun(s)
    ensures s[0] != '0' || n == 0
  {
    if n < 10 then [DigitChar(n)] else ShowNat(n / 10) + [DigitChar(n % 10)]
  }

  /** The canonical decimal text of an integer. */
  function Show(n: int): (s: string)
    ensures |s| > 0 && (s[0] == '-' <==> n < 0)
  {
    if n < 0 then "-" + ShowNat(-n) else ShowNat(n)
  }

  lemma {:induction false} ShowNatValue(n: nat)
    ensures DigitsValue(ShowNat(n)) == n
  {
    var s := ShowNat(n);
    if n >= 10 {
      ShowNatValue(n / 10);
      assert s[..|s| - 1] == ShowNat(n / 10);
    }
  }

  /** Reading back the canonical text of a number gives that number. */
  lemma ParseShow(n: int)
    ensures ParseInt(Show(n)) == Some(n)
  {
    if n < 0 {
      ShowNatValue(-n);
      assert Show(n)[1..] == ShowNat(-n);
    } else {
      ShowNatValue(n);
    }
  }

  lemma {:induction false} DigitsValueZero(s: string)
    requires AllDigits(s)
    ensures DigitsValue(s) == 0 <==> forall k :: 0 <= k < |s| ==> s[k] == '0'
  {
    if |s| > 0 {
      var init := s[..|s| - 1];
      DigitsValueZero(init);
      if DigitsValue(s) == 0 {
        forall k | 0 <= k < |s| ensures s[k] == '0' {
          if k < |s| - 1 {
            assert s[k] == init[k];
          }
        }
      }
    }
  }

  /** A coerced experience text is non-positive exactly when it carries a
      minus sign or its digits are all zeros. */
  lemma ParseIntNonPositive(s: string)
    requires ParseInt(s).Some?
    ensures ParseInt(s).value <= 0 <==>
      s[0] == '-' || forall k :: 0 <= k < |s| ==> s[k] == '0' || (k == 0 && s[0] == '+')
  {
    if |s| > 1 && (s[0] == '+' || s[0] == '-') && DigitRun(s[1..]) {
      var t := s[1..];
      DigitsValueZero(t);
      if s[0] == '+' {
        assert forall k :: 1 <= k < |s| ==> s[k] == t[k - 1];
      }
    } else {
      DigitsValueZero(s);
    }
  }
}
