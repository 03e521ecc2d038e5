/** String operations the schemas and validators rely on: JavaScript's
    whitespace class (shared by `String.prototype.trim` and by the regular
    expression classes `\s` / `\S`), trimming, lower-casing and the e-mail
    pattern `^\S+@\S+\.\S+$`. */
module Text {

  /** JavaScript's WhiteSpace and LineTerminator characters. */
  predicate IsWhite(c: char)
  {
    || c == ' ' || c == '\t' || c == '\n' || c == '\U{B}' || c == '\U{C}' || c == '\r'
    || c == '\U{A0}' || c == '\U{1680}' || ('\U{2000}' <= c <= '\U{200A}')
    || c == '\U{2028}' || c == '\U{2029}' || c == '\U{202F}' || c == '\U{205F}'
    || c == '\U{3000}' || c == '\U{FEFF}'
  }

  predicate AllWhite(s: string)
  {
    forall k :: 0 <= k < |s| ==> IsWhite(s[k])
  }

  /** Every character is matched by `\S`. */
  predicate NoWhite(s: string)
  {
    forall k :: 0 <= k < |s| ==> !IsWhite(s[k])
  }

  /** A string with no whitespace at either end. */
  predicate IsTrimmed(s: string)
  {
    s == [] || (!IsWhite(s[0]) && !IsWhite(s[|s| - 1]))
  }

  /** Length of the leading run of whitespace. */
  function LeadingWhite(s: string): (n: nat)
    ensures n <= |s|
    ensures AllWhite(s[..n])
    ensures n < |s| ==> !IsWhite(s[n])
  {
    if |s| == 0 || !IsWhite(s[0]) then 0 else 1 + LeadingWhite(s[1..])
  }

  /** Length of the trailing run of whitespace. */
  function TrailingWhite(s: string): (n: nat)
    ensures n <= |s|
    ensures AllWhite(s[|s| - n..])
    ensures n < |s| ==> !IsWhite(s[|s| - n - 1])
  {
    if |s| == 0 || !IsWhite(s[|s| - 1]) then 0
    else
      var t := s[..|s| - 1];
      var m := TrailingWhite(t);
      TrailingStep(s, m);
      assert m < |t| ==> s[|s| - m - 2] == t[|t| - m - 1];
      m + 1
  }

  /** A whitespace run at the end of all but the last character, which is
      itself whitespace, grows by one. */
  lemma TrailingStep(s: string, m: nat)
    requires |s| > 0 && IsWhite(s[|s| - 1]) && m <= |s| - 1
    requires AllWhite(s[..|s| - 1][|s| - 1 - m..])
    ensures AllWhite(s[|s| - (m + 1)..])
  {
    var t := s[..|s| - 1];
    var u := s[|s| - (m + 1)..];
    forall k | 0 <= k < |u| ensures IsWhite(u[k]) {
      if k < m {
        assert u[k] == t[|t| - m..][k];
      }
    }
  }

  /** `s.trim()`: the string with its whitespace removed from both ends. */
  function Trim(s: string): (r: string)
    ensures IsTrimmed(r)
    ensures |r| <= |s|
  {
    var i := LeadingWhite(s);
    var t := s[i..];
    var j := TrailingWhite(t);
    var r := t[..|t| - j];
    assert r != [] ==> r[0] == s[i] && r[|r| - 1] == t[|t| - j - 1];
    r
  }

  /** What trimming removes is whitespace on either side of the result. */
  lemma TrimIsCore(s: string)
    ensures exists i :: 0 <= i <= |s| - |Trim(s)| && Trim(s) == s[i..i + |Trim(s)|]
                        && AllWhite(s[..i]) && AllWhite(s[i + |Trim(s)|..])
  {
    var i := LeadingWhite(s);
    var t := s[i..];
    var j := TrailingWhite(t);
    var r := t[..|t| - j];
    assert r == Trim(s);
    assert r == s[i..i + |r|];
    assert s[i + |r|..] == t[|t| - j..];
    assert 0 <= i <= |s| - |r| && AllWhite(s[..i]) && AllWhite(s[i + |r|..]);
  }

  /** Trimming is determined by its characterisation: a trimmed core with
      whitespace on either side trims to that core. */
  lemma {:induction false} TrimOfPadded(left: string, core: string, right: string)
    requires AllWhite(left) && AllWhite(right) && IsTrimmed(core)
    ensures Trim(left + core + right) == core
  {
    var s := left + core + right;
    if core == [] {
      assert s == left + right + [];
      LeadingOfPadded(s, []);
    } else {
      LeadingOfPadded(left, core + right);
      assert s == left + (core + right);
      assert s[LeadingWhite(s)..] == core + right;
      TrailingOfPadded(core, right);
    }
  }

  lemma {:induction false} LeadingOfPadded(left: string, rest: string)
    requires AllWhite(left)
    requires rest == [] || !IsWhite(rest[0])
    ensures LeadingWhite(left + rest) == |left|
  {
    if left != [] {
      assert (left + rest)[1..] == left[1..] + rest;
      LeadingOfPadded(left[1..], rest);
    }
  }

  lemma {:induction false} TrailingOfPadded(rest: string, right: string)
    requires AllWhite(right)
    requires rest == [] || !IsWhite(rest[|rest| - 1])
    ensures TrailingWhite(rest + right) == |right|
  {
    if right != [] {
      var s := rest + right;
      assert s[..|s| - 1] == rest + right[..|right| - 1];
      TrailingOfPadded(rest, right[..|right| - 1]);
    }
  }

  /** Text with no whitespace at either end is left as it is. */
  lemma TrimOfTrimmed(s: string)
    requires IsTrimmed(s)
    ensures Trim(s) == s
  {
    TrimOfPadded([], s, []);
    assert [] + s + [] == s;
  }

  /** Trimming twice is trimming once, so a value the route validator has
      already trimmed is stored unchanged by the schema's own `trim`. */
  lemma TrimIdempotent(s: string)
    ensures Trim(Trim(s)) == Trim(s)
  {
    var r := Trim(s);
    assert r == [] + r + [];
    TrimOfPadded([], r, []);
  }

  // ----- lengths -----

  /** The UTF-16 code units of a character: two for one outside the Basic
      Multilingual Plane, which JavaScript stores as a surrogate pair. */
  function Utf16Units(c: char): (n: nat)
    ensures n == 1 || n == 2
  {
    if c as int >= 0x1_0000 then 2 else 1
  }

  /** `s.length` in JavaScript, which Mongoose's `minlength` and
      `maxlength` validators compare. */
  function Utf16Length(s: string): (n: nat)
    ensures |s| <= n <= 2 * |s|
  {
    if s == [] then 0 else Utf16Units(s[0]) + Utf16Length(s[1..])
  }

  /** The variation selectors U+FE0E and U+FE0F. */
  predicate IsPresentationSelector(c: char)
  {
    c == '\U{FE0E}' || c == '\U{FE0F}'
  }

  /** The length the validator library's `isLength` compares: the code
      points of `s`, a surrogate pair counting once, without the variation
      selectors. */
  function ValidatorLength(s: string): (n: nat)
    ensures n <= |s|
  {
    if s == [] then 0
    else (if IsPresentationSelector(s[0]) then 0 else 1) + ValidatorLength(s[1..])
  }

  /** Text on which the two measures agree: no character outside the Basic
      Multilingual Plane and no variation selector. */
  predicate PlainText(s: string)
  {
    forall k :: 0 <= k < |s| ==> s[k] as int < 0x1_0000 && !IsPresentationSelector(s[k])
  }

  /** On plain text both measures are the number of characters. */
  lemma {:induction false} PlainLengths(s: string)
    requires PlainText(s)
    ensures Utf16Length(s) == |s| && ValidatorLength(s) == |s|
  {
    if s != [] {
      assert PlainText(s[1..]) by {
        forall k | 0 <= k < |s[1..]| ensures s[1..][k] as int < 0x1_0000 && !IsPresentationSelector(s[1..][k]) {
          assert s[1..][k] == s[k + 1];
        }
      }
      PlainLengths(s[1..]);
    }
  }

  /** `n` copies of one character. */
  lemma {:induction false} RepeatedLengths(c: char, n: nat)
    ensures Utf16Length(seq(n, _ => c)) == n * Utf16Units(c)
    ensures ValidatorLength(seq(n, _ => c)) == if IsPresentationSelector(c) then 0 else n
  {
    var s := seq(n, _ => c);
    if n > 0 {
      RepeatedLengths(c, n - 1);
      assert s[1..] == seq(n - 1, _ => c);
    }
  }

  /** Trimming keeps text plain: the result is a part of the input. */
  lemma TrimKeepsPlain(s: string)
    requires PlainText(s)
    ensures PlainText(Trim(s))
  {
    var i := LeadingWhite(s);
    var t := s[i..];
    var r := t[..|t| - TrailingWhite(t)];
    assert r == Trim(s);
    forall k | 0 <= k < |r| ensures r[k] as int < 0x1_0000 && !IsPresentationSelector(r[k]) {
      assert r[k] == s[i + k];
    }
  }

  // ----- UTF-8 -----

  /** The UTF-8 encoding of one character, as byte values. */
  function Utf8Char(c: char): (b: seq<int>)
    ensures 1 <= |b| <= 4
    ensures forall k :: 0 <= k < |b| ==> 0 <= b[k] < 256
  {
    var v := c as int;
    if v < 0x80 then [v]
    else if v < 0x800 then [0xC0 + v / 64, 0x80 + v % 64]
    else if v < 0x1_0000 then [0xE0 + v / 4096, 0x80 + (v / 64) % 64, 0x80 + v % 64]
    else [0xF0 + v / 262144, 0x80 + (v / 4096) % 64, 0x80 + (v / 64) % 64, 0x80 + v % 64]
  }

  /** The UTF-8 encoding of a string. */
  function Utf8(s: string): (b: seq<int>)
    ensures |s| <= |b| <= 4 * |s|
  {
    if s == [] then [] else Utf8Char(s[0]) + Utf8(s[1..])
  }

  /** The number of bytes a sequence starting with `lead` gives its first
      character. */
  function LeadWidth(lead: int): nat
  {
    if lead < 0x80 then 1 else if lead < 0xE0 then 2 else if lead < 0xF0 then 3 else 4
  }

  lemma Utf8CharShape(c: char)
    ensures LeadWidth(Utf8Char(c)[0]) == |Utf8Char(c)|
    ensures |Utf8Char(c)| == 1 <==> c as int < 0x80
  {
  }

  /** Reads back the code point of one encoded character. */
  function DecodeChar(b: seq<int>): int
    requires 1 <= |b| <= 4
  {
    if |b| == 1 then b[0]
    else if |b| == 2 then (b[0] - 0xC0) * 64 + (b[1] - 0x80)
    else if |b| == 3 then ((b[0] - 0xE0) * 64 + (b[1] - 0x80)) * 64 + (b[2] - 0x80)
    else (((b[0] - 0xF0) * 64 + (b[1] - 0x80)) * 64 + (b[2] - 0x80)) * 64 + (b[3] - 0x80)
  }

  lemma SplitSix(v: int)
    requires v >= 0
    ensures v == (v / 64) * 64 + v % 64
  {
  }

  /** Decoding inverts the encoding of a character. */
  lemma DecodeEncodedChar(c: char)
    ensures DecodeChar(Utf8Char(c)) == c as int
  {
    var v := c as int;
    SplitSix(v);
    SplitSix(v / 64);
    SplitSix(v / 4096);
    assert v / 64 / 64 == v / 4096;
    assert v / 4096 / 64 == v / 262144;
  }

  /** Distinct characters have distinct encodings. */
  lemma Utf8CharInjective(c: char, d: char)
    requires Utf8Char(c) == Utf8Char(d)
    ensures c == d
  {
    DecodeEncodedChar(c);
    DecodeEncodedChar(d);
  }

  /** Encoding commutes with concatenation. */
  lemma {:induction false} Utf8Append(a: string, b: string)
    ensures Utf8(a + b) == Utf8(a) + Utf8(b)
  {
    if a != [] {
      assert (a + b)[0] == a[0] && (a + b)[1..] == a[1..] + b;
      Utf8Append(a[1..], b);
      calc {
        Utf8(a + b);
        Utf8Char(a[0]) + Utf8(a[1..] + b);
        Utf8Char(a[0]) + (Utf8(a[1..]) + Utf8(b));
        (Utf8Char(a[0]) + Utf8(a[1..])) + Utf8(b);
      }
    } else {
      assert a + b == b;
    }
  }

  /** UTF-8 is a code: equal encodings come from equal strings. */
  lemma {:induction false} Utf8Injective(s: string, t: string)
    requires Utf8(s) == Utf8(t)
    ensures s == t
  {
    if s != [] && t != [] {
      var b, e := Utf8Char(s[0]), Utf8Char(t[0]);
      Utf8CharShape(s[0]);
      Utf8CharShape(t[0]);
      assert Utf8(s) == b + Utf8(s[1..]) && Utf8(t) == e + Utf8(t[1..]);
      assert b[0] == Utf8(s)[0] == e[0];
      assert |b| == |e|;
      assert b == Utf8(s)[..|b|] == e;
      Utf8CharInjective(s[0], t[0]);
      assert Utf8(s[1..]) == Utf8(s)[|b|..] == Utf8(t[1..]);
      Utf8Injective(s[1..], t[1..]);
      assert s == [s[0]] + s[1..] && t == [t[0]] + t[1..];
    }
  }

  /** ASCII lower-casing. */
  function LowerChar(c: char): (d: char)
  {
    if 'A' <= c <= 'Z' then (c as int + 32) as char else c
  }

  /** `s.toLowerCase()`, restricted to the ASCII letters. */
  function ToLower(s: string): (r: string)
    ensures |r| == |s|
    ensures forall k :: 0 <= k < |s| ==> r[k] == LowerChar(s[k])
    ensures forall k :: 0 <= k < |r| ==> !('A' <= r[k] <= 'Z')
  {
    seq(|s|, k requires 0 <= k < |s| => LowerChar(s[k]))
  }

  /** Lower-casing keeps the whitespace class of every character, so it
      commutes with trimming. */
  lemma LowerKeepsWhite(c: char)
    ensures IsWhite(LowerChar(c)) == IsWhite(c)
  {
  }

  /** `^\S+@\S+\.\S+$` as the regular expression reads: three non-empty
      runs of non-whitespace characters joined by an `@` and a `.`. */
  ghost predicate MatchesEmailPattern(s: string)
  {
    exists a: string, b: string, c: string ::
      (&& s == a + "@" + b + "." + c
       && a != [] && b != [] && c != []
       && NoWhite(a) && NoWhite(b) && NoWhite(c))
  }

  /** Index of the first occurrence of `c` at or after `from`, if any. */
  function IndexFrom(s: string, c: char, from: nat): (r: nat)
    requires from <= |s|
    decreases |s| - from
    ensures from <= r <= |s|
    ensures r < |s| ==> s[r] == c
    ensures forall k :: from <= k < r ==> s[k] != c
  {
    if from == |s| then |s| else if s[from] == c then from else IndexFrom(s, c, from + 1)
  }

  /** Index of the last occurrence of `c` before `upto`, or -1. */
  function LastIndexBefore(s: string, c: char, upto: nat): (r: int)
    requires upto <= |s|
    ensures -1 <= r < upto
    ensures r >= 0 ==> s[r] == c
    ensures forall k :: r < k < upto ==> s[k] != c
  {
    if upto == 0 then -1 else if s[upto - 1] == c then upto - 1 else LastIndexBefore(s, c, upto - 1)
  }

  /** The e-mail check: every character is non-whitespace, and the first
      `@` that is not the first character is followed, at least one
      character later, by a `.` that is not the last character. */
  function IsEmail(s: string): bool
  {
    && |s| >= 5 && NoWhite(s)
    && var i := IndexFrom(s, '@', 1);
       i < |s| && i + 2 <= LastIndexBefore(s, '.', |s| - 1)
  }

  /** The check accepts exactly the strings the pattern matches. */
  lemma IsEmailMatchesPattern(s: string)
    ensures IsEmail(s) <==> MatchesEmailPattern(s)
  {
    EmailShape(s);
    if IsEmail(s) {
      EmailFromIndices(s, IndexFrom(s, '@', 1), LastIndexBefore(s, '.', |s| - 1));
    }
  }

  /** What a match says about the positions of `@` and `.`. */
  lemma EmailShape(s: string)
    ensures MatchesEmailPattern(s) ==>
      && |s| >= 5 && NoWhite(s)
      && exists m, n :: 1 <= m && m + 2 <= n && n + 2 <= |s| && s[m] == '@' && s[n] == '.'
  {
    if MatchesEmailPattern(s) {
      var a: string, b: string, c: string :| s == a + "@" + b + "." + c
        && a != [] && b != [] && c != []
        && NoWhite(a) && NoWhite(b) && NoWhite(c);
      var m, n := |a|, |a| + 1 + |b|;
      assert s[m] == '@' && s[n] == '.';
      forall k | 0 <= k < |s| ensures !IsWhite(s[k]) {
        if k < m { assert s[k] == a[k]; }
        else if k == m || k == n { }
        else if k < n { assert s[k] == b[k - m - 1]; }
        else { assert s[k] == c[k - n - 1]; }
      }
    }
  }

  /** A match built from an `@` at `m` and a `.` at `n`. */
  lemma EmailFromIndices(s: string, m: nat, n: nat)
    requires NoWhite(s)
    requires 1 <= m && m + 2 <= n && n + 2 <= |s| && s[m] == '@' && s[n] == '.'
    ensures MatchesEmailPattern(s)
  {
    var a, b, c := s[..m], s[m + 1..n], s[n + 1..];
    assert s == a + "@" + b + "." + c;
    assert NoWhite(a) && NoWhite(b) && NoWhite(c);
  }
}
