/** String primitives of the host language that the patch code relies on. */
module Text {
  /** `s.split(sep)` for a one-character separator. */
  function Split(s: string, sep: char): (parts: seq<string>)
    ensures |parts| >= 1
    ensures forall p <- parts :: sep !in p
  {
    if s == "" then [""]
    else
      var rest := Split(s[1..], sep);
      if s[0] == sep then [""] + rest else [[s[0]] + rest[0]] + rest[1..]
  }

  /** `parts.join(sep)`. */
  function Join(parts: seq<string>, sep: string): string {
    if |parts| == 0 then ""
    else if |parts| == 1 then parts[0]
    else parts[0] + sep + Join(parts[1..], sep)
  }

  /** `s.includes(needle)`. */
  predicate Includes(s: string, needle: string) {
    needle <= s || (s != "" && Includes(s[1..], needle))
  }

  lemma {:induction false} JoinSplit(s: string, sep: char)
    ensures Join(Split(s, sep), [sep]) == s
  {
    if s != "" {
      JoinSplit(s[1..], sep);
      var rest := Split(s[1..], sep);
      var parts := Split(s, sep);
      if s[0] == sep {
        assert parts[1..] == rest;
      } else {
        assert parts[1..] == rest[1..];
        assert s == [s[0]] + s[1..];
      }
    }
  }

  lemma {:induction false} SplitPiece(p: string, sep: char)
    requires sep !in p
    ensures Split(p, sep) == [p]
  {
    if p != "" {
      SplitPiece(p[1..], sep);
      assert p == [p[0]] + p[1..];
    }
  }

  lemma {:induction false} SplitAppend(p: string, s: string, sep: char)
    requires sep !in p
    ensures Split(p + [sep] + s, sep) == [p] + Split(s, sep)
  {
    if p == "" {
      assert ("" + [sep] + s)[1..] == s;
    } else {
      var whole := p + [sep] + s;
      assert whole[1..] == p[1..] + [sep] + s;
      SplitAppend(p[1..], s, sep);
      assert p == [p[0]] + p[1..];
    }
  }

  lemma {:induction false} SplitJoin(parts: seq<string>, sep: char)
    requires |parts| >= 1
    requires forall p <- parts :: sep !in p
    ensures Split(Join(parts, [sep]), sep) == parts
  {
    if |parts| == 1 {
      SplitPiece(parts[0], sep);
    } else {
      SplitJoin(parts[1..], sep);
      SplitAppend(parts[0], Join(parts[1..], [sep]), sep);
    }
  }

  lemma {:induction false} JoinAppend(parts: seq<string>, tail: seq<string>, sep: string)
    requires |parts| >= 1 && |tail| >= 1
    ensures Join(parts + tail, sep) == Join(parts, sep) + sep + Join(tail, sep)
  {
    if |parts| == 1 {
      assert (parts + tail)[1..] == tail;
    } else {
      assert (parts + tail)[1..] == parts[1..] + tail;
      JoinAppend(parts[1..], tail, sep);
    }
  }

  lemma SegmentPrefix(n: string, p: string)
    ensures p == n || n + "/" <= p <==> Split(n, '/') <= Split(p, '/')
  {
    hide Split, Join;
    var a, b := Split(n, '/'), Split(p, '/');
    JoinSplit(n, '/');
    JoinSplit(p, '/');
    if n + "/" <= p {
      var rest := p[|n| + 1..];
      assert p == n + "/" + rest;
      SplitConcat(n, rest);
    }
    if a <= b && a != b {
      var tail := b[|a|..];
      assert b == a + tail;
      JoinAppend(a, tail, "/");
    }
  }

  lemma {:induction false} SplitConcat(n: string, rest: string)
    ensures Split(n + "/" + rest, '/') == Split(n, '/') + Split(rest, '/')
  {
    if n == "" {
      assert (n + "/" + rest)[1..] == rest;
    } else {
      assert (n + "/" + rest)[1..] == n[1..] + "/" + rest;
      SplitConcat(n[1..], rest);
    }
  }

  // Decimal numerals.

  predicate IsDigit(c: char) { '0' <= c <= '9' }

  predicate AllDigits(s: string) { forall c <- s :: IsDigit(c) }

  function Digits(n: nat): (s: string)
    ensures |s| >= 1 && AllDigits(s)
  {
    if n < 10 then ["0123456789"[n]] else Digits(n / 10) + ["0123456789"[n % 10]]
  }

  function DigitsValue(s: string): nat
    requires AllDigits(s)
  {
    if s == "" then 0
    else
      var last := s[|s| - 1];
      assert IsDigit(last);
      10 * DigitsValue(s[..|s| - 1]) + (last as int - '0' as int)
  }

  lemma {:induction false} DigitsRoundTrip(n: nat)
    ensures DigitsValue(Digits(n)) == n
  {
    var s := Digits(n);
    if n < 10 {
      assert s[..|s| - 1] == "";
    } else {
      DigitsRoundTrip(n / 10);
      assert s[..|s| - 1] == Digits(n / 10);
    }
  }

  /** Length of the longest prefix made of digits. */
  function DigitRun(s: string): (k: nat)
    ensures k <= |s| && AllDigits(s[..k])
    ensures k < |s| ==> !IsDigit(s[k])
  {
    if s == "" || !IsDigit(s[0]) then 0
    else
      var k := DigitRun(s[1..]);
      assert s[..k + 1] == [s[0]] + s[1..][..k];
      k + 1
  }

  lemma {:induction false} DigitRunOf(digits: string, rest: string)
    requires AllDigits(digits)
    requires rest == "" || !IsDigit(rest[0])
    ensures DigitRun(digits + rest) == |digits|
  {
    if digits == "" {
      assert digits + rest == rest;
    } else {
      assert (digits + rest)[1..] == digits[1..] + rest;
      DigitRunOf(digits[1..], rest);
    }
  }

  /** The characters that `.` does not match in a regular expression. */
  predicate IsLineTerminator(c: char) { c == '\n' || c == '\r' || c == '\U{2028}' || c == '\U{2029}' }

  predicate OneLine(s: string) { forall c <- s :: !IsLineTerminator(c) }

  /** The characters removed by `trim`. */
  predicate IsSpace(c: char) {
    IsLineTerminator(c) || c in "\t\U{000B}\U{000C} \U{00A0}\U{1680}\U{202F}\U{205F}\U{3000}\U{FEFF}"
    || '\U{2000}' <= c <= '\U{200A}'
  }

  predicate IsBlank(s: string) { forall c <- s :: IsSpace(c) }

  /** `s.replace(/\r\n/g, '\n')`. */
  function UnixNewlines(s: string): string {
    if s == "" then ""
    else if "\r\n" <= s then "\n" + UnixNewlines(s[2..])
    else [s[0]] + UnixNewlines(s[1..])
  }

  lemma {:induction false} UnixNewlinesStable(s: string)
    requires !Includes(s, "\r\n")
    ensures UnixNewlines(s) == s
  {
    if s != "" {
      UnixNewlinesStable(s[1..]);
      assert s == [s[0]] + s[1..];
    }
  }

  /** The text with Windows line ends. */
  function CrLf(s: string): string {
    if s == "" then "" else (if s[0] == '\n' then "\r\n" else [s[0]]) + CrLf(s[1..])
  }

  lemma {:induction false} UnixOfCrLf(s: string)
    ensures UnixNewlines(CrLf(s)) == s
  {
    if s != "" {
      UnixOfCrLf(s[1..]);
      var c := CrLf(s);
      if s[0] == '\n' {
        assert "\r\n" <= c && c[2..] == CrLf(s[1..]);
      } else {
        assert c[0] == s[0] && c[1..] == CrLf(s[1..]);
        if "\r\n" <= c {
          assert c[1] == '\n' && CrLf(s[1..])[0] == '\n';
          CrLfStart(s[1..]);
        }
      }
      assert s == [s[0]] + s[1..];
    }
  }

  /** No line end is left bare. */
  lemma CrLfStart(s: string)
    ensures CrLf(s) != "" ==> s != "" && CrLf(s)[0] != '\n'
    ensures CrLf(s) == "" <==> s == ""
  {
  }

  lemma {:induction false} PrefixOfCrLf(s: string, needle: string)
    requires '\n' !in needle && '\r' !in needle
    ensures needle <= CrLf(s) <==> needle <= s
  {
    if needle != "" && s != "" {
      assert needle[0] in needle;
      if s[0] == '\n' {
        assert CrLf(s)[0] == '\r';
      } else {
        PrefixOfCrLf(s[1..], needle[1..]);
        assert CrLf(s)[0] == s[0] && CrLf(s)[1..] == CrLf(s[1..]);
        PrefixStep(needle, CrLf(s));
        PrefixStep(needle, s);
      }
    }
  }

  lemma PrefixStep(needle: string, s: string)
    requires needle != "" && s != ""
    ensures needle <= s <==> needle[0] == s[0] && needle[1..] <= s[1..]
  {
    if needle[0] == s[0] && needle[1..] <= s[1..] {
      assert needle == [needle[0]] + needle[1..] && s == [s[0]] + s[1..];
      forall i | 0 <= i < |needle| ensures needle[i] == s[i] {
        if i > 0 { assert needle[1..][i - 1] == s[1..][i - 1]; }
      }
    }
    if needle <= s { assert needle[1..] == s[1..|needle|]; }
  }

  lemma {:induction false} IncludesInCrLf(s: string, needle: string)
    requires needle != "" && '\n' !in needle && '\r' !in needle
    ensures Includes(CrLf(s), needle) <==> Includes(s, needle)
  {
    PrefixOfCrLf(s, needle);
    if s != "" {
      IncludesInCrLf(s[1..], needle);
      var c := CrLf(s);
      assert needle[0] in needle;
      if s[0] == '\n' {
        assert c[1..][1..] == CrLf(s[1..]) && c[0] == '\r' && c[1..][0] == '\n';
        assert !(needle <= c) && !(needle <= c[1..]);
      } else {
        assert c[1..] == CrLf(s[1..]);
      }
    }
  }

  lemma {:induction false} CharsOfCrLf(s: string)
    ensures forall c :: c in CrLf(s) <==> c in s || (c == '\r' && '\n' in s)
  {
    if s != "" {
      CharsOfCrLf(s[1..]);
      assert s == [s[0]] + s[1..];
    }
  }
}
