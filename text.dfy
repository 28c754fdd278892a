/** The string built-ins the pages rely on, with JavaScript's semantics:
    String.prototype.trim, toLowerCase, includes, split on one character,
    replace of the first occurrence of a character, and decimal printing
    of a whole number inside a template literal. */
module Text {

  /** The code points that String.prototype.trim removes: WhiteSpace
      (tab, vertical tab, form feed, space, no-break space, byte order
      mark and the Unicode space separators) and LineTerminator. */
  predicate IsJsWhitespace(c: char) {
    || c == '\t' || c == '\n' || c == '\U{000B}' || c == '\U{000C}' || c == '\r'
    || c == ' ' || c == '\U{00A0}' || c == '\U{1680}'
    || ('\U{2000}' <= c <= '\U{200A}')
    || c == '\U{2028}' || c == '\U{2029}' || c == '\U{202F}' || c == '\U{205F}'
    || c == '\U{3000}' || c == '\U{FEFF}'
  }

  predicate AllWhitespace(s: string) {
    forall k :: 0 <= k < |s| ==> IsJsWhitespace(s[k])
  }

  /** Drops leading whitespace: the result is the suffix of `s` that starts
      at its first non-whitespace character. */
  function TrimStart(s: string): (r: string)
    ensures |r| <= |s| && r == s[|s| - |r|..]
    ensures AllWhitespace(s[..|s| - |r|])
    ensures r == [] || !IsJsWhitespace(r[0])
    decreases |s|
  {
    if |s| > 0 && IsJsWhitespace(s[0]) then TrimStart(s[1..]) else s
  }

  /** Drops trailing whitespace: the result is the prefix of `s` that ends
      at its last non-whitespace character. */
  function TrimEnd(s: string): (r: string)
    ensures |r| <= |s| && r == s[..|r|]
    ensures AllWhitespace(s[|r|..])
    ensures r == [] || !IsJsWhitespace(r[|r| - 1])
    decreases |s|
  {
    if |s| > 0 && IsJsWhitespace(s[|s| - 1]) then
      var r := TrimEnd(s[..|s| - 1]);
      assert r == s[..|r|] by {
        assert s[..|s| - 1][..|r|] == s[..|r|];
      }
      assert AllWhitespace(s[|r|..]) by {
        forall k | 0 <= k < |s| - |r| ensures IsJsWhitespace(s[|r|..][k]) {
          if |r| + k < |s| - 1 {
            assert s[|r|..][k] == s[..|s| - 1][|r|..][k];
          }
        }
      }
      r
    else
      s
  }

  /** String.prototype.trim. */
  function Trim(s: string): string {
    TrimEnd(TrimStart(s))
  }

  /** `s.trim()` is the slice of `s` between its leading and trailing
      whitespace, and it neither starts nor ends with whitespace. */
  lemma TrimIsInnerSlice(s: string)
    ensures exists i, j :: 0 <= i <= j <= |s| && Trim(s) == s[i..j]
                           && AllWhitespace(s[..i]) && AllWhitespace(s[j..])
    ensures Trim(s) == [] || (!IsJsWhitespace(Trim(s)[0]) && !IsJsWhitespace(Trim(s)[|Trim(s)| - 1]))
  {
    var i, j := TrimBounds(s);
  }

  /** The bounds of the slice that `trim()` keeps. */
  lemma TrimBounds(s: string) returns (i: int, j: int)
    ensures 0 <= i <= j <= |s| && Trim(s) == s[i..j]
    ensures AllWhitespace(s[..i]) && AllWhitespace(s[j..])
    ensures Trim(s) == [] || (!IsJsWhitespace(Trim(s)[0]) && !IsJsWhitespace(Trim(s)[|Trim(s)| - 1]))
  {
    var a := TrimStart(s);
    var b := TrimEnd(a);
    i := |s| - |a|;
    j := i + |b|;
    assert b == s[i..j] by {
      assert a == s[i..] && b == a[..|b|];
    }
    assert AllWhitespace(s[j..]) by {
      assert s[j..] == a[|b|..];
    }
    if b != [] {
      assert b[0] == a[0];
    }
  }

  /** A string trims to "" exactly when it is all whitespace (JavaScript's
      `!s.trim()`). */
  lemma TrimEmptyIff(s: string)
    ensures Trim(s) == [] <==> AllWhitespace(s)
  {
    var a := TrimStart(s);
    var i := |s| - |a|;
    if Trim(s) == [] {
      assert AllWhitespace(a[0..]);
      assert a == [];
      assert s[..i] == s;
    }
  }

  /** A string that neither starts nor ends with whitespace trims to
      itself. */
  lemma TrimKeepsUnpadded(t: string)
    requires |t| > 0 && !IsJsWhitespace(t[0]) && !IsJsWhitespace(t[|t| - 1])
    ensures Trim(t) == t
  {
    assert TrimStart(t) == t;
  }

  /** One whitespace character after an unpadded string is trimmed away. */
  lemma TrimDropsTrailingSpace(t: string, c: char)
    requires |t| > 0 && !IsJsWhitespace(t[0]) && !IsJsWhitespace(t[|t| - 1])
    requires IsJsWhitespace(c)
    ensures Trim(t + [c]) == t
  {
    var s := t + [c];
    assert s[0] == t[0];
    assert TrimStart(s) == s;
    assert s[..|s| - 1] == t;
    assert TrimEnd(t) == t;
  }

  /** Trimming twice is trimming once. */
  lemma TrimIdempotent(s: string)
    ensures Trim(Trim(s)) == Trim(s)
  {
    var t := Trim(s);
    TrimIsInnerSlice(s);
    if t != [] {
      assert TrimStart(t) == t;
      assert TrimEnd(t) == t;
    }
  }

  /** toLowerCase on one code point: ASCII A-Z and the Latin-1 capitals
      U+00C0..U+00DE (except the multiplication sign U+00D7) map to the
      letter 32 code points above; every other code point is unchanged. */
  function LowerChar(c: char): (r: char)
    ensures IsUpper(c) ==> r as int == c as int + 32
    ensures !IsUpper(c) ==> r == c
  {
    if IsUpper(c) then (c as int + 32) as char else c
  }

  predicate IsUpper(c: char) {
    ('A' <= c <= 'Z') || ('\U{00C0}' <= c <= '\U{00DE}' && c != '\U{00D7}')
  }

  /** String.prototype.toLowerCase, code point by code point. */
  function Lower(s: string): (r: string)
    ensures |r| == |s|
    ensures forall k :: 0 <= k < |s| ==> r[k] == LowerChar(s[k])
  {
    seq(|s|, k requires 0 <= k < |s| => LowerChar(s[k]))
  }

  /** Lower-casing is idempotent, so a lower-cased string contains no
      upper-case letter. */
  lemma LowerIdempotent(s: string)
    ensures Lower(Lower(s)) == Lower(s)
    ensures forall k :: 0 <= k < |s| ==> !IsUpper(Lower(s)[k])
  {
  }

  /** String.prototype.includes: `t` occurs in `s` at some position (the
      empty string occurs everywhere). */
  function Contains(s: string, t: string): bool
    decreases |s|
  {
    t <= s || (|s| > 0 && Contains(s[1..], t))
  }

  /** `t` occurs in `s` starting at position `i`. */
  predicate OccursAt(s: string, t: string, i: int) {
    0 <= i && i + |t| <= |s| && s[i..i + |t|] == t
  }

  /** An occurrence at position 0 is a prefix. */
  lemma OccursAtStart(s: string, t: string)
    ensures OccursAt(s, t, 0) <==> t <= s
  {
    if |t| <= |s| {
      assert s[0..|t|] == s[..|t|];
    }
  }

  /** `Contains` is the existence of an occurrence. */
  lemma {:induction false} ContainsIff(s: string, t: string)
    ensures Contains(s, t) <==> exists i :: OccursAt(s, t, i)
    decreases |s|
  {
    if t <= s {
      assert OccursAt(s, t, 0);
    } else if |s| == 0 {
    } else {
      // Since `t` is not a prefix, every occurrence is one in the tail.
      OccursAtStart(s, t);
      forall i | OccursAt(s, t, i) ensures OccursAt(s[1..], t, i - 1) {
        assert i != 0;
        var u := s[1..][i - 1..i - 1 + |t|];
        forall k | 0 <= k < |t| ensures u[k] == t[k] {
          assert u[k] == s[i + k] == s[i..i + |t|][k];
        }
        assert u == t;
      }
      ContainsIff(s[1..], t);
      if Contains(s[1..], t) {
        var i :| OccursAt(s[1..], t, i);
        var u := s[i + 1..i + 1 + |t|];
        forall k | 0 <= k < |t| ensures u[k] == t[k] {
          assert u[k] == s[1..][i + k] == s[1..][i..i + |t|][k];
        }
        assert u == t;
        assert OccursAt(s, t, i + 1);
      }
    }
  }

  /** Every string contains itself and the empty string. */
  lemma ContainsSelf(s: string)
    ensures Contains(s, s) && Contains(s, "")
  {
  }

  /** A witnessed occurrence makes `includes` true. */
  lemma OccursInside(s: string, t: string, i: nat)
    requires i + |t| <= |s| && s[i..i + |t|] == t
    ensures Contains(s, t)
  {
    assert OccursAt(s, t, i);
    ContainsIff(s, t);
  }

  /** A character of `t` missing from `s` rules `t` out of `s`. */
  lemma MissingCharRulesOut(s: string, t: string, c: char)
    requires c in t && c !in s
    ensures !Contains(s, t)
  {
    ContainsIff(s, t);
  }

  /** A string never includes a longer one. */
  lemma LongerRulesOut(s: string, t: string)
    requires |t| > |s|
    ensures !Contains(s, t)
  {
    ContainsIff(s, t);
  }

  /** A character that no upper-case letter lowers to, other than `upper`,
      stays out of the lower-cased form of a string holding neither it nor
      `upper`. */
  lemma LowerOmits(s: string, c: char, upper: char)
    requires c !in s && upper !in s
    requires forall d :: LowerChar(d) == c ==> d == c || d == upper
    ensures c !in Lower(s)
  {
  }

  /** Whatever includes `t` includes every slice of `t`. */
  lemma ContainsSlice(s: string, t: string, i: int, j: int)
    requires Contains(s, t) && 0 <= i <= j <= |t|
    ensures Contains(s, t[i..j])
  {
    ContainsIff(s, t);
    var p :| OccursAt(s, t, p);
    forall k | 0 <= k < j - i
      ensures s[p + i..p + j][k] == t[i..j][k]
    {
      assert s[p..p + |t|][i + k] == t[i + k];
    }
    assert OccursAt(s, t[i..j], p + i);
    ContainsIff(s, t[i..j]);
  }

  /** Lower-casing commutes with slicing. */
  lemma LowerSlice(s: string, i: int, j: int)
    requires 0 <= i <= j <= |s|
    ensures Lower(s[i..j]) == Lower(s)[i..j]
  {
  }

  /** The inverse of `Split`: the parts glued back with the separator. */
  function Join(parts: seq<string>, sep: char): string
    requires |parts| >= 1
    decreases |parts|
  {
    if |parts| == 1 then parts[0] else parts[0] + [sep] + Join(parts[1..], sep)
  }

  /** `s.split(sep)` for a one-character separator: at least one part, no
      part holds the separator, and joining the parts gives `s` back. */
  function Split(s: string, sep: char): (parts: seq<string>)
    ensures |parts| >= 1
    ensures forall k :: 0 <= k < |parts| ==> sep !in parts[k]
    ensures Join(parts, sep) == s
    decreases |s|
  {
    if |s| == 0 then [""]
    else
      var rest := Split(s[1..], sep);
      if s[0] == sep then [""] + rest
      else [[s[0]] + rest[0]] + rest[1..]
  }

  /** Splitting what `Join` built gives the parts back, when no part holds
      the separator: `Split` and `Join` are inverse bijections. */
  lemma {:induction false} SplitJoin(parts: seq<string>, sep: char)
    requires |parts| >= 1
    requires forall k :: 0 <= k < |parts| ==> sep !in parts[k]
    ensures Split(Join(parts, sep), sep) == parts
    decreases |parts|, |parts[0]|
  {
    var p := parts[0];
    if |parts| == 1 {
      if |p| > 0 {
        SplitJoin([p[1..]], sep);
        assert Join([p[1..]], sep) == p[1..];
      }
    } else if |p| == 0 {
      SplitJoin(parts[1..], sep);
      assert Join(parts, sep) == [sep] + Join(parts[1..], sep);
      assert Join(parts, sep)[1..] == Join(parts[1..], sep);
    } else {
      var shorter := [p[1..]] + parts[1..];
      SplitJoin(shorter, sep);
      assert shorter[1..] == parts[1..];
      assert Join(parts, sep) == [p[0]] + Join(shorter, sep);
      assert Join(parts, sep)[1..] == Join(shorter, sep);
      assert [p[0]] + p[1..] == p;
    }
  }

  /** The last part of `s.split(sep)`. */
  function LastPart(s: string, sep: char): string {
    var parts := Split(s, sep);
    parts[|parts| - 1]
  }

  /** Joining two or more parts puts a separator right after the first. */
  lemma SeparatorAfterFirstPart(parts: seq<string>, sep: char)
    requires |parts| > 1
    ensures |parts[0]| < |Join(parts, sep)| && Join(parts, sep)[|parts[0]|] == sep
  {
    assert Join(parts, sep) == parts[0] + [sep] + Join(parts[1..], sep);
  }

  /** How the last part of `s.split(sep)` relates to that of `s[1..]`: the
      same when `s` starts with `sep` or when `s[1..]` holds a `sep`, and
      all of `s` otherwise. */
  lemma LastPartStep(s: string, sep: char)
    requires |s| > 0
    ensures s[0] == sep || |Split(s[1..], sep)| > 1 ==> LastPart(s, sep) == LastPart(s[1..], sep)
    ensures s[0] != sep && |Split(s[1..], sep)| > 1 ==> sep in s[1..]
    ensures s[0] != sep && |Split(s[1..], sep)| == 1 ==> LastPart(s, sep) == s
  {
    var rest := Split(s[1..], sep);
    if s[0] != sep {
      if |rest| > 1 {
        SeparatorAfterFirstPart(rest, sep);
      } else {
        assert rest == [s[1..]];
        assert [s[0]] + s[1..] == s;
      }
    }
  }

  /** The last part of `s.split(sep)` is the text after the last `sep` of
      `s`, or all of `s` when `s` holds no `sep`. */
  lemma {:induction false} LastPartIsTextAfterLastSep(s: string, sep: char)
    ensures sep !in LastPart(s, sep)
    ensures |LastPart(s, sep)| <= |s| && LastPart(s, sep) == s[|s| - |LastPart(s, sep)|..]
    ensures sep in s ==> |LastPart(s, sep)| < |s| && s[|s| - |LastPart(s, sep)| - 1] == sep
    ensures sep !in s ==> LastPart(s, sep) == s
    decreases |s|
  {
    if |s| > 0 {
      var tail := s[1..];
      LastPartIsTextAfterLastSep(tail, sep);
      LastPartStep(s, sep);
      var last := LastPart(tail, sep);
      if s[0] == sep || |Split(tail, sep)| > 1 {
        assert s[|s| - |last|..] == tail[|tail| - |last|..];
        if s[0] != sep {
          assert s[|s| - |last| - 1] == tail[|tail| - |last| - 1];
        }
      }
    }
  }

  /** `s.indexOf(c)`: the position of the first `c`, or -1 when absent. */
  function IndexOf(s: string, c: char): (i: int)
    ensures c !in s ==> i == -1
    ensures c in s ==> 0 <= i < |s| && s[i] == c && c !in s[..i]
    decreases |s|
  {
    if |s| == 0 then -1
    else if s[0] == c then 0
    else
      var j := IndexOf(s[1..], c);
      assert c in s ==> c in s[1..];
      if j < 0 then -1 else j + 1
  }

  /** `s.replace(c, "")` with a one-character pattern: only the FIRST
      occurrence of `c` is removed. */
  function RemoveFirst(s: string, c: char): (r: string)
    ensures c !in s ==> r == s
    ensures c in s ==> |r| == |s| - 1
    ensures c in s ==> exists i :: 0 <= i < |s| && s[i] == c && c !in s[..i] && r == s[..i] + s[i + 1..]
  {
    var i := IndexOf(s, c);
    if i < 0 then s else s[..i] + s[i + 1..]
  }

  function DigitChar(d: nat): char
    requires d < 10
  {
    ('0' as int + d) as char
  }

  /** A whole number printed in decimal, as in a template literal. */
  function NatToString(n: nat): (r: string)
    ensures |r| >= 1
    ensures forall k :: 0 <= k < |r| ==> '0' <= r[k] <= '9'
    decreases n
  {
    if n < 10 then [DigitChar(n)] else NatToString(n / 10) + [DigitChar(n % 10)]
  }

  /** Decimal digits read back as a number. */
  function ParseNat(s: string): nat
    decreases |s|
  {
    if |s| == 0 then 0
    else
      var d := s[|s| - 1] as int - '0' as int;
      ParseNat(s[..|s| - 1]) * 10 + (if 0 <= d < 10 then d else 0)
  }

  /** Reading the printed number back gives the number: the decimal text
      loses nothing. */
  lemma {:induction false} ParsePrinted(n: nat)
    ensures ParseNat(NatToString(n)) == n
    decreases n
  {
    var r := NatToString(n);
    if n >= 10 {
      ParsePrinted(n / 10);
      assert r[..|r| - 1] == NatToString(n / 10);
    }
  }
}
