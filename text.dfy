/**
 * The JavaScript string operations the components rely on: `split`, `trim`, `includes`,
 * `startsWith`, the `<` order on strings, `parseInt` and number-to-string conversion.
 * Strings are sequences of characters.
 */
module Text {
  import opened Opt

  // ---------------------------------------------------------------- split and join

  /** `s.split(sep)` for a one-character separator: the pieces between separators, empty ones included. */
  function Split(s: string, sep: char): (parts: seq<string>)
    ensures |parts| >= 1
    ensures forall i :: 0 <= i < |parts| ==> sep !in parts[i]
  {
    if s == [] then [""]
    else
      var rest := Split(s[1..], sep);
      if s[0] == sep then [""] + rest
      else [[s[0]] + rest[0]] + rest[1..]
  }

  /** `parts.join(sep)`, the inverse of `Split`. */
  function Join(parts: seq<string>, sep: char): string
    requires |parts| >= 1
  {
    if |parts| == 1 then parts[0] else parts[0] + [sep] + Join(parts[1..], sep)
  }

  lemma {:induction false} JoinSplit(s: string, sep: char)
    ensures Join(Split(s, sep), sep) == s
  {
    if s != [] {
      var rest := Split(s[1..], sep);
      JoinSplit(s[1..], sep);
      if s[0] == sep {
        assert Split(s, sep)[1..] == rest;
      } else {
        var parts := Split(s, sep);
        assert parts[1..] == rest[1..];
        if |rest| == 1 {
          assert Join(parts, sep) == [s[0]] + rest[0];
        } else {
          assert Join(rest, sep) == rest[0] + [sep] + Join(rest[1..], sep);
        }
      }
      assert s == [s[0]] + s[1..];
    }
  }

  /** A string without the separator is a single piece. */
  lemma {:induction false} SplitWithoutSeparator(s: string, sep: char)
    requires sep !in s
    ensures Split(s, sep) == [s]
  {
    if s != [] {
      SplitWithoutSeparator(s[1..], sep);
      assert s == [s[0]] + s[1..];
    }
  }

  /** A separator between two strings splits their pieces apart. */
  lemma {:induction false} SplitAround(p: string, q: string, sep: char)
    ensures Split(p + [sep] + q, sep) == Split(p, sep) + Split(q, sep)
  {
    if p == [] {
      assert p + [sep] + q == [sep] + q;
      assert ([sep] + q)[1..] == q;
    } else {
      assert (p + [sep] + q)[1..] == p[1..] + [sep] + q;
      SplitAround(p[1..], q, sep);
    }
  }

  lemma {:induction false} SplitJoin(parts: seq<string>, sep: char)
    requires |parts| >= 1
    requires forall i :: 0 <= i < |parts| ==> sep !in parts[i]
    ensures Split(Join(parts, sep), sep) == parts
  {
    SplitWithoutSeparator(parts[0], sep);
    if |parts| > 1 {
      SplitJoin(parts[1..], sep);
      SplitAround(parts[0], Join(parts[1..], sep), sep);
      assert parts == [parts[0]] + parts[1..];
    }
  }

  /** A string splits into several pieces exactly when it holds the separator. */
  lemma SplitSeveral(s: string, sep: char)
    ensures |Split(s, sep)| >= 2 <==> sep in s
  {
    if sep !in s {
      SplitWithoutSeparator(s, sep);
    } else if |Split(s, sep)| == 1 {
      JoinSplit(s, sep);
    }
  }

  /** The first piece of `p + sep + q` is `p`. */
  lemma SplitFirst(p: string, q: string, sep: char)
    requires sep !in p
    ensures Split(p + [sep] + q, sep)[0] == p
  {
    SplitAround(p, q, sep);
    SplitWithoutSeparator(p, sep);
  }

  // ---------------------------------------------------------------- white space and trim

  /** ECMAScript WhiteSpace and LineTerminator code points, the set `trim` and `parseInt` skip. */
  predicate IsWhitespace(c: char) {
    c in {'\t', '\n', '\U{000B}', '\U{000C}', '\r', ' ', '\U{00A0}', '\U{1680}', '\U{2028}',
          '\U{2029}', '\U{202F}', '\U{205F}', '\U{3000}', '\U{FEFF}'}
    || '\U{2000}' <= c <= '\U{200A}'
  }

  /** `s.trimStart()` */
  function TrimStart(s: string): (r: string)
    ensures |r| <= |s| && r == s[|s| - |r|..]
    ensures r == [] || !IsWhitespace(r[0])
    ensures forall i :: 0 <= i < |s| - |r| ==> IsWhitespace(s[i])
  {
    if s != [] && IsWhitespace(s[0]) then TrimStart(s[1..]) else s
  }

  /** `s.trimEnd()` */
  function TrimEnd(s: string): (r: string)
    ensures |r| <= |s| && r == s[..|r|]
    ensures r == [] || !IsWhitespace(r[|r| - 1])
    ensures forall i :: |r| <= i < |s| ==> IsWhitespace(s[i])
  {
    if s != [] && IsWhitespace(s[|s| - 1]) then TrimEnd(s[..|s| - 1]) else s
  }

  /** `s.trim()` */
  function Trim(s: string): string {
    TrimEnd(TrimStart(s))
  }

  /** `!s.trim()`: the string is empty or white space only. */
  predicate IsBlank(s: string) {
    Trim(s) == ""
  }

  lemma BlankIffAllWhitespace(s: string)
    ensures IsBlank(s) <==> forall i :: 0 <= i < |s| ==> IsWhitespace(s[i])
  {
  }

  // ---------------------------------------------------------------- includes

  /** `s` holds `q` starting at position `i`. */
  predicate OccursAt(s: string, q: string, i: nat) {
    i + |q| <= |s| && s[i..i + |q|] == q
  }

  /** `s.includes(q)`; the empty string is included in every string. */
  predicate Includes(s: string, q: string)
    decreases |s|
  {
    q <= s || (s != [] && Includes(s[1..], q))
  }

  /** What `Includes` finds occurs at some position. */
  lemma {:induction false} IncludesOccurs(s: string, q: string) returns (i: nat)
    requires Includes(s, q)
    ensures i <= |s| && OccursAt(s, q, i)
    decreases |s|
  {
    if q <= s {
      i := 0;
    } else {
      var j := IncludesOccurs(s[1..], q);
      assert s[1..][j..j + |q|] == s[j + 1..j + 1 + |q|];
      i := j + 1;
    }
  }

  /** An occurrence at any position is found by `Includes`. */
  lemma {:induction false} OccursIncludes(s: string, q: string, i: nat)
    requires OccursAt(s, q, i)
    ensures Includes(s, q)
    decreases i
  {
    if i > 0 {
      assert s[1..][i - 1..i - 1 + |q|] == s[i..i + |q|];
      OccursIncludes(s[1..], q, i - 1);
    }
  }

  lemma IncludesIffOccurs(s: string, q: string)
    ensures Includes(s, q) <==> exists i: nat :: i <= |s| && OccursAt(s, q, i)
  {
    if Includes(s, q) {
      var i := IncludesOccurs(s, q);
    }
    forall i: nat | i <= |s| && OccursAt(s, q, i) ensures Includes(s, q) {
      OccursIncludes(s, q, i);
    }
  }

  // ---------------------------------------------------------------- string order

  /** `a < b` on JavaScript strings: lexicographic by character, a proper prefix first. */
  predicate StrLess(a: string, b: string)
    decreases |a|
  {
    if a == [] then b != []
    else if b == [] then false
    else if a[0] != b[0] then a[0] < b[0]
    else StrLess(a[1..], b[1..])
  }

  lemma {:induction false} StrLessIrreflexive(a: string)
    ensures !StrLess(a, a)
  {
    if a != [] {
      StrLessIrreflexive(a[1..]);
    }
  }

  lemma {:induction false} StrLessAsymmetric(a: string, b: string)
    ensures !(StrLess(a, b) && StrLess(b, a))
  {
    if a != [] && b != [] && a[0] == b[0] {
      StrLessAsymmetric(a[1..], b[1..]);
    }
  }

  lemma {:induction false} StrLessTransitive(a: string, b: string, c: string)
    requires StrLess(a, b) && StrLess(b, c)
    ensures StrLess(a, c)
  {
    if a != [] && a[0] == b[0] && b[0] == c[0] {
      StrLessTransitive(a[1..], b[1..], c[1..]);
    }
  }

  lemma {:induction false} StrLessTotal(a: string, b: string)
    requires a != b
    ensures StrLess(a, b) || StrLess(b, a)
  {
    if a != [] && b != [] && a[0] == b[0] {
      assert a == [a[0]] + a[1..] && b == [b[0]] + b[1..];
      StrLessTotal(a[1..], b[1..]);
    }
  }

  // ---------------------------------------------------------------- numbers

  /** `c` is a digit in base `radix` (10 or 16; letters in either case). */
  predicate IsDigit(c: char, radix: nat) {
    ('0' <= c <= '9') || (radix == 16 && (('a' <= c <= 'f') || ('A' <= c <= 'F')))
  }

  function DigitValue(c: char): nat {
    if '0' <= c <= '9' then c as nat - '0' as nat
    else if 'a' <= c <= 'f' then c as nat - 'a' as nat + 10
    else if 'A' <= c <= 'F' then c as nat - 'A' as nat + 10
    else 0
  }

  /** The longest prefix of `s` made of digits. */
  function DigitPrefix(s: string, radix: nat): (r: string)
    ensures r <= s
    ensures forall i :: 0 <= i < |r| ==> IsDigit(r[i], radix)
    ensures |r| < |s| ==> !IsDigit(s[|r|], radix)
  {
    if s != [] && IsDigit(s[0], radix) then [s[0]] + DigitPrefix(s[1..], radix) else []
  }

  /** The value of a digit string, most significant digit first. */
  function DigitsValue(digits: string, radix: nat): nat {
    if digits == [] then 0
    else DigitsValue(digits[..|digits| - 1], radix) * radix + DigitValue(digits[|digits| - 1])
  }

  /**
   * `parseInt(s)` with no radix argument: leading white space is skipped, one sign is read,
   * a `0x`/`0X` prefix selects base 16, and the longest run of digits that follows is the
   * value; `None` stands for `NaN`, the result when that run is empty.
   */
  function ParseInt(s: string): (r: Option<int>)
    ensures TrimStart(s) == [] ==> r.None?
    ensures r.Some? ==>
      (TrimStart(s) != [] &&
       (IsDigit(TrimStart(s)[0], 10) || TrimStart(s)[0] == '-' || TrimStart(s)[0] == '+'))
    ensures r.Some? && r.value < 0 ==> TrimStart(s)[0] == '-'
  {
    ParseSigned(TrimStart(s))
  }

  /** `parseInt` after the white space: one optional sign, then the unsigned part. */
  function ParseSigned(t: string): Option<int>
  {
    match ParseMagnitude(Unsigned(t))
    case None => None
    case Some(m) => Some(if t != [] && t[0] == '-' then -(m as int) else m)
  }

  /** `t` without its leading sign, if it has one. */
  function Unsigned(t: string): string
  {
    if t != [] && (t[0] == '-' || t[0] == '+') then t[1..] else t
  }

  /** The unsigned part of `parseInt`: an optional `0x`/`0X` prefix and the digits after it. */
  function ParseMagnitude(u: string): (r: Option<nat>)
  {
    var hex := |u| >= 2 && u[0] == '0' && (u[1] == 'x' || u[1] == 'X');
    var radix := if hex then 16 else 10;
    var digits := DigitPrefix(if hex then u[2..] else u, radix);
    if digits == [] then None else Some(DigitsValue(digits, radix))
  }

  /** The decimal digit for `d < 10`. */
  function DigitChar(d: nat): (c: char)
    requires d < 10
    ensures IsDigit(c, 10) && DigitValue(c) == d
  {
    ('0' as nat + d) as char
  }

  /** The decimal notation of a natural number, without leading zeros. */
  function NatToString(n: nat): (s: string)
    ensures s != []
    ensures forall i :: 0 <= i < |s| ==> IsDigit(s[i], 10)
  {
    if n < 10 then [DigitChar(n)] else NatToString(n / 10) + [DigitChar(n % 10)]
  }

  /** `` `${n}` `` for an integer. */
  function IntToString(n: int): (s: string)
    ensures s != [] && '/' !in s
  {
    if n < 0 then "-" + NatToString(-n) else NatToString(n)
  }

  lemma {:induction false} NatToStringValue(n: nat)
    ensures DigitsValue(NatToString(n), 10) == n
  {
    if n >= 10 {
      var s := NatToString(n);
      NatToStringValue(n / 10);
      assert s[..|s| - 1] == NatToString(n / 10);
    }
  }

  lemma {:induction false} DigitPrefixOfDigits(s: string, radix: nat)
    requires forall i :: 0 <= i < |s| ==> IsDigit(s[i], radix)
    ensures DigitPrefix(s, radix) == s
  {
    if s != [] {
      DigitPrefixOfDigits(s[1..], radix);
    }
  }

  /** A decimal digit is neither white space, nor a sign, nor the `x` of a hex prefix. */
  lemma DecimalDigitIsPlain(c: char)
    requires IsDigit(c, 10)
    ensures !IsWhitespace(c) && c != '-' && c != '+' && c != 'x' && c != 'X'
  {
  }

  /** Nothing is trimmed from a string that starts with a character other than white space. */
  lemma TrimStartKeeps(s: string)
    requires s != [] && !IsWhitespace(s[0])
    ensures TrimStart(s) == s
  {
  }

  /** A run of decimal digits reads as its decimal value. */
  lemma DecimalMagnitude(u: string)
    requires u != [] && forall i :: 0 <= i < |u| ==> IsDigit(u[i], 10)
    ensures ParseMagnitude(u) == Some(DigitsValue(u, 10))
  {
    DigitPrefixOfDigits(u, 10);
    if |u| >= 2 {
      DecimalDigitIsPlain(u[1]);
    }
    assert !(|u| >= 2 && u[0] == '0' && (u[1] == 'x' || u[1] == 'X'));
  }

  /** Reading back the decimal notation of a natural number gives the number. */
  lemma ParseNatDigits(u: string, m: nat)
    requires u == NatToString(m)
    ensures ParseInt(u) == Some(m)
  {
    DecimalMagnitude(u);
    NatToStringValue(m);
    DecimalDigitIsPlain(u[0]);
    TrimStartKeeps(u);
  }

  /** Reading back the decimal notation of a negative number gives the number. */
  lemma ParseNegativeDigits(s: string, u: string, m: nat)
    requires u == NatToString(m) && s == "-" + u
    ensures ParseInt(s) == Some(-(m as int))
  {
    DecimalMagnitude(u);
    NatToStringValue(m);
    assert s[0] == '-' && s[1..] == u;
    TrimStartKeeps(s);
  }

  /** Reading back the decimal notation of an integer gives the integer. */
  lemma ParseIntToString(n: int)
    ensures ParseInt(IntToString(n)) == Some(n)
  {
    if n < 0 {
      ParseNegativeDigits(IntToString(n), NatToString(-n), -n);
    } else {
      ParseNatDigits(IntToString(n), n);
    }
  }

  // ---------------------------------------------------------------- parseInt stops at a slash

  /** No digit run continues past a slash. */
  lemma {:induction false} DigitPrefixStops(w: string, q: string, radix: nat)
    ensures DigitPrefix(w + ['/'] + q, radix) == DigitPrefix(w, radix)
  {
    if w != [] {
      assert (w + ['/'] + q)[1..] == w[1..] + ['/'] + q;
      DigitPrefixStops(w[1..], q, radix);
    }
  }

  /** Trimming the start of `p + "/" + q` only trims `p`. */
  lemma {:induction false} TrimStartStops(p: string, q: string)
    ensures TrimStart(p + ['/'] + q) == TrimStart(p) + ['/'] + q
  {
    if p != [] {
      assert (p + ['/'] + q)[1..] == p[1..] + ['/'] + q;
      TrimStartStops(p[1..], q);
    }
  }

  /** The unsigned read of `u + "/" + q` is that of `u`. */
  lemma ParseMagnitudeStops(u: string, q: string)
    ensures ParseMagnitude(u + ['/'] + q) == ParseMagnitude(u)
  {
    var v := u + ['/'] + q;
    if |u| >= 2 {
      assert v[0] == u[0] && v[1] == u[1];
      if u[0] == '0' && (u[1] == 'x' || u[1] == 'X') {
        assert v[2..] == u[2..] + ['/'] + q;
        DigitPrefixStops(u[2..], q, 16);
      } else {
        DigitPrefixStops(u, q, 10);
      }
    } else {
      assert |u| == 1 ==> v[1] == '/';
      assert |u| == 0 ==> v[0] == '/';
      DigitPrefixStops(u, q, 10);
    }
  }

  /** Dropping the sign of `t + "/" + q` only touches `t`. */
  lemma UnsignedStops(t: string, q: string)
    ensures Unsigned(t + ['/'] + q) == Unsigned(t) + ['/'] + q
  {
    var tv := t + ['/'] + q;
    if t != [] {
      assert tv[0] == t[0];
      assert tv[1..] == t[1..] + ['/'] + q;
    } else {
      assert tv[0] == '/';
    }
  }

  /** The signed read of `t + "/" + q` is that of `t`. */
  lemma ParseSignedStops(t: string, q: string)
    ensures ParseSigned(t + ['/'] + q) == ParseSigned(t)
  {
    var tv := t + ['/'] + q;
    UnsignedStops(t, q);
    ParseMagnitudeStops(Unsigned(t), q);
    assert (tv != [] && tv[0] == '-') == (t != [] && t[0] == '-') by {
      if t != [] { assert tv[0] == t[0]; } else { assert tv[0] == '/'; }
    }
  }

  /** `parseInt` reads nothing past a slash: `parseInt(p + "/" + q) == parseInt(p)`. */
  lemma ParseIntStops(p: string, q: string)
    ensures ParseInt(p + ['/'] + q) == ParseInt(p)
  {
    TrimStartStops(p, q);
    ParseSignedStops(TrimStart(p), q);
  }

  // ---------------------------------------------------------------- the second piece

  /**
   * `f` is the text between the first `sep` of `s` and the next one (or the end): the
   * second piece of `s.split(sep)`.
   */
  predicate IsSecondPiece(s: string, sep: char, f: string) {
    exists i :: 0 <= i < |s| && s[i] == sep && sep !in s[..i] &&
      i + 1 + |f| <= |s| && s[i + 1..i + 1 + |f|] == f && sep !in f &&
      (i + 1 + |f| == |s| || s[i + 1 + |f|] == sep)
  }

  /** The second piece of a split is the text after the first separator, up to the next one. */
  lemma SecondPiece(s: string, sep: char)
    requires sep in s
    ensures |Split(s, sep)| >= 2 && IsSecondPiece(s, sep, Split(s, sep)[1])
  {
    SplitSeveral(s, sep);
    JoinSplit(s, sep);
    var parts := Split(s, sep);
    var rest := Join(parts[1..], sep);
    assert s == parts[0] + [sep] + rest;
    var i := |parts[0]|;
    var f := parts[1];
    if |parts| == 2 {
      assert rest == f;
    } else {
      assert rest == f + [sep] + Join(parts[2..], sep);
      assert s[i + 1 + |f|] == rest[|f|];
    }
    assert s[..i] == parts[0];
    assert s[i + 1..i + 1 + |f|] == rest[..|f|] == f;
    assert s[i] == sep;
  }
}
