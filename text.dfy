/**
 * The handful of Python string built-ins the scripts rely on:
 * `str.strip()`, `str.lower()`, `str.upper()`, `str.isdigit()`, `int(str)`,
 * `str.split(sep)`, `str.startswith`, `str.replace`, and the list filter
 * `[x for x in xs if x not in ys]`. Whitespace is Python's full set; letters
 * and digits are the ASCII ones.
 */
module Text {
  import opened Wrappers

  // ---------------------------------------------------------------------------
  // Characters
  // ---------------------------------------------------------------------------

  /**
   * The characters `str.isspace()` accepts, which `str.strip()`, `int()` and
   * `\s` in a `str` pattern all treat as whitespace: the ASCII controls tab
   * to carriage return and file to unit separator, the space, NEL, the
   * no-break space, the Ogham space mark, the spaces U+2000 to U+200A, the
   * line and paragraph separators, the narrow no-break space, the medium
   * mathematical space and the ideographic space.
   */
  predicate IsSpace(c: char) {
    || '\t' <= c <= '\r'
    || '\U{1C}' <= c <= ' '
    || c == '\U{85}' || c == '\U{A0}' || c == '\U{1680}'
    || '\U{2000}' <= c <= '\U{200A}'
    || c == '\U{2028}' || c == '\U{2029}' || c == '\U{202F}' || c == '\U{205F}' || c == '\U{3000}'
  }

  predicate IsDigit(c: char) {
    '0' <= c <= '9'
  }

  function DigitValue(c: char): (d: nat)
    requires IsDigit(c)
    ensures d < 10
  {
    (c as int - '0' as int) as nat
  }

  function DigitChar(d: nat): (c: char)
    requires d < 10
    ensures IsDigit(c) && DigitValue(c) == d
  {
    ('0' as int + d) as char
  }

  function LowerChar(c: char): (r: char)
    ensures 'A' <= c <= 'Z' ==> r as int == c as int + 32
    ensures !('A' <= c <= 'Z') ==> r == c
  {
    if 'A' <= c <= 'Z' then (c as int + 32) as char else c
  }

  function UpperChar(c: char): (r: char)
    ensures 'a' <= c <= 'z' ==> r as int == c as int - 32
    ensures !('a' <= c <= 'z') ==> r == c
  {
    if 'a' <= c <= 'z' then (c as int - 32) as char else c
  }

  // ---------------------------------------------------------------------------
  // strip, lower, upper
  // ---------------------------------------------------------------------------

  function StripLeft(s: string): (r: string)
    ensures |r| <= |s| && r == s[|s| - |r|..]
    ensures r == [] || !IsSpace(r[0])
    ensures forall i :: 0 <= i < |s| - |r| ==> IsSpace(s[i])
  {
    if s != [] && IsSpace(s[0]) then StripLeft(s[1..]) else s
  }

  function StripRight(s: string): (r: string)
    ensures |r| <= |s| && r == s[..|r|]
    ensures r == [] || !IsSpace(r[|r| - 1])
    ensures forall i :: |r| <= i < |s| ==> IsSpace(s[i])
  {
    if s != [] && IsSpace(s[|s| - 1]) then StripRight(s[..|s| - 1]) else s
  }

  /** `s.strip()`: leading and trailing whitespace removed. */
  function Strip(s: string): (r: string)
    ensures |r| <= |s|
    ensures r == [] || (!IsSpace(r[0]) && !IsSpace(r[|r| - 1]))
  {
    StripRight(StripLeft(s))
  }

  /** A string with no whitespace at either end is its own strip. */
  lemma StripUnchanged(s: string)
    requires s == [] || (!IsSpace(s[0]) && !IsSpace(s[|s| - 1]))
    ensures Strip(s) == s
  {
  }

  lemma StripPadded(s: string, pad: string)
    requires s != [] && !IsSpace(s[0]) && !IsSpace(s[|s| - 1])
    requires forall i :: 0 <= i < |pad| ==> IsSpace(pad[i])
    ensures Strip(pad + s + pad) == s
  {
    StripLeftPadded(s + pad, pad);
    assert pad + s + pad == pad + (s + pad);
    StripRightPadded(s, pad);
  }

  lemma {:induction false} StripLeftPadded(s: string, pad: string)
    requires s != [] && !IsSpace(s[0])
    requires forall i :: 0 <= i < |pad| ==> IsSpace(pad[i])
    ensures StripLeft(pad + s) == s
  {
    if pad != [] {
      assert (pad + s)[1..] == pad[1..] + s;
      StripLeftPadded(s, pad[1..]);
    }
  }

  lemma {:induction false} StripRightPadded(s: string, pad: string)
    requires s != [] && !IsSpace(s[|s| - 1])
    requires forall i :: 0 <= i < |pad| ==> IsSpace(pad[i])
    ensures StripRight(s + pad) == s
  {
    if pad != [] {
      assert (s + pad)[..|s + pad| - 1] == s + pad[..|pad| - 1];
      StripRightPadded(s, pad[..|pad| - 1]);
    } else {
      assert s + pad == s;
    }
  }

  /** Stripping twice is stripping once. */
  lemma StripStrip(s: string)
    ensures Strip(Strip(s)) == Strip(s)
  {
    StripUnchanged(Strip(s));
  }

  /** `int()` ignores surrounding whitespace, so stripping first changes nothing. */
  lemma ParseIntStrip(s: string)
    ensures ParseInt(Strip(s)) == ParseInt(s)
  {
    StripStrip(s);
  }
  /** `s.lower()` */
  function Lower(s: string): (r: string)
    ensures |r| == |s|
    ensures forall i :: 0 <= i < |s| ==> r[i] == LowerChar(s[i])
  {
    seq(|s|, i requires 0 <= i < |s| => LowerChar(s[i]))
  }

  /** `s.upper()` */
  function Upper(s: string): (r: string)
    ensures |r| == |s|
    ensures forall i :: 0 <= i < |s| ==> r[i] == UpperChar(s[i])
  {
    seq(|s|, i requires 0 <= i < |s| => UpperChar(s[i]))
  }

  // ---------------------------------------------------------------------------
  // isdigit and int()
  // ---------------------------------------------------------------------------

  predicate AllDigits(s: string) {
    forall i :: 0 <= i < |s| ==> IsDigit(s[i])
  }

  /** `s.isdigit()`: non-empty and every character a digit. */
  predicate IsDigitString(s: string) {
    |s| > 0 && AllDigits(s)
  }

  /** Lower-casing leaves digits alone. */
  lemma LowerDigits(s: string)
    requires AllDigits(s)
    ensures Lower(s) == s
  {
  }

  /** `10 ** n` */
  function Pow10(n: nat): (p: nat)
    ensures p >= 1
  {
    if n == 0 then 1 else 10 * Pow10(n - 1)
  }

  /** The decimal value of a run of digits (empty run: 0). */
  function DigitsValue(s: string): (n: nat)
    requires AllDigits(s)
  {
    if s == [] then 0 else DigitsValue(s[..|s| - 1]) * 10 + DigitValue(s[|s| - 1])
  }

  /**
   * The digit part `int()` accepts: digits, where each underscore sits between
   * two digits (`1_000`).
   */
  predicate IsDigitGroups(s: string) {
    && |s| > 0
    && IsDigit(s[0])
    && forall i :: 0 <= i < |s| ==> GroupChar(s, i)
  }

  /** Position `i` holds a digit, or an underscore followed by a digit. */
  predicate GroupChar(s: string, i: nat)
    requires i < |s|
  {
    IsDigit(s[i]) || (s[i] == '_' && i + 1 < |s| && IsDigit(s[i + 1]))
  }

  function RemoveChar(s: string, c: char): (r: string)
    ensures |r| <= |s|
  {
    if s == [] then []
    else (if s[0] == c then [] else [s[0]]) + RemoveChar(s[1..], c)
  }

  /** What is left is what was there, less every copy of `c`. */
  lemma {:induction false} RemoveCharMembers(s: string, c: char)
    ensures forall x :: x in RemoveChar(s, c) <==> x in s && x != c
  {
    if s != [] {
      RemoveCharMembers(s[1..], c);
      assert forall x :: x in s <==> x == s[0] || x in s[1..];
    }
  }

  /** Removing a character that does not occur changes nothing. */
  lemma {:induction false} RemoveCharAbsent(s: string, c: char)
    requires c !in s
    ensures RemoveChar(s, c) == s
  {
    if s != [] {
      assert s[0] in s && s == [s[0]] + s[1..];
      assert forall x :: x in s[1..] ==> x in s;
      RemoveCharAbsent(s[1..], c);
    }
  }

  /** Removing a character from a concatenation removes it from each part. */
  lemma {:induction false} RemoveCharAppend(a: string, b: string, c: char)
    ensures RemoveChar(a + b, c) == RemoveChar(a, c) + RemoveChar(b, c)
  {
    if a == [] {
      assert a + b == b;
    } else {
      assert (a + b)[1..] == a[1..] + b;
      RemoveCharAppend(a[1..], b, c);
    }
  }

  /**
   * `int(s)`: surrounding whitespace ignored, an optional sign, then digit
   * groups; anything else is a `ValueError`, modelled as `None`.
   */
  function ParseInt(s: string): (r: Option<int>)
    ensures r.Some? <==> IntLiteral(Strip(s))
    ensures IsDigitString(Strip(s)) ==> r == Some(DigitsValue(Strip(s)) as int)
    ensures r.Some? && Strip(s)[0] == '-' ==> r.value <= 0
    ensures r.Some? && Strip(s)[0] != '-' ==> r.value >= 0
    ensures r.Some? ==> r.value == SignOf(Strip(s)) * GroupsValue(Unsigned(Strip(s)))
  {
    ParseStripped(Strip(s))
  }

  /** What `int()` accepts once stripped: an optional sign, then digit groups. */
  predicate IntLiteral(t: string) {
    if |t| > 0 && (t[0] == '+' || t[0] == '-') then IsDigitGroups(t[1..]) else IsDigitGroups(t)
  }

  /** The literal without its leading sign, if it has one. */
  function Unsigned(t: string): (u: string)
    ensures IntLiteral(t) <==> IsDigitGroups(u)
  {
    if |t| > 0 && (t[0] == '+' || t[0] == '-') then t[1..] else t
  }

  /** The factor a leading sign stands for: -1 after "-", 1 otherwise. */
  function SignOf(t: string): int {
    if |t| > 0 && t[0] == '-' then -1 else 1
  }

  /** The value of digit groups: the digits once the underscores are dropped. */
  function GroupsValue(g: string): nat
    requires IsDigitGroups(g)
  {
    GroupsWithoutUnderscores(g);
    DigitsValue(RemoveChar(g, '_'))
  }

  /** The sign and digit groups of `int()`, on text already stripped. */
  function ParseStripped(t: string): (r: Option<int>)
    ensures r.Some? <==> IntLiteral(t)
    ensures IsDigitString(t) ==> r == Some(DigitsValue(t) as int)
    ensures r.Some? && t[0] == '-' ==> r.value <= 0
    ensures r.Some? && t[0] != '-' ==> r.value >= 0
    ensures r.Some? ==> r.value == SignOf(t) * GroupsValue(Unsigned(t))
  {
    DigitsHaveNoUnderscore(t);
    if |t| > 0 && (t[0] == '+' || t[0] == '-') then
      if IsDigitGroups(t[1..]) then
        GroupsWithoutUnderscores(t[1..]);
        var v: int := DigitsValue(RemoveChar(t[1..], '_'));
        Some(if t[0] == '-' then -v else v)
      else None
    else if IsDigitGroups(t) then
      GroupsWithoutUnderscores(t);
      Some(DigitsValue(RemoveChar(t, '_')))
    else None
  }

  /** A digit string has no underscore to drop. */
  lemma DigitsHaveNoUnderscore(t: string)
    ensures IsDigitString(t) ==> IsDigitGroups(t) && RemoveChar(t, '_') == t
  {
    if IsDigitString(t) {
      assert !IsDigit('_');
      assert '_' !in t;
      RemoveCharAbsent(t, '_');
      assert forall i :: 0 <= i < |t| ==> GroupChar(t, i);
    }
  }

  /** Dropping the underscores of digit groups leaves only digits. */
  lemma GroupsWithoutUnderscores(s: string)
    requires IsDigitGroups(s)
    ensures AllDigits(RemoveChar(s, '_'))
  {
    forall i | 0 <= i < |s|
      ensures IsDigit(s[i]) || s[i] == '_'
    {
      assert GroupChar(s, i);
    }
    DigitsOrUnderscores(s);
  }

  lemma {:induction false} DigitsOrUnderscores(s: string)
    requires forall i :: 0 <= i < |s| ==> IsDigit(s[i]) || s[i] == '_'
    ensures AllDigits(RemoveChar(s, '_'))
  {
    if s != [] {
      DigitsOrUnderscores(s[1..]);
    }
  }

  /** The decimal rendering of a natural number, as `str(n)` writes it. */
  function NatToString(n: nat): (s: string)
    ensures IsDigitString(s)
  {
    if n < 10 then [DigitChar(n)] else NatToString(n / 10) + [DigitChar(n % 10)]
  }

  lemma {:induction false} NatToStringValue(n: nat)
    ensures DigitsValue(NatToString(n)) == n
  {
    if n >= 10 {
      var s := NatToString(n);
      assert s[..|s| - 1] == NatToString(n / 10);
      NatToStringValue(n / 10);
    }
  }

  /** Reading back what `str(n)` wrote gives `n` again. */
  lemma ParseIntOfNatToString(n: nat)
    ensures ParseInt(NatToString(n)) == Some(n)
  {
    ParseIntOfDigits(NatToString(n));
    NatToStringValue(n);
  }

  /** `str(n)` with whitespace on both sides still reads back as `n`. */
  lemma ParseIntPadded(n: nat, pad: string)
    requires forall i :: 0 <= i < |pad| ==> IsSpace(pad[i])
    ensures ParseInt(pad + NatToString(n) + pad) == Some(n)
  {
    var s := NatToString(n);
    assert !IsSpace(s[0]) && !IsSpace(s[|s| - 1]);
    StripPadded(s, pad);
    ParseIntOfNatToString(n);
    StripUnchanged(s);
  }

  /** On a digit string `int()` agrees with the plain decimal value. */
  lemma ParseIntOfDigits(s: string)
    requires IsDigitString(s)
    ensures ParseInt(s) == Some(DigitsValue(s) as int)
  {
    assert !IsSpace(s[0]) && !IsSpace(s[|s| - 1]);
    StripUnchanged(s);
    assert !IsDigit('_');
    assert '_' !in s;
    RemoveCharAbsent(s, '_');
    assert IsDigitGroups(s);
  }

  /** `int()` reads a sign in front of `str(n)`, padded or not: "-3" is -3 and "+2" is 2. */
  lemma ParseIntSigned(n: nat, pad: string)
    requires forall i :: 0 <= i < |pad| ==> IsSpace(pad[i])
    ensures ParseInt(pad + "-" + NatToString(n) + pad) == Some(-(n as int))
    ensures ParseInt(pad + "+" + NatToString(n) + pad) == Some(n)
  {
    var d := NatToString(n);
    NatToStringValue(n);
    assert ParseInt(pad + "-" + d + pad) == Some(-(n as int)) by {
      assert "-" == ['-'];
      SignedDigits(d, '-', pad);
    }
    assert ParseInt(pad + "+" + d + pad) == Some(n) by {
      assert "+" == ['+'];
      SignedDigits(d, '+', pad);
    }
  }

  lemma SignedDigits(d: string, sign: char, pad: string)
    requires IsDigitString(d) && (sign == '+' || sign == '-')
    requires forall i :: 0 <= i < |pad| ==> IsSpace(pad[i])
    ensures ParseInt(pad + [sign] + d + pad) == Some(if sign == '-' then -(DigitsValue(d) as int) else DigitsValue(d) as int)
  {
    var t := [sign] + d;
    assert pad + [sign] + d + pad == pad + t + pad;
    assert !IsSpace(t[0]) && !IsSpace(t[|t| - 1]);
    StripPadded(t, pad);
    SignedLiteral(d, sign);
  }

  /** A sign followed by a digit string, as `int()` reads it once stripped. */
  lemma SignedLiteral(d: string, sign: char)
    requires IsDigitString(d) && (sign == '+' || sign == '-')
    ensures ParseStripped([sign] + d) == Some(if sign == '-' then -(DigitsValue(d) as int) else DigitsValue(d) as int)
  {
    var t := [sign] + d;
    assert t[0] == sign && t[1..] == d;
    DigitsHaveNoUnderscore(d);
  }

  /** An underscore between two digit strings is dropped: "1_000" is 1000. */
  lemma ParseIntUnderscore(a: string, b: string)
    requires IsDigitString(a) && IsDigitString(b)
    ensures ParseInt(a + "_" + b) == Some(DigitsValue(a + b) as int)
  {
    var t := a + "_" + b;
    assert !IsSpace(t[0]) && !IsSpace(t[|t| - 1]);
    StripUnchanged(t);
    UnderscoreGroups(a, b);
  }

  lemma UnderscoreGroups(a: string, b: string)
    requires IsDigitString(a) && IsDigitString(b)
    ensures var t := a + "_" + b; IsDigitGroups(t) && RemoveChar(t, '_') == a + b
  {
    UnderscoreGroupChars(a, b);
    DigitsHaveNoUnderscore(a);
    DigitsHaveNoUnderscore(b);
    UnderscoreDropped(a, b);
  }

  lemma UnderscoreDropped(a: string, b: string)
    requires RemoveChar(a, '_') == a && RemoveChar(b, '_') == b
    ensures RemoveChar(a + "_" + b, '_') == a + b
  {
    var u: string := "_";
    RemoveCharAppend(a + u, b, '_');
    RemoveCharAppend(a, u, '_');
    RemoveCharSelf('_');
  }

  /** A lone copy of the removed character leaves nothing. */
  lemma RemoveCharSelf(c: char)
    ensures RemoveChar([c], c) == []
  {
    assert [c][1..] == [];
  }

  lemma UnderscoreGroupChars(a: string, b: string)
    requires IsDigitString(a) && IsDigitString(b)
    ensures var t := a + "_" + b; |t| > 0 && IsDigit(t[0]) && forall i :: 0 <= i < |t| ==> GroupChar(t, i)
  {
    var t := a + "_" + b;
    forall i | 0 <= i < |t|
      ensures GroupChar(t, i)
    {
      if i == |a| {
        assert t[i + 1] == b[0];
      } else if i < |a| {
        assert t[i] == a[i];
      } else {
        assert t[i] == b[i - |a| - 1];
      }
    }
    assert t[0] == a[0];
  }

  /** `int()` never accepts a string without a digit in it. */
  lemma ParseIntNeedsDigit(s: string)
    requires forall i :: 0 <= i < |s| ==> !IsDigit(s[i])
    ensures ParseInt(s) == None
  {
    var t := Strip(s);
    StripKeepsChars(s);
  }

  lemma StripKeepsChars(s: string)
    ensures forall i :: 0 <= i < |Strip(s)| ==> Strip(s)[i] in s
  {
    var l := StripLeft(s);
    var r := StripRight(l);
    assert r == Strip(s);
    var d := |s| - |l|;
    forall i | 0 <= i < |r|
      ensures r[i] in s
    {
      assert r[i] == l[i];
      assert l[i] == s[d + i];
    }
  }

  // ---------------------------------------------------------------------------
  // split, startswith, replace
  // ---------------------------------------------------------------------------

  /** `s.split(sep)` with an explicit one-character separator. */
  function Split(s: string, sep: char): (parts: seq<string>)
    ensures |parts| >= 1
    ensures forall k :: 0 <= k < |parts| ==> sep !in parts[k]
  {
    if s == [] then [[]]
    else
      var rest := Split(s[1..], sep);
      if s[0] == sep then [[]] + rest
      else [[s[0]] + rest[0]] + rest[1..]
  }

  /** Joining the parts with the separator gives back the string. */
  function Join(parts: seq<string>, sep: char): string
    requires |parts| >= 1
  {
    if |parts| == 1 then parts[0] else parts[0] + [sep] + Join(parts[1..], sep)
  }

  lemma {:induction false} SplitJoin(s: string, sep: char)
    ensures Join(Split(s, sep), sep) == s
  {
    if s != [] {
      var rest := Split(s[1..], sep);
      SplitJoin(s[1..], sep);
      if s[0] != sep {
        if |rest| == 1 {
        } else {
          assert rest == [rest[0]] + rest[1..];
          assert Join(rest, sep) == rest[0] + [sep] + Join(rest[1..], sep);
        }
      }
    }
  }

  /** A piece without the separator, then the separator: the piece comes off first. */
  lemma {:induction false} SplitAfterPiece(a: string, b: string, sep: char)
    requires sep !in a
    ensures Split(a + [sep] + b, sep) == [a] + Split(b, sep)
  {
    if a == [] {
      assert a + [sep] + b == [sep] + b;
      assert ([sep] + b)[1..] == b;
    } else {
      assert (a + [sep] + b)[1..] == a[1..] + [sep] + b;
      SplitAfterPiece(a[1..], b, sep);
      assert a == [a[0]] + a[1..];
    }
  }

  /** Splitting what `Join` built gives back the pieces, when no piece holds the separator. */
  lemma {:induction false} SplitOfJoin(parts: seq<string>, sep: char)
    requires |parts| >= 1
    requires forall k :: 0 <= k < |parts| ==> sep !in parts[k]
    ensures Split(Join(parts, sep), sep) == parts
  {
    if |parts| == 1 {
      SplitWithoutSeparator(parts[0], sep);
    } else {
      SplitOfJoin(parts[1..], sep);
      SplitAfterPiece(parts[0], Join(parts[1..], sep), sep);
      assert parts == [parts[0]] + parts[1..];
    }
  }

  /** The pieces of a string containing no separator: the string itself. */
  lemma {:induction false} SplitWithoutSeparator(s: string, sep: char)
    requires sep !in s
    ensures Split(s, sep) == [s]
  {
    if s != [] {
      SplitWithoutSeparator(s[1..], sep);
      assert s == [s[0]] + s[1..];
    }
  }

  /** The first piece of a split is where the string starts, up to the first separator. */
  lemma {:induction false} SplitHeadPrefix(s: string, sep: char)
    ensures Split(s, sep)[0] <= s
  {
    if s != [] {
      SplitHeadPrefix(s[1..], sep);
      if s[0] != sep {
        var rest := Split(s[1..], sep);
        assert [s[0]] + rest[0] <= [s[0]] + s[1..];
        assert s == [s[0]] + s[1..];
      }
    }
  }

  /** `s.startswith(p)` */
  predicate StartsWith(s: string, p: string) {
    p <= s
  }

  /** `s.replace(a, b)` for single characters `a` and `b`. */
  function MapChar(s: string, a: char, b: char): (r: string)
    ensures |r| == |s|
    ensures forall i :: 0 <= i < |s| ==> r[i] == (if s[i] == a then b else s[i])
  {
    seq(|s|, i requires 0 <= i < |s| => if s[i] == a then b else s[i])
  }

  /**
   * `s.replace(pat, rep)`: non-overlapping occurrences of `pat`, found left
   * to right, each replaced by `rep`.
   */
  function ReplaceAll(s: string, pat: string, rep: string): string
    requires |pat| > 0
    decreases |s|
  {
    if |s| < |pat| then s
    else if pat <= s then rep + ReplaceAll(s[|pat|..], pat, rep)
    else [s[0]] + ReplaceAll(s[1..], pat, rep)
  }

  /** Nothing is replaced when a character of `old` never occurs in `s`. */
  lemma {:induction false} ReplaceAllAbsent(s: string, pat: string, rep: string, c: char)
    requires |pat| > 0 && c in pat && c !in s
    ensures ReplaceAll(s, pat, rep) == s
    decreases |s|
  {
    if |s| >= |pat| {
      ReplaceAllAbsent(s[1..], pat, rep, c);
    }
  }

  // ---------------------------------------------------------------------------
  // Lists of names
  // ---------------------------------------------------------------------------

  /**
   * `[x for x in xs if x not in ys]`: the names of `xs` that `ys` lacks, in
   * the order of `xs`.
   */
  function Without(xs: seq<string>, ys: seq<string>): (r: seq<string>)
    ensures forall x :: x in r <==> x in xs && x !in ys
    ensures |r| <= |xs|
  {
    if xs == [] then []
    else (if xs[0] in ys then [] else [xs[0]]) + Without(xs[1..], ys)
  }

  /** The filter keeps the order of its list: it distributes over concatenation. */
  lemma {:induction false} WithoutAppend(a: seq<string>, b: seq<string>, ys: seq<string>)
    ensures Without(a + b, ys) == Without(a, ys) + Without(b, ys)
  {
    if a != [] {
      assert (a + b)[1..] == a[1..] + b;
      WithoutAppend(a[1..], b, ys);
    } else {
      assert a + b == b;
    }
  }

  /** The filter applied twice changes nothing more. */
  lemma {:induction false} WithoutIdempotent(xs: seq<string>, ys: seq<string>)
    ensures Without(Without(xs, ys), ys) == Without(xs, ys)
  {
    if xs != [] {
      var rest := Without(xs[1..], ys);
      WithoutIdempotent(xs[1..], ys);
      var m := Without(xs, ys);
      if xs[0] !in ys {
        assert m == [xs[0]] + rest;
        assert m[0] == xs[0] && m[1..] == rest;
      } else {
        assert m == rest;
      }
    }
  }
}
