/**
 * The string primitives the modelled code leans on: the `\d`/`\D` digit
 * classes, ASCII case mapping, the JavaScript whitespace set used by
 * `trim()` and `\s`, decimal rendering, `padStart`, `startsWith`,
 * `includes`, a global literal `replace`, and `split` on one character.
 */
module Strings {

  predicate IsDigit(c: char) { '0' <= c <= '9' }

  predicate AllDigits(s: string) { forall i :: 0 <= i < |s| ==> IsDigit(s[i]) }

  predicate IsAsciiLower(c: char) { 'a' <= c <= 'z' }

  predicate IsAsciiUpper(c: char) { 'A' <= c <= 'Z' }

  predicate IsAsciiLetter(c: char) { IsAsciiLower(c) || IsAsciiUpper(c) }

  predicate IsAsciiAlnum(c: char) { IsAsciiLetter(c) || IsDigit(c) }

  predicate IsHexDigit(c: char) { IsDigit(c) || 'a' <= c <= 'f' || 'A' <= c <= 'F' }

  /** The characters `\s` matches and `trim()` removes in JavaScript. */
  predicate IsJsWhitespace(c: char)
  {
    c == '\t' || c == '\n' || c == '\U{B}' || c == '\U{C}' || c == '\r' || c == ' '
    || c == '\U{A0}' || c == '\U{1680}' || ('\U{2000}' <= c <= '\U{200A}')
    || c == '\U{2028}' || c == '\U{2029}' || c == '\U{202F}' || c == '\U{205F}'
    || c == '\U{3000}' || c == '\U{FEFF}'
  }

  /** `s.replace(/\D/g, '')`: the digits of `s`, in order. */
  function Digits(s: string): (r: string)
    ensures |r| <= |s|
  {
    if s == [] then []
    else (if IsDigit(s[0]) then [s[0]] else []) + Digits(s[1..])
  }

  lemma {:induction false} DigitsAreDigits(s: string)
    ensures AllDigits(Digits(s))
  {
    if s != [] {
      DigitsAreDigits(s[1..]);
    }
  }

  lemma {:induction false} DigitsConcat(a: string, b: string)
    ensures Digits(a + b) == Digits(a) + Digits(b)
    decreases |a|
  {
    if a == [] {
      assert a + b == b;
    } else {
      var ab := a + b;
      assert ab[0] == a[0];
      assert ab[1..] == a[1..] + b;
      DigitsConcat(a[1..], b);
      assert Digits(ab) == (if IsDigit(a[0]) then [a[0]] else []) + Digits(a[1..] + b);
    }
  }

  /** A string made only of digits is its own digit string. */
  lemma {:induction false} DigitsOfDigits(s: string)
    requires AllDigits(s)
    ensures Digits(s) == s
  {
    if s != [] {
      DigitsOfDigits(s[1..]);
    }
  }

  /** Appending a non-digit leaves the digits unchanged. */
  lemma DigitsSnocPunct(x: string, c: char)
    requires !IsDigit(c)
    ensures Digits(x + [c]) == Digits(x)
  {
    DigitsConcat(x, [c]);
    assert [c][1..] == [];
  }

  /** Appending digits appends them to the digit string. */
  lemma DigitsSnocDigits(x: string, y: string)
    requires AllDigits(y)
    ensures Digits(x + y) == Digits(x) + y
  {
    DigitsConcat(x, y);
    DigitsOfDigits(y);
  }

  /** Appending a string without digits leaves the digits unchanged. */
  lemma {:induction false} DigitsSnocNoDigits(x: string, y: string)
    requires forall i :: 0 <= i < |y| ==> !IsDigit(y[i])
    ensures Digits(x + y) == Digits(x)
    decreases |y|
  {
    if y == [] {
      assert x + y == x;
    } else {
      var init := y[..|y| - 1];
      assert x + y == (x + init) + [y[|y| - 1]];
      DigitsSnocPunct(x + init, y[|y| - 1]);
      DigitsSnocNoDigits(x, init);
    }
  }

  /** Removing non-digits twice is removing them once. */
  lemma DigitsIdempotent(s: string)
    ensures Digits(Digits(s)) == Digits(s)
  {
    DigitsAreDigits(s);
    DigitsOfDigits(Digits(s));
  }

  function ToUpperChar(c: char): (r: char)
    ensures IsAsciiLower(c) ==> IsAsciiUpper(r)
    ensures !IsAsciiLower(c) ==> r == c
  {
    if IsAsciiLower(c) then (c as int - 32) as char else c
  }

  function ToLowerChar(c: char): (r: char)
    ensures IsAsciiUpper(c) ==> IsAsciiLower(r)
    ensures !IsAsciiUpper(c) ==> r == c
  {
    if IsAsciiUpper(c) then (c as int + 32) as char else c
  }

  /** `toUpperCase()` restricted to the ASCII letters. */
  function ToUpper(s: string): (r: string)
    ensures |r| == |s|
    ensures forall i :: 0 <= i < |s| ==> r[i] == ToUpperChar(s[i])
  {
    seq(|s|, i requires 0 <= i < |s| => ToUpperChar(s[i]))
  }

  /** `toLowerCase()` restricted to the ASCII letters. */
  function ToLower(s: string): (r: string)
    ensures |r| == |s|
    ensures forall i :: 0 <= i < |s| ==> r[i] == ToLowerChar(s[i])
  {
    seq(|s|, i requires 0 <= i < |s| => ToLowerChar(s[i]))
  }

  function TrimStart(s: string): (r: string)
    ensures |r| <= |s|
    ensures r != [] ==> !IsJsWhitespace(r[0])
    ensures forall i :: 0 <= i < |s| - |r| ==> IsJsWhitespace(s[i])
  {
    if s != [] && IsJsWhitespace(s[0]) then TrimStart(s[1..]) else s
  }

  function TrimEnd(s: string): (r: string)
    ensures |r| <= |s|
    ensures r != [] ==> !IsJsWhitespace(r[|r| - 1])
    ensures forall i :: |r| <= i < |s| ==> IsJsWhitespace(s[i])
  {
    if s != [] && IsJsWhitespace(s[|s| - 1]) then TrimEnd(s[..|s| - 1]) else s
  }

  /** What `TrimStart` leaves is a suffix of its input. */
  lemma {:induction false} TrimStartSuffix(s: string)
    ensures TrimStart(s) == s[|s| - |TrimStart(s)|..]
  {
    if s != [] && IsJsWhitespace(s[0]) {
      TrimStartSuffix(s[1..]);
    }
  }

  /** What `TrimEnd` leaves is a prefix of its input. */
  lemma {:induction false} TrimEndPrefix(s: string)
    ensures TrimEnd(s) == s[..|TrimEnd(s)|]
  {
    if s != [] && IsJsWhitespace(s[|s| - 1]) {
      TrimEndPrefix(s[..|s| - 1]);
    }
  }

  /** `trim()`: strip JavaScript whitespace from both ends. */
  function Trim(s: string): (r: string)
  {
    TrimEnd(TrimStart(s))
  }

  predicate IsBlank(s: string) { Trim(s) == [] }

  /** A string without whitespace at either end is its own trim. */
  lemma TrimIdentity(s: string)
    requires s != [] ==> !IsJsWhitespace(s[0]) && !IsJsWhitespace(s[|s| - 1])
    ensures Trim(s) == s
  {
  }

  /** `trim()` keeps a contiguous run of the characters of its input. */
  lemma TrimChars(s: string, i: int)
    requires 0 <= i < |Trim(s)|
    ensures Trim(s)[i] == s[|s| - |TrimStart(s)| + i]
  {
    var t := TrimStart(s);
    TrimStartSuffix(s);
    TrimEndPrefix(t);
    assert Trim(s) == t[..|Trim(s)|];
  }

  /** Trimming twice is trimming once. */
  lemma TrimIdempotent(s: string)
    ensures Trim(Trim(s)) == Trim(s)
  {
    TrimmedEnds(s);
    TrimIdentity(Trim(s));
  }

  /** A trimmed string neither starts nor ends with whitespace. */
  lemma TrimmedEnds(s: string)
    ensures Trim(s) != [] ==> !IsJsWhitespace(Trim(s)[0]) && !IsJsWhitespace(Trim(s)[|Trim(s)| - 1])
  {
    var t := TrimStart(s);
    TrimEndPrefix(t);
    assert Trim(s) == t[..|Trim(s)|];
  }

  /** A string is blank exactly when every character is JavaScript whitespace. */
  lemma BlankIffAllWhitespace(s: string)
    ensures IsBlank(s) <==> forall i :: 0 <= i < |s| ==> IsJsWhitespace(s[i])
  {
    var t := TrimStart(s);
    TrimStartSuffix(s);
    TrimEndPrefix(t);
    assert t != [] ==> t[0] == s[|s| - |t|];
    assert Trim(s) == t[..|Trim(s)|];
  }

  function DigitChar(d: nat): (c: char)
    requires d < 10
    ensures IsDigit(c)
  {
    ('0' as int + d) as char
  }

  /** `String(n)` for a non-negative integer: its decimal digits, no leading zeros. */
  function NatToString(n: nat): (r: string)
    ensures |r| >= 1 && AllDigits(r)
    ensures n < 10 <==> |r| == 1
    decreases n
  {
    if n < 10 then [DigitChar(n)] else NatToString(n / 10) + [DigitChar(n % 10)]
  }

  /** `String(n)` for any integer. */
  function IntToString(n: int): (r: string)
  {
    if n < 0 then "-" + NatToString(-n) else NatToString(n)
  }

  function DigitValue(c: char): (d: nat)
    requires IsDigit(c)
    ensures d < 10
  {
    c as int - '0' as int
  }

  /** The value of a string of decimal digits (the inverse of `NatToString`). */
  function ParseNat(s: string): (n: nat)
    requires AllDigits(s)
  {
    if s == [] then 0 else ParseNat(s[..|s| - 1]) * 10 + DigitValue(s[|s| - 1])
  }

  lemma {:induction false} ParseNatToString(n: nat)
    ensures ParseNat(NatToString(n)) == n
    decreases n
  {
    var r := NatToString(n);
    if n >= 10 {
      assert r[..|r| - 1] == NatToString(n / 10);
      ParseNatToString(n / 10);
    }
  }

  /** Distinct numbers render as distinct decimal strings. */
  lemma NatToStringInjective(a: nat, b: nat)
    requires NatToString(a) == NatToString(b)
    ensures a == b
  {
    ParseNatToString(a);
    ParseNatToString(b);
  }

  /** `s.padStart(n, c)`. */
  function PadStart(s: string, n: nat, c: char): (r: string)
    ensures |r| == if |s| >= n then |s| else n
    ensures r[|r| - |s|..] == s
    ensures forall i :: 0 <= i < |r| - |s| ==> r[i] == c
  {
    if |s| >= n then s else seq(n - |s|, _ => c) + s
  }

  predicate StartsWith(s: string, p: string) { |p| <= |s| && s[..|p|] == p }

  /** A prefix of `a` is a prefix of anything that starts with `a`. */
  lemma PrefixExtend(a: string, b: string, p: string)
    requires StartsWith(a, p)
    ensures StartsWith(a + b, p)
  {
    assert (a + b)[..|p|] == a[..|p|];
  }

  predicate EndsWith(s: string, p: string) { |p| <= |s| && s[|s| - |p|..] == p }

  predicate OccursAt(s: string, p: string, i: int)
  {
    0 <= i <= |s| - |p| && s[i..i + |p|] == p
  }

  /** `s.includes(p)`. */
  predicate Contains(s: string, p: string)
  {
    exists i :: 0 <= i <= |s| - |p| && OccursAt(s, p, i)
  }

  lemma OccursShift(s: string, p: string, i: int)
    requires 0 < |s| && 0 <= i
    ensures OccursAt(s[1..], p, i) <==> OccursAt(s, p, i + 1)
  {
    if 0 <= i <= |s| - 1 - |p| {
      assert s[1..][i..i + |p|] == s[i + 1..i + 1 + |p|];
    }
  }

  /** An occurrence is at the front or in the tail. */
  lemma ContainsUnfold(s: string, p: string)
    requires 0 < |s|
    ensures Contains(s, p) <==> StartsWith(s, p) || Contains(s[1..], p)
  {
    ContainsFromParts(s, p);
    if Contains(s, p) {
      ContainsToParts(s, p);
    }
  }

  lemma ContainsFromParts(s: string, p: string)
    requires 0 < |s|
    ensures StartsWith(s, p) || Contains(s[1..], p) ==> Contains(s, p)
  {
    if StartsWith(s, p) {
      assert OccursAt(s, p, 0);
    } else if Contains(s[1..], p) {
      var i :| 0 <= i <= |s[1..]| - |p| && OccursAt(s[1..], p, i);
      OccursShift(s, p, i);
      assert OccursAt(s, p, i + 1);
    }
  }

  lemma ContainsToParts(s: string, p: string)
    requires 0 < |s| && Contains(s, p)
    ensures StartsWith(s, p) || Contains(s[1..], p)
  {
    var i :| 0 <= i <= |s| - |p| && OccursAt(s, p, i);
    if i > 0 {
      OccursShift(s, p, i - 1);
      assert OccursAt(s[1..], p, i - 1);
    } else {
      assert s[..|p|] == s[i..i + |p|];
    }
  }

  /** A left-to-right scan deciding `Contains`. */
  function Find(s: string, p: string): (r: bool)
    ensures r <==> Contains(s, p)
    decreases |s|
  {
    if StartsWith(s, p) then
      assert OccursAt(s, p, 0);
      true
    else if s == [] then
      false
    else
      ContainsUnfold(s, p);
      Find(s[1..], p)
  }

  /** `s.replace(/p/g, rep)` for a literal, non-empty pattern `p`. */
  function ReplaceAll(s: string, p: string, rep: string): (r: string)
    requires |p| > 0
    decreases |s|
  {
    if s == [] then []
    else if StartsWith(s, p) then rep + ReplaceAll(s[|p|..], p, rep)
    else [s[0]] + ReplaceAll(s[1..], p, rep)
  }

  /** With nothing to replace, the string comes back unchanged. */
  lemma {:induction false} ReplaceAllAbsent(s: string, p: string, rep: string)
    requires |p| > 0
    ensures !Contains(s, p) ==> ReplaceAll(s, p, rep) == s
    decreases |s|
  {
    if s != [] && !Contains(s, p) {
      ContainsUnfold(s, p);
      ReplaceAllAbsent(s[1..], p, rep);
    }
  }

  /** Replacing a pattern by itself changes nothing. */
  lemma {:induction false} ReplaceAllSelf(s: string, p: string)
    requires |p| > 0
    ensures ReplaceAll(s, p, p) == s
    decreases |s|
  {
    if s != [] {
      if StartsWith(s, p) {
        ReplaceAllSelf(s[|p|..], p);
        assert s == p + s[|p|..];
      } else {
        ReplaceAllSelf(s[1..], p);
        assert s == [s[0]] + s[1..];
      }
    }
  }

  /** One character in front of pieces already split: a separator starts a new piece, anything else joins the first. */
  function Pushed(c: char, sep: char, pieces: seq<string>): seq<string>
    requires |pieces| >= 1
  {
    if c == sep then [[]] + pieces else [[c] + pieces[0]] + pieces[1..]
  }

  /** `s.split(sep)` for a one-character separator. */
  function Split(s: string, sep: char): (r: seq<string>)
    ensures |r| >= 1
    ensures forall i :: 0 <= i < |r| ==> sep !in r[i]
    decreases |s|
  {
    if s == [] then [[]] else Pushed(s[0], sep, Split(s[1..], sep))
  }

  /** Joining the pieces of a split with the separator gives back the string. */
  lemma {:induction false} SplitJoin(s: string, sep: char)
    ensures Join(Split(s, sep), sep) == s
    decreases |s|
  {
    if s != [] {
      var rest := Split(s[1..], sep);
      SplitJoin(s[1..], sep);
      if s[0] != sep {
        JoinHead(rest, sep, s[0]);
      }
    }
  }

  function Join(parts: seq<string>, sep: char): (r: string)
    requires |parts| >= 1
    decreases |parts|
  {
    if |parts| == 1 then parts[0] else parts[0] + [sep] + Join(parts[1..], sep)
  }

  lemma JoinHead(parts: seq<string>, sep: char, c: char)
    requires |parts| >= 1
    ensures Join([[c] + parts[0]] + parts[1..], sep) == [c] + Join(parts, sep)
  {
    var q := [[c] + parts[0]] + parts[1..];
    assert q[1..] == parts[1..];
  }

  /** The number of pieces of a split is one more than the number of separators. */
  function Count(s: string, c: char): (n: nat)
    ensures n <= |s|
  {
    if s == [] then 0 else (if s[0] == c then 1 else 0) + Count(s[1..], c)
  }

  lemma {:induction false} SplitLength(s: string, sep: char)
    ensures |Split(s, sep)| == Count(s, sep) + 1
    decreases |s|
  {
    if s != [] {
      SplitLength(s[1..], sep);
    }
  }

  /** Splitting at a separator splits the two sides independently. */
  lemma {:induction false} SplitAtSep(a: string, b: string, sep: char)
    ensures Split(a + [sep] + b, sep) == Split(a, sep) + Split(b, sep)
    decreases |a|
  {
    var s := a + [sep] + b;
    if a == [] {
      assert s[1..] == b;
    } else {
      var c := a[0];
      var t := a[1..] + [sep] + b;
      assert s == [c] + t;
      assert [c] + a[1..] == a;
      SplitAtSep(a[1..], b, sep);
      SplitCons(c, t, sep);
      SplitCons(c, a[1..], sep);
      PushFront(c, sep, Split(a[1..], sep), Split(b, sep));
    }
  }

  lemma PushFront(c: char, sep: char, left: seq<string>, right: seq<string>)
    requires |left| >= 1
    ensures Pushed(c, sep, left + right) == Pushed(c, sep, left) + right
  {
    if c != sep {
      assert (left + right)[0] == left[0];
      assert (left + right)[1..] == left[1..] + right;
    }
  }

  /** One unfolding of `Split` at the front. */
  lemma SplitCons(c: char, t: string, sep: char)
    ensures Split([c] + t, sep) == Pushed(c, sep, Split(t, sep))
  {
    assert ([c] + t)[1..] == t;
  }

  /** A string without the separator is a single piece. */
  lemma {:induction false} SplitNoSep(s: string, sep: char)
    requires sep !in s
    ensures Split(s, sep) == [s]
    decreases |s|
  {
    if s != [] {
      assert sep !in s[1..] by {
        forall j | 0 <= j < |s[1..]| ensures s[1..][j] != sep { assert s[1..][j] == s[j + 1]; }
      }
      SplitNoSep(s[1..], sep);
      assert [s[0]] + s[1..] == s;
    }
  }

  /** The prefix of `s` before the first occurrence of `c` (`s.split(c)[0]`). */
  function Before(s: string, c: char): (r: string)
    ensures c !in r
    ensures r == Split(s, c)[0]
    ensures StartsWith(s, r)
    decreases |s|
  {
    if s == [] || s[0] == c then [] else [s[0]] + Before(s[1..], c)
  }

  function HexDigitChar(d: nat): (c: char)
    requires d < 16
  {
    if d < 10 then DigitChar(d) else ('a' as int + d - 10) as char
  }

  /** `n.toString(16)` for a non-negative integer. */
  function ToHex(n: nat): (r: string)
    ensures 1 <= |r|
    decreases n
  {
    if n < 16 then [HexDigitChar(n)] else ToHex(n / 16) + [HexDigitChar(n % 16)]
  }

  lemma {:induction false} ToHexShape(n: nat, k: nat)
    requires n < Pow16(k) && k >= 1
    ensures |ToHex(n)| <= k
    ensures forall i :: 0 <= i < |ToHex(n)| ==> IsDigit(ToHex(n)[i]) || 'a' <= ToHex(n)[i] <= 'f'
    decreases n
  {
    if n >= 16 {
      ToHexShape(n / 16, k - 1);
    }
  }

  function Pow16(k: nat): nat
  {
    if k == 0 then 1 else 16 * Pow16(k - 1)
  }

  /** JavaScript's `<` on two strings: the first differing character decides, and a proper prefix comes first. */
  predicate StrLt(a: string, b: string)
    decreases |a|
  {
    if a == [] then b != []
    else if b == [] then false
    else if a[0] != b[0] then a[0] < b[0]
    else StrLt(a[1..], b[1..])
  }

  lemma {:induction false} StrLtIrreflexive(a: string)
    ensures !StrLt(a, a)
    decreases |a|
  {
    if a != [] {
      StrLtIrreflexive(a[1..]);
    }
  }

  lemma {:induction false} StrLtTrichotomy(a: string, b: string)
    ensures a == b || StrLt(a, b) || StrLt(b, a)
    decreases |a|
  {
    if a != [] && b != [] && a[0] == b[0] {
      StrLtTrichotomy(a[1..], b[1..]);
      if a[1..] == b[1..] {
        assert a == [a[0]] + a[1..] && b == [b[0]] + b[1..];
      }
    }
  }

  lemma {:induction false} StrLtTransitive(a: string, b: string, c: string)
    requires StrLt(a, b) && StrLt(b, c)
    ensures StrLt(a, c)
    decreases |a|
  {
    if a != [] && a[0] == b[0] && b[0] == c[0] {
      StrLtTransitive(a[1..], b[1..], c[1..]);
    }
  }

  lemma StrLtAsymmetric(a: string, b: string)
    ensures !(StrLt(a, b) && StrLt(b, a))
  {
    if StrLt(a, b) && StrLt(b, a) {
      StrLtTransitive(a, b, a);
      StrLtIrreflexive(a);
    }
  }
}
