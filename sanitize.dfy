/**
 * Input sanitisation: cleaning free text, escaping HTML, reducing phone
 * numbers to digits, validating e-mail addresses, passwords and UUIDs, and
 * turning a title into a URL slug. Every function accepts a missing value
 * (`null`/`undefined`), modelled as `None`; like JavaScript's `!input`, the
 * empty string is treated the same way.
 */
module Sanitize {
  import opened Wrappers
  import opened Strings
  import PhoneUtils

  /** `!input` for an optional string. */
  predicate Falsy(input: Option<string>)
  {
    input.None? || input.value == []
  }

  // ---------------------------------------------------------------------
  // sanitizeText

  /** The class `[\x00-\x08\x0B\x0C\x0E-\x1F\x7F]`: control characters other than tab, newline and carriage return. */
  predicate IsStrippedControl(c: char)
  {
    c <= '\U{8}' || c == '\U{B}' || c == '\U{C}' || ('\U{E}' <= c <= '\U{1F}') || c == '\U{7F}'
  }

  predicate NoStrippedControls(s: string)
  {
    forall i :: 0 <= i < |s| ==> !IsStrippedControl(s[i])
  }

  /**
   * Removal of the stripped control characters. The source first removes
   * `\0` on its own; `\0` belongs to the class as well, so one pass does both.
   */
  function RemoveControls(s: string): (r: string)
    ensures NoStrippedControls(r)
    ensures |r| <= |s|
    ensures NoStrippedControls(s) ==> r == s
    ensures forall c :: !IsStrippedControl(c) ==> multiset(r)[c] == multiset(s)[c]
  {
    if s == [] then []
    else
      assert s == [s[0]] + s[1..];
      if IsStrippedControl(s[0]) then RemoveControls(s[1..])
      else [s[0]] + RemoveControls(s[1..])
  }

  /** Removal works piece by piece, so the characters kept stay in their order. */
  lemma {:induction false} RemoveControlsConcat(a: string, b: string)
    ensures RemoveControls(a + b) == RemoveControls(a) + RemoveControls(b)
    decreases |a|
  {
    if a == [] {
      assert a + b == b;
    } else {
      assert (a + b)[0] == a[0];
      assert (a + b)[1..] == a[1..] + b;
      RemoveControlsConcat(a[1..], b);
    }
  }

  /** Every character the removal keeps comes from the input. */
  lemma {:induction false} RemoveControlsKeeps(s: string, i: int)
    requires 0 <= i < |RemoveControls(s)|
    ensures RemoveControls(s)[i] in s
    decreases |s|
  {
    if IsStrippedControl(s[0]) {
      RemoveControlsKeeps(s[1..], i);
    } else if i > 0 {
      RemoveControlsKeeps(s[1..], i - 1);
    }
  }

  /** Text with no control character and no whitespace at its ends passes unchanged. */
  lemma CleanTextKept(s: string)
    ensures NoStrippedControls(s) && (s != [] ==> !IsJsWhitespace(s[0]) && !IsJsWhitespace(s[|s| - 1]))
      ==> Trim(RemoveControls(s)) == s
  {
    if NoStrippedControls(s) && (s != [] ==> !IsJsWhitespace(s[0]) && !IsJsWhitespace(s[|s| - 1])) {
      TrimIdentity(s);
    }
  }

  /**
   * `sanitizeText`: no stripped control character survives, nothing is left
   * at either end that `trim()` would remove, and a missing or empty input
   * gives the empty string.
   */
  function SanitizeText(input: Option<string>): (r: string)
    ensures Falsy(input) ==> r == []
    ensures NoStrippedControls(r)
    ensures r != [] ==> !IsJsWhitespace(r[0]) && !IsJsWhitespace(r[|r| - 1])
    ensures |r| <= if input.Some? then |input.value| else 0
    ensures input.Some? && NoStrippedControls(input.value)
      && (input.value != [] ==> !IsJsWhitespace(input.value[0]) && !IsJsWhitespace(input.value[|input.value| - 1]))
      ==> r == input.value
  {
    if Falsy(input) then []
    else
      SanitizedFacts(input.value);
      Trim(RemoveControls(input.value))
  }

  /** What `sanitizeText` promises, for a present input. */
  lemma SanitizedFacts(s: string)
    ensures var r := Trim(RemoveControls(s));
      NoStrippedControls(r)
      && (r != [] ==> !IsJsWhitespace(r[0]) && !IsJsWhitespace(r[|r| - 1]))
      && |r| <= |s|
      && (NoStrippedControls(s) && (s != [] ==> !IsJsWhitespace(s[0]) && !IsJsWhitespace(s[|s| - 1])) ==> r == s)
  {
    CleanTextKept(s);
    TrimmedClean(RemoveControls(s));
  }

  /** Trimming text without control characters keeps it so and leaves no whitespace at its ends. */
  lemma TrimmedClean(c: string)
    requires NoStrippedControls(c)
    ensures NoStrippedControls(Trim(c))
    ensures Trim(c) != [] ==> !IsJsWhitespace(Trim(c)[0]) && !IsJsWhitespace(Trim(c)[|Trim(c)| - 1])
  {
    TrimmedEnds(c);
    forall i | 0 <= i < |Trim(c)| ensures !IsStrippedControl(Trim(c)[i]) {
      TrimChars(c, i);
    }
  }

  /**
   * `r` sits at `lo` in `c`, and only whitespace lies before and after it.
   */
  predicate WhitespaceAround(c: string, r: string, lo: int)
  {
    0 <= lo <= |c| - |r| && r == c[lo..lo + |r|]
    && (forall k :: 0 <= k < lo ==> IsJsWhitespace(c[k]))
    && (forall k :: lo + |r| <= k < |c| ==> IsJsWhitespace(c[k]))
  }

  /** `trim()` cuts whitespace only, around a contiguous run of its input. */
  lemma TrimAround(c: string)
    ensures WhitespaceAround(c, Trim(c), |c| - |TrimStart(c)|)
  {
    var t := TrimStart(c);
    var r := TrimEnd(t);
    TrimStartSuffix(c);
    TrimEndPrefix(t);
    CutAround(c, t, r, |c| - |t|);
  }

  /** Whitespace cut from the front of `c`, then from the back of what is left. */
  lemma CutAround(c: string, t: string, r: string, lo: int)
    requires 0 <= lo <= |c| && t == c[lo..] && |r| <= |t| && r == t[..|r|]
    requires forall k :: 0 <= k < lo ==> IsJsWhitespace(c[k])
    requires forall i :: |r| <= i < |t| ==> IsJsWhitespace(t[i])
    ensures WhitespaceAround(c, r, lo)
  {
    SliceOfSuffix(c, t, r, lo);
    TrailingWhitespace(c, t, r, lo);
  }

  lemma SliceOfSuffix(c: string, t: string, r: string, lo: int)
    requires 0 <= lo <= |c| && t == c[lo..] && |r| <= |t| && r == t[..|r|]
    ensures r == c[lo..lo + |r|]
  {
  }

  lemma TrailingWhitespace(c: string, t: string, r: string, lo: int)
    requires 0 <= lo <= |c| && t == c[lo..] && |r| <= |t|
    requires forall i :: |r| <= i < |t| ==> IsJsWhitespace(t[i])
    ensures forall k :: lo + |r| <= k < |c| ==> IsJsWhitespace(c[k])
  {
    forall k | lo + |r| <= k < |c| ensures IsJsWhitespace(c[k]) {
      assert c[k] == t[k - lo];
    }
  }

  /**
   * What `sanitizeText` keeps: a contiguous run of the text with its control
   * characters removed, with nothing but whitespace cut off before and after
   * it. So every character between the first and the last non-whitespace
   * one survives, in place.
   */
  lemma SanitizeTextKeepsText(input: Option<string>)
    requires !Falsy(input)
    ensures exists lo :: WhitespaceAround(RemoveControls(input.value), SanitizeText(input), lo)
  {
    var c := RemoveControls(input.value);
    TrimAround(c);
    assert WhitespaceAround(c, SanitizeText(input), |c| - |TrimStart(c)|);
  }

  /** Sanitising sanitised text changes nothing. */
  lemma SanitizeTextIdempotent(input: Option<string>)
    ensures SanitizeText(Some(SanitizeText(input))) == SanitizeText(input)
  {
    var r := SanitizeText(input);
    if r != [] {
      assert RemoveControls(r) == r;
      TrimIdentity(r);
    }
  }

  // ---------------------------------------------------------------------
  // escapeHtml

  /** The class `[&<>"'`=/]` of characters `escapeHtml` replaces. */
  predicate IsHtmlSpecial(c: char)
  {
    c == '&' || c == '<' || c == '>' || c == '"' || c == '\'' || c == '/' || c == '`' || c == '='
  }

  /** The name between '&' and ';' of each special character's entity. */
  function EntityName(c: char): (name: string)
    requires IsHtmlSpecial(c)
    ensures ';' !in name && |name| >= 2
  {
    match c
    case '&' => "amp"
    case '<' => "lt"
    case '>' => "gt"
    case '"' => "quot"
    case '\'' => "#39"
    case '/' => "#x2F"
    case '`' => "#x60"
    case _ => "#x3D"
  }

  /** The replacement for one character: its entity if special, else itself. */
  function Entity(c: char): string
  {
    if IsHtmlSpecial(c) then "&" + EntityName(c) + ";" else [c]
  }

  /** The characters an escaped string must not contain (all specials but '&', which starts every entity). */
  predicate IsRawMarkup(c: char)
  {
    IsHtmlSpecial(c) && c != '&'
  }

  lemma EntityClean(c: char)
    ensures forall i :: 0 <= i < |Entity(c)| ==> !IsRawMarkup(Entity(c)[i])
  {
  }

  /** `input.replace(/[&<>"'`=/]/g, ...)` on a present string. */
  function Escape(s: string): (r: string)
    ensures forall i :: 0 <= i < |r| ==> !IsRawMarkup(r[i])
    ensures |r| >= |s|
  {
    if s == [] then []
    else
      EntityClean(s[0]);
      Entity(s[0]) + Escape(s[1..])
  }

  /** `escapeHtml`. */
  function EscapeHtml(input: Option<string>): (r: string)
    ensures Falsy(input) ==> r == []
    ensures forall i :: 0 <= i < |r| ==> !IsRawMarkup(r[i])
    ensures !Falsy(input) ==> Unescape(r) == input.value
  {
    if Falsy(input) then []
    else
      UnescapeEscape(input.value);
      Escape(input.value)
  }

  /** The character named by an entity name, when it is one of the eight. */
  function CharOfEntity(name: string): (r: Option<char>)
    ensures r.Some? ==> IsHtmlSpecial(r.value) && EntityName(r.value) == name
  {
    if name == "amp" then Some('&')
    else if name == "lt" then Some('<')
    else if name == "gt" then Some('>')
    else if name == "quot" then Some('"')
    else if name == "#39" then Some('\'')
    else if name == "#x2F" then Some('/')
    else if name == "#x60" then Some('`')
    else if name == "#x3D" then Some('=')
    else None
  }

  lemma CharOfEntityName(c: char)
    requires IsHtmlSpecial(c)
    ensures CharOfEntity(EntityName(c)) == Some(c)
  {
  }

  /** Decoding of the eight entities `escapeHtml` produces; anything else is kept. */
  function Unescape(s: string): string
    decreases |s|
  {
    if s == [] then []
    else if s[0] == '&' && ';' in s[1..] then
      var name := Before(s[1..], ';');
      match CharOfEntity(name)
      case Some(c) => [c] + Unescape(s[|name| + 2..])
      case None => "&" + Unescape(s[1..])
    else [s[0]] + Unescape(s[1..])
  }

  lemma {:induction false} BeforeUpTo(a: string, b: string, c: char)
    requires c !in a
    ensures Before(a + [c] + b, c) == a
    decreases |a|
  {
    if a != [] {
      assert (a + [c] + b)[1..] == a[1..] + [c] + b;
      BeforeUpTo(a[1..], b, c);
    }
  }

  /** Decoding one character's replacement, in front of anything, gives the character back. */
  lemma UnescapeEntity(c: char, rest: string)
    ensures Unescape(Entity(c) + rest) == [c] + Unescape(rest)
  {
    var s := Entity(c) + rest;
    if IsHtmlSpecial(c) {
      var name := EntityName(c);
      assert s == "&" + (name + [';'] + rest);
      assert s[1..] == name + [';'] + rest;
      assert s[1..][|name|] == ';';
      BeforeUpTo(name, rest, ';');
      CharOfEntityName(c);
      assert s[|name| + 2..] == rest;
    } else {
      assert s[1..] == rest;
    }
  }

  /** Escaping loses nothing: decoding the entities gives the input back. */
  lemma {:induction false} UnescapeEscape(s: string)
    ensures Unescape(Escape(s)) == s
  {
    if s != [] {
      UnescapeEntity(s[0], Escape(s[1..]));
      UnescapeEscape(s[1..]);
    }
  }

  /** Text with no special character is left as it is. */
  lemma {:induction false} EscapePlain(s: string)
    requires forall i :: 0 <= i < |s| ==> !IsHtmlSpecial(s[i])
    ensures Escape(s) == s
  {
    if s != [] {
      EscapePlain(s[1..]);
    }
  }

  // ---------------------------------------------------------------------
  // sanitizePhoneNumber and formatPhoneNumber

  /** `sanitizePhoneNumber`: the digits of the input, in order. */
  function SanitizePhoneNumber(input: Option<string>): (r: string)
    ensures AllDigits(r)
    ensures input.Some? ==> r == Digits(input.value)
    ensures input.None? ==> r == []
  {
    if Falsy(input) then [] else DigitsAreDigits(input.value); Digits(input.value)
  }

  /** `formatPhoneNumber`: masks for 11-digit mobiles and 10-digit landlines, the bare digits otherwise. */
  function FormatPhoneNumber(input: Option<string>): (r: string)
    ensures var d := SanitizePhoneNumber(input); |d| != 10 && |d| != 11 ==> r == d
  {
    var digits := SanitizePhoneNumber(input);
    if |digits| == 11 then PhoneUtils.AreaMask(digits, 7)
    else if |digits| == 10 then PhoneUtils.AreaMask(digits, 6)
    else digits
  }

  /** Formatting only adds punctuation: the digits of the result are the input's digits. */
  lemma FormatPhoneNumberKeepsDigits(input: Option<string>)
    ensures Digits(FormatPhoneNumber(input)) == SanitizePhoneNumber(input)
  {
    var d := SanitizePhoneNumber(input);
    if |d| == 11 {
      PhoneUtils.AreaMaskDigits(d, 7);
    } else if |d| == 10 {
      PhoneUtils.AreaMaskDigits(d, 6);
    } else {
      DigitsOfDigits(d);
    }
  }

  /** The masks: "(XX) XXXXX-XXXX" for 11 digits and "(XX) XXXX-XXXX" for 10. */
  lemma FormatPhoneNumberShape(input: Option<string>)
    ensures var d := SanitizePhoneNumber(input); var r := FormatPhoneNumber(input);
      (|d| == 11 ==> |r| == 15 && r[0] == '(' && r[3] == ')' && r[4] == ' ' && r[10] == '-')
      && (|d| == 10 ==> |r| == 14 && r[0] == '(' && r[3] == ')' && r[4] == ' ' && r[9] == '-')
  {
    var d := SanitizePhoneNumber(input);
    if |d| == 11 {
      PhoneUtils.AreaMaskShape(d, 7);
    } else if |d| == 10 {
      PhoneUtils.AreaMaskShape(d, 6);
    }
  }

  // ---------------------------------------------------------------------
  // validateEmail

  /** `{ isValid, error? }`. */
  datatype Validation = Validation(isValid: bool, error: Option<string>)

  const EmailRequired := "Email é obrigatório"
  const EmailInvalid := "Email inválido"
  const EmailTooLong := "Email muito longo"
  const MaxEmailLength := 254

  /** `[a-zA-Z0-9.!#$%&'*+/=?^_`{|}~-]`. */
  predicate IsLocalChar(c: char)
  {
    IsAsciiAlnum(c) || c in ".!#$%&'*+/=?^_`{|}~-"
  }

  /** `[a-zA-Z0-9](?:[a-zA-Z0-9-]{0,61}[a-zA-Z0-9])?`: 1 to 63 characters, alphanumeric at both ends, hyphens allowed inside. */
  predicate IsDomainLabel(l: string)
  {
    1 <= |l| <= 63 && IsAsciiAlnum(l[0]) && IsAsciiAlnum(l[|l| - 1])
    && forall i :: 0 < i < |l| - 1 ==> IsAsciiAlnum(l[i]) || l[i] == '-'
  }

  /**
   * The e-mail pattern: one or more local characters, '@', then one or more
   * domain labels separated by '.'. As '@' is not a local character, the
   * local part is everything before the first '@'.
   */
  predicate MatchesEmailPattern(s: string)
  {
    '@' in s
    && var local := Before(s, '@');
    && 1 <= |local| && (forall i :: 0 <= i < |local| ==> IsLocalChar(local[i]))
    && var labels := Split(s[|local| + 1..], '.');
    && forall k :: 0 <= k < |labels| ==> IsDomainLabel(labels[k])
  }

  /** `validateEmail`: the first failing check, in the order `validateEmail` runs them, names the error. */
  function ValidateEmail(email: Option<string>): (r: Validation)
    ensures r.isValid <==> r.error.None?
    ensures r.isValid <==> email.Some? && MatchesEmailPattern(email.value) && |email.value| <= MaxEmailLength
    ensures (Falsy(email) || IsBlank(email.value)) ==> r.error == Some(EmailRequired)
    ensures !Falsy(email) && !IsBlank(email.value) && !MatchesEmailPattern(email.value) ==> r.error == Some(EmailInvalid)
    ensures !Falsy(email) && MatchesEmailPattern(email.value) && |email.value| > MaxEmailLength ==> r.error == Some(EmailTooLong)
  {
    if Falsy(email) || IsBlank(email.value) then Validation(false, Some(EmailRequired))
    else if !MatchesEmailPattern(email.value) then Validation(false, Some(EmailInvalid))
    else if |email.value| > MaxEmailLength then Validation(false, Some(EmailTooLong))
    else Validation(true, None)
  }

  /** An address the pattern accepts is never blank, so it has no leading whitespace to trim. */
  lemma EmailPatternNotBlank(s: string)
    requires MatchesEmailPattern(s)
    ensures !IsBlank(s) && s != []
  {
    var local := Before(s, '@');
    assert s[..|local|] == local;
    assert s[0] == local[0];
    assert IsLocalChar(s[0]);
    BlankIffAllWhitespace(s);
  }

  /** An accepted address has exactly one '@': the local part and the labels have none. */
  lemma {:induction false} EmailSingleAt(s: string)
    requires MatchesEmailPattern(s)
    ensures Count(s, '@') == 1
  {
    var local := Before(s, '@');
    var domain := s[|local| + 1..];
    assert s[..|local|] == local;
    assert s[|local|] == '@' by {
      assert '@' in s;
      BeforeStops(s, '@');
    }
    var tail := ['@'] + domain;
    assert s == local + tail;
    CountConcat(local, tail, '@');
    CountConcat(['@'], domain, '@');
    CountAbsent(local, '@');
    SplitJoin(domain, '.');
    var labels := Split(domain, '.');
    forall k | 0 <= k < |labels| ensures '@' !in labels[k] {
      LabelHasNoAt(labels[k]);
    }
    JoinAbsent(labels, '.', '@');
    CountAbsent(domain, '@');
  }

  /** When `c` occurs, the prefix before it stops right at its first occurrence. */
  lemma {:induction false} BeforeStops(s: string, c: char)
    requires c in s
    ensures |Before(s, c)| < |s| && s[|Before(s, c)|] == c
    decreases |s|
  {
    if s[0] != c {
      assert c in s[1..] by {
        var j :| 0 <= j < |s| && s[j] == c;
        assert s[1..][j - 1] == c;
      }
      BeforeStops(s[1..], c);
    }
  }

  lemma {:induction false} CountConcat(a: string, b: string, c: char)
    ensures Count(a + b, c) == Count(a, c) + Count(b, c)
    decreases |a|
  {
    if a != [] {
      assert (a + b)[1..] == a[1..] + b;
      CountConcat(a[1..], b, c);
    } else {
      assert a + b == b;
    }
  }

  lemma {:induction false} CountAbsent(s: string, c: char)
    requires c !in s
    ensures Count(s, c) == 0
    decreases |s|
  {
    if s != [] {
      assert c !in s[1..] by {
        forall j | 0 <= j < |s[1..]| ensures s[1..][j] != c { assert s[1..][j] == s[j + 1]; }
      }
      CountAbsent(s[1..], c);
    }
  }

  /** Joining pieces that avoid `c` with a separator other than `c` gives a string that avoids `c`. */
  lemma {:induction false} JoinAbsent(parts: seq<string>, sep: char, c: char)
    requires |parts| >= 1 && sep != c
    requires forall k :: 0 <= k < |parts| ==> c !in parts[k]
    ensures c !in Join(parts, sep)
    decreases |parts|
  {
    if |parts| > 1 {
      JoinAbsent(parts[1..], sep, c);
    }
  }

  /** A domain label holds only letters, digits and hyphens. */
  lemma LabelHasNoAt(l: string)
    requires IsDomainLabel(l)
    ensures '@' !in l
  {
    forall i | 0 <= i < |l| ensures l[i] != '@' {
      if 0 < i < |l| - 1 {
        assert IsAsciiAlnum(l[i]) || l[i] == '-';
      }
    }
  }

  // ---------------------------------------------------------------------
  // sanitizeSlug

  /** `[\s_]`. */
  predicate IsSlugSeparator(c: char)
  {
    IsJsWhitespace(c) || c == '_'
  }

  predicate IsHyphen(c: char)
  {
    c == '-'
  }

  /** `[a-z0-9-]`. */
  predicate IsSlugChar(c: char)
  {
    IsAsciiLower(c) || IsDigit(c) || c == '-'
  }

  /** No two hyphens in a row. */
  predicate NoDoubleHyphen(s: string)
  {
    forall i :: 0 <= i < |s| - 1 ==> !(s[i] == '-' && s[i + 1] == '-')
  }

  /** What `sanitizeSlug` promises: only `[a-z0-9-]`, no "--", and no hyphen at either end. */
  predicate IsSlug(s: string)
  {
    (forall i :: 0 <= i < |s| ==> IsSlugChar(s[i]))
    && NoDoubleHyphen(s)
    && (s != [] ==> s[0] != '-' && s[|s| - 1] != '-')
  }

  /** The suffix after the run of `p`-characters at the front. */
  function DropRun(s: string, p: char -> bool): (r: string)
    ensures |r| <= |s|
    ensures r != [] ==> !p(r[0])
    ensures forall i :: 0 <= i < |s| - |r| ==> p(s[i])
  {
    if s != [] && p(s[0]) then DropRun(s[1..], p) else s
  }

  /** What `DropRun` leaves is a suffix of its input. */
  lemma {:induction false} DropRunSuffix(s: string, p: char -> bool)
    ensures DropRun(s, p) == s[|s| - |DropRun(s, p)|..]
  {
    if s != [] && p(s[0]) {
      DropRunSuffix(s[1..], p);
    }
  }

  /** `s.replace(/P+/g, '-')`: every maximal run of `p`-characters becomes one '-'. */
  function CollapseRuns(s: string, p: char -> bool): (r: string)
    ensures forall i :: 0 <= i < |r| ==> r[i] == '-' || !p(r[i])
    ensures s != [] && !p(s[0]) ==> r != [] && r[0] == s[0]
    ensures s != [] && p(s[0]) ==> r != [] && r[0] == '-'
    ensures p('-') ==> NoDoubleHyphen(r)
    decreases |s|
  {
    if s == [] then []
    else if p(s[0]) then
      var t := CollapseRuns(DropRun(s[1..], p), p);
      ConsCollapsed('-', t, p);
      "-" + t
    else
      var t := CollapseRuns(s[1..], p);
      ConsCollapsed(s[0], t, p);
      [s[0]] + t
  }

  /** One more character in front of a collapsed text keeps it collapsed. */
  lemma ConsCollapsed(c: char, t: string, p: char -> bool)
    requires c == '-' || !p(c)
    requires forall i :: 0 <= i < |t| ==> t[i] == '-' || !p(t[i])
    requires p('-') ==> NoDoubleHyphen(t)
    requires p('-') && c == '-' && t != [] ==> !p(t[0])
    ensures forall i :: 0 <= i < |[c] + t| ==> ([c] + t)[i] == '-' || !p(([c] + t)[i])
    ensures p('-') ==> NoDoubleHyphen([c] + t)
  {
    var r := [c] + t;
    forall i | 1 <= i < |r| ensures r[i] == t[i - 1] {
    }
  }

  /** A run is dropped up to the first character outside it. */
  lemma {:induction false} DropRunConcat(x: string, c: char, y: string, p: char -> bool)
    requires !p(c)
    ensures DropRun(x + [c] + y, p) == DropRun(x, p) + [c] + y
    decreases |x|
  {
    if x == [] {
      assert x + [c] + y == [c] + y;
    } else if p(x[0]) {
      assert (x + [c] + y)[1..] == x[1..] + [c] + y;
      DropRunConcat(x[1..], c, y, p);
    } else {
      assert (x + [c] + y)[0] == x[0];
    }
  }

  /** A whole run in front is dropped, and what follows it is kept. */
  lemma {:induction false} DropWholeRun(run: string, rest: string, p: char -> bool)
    requires forall i :: 0 <= i < |run| ==> p(run[i])
    requires rest == [] || !p(rest[0])
    ensures DropRun(run + rest, p) == rest
    decreases |run|
  {
    if run == [] {
      assert run + rest == rest;
    } else {
      assert (run + rest)[0] == run[0];
      assert (run + rest)[1..] == run[1..] + rest;
      DropWholeRun(run[1..], rest, p);
    }
  }

  /**
   * Runs never cross a character outside the class: collapsing works on the
   * two sides of such a character separately, and keeps it in place.
   */
  lemma {:induction false} CollapseRunsAtSeparator(a: string, c: char, b: string, p: char -> bool)
    requires !p(c)
    ensures CollapseRuns(a + [c] + b, p) == CollapseRuns(a, p) + [c] + CollapseRuns(b, p)
    decreases |a|
  {
    if a == [] {
      assert a + [c] + b == [c] + b;
      CollapseRunsCons(c, b, p);
    } else if p(a[0]) {
      CollapseRunsAtSeparator(DropRun(a[1..], p), c, b, p);
      SeparatorAfterRun(a, c, b, p);
    } else {
      CollapseRunsAtSeparator(a[1..], c, b, p);
      SeparatorAfterOther(a, c, b, p);
    }
  }

  /** How collapsing starts: a class character opens a run, any other is kept. */
  lemma CollapseRunsCons(x: char, t: string, p: char -> bool)
    ensures CollapseRuns([x] + t, p) ==
      if p(x) then "-" + CollapseRuns(DropRun(t, p), p) else [x] + CollapseRuns(t, p)
  {
    assert ([x] + t)[0] == x && ([x] + t)[1..] == t;
  }

  lemma SeparatorAfterRun(a: string, c: char, b: string, p: char -> bool)
    requires a != [] && p(a[0]) && !p(c)
    requires var d := DropRun(a[1..], p);
      CollapseRuns(d + [c] + b, p) == CollapseRuns(d, p) + [c] + CollapseRuns(b, p)
    ensures CollapseRuns(a + [c] + b, p) == CollapseRuns(a, p) + [c] + CollapseRuns(b, p)
  {
    var t := a[1..];
    SplitFront(a, c, b);
    CollapseRunsCons(a[0], t + [c] + b, p);
    CollapseRunsCons(a[0], t, p);
    DropRunConcat(t, c, b, p);
    var d := DropRun(t, p);
    Chain(CollapseRuns(a + [c] + b, p), CollapseRuns(d + [c] + b, p), CollapseRuns(a, p),
      CollapseRuns(d, p), CollapseRuns(b, p), "-", c);
  }

  lemma SeparatorAfterOther(a: string, c: char, b: string, p: char -> bool)
    requires a != [] && !p(a[0]) && !p(c)
    requires CollapseRuns(a[1..] + [c] + b, p) == CollapseRuns(a[1..], p) + [c] + CollapseRuns(b, p)
    ensures CollapseRuns(a + [c] + b, p) == CollapseRuns(a, p) + [c] + CollapseRuns(b, p)
  {
    var t := a[1..];
    SplitFront(a, c, b);
    CollapseRunsCons(a[0], t + [c] + b, p);
    CollapseRunsCons(a[0], t, p);
    Chain(CollapseRuns(a + [c] + b, p), CollapseRuns(t + [c] + b, p), CollapseRuns(a, p),
      CollapseRuns(t, p), CollapseRuns(b, p), [a[0]], c);
  }

  lemma SplitFront(a: string, c: char, b: string)
    requires a != []
    ensures a == [a[0]] + a[1..]
    ensures a + [c] + b == [a[0]] + (a[1..] + [c] + b)
  {
  }

  /** Sequence regrouping: `x = h t`, `a = h u` and `t = u c b` give `x = a c b`. */
  lemma Chain(x: string, t: string, a: string, u: string, b: string, h: string, c: char)
    requires x == h + t && a == h + u && t == u + [c] + b
    ensures x == a + [c] + b
  {
  }

  lemma Regroup3(h: string, x: string, y: string)
    ensures h + (x + y) == (h + x) + y
  {
  }

  /** A maximal run of class characters becomes a single '-'. */
  lemma CollapseWholeRun(run: string, rest: string, p: char -> bool)
    requires run != [] && forall i :: 0 <= i < |run| ==> p(run[i])
    requires rest == [] || !p(rest[0])
    ensures CollapseRuns(run + rest, p) == "-" + CollapseRuns(rest, p)
  {
    assert (run + rest)[0] == run[0];
    assert (run + rest)[1..] == run[1..] + rest;
    DropWholeRun(run[1..], rest, p);
  }

  /** Collapsing introduces no character but '-': a class holding '-' and every input character holds the output. */
  lemma {:induction false} CollapseRunsWithin(s: string, p: char -> bool, q: char -> bool)
    requires q('-') && forall i :: 0 <= i < |s| ==> q(s[i])
    ensures forall i :: 0 <= i < |CollapseRuns(s, p)| ==> q(CollapseRuns(s, p)[i])
    decreases |s|
  {
    if s != [] {
      var rest := if p(s[0]) then DropRun(s[1..], p) else s[1..];
      DropRunSuffix(s[1..], p);
      SuffixWithin(s, rest, q);
      CollapseRunsWithin(rest, p, q);
      HeadWithin(if p(s[0]) then '-' else s[0], CollapseRuns(rest, p), q);
    }
  }

  lemma SuffixWithin(s: string, t: string, q: char -> bool)
    requires forall i :: 0 <= i < |s| ==> q(s[i])
    requires |t| <= |s| && t == s[|s| - |t|..]
    ensures forall i :: 0 <= i < |t| ==> q(t[i])
  {
    forall i | 0 <= i < |t| ensures q(t[i]) {
      assert t[i] == s[|s| - |t| + i];
    }
  }

  lemma HeadWithin(c: char, t: string, q: char -> bool)
    requires q(c) && forall i :: 0 <= i < |t| ==> q(t[i])
    ensures forall i :: 0 <= i < |[c] + t| ==> q(([c] + t)[i])
  {
  }

  /** A string without `p`-characters has no runs to collapse. */
  lemma {:induction false} CollapseRunsNone(s: string, p: char -> bool)
    requires forall i :: 0 <= i < |s| ==> !p(s[i])
    ensures CollapseRuns(s, p) == s
    decreases |s|
  {
    if s != [] {
      CollapseRunsNone(s[1..], p);
    }
  }

  /** Collapsing hyphen runs leaves a string with no "--" unchanged. */
  lemma {:induction false} CollapseHyphensSingle(s: string)
    requires NoDoubleHyphen(s)
    ensures CollapseRuns(s, IsHyphen) == s
    decreases |s|
  {
    if s != [] {
      if s[0] == '-' {
        assert DropRun(s[1..], IsHyphen) == s[1..];
        CollapseHyphensSingle(s[1..]);
      } else {
        CollapseHyphensSingle(s[1..]);
      }
    }
  }

  /** `s.replace(/[^a-z0-9-]/g, '')`. */
  function KeepSlugChars(s: string): (r: string)
    ensures forall i :: 0 <= i < |r| ==> IsSlugChar(r[i])
    ensures (forall i :: 0 <= i < |s| ==> IsSlugChar(s[i])) ==> r == s
    ensures forall c :: IsSlugChar(c) ==> multiset(r)[c] == multiset(s)[c]
  {
    if s == [] then []
    else
      var rest := KeepSlugChars(s[1..]);
      KeepSlugStep(s, rest);
      if IsSlugChar(s[0]) then [s[0]] + rest else rest
  }

  /** One step of `KeepSlugChars`: what holds of the tail's result holds after the head is looked at. */
  lemma KeepSlugStep(s: string, rest: string)
    requires s != []
    requires forall i :: 0 <= i < |rest| ==> IsSlugChar(rest[i])
    requires (forall i :: 0 <= i < |s[1..]| ==> IsSlugChar(s[1..][i])) ==> rest == s[1..]
    requires forall c :: IsSlugChar(c) ==> multiset(rest)[c] == multiset(s[1..])[c]
    ensures var r := if IsSlugChar(s[0]) then [s[0]] + rest else rest;
      (forall i :: 0 <= i < |r| ==> IsSlugChar(r[i]))
      && ((forall i :: 0 <= i < |s| ==> IsSlugChar(s[i])) ==> r == s)
      && (forall c :: IsSlugChar(c) ==> multiset(r)[c] == multiset(s)[c])
  {
    SplitHead(s);
    if forall i :: 0 <= i < |s| ==> IsSlugChar(s[i]) {
      assert forall i :: 0 <= i < |s[1..]| ==> IsSlugChar(s[1..][i]) by {
        forall i | 0 <= i < |s[1..]| ensures IsSlugChar(s[1..][i]) {
          assert s[1..][i] == s[i + 1];
        }
      }
    }
  }

  lemma SplitHead(s: string)
    requires s != []
    ensures multiset(s) == multiset([s[0]]) + multiset(s[1..])
  {
    assert s == [s[0]] + s[1..];
  }

  /** Removal works piece by piece, so the characters kept stay in their order. */
  lemma {:induction false} KeepSlugCharsConcat(a: string, b: string)
    ensures KeepSlugChars(a + b) == KeepSlugChars(a) + KeepSlugChars(b)
    decreases |a|
  {
    if a == [] {
      assert a + b == b;
    } else {
      KeepSlugCharsConcat(a[1..], b);
      ConsAppend(a, b);
      KeepSlugCharsCons(a[0], a[1..] + b);
      KeepSlugCharsCons(a[0], a[1..]);
      Regroup3(if IsSlugChar(a[0]) then [a[0]] else [], KeepSlugChars(a[1..]), KeepSlugChars(b));
    }
  }

  lemma ConsAppend(a: string, b: string)
    requires a != []
    ensures a == [a[0]] + a[1..]
    ensures a + b == [a[0]] + (a[1..] + b)
  {
  }

  lemma KeepSlugCharsCons(c: char, t: string)
    ensures KeepSlugChars([c] + t) == (if IsSlugChar(c) then [c] else []) + KeepSlugChars(t)
  {
    assert ([c] + t)[0] == c && ([c] + t)[1..] == t;
  }

  /** The number of hyphens at the front of `s`. */
  function LeadingHyphens(s: string): (n: nat)
    ensures n <= |s|
  {
    |s| - |DropRun(s, IsHyphen)|
  }

  /** `s.replace(/^-+|-+$/g, '')`: what is left between the hyphen runs at the two ends. */
  function StripHyphens(s: string): (r: string)
    ensures r != [] ==> r[0] != '-' && r[|r| - 1] != '-'
    ensures LeadingHyphens(s) + |r| <= |s| && r == s[LeadingHyphens(s)..LeadingHyphens(s) + |r|]
    ensures s != [] && s[0] != '-' && s[|s| - 1] != '-' ==> r == s
    ensures forall k :: 0 <= k < LeadingHyphens(s) ==> s[k] == '-'
    ensures forall k :: LeadingHyphens(s) + |r| <= k < |s| ==> s[k] == '-'
  {
    var t := DropRun(s, IsHyphen);
    var r := DropLastRun(t);
    DropRunSuffix(s, IsHyphen);
    DropLastRunPrefix(t);
    forall k | LeadingHyphens(s) + |r| <= k < |s| ensures s[k] == '-' {
      assert s[k] == t[k - LeadingHyphens(s)];
    }
    r
  }

  function DropLastRun(s: string): (r: string)
    ensures |r| <= |s|
    ensures r != [] ==> r[|r| - 1] != '-'
    ensures s != [] && s[|s| - 1] != '-' ==> r == s
    ensures forall i :: |r| <= i < |s| ==> s[i] == '-'
  {
    if s != [] && s[|s| - 1] == '-' then DropLastRun(s[..|s| - 1]) else s
  }
  /** What `DropLastRun` leaves is a prefix of its input. */
  lemma {:induction false} DropLastRunPrefix(s: string)
    ensures DropLastRun(s) == s[..|DropLastRun(s)|]
  {
    if s != [] && s[|s| - 1] == '-' {
      DropLastRunPrefix(s[..|s| - 1]);
    }
  }


  /** Collapsing hyphen runs keeps a string within `[a-z0-9-]`. */
  lemma CollapseKeepsSlugChars(s: string)
    requires forall i :: 0 <= i < |s| ==> IsSlugChar(s[i])
    ensures var r := CollapseRuns(s, IsHyphen);
      (forall i :: 0 <= i < |r| ==> IsSlugChar(r[i])) && NoDoubleHyphen(r)
  {
    CollapseRunsWithin(s, IsHyphen, IsSlugChar);
  }

  /** Stripping the end hyphens of a string within `[a-z0-9-]` without "--" leaves a slug. */
  lemma StripMakesSlug(s: string)
    requires forall i :: 0 <= i < |s| ==> IsSlugChar(s[i])
    requires NoDoubleHyphen(s)
    ensures IsSlug(StripHyphens(s))
  {
    var r := StripHyphens(s);
    var k := LeadingHyphens(s);
    SliceKeepsSlugChars(s, k, k + |r|);
  }

  /** A slice of a string within `[a-z0-9-]` without "--" is one too. */
  lemma SliceKeepsSlugChars(s: string, lo: nat, hi: nat)
    requires lo <= hi <= |s|
    requires forall i :: 0 <= i < |s| ==> IsSlugChar(s[i])
    requires NoDoubleHyphen(s)
    ensures forall i :: 0 <= i < hi - lo ==> IsSlugChar(s[lo..hi][i])
    ensures NoDoubleHyphen(s[lo..hi])
  {
    var r := s[lo..hi];
    forall i | 0 <= i < |r| - 1 ensures !(r[i] == '-' && r[i + 1] == '-') {
      assert r[i] == s[lo + i] && r[i + 1] == s[lo + i + 1];
    }
  }

  /** `sanitizeSlug`. */
  function SanitizeSlug(input: Option<string>): (r: string)
    ensures IsSlug(r)
    ensures Falsy(input) ==> r == []
  {
    if Falsy(input) then []
    else
      var joined := CollapseRuns(Trim(ToLower(input.value)), IsSlugSeparator);
      var kept := KeepSlugChars(joined);
      var single := CollapseRuns(kept, IsHyphen);
      CollapseKeepsSlugChars(kept);
      StripMakesSlug(single);
      StripHyphens(single)
  }

  /** A slug is its own sanitised form, so sanitising twice is sanitising once. */
  lemma SlugFixpoint(s: string)
    requires IsSlug(s)
    ensures SanitizeSlug(Some(s)) == s
  {
    if s != [] {
      assert ToLower(s) == s;
      TrimIdentity(s);
      CollapseRunsNone(s, IsSlugSeparator);
      assert KeepSlugChars(s) == s;
      CollapseHyphensSingle(s);
      assert StripHyphens(s) == s;
    }
  }

  lemma SanitizeSlugIdempotent(input: Option<string>)
    ensures SanitizeSlug(Some(SanitizeSlug(input))) == SanitizeSlug(input)
  {
    SlugFixpoint(SanitizeSlug(input));
  }

  // ---------------------------------------------------------------------
  // validatePassword

  datatype Strength = Weak | Medium | Strong

  /** `{ isValid, error?, strength }`. */
  datatype PasswordCheck = PasswordCheck(isValid: bool, error: Option<string>, strength: Strength)

  const PasswordRequired := "Senha é obrigatória"
  const PasswordTooShort := "Senha deve ter pelo menos 8 caracteres"
  const MinPasswordLength := 8

  predicate HasLower(s: string) { exists i :: 0 <= i < |s| && IsAsciiLower(s[i]) }
  predicate HasUpper(s: string) { exists i :: 0 <= i < |s| && IsAsciiUpper(s[i]) }
  predicate HasDigit(s: string) { exists i :: 0 <= i < |s| && IsDigit(s[i]) }
  /** `/[^a-zA-Z0-9]/`. */
  predicate HasSymbol(s: string) { exists i :: 0 <= i < |s| && !IsAsciiAlnum(s[i]) }
  /** `/^[a-zA-Z]+$/`. */
  predicate LettersOnly(s: string) { s != [] && forall i :: 0 <= i < |s| ==> IsAsciiLetter(s[i]) }
  /** `/^[0-9]+$/`. */
  predicate DigitsOnly(s: string) { s != [] && AllDigits(s) }

  /** The characters `.` does not match. */
  predicate IsLineTerminator(c: char)
  {
    c == '\n' || c == '\r' || c == '\U{2028}' || c == '\U{2029}'
  }

  /** `/(.)\1{2,}/`: the same character three times in a row. */
  predicate HasTripleRepeat(s: string)
  {
    exists i :: 0 <= i < |s| - 2 && !IsLineTerminator(s[i]) && s[i] == s[i + 1] && s[i + 1] == s[i + 2]
  }

  function Bonus(b: bool): int { if b then 1 else 0 }

  /** The strength score: two length bonuses, four character classes, three penalties. */
  function Score(s: string): (n: int)
    ensures -3 <= n <= 6
  {
    Bonus(|s| >= 12) + Bonus(|s| >= 16)
    + Bonus(HasLower(s)) + Bonus(HasUpper(s)) + Bonus(HasDigit(s)) + Bonus(HasSymbol(s))
    - Bonus(LettersOnly(s)) - Bonus(DigitsOnly(s)) - Bonus(HasTripleRepeat(s))
  }

  function StrengthOf(score: int): (r: Strength)
    ensures r == Strong <==> score >= 5
    ensures r == Weak <==> score < 3
  {
    if score >= 5 then Strong else if score >= 3 then Medium else Weak
  }

  /** `validatePassword`. */
  function ValidatePassword(password: Option<string>): (r: PasswordCheck)
    ensures r.isValid <==> password.Some? && |password.value| >= MinPasswordLength
    ensures r.isValid <==> r.error.None?
    ensures Falsy(password) ==> r.error == Some(PasswordRequired)
    ensures !Falsy(password) && |password.value| < MinPasswordLength ==> r.error == Some(PasswordTooShort)
    ensures !r.isValid ==> r.strength == Weak
    ensures r.isValid ==> r.strength == StrengthOf(Score(password.value))
  {
    if Falsy(password) then PasswordCheck(false, Some(PasswordRequired), Weak)
    else if |password.value| < MinPasswordLength then PasswordCheck(false, Some(PasswordTooShort), Weak)
    else PasswordCheck(true, None, StrengthOf(Score(password.value)))
  }

  /** Letters only: at most medium, whatever the length. */
  lemma LettersOnlyNotStrong(s: string)
    requires LettersOnly(s)
    ensures Score(s) <= 3 && StrengthOf(Score(s)) != Strong
  {
    assert !HasDigit(s);
    assert !HasSymbol(s);
  }

  /** Digits only: always weak. */
  lemma DigitsOnlyWeak(s: string)
    requires DigitsOnly(s)
    ensures Score(s) <= 2 && StrengthOf(Score(s)) == Weak
  {
    assert !HasLower(s);
    assert !HasUpper(s);
    assert !HasSymbol(s);
  }

  /** A strong password has at least 12 characters and uses at least three of the four character classes. */
  lemma StrongNeedsLengthAndVariety(s: string)
    requires StrengthOf(Score(s)) == Strong
    ensures |s| >= 12
    ensures Bonus(HasLower(s)) + Bonus(HasUpper(s)) + Bonus(HasDigit(s)) + Bonus(HasSymbol(s)) >= 3
  {
  }

  // ---------------------------------------------------------------------
  // isValidUUID

  /** The dashes of the 8-4-4-4-12 layout. */
  predicate IsUuidDash(i: int) { i == 8 || i == 13 || i == 18 || i == 23 }

  /** What the case-insensitive pattern demands at position `i`: version 1 to 5 at 14, variant 8, 9, a or b at 19. */
  predicate UuidCharOk(c: char, i: int)
  {
    if IsUuidDash(i) then c == '-'
    else if i == 14 then '1' <= c <= '5'
    else if i == 19 then c in "89abAB"
    else IsHexDigit(c)
  }

  predicate UuidShape(s: string)
  {
    |s| == 36 && forall i :: 0 <= i < 36 ==> UuidCharOk(s[i], i)
  }

  /** `isValidUUID`. */
  function IsValidUuid(input: Option<string>): (r: bool)
    ensures r ==> input.Some? && |input.value| == 36
    ensures r ==> forall i :: 0 <= i < 36 && IsUuidDash(i) ==> input.value[i] == '-'
    ensures r <==> input.Some? && UuidShape(input.value)
  {
    !Falsy(input) && UuidShape(input.value)
  }

  /** The pattern is case-insensitive: lower-casing does not change the verdict. */
  lemma UuidIgnoresCase(s: string)
    ensures UuidShape(ToLower(s)) <==> UuidShape(s)
  {
    var t := ToLower(s);
    if |s| == 36 {
      forall i | 0 <= i < 36 ensures UuidCharOk(t[i], i) <==> UuidCharOk(s[i], i) {
        assert t[i] == ToLowerChar(s[i]);
      }
    }
  }
}
