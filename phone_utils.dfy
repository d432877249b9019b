/**
 * Phone helpers shared by the app: reduce a number to its digits, show it
 * with the Brazilian masks, and accept it when it has 10 to 13 digits.
 */
module PhoneUtils {
  import opened Strings

  /** `normalizePhone`: the digits of the number; the empty string stays empty. */
  function NormalizePhone(phone: string): (r: string)
    ensures r == Digits(phone)
    ensures AllDigits(r)
  {
    DigitsAreDigits(phone);
    if phone == [] then [] else Digits(phone)
  }

  /** "(XX) " followed by the rest of the digits, split by '-' at `k`. */
  function AreaMask(n: string, k: nat): string
    requires 2 <= k <= |n|
  {
    "(" + n[..2] + ") " + n[2..k] + "-" + n[k..]
  }

  /** The digits split by '-' at `k`. */
  function LocalMask(n: string, k: nat): string
    requires k <= |n|
  {
    n[..k] + "-" + n[k..]
  }

  /** The area-code mask keeps exactly the digits it was given. */
  lemma AreaMaskDigits(n: string, k: nat)
    requires AllDigits(n) && 2 <= k <= |n|
    ensures Digits(AreaMask(n, k)) == n
  {
    var r0 := "(";
    assert Digits(r0) == [];
    var r1 := r0 + n[..2];
    DigitsSnocDigits(r0, n[..2]);
    var r2 := r1 + ") ";
    DigitsSnocNoDigits(r1, ") ");
    var r3 := r2 + n[2..k];
    DigitsSnocDigits(r2, n[2..k]);
    assert n[..2] + n[2..k] == n[..k];
    var r4 := r3 + "-";
    DigitsSnocNoDigits(r3, "-");
    var r5 := r4 + n[k..];
    DigitsSnocDigits(r4, n[k..]);
    assert n[..k] + n[k..] == n;
    assert r5 == AreaMask(n, k);
  }

  /** The area-code mask puts its punctuation at fixed places. */
  lemma AreaMaskShape(n: string, k: nat)
    requires 2 <= k <= |n|
    ensures |AreaMask(n, k)| == |n| + 4
    ensures AreaMask(n, k)[0] == '(' && AreaMask(n, k)[3] == ')' && AreaMask(n, k)[4] == ' '
    ensures AreaMask(n, k)[k + 3] == '-'
  {
    var r := AreaMask(n, k);
    var head := "(" + n[..2] + ") ";
    var a := head + n[2..k];
    assert |head| == 5 && head[0] == '(' && head[3] == ')' && head[4] == ' ';
    assert |a| == k + 3;
    assert r == a + "-" + n[k..];
    assert r[k + 3] == '-';
  }

  lemma LocalMaskDigits(n: string, k: nat)
    requires AllDigits(n) && k <= |n|
    ensures Digits(LocalMask(n, k)) == n
  {
    DigitsOfDigits(n[..k]);
    DigitsSnocNoDigits(n[..k], "-");
    DigitsSnocDigits(n[..k] + "-", n[k..]);
    assert n[..k] + n[k..] == n;
  }

  lemma LocalMaskShape(n: string, k: nat)
    requires k <= |n|
    ensures |LocalMask(n, k)| == |n| + 1 && LocalMask(n, k)[k] == '-'
  {
  }

  /**
   * `formatPhone`: (XX) XXXXX-XXXX for 11 digits, (XX) XXXX-XXXX for 10,
   * XXXXX-XXXX for 9, XXXX-XXXX for 8, and the input as given otherwise.
   */
  function FormatPhone(phone: string): (r: string)
    ensures !(8 <= |Digits(phone)| <= 11) ==> r == phone
  {
    var n := NormalizePhone(phone);
    if |n| == 11 then AreaMask(n, 7)
    else if |n| == 10 then AreaMask(n, 6)
    else if |n| == 9 then LocalMask(n, 5)
    else if |n| == 8 then LocalMask(n, 4)
    else phone
  }

  /** A recognised length is shown with exactly its digits. */
  lemma FormatPhoneKeepsDigits(phone: string)
    requires 8 <= |Digits(phone)| <= 11
    ensures Digits(FormatPhone(phone)) == Digits(phone)
  {
    var n := NormalizePhone(phone);
    if |n| == 11 {
      AreaMaskDigits(n, 7);
    } else if |n| == 10 {
      AreaMaskDigits(n, 6);
    } else if |n| == 9 {
      LocalMaskDigits(n, 5);
    } else {
      LocalMaskDigits(n, 4);
    }
  }

  /** The four masks, character by character where they punctuate. */
  lemma FormatPhoneShape(phone: string)
    ensures var n := Digits(phone); var r := FormatPhone(phone);
      (|n| == 11 ==> |r| == 15 && r[0] == '(' && r[3] == ')' && r[4] == ' ' && r[10] == '-')
      && (|n| == 10 ==> |r| == 14 && r[0] == '(' && r[3] == ')' && r[4] == ' ' && r[9] == '-')
      && (|n| == 9 ==> |r| == 10 && r[5] == '-')
      && (|n| == 8 ==> |r| == 9 && r[4] == '-')
  {
    var n := NormalizePhone(phone);
    if |n| == 11 {
      AreaMaskShape(n, 7);
    } else if |n| == 10 {
      AreaMaskShape(n, 6);
    } else if |n| == 9 {
      LocalMaskShape(n, 5);
    } else if |n| == 8 {
      LocalMaskShape(n, 4);
    }
  }

  /** Formatting an already formatted number changes nothing. */
  lemma FormatPhoneIdempotent(phone: string)
    ensures FormatPhone(FormatPhone(phone)) == FormatPhone(phone)
  {
    if 8 <= |Digits(phone)| <= 11 {
      FormatPhoneKeepsDigits(phone);
    }
  }

  /** `isValidPhone`: 10 to 13 digits, whatever else the text contains. */
  function IsValidPhone(phone: string): (r: bool)
    ensures r <==> 10 <= |Digits(phone)| <= 13
  {
    var n := NormalizePhone(phone);
    |n| >= 10 && |n| <= 13
  }
}
