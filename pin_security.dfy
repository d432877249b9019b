/**
 * Employee PINs: salted SHA-256 hashes in the form "$sha256$<salt>$<hex>",
 * verification against such a hash or a legacy plain-text PIN, a
 * constant-time comparison, and the strength rules a new PIN must pass.
 *
 * The digest and the random salt bytes are parameters: `digest` maps the
 * salted PIN to the bytes SHA-256 gives for its UTF-8 encoding, and
 * `saltBytes` are the bytes `crypto.getRandomValues` would fill in.
 */
module PinSecurity {
  import opened Wrappers
  import opened Strings

  /** A byte of a `Uint8Array`. */
  newtype Byte = b: int | 0 <= b < 256

  const HashPrefix := "$sha256$"
  const Algorithm := "sha256"

  // ------------------------------------------------------------- hex output

  predicate IsLowerHexDigit(c: char) { IsDigit(c) || 'a' <= c <= 'f' }

  predicate AllLowerHex(s: string) { forall i :: 0 <= i < |s| ==> IsLowerHexDigit(s[i]) }

  /** A byte as two lower-case hex digits, high nibble first. */
  function ByteHex(b: Byte): (r: string)
    ensures |r| == 2 && AllLowerHex(r)
  {
    [HexDigitChar(b as nat / 16), HexDigitChar(b as nat % 16)]
  }

  /** `ByteHex` is `byte.toString(16).padStart(2, '0')` in `arrayBufferToHex`. */
  lemma ByteHexIsPadded(b: Byte)
    ensures ByteHex(b) == PadStart(ToHex(b as nat), 2, '0')
  {
    if b < 16 {
      PadSmall(b as nat);
    } else {
      PadLarge(b as nat);
    }
  }

  lemma PadSmall(n: nat)
    requires n < 16
    ensures PadStart(ToHex(n), 2, '0') == [HexDigitChar(0), HexDigitChar(n)]
  {
    var h := ToHex(n);
    var r := PadStart(h, 2, '0');
    assert h == [HexDigitChar(n)];
    assert r[1..] == h;
    assert r == [r[0], r[1]];
  }

  lemma PadLarge(n: nat)
    requires 16 <= n < 256
    ensures PadStart(ToHex(n), 2, '0') == [HexDigitChar(n / 16), HexDigitChar(n % 16)]
  {
    assert ToHex(n / 16) == [HexDigitChar(n / 16)];
  }

  /** `arrayBufferToHex` and the body of `generateSalt`: two lower-case hex digits per byte. */
  function BytesToHex(bytes: seq<Byte>): (r: string)
    ensures |r| == 2 * |bytes| && AllLowerHex(r)
  {
    if bytes == [] then []
    else
      var head := ByteHex(bytes[0]);
      var tail := BytesToHex(bytes[1..]);
      assert forall i :: 0 <= i < |head + tail| ==> (head + tail)[i] == if i < 2 then head[i] else tail[i - 2];
      head + tail
  }

  /** `generateSalt`, with the random bytes given. */
  function GenerateSalt(saltBytes: seq<Byte>): (salt: string)
    ensures |salt| == 2 * |saltBytes| && '$' !in salt
  {
    var salt := BytesToHex(saltBytes);
    assert forall i :: 0 <= i < |salt| ==> salt[i] != '$';
    salt
  }

  // ----------------------------------------------------------------- hashing

  /** The salt `hashPin` uses: the given one unless it is missing or empty (`salt || generateSalt()`). */
  function EffectiveSalt(salt: Option<string>, saltBytes: seq<Byte>): (r: string)
    ensures salt.Some? && salt.value != [] ==> r == salt.value
    ensures salt.None? || salt.value == [] ==> r == GenerateSalt(saltBytes)
  {
    if salt.Some? && salt.value != [] then salt.value else GenerateSalt(saltBytes)
  }

  /** `hashPin`: "$sha256$" + salt + "$" + the hex digest of salt + pin. */
  function HashPin(pin: string, salt: Option<string>, saltBytes: seq<Byte>, digest: string -> seq<Byte>): (r: string)
    ensures StartsWith(r, HashPrefix)
    ensures var s := EffectiveSalt(salt, saltBytes);
      r == HashPrefix + s + "$" + BytesToHex(digest(s + pin))
  {
    var s := EffectiveSalt(salt, saltBytes);
    var r := HashPrefix + s + "$" + BytesToHex(digest(s + pin));
    PrefixExtend(HashPrefix, s + "$" + BytesToHex(digest(s + pin)), HashPrefix);
    assert r == HashPrefix + (s + "$" + BytesToHex(digest(s + pin)));
    r
  }

  // ----------------------------------------------------------- verification

  /** Bitwise XOR of non-negative integers, bit by bit from the lowest. */
  function Xor(a: nat, b: nat): nat
  {
    if a == 0 && b == 0 then 0
    else (if a % 2 == b % 2 then 0 else 1) + 2 * Xor(a / 2, b / 2)
  }

  /** Bitwise OR of non-negative integers. */
  function Or(a: nat, b: nat): nat
  {
    if a == 0 && b == 0 then 0
    else (if a % 2 == 1 || b % 2 == 1 then 1 else 0) + 2 * Or(a / 2, b / 2)
  }

  lemma {:induction false} XorZero(a: nat, b: nat)
    ensures Xor(a, b) == 0 <==> a == b
  {
    if !(a == 0 && b == 0) {
      XorZero(a / 2, b / 2);
    }
  }

  lemma OrZero(a: nat, b: nat)
    ensures Or(a, b) == 0 <==> a == 0 && b == 0
  {
  }

  /**
   * `constantTimeCompare`: the XOR of every pair of character codes is OR-ed
   * into one accumulator, which stays zero exactly while the prefixes agree.
   */
  method ConstantTimeCompare(a: string, b: string) returns (equal: bool)
    ensures equal <==> a == b
  {
    if |a| != |b| {
      return false;
    }
    var result: nat := 0;
    for i := 0 to |a|
      invariant result == 0 <==> a[..i] == b[..i]
    {
      XorZero(a[i] as nat, b[i] as nat);
      OrZero(result, Xor(a[i] as nat, b[i] as nat));
      assert a[..i + 1] == a[..i] + [a[i]] && b[..i + 1] == b[..i] + [b[i]];
      result := Or(result, Xor(a[i] as nat, b[i] as nat));
    }
    assert a[..|a|] == a && b[..|b|] == b;
    return result == 0;
  }

  /**
   * What `verifyPin` decides: a stored value without the "$sha256$" prefix
   * is a legacy plain-text PIN compared directly; otherwise it must split on
   * '$' into exactly four parts with algorithm "sha256", and the PIN hashed
   * with the stored salt must reproduce it.
   */
  predicate PinMatches(pin: string, stored: string, saltBytes: seq<Byte>, digest: string -> seq<Byte>)
  {
    if !StartsWith(stored, HashPrefix) then pin == stored
    else
      var parts := Split(stored, '$');
      |parts| == 4 && parts[1] == Algorithm && HashPin(pin, Some(parts[2]), saltBytes, digest) == stored
  }

  /** `verifyPin`. */
  method VerifyPin(pin: string, stored: string, saltBytes: seq<Byte>, digest: string -> seq<Byte>) returns (ok: bool)
    ensures ok <==> PinMatches(pin, stored, saltBytes, digest)
  {
    if !StartsWith(stored, HashPrefix) {
      return pin == stored;
    }
    var parts := Split(stored, '$');
    if |parts| != 4 {
      return false;
    }
    var algorithm, salt := parts[1], parts[2];
    if algorithm != Algorithm {
      return false;
    }
    var newHash := HashPin(pin, Some(salt), saltBytes, digest);
    ok := ConstantTimeCompare(newHash, stored);
  }

  /** The pieces of a hash value: "", "sha256", the salt and the hex digest. */
  lemma SplitHash(salt: string, hex: string)
    requires '$' !in salt && '$' !in hex
    ensures Split(HashPrefix + salt + "$" + hex, '$') == ["", Algorithm, salt, hex]
  {
    HashLayout(salt, hex);
    assert '$' !in Algorithm;
    SplitFour([], Algorithm, salt, hex);
  }

  /** Four pieces without '$', joined by '$', split back into those four. */
  lemma SplitFour(a: string, b: string, c: string, d: string)
    requires '$' !in a && '$' !in b && '$' !in c && '$' !in d
    ensures Split(a + ['$'] + (b + ['$'] + (c + ['$'] + d)), '$') == [a, b, c, d]
  {
    SplitAtSep(a, b + ['$'] + (c + ['$'] + d), '$');
    SplitAtSep(b, c + ['$'] + d, '$');
    SplitAtSep(c, d, '$');
    SplitNoSep(a, '$');
    SplitNoSep(b, '$');
    SplitNoSep(c, '$');
    SplitNoSep(d, '$');
  }

  lemma HashLayout(salt: string, hex: string)
    ensures HashPrefix + salt + "$" + hex == [] + ['$'] + (Algorithm + ['$'] + (salt + ['$'] + hex))
  {
    assert HashPrefix == ['$'] + Algorithm + ['$'];
  }

  /**
   * A PIN verifies against its own hash whenever the salt has no '$' (a
   * generated salt never has one), for any later choice of random bytes.
   */
  lemma HashThenVerify(pin: string, salt: Option<string>, saltBytes: seq<Byte>, laterBytes: seq<Byte>, digest: string -> seq<Byte>)
    requires salt.Some? ==> '$' !in salt.value
    requires salt.None? || salt.value == [] ==> |saltBytes| > 0
    ensures PinMatches(pin, HashPin(pin, salt, saltBytes, digest), laterBytes, digest)
  {
    var s := EffectiveSalt(salt, saltBytes);
    var hex := BytesToHex(digest(s + pin));
    assert forall i :: 0 <= i < |hex| ==> hex[i] != '$';
    SplitHash(s, hex);
    assert s != [];
    assert EffectiveSalt(Some(s), laterBytes) == s;
  }

  /** A different PIN is refused when the digest tells the salted PINs apart. */
  lemma WrongPinRefused(pin: string, other: string, salt: string, saltBytes: seq<Byte>, laterBytes: seq<Byte>, digest: string -> seq<Byte>)
    requires '$' !in salt && salt != []
    requires digest(salt + other) != digest(salt + pin)
    ensures !PinMatches(other, HashPin(pin, Some(salt), saltBytes, digest), laterBytes, digest)
  {
    var hex := BytesToHex(digest(salt + pin));
    assert forall i :: 0 <= i < |hex| ==> hex[i] != '$';
    SplitHash(salt, hex);
    var hex' := BytesToHex(digest(salt + other));
    var prefix := HashPrefix + salt + "$";
    assert HashPin(other, Some(salt), laterBytes, digest) == prefix + hex';
    assert HashPin(pin, Some(salt), saltBytes, digest) == prefix + hex;
    if prefix + hex' == prefix + hex {
      assert hex' == (prefix + hex')[|prefix|..];
      assert hex == (prefix + hex)[|prefix|..];
      BytesToHexInjective(digest(salt + other), digest(salt + pin));
    }
  }

  lemma HexDigitInjective(d: nat, e: nat)
    requires d < 16 && e < 16 && HexDigitChar(d) == HexDigitChar(e)
    ensures d == e
  {
  }

  lemma {:induction false} BytesToHexInjective(x: seq<Byte>, y: seq<Byte>)
    requires BytesToHex(x) == BytesToHex(y)
    ensures x == y
    decreases |x|
  {
    if x != [] {
      assert |y| == |x|;
      var hx := BytesToHex(x);
      assert hx[..2] == ByteHex(x[0]) && hx[2..] == BytesToHex(x[1..]);
      assert BytesToHex(y)[..2] == ByteHex(y[0]) && BytesToHex(y)[2..] == BytesToHex(y[1..]);
      var n, m := x[0] as nat, y[0] as nat;
      assert ByteHex(x[0]) == ByteHex(y[0]);
      HexDigitInjective(n / 16, m / 16);
      HexDigitInjective(n % 16, m % 16);
      assert n == m;
      BytesToHexInjective(x[1..], y[1..]);
      assert x == [x[0]] + x[1..] && y == [y[0]] + y[1..];
    }
  }

  /** A legacy value is compared as plain text. */
  lemma LegacyIsPlainEquality(pin: string, stored: string, saltBytes: seq<Byte>, digest: string -> seq<Byte>)
    requires IsLegacyPin(Some(stored))
    ensures PinMatches(pin, stored, saltBytes, digest) <==> pin == stored
  {
  }

  // --------------------------------------------------------------- legacy

  /** `isLegacyPin`: a present, non-empty value without the hash prefix. */
  function IsLegacyPin(stored: Option<string>): (r: bool)
    ensures r <==> stored.Some? && stored.value != [] && !StartsWith(stored.value, HashPrefix)
  {
    if stored.None? || stored.value == [] then false else !StartsWith(stored.value, HashPrefix)
  }

  /** A freshly made hash is never taken for a legacy PIN. */
  lemma HashIsNotLegacy(pin: string, salt: Option<string>, saltBytes: seq<Byte>, digest: string -> seq<Byte>)
    ensures !IsLegacyPin(Some(HashPin(pin, salt, saltBytes, digest)))
  {
  }

  // ---------------------------------------------------------------- strength

  /** `{ isValid, error? }`. */
  datatype PinCheck = PinCheck(isValid: bool, error: Option<string>)

  const FormatError := "PIN deve ter entre 4 e 6 dígitos"
  const SequenceError := "PIN não pode ter sequência numérica"
  const RepeatError := "PIN não pode ter dígitos repetidos"
  const CommonError := "PIN muito comum, escolha outro"

  /** The ascending and descending four-digit runs a PIN may not contain. */
  const Sequences: seq<string> := ["0123", "1234", "2345", "3456", "4567", "5678", "6789",
                                   "9876", "8765", "7654", "6543", "5432", "4321", "3210"]

  const WeakPins: seq<string> := ["0000", "1111", "1234", "4321", "0123", "9999", "1212", "7777",
                                  "1004", "2000", "4444", "2222", "6969", "6666", "5555", "8888"]

  /** `/^\d{4,6}$/`. */
  predicate IsPinFormat(pin: string) { 4 <= |pin| <= 6 && AllDigits(pin) }

  predicate HasSequence(pin: string)
  {
    exists k :: 0 <= k < |Sequences| && Contains(pin, Sequences[k])
  }

  /** `/^(\d)\1{3,}$/`: one digit, four times or more. */
  predicate AllSameDigit(pin: string)
  {
    |pin| >= 4 && IsDigit(pin[0]) && forall i :: 0 <= i < |pin| ==> pin[i] == pin[0]
  }

  /** `validatePinStrength`: the checks in the order `validatePinStrength` runs them; the first failure names the error. */
  function ValidatePinStrength(pin: string): (r: PinCheck)
    ensures r.isValid <==> r.error.None?
    ensures !IsPinFormat(pin) ==> r.error == Some(FormatError)
    ensures IsPinFormat(pin) && HasSequence(pin) ==> r.error == Some(SequenceError)
    ensures IsPinFormat(pin) && !HasSequence(pin) && AllSameDigit(pin) ==> r.error == Some(RepeatError)
    ensures r.isValid <==> IsPinFormat(pin) && !HasSequence(pin) && !AllSameDigit(pin) && pin !in WeakPins
  {
    if !IsPinFormat(pin) then PinCheck(false, Some(FormatError))
    else if HasSequence(pin) then PinCheck(false, Some(SequenceError))
    else if AllSameDigit(pin) then PinCheck(false, Some(RepeatError))
    else if pin in WeakPins then PinCheck(false, Some(CommonError))
    else PinCheck(true, None)
  }

  /** A four-character PIN contains a four-digit run only by being it. */
  lemma FourCharSequence(pin: string)
    requires |pin| == 4
    ensures HasSequence(pin) <==> pin in Sequences
  {
    forall k | 0 <= k < |Sequences| ensures Contains(pin, Sequences[k]) <==> pin == Sequences[k] {
      assert pin[0..4] == pin;
      if pin == Sequences[k] {
        assert OccursAt(pin, Sequences[k], 0);
      }
      if Contains(pin, Sequences[k]) {
        var i :| OccursAt(pin, Sequences[k], i);
      }
    }
  }

  lemma FourCharShape(pin: string)
    requires |pin| == 4
    ensures IsPinFormat(pin) <==> IsDigit(pin[0]) && IsDigit(pin[1]) && IsDigit(pin[2]) && IsDigit(pin[3])
    ensures AllSameDigit(pin) <==> IsDigit(pin[0]) && pin[1] == pin[0] && pin[2] == pin[0] && pin[3] == pin[0]
  {
  }

  /**
   * Most of the weak-PIN list is already refused by the earlier checks (its
   * runs and repeated digits): the "too common" error is given for exactly
   * four PINs.
   */
  lemma CommonErrorPins(pin: string)
    ensures ValidatePinStrength(pin).error == Some(CommonError) <==> pin in ["1212", "1004", "2000", "6969"]
  {
    if pin in WeakPins || pin in ["1212", "1004", "2000", "6969"] {
      FourCharSequence(pin);
      FourCharShape(pin);
    }
  }
}
