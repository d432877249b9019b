/**
 * The client-side login rate limiter: an in-memory store from a key (a
 * caller's identifier, or the browser session's id) to the failed attempts
 * seen in the current window. Five failures block the key for fifteen
 * minutes; an unblocked window is forgotten after fifteen minutes; a
 * successful login forgets the key.
 *
 * The clock (`Date.now()`, milliseconds) and the session id (read from
 * `sessionStorage` or freshly drawn) are parameters.
 */
module RateLimiter {
  import opened Wrappers
  import opened Strings

  const MaxAttempts: nat := 5
  const WindowMs: nat := 15 * 60 * 1000
  const BlockDurationMs: nat := 15 * 60 * 1000

  /** `RateLimitEntry`; `blockedUntil` is `null` when `None`. */
  datatype Entry = Entry(attempts: nat, firstAttempt: nat, blockedUntil: Option<nat>)

  /** The status both `checkRateLimit` and `recordFailedAttempt` return. */
  datatype Status = Status(allowed: bool, remaining: nat, blockedUntil: Option<nat>, blockRemaining: Option<int>)

  /** JavaScript truthiness of `entry.blockedUntil`: present and not 0. */
  predicate IsBlocked(e: Entry)
  {
    e.blockedUntil.Some? && e.blockedUntil.value != 0
  }

  function FreshEntry(now: nat): Entry
  {
    Entry(0, now, None)
  }

  /** `identifier || getSessionId()`. */
  function KeyFor(identifier: Option<string>, sessionId: string): (key: string)
    ensures identifier.Some? && identifier.value != [] ==> key == identifier.value
    ensures identifier.None? || identifier.value == [] ==> key == sessionId
  {
    if identifier.Some? && identifier.value != [] then identifier.value else sessionId
  }

  /** `getEntry`: the stored entry, unless it is missing, its block has expired, or its unblocked window has passed. */
  function GetEntry(store: map<string, Entry>, key: string, now: nat): (e: Entry)
    ensures key !in store ==> e == FreshEntry(now)
    ensures key in store && IsBlocked(store[key]) && now > store[key].blockedUntil.value ==> e == FreshEntry(now)
    ensures key in store && !IsBlocked(store[key]) && now - store[key].firstAttempt > WindowMs ==> e == FreshEntry(now)
    ensures key in store && IsBlocked(store[key]) && now <= store[key].blockedUntil.value ==> e == store[key]
    ensures key in store && !IsBlocked(store[key]) && now - store[key].firstAttempt <= WindowMs ==> e == store[key]
  {
    if key !in store then FreshEntry(now)
    else
      var entry := store[key];
      if IsBlocked(entry) && now > entry.blockedUntil.value then FreshEntry(now)
      else if now - entry.firstAttempt > WindowMs && !IsBlocked(entry) then FreshEntry(now)
      else entry
  }

  /** `Math.ceil(ms / 1000)`: Dafny's division by a positive divisor rounds down, so negate twice. */
  function CeilSeconds(ms: int): (s: int)
    ensures 1000 * (s - 1) < ms <= 1000 * s
  {
    -((-ms) / 1000)
  }

  /** `Math.max(0, MAX_ATTEMPTS - attempts)`: the attempts left before the limit. */
  function Remaining(attempts: nat): (r: nat)
    ensures r <= MaxAttempts
    ensures r == 0 <==> attempts >= MaxAttempts
    ensures attempts < MaxAttempts ==> r + attempts == MaxAttempts
  {
    if attempts >= MaxAttempts then 0 else MaxAttempts - attempts
  }

  /** What `checkRateLimit` reports for a key at time `now`. */
  function CheckStatus(store: map<string, Entry>, key: string, now: nat): (s: Status)
    ensures var e := GetEntry(store, key, now);
      IsBlocked(e) && now < e.blockedUntil.value ==>
        !s.allowed && s.remaining == 0 && s.blockedUntil == e.blockedUntil
        && s.blockRemaining == Some(CeilSeconds(e.blockedUntil.value - now)) && s.blockRemaining.value >= 1
    ensures var e := GetEntry(store, key, now);
      !(IsBlocked(e) && now < e.blockedUntil.value) ==>
        s.remaining == Remaining(e.attempts) && (s.allowed <==> s.remaining > 0)
        && s.blockedUntil.None? && s.blockRemaining.None?
  {
    var entry := GetEntry(store, key, now);
    if IsBlocked(entry) && now < entry.blockedUntil.value then
      Status(false, 0, entry.blockedUntil, Some(CeilSeconds(entry.blockedUntil.value - now)))
    else
      var remaining := Remaining(entry.attempts);
      Status(remaining > 0, remaining, None, None)
  }

  /** The entry `recordFailedAttempt` stores: one more attempt, and a fresh block once the limit is reached. */
  function FailedEntry(e: Entry, now: nat): (r: Entry)
    ensures r.attempts == e.attempts + 1 && r.firstAttempt == e.firstAttempt
    ensures r.attempts >= MaxAttempts ==> r.blockedUntil == Some(now + BlockDurationMs)
    ensures r.attempts < MaxAttempts ==> r.blockedUntil == e.blockedUntil
  {
    var attempts := e.attempts + 1;
    if attempts >= MaxAttempts then Entry(attempts, e.firstAttempt, Some(now + BlockDurationMs))
    else Entry(attempts, e.firstAttempt, e.blockedUntil)
  }

  /** What `recordFailedAttempt` reports about the entry it stored. */
  function FailedStatus(e: Entry, now: nat): (s: Status)
    ensures s.remaining == Remaining(e.attempts)
    ensures s.allowed <==> s.remaining > 0 && !IsBlocked(e)
    ensures s.blockedUntil == e.blockedUntil
    ensures IsBlocked(e) <==> s.blockRemaining.Some?
  {
    var remaining := Remaining(e.attempts);
    Status(remaining > 0 && !IsBlocked(e), remaining, e.blockedUntil,
           if IsBlocked(e) then Some(CeilSeconds(e.blockedUntil.value - now)) else None)
  }

  /** The store's invariant: every entry has a failure, and it is blocked exactly when it has reached the limit. */
  predicate ValidEntry(e: Entry)
  {
    e.attempts >= 1 && (IsBlocked(e) <==> e.attempts >= MaxAttempts)
  }

  predicate ValidStore(store: map<string, Entry>)
  {
    forall k :: k in store ==> ValidEntry(store[k])
  }

  /** The entry a failure stores keeps the invariant, whatever it was built from. */
  lemma FailedEntryValid(store: map<string, Entry>, key: string, now: nat)
    requires ValidStore(store)
    ensures ValidEntry(FailedEntry(GetEntry(store, key, now), now))
  {
  }

  /**
   * The status a failure reports agrees with the check made right after it:
   * a blocked key is refused by both, and both count the same attempts left.
   */
  lemma RecordThenCheck(store: map<string, Entry>, key: string, now: nat)
    requires ValidStore(store)
    ensures var e := FailedEntry(GetEntry(store, key, now), now);
      var after := CheckStatus(store[key := e], key, now);
      after.allowed == FailedStatus(e, now).allowed && after.remaining == FailedStatus(e, now).remaining
  {
    var e := FailedEntry(GetEntry(store, key, now), now);
    assert GetEntry(store[key := e], key, now) == e;
  }

  /** A blocked key is refused at every moment before its block ends. */
  lemma BlockedUntilExpiry(store: map<string, Entry>, key: string, now: nat, later: nat)
    requires key in store && IsBlocked(store[key])
    requires now <= later < store[key].blockedUntil.value
    ensures !CheckStatus(store, key, later).allowed && CheckStatus(store, key, later).remaining == 0
  {
  }

  /** After its block has expired, a key has all its attempts back. */
  lemma BlockExpires(store: map<string, Entry>, key: string, later: nat)
    requires key in store && IsBlocked(store[key]) && later > store[key].blockedUntil.value
    ensures CheckStatus(store, key, later).allowed && CheckStatus(store, key, later).remaining == MaxAttempts
  {
  }

  /** The fifth failure in a window blocks the key for the block duration and is reported as refused. */
  lemma FifthFailureBlocks(store: map<string, Entry>, key: string, now: nat)
    requires GetEntry(store, key, now).attempts == MaxAttempts - 1
    ensures var e := FailedEntry(GetEntry(store, key, now), now);
      e.blockedUntil == Some(now + BlockDurationMs) && !FailedStatus(e, now).allowed
      && FailedStatus(e, now).blockRemaining == Some(BlockDurationMs / 1000)
  {
  }

  /** `formatBlockTime`. */
  function FormatBlockTime(seconds: int): (r: string)
    ensures seconds <= 0 <==> r == []
  {
    if seconds <= 0 then []
    else
      var minutes := seconds / 60;
      var rest := seconds % 60;
      if minutes > 0 then NatToString(minutes) + "min " + NatToString(rest) + "s"
      else NatToString(rest) + "s"
  }

  /** Reading "Mmin Ss" or "Ss" back as a number of seconds. */
  function ParseBlockTime(text: string): Option<nat>
  {
    var parts := Split(text, ' ');
    if |parts| == 1 then ParseSeconds(parts[0])
    else if |parts| == 2 && EndsWith(parts[0], "min") then
      var m := parts[0][..|parts[0]| - 3];
      match ParseSeconds(parts[1])
      case Some(s) => if m != [] && AllDigits(m) then Some(60 * ParseNat(m) + s) else None
      case None => None
    else None
  }

  function ParseSeconds(text: string): Option<nat>
  {
    if |text| >= 2 && text[|text| - 1] == 's' && AllDigits(text[..|text| - 1]) then Some(ParseNat(text[..|text| - 1]))
    else None
  }

  lemma ParseSecondsOf(n: nat)
    ensures ParseSeconds(NatToString(n) + "s") == Some(n)
  {
    var t := NatToString(n) + "s";
    assert t[..|t| - 1] == NatToString(n);
    ParseNatToString(n);
  }

  lemma NoSpaceInDigits(s: string)
    requires AllDigits(s)
    ensures ' ' !in s
  {
    forall i | 0 <= i < |s| ensures s[i] != ' ' {
      assert IsDigit(s[i]);
    }
  }

  /** "Ss" is a single piece. */
  lemma SecondsPiece(rest: nat)
    ensures ' ' !in NatToString(rest) + "s"
  {
    NoSpaceInDigits(NatToString(rest));
  }

  /** The text names the time exactly: reading it back gives the seconds it was made from. */
  lemma ParseFormatBlockTime(seconds: int)
    requires seconds > 0
    ensures ParseBlockTime(FormatBlockTime(seconds)) == Some(seconds)
  {
    if seconds < 60 {
      ParseFormatUnderMinute(seconds);
    } else {
      ParseFormatMinutes(seconds);
    }
  }

  lemma ParseFormatUnderMinute(seconds: int)
    requires 0 < seconds < 60
    ensures ParseBlockTime(FormatBlockTime(seconds)) == Some(seconds)
  {
    var secs := NatToString(seconds) + "s";
    assert FormatBlockTime(seconds) == secs;
    SecondsPiece(seconds);
    SplitNoSep(secs, ' ');
    ParseSecondsOf(seconds);
  }

  lemma ParseFormatMinutes(seconds: int)
    requires seconds >= 60
    ensures ParseBlockTime(FormatBlockTime(seconds)) == Some(seconds)
  {
    var minutes := seconds / 60;
    var rest := seconds % 60;
    var secs := NatToString(rest) + "s";
    var text := NatToString(minutes) + "min" + [' '] + secs;
    assert FormatBlockTime(seconds) == text;
    SecondsPiece(rest);
    ParseSecondsOf(rest);
    ParseMinutes(minutes, secs);
    ParseTwoPieces(text, minutes, rest);
  }

  lemma ParseTwoPieces(text: string, minutes: nat, rest: nat)
    requires var parts := Split(text, ' ');
      |parts| == 2 && EndsWith(parts[0], "min") && parts[0][..|parts[0]| - 3] == NatToString(minutes)
      && ParseNat(NatToString(minutes)) == minutes && ParseSeconds(parts[1]) == Some(rest)
    ensures ParseBlockTime(text) == Some(60 * minutes + rest)
  {
  }

  lemma ParseMinutes(minutes: nat, secs: string)
    requires ' ' !in secs
    ensures var mins := NatToString(minutes) + "min";
      Split(mins + [' '] + secs, ' ') == [mins, secs]
      && EndsWith(mins, "min") && mins[..|mins| - 3] == NatToString(minutes)
      && ParseNat(mins[..|mins| - 3]) == minutes
  {
    var mins := NatToString(minutes) + "min";
    NoSpaceInDigits(NatToString(minutes));
    assert ' ' !in mins;
    SplitAtSep(mins, secs, ' ');
    SplitNoSep(mins, ' ');
    SplitNoSep(secs, ' ');
    assert mins[..|mins| - 3] == NatToString(minutes);
    assert mins[|mins| - 3..] == "min";
    ParseNatToString(minutes);
  }

  /** The store and the operations that read and change it. */
  class Limiter {
    var store: map<string, Entry>

    ghost predicate Valid()
      reads this
    {
      ValidStore(store)
    }

    constructor()
      ensures store == map[] && Valid()
    {
      store := map[];
    }

    /** `checkRateLimit`: reads the store and changes nothing. */
    method CheckRateLimit(identifier: Option<string>, sessionId: string, now: nat) returns (s: Status)
      ensures s == CheckStatus(store, KeyFor(identifier, sessionId), now)
    {
      var key := KeyFor(identifier, sessionId);
      var entry := GetEntry(store, key, now);
      if IsBlocked(entry) && now < entry.blockedUntil.value {
        return Status(false, 0, entry.blockedUntil, Some(CeilSeconds(entry.blockedUntil.value - now)));
      }
      var remaining := if MaxAttempts >= entry.attempts then MaxAttempts - entry.attempts else 0;
      s := Status(remaining > 0, remaining, None, None);
    }

    /** `recordFailedAttempt`: stores the entry with one more failure, blocking it at the limit. */
    method RecordFailedAttempt(identifier: Option<string>, sessionId: string, now: nat) returns (s: Status)
      requires Valid()
      modifies this
      ensures Valid()
      ensures var key := KeyFor(identifier, sessionId);
        var e := FailedEntry(GetEntry(old(store), key, now), now);
        store == old(store)[key := e] && s == FailedStatus(e, now)
    {
      var key := KeyFor(identifier, sessionId);
      var entry := GetEntry(store, key, now);
      FailedEntryValid(store, key, now);
      entry := entry.(attempts := entry.attempts + 1);
      if entry.attempts >= MaxAttempts {
        entry := entry.(blockedUntil := Some(now + BlockDurationMs));
      }
      store := store[key := entry];
      var remaining := if MaxAttempts >= entry.attempts then MaxAttempts - entry.attempts else 0;
      s := Status(remaining > 0 && !IsBlocked(entry), remaining, entry.blockedUntil,
                  if IsBlocked(entry) then Some(CeilSeconds(entry.blockedUntil.value - now)) else None);
    }

    /** `recordSuccessfulLogin`: forgets the key. */
    method RecordSuccessfulLogin(identifier: Option<string>, sessionId: string)
      requires Valid()
      modifies this
      ensures Valid()
      ensures store == old(store) - {KeyFor(identifier, sessionId)}
    {
      store := store - {KeyFor(identifier, sessionId)};
    }

    /** `clearRateLimit`: forgets one identifier, or every key when none is given. */
    method ClearRateLimit(identifier: Option<string>)
      requires Valid()
      modifies this
      ensures Valid()
      ensures identifier.Some? && identifier.value != [] ==> store == old(store) - {identifier.value}
      ensures identifier.None? || identifier.value == [] ==> store == map[]
    {
      if identifier.Some? && identifier.value != [] {
        store := store - {identifier.value};
      } else {
        store := map[];
      }
    }
  }

  /** After a successful login the key has all its attempts back, and no other key is touched. */
  lemma SuccessResets(store: map<string, Entry>, key: string, other: string, now: nat)
    requires other != key
    ensures CheckStatus(store - {key}, key, now) == Status(true, MaxAttempts, None, None)
    ensures CheckStatus(store - {key}, other, now) == CheckStatus(store, other, now)
  {
    assert GetEntry(store - {key}, other, now) == GetEntry(store, other, now);
  }
}
