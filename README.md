# ColaaiCRM core, modelled in Dafny

ColaaiCRM is a point-of-sale and CRM web application for small restaurants
and delivery shops in Brazil. This project models the self-contained logic
under its pages and API routes and proves properties of it:

- Pix "copia e cola" payment codes (EMV merchant-presented TLV fields with a
  CRC-16/CCITT trailer), Pix key validation and CPF, CNPJ and phone masks
  (`Pix`);
- input sanitisers and validators (`Sanitize`, `PhoneUtils`), the zod order
  and rating schemas read as predicates (`Schemas`);
- the client-side login rate limiter, a store of attempts per key
  (`RateLimiter`), and salted PIN hashes with their strength rules
  (`PinSecurity`);
- plan prices (`PixConfig`) and plan gating of features and limits
  (`Subscription`);
- the employee session with PIN login, lock and permissions (`Employees`),
  the two route guards (`RoleGuard`, longest-prefix role rules, and
  `AuthGuard`, permission rules), the sidebar's ordering, hiding, filtering
  and drag-and-drop (`Sidebar`) and the keyboard-shortcut registry
  (`Shortcuts`);
- the admin data table's filter, sort, pages and selection (`DataTable`),
  the new-order cart (`NewOrder`), the checkout server action
  (`OrderActions`), the support chat's optimistic messages (`SupportChat`),
  the cash-flow summaries (`CashFlow`) and stock movements (`Stock`);
- the Stripe subscription sync (`StripeSync`), WhatsApp order notifications
  (`WhatsApp`), the CRM's WhatsApp campaign sender (`WhatsAppSender`) and
  the sales forecast (`SalesPrediction`).

`Wrappers` (an `Option` type), `Strings` (digit classes, ASCII case,
JavaScript whitespace and `trim`, `replace`, `split`, `startsWith`,
`includes`) and `Sorting` (a stable insertion sort by a total preorder,
proved sorted, a permutation and stable: elements ranked level with one
another keep their input order) are shared helpers.

Where the source updates state in place, the model is a class with that
state: the rate limiter's store (`RateLimiter.Limiter`), the employee
session (`Employees.Session`), the page guard (`AuthGuard.Guard`), the
shortcut provider (`Shortcuts.Provider`), the sidebar's drag state
(`Sidebar.OrderState`), the data table (`DataTable.Table`) and a chat panel
(`SupportChat.Chat`). Loops in the source are methods with loop invariants,
each proved equal to a specification function whose properties are lemmas.
Database, network, clock and randomness enter as parameters: the result a
query would return, whether a write succeeds, the current time, the bytes a
digest or a random source would give.

## Model

| member | source | states |
|---|---|---|
| Pix.ShiftByte | src/lib/pix.ts:34-40 | the inner loop's eight conditional shift-and-xor steps leave exactly the register after eight CRC bit steps |
| Pix.CalculateCrc16 | src/lib/pix.ts:26-45 | the loop over the payload followed by "6304" computes exactly the CRC-16/CCITT-FALSE register (init 0xFFFF, polynomial 0x1021, eight shifts per character, low 16 bits kept), printed as four hex digits |
| Pix.Crc16HexShape | src/lib/pix.ts:44 | the checksum text is always exactly four upper-case hexadecimal digits |
| Pix.DecodeEncode | src/lib/pix.ts:50-53 | TLV fields with two-character ids and values of at most 99 characters read back exactly from their encoding (id, two-digit length, value) |
| Pix.TlvLength | src/lib/pix.ts:50-53 | a field whose value has at most 99 characters is written in exactly its id's length plus two plus its value's length |
| Pix.DecodeField | src/lib/pix.ts:50-53 | a field with a two-character id and a value of at most 99 characters, written in front of any text, is read back first: the id, the two-digit length, then the value, and decoding goes on with the text behind it |
| Pix.GeneratePixCode | src/lib/pix.ts:76-128 | the step-by-step `code +=` construction yields the specified code: body fields in emission order, "6304", then the checksum of both |
| Pix.PixBodyEncodesFields | src/lib/pix.ts:86-121 | the body is the TLV encoding of the field list: format indicator, optional point of initiation, merchant account, category, currency, optional amount, country, name, city, additional data |
| Pix.PixBodyParses | src/lib/pix.ts:58-121 | with a key of at most 77 characters every field fits its two-digit length, so the body parses back into exactly its fields |
| Pix.PixCodeOpening | src/lib/pix.ts:86-94 | a code with an amount opens with "000201010212"; one without opens with "000201" followed by the merchant account id "26" |
| Pix.PixCodeStartsWithFormatIndicator | src/lib/pix.ts:86 | every code opens with the payload format indicator "000201" |
| Pix.PixCodeChecksum | src/lib/pix.ts:124-125 | the last eight characters are "6304" followed by the checksum of everything before the final four, so recomputing over the code minus its last four characters reproduces them |
| Pix.PointOfInitiationIffAmount | src/lib/pix.ts:89-91 | characters 6..12 read "010212" exactly when a positive amount is set |
| Pix.MerchantFieldsBounded | src/lib/pix.ts:112-120 | the merchant name is at most 25 and the city at most 15 characters, neither with a lower-case letter; the transaction id is "***" or 1..25 ASCII letters and digits |
| Pix.Take | src/lib/pix.ts:112-120 | `substring(0, n)` gives a prefix of the string: the whole string when it has at most n characters, and exactly n characters otherwise |
| Pix.AlnumOnly | src/lib/pix.ts:120 | removing `[^a-zA-Z0-9]` leaves only ASCII letters and digits, keeps every letter and digit of the input, and leaves a text of letters and digits unchanged |
| Pix.AlnumOnlyConcat | src/lib/pix.ts:120 | the removal works piece by piece, so the letters and digits kept stay in their order |
| Pix.DocumentKeyValidity | src/lib/pix.ts:187-230 | a CPF key is valid iff it has 11 digits and a CNPJ key iff it has 14, formatting either for display preserves validity, and an unknown key type is never valid |
| Pix.ValidatePixKey | src/lib/pix.ts:187-202 | only the five known key types can be valid; a valid e-mail key holds an '@', and a valid random key has 32 to 36 characters |
| Pix.FormattedPhoneValidity | src/lib/pix.ts:196-213 | a phone formatted for Pix is a valid phone key exactly when its digits number 10..13 and already start with 55, or number 8..11 otherwise |
| Pix.FormatPhoneForPix | src/lib/pix.ts:207-213 | the result is "+" followed by digits only: the input's own digits in order, with "55" put in front exactly when they do not already start with it |
| Pix.FormatCpfKeepsDigits | src/lib/pix.ts:218-221 | formatting a CPF keeps exactly its digits, in order |
| Pix.FormatCpfMask | src/lib/pix.ts:218-221 | with at least eleven digits the CPF takes the mask 000.000.000-00 (dots at 3 and 7, dash at 11) |
| Pix.FormatCpf | src/lib/pix.ts:218-221 | eleven or more digits gain exactly three mask characters; fewer stay the bare digits, with nothing added |
| Pix.FormatCnpjKeepsDigits | src/lib/pix.ts:226-229 | formatting a CNPJ keeps exactly its digits, in order |
| Pix.FormatCnpjMask | src/lib/pix.ts:226-229 | with at least fourteen digits the CNPJ takes the mask 00.000.000/0000-00 |
| Pix.FormatCnpj | src/lib/pix.ts:226-229 | fourteen or more digits gain exactly four mask characters; fewer stay the bare digits, with nothing added |
| Sanitize.RemoveControls | src/lib/sanitize.ts:15-17 | no NUL or other stripped control character survives, every other character (tab, newline and carriage return included) keeps its exact count, and text without them is unchanged |
| Sanitize.RemoveControlsConcat | src/lib/sanitize.ts:15-17 | the removal works character by character: on a concatenation it is the concatenation of the two removals, so the kept characters stay in order |
| Sanitize.SanitizeText | src/lib/sanitize.ts:10-20 | a missing or empty input gives ""; otherwise no stripped control character survives and neither end holds whitespace `trim()` would remove; a text with no control character and no whitespace at its ends comes back unchanged |
| Sanitize.SanitizeTextKeepsText | src/lib/sanitize.ts:10-20 | the result is a contiguous run of the text with its control characters removed, with only whitespace cut off before and after it |
| Sanitize.SanitizeTextIdempotent | src/lib/sanitize.ts:10-20 | sanitising sanitised text changes nothing |
| Sanitize.Escape | src/lib/sanitize.ts:39 | the replacement leaves no raw `<`, `>`, `"`, `'`, backquote, `=` or `/` and never shortens the text |
| Sanitize.EscapeHtml | src/lib/sanitize.ts:25-40 | a missing or empty input gives ""; no raw markup character is left in the output, and decoding the eight entities gives the input back |
| Sanitize.UnescapeEscape | src/lib/sanitize.ts:28-39 | escaping loses nothing: decoding the eight entities gives the input back |
| Sanitize.EscapePlain | src/lib/sanitize.ts:39 | text with none of the eight special characters is left as it is |
| Sanitize.SanitizePhoneNumber | src/lib/sanitize.ts:45-50 | the result is exactly the digit subsequence of the input, and "" when there is no input |
| Sanitize.FormatPhoneNumberKeepsDigits | src/lib/sanitize.ts:55-67 | formatting only adds punctuation: the digits of the result are the input's digits |
| Sanitize.FormatPhoneNumber | src/lib/sanitize.ts:66 | any digit count other than 10 and 11 gives the bare digits |
| Sanitize.FormatPhoneNumberShape | src/lib/sanitize.ts:58-64 | 11 digits take the mask (XX) XXXXX-XXXX and 10 digits (XX) XXXX-XXXX |
| Sanitize.ValidateEmail | src/lib/sanitize.ts:72-90 | valid iff the address is present, matches the pattern and has at most 254 characters; otherwise the first failing check in source order (required, invalid, too long) names the error |
| Sanitize.EmailPatternNotBlank | src/lib/sanitize.ts:73-80 | an address the pattern accepts is never blank, so the "required" check cannot hide it |
| Sanitize.EmailSingleAt | src/lib/sanitize.ts:78 | an accepted address holds exactly one '@' |
| Sanitize.CollapseRuns | src/lib/sanitize.ts:102-106 | every maximal run of matching characters becomes one '-', and collapsing hyphens leaves no "--" |
| Sanitize.CollapseRunsAtSeparator | src/lib/sanitize.ts:102-106 | a character outside the runs is kept where it is, and the text on either side of it is collapsed on its own |
| Sanitize.CollapseWholeRun | src/lib/sanitize.ts:102-106 | a maximal run at the front becomes exactly one '-' followed by the collapsed rest |
| Sanitize.KeepSlugChars | src/lib/sanitize.ts:104 | only `[a-z0-9-]` characters remain, each of them with its exact count, and text made of them is unchanged |
| Sanitize.KeepSlugCharsConcat | src/lib/sanitize.ts:104 | the filter works character by character: on a concatenation it is the concatenation of the two filtered halves, so kept characters stay in order |
| Sanitize.StripHyphens | src/lib/sanitize.ts:108 | the result is the input without its hyphen runs at either end: a slice of it starting after the leading run, with no '-' at either end, and everything cut off before or after it is '-' |
| Sanitize.SanitizeSlug | src/lib/sanitize.ts:95-109 | the result is a slug (only `[a-z0-9-]`, no "--", no hyphen at either end), and "" for a missing input |
| Sanitize.SlugFixpoint | src/lib/sanitize.ts:95-109 | a slug is its own sanitised form |
| Sanitize.SanitizeSlugIdempotent | src/lib/sanitize.ts:95-109 | sanitising a slug twice is sanitising it once |
| Sanitize.Score | src/lib/sanitize.ts:123-138 | the strength score lies between -3 and 6 |
| Sanitize.StrengthOf | src/lib/sanitize.ts:140-143 | strong iff the score is at least 5, weak iff it is below 3 |
| Sanitize.ValidatePassword | src/lib/sanitize.ts:114-146 | valid iff present with at least 8 characters; a missing or short password is weak with its error; a valid one has the strength of its score |
| Sanitize.LettersOnlyNotStrong | src/lib/sanitize.ts:126-138 | a letters-only password is never strong |
| Sanitize.DigitsOnlyWeak | src/lib/sanitize.ts:126-138 | a digits-only password is always weak |
| Sanitize.StrongNeedsLengthAndVariety | src/lib/sanitize.ts:126-143 | a strong password has at least 12 characters and three of the four character classes |
| Sanitize.IsValidUuid | src/lib/sanitize.ts:170-175 | true iff the input is present and has the UUID shape: 36 characters with dashes at 8, 13, 18 and 23, a version digit 1-5 and a variant 8, 9, a or b |
| Sanitize.UuidIgnoresCase | src/lib/sanitize.ts:173 | the pattern's `i` flag: lower-casing never changes the verdict |
| PhoneUtils.NormalizePhone | src/lib/utils.ts:29-32 | the result is exactly the input's digits, in order, and "" for an empty input |
| PhoneUtils.FormatPhone | src/lib/utils.ts:55 | a number with a digit count outside 8..11 is returned as given, not normalised |
| PhoneUtils.FormatPhoneKeepsDigits | src/lib/utils.ts:38-53 | a recognised length is shown with exactly its digits |
| PhoneUtils.FormatPhoneShape | src/lib/utils.ts:41-53 | the four masks: (XX) XXXXX-XXXX for 11 digits, (XX) XXXX-XXXX for 10, XXXXX-XXXX for 9, XXXX-XXXX for 8 |
| PhoneUtils.FormatPhoneIdempotent | src/lib/utils.ts:38-56 | formatting an already formatted number changes nothing |
| PhoneUtils.IsValidPhone | src/lib/utils.ts:61-64 | valid iff the number has 10 to 13 digits |
| RateLimiter.KeyFor | src/lib/rateLimiter.ts:75 | a non-empty identifier is the key; otherwise the session id is |
| RateLimiter.Limiter.constructor | src/lib/rateLimiter.ts:15 | the store starts empty |
| RateLimiter.GetEntry | src/lib/rateLimiter.ts:41-62 | a missing entry, an expired block, or an unblocked entry whose 15-minute window has passed gives a fresh entry with 0 attempts; any other entry is returned as stored |
| RateLimiter.CeilSeconds | src/lib/rateLimiter.ts:85 | `Math.ceil(ms / 1000)`: the least whole number of seconds covering the milliseconds |
| RateLimiter.Remaining | src/lib/rateLimiter.ts:90 | never more than 5; nothing remains exactly when 5 or more attempts are used, and otherwise the attempts left and the attempts used add up to 5 |
| RateLimiter.CheckStatus | src/lib/rateLimiter.ts:69-98 | while blocked the key is refused with 0 remaining and at least one second of block left; otherwise remaining = max(0, 5 - attempts) and allowed iff remaining > 0 |
| RateLimiter.FailedEntry | src/lib/rateLimiter.ts:113-121 | a failure adds exactly one attempt, keeps the window start, and blocks until now + 15 minutes once attempts reach 5 |
| RateLimiter.FailedStatus | src/lib/rateLimiter.ts:126-135 | the reported status: remaining from the attempts, allowed iff attempts remain and the entry is not blocked, a block time exactly when blocked |
| RateLimiter.FailedEntryValid | src/lib/rateLimiter.ts:113-124 | the entry a failure stores keeps the store invariant (a block is set only at the limit) |
| RateLimiter.RecordThenCheck | src/lib/rateLimiter.ts:69-136 | what a failure reports agrees with a check made right after it |
| RateLimiter.BlockedUntilExpiry | src/lib/rateLimiter.ts:80-87 | a blocked key is refused, with 0 remaining, at every moment before its block ends |
| RateLimiter.BlockExpires | src/lib/rateLimiter.ts:50-53 | after its block has expired a key has all 5 attempts back |
| RateLimiter.FifthFailureBlocks | src/lib/rateLimiter.ts:119-135 | the fifth failure in a window blocks the key for 15 minutes and is reported as refused with 900 seconds left |
| RateLimiter.FormatBlockTime | src/lib/rateLimiter.ts:150-151 | the text is empty exactly when the seconds are not positive |
| RateLimiter.ParseFormatBlockTime | src/lib/rateLimiter.ts:150-161 | the text names the time exactly: reading "Mmin Ss" or "Ss" back gives the seconds it was made from |
| RateLimiter.Limiter.CheckRateLimit | src/lib/rateLimiter.ts:69-98 | the check reads the store and reports the status of the key it derives |
| RateLimiter.Limiter.RecordFailedAttempt | src/lib/rateLimiter.ts:105-136 | the store maps the key to the failed entry, every other key is unchanged, and the status reported is that entry's |
| RateLimiter.Limiter.RecordSuccessfulLogin | src/lib/rateLimiter.ts:142-145 | the key is removed from the store and nothing else changes |
| RateLimiter.Limiter.ClearRateLimit | src/lib/rateLimiter.ts:166-172 | a given identifier is removed; without one the store is emptied |
| RateLimiter.SuccessResets | src/lib/rateLimiter.ts:89-145 | after a successful login the next check reports 5 remaining and allowed; checks of other keys are unchanged |
| PinSecurity.ByteHexIsPadded | src/lib/pinSecurity.ts:11-17 | the two-digit rendering of a byte is its hexadecimal text padded to two characters with '0' |
| PinSecurity.BytesToHex | src/lib/pinSecurity.ts:15-18 | two lower-case hex digits per byte |
| PinSecurity.BytesToHexInjective | src/lib/pinSecurity.ts:15-18 | different byte strings never give the same hex text |
| PinSecurity.GenerateSalt | src/lib/pinSecurity.ts:8-12 | a salt of n random bytes is 2n characters and never holds the '$' separator |
| PinSecurity.EffectiveSalt | src/lib/pinSecurity.ts:25 | the given salt unless it is missing or empty, else a generated one |
| PinSecurity.HashPin | src/lib/pinSecurity.ts:24-37 | the value has the shape "$sha256$" + salt + "$" + hex digest of salt + PIN |
| PinSecurity.SplitHash | src/lib/pinSecurity.ts:51-56 | a hash value splits on '$' into exactly "", "sha256", the salt and the digest |
| PinSecurity.ConstantTimeCompare | src/lib/pinSecurity.ts:71-82 | the OR of the code XORs stays zero exactly while the strings agree, so the result is true iff a == b |
| PinSecurity.VerifyPin | src/lib/pinSecurity.ts:43-66 | the result is the verification predicate: plain equality for a legacy value; for a hashed one four '$' pieces, algorithm "sha256" and a re-hash with the stored salt equal to the stored value |
| PinSecurity.LegacyIsPlainEquality | src/lib/pinSecurity.ts:45-48 | a value without the "$sha256$" prefix matches exactly the identical PIN |
| PinSecurity.HashThenVerify | src/lib/pinSecurity.ts:24-66 | a PIN verifies against its own hash whenever the salt has no '$', for any later choice of random bytes |
| PinSecurity.WrongPinRefused | src/lib/pinSecurity.ts:62-65 | a different PIN is refused whenever the digest tells the salted PINs apart |
| PinSecurity.IsLegacyPin | src/lib/pinSecurity.ts:119-122 | legacy iff the value is present, non-empty and lacks the "$sha256$" prefix |
| PinSecurity.HashIsNotLegacy | src/lib/pinSecurity.ts:119-122 | a freshly made hash is never taken for a legacy PIN |
| PinSecurity.ValidatePinStrength | src/lib/pinSecurity.ts:88-114 | valid iff 4-6 digits, no listed ascending or descending run, not all one digit and not a listed weak PIN; the first failing check in source order names the error |
| PinSecurity.FourCharSequence | src/lib/pinSecurity.ts:95-100 | a four-character PIN contains a listed run only by being one |
| PinSecurity.CommonErrorPins | src/lib/pinSecurity.ts:95-111 | the "too common" error is given for exactly 1212, 1004, 2000 and 6969: every other listed weak PIN is refused earlier as a run or a repeated digit |
| WhatsApp.GenerateWhatsAppMessage | src/lib/whatsapp.ts:96-130 | the message built by successive `+=` is the rendering of the specified piece list: header, greeting, status, separator, order number, total, status text, then the optional pickup, address and rating pieces |
| WhatsApp.UnknownStatusIsPending | src/lib/whatsapp.ts:102 | a status without an entry in the table reads as 'pending' |
| WhatsApp.PickupLineIff | src/lib/whatsapp.ts:113-115 | the pickup line appears exactly for a ready order that is not a delivery |
| WhatsApp.AddressLineIff | src/lib/whatsapp.ts:117-119 | an address line appears exactly for a delivering order with a non-empty address, and it shows that address |
| WhatsApp.RatingLinkIff | src/lib/whatsapp.ts:122-127 | the rating link appears exactly for a delivered order when both the rating token and the base URL are set, and it is built from those two |
| WhatsApp.CoreHasNoOptionalPart | src/lib/whatsapp.ts:104-111 | none of the optional pieces is among the seven every notification has |
| WhatsApp.WhatsAppNumber | src/lib/whatsapp.ts:134-142 | the number dialled is the phone's digits, with "55" in front exactly when there are 10 or 11 of them |
| WhatsApp.GetWhatsAppUrl | src/lib/whatsapp.ts:132-145 | the link starts with https://wa.me/, what precedes its '?' is exactly that number, and what follows the number is "?text=" and the encoded message |
| WhatsApp.NumberIdempotent | src/lib/whatsapp.ts:137-142 | the country code is added only once: applying the rule to its own result changes nothing |
| WhatsApp.NotifyIgnoresOldStatus | src/lib/whatsapp.ts:165-169 | only the new status matters, and a notification is due iff it is preparing, ready, delivering, delivered or cancelled; a new 'pending' order never notifies |
| WhatsApp.ShouldNotifyOnStatusChange | src/lib/whatsapp.ts:165-169 | a new 'pending' order or an empty status never notifies, a delivered or cancelled order always does |
| SalesPrediction.Round | src/lib/salesPrediction.ts:107 | `Math.round`: the nearest integer, halves rounded up |
| SalesPrediction.DayOfWeekAverages | src/lib/salesPrediction.ts:22-46 | the loops over the records produce seven buckets, each the record count and the revenue and order averages of its weekday (0 when it has no record) |
| SalesPrediction.DayCountsCoverData | src/lib/salesPrediction.ts:29-33 | every record is counted under exactly one weekday: the seven counts add up to the number of records |
| SalesPrediction.NewestFirst | src/lib/salesPrediction.ts:57 | the copy sorted newest first is sorted by date, descending, and a permutation of the history |
| SalesPrediction.NewerFirstIsPreorder | src/lib/salesPrediction.ts:57 | the comparison by date, newest first, is a total preorder, so the sort is well defined |
| SalesPrediction.Clamp | src/lib/salesPrediction.ts:71 | the trend is kept within [0.7, 1.3] and unchanged inside that range |
| SalesPrediction.TrendMultiplier | src/lib/salesPrediction.ts:52-72 | the multiplier lies in [0.7, 1.3] and is 1 with fewer than 14 records |
| SalesPrediction.TrendCases | src/lib/salesPrediction.ts:56-71 | with 14 records or more the multiplier is 1 when the earlier week made nothing, and otherwise the ratio of the two weeks' revenue with an out-of-range ratio replaced by the nearer bound |
| SalesPrediction.TrendWindows | src/lib/salesPrediction.ts:57-61 | every record of the two windows is at least as new as every record after it |
| SalesPrediction.TrendUnclamped | src/lib/salesPrediction.ts:60-71 | a trend within the bounds is the ratio of the newest seven records' revenue to the seven before them |
| SalesPrediction.DetermineConfidence | src/lib/salesPrediction.ts:77-81 | low iff fewer than 7 records or fewer than 2 for the weekday; high iff at least 21 and at least 3; medium otherwise |
| SalesPrediction.ConfidenceMonotone | src/lib/salesPrediction.ts:77-81 | more records never give a lower confidence percentage |
| SalesPrediction.ConfidencePercentage | src/lib/salesPrediction.ts:234-241 | the percentage lies between 40 and 90, is above 40 exactly when the confidence is not low, and is 90 exactly when it is high |
| SalesPrediction.ConfidenceLabel | src/lib/salesPrediction.ts:222-229 | every label is longer than ten characters and ends in " confiança" |
| SalesPrediction.ConfidenceLabelsDistinct | src/lib/salesPrediction.ts:222-229 | no two confidence levels share a label |
| SalesPrediction.ConfidencePercentageIncreasing | src/lib/salesPrediction.ts:222-241 | low, medium and high are 40, 70 and 90 per cent, strictly increasing, and the three labels differ |
| SalesPrediction.PredictSalesForDate | src/lib/salesPrediction.ts:86-116 | the returned forecast is the specified prediction for the target weekday |
| SalesPrediction.EmptyHistory | src/lib/salesPrediction.ts:93-100 | without history the forecast is 0 revenue, 0 orders and low confidence |
| SalesPrediction.PredictionConfidence | src/lib/salesPrediction.ts:108 | the confidence is judged on the number of all records and of the target weekday's |
| SalesPrediction.PredictionWithinTrend | src/lib/salesPrediction.ts:104-106 | the forecast revenue lies between 0.7 and 1.3 times the weekday's average |
| SalesPrediction.WeekDay | src/lib/salesPrediction.ts:181-182 | the weekday i days after the start is always a weekday 0..6 |
| SalesPrediction.PredictWeek | src/lib/salesPrediction.ts:174-187 | exactly seven forecasts, the i-th for the weekday i days after the start |
| SalesPrediction.WeekDaysDistinct | src/lib/salesPrediction.ts:180-184 | the week starts on the start date's weekday and visits seven different weekdays |
| SalesPrediction.HourEntries | src/lib/salesPrediction.ts:208-212 | one entry per hour 0..23, in ascending order, each with that hour's rounded average |
| SalesPrediction.BusiestFirst | src/lib/salesPrediction.ts:213 | sorted by expected orders, descending, and a permutation of the entries |
| SalesPrediction.BusierFirstIsPreorder | src/lib/salesPrediction.ts:213 | the comparison by expected orders, largest first, is a total preorder |
| SalesPrediction.PredictPeakHours | src/lib/salesPrediction.ts:192-217 | the bucket loop and ranking return the specified top five hours |
| SalesPrediction.PeakHoursRanked | src/lib/salesPrediction.ts:208-216 | five entries, busiest first, and no hour left out is busier than any hour kept |
| SalesPrediction.PeakHoursTieOrder | src/lib/salesPrediction.ts:208-214 | the sort is stable: hours with the same expected orders stay in hour order |
| SalesPrediction.PeakHoursGenuine | src/lib/salesPrediction.ts:201-212 | each entry kept is a real hour carrying its own average |
| PixConfig.GetPlanPrice | src/lib/pix-config.ts:43-45 | the annual price is ten times the monthly one and any other or missing period gives the monthly price |
| PixConfig.GetPlanPriceCents | src/lib/pix-config.ts:26-50 | the price in cents, looked up in its own table, is exactly 100 times the price in reais for the same plan and period |
| PixConfig.GetPeriodDays | src/lib/pix-config.ts:53-55 | 365 days exactly for the annual period, 30 for the monthly one |
| PixConfig.AnnualIsTenMonths | src/lib/pix-config.ts:12-37 | each annual price, in reais and in cents, is ten monthly ones |
| PixConfig.PricesIncreaseWithPlan | src/lib/pix-config.ts:12-23 | for either period Basico costs less than Avançado, which costs less than Profissional |
| PixConfig.ConfigKeyIsCpf | src/lib/pix-config.ts:4-9 | the configured Pix key passes the CPF key check |
| Schemas.DeliveryTimeSwap | src/lib/schemas.ts:5-11 | a valid delivery time with its bounds swapped stays valid only when they are equal |
| Schemas.RatingRange | src/lib/schemas.ts:13-18 | a rating outside 1..5 is refused, and any other rating inside the range is accepted with the same fields |
| Schemas.ProductRatingExtendsStoreRating | src/lib/schemas.ts:13-26 | a product rating is valid iff its store-rating fields are and the product id is a UUID |
| Schemas.OrderItemRejections | src/lib/schemas.ts:28-39 | an item with quantity 0, a fractional quantity or a negative price is refused |
| Schemas.OrderRejections | src/lib/schemas.ts:41-57 | a one-character name, an empty phone or an unknown delivery mode makes an order invalid |
| Schemas.OrderItemsIndependent | src/lib/schemas.ts:56 | a valid order stays valid with any of its items dropped, in particular with no items at all |
| Schemas.ValidOrderItem | src/lib/schemas.ts:28-39 | an accepted item has a 36-character product id, a quantity of at least one and no negative price, and none of its addons has a negative price |
| Schemas.ValidOrder | src/lib/schemas.ts:41-57 | an accepted order has a 36-character owner id, a customer name and no negative total, and every item in it has a quantity of at least one and no negative price |
| Schemas.OrderTotalsUnchecked | src/lib/schemas.ts:52-54 | the schema does not relate the total to the subtotal and fee: any non-negative total is accepted |
| Subscription.CurrentPlan | src/contexts/SubscriptionContext.tsx:208 | the plan is the subscription's, and Basico without a subscription |
| Subscription.DaysLeft | src/contexts/SubscriptionContext.tsx:216-229 | zero once the date has passed; otherwise the least number of whole days covering the time left |
| Subscription.IsBlocked | src/contexts/SubscriptionContext.tsx:232-238 | blocked for an expired, cancelled or pending-Pix status and for an expired trial; without a subscription blocked iff loading has finished; an active subscription is never blocked |
| Subscription.ActiveOrTrialNeverPeriodExpired | src/contexts/SubscriptionContext.tsx:221-238 | an active or trial subscription is never period-expired, and a trial is blocked exactly when it has run out |
| Subscription.CanAccess | src/contexts/SubscriptionContext.tsx:241-245 | false once the trial has expired; otherwise true iff the plan's feature value is true or a level other than 'none' |
| Subscription.GetFeatureValue | src/contexts/SubscriptionContext.tsx:248-251 | false once the trial has expired, otherwise the plan's own value for the feature, which grants exactly when the feature is accessible |
| Subscription.IsWithinLimit | src/contexts/SubscriptionContext.tsx:259-263 | false once the trial has expired; otherwise true iff the plan's limit is unlimited or the count is below it |
| Subscription.GetRemainingLimit | src/contexts/SubscriptionContext.tsx:266-270 | unlimited exactly for an unlimited resource; otherwise max(0, limit - count) |
| Subscription.RemainingAgreesWithLimit | src/contexts/SubscriptionContext.tsx:259-270 | with the trial running, a count is within the limit iff something remains |
| Subscription.PlansMonotone | src/contexts/SubscriptionContext.tsx:26-108 | a higher plan grants every feature and at least every limit a lower plan does |
| Subscription.TopPlanGrantsAll | src/contexts/SubscriptionContext.tsx:26-108 | Profissional grants every feature with no limit on any resource |
| Subscription.MinimumPlanForFeature | src/contexts/SubscriptionContext.tsx:308-312 | the plan returned grants the feature and no cheaper plan does |
| Subscription.MinimumPlanIsThreshold | src/contexts/SubscriptionContext.tsx:308-312 | a plan grants a feature iff it is at or above the feature's minimum plan |
| Employees.FirstMatch | src/contexts/EmployeeContext.tsx:115-135 | the index of the first row, in query order, whose PIN is set and verifies; none exactly when no row matches |
| Employees.FindMatch | src/contexts/EmployeeContext.tsx:117-135 | the loop with `continue` and `break` finds exactly that first match |
| Employees.PermissionFor | src/contexts/EmployeeContext.tsx:196-206 | nothing while locked; everything for the owner (no employee signed in) and for an admin; otherwise the employee's own flag, missing flags counting as false |
| Employees.Session.constructor | src/contexts/EmployeeContext.tsx:33-37 | a session starts with nobody signed in, unlocked and with no admin known |
| Employees.Session.HasPermission | src/contexts/EmployeeContext.tsx:196-206 | the session's answer is the permission rule applied to its lock and its signed-in employee |
| Employees.Session.LogoutEmployee | src/contexts/EmployeeContext.tsx:179-184 | nobody is signed in, the screen is locked, and no permission is granted |
| Employees.Session.LockScreen | src/contexts/EmployeeContext.tsx:186-189 | the same effect as signing the employee out |
| Employees.Session.UnlockScreen | src/contexts/EmployeeContext.tsx:191-194 | only the lock is lifted; the owner then has every permission again |
| Employees.Session.LoginWithPin | src/contexts/EmployeeContext.tsx:79-177 | refused without an owner; refused with the block time and nothing recorded while rate-limited; a fetch error or no employees refuse without recording; a miss records one failed attempt and reports it; success iff some active employee's PIN verifies, which clears the limiter key, signs in the first such employee and unlocks |
| RoleGuard.BestRule | src/components/RouteGuard.tsx:47-57 | the rule picked is one whose prefix the path starts with, no matching rule has a longer prefix and every earlier matching rule is strictly shorter, so the first of the longest wins; nothing is picked exactly when no prefix matches |
| RoleGuard.BestRuleUnique | src/components/RouteGuard.tsx:47-57 | any index meeting those four conditions is the one picked, so the longest-prefix choice is well defined |
| RoleGuard.CheckAuthorization | src/components/RouteGuard.tsx:42-61 | the loop over the permission table returns the authorisation that the longest-prefix rule gives (denied while loading, open without an employee or for an admin, open for a path no rule covers) |
| RoleGuard.RedirectTarget | src/components/RouteGuard.tsx:65-74 | a redirect happens exactly when loading is over, an employee is active and the page is not authorised, and it goes to that role's home page |
| RoleGuard.GuardBasics | src/components/RouteGuard.tsx:43-45 | nothing is authorised while loading; owner mode and admins are authorised everywhere; owner mode is never redirected |
| RoleGuard.UnlistedPathOpen | src/components/RouteGuard.tsx:59 | a path that no listed prefix covers is open to every role |
| RoleGuard.OnlyOwnRuleMatches | src/components/RouteGuard.tsx:12-23 | no listed prefix starts with another listed prefix, so a listed page matches only its own rule |
| RoleGuard.ListedPathDecides | src/components/RouteGuard.tsx:12-23 | on a listed page a non-admin is authorised exactly when the page's rule lists their role |
| RoleGuard.HomeRule | src/components/RouteGuard.tsx:26-33 | every role's redirect target is a listed page whose rule allows that role |
| RoleGuard.RedirectIsAllowed | src/components/RouteGuard.tsx:26-33 | an employee is always authorised on the page they are redirected to, so a redirect never loops |
| AuthGuard.PermissionNeeded | src/components/auth/RouteGuard.tsx:67 | a non-empty required permission wins; otherwise the page's entry in the route table, or none for an unlisted page |
| AuthGuard.Guard.constructor | src/components/auth/RouteGuard.tsx:47-48 | a new guard is not authorised, is still checking and has redirected nowhere |
| AuthGuard.Guard.Effect | src/components/auth/RouteGuard.tsx:50-98 | while either context loads nothing changes; without a user the guard redirects to the login page; otherwise checking ends and the authorisation becomes the decision's |
| AuthGuard.Decision | src/components/auth/RouteGuard.tsx:50-98 | the effect waits exactly while either context loads, sends to the login page exactly when loading is over and there is no user, never authorises a locked session, and authorises an unlocked owner with no employee signed in |
| AuthGuard.Guard.Render | src/components/auth/RouteGuard.tsx:100-145 | a spinner while anything loads or the check runs; otherwise the lock screen when locked, the access-denied view (naming the employee's role) when not authorised, and the children exactly when nothing loads, the screen is unlocked and the guard authorised |
| AuthGuard.NoUserOrLocked | src/components/auth/RouteGuard.tsx:54-64 | without a user the guard always sends to the login page, locked or not; a locked screen of a signed-in user is never authorised |
| AuthGuard.OpenRoutesAndOwner | src/components/auth/RouteGuard.tsx:70-81 | a page needing no permission, and owner mode on any page, is authorised |
| AuthGuard.RoleSpecificFirst | src/components/auth/RouteGuard.tsx:84-91 | a role that the role-specific table lists for the page is authorised whatever its permissions |
| AuthGuard.KitchenAndDeliveryPages | src/components/auth/RouteGuard.tsx:13-14 | the kitchen and deliveries pages need the orders permission, yet a kitchen or delivery employee without it still opens their own page and not the other |
| AuthGuard.OtherwiseHasPermission | src/components/auth/RouteGuard.tsx:94-96 | past the earlier cases the answer is the employee's permission lookup, which an admin always passes |
| AuthGuard.RequiredPermissionOverrides | src/components/auth/RouteGuard.tsx:67 | with an explicit permission a non-admin outside the role-specific table is authorised exactly when that permission is set to true for them |
| AuthGuard.PageShownIffAuthorised | src/components/auth/RouteGuard.tsx:100-145 | after the effect has decided, the page is shown exactly when the decision authorises it |
| AuthGuard.RoleLabels | src/components/auth/RouteGuard.tsx:149-159 | each of the six roles has its own label, and a missing or unknown role reads "Desconhecido" |
| AuthGuard.RoleLabel | src/components/auth/RouteGuard.tsx:149-159 | each of the six role names has a real label, a missing role reads "Desconhecido", and a real label needs a role name of at least five characters |
| AuthGuard.RoleLabelsDistinct | src/components/auth/RouteGuard.tsx:150-157 | two different roles never share a label |
| Shortcuts.Without | src/contexts/KeyboardShortcutsContext.tsx:68-72 | unregistering keeps exactly the shortcuts whose key and flags, compared strictly, differ from the given combination, and never lengthens the list |
| Shortcuts.WithoutConcat | src/contexts/KeyboardShortcutsContext.tsx:70 | the filter works element by element, so the kept shortcuts stay in their order |
| Shortcuts.WithoutAbsent | src/contexts/KeyboardShortcutsContext.tsx:70 | unregistering a combination that nobody uses leaves the list as it was |
| Shortcuts.WithoutIdempotent | src/contexts/KeyboardShortcutsContext.tsx:68-72 | unregistering the same combination twice is the same as once |
| Shortcuts.WithoutDistinct | src/contexts/KeyboardShortcutsContext.tsx:68-72 | a list with one shortcut per combination keeps that property when one is unregistered |
| Shortcuts.RegisteredShape | src/contexts/KeyboardShortcutsContext.tsx:58-66 | the new shortcut ends the list, every other shortcut with its combination is gone, all others stay, and one shortcut per combination is preserved |
| Shortcuts.RegisterIdempotent | src/contexts/KeyboardShortcutsContext.tsx:58-66 | registering the same shortcut twice gives the same list as once |
| Shortcuts.RegisterThenUnregister | src/contexts/KeyboardShortcutsContext.tsx:58-72 | registering and then unregistering a combination leaves what unregistering alone leaves |
| Shortcuts.LastWithKey | src/contexts/KeyboardShortcutsContext.tsx:77-81 | the index of the last shortcut among the first n whose lookup key is the given one, or none when no such shortcut exists |
| Shortcuts.MapHoldsLast | src/contexts/KeyboardShortcutsContext.tsx:75-83 | the lookup map built from a prefix of the list has a key exactly when some shortcut produces it, and holds the last such shortcut |
| Shortcuts.CompositeKeyInjective | src/contexts/KeyboardShortcutsContext.tsx:79 | two lookup keys are equal exactly when the lowercased keys are equal and the three normalised flags agree |
| Shortcuts.BuildShortcutMap | src/contexts/KeyboardShortcutsContext.tsx:75-83 | the `forEach` loop builds the map that the specification function of the map describes |
| Shortcuts.ShortcutMapMembers | src/contexts/KeyboardShortcutsContext.tsx:75-83 | every registered shortcut's combination is in the map, and each entry is a registered shortcut stored under its own combination |
| Shortcuts.DispatchFiresLastMatch | src/contexts/KeyboardShortcutsContext.tsx:87-102 | while typing in a field only Escape can fire; a fired shortcut is registered, has the pressed key up to case, treats meta as ctrl and matches alt and shift; outside fields a shortcut fires exactly when one is registered for the pressed combination |
| Shortcuts.Dispatch | src/contexts/KeyboardShortcutsContext.tsx:87-102 | while typing in a field only Escape can fire; what fires is one of the map's shortcuts; outside fields a key combination in the map always fires |
| Shortcuts.DuplicatesSurvive | src/contexts/KeyboardShortcutsContext.tsx:62-79 | a shortcut with an absent flag and one with that flag false are both kept by registration, yet share one lookup key, and only the later of them can fire |
| Shortcuts.Provider.constructor | src/contexts/KeyboardShortcutsContext.tsx:40-41 | the provider starts with no shortcuts, the help hidden and no action performed |
| Shortcuts.Provider.InstallBase | src/contexts/KeyboardShortcutsContext.tsx:44-56 | the eight global shortcuts replace the list and the lookup map follows |
| Shortcuts.Provider.RegisterShortcut | src/contexts/KeyboardShortcutsContext.tsx:58-66 | the list becomes the registration of the shortcut and the lookup map is rebuilt from it |
| Shortcuts.Provider.UnregisterShortcut | src/contexts/KeyboardShortcutsContext.tsx:68-72 | the list loses exactly the shortcuts with the given combination and the lookup map is rebuilt from it |
| Shortcuts.Provider.HandleKeyDown | src/contexts/KeyboardShortcutsContext.tsx:87-102 | the default is prevented exactly when a shortcut is found; then its action is recorded and the help toggles or closes for the help shortcuts; otherwise nothing changes |
| Sidebar.FindItem | src/components/layout/Sidebar.tsx:188 | `find` returns a catalogue item with the given href, or nothing exactly when no item has it |
| Sidebar.Reordered | src/components/layout/Sidebar.tsx:187-189 | the saved hrefs mapped to catalogue items with the unknown ones dropped: only catalogue items whose href was saved |
| Sidebar.WithoutHrefs | src/components/layout/Sidebar.tsx:192-194 | exactly the items whose href is not in the given list, never more than before |
| Sidebar.NoSavedOrder | src/components/layout/Sidebar.tsx:185-198 | with no saved order, or an empty one, the catalogue order is used unchanged |
| Sidebar.ContextOrdered | src/components/layout/Sidebar.tsx:185-198 | the ordered menu shows only catalogue items, and every item the saved order does not mention is still shown |
| Sidebar.ReorderedMembers | src/components/layout/Sidebar.tsx:187-189 | with distinct catalogue hrefs, an item is in the reordered part exactly when it is in the catalogue and its href was saved |
| Sidebar.ReorderedFollowsSaved | src/components/layout/Sidebar.tsx:187-189 | when every saved href is known, the reordered part lists exactly the saved hrefs in the saved order |
| Sidebar.ReorderedDistinct | src/components/layout/Sidebar.tsx:187-189 | a saved order without repeats gives a reordered part without repeats |
| Sidebar.ContextOrderedMembers | src/components/layout/Sidebar.tsx:184-199 | every catalogue item, and nothing else, appears in the ordered menu, whatever was saved |
| Sidebar.ContextOrderedPermutation | src/components/layout/Sidebar.tsx:184-199 | with a saved order without repeats the ordered menu is a permutation of the catalogue |
| Sidebar.WithoutHrefsConcat | src/components/layout/Sidebar.tsx:251-252 | hiding works item by item, so the kept items stay in their relative order |
| Sidebar.VisibleMenuItems | src/components/layout/Sidebar.tsx:250-253 | exactly the ordered items whose href is not hidden |
| Sidebar.NothingHidden | src/components/layout/Sidebar.tsx:251 | without a hidden list every ordered item is visible |
| Sidebar.RemoveFirstSlash | src/components/layout/Sidebar.tsx:258 | an href starting with a slash loses that one slash |
| Sidebar.FilteredMenuItems | src/components/layout/Sidebar.tsx:256-287 | corrected: exactly the visible items the current person may use under the corrected permission map, where coupons needs `customers`; never more than were visible |
| Sidebar.FilterBasics | src/components/layout/Sidebar.tsx:260-261 | the dashboard is always listed, and in owner mode the menu is the visible list itself |
| Sidebar.OwnerSeesAll | src/components/layout/Sidebar.tsx:261 | in owner mode nothing is filtered out, in order |
| Sidebar.FilterByPermission | src/components/layout/Sidebar.tsx:282-285 | corrected map: an item with no entry in the permission map is listed; any other is listed exactly when the employee has the permission its entry names |
| Sidebar.CouponsLinkRefused | src/components/layout/Sidebar.tsx:271 | as written, a cashier with only the settings permission is shown the coupons link while the page guard refuses them the coupons page |
| Sidebar.LinkMatchesGuard | src/components/layout/Sidebar.tsx:256-287 | for a link whose permission agrees with the page guard's table, a shown link always opens, and outside the role-specific pages it is shown exactly when the guard lets the employee in |
| Sidebar.CouponsAgreement | src/components/layout/Sidebar.tsx:271 | with the coupons entry set to the customers permission the link agrees with the guard; as written it does not |
| Sidebar.ArrayMove | src/components/layout/Sidebar.tsx:302 | the moved item lands at the target index and the length is kept |
| Sidebar.ArrayMovePermutation | src/components/layout/Sidebar.tsx:302 | a move is a permutation that keeps all the other items in their relative order |
| Sidebar.IndexOfHref | src/components/layout/Sidebar.tsx:299-300 | `findIndex`: the first position whose href is the given one |
| Sidebar.OrdersMatchIsEquality | src/components/layout/Sidebar.tsx:215-216 | the length check plus the pointwise check hold exactly when the override's hrefs equal the saved order |
| Sidebar.OrderState.constructor | src/components/layout/Sidebar.tsx:172 | the sidebar starts with no override and nothing being dragged |
| Sidebar.OrderState.HandleDragStart | src/components/layout/Sidebar.tsx:289-291 | the dragged id is recorded and the override is left alone |
| Sidebar.OrderState.HandleDragEnd | src/components/layout/Sidebar.tsx:293-323 | the drag ends; a drop on itself or nowhere changes nothing; otherwise the current order is moved from the dragged item's index to the target's, saved, and kept as the override unless saving fails, which rolls it back |
| Sidebar.OrderState.SyncOverride | src/components/layout/Sidebar.tsx:205-223 | the override is dropped exactly when the non-empty saved order equals it, and kept otherwise |
| Sidebar.SyncKeepsDraggedOrder | src/components/layout/Sidebar.tsx:205-223 | once the dragged order is saved and the override is dropped, the ordered menu is the dragged order, so the sidebar does not jump back |
| Sidebar.MenuItemsDistinct | src/components/layout/Sidebar.tsx:67-85 | no two catalogue entries share an href |
| DataTable.Field | src/components/admin/DataTable.tsx:73-74 | a row's field, missing exactly when the row has no such key |
| DataTable.KeepMatchingMembers | src/components/admin/DataTable.tsx:62-66 | the rows kept are rows of the data that match the lowercased query, and every matching row is kept |
| DataTable.FilterMeaning | src/components/admin/DataTable.tsx:59-67 | a blank or whitespace-only search returns the data unchanged; otherwise a row is shown exactly when some field's lowercased text contains the lowercased query |
| DataTable.FilteredData | src/components/admin/DataTable.tsx:59-67 | a blank search keeps the data as it is; any search keeps only rows of the data and never adds any |
| DataTable.FilterIsSubsequence | src/components/admin/DataTable.tsx:62 | the filter works row by row, so the kept rows stay in data order |
| DataTable.ValueLeIsPreorder | src/components/admin/DataTable.tsx:75-79 | the order the sort puts field values in is total and transitive in both directions |
| DataTable.RowLeIsPreorder | src/components/admin/DataTable.tsx:72-80 | so is the induced order on rows by one field |
| DataTable.ComparatorAgrees | src/components/admin/DataTable.tsx:75-79 | on two values of one kind, or a missing one, that order is exactly "the source's comparator does not put the second first" |
| DataTable.SortedData | src/components/admin/DataTable.tsx:70-81 | the sorted rows are a permutation of the filtered ones, and with a sort key they are in order by that field |
| DataTable.MissingLast | src/components/admin/DataTable.tsx:76-77 | after a row missing the sort field every later row is missing it too, in both directions |
| DataTable.SortedAgreesWithComparator | src/components/admin/DataTable.tsx:72-80 | no two comparable rows of the result are in an order the comparator would swap |
| DataTable.TotalPages | src/components/admin/DataTable.tsx:89 | `ceil(n / pageSize)`: zero pages exactly for no rows, otherwise the fewest pages that hold them all |
| DataTable.PaginatedData | src/components/admin/DataTable.tsx:84-87 | the page holds at most a page of rows, each the sorted row at its offset from the page start; it is full when enough rows follow and empty past the end |
| DataTable.EveryRowOnAPage | src/components/admin/DataTable.tsx:84-89 | every sorted row appears on a page between the first and the last, at its offset |
| DataTable.PageSizes | src/components/admin/DataTable.tsx:84-89 | every page before the last is full, and pages past the last are empty |
| DataTable.KeysOf | src/components/admin/DataTable.tsx:105 | the set of the rows' key values |
| DataTable.DistinctKeysCount | src/components/admin/DataTable.tsx:101-105 | rows with distinct keys give as many keys as rows |
| DataTable.RowsWithKeys | src/components/admin/DataTable.tsx:120 | the rows reported are rows of the data whose key is selected, and every such row is reported |
| DataTable.RowsWithKeysConcat | src/components/admin/DataTable.tsx:120 | the filter distributes over concatenation, so the selected rows come out in data order and with their repeats |
| DataTable.Toggled | src/components/admin/DataTable.tsx:111-119 | toggling flips the membership of exactly one key |
| DataTable.ToggleTwice | src/components/admin/DataTable.tsx:111-121 | toggling a row twice restores the selection |
| DataTable.SelectAllAsWritten | src/components/admin/DataTable.tsx:100-109 | as written: the selection is cleared when its size equals the page's row count, otherwise it becomes the page's keys |
| DataTable.SelectAllAsWrittenClearsOtherPage | src/components/admin/DataTable.tsx:100-109 | a selection of two rows on one page makes the header look ticked on another two-row page, and the header click there clears everything instead of selecting that page |
| DataTable.SelectAll | src/components/admin/DataTable.tsx:100-109 | corrected: clear when every key of the page is selected, otherwise select the page |
| DataTable.SelectAllTwice | src/components/admin/DataTable.tsx:100-109 | corrected, a first click selects the page and a second clears it |
| DataTable.SelectAllAgreesOnOnePage | src/components/admin/DataTable.tsx:101 | when the selection is drawn from the page itself and its keys are distinct, the written test and the corrected test agree |
| DataTable.PathConcat | src/components/admin/DataTable.tsx:126 | following a dotted path is following its first part then the rest |
| DataTable.PathFromMissing | src/components/admin/DataTable.tsx:126 | once a step is missing the whole path is missing (the `?.` chain) |
| DataTable.GetNested | src/components/admin/DataTable.tsx:123-129 | a two-part key reads the inner field of the outer object, or nothing when the outer field is not an object |
| DataTable.GetValue | src/components/admin/DataTable.tsx:123-129 | a key without a dot reads that field; a dotted key whose first part is not a field of the row reads nothing |
| DataTable.Table.constructor | src/components/admin/DataTable.tsx:52-56 | an empty search, no sort key, ascending, nothing selected, page one |
| DataTable.Table.SetSearch | src/components/admin/DataTable.tsx:160-163 | a new search resets the page to one and leaves the sort and selection alone |
| DataTable.Table.HandleSort | src/components/admin/DataTable.tsx:91-98 | the same key flips the direction, a new key sorts ascending by it; nothing else changes |
| DataTable.Table.ToggleSelect | src/components/admin/DataTable.tsx:111-121 | the row's key is toggled and the reported rows are those of the data whose key is now selected |
| DataTable.Table.ToggleSelectAll | src/components/admin/DataTable.tsx:100-109 | corrected: when every key of the page is selected the selection is cleared and nothing is reported, otherwise the page's keys are selected and the page reported; nothing else changes |
| DataTable.Table.PreviousPage | src/components/admin/DataTable.tsx:287 | the page goes back one, never below one |
| DataTable.Table.NextPage | src/components/admin/DataTable.tsx:297 | the page goes forward one, never past the last |
| DataTable.SearchShowsFirstPage | src/components/admin/DataTable.tsx:160-163 | after a search the rows shown are the first rows of the newly filtered and sorted data |
| NewOrder.FilteredProducts | src/app/pedidos/novo/page.tsx:102-104 | with no category chosen every product; otherwise exactly the products of that category |
| NewOrder.FilteredProductsConcat | src/app/pedidos/novo/page.tsx:102-104 | the filter distributes over concatenation, so the products shown keep the catalogue order |
| NewOrder.Total | src/app/pedidos/novo/page.tsx:144 | the delivery fee is added only for a delivery |
| NewOrder.Increment | src/app/pedidos/novo/page.tsx:110-114 | every line keeps its product and notes, in place, and no quantity falls |
| NewOrder.IdSetHasLine | src/app/pedidos/novo/page.tsx:108 | a product id is among the cart's ids exactly when the cart has a line for it |
| NewOrder.NoLineNoQuantity | src/app/pedidos/novo/page.tsx:108 | a product without a line has no quantity and contributes nothing to the subtotal |
| NewOrder.IncrementEffect | src/app/pedidos/novo/page.tsx:110-114 | incrementing raises the product's quantity by one per matching line and its share of the subtotal by its price per line, leaving other products alone |
| NewOrder.CountUnique | src/app/pedidos/novo/page.tsx:106-118 | in a cart with one line per product, a product in the cart has exactly one line |
| NewOrder.AddToCartEffect | src/app/pedidos/novo/page.tsx:106-118 | adding a product raises its quantity by one and the subtotal by its price, and no other product's quantity changes |
| NewOrder.AppendLine | src/app/pedidos/novo/page.tsx:116-143 | appending a line adds its quantity to its product and its amount to the subtotal |
| NewOrder.AddToCartKeepsValid | src/app/pedidos/novo/page.tsx:106-118 | a cart with one line per product and positive quantities keeps both after adding a product |
| NewOrder.AddToCart | src/app/pedidos/novo/page.tsx:106-118 | afterwards the cart has a line for the product, at most one line more than before, and every earlier line keeps its product and notes |
| NewOrder.UpdateQuantityEffect | src/app/pedidos/novo/page.tsx:120-131 | the product's quantity changes by the delta, and the line goes when the result is zero or less; other products and carts without the product are unchanged |
| NewOrder.UpdateQuantity | src/app/pedidos/novo/page.tsx:120-131 | the cart never grows, and raising a quantity in a cart of positive lines never removes a line |
| NewOrder.UpdateQuantityConcat | src/app/pedidos/novo/page.tsx:120-131 | the update works line by line over concatenation, so every line keeps its place |
| NewOrder.UpdateQuantityLine | src/app/pedidos/novo/page.tsx:120-131 | on one line: another product's line stays exactly as it was; the product's line gets the new quantity, or goes when that is zero or less |
| NewOrder.RemoveFromCartEffect | src/app/pedidos/novo/page.tsx:133-135 | the product leaves the cart, the subtotal falls by its line total, other products are unchanged |
| NewOrder.RemoveFromCart | src/app/pedidos/novo/page.tsx:133-135 | a line is kept exactly when it was in the cart and is not the product's |
| NewOrder.RemoveFromCartConcat | src/app/pedidos/novo/page.tsx:133-135 | removal works line by line over concatenation, so the other lines keep their place and contents |
| NewOrder.UpdateItemNotes | src/app/pedidos/novo/page.tsx:137-141 | only the matching line's notes change; products, quantities and order stay |
| NewOrder.NotesChangeNoAmount | src/app/pedidos/novo/page.tsx:137-143 | changing notes changes no quantity and not the subtotal |
| NewOrder.FiltersKeepIds | src/app/pedidos/novo/page.tsx:120-135 | changing a quantity or removing a line never introduces a product |
| NewOrder.UpdateQuantityKeepsValid | src/app/pedidos/novo/page.tsx:120-131 | changing a quantity keeps one line per product and every quantity positive |
| NewOrder.RemoveFromCartKeepsValid | src/app/pedidos/novo/page.tsx:133-135 | removing a product keeps one line per product and every quantity positive |
| NewOrder.NotesKeepValid | src/app/pedidos/novo/page.tsx:137-141 | so does changing notes |
| NewOrder.OrNull | src/app/pedidos/novo/page.tsx:177-201 | null exactly for an empty text, otherwise the text |
| NewOrder.NextOrderNumber | src/app/pedidos/novo/page.tsx:168 | one past the last order number, or 1 when there is none or it is 0 |
| NewOrder.ItemRows | src/app/pedidos/novo/page.tsx:194-202 | one item row per cart line, with its product, quantity, unit price, the price times the quantity as total and empty notes stored as null |
| NewOrder.ItemsAddUp | src/app/pedidos/novo/page.tsx:143-202 | the item rows' totals add up to the cart's subtotal |
| NewOrder.SubmitGuards | src/app/pedidos/novo/page.tsx:154 | the form submits exactly when there is a user, a customer name and a non-empty cart |
| NewOrder.Submit | src/app/pedidos/novo/page.tsx:153-217 | the order and its items are created exactly when there is a user, a customer name and a cart line and both writes succeed; the items are one per cart line, and a written order is pending under the customer's name |
| NewOrder.CreatedOrderAddsUp | src/app/pedidos/novo/page.tsx:168-202 | a created order has the next order number, a subtotal equal to its items' totals, a total that adds the fee, a fee only for delivery, and one item per cart line |
| SupportChat.FirstTwin | src/app/admin/support/page.tsx:127-131 | the first message that is an optimistic twin of the incoming one (same content and sender role, a temporary id), or none exactly when there is no twin |
| SupportChat.ReplaceId | src/app/admin/support/page.tsx:135 | the message with the given id is replaced by the incoming one, every other message stays in place |
| SupportChat.DuplicateIgnored | src/app/admin/support/page.tsx:123 | an incoming message whose id is already listed leaves the list as it was |
| SupportChat.MergeCases | src/app/admin/support/page.tsx:127-138 | with unique ids, the first twin is replaced in place and nothing else moves; without a twin the message is appended |
| SupportChat.MergeKeepsIdsUnique | src/components/settings/SupportTab.tsx:109-126 | merging keeps the message ids unique in both panels |
| SupportChat.MergeShowsCopy | src/components/settings/SupportTab.tsx:109-126 | after a merge the incoming message is listed |
| SupportChat.MergeIdempotent | src/components/settings/SupportTab.tsx:111 | the same broadcast arriving twice merges as once |
| SupportChat.Merge | src/app/admin/support/page.tsx:120-139 | a message whose id is listed changes nothing; any other is listed afterwards, and the list grows by at most one |
| SupportChat.TempId | src/app/admin/support/page.tsx:166 | the id of an optimistic message counts as temporary in both panels |
| SupportChat.Optimistic | src/app/admin/support/page.tsx:167-174 | the optimistic message carries the temporary id and the typed text |
| SupportChat.Rollback | src/app/admin/support/page.tsx:185 | a message is in the result exactly when it was in the list and does not carry the temporary id, and the list never grows |
| SupportChat.RollbackConcat | src/app/admin/support/page.tsx:185 | the filter works message by message: on a concatenation it is the concatenation of the two filtered lists, so the kept messages stay in order |
| SupportChat.RollbackUndoesSend | src/components/settings/SupportTab.tsx:187-197 | a failed send removes exactly the optimistic message it appended, restoring the earlier list |
| SupportChat.RollbackWithoutTemp | src/app/admin/support/page.tsx:185 | when the temporary message is already gone, the rollback changes nothing |
| SupportChat.SendThenBroadcast | src/app/admin/support/page.tsx:127-176 | when the stored copy of a sent message arrives, it takes the optimistic message's place at the end |
| SupportChat.Chat.constructor | src/app/admin/support/page.tsx:149-156 | a panel starts with the loaded messages and an empty input |
| SupportChat.Chat.Receive | src/components/settings/SupportTab.tsx:107-127 | the panel's messages become the merge of the incoming message |
| SupportChat.Chat.Send | src/components/settings/SupportTab.tsx:174-201 | nothing is sent for a blank input or without a ticket; otherwise the optimistic message is appended and the input cleared, and a failed call removes that message again |
| SupportChat.FilteredTickets | src/app/admin/support/page.tsx:307-309 | "all" keeps every ticket; any other filter keeps exactly the tickets with that status |
| SupportChat.FilteredTicketsConcat | src/app/admin/support/page.tsx:307-309 | the filter distributes over concatenation, so the tickets shown keep their order |
| SupportChat.FilterAndCounts | src/app/admin/support/page.tsx:362-364 | the "all" filter is the identity and a status filter keeps as many tickets as that status's counter shows |
| SupportChat.CountsAddUp | src/app/admin/support/page.tsx:362-364 | the counts of the four statuses add up to the total shown |
| CashFlow.KeyOrderMembers | src/app/fluxo-caixa/page.tsx:100-106 | the keys in the map's insertion order: each key once, every entry's key present, and nothing that no entry has |
| CashFlow.GroupSumAbsent | src/app/fluxo-caixa/page.tsx:104-105 | a key no entry has sums to zero |
| CashFlow.GroupMapSnoc | src/app/fluxo-caixa/page.tsx:168-170 | one more entry adds its amount to its own key's running sum, starting from zero for a new key, and changes no other key |
| CashFlow.GroupsAddUp | src/app/fluxo-caixa/page.tsx:100-121 | the per-key sums over all keys add up to the sum over all entries, so grouping loses and double-counts nothing |
| CashFlow.SumsMapSnoc | src/app/fluxo-caixa/page.tsx:102-113 | one more entry adds to its own day's income when it is income and to that day's expense otherwise, and changes no other day |
| CashFlow.Rows | src/app/fluxo-caixa/page.tsx:115-121 | one row per listed day, each that day's income, expense and their difference |
| CashFlow.NewestFirstIsPreorder | src/app/fluxo-caixa/page.tsx:122 | the comparison by date, newest first, is a total preorder, so the sort is well defined |
| CashFlow.RecordEntry | src/app/fluxo-caixa/page.tsx:102-113 | one entry adds its amount to its day's income when typed income and to its expense otherwise, a day met for the first time starting at zero and taking the next place in the insertion order |
| CashFlow.CalculateDailySummaries | src/app/fluxo-caixa/page.tsx:99-125 | the loop over the entries, the map and the sort give exactly the daily summaries the specification defines |
| CashFlow.ListedSumsMap | src/app/fluxo-caixa/page.tsx:115-121 | reading the map in insertion order gives the specification's rows, with every listed day in the map |
| CashFlow.SortedRows | src/app/fluxo-caixa/page.tsx:115-122 | the sorted rows are the rows of the days met, each its day's summary, none twice |
| CashFlow.DailySummariesMeaning | src/app/fluxo-caixa/page.tsx:99-122 | there is one row exactly for each day with an entry, each row's balance is its income minus its expense, and the rows run strictly from newest to oldest |
| CashFlow.DailySummaries | src/app/fluxo-caixa/page.tsx:99-122 | one row per day with an entry, newest first |
| CashFlow.OfKind | src/app/fluxo-caixa/page.tsx:158-168 | `filter` by type keeps only entries of that type, taken from the list, keeps every entry of that type, and changes nothing when all entries have it |
| CashFlow.OfKindConcat | src/app/fluxo-caixa/page.tsx:158-168 | the filter works piece by piece, so the entries kept stay in their order |
| CashFlow.SumAmountsSnoc | src/app/fluxo-caixa/page.tsx:158-159 | the running sum adds each amount once |
| CashFlow.CashTotals | src/app/fluxo-caixa/page.tsx:158-164 | the balance is income minus expense |
| CashFlow.DailyAgreesWithTotals | src/app/fluxo-caixa/page.tsx:99-164 | the days' incomes add up to the total income; when every entry is income or expense the days' expenses add up to the total expense |
| CashFlow.OtherKindCountsAsDailyExpense | src/app/fluxo-caixa/page.tsx:108-159 | an entry of any other type counts as a daily expense yet not in the expense total |
| CashFlow.LargerFirstIsPreorder | src/app/fluxo-caixa/page.tsx:172 | the comparison by sum, largest first, is a total preorder |
| CashFlow.CategorySums | src/app/fluxo-caixa/page.tsx:167-171 | one pair per category met among the entries of the type |
| CashFlow.ComputeCategoryBreakdown | src/app/fluxo-caixa/page.tsx:166-174 | the loop over the filtered entries, the sort and the slice give the breakdown the specification defines |
| CashFlow.SortedCategorySumsMeaning | src/app/fluxo-caixa/page.tsx:167-172 | the sorted pairs are every category of the type once, each with its sum, largest first |
| CashFlow.CategoryBreakdownMeaning | src/app/fluxo-caixa/page.tsx:166-174 | at most five categories, each once and with its sum, largest first, and no category left out sums to more than one that is shown |
| CashFlow.CategoryBreakdown | src/app/fluxo-caixa/page.tsx:166-174 | five categories, or all of them when there are fewer, largest sum first |
| CashFlow.CategoryTieOrder | src/app/fluxo-caixa/page.tsx:171-172 | the sort is stable: categories with equal sums stay in the order the map first met them |
| Stock.SignedQuantity | src/app/estoque/page.tsx:180-182 | a waste is recorded as a removal of the typed amount whatever its sign; any other movement as typed |
| Stock.ClampedStock | src/app/estoque/page.tsx:198-202 | the new stock is the old stock plus the quantity, or zero when that would be negative |
| Stock.MovementGuards | src/app/estoque/page.tsx:177-195 | a movement writes nothing exactly when the user, the ingredient or the quantity text is missing, and the stock is updated only after the movement row is saved |
| Stock.HandleStockMovement | src/app/estoque/page.tsx:176-214 | nothing is written exactly when the user, the ingredient or the quantity is missing; a completed movement has both writes succeed and leaves the selected ingredient with a stock that is not negative, and after a waste the stock is at most the old stock, or zero |
| Stock.MovementEffect | src/app/estoque/page.tsx:176-207 | a completed movement records the signed quantity for the selected ingredient and sets its stock to the clamped sum |
| Stock.WasteNeverRaises | src/app/estoque/page.tsx:180-202 | a waste never raises the stock, and its sign as typed does not matter |
| Stock.LowStockIngredients | src/app/estoque/page.tsx:223-225 | exactly the ingredients at or under a positive minimum |
| Stock.LowStockConcat | src/app/estoque/page.tsx:223-225 | the filter distributes over concatenation, so the low ingredients keep their order |
| Stock.EmptiedIsLow | src/app/estoque/page.tsx:202-224 | a movement that empties an ingredient with a minimum puts it on the low-stock list |
| Stock.TotalStockValueConcat | src/app/estoque/page.tsx:227-229 | the stock value of two lists joined is the sum of their values |
| Stock.StockValueAfterUpdate | src/app/estoque/page.tsx:198-229 | changing one ingredient's stock changes the total by the change times its unit cost |
| Stock.TotalStockValueNonNegative | src/app/estoque/page.tsx:227-229 | with no negative stock or cost the total value is not negative |
| Stock.FilteredIngredients | src/app/estoque/page.tsx:231-233 | exactly the ingredients whose lowercased name contains the lowercased search |
| Stock.FilteredIngredientsConcat | src/app/estoque/page.tsx:231-233 | the filter distributes over concatenation, so the matching ingredients keep their order |
| Stock.EmptySearchKeepsAll | src/app/estoque/page.tsx:231-233 | an empty search shows every ingredient, in order |
| StripeSync.MapStripeStatus | src/app/api/stripe/sync/route.ts:7-22 | any Stripe status outside the four renamed ones is stored as it comes |
| StripeSync.KnownStatusesMapToLocal | src/app/api/stripe/sync/route.ts:7-22 | trialing, active, both spellings of cancelled, overdue and unpaid each become the right local status |
| StripeSync.MapStripeStatusIdempotent | src/app/api/stripe/sync/route.ts:7-22 | mapping an already mapped status changes nothing |
| StripeSync.PlanTypeFromPriceId | src/app/api/stripe/sync/route.ts:25-30 | a price none of the configured ids names, or any price when none is configured, falls back to the basic plan |
| StripeSync.PlanTypeIsKnown | src/app/api/stripe/sync/route.ts:25-30 | every price gives a plan name the plan tables know, the professional price the mid plan and the enterprise price the top plan |
| StripeSync.WebhookPlanTypeAsWritten | src/app/api/stripe/webhook/route.ts:26-31 | as written, the webhook's plan name is one of three strings, the mid one mis-encoded |
| StripeSync.WebhookProfessionalPlanUnknown | src/app/api/stripe/webhook/route.ts:28 | for the professional price the webhook writes a name the plan tables do not know, while the sync route writes the mid plan |
| StripeSync.WebhookAgreesElsewhere | src/app/api/stripe/webhook/route.ts:26-31 | the two routes agree on every price but the professional one |
| StripeSync.FindStatus | src/app/api/stripe/sync/route.ts:82-84 | `find` by status: the first subscription with that status, or none exactly when no subscription has it |
| StripeSync.ChoicePriority | src/app/api/stripe/sync/route.ts:82-93 | nothing is chosen only from an empty list; the first active subscription wins, then the first trialing one, then the first listed |
| StripeSync.ChooseSubscription | src/app/api/stripe/sync/route.ts:82-93 | nothing is chosen only from an empty list, the choice is one of the listed subscriptions, and a non-active choice means none is active |
| StripeSync.SyncWrites | src/app/api/stripe/sync/route.ts:32-137 | a row is written exactly when there is a user, a customer id (stored first, else from the email lookup) and a subscription; it holds the chosen subscription's id, its mapped status and a known plan |
| StripeSync.Sync | src/app/api/stripe/sync/route.ts:32-137 | without a user the route answers unauthorised; a written row belongs to the user, names a non-empty customer id and comes from a non-empty subscription list |
| OrderActions.PaymentColumn | src/app/actions/orders.ts:44 | the stored payment method is always one of money, credit and pix |
| OrderActions.PaymentColumnDistinguishes | src/app/actions/orders.ts:44 | the three accepted methods are stored as three different values, pix as pix |
| OrderActions.CustomerAddressStart | src/app/actions/orders.ts:40-42 | a pickup order's address is the fixed pickup text; a delivery order's starts with the street and a comma |
| OrderActions.CustomerAddressEnd | src/app/actions/orders.ts:41 | a delivery address ends with the complement in parentheses when there is one, else with the neighbourhood |
| OrderActions.AddonsSumNonNegative | src/app/actions/orders.ts:74 | valid addons never sum to less than zero |
| OrderActions.ItemTotalBounds | src/app/actions/orders.ts:74 | a valid item's total is at least its price times its quantity and never negative, and without addons exactly that |
| OrderActions.AddonNames | src/app/actions/orders.ts:65 | the addons' names, in order |
| OrderActions.AddonTextShape | src/app/actions/orders.ts:64-71 | without addons the product name is stored as entered; with addons it is followed by the addon label and the first addon's name, and closed by a parenthesis |
| OrderActions.ItemRows | src/app/actions/orders.ts:63-77 | one row per item, in order, each for the new order |
| OrderActions.ValidationComesFirst | src/app/actions/orders.ts:10-14 | a payload is refused before anything is written exactly when it is invalid |
| OrderActions.CreateOrder | src/app/actions/orders.ts:8-101 | a successful order was valid, is pending, is numbered as its row says and has one item row per item, each attached to the new order's id |
| OrderActions.CreatedOrder | src/app/actions/orders.ts:31-100 | a successful order carries the inserted id, is numbered exactly one past the seller's last order (1 for the first), is pending to pay and to prepare, and has one row per item, each with its addons' prices in a non-negative total |
| WhatsAppSender.FirstName | src/components/crm/WhatsappSenderModal.tsx:26 | the first name is the first piece of the name split at spaces |
| WhatsAppSender.FirstNameIsFirstWord | src/components/crm/WhatsappSenderModal.tsx:26 | the first name is a prefix of the name without spaces that is either the whole name or followed by a space |
| WhatsAppSender.PlaceName | src/components/crm/WhatsappSenderModal.tsx:27 | the establishment's name, or the fallback text when it is missing or empty: never empty |
| WhatsAppSender.RenderAppend | src/components/crm/WhatsappSenderModal.tsx:25-29 | rendering a template is rendering its parts one after another |
| WhatsAppSender.PlaceholderSpelling | src/components/crm/WhatsappSenderModal.tsx:22-99 | the text a variable button inserts is a space and the variable's placeholder |
| WhatsAppSender.InsertKeepsTemplate | src/components/crm/WhatsappSenderModal.tsx:21-23 | inserting a variable extends the message's template by a space and that placeholder, and keeps its plain texts free of braces |
| WhatsAppSender.InsertVariable | src/components/crm/WhatsappSenderModal.tsx:21-23 | the message typed so far is kept and is followed by exactly a space and the variable in braces |
| WhatsAppSender.ReplaceSkipsPlain | src/components/crm/WhatsappSenderModal.tsx:26-27 | a replacement of a brace-led placeholder passes over text without braces unchanged |
| WhatsAppSender.ReplaceAtPlaceholder | src/components/crm/WhatsappSenderModal.tsx:26-27 | a placeholder at the front is replaced and the scan goes on after it |
| WhatsAppSender.ReplaceSkipsOther | src/components/crm/WhatsappSenderModal.tsx:26-27 | one placeholder's replacement passes over the other placeholder unchanged |
| WhatsAppSender.PlaceholderShapes | src/components/crm/WhatsappSenderModal.tsx:26-27 | both placeholders start with a brace, hold no other brace and differ in their second letter |
| WhatsAppSender.NamePass | src/components/crm/WhatsappSenderModal.tsx:26 | replacing the name placeholder in a template fills every name slot and leaves the place slots as placeholders |
| WhatsAppSender.PlacePass | src/components/crm/WhatsappSenderModal.tsx:27 | replacing the place placeholder then fills every place slot, as long as the name put in holds no brace |
| WhatsAppSender.ParsedTemplate | src/components/crm/WhatsappSenderModal.tsx:25-29 | a message built from plain texts and placeholders reads, for each customer, with their first name in every name slot and the establishment's name in every place slot |
| WhatsAppSender.ParsedMessage | src/components/crm/WhatsappSenderModal.tsx:25-29 | a message without placeholders is sent exactly as typed; what it does to a template is stated by ParsedTemplate |
| WhatsAppSender.DefaultMessageParsed | src/components/crm/WhatsappSenderModal.tsx:16-29 | the default message greets the customer by first name and names the establishment |
| WhatsAppSender.RenderUnfold | src/components/crm/WhatsappSenderModal.tsx:17 | a template of text, name, text, place, text renders as those texts around the two values |
| WhatsAppSender.DefaultTextsPlain | src/components/crm/WhatsappSenderModal.tsx:17 | the default message's fixed texts hold no brace |
| WhatsAppSender.ValidRecipients | src/components/crm/WhatsappSenderModal.tsx:32-34 | exactly the recipients with a phone of at least ten digits |
| WhatsAppSender.ValidRecipientsConcat | src/components/crm/WhatsappSenderModal.tsx:32-34 | the filter distributes over concatenation, so `validRecipients[index]` walks the selected customers in selection order |
| WhatsAppSender.LinkNumber | src/components/crm/WhatsappSenderModal.tsx:37-40 | the number in the link is all digits |
| WhatsAppSender.WhatsappLink | src/components/crm/WhatsappSenderModal.tsx:36-42 | the link starts with the wa.me address, carries the link number up to the query, and right after the number comes exactly "?text=" and the encoded text |
| WhatsAppSender.LinkNumberShape | src/components/crm/WhatsappSenderModal.tsx:37-40 | for a usable phone the digits are kept when they start with 55 or are longer than eleven, and otherwise get the country code 55 in front |
| WhatsAppSender.LinkNumberPrefixedOnce | src/components/crm/WhatsappSenderModal.tsx:38 | a number of at most eleven digits always ends up starting with 55 |
| WhatsAppSender.SenderAgreesWithHelper | src/components/crm/WhatsappSenderModal.tsx:36-42 | on national numbers outside area code 55, and on numbers that already carry the country code, the modal's link number is the shared helper's |
| WhatsAppSender.AreaCode55Dropped | src/components/crm/WhatsappSenderModal.tsx:38 | a national number in area code 55 is sent without the country code, while the shared helper adds it |
| WhatsAppSender.IntendedLink | src/components/crm/WhatsappSenderModal.tsx:36-42 | corrected: the link carries the number as the shared helper writes it |
| WhatsAppSender.IntendedLinkFullNumber | src/components/crm/WhatsappSenderModal.tsx:32-42 | corrected, every accepted recipient's link number has at least twelve digits, the country code before any national number |
| WhatsAppSender.IntendedLinkAgrees | src/components/crm/WhatsappSenderModal.tsx:36-42 | where the modal's rule is right the corrected link is the modal's link |

## Left out

- Supabase, Stripe, AbacatePay and push-notification calls are network I/O: their outcomes enter as parameters (the row a query returns, the id an insert returns, whether a write fails).
- React rendering, effects, realtime channels, routing, `alert`, `window.open` and browser storage are UI plumbing: a guard's view is a small datatype, a redirect is a recorded target, a shortcut's action is a tag, and `handleOpenNext` of the campaign sender is not modelled beyond the link it opens.
- SHA-256 (`crypto.subtle`), `crypto.getRandomValues`, `Date.now()` and `new Date()` are foreign or nondeterministic: the digest, the salt bytes and the current time in milliseconds are parameters.
- Accent stripping (`normalize('NFD')`), `encodeURIComponent` and `Intl` currency and date formatting are library behaviour: they enter as function parameters.
- Numbers are reals or integers: floating-point rounding, `NaN` and `Infinity` are not modelled, and the stock page's `parseFloat` result is the parameter `parsed`.
- Upper- and lower-case mapping is ASCII only, because Unicode case mapping can change a string's length.
- Strings are sequences of Unicode characters, so a character outside the Basic Multilingual Plane counts once where JavaScript's `length` counts two code units.
- `localeCompare` on the cash-flow dates is modelled as code-point order, which agrees with it on the ISO dates the page sorts.
- Pix.GeneratePixCode: the amount is a whole number of centavos, so `toFixed(2)` rounding of a fractional amount is not modelled.
- DataTable.SortedData: JavaScript's `<` between values of different kinds (a number and a text, say) has no consistent order, so such values are ordered by kind; `null` and `undefined` are one missing value.
- Sidebar.ArrayMove: dnd-kit's `arrayMove` is modelled as taking the item out and inserting it at the target index; `HandleDragEnd` requires both ids to be in the current order, which dnd-kit guarantees because it reports only listed items.
- WhatsAppSender.ParsedMessage: JavaScript's `$` patterns in a replacement text (`$&`, `` $` `` and so on) are not interpreted, so a first name or establishment name containing `$` is not modelled as the browser would expand it.
- WhatsAppSender.ParsedTemplate: stated only for templates whose fixed texts and whose customer's first name hold no `{`, because a brace there could join the following text into a placeholder and be replaced too.
- Employees.Session.LoginWithPin: the upgrade of a legacy plain-text PIN to a hash and the `sessionStorage` writes are database and browser I/O.
- Employees.Session.LoginWithPin: the `catch` branch that answers 'Erro ao processar login' is not modelled, because it only fires when a database call or the browser's hashing throws, and those calls are parameters of the model that always return.
- StripeSync.Sync: the invoice preview, trial and period timestamps, `billing_period` and the response to a failed upsert are Stripe and database I/O and dates; only the row's identifiers, status and plan are modelled.
- The webhook route and the force-sync route repeat the sync route's mappers; only the webhook's plan mapper is modelled, for the finding below.
- `predictRemainingToday` of the sales forecast and the subscription context's fetching of the subscription row are not part of this model: the first depends on the current hour and the second is database I/O.
- Sidebar.FilteredMenuItems: filters with the corrected permission map, where coupons needs `customers`; the written map's `settings` entry (src/components/layout/Sidebar.tsx:271) is modelled only by Sidebar.CouponsLinkRefused, the finding below.
- Sidebar.FilterByPermission: stated for the corrected permission map; the written map differs from it only at coupons.
- DataTable.Table.ToggleSelectAll: follows the corrected select-all; the written size test (src/components/admin/DataTable.tsx:101) is DataTable.SelectAllAsWritten, and the two agree when the selection is drawn from the page itself (DataTable.SelectAllAgreesOnOnePage).
- RateLimiter.Limiter.RecordFailedAttempt: one `now` stands for the current time throughout a call, where src/lib/rateLimiter.ts reads `Date.now()` once in the entry lookup and again in the caller; the two reads are milliseconds apart.
- SupportChat.Chat.Send: the rollback after a failed insert assumes no broadcast arrives between the optimistic append and the failure, so the list it restores is the list before the send.
- Ticket status updates, status badges and message loading of the support pages are database I/O and markup.
- The cash-flow page's period shortcuts (`setPeriodDates`) compute dates from the clock and are not part of this model.

## Findings

| source | as written | input that shows it | evidently intended | confidence | as-written member | corrected member |
|---|---|---|---|---|---|---|
| src/components/layout/Sidebar.tsx:271 | the sidebar shows the coupons link to anyone with the `settings` permission | a cashier with only `settings` sees the link, while the page guard (src/components/auth/RouteGuard.tsx:21) needs `customers` and refuses them the page | the link uses the guard's permission, `customers` | high, not executed | Sidebar.CouponsLinkRefused | Sidebar.LinkMatchesGuard, Sidebar.CouponsAgreement |
| src/components/admin/DataTable.tsx:101 | select-all clears the selection when its size equals the page's row count | two rows selected on page 1, then the header clicked on a two-row page 2: the header shows ticked and the click clears everything | clear only when every row of the page is selected, else select the page | high, not executed | DataTable.SelectAllAsWritten, DataTable.SelectAllAsWrittenClearsOtherPage | DataTable.SelectAll, DataTable.SelectAllTwice |
| src/app/api/stripe/webhook/route.ts:28 | the webhook stores the mid plan as the mis-encoded "AvanÃ§ado" | the professional price id: the stored plan name matches no plan, so `canAccess`, `getFeatureValue` and `getLimit` index the feature and limit tables with a missing plan and throw a TypeError | "Avançado", as the sync route writes | high, not executed | StripeSync.WebhookPlanTypeAsWritten, StripeSync.WebhookProfessionalPlanUnknown | StripeSync.PlanTypeFromPriceId, StripeSync.PlanTypeIsKnown |
| src/components/crm/WhatsappSenderModal.tsx:38 | a number starting with 55 is taken to carry the country code already | "(55) 99123-4567", a mobile in area code 55: the link dials 55991234567 with no country code | add the country code to every 10- or 11-digit number, as src/lib/whatsapp.ts:137-142 does | medium, not executed | WhatsAppSender.LinkNumber, WhatsAppSender.AreaCode55Dropped | WhatsAppSender.IntendedLink, WhatsAppSender.IntendedLinkFullNumber |
