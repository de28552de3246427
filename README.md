# Sellertalk lead submission, modelled in Dafny

This project models the lead-submission pipeline of the Sellertalk landing page and proves its properties. It has three parts:

- **Phone numbers.** The form validates and normalises the WhatsApp number (`src/utils/validation.ts`). This part also covers the hex step of the IP hash.
- **The submission service** (`src/services/submissionService.ts`). It covers:
  - error classification;
  - the client-side rate-limit cache;
  - the submission hash (base64 of the normalised fields);
  - the inserted row;
  - the bounded retry around the store's insert.
- **The form's logic** (`src/components/SubmissionForm.tsx`). It covers:
  - input sanitising;
  - the payload the form sends;
  - the platform check boxes;
  - the double-submit guard;
  - the error banner, with its retry button, icon and colour.

Modules:

| module | file | models |
|---|---|---|
| `Wrappers` | `wrappers.dfy` | `Option` |
| `Text` | `text.dfy` | the JavaScript string operations used: `trim`, `toLowerCase` over Latin-1, `startsWith`, `includes`, and global deletion of a set of characters |
| `Validation` | `validation.dfy` | `validateWhatsAppNumber`, `formatWhatsAppNumber`, and the hex step of `generateIPHash` |
| `Base64` | `base64.dfy` | `btoa`: base64 as section 4 of RFC 4648 defines it, over Latin-1 code units. A decoder is its partner. |
| `Service` | `service.dfy` | `classifyError`, `testConnection`, the rate-limit cache, the hash and the row, and `submitWithRetry`/`submitFormData` |
| `Form` | `form.dfy` | `sanitizeInput`, the `onSubmit` payload, the guard and result handling, `handlePlatformChange`, `handleRetry`, the number-validity effect, `getErrorIcon` and `getErrorColor` |

How the source's state is modelled:

- **The rate-limit cache.** The module-level `rateLimitCache` is the field of the class `Service.SubmissionService`.
- **The retry.** `submitWithRetry` recurses on `attempt`.
  - The spec function `Service.SubmitWithRetry` keeps that recursion.
  - The method `SubmitFormData` runs it as a bounded `while` loop. It is proved, as a contract, to equal that function.
  - Each attempt is one `Step`: finished with a result, or a retry with its requested delay.
  - What the environment does during an attempt is a `Tick`: `navigator.onLine`, two clock readings, and the store's answer (stored, an error record, or an exception).
  - What it does once per submission is an `Environment`: the connection test's answer, the SHA-256 digest or its exception, and the exception `btoa` throws.
- **The form's React state.** The state hooks (`isSubmitting`, `submitError`, `showRetryOption`, `whatsappValid`) are fields of the class `Form.SubmissionForm`. So is the `platforms` value of the react-hook-form store, which `setValue` writes. The values `handleSubmit` hands to `onSubmit` are a `FormValues` argument. `BeginSubmit`, `OnSubmit` and `HandleRetry` require its platforms to be that stored value, as the store gives both.
  - `onSubmit` is split at its `await` into `BeginSubmit` and `CompleteSubmit`.
  - `OnSubmit` composes the two around the service's `SubmitFormData`.
- **User-facing messages.** They are the constructors of `Service.UserMessage`. `Service.Wording` gives each one's exact text.

Where the code's behaviour may surprise, the model follows the code. The first two points go against the code's own comments:

- **A leading `+` is not always kept.** The comment at `src/utils/validation.ts:28` says a `+`-prefixed number is returned as is. But the two digit rules are tried first, so `+9876543210` becomes `+919876543210`.
- **The digit count is 10 to 15.** The comment at `src/utils/validation.ts:5` says 8 to 15 digits for international numbers, but the check at line 12 accepts 10 to 15.
- **Formatting is not idempotent.** Nothing in the code promises it, but the form formats what it sends and the hash is taken of what was sent. It fails exactly on inputs with 8 digits and no leading `+`. None of those is a valid number.
- **Exceptions caught by `submitWithRetry` are classified like returned errors** (`src/services/submissionService.ts:220-234`). They are not reported as `unknown`. A `network` exception is retried while attempts are left, and the result's `retryable` is `attempt < MAX_RETRIES`.
- **The rate-limit window never restarts** (`src/services/submissionService.ts:206-218`). An expired entry keeps its old timestamp and is still counted up. Once five minutes have passed since the first success for an identity, every later check allows it, however many submissions follow.

## Model

| member | source | states |
|---|---|---|
| Validation.Digits | src/utils/validation.ts:3 | The cleaned number has only ASCII digits and is no longer than the input. |
| Validation.DigitsAppend | src/utils/validation.ts:3 | Removing the non-digits works piece by piece over a concatenation. |
| Validation.DigitsCounts | src/utils/validation.ts:3 | Each digit keeps its multiplicity and no non-digit survives. With DigitsAppend, this fixes the cleaned number as the input's digits in order. |
| Validation.MatchesIndianMobile | src/utils/validation.ts:8 | The pattern holds iff there are exactly ten ASCII digits and the first is 6 or above, so 6-9. |
| Validation.ValidateWhatsAppNumber | src/utils/validation.ts:1-13 | A valid number has 10 to 15 digits. With exactly 10, it is valid iff the first digit is 6-9. |
| Validation.ValidateCharacterization | src/utils/validation.ts:1-13 | Validity depends only on the digits. With exactly 10 digits, the number is valid iff the first digit is 6-9. Otherwise it is valid iff there are 10 to 15 digits, so 8 or 9 digits are rejected. |
| Validation.FormatWhatsAppNumber | src/utils/validation.ts:15-35 | The formatted number is never empty and always starts with `+`. |
| Validation.FormatRules | src/utils/validation.ts:15-35 | Each rule, first match wins:<br>1. 10 digits starting 6-9 give `+91` and the digits.<br>2. 12 digits starting `91` give `+` and the digits.<br>3. Otherwise a raw `+` input is returned unchanged.<br>4. Otherwise the result is `+91` and the digits. |
| Validation.FormatPlusDigits | src/utils/validation.ts:15-35 | `+` followed by digits only gets `+91` in front iff the digits are a 10-digit Indian mobile number. Otherwise it is kept as it is. |
| Validation.FormatIdempotentIff | src/utils/validation.ts:15-35 | Formatting twice equals formatting once iff the input does not have exactly 8 digits with no leading `+`. |
| Validation.FormatIdempotentOnValid | src/utils/validation.ts:1-35 | On every valid number, formatting is idempotent. |
| Validation.PlusPrefixNotAlwaysKept | src/utils/validation.ts:18-31 | `+` followed by a 10-digit Indian mobile number gets `+91` put in front of its digits (the `+` is not kept as typed). |
| Validation.FallbackCanInvalidate | src/utils/validation.ts:33-34 | A valid 14- or 15-digit number typed without `+` is formatted to `+91` and its digits, which is no longer valid. |
| Validation.HexDigit | src/utils/validation.ts:42 | One nibble as one lower-case hex digit, `0`-`9` then `a`-`f`. |
| Validation.ByteToString16Digits | src/utils/validation.ts:42 | `toString(16)` of a byte writes one or two lower-case hex digits, one only below 16, with no leading zero except for zero itself. |
| Validation.PadStartPads | src/utils/validation.ts:42 | `padStart(n, c)` reaches length `n` when shorter, by putting copies of `c` in front and keeping the string at the end. |
| Validation.ByteToHex | src/utils/validation.ts:42 | A byte padded to two hex digits: the high nibble, then the low nibble. |
| Validation.HexEncode | src/utils/validation.ts:42 | The encoding is twice as long as the bytes. Every character is a lower-case hex digit. |
| Validation.HexEncodeAt | src/utils/validation.ts:42 | Byte k is written at characters 2k and 2k+1: its high nibble, then its low nibble. |
| Validation.HexValueOfDigit | src/utils/validation.ts:42 | Reading a hex digit gives back its nibble. |
| Validation.HexRoundTrip | src/utils/validation.ts:42 | Decoding the hex gives back the digest, so distinct digests give distinct IP hashes. |
| Validation.GenerateIPHash | src/utils/validation.ts:37-43 | The IP hash is twice the digest's length, all lower-case hex. |
| Text.TrimStart | src/components/SubmissionForm.tsx:40 | The result is a suffix of the input. Only whitespace was dropped, and it starts with a non-whitespace character. |
| Text.TrimEnd | src/components/SubmissionForm.tsx:40 | The result is a prefix of the input. Only whitespace was dropped, and it ends with a non-whitespace character. |
| Text.Trim | src/components/SubmissionForm.tsx:40 | `trim` never lengthens its input and leaves no whitespace at either end. |
| Text.TrimAt | src/components/SubmissionForm.tsx:40 | Character k of the trimmed string is character k after the leading whitespace. |
| Text.TrimIsSlice | src/components/SubmissionForm.tsx:40 | `trim` keeps one contiguous slice and drops only whitespace around it. The result has no whitespace at either end. |
| Text.TrimNoEdgeWhitespace | src/components/SubmissionForm.tsx:40 | A string with no whitespace at its ends is unchanged by `trim`. |
| Text.TrimIdempotent | src/components/SubmissionForm.tsx:40 | Trimming twice equals trimming once. |
| Text.LowerChar | src/services/submissionService.ts:169 | The lowered code point is never an upper-case Latin-1 letter. It lies in Latin-1 iff the input does or is one of U+0178, U+1E9E, U+212A and U+212B (targets in LowerCharTargets). Only letters change. A Latin-1 capital moves up by 32. |
| Text.LowerCharTargets | src/services/submissionService.ts:169 | U+0178, U+1E9E, U+212A and U+212B lower to `ÿ`, `ß`, `k` and `å`. |
| Text.LowerCharIdempotent | src/services/submissionService.ts:169 | Lowering a lowered code point changes nothing. |
| Text.ToLower | src/services/submissionService.ts:169 | `toLowerCase` keeps the length and lowers each character in place. |
| Text.ToLowerIdempotent | src/services/submissionService.ts:169 | Lowering twice is lowering once. |
| Text.StartsWith | src/utils/validation.ts:29 | `startsWith` holds iff the prefix occurs at position 0. |
| Text.Includes | src/services/submissionService.ts:40 | `includes` needs a substring no longer than the string, and holds whenever the string starts with it. |
| Text.IncludesOccurs | src/services/submissionService.ts:40 | `includes` holds iff the substring occurs at some position. |
| Text.Without | src/components/SubmissionForm.tsx:40 | Deleting characters never lengthens the string and leaves none of them. |
| Text.WithoutAppend | src/components/SubmissionForm.tsx:40 | Deletion works piece by piece, so the kept characters stay in order. |
| Text.WithoutNothingToDrop | src/components/SubmissionForm.tsx:40 | A string without such characters is left unchanged. |
| Text.WithoutCounts | src/components/SubmissionForm.tsx:40 | Every other character is kept as often as it occurs. |
| Base64.Encode | src/services/submissionService.ts:168-170 | The encoding has four characters for every started group of three bytes. |
| Base64.EncodeAlphabet | src/services/submissionService.ts:168-170 | Every encoded character is in the base64 alphabet or is the pad `=`. |
| Base64.Decode | src/services/submissionService.ts:168-170 | Strict decoding succeeds only on a length that is a multiple of four. |
| Base64.SextetRoundTrip | src/services/submissionService.ts:168-170 | Reading an alphabet character gives back its 6-bit value. |
| Base64.DecodeEncode | src/services/submissionService.ts:168-170 | Base64 decoding undoes encoding. |
| Base64.CodeUnits | src/services/submissionService.ts:168-170 | A Latin-1 string's code units, one byte per character. |
| Base64.FromCodeUnits | src/services/submissionService.ts:168-170 | The string whose code points are the given bytes. |
| Base64.Btoa | src/services/submissionService.ts:168-170 | `btoa` succeeds iff every code point is at most 255. Otherwise it throws. |
| Base64.Atob | src/services/submissionService.ts:168-170 | A successful decode gives a Latin-1 string, from input whose length is a multiple of four. It is strict: unlike a browser's `atob`, it rejects missing padding and whitespace. |
| Base64.AtobBtoa | src/services/submissionService.ts:168-170 | `atob` undoes `btoa`. |
| Base64.BtoaInjective | src/services/submissionService.ts:168-170 | Two strings with the same `btoa` are equal. |
| Service.Wording | src/services/submissionService.ts:28-77 | No contract: the body is the source's literal text for each message. It covers the texts at lines 28-77 and 139-160, and the form's two at `src/components/SubmissionForm.tsx:120` and `:127`. |
| Service.ClassifyError | src/services/submissionService.ts:30-77 | The kind is never `server`. Offline always gives the `network` error with the no-connection message. |
| Service.ClassifyErrorKinds | src/services/submissionService.ts:30-77 | The kind, for each kind in both directions:<br>- Offline gives `network` whatever the code or message.<br>- Online, a duplicate gives `validation`.<br>- Then a permission error gives `auth`.<br>- Then a rate-limit error gives `rate_limit`.<br>- Then a fetch failure gives `network`.<br>- Otherwise the kind is `unknown`.<br>- `server` is never produced. |
| Service.ClassifyErrorMessages | src/services/submissionService.ts:30-77 | Each kind has its fixed message. A `network` error reports offline or fetch failure as the case is. |
| Service.BareUniqueViolationFallsThrough | src/services/submissionService.ts:40-46 | Code 23505 without the index name is not a duplicate and falls through to `unknown`. |
| Service.TestConnection | src/services/submissionService.ts:81-102 | The test succeeds iff both configuration values are set and the session check answers without error. It has an error iff it failed. Each failure has its own message:<br>- missing configuration gives "Missing Supabase configuration";<br>- a session error gives its own message;<br>- a thrown session check gives "Failed to connect to database". |
| Service.CacheAfterSuccess | src/services/submissionService.ts:206-218 | Only the entry for that iphash changes. An existing entry gets `count + 1` and keeps its timestamp, even when expired. A missing entry becomes `{1, now}`. |
| Service.AllowsCases | src/services/submissionService.ts:105-120 | An identity without an entry is always allowed. A refusal means a fresh entry that already counts 5. |
| Service.SubmissionService.constructor | src/services/submissionService.ts:19 | The module-level cache starts empty. |
| Service.SubmissionService.CheckRateLimit | src/services/submissionService.ts:105-120 | The check allows iff the entry is missing, or older than five minutes, or its count is below 5. |
| Service.SubmissionService.RecordSuccess | src/services/submissionService.ts:206-218 | The cache becomes its success update. |
| Service.AfterSuccessesEntry | src/services/submissionService.ts:206-218 | n successes add n to an existing entry's count and keep its timestamp. |
| Service.RateLimitAfterSuccesses | src/services/submissionService.ts:105-120 | After n successes from no entry, a check is allowed iff n < 5 or five minutes have passed since the first success. |
| Service.Normalize | src/services/submissionService.ts:169 | `toLowerCase().trim()` never lengthens its input and leaves no whitespace at either end. |
| Service.NormalizeLower | src/services/submissionService.ts:169 | A normalised field holds no upper-case Latin-1 letter. |
| Service.NormalizeIdempotent | src/services/submissionService.ts:169 | Normalising twice is normalising once. |
| Service.SubmissionHash | src/services/submissionService.ts:167-170 | The hash exists iff the joined, normalised fields are Latin-1. |
| Service.SubmissionHashDecodes | src/services/submissionService.ts:167-170 | The hash decodes to the three normalised fields joined with `\|`. |
| Service.SubmissionHashDependsOnNormalizedFields | src/services/submissionService.ts:168-170 | Equal normalised number, domain and pain point give equal hashes. Platforms, consent and the IP play no part. |
| Service.JoinInjective | src/services/submissionService.ts:169 | A `\|`-join is undone when the left part has no `\|`. |
| Service.SubmissionHashInjective | src/services/submissionService.ts:168-170 | Equal hashes mean equal normalised fields, as long as no field contains `\|`. |
| Service.DelimiterCollision | src/services/submissionService.ts:168-170 | Moving a `\|` from the domain into the pain point gives a different submission with the same hash. |
| Service.BuildRow | src/services/submissionService.ts:172-181 | The row has the five fields as given, platforms defaulting to `[]`, source `landing_v1`, and the given iphash and hash. |
| Service.OnError | src/services/submissionService.ts:188-202 | This is a failure's retry decision, for error records and for exceptions. An attempt is retried iff `attempt < 3` and either the error is `network`, or it is a returned (not thrown) `auth` error. A retry waits `1000 * (attempt + 1)`. Otherwise the result fails with `retryable = attempt < 3` and the cache unchanged. |
| Service.AfterConnectionTest | src/services/submissionService.ts:152-220 | The attempt ends without a raw error iff the digest worked and the check refused, or the hash and the insert succeeded. Success updates the cache. A refusal is `rate_limit`, not retryable, with no insert. Any insert is the built row. |
| Service.AttemptOutcome | src/services/submissionService.ts:135-220 | As above, plus the connection test on attempt 0 only: its failure is `auth`, retryable, with no insert. |
| Service.IPHashOf | src/services/submissionService.ts:152 | The IP hash exists iff the digest was computed. It is twice the digest's length. |
| Service.RowOf | src/services/submissionService.ts:172-181 | The row exists iff the IP hash and the submission hash do, and carries both. |
| Service.AttemptStep | src/services/submissionService.ts:130-236 | One attempt. A retry follows a network error or a returned auth error, with the grown delay. An error and a retry hint come exactly on failure. Only success changes the cache. Apart from the rate-limit refusal, `retryable` says whether attempts remain. A network failure ends only the last attempt. The attempt inserts at most once, and only that row. |
| Service.Steps | src/services/submissionService.ts:130-236 | The four per-attempt steps against one cache all satisfy the per-attempt guarantees, and the last one finishes. |
| Service.SubmitWithRetryRuns | src/services/submissionService.ts:130-236 | The recursion runs the attempts' steps in order. |
| Service.RunRetries | src/services/submissionService.ts:193-196 | From any attempt:<br>- retries never exceed the bound;<br>- inserts are at most one more than retries;<br>- the i-th retry waits `1000 * (attempt + i + 1)`;<br>- every retry followed a network error or a returned auth error. |
| Service.RunResultShape | src/services/submissionService.ts:198-234 | A run's result has an error and a retry hint exactly on failure. |
| Service.RunAdvance | src/services/submissionService.ts:193-234 | One turn of the retry loop. A finished step completes the run with what was collected so far. A retry hands on to the next attempt with one more retry. |
| Service.RunFinal | src/services/submissionService.ts:193-234 | A run ends at its first finished step, with one retry for each step before it. The run's result and cache are that step's. |
| Service.RunCache | src/services/submissionService.ts:206-218 | A run changes the cache only by one success update, at the finishing attempt's clock. |
| Service.RunRetryable | src/services/submissionService.ts:198-234 | Apart from the rate-limit refusal, `retryable` says whether the run stopped before the last attempt. A network failure uses all retries. |
| Service.RunPayload | src/services/submissionService.ts:172-195 | Every insert of a run is the same row. |
| Service.SubmissionRetries | src/services/submissionService.ts:193-228 | From the first attempt:<br>- at most 3 retries and at most 4 inserts;<br>- the retries wait 1000, 2000 and 3000 ms;<br>- each retry follows a network error or a returned auth error. |
| Service.SubmissionResultShape | src/services/submissionService.ts:130-236 | The result has an error and a retry hint iff it failed. Apart from the rate-limit refusal, the hint is "fewer than 3 retries". A network failure comes after all 3 retries and is not retryable. |
| Service.SubmissionEffects | src/services/submissionService.ts:168-218 | Every insert is the same row, identical on every retry. Success updates the cache once. Failure leaves the cache unchanged. |
| Service.ConnectionGate | src/services/submissionService.ts:137-150 | A failed connection test returns `auth` and retryable at once, with no insert, no retry and the cache unchanged. |
| Service.ConnectionOnlyAtFirst | src/services/submissionService.ts:137 | From the second attempt on, the connection test's answer makes no difference. |
| Service.RateGate | src/services/submissionService.ts:154-165 | At any attempt, a refused check returns `rate_limit` and not retryable, with no insert and no retry. |
| Service.DuplicateNotRetried | src/services/submissionService.ts:188-202 | A duplicate rejected by the store is reported as already received. It is not retried and has one insert. It is retryable iff attempts remain. |
| Service.DuplicateStep | src/services/submissionService.ts:188-202 | The attempt that meets a duplicate finishes with the already-received error, the cache unchanged and the one insert. |
| Service.StepOffline | src/services/submissionService.ts:221-234 | Offline, an attempt that gets through is retried as `network`. On the last attempt it fails not retryable, with the offline message. |
| Service.OfflineExhaustsRetries | src/services/submissionService.ts:130-236 | Offline throughout, a submission takes every retry and ends with the offline `network` error, not retryable, cache unchanged. |
| Service.SubmissionService.TryAttempt | src/services/submissionService.ts:135-220 | The try block of one attempt. It returns the attempt's outcome and leaves the cache as that outcome says. |
| Service.SubmissionService.Attempt | src/services/submissionService.ts:130-236 | One attempt up to its recursive call. It returns the step, and the cache is that step's when the step finishes. |
| Service.SubmissionService.SubmitFormData | src/services/submissionService.ts:123-236 | The retry loop. Its result, its new cache, its inserts and its requested delays equal those of the recursive `submitWithRetry` from attempt 0. |
| Form.SanitizeInput | src/components/SubmissionForm.tsx:39-41 | The output has no `<` or `>` and is no longer than the input. |
| Form.SanitizeKeepsOthers | src/components/SubmissionForm.tsx:40 | Every other character of the trimmed input is kept as often as it occurs. |
| Form.SanitizeCleanIsTrim | src/components/SubmissionForm.tsx:40 | On input without brackets, sanitising is just trimming. |
| Form.SanitizeFixedPoint | src/components/SubmissionForm.tsx:40 | Trimmed, bracket-free input is unchanged. |
| Form.SanitizeTwice | src/components/SubmissionForm.tsx:40 | A second pass only trims. |
| Form.SanitizeSettles | src/components/SubmissionForm.tsx:40 | From the second pass on, sanitising changes nothing. |
| Form.SanitizeExposesSpace | src/components/SubmissionForm.tsx:40 | `"< " + x` becomes `" " + x`: the output can start with whitespace. |
| Form.SanitizeTrimsSpace | src/components/SubmissionForm.tsx:40 | `" " + x` becomes `x`. |
| Form.SanitizeNotIdempotent | src/components/SubmissionForm.tsx:40 | Sanitising twice differs from sanitising once on `"< " + x`. |
| Form.SanitizePlatforms | src/components/SubmissionForm.tsx:110 | One sanitised entry per platform, and none when the list is unset. |
| Form.BuildPayload | src/components/SubmissionForm.tsx:105-111 | The payload, field by field:<br>- the number is the formatted typed number, so it starts with `+`;<br>- the domain and pain point are the sanitised typed values, bracket-free and no longer than typed;<br>- platforms are always the sanitised list, one bracket-free entry per platform;<br>- consent passes through. |
| Form.PayloadPlatforms | src/components/SubmissionForm.tsx:110 | Platform i of the payload is platform i, sanitised. |
| Form.PayloadRowPlatforms | src/components/SubmissionForm.tsx:110 | The stored row's platforms are exactly the sanitised ones. |
| Form.SubmittedRowsPlatforms | src/components/SubmissionForm.tsx:105-113 | Every row the retrying submission of the form's values inserts holds the sanitised platforms. |
| Form.RemoveAll | src/components/SubmissionForm.tsx:147 | Unchecking leaves no copy of the platform. Every other platform stays listed, and nothing is added. |
| Form.RemoveAllAppend | src/components/SubmissionForm.tsx:147 | The filter works piece by piece, so the rest keeps its order. |
| Form.RemoveAllCounts | src/components/SubmissionForm.tsx:147 | Every other platform is kept as often as it was listed. |
| Form.RemoveAllAbsent | src/components/SubmissionForm.tsx:147 | Unchecking an unlisted platform changes nothing. |
| Form.TogglePlatform | src/components/SubmissionForm.tsx:142-149 | Checking appends the platform at the end and keeps the list before it. Unchecking removes it. Other platforms' membership never changes. |
| Form.CheckThenUncheck | src/components/SubmissionForm.tsx:142-149 | Checking then unchecking removes every copy of the platform and nothing else. |
| Form.CheckThenUncheckFresh | src/components/SubmissionForm.tsx:142-149 | For an unlisted platform, checking then unchecking is a round trip. |
| Form.ShownError | src/components/SubmissionForm.tsx:118-121 | The banner shows the result's error, or the `unknown` fallback when it has none. |
| Form.ShowRetry | src/components/SubmissionForm.tsx:122 | The retry button is shown iff the result is marked retryable. |
| Form.FallbacksUnused | src/components/SubmissionForm.tsx:115-123 | For every submission the service makes, a failure carries its own error and retry decision, so the form's fallbacks are never used. |
| Form.RetryButtonOffered | src/components/SubmissionForm.tsx:122 | Apart from the rate-limit refusal, the retry button is offered iff the service had retries left. |
| Form.ErrorIcon | src/components/SubmissionForm.tsx:151-159 | The default icon `❌` is shown exactly for the kinds the switch does not name (`server`, `unknown`). |
| Form.IconDistinguishes | src/components/SubmissionForm.tsx:151-159 | Two kinds share an icon iff they are equal or both fall to the default (`server`, `unknown`). |
| Form.BannerInjective | src/components/SubmissionForm.tsx:161-169 | Different palettes give different class strings. |
| Form.ErrorColor | src/components/SubmissionForm.tsx:161-169 | The red default classes are used exactly for the kinds the switch does not name. |
| Form.ColorDistinguishes | src/components/SubmissionForm.tsx:161-169 | Two kinds share a colour iff they are equal or both fall to the default. |
| Form.SubmissionForm.constructor | src/components/SubmissionForm.tsx:44-48 | The first render: not submitting, no error, no retry button, number not valid, platforms unset. |
| Form.SubmissionForm.WatchWhatsApp | src/components/SubmissionForm.tsx:87-94 | The validity flag becomes the validator's verdict. An empty field is invalid. |
| Form.SubmissionForm.HandlePlatformChange | src/components/SubmissionForm.tsx:142-149 | The platforms become the toggled list, an unset list counting as empty. Nothing else changes. |
| Form.SubmissionForm.BeginSubmit | src/components/SubmissionForm.tsx:96-111 | While a submission is under way, nothing changes and no payload is produced. Otherwise the form is marked submitting, the banner and button are cleared, and the payload is returned. It is built from the submitted values, whose platforms are the stored, ticked ones. |
| Form.SubmissionForm.CompleteSubmit | src/components/SubmissionForm.tsx:113-132 | `isSubmitting` is false on every path, and `onSuccess` runs iff the result succeeded. A failure shows its error and its retry decision. An exception shows the unexpected-error message with the retry button. |
| Form.SubmissionForm.OnSubmit | src/components/SubmissionForm.tsx:96-133 | A second press while submitting does nothing. Otherwise, against the retrying submission's trace:<br>- the service's cache, inserts and retries are that trace's;<br>- the banner and button show its result;<br>- `onSuccess` runs iff it succeeded;<br>- the form is no longer submitting;<br>- every inserted row holds the ticked platforms, sanitised. |
| Form.SubmissionForm.HandleRetry | src/components/SubmissionForm.tsx:136-140 | Clears the banner and button, then submits the current form values again as `OnSubmit` does. Those values carry the stored platforms, and every inserted row holds them, sanitised. While a submission is under way, nothing is sent, nothing is retried, and the banner and button stay cleared. |

## Left out

- The Supabase client (`src/lib/supabase.ts`, `test-supabase.js`) is not part of this model. These become inputs instead:
  - the session check (`SessionCheck`);
  - the insert's answer (`StoreOutcome` in each `Tick`);
  - whether the two configuration values are set.
- SHA-256 via `crypto.subtle.digest` and `TextEncoder` become an input: the digest's bytes, or the exception computing it throws. Only the hex step is modelled. The salted address and the default `127.0.0.1` are not modelled.
- `Date.now`, `navigator.onLine` and `delay` become inputs and outputs. Each attempt's `Tick` carries the clock and online flag. The delays are recorded as the trace's `Retry` entries rather than waited out.
- Console logging is not modelled.
- The `details` field of errors is diagnostic only and never shown, so it is not modelled. Neither is the `id` field of results, which the service never sets.
- The message of the exception `btoa` throws depends on the browser. It is an input (`Environment.btoaError`).
- Concurrency is not modelled. Overlapping submissions sharing the rate-limit cache are modelled as sequential calls.
- Text.ToLower covers the lower-case mappings into Latin-1: ASCII and Latin-1 capitals, and U+0178, U+1E9E, U+212A and U+212B. Other case mappings are not modelled, and neither are one-to-many lowerings. Those map a code point above 255 to code points that include one above 255, so `btoa` fails with or without them. The hash's existence and value are therefore as the source computes them. The hash input differs from the source's only in such code points. Strings are sequences of code points rather than UTF-16 code units.
- The form's mount effect is not modelled. It tests the connection and sets a banner message (`src/components/SubmissionForm.tsx:62-84`), and it never decides what is submitted.
- The react-hook-form field rules and all JSX rendering are not modelled. That includes the length limits and the required consent, which live in the markup.
- `src/utils/performance.ts`, the markup-only components and pages, and `vite.config.ts` are not part of this model.
- Service.RawError treats a `message` that is not a string as absent. In the source, `error?.message?.includes` then throws a `TypeError` unless the value has an `includes` method, which escapes classification. So `SubmitFormData` always returning a result holds for string messages only.
- Form.SubmissionForm.OnSubmit composes with the service's `SubmitFormData`, which always returns a result. So, composed, its exception branch cannot be reached. That branch is modelled on its own in `CompleteSubmit`.
- Service.SubmitWithRetry has no contract of its own. Its properties are proved as lemmas (`SubmitWithRetryRuns` and the `Submission…` lemmas), which keeps its recursion out of every other proof's context.
- Form.IconDistinguishes states the icons are pairwise distinct, apart from the shared default, rather than stating each emoji. The exact code points are in `ErrorIcon`'s body.
- Form.ColorDistinguishes works over the palette. `ErrorColor` builds each class string from its palette name, and the result equals the string the source writes out.
