/** The lead-submission service (src/services/submissionService.ts): error
    classification, the client-side rate-limit cache, the connection test,
    the inserted row and the bounded retry around the store's insert. The
    store, the session check, the SHA-256 digest, the clock and
    `navigator.onLine` are inputs. */
module Service {
  import opened Wrappers
  import opened Text
  import opened Validation
  import opened Base64

  // ---------------------------------------------------------------- errors

  datatype ErrorKind = Network | Validation | Auth | RateLimit | Server | Unknown

  /** What the user is shown; the source's diagnostic `details` are not modelled. */
  datatype SubmissionError = SubmissionError(kind: ErrorKind, message: UserMessage)

  /** `{ success, error?, retryable? }`; the optional `id` is never set. */
  datatype SubmissionResult = SubmissionResult(success: bool, error: Option<SubmissionError>, retryable: Option<bool>)

  /** The fields `classifyError` inspects on a raw error, each absent when it
      is missing or not a string. */
  datatype RawError = RawError(code: Option<string>, message: Option<string>)

  /** The fixed texts the user can be shown; `Wording` gives each one's wording. */
  datatype UserMessage =
    | NoInternet | AlreadySubmitted | AuthenticationFailed | TooManySubmissions | FetchFailed
    | SomethingWentWrong | UnableToConnect | TooManyRequests
      // the two the form sets itself
    | FailedToSubmit | UnexpectedError

  function Wording(m: UserMessage): string
  {
    match m
    case NoInternet => "No internet connection. Please check your network and try again."
    case AlreadySubmitted =>
      "We've already received this submission. Feel free to share a different business challenge instead."
    case AuthenticationFailed => "Authentication error. Please refresh the page and try again."
    case TooManySubmissions => "Too many submissions. Please wait a few minutes before trying again."
    case FetchFailed => "Connection failed. Please check your internet and try again."
    case SomethingWentWrong => "Something went wrong. Please try again or contact support."
    case UnableToConnect => "Unable to connect to our servers. Please refresh the page and try again."
    case TooManyRequests => "You've submitted too many requests. Please wait 5 minutes before trying again."
    case FailedToSubmit => "Failed to submit. Please try again."
    case UnexpectedError => "An unexpected error occurred. Please try again."
  }

  /** `error?.code === code`. */
  predicate CodeIs(error: RawError, code: string)
  {
    error.code == Some(code)
  }

  /** `error?.message?.includes(sub)`. */
  predicate MessageIncludes(error: RawError, sub: string)
  {
    error.message.Some? && Includes(error.message.value, sub)
  }

  predicate IsDuplicate(error: RawError)
  {
    CodeIs(error, "23505") && MessageIncludes(error, "unique_submission_hash")
  }

  predicate IsPermissionDenied(error: RawError)
  {
    CodeIs(error, "42501") || MessageIncludes(error, "permission denied")
  }

  predicate IsRateLimited(error: RawError)
  {
    CodeIs(error, "PGRST116") || MessageIncludes(error, "rate limit")
  }

  /** `classifyError`, with `navigator.onLine` as `online`. */
  function ClassifyError(online: bool, error: RawError): (r: SubmissionError)
    ensures r.kind != Server
    ensures !online ==> r == SubmissionError(Network, NoInternet)
  {
    if !online then SubmissionError(Network, NoInternet)
    else if IsDuplicate(error) then SubmissionError(Validation, AlreadySubmitted)
    else if IsPermissionDenied(error) then SubmissionError(Auth, AuthenticationFailed)
    else if IsRateLimited(error) then SubmissionError(RateLimit, TooManySubmissions)
    else if MessageIncludes(error, "fetch") then SubmissionError(Network, FetchFailed)
    else SubmissionError(Unknown, SomethingWentWrong)
  }

  /** The kind `classifyError` returns, for each kind, as a condition on the
      inputs: being offline overrides everything, a duplicate needs both the
      code and the index name, the remaining checks are tried in order, and
      `server` is never produced. */
  lemma ClassifyErrorKinds(online: bool, error: RawError)
    ensures var k := ClassifyError(online, error).kind;
      && (k == Network <==> !online || (!IsDuplicate(error) && !IsPermissionDenied(error)
                                        && !IsRateLimited(error) && MessageIncludes(error, "fetch")))
      && (k == Validation <==> online && IsDuplicate(error))
      && (k == Auth <==> online && !IsDuplicate(error) && IsPermissionDenied(error))
      && (k == RateLimit <==> online && !IsDuplicate(error) && !IsPermissionDenied(error) && IsRateLimited(error))
      && (k == Unknown <==> online && !IsDuplicate(error) && !IsPermissionDenied(error)
                            && !IsRateLimited(error) && !MessageIncludes(error, "fetch"))
      && k != Server
  {
  }

  /** Each kind has one fixed message, except `network`, whose message tells
      "offline" from "fetch failed". */
  lemma ClassifyErrorMessages(online: bool, error: RawError)
    ensures var e := ClassifyError(online, error);
      && (e.kind == Validation ==> e.message == AlreadySubmitted)
      && (e.kind == Auth ==> e.message == AuthenticationFailed)
      && (e.kind == RateLimit ==> e.message == TooManySubmissions)
      && (e.kind == Unknown ==> e.message == SomethingWentWrong)
      && (e.kind == Network ==> e.message == (if online then FetchFailed else NoInternet))
  {
  }

  /** A unique-violation code on some other constraint is not a duplicate
      submission: it falls through to the later checks. */
  lemma BareUniqueViolationFallsThrough(message: string)
    requires !Includes(message, "unique_submission_hash")
    requires !Includes(message, "permission denied") && !Includes(message, "rate limit")
    requires !Includes(message, "fetch")
    ensures ClassifyError(true, RawError(Some("23505"), Some(message))).kind == Unknown
  {
  }

  // ------------------------------------------------------ connection test

  /** How `supabase.auth.getSession()` answered. */
  datatype SessionCheck = SessionOk | SessionError(message: string) | SessionThrew

  datatype ConnectionTest = ConnectionTest(success: bool, error: Option<string>)

  /** An `import.meta.env` value counts as set when it is a non-empty string. */
  predicate IsSet(v: Option<string>)
  {
    v.Some? && v.value != ""
  }

  /** `testConnection`, given the two configuration values and the session check. */
  function TestConnection(url: Option<string>, anonKey: Option<string>, session: SessionCheck): (r: ConnectionTest)
    ensures r.success <==> IsSet(url) && IsSet(anonKey) && session == SessionOk
    ensures r.success <==> r.error == None
    ensures !IsSet(url) || !IsSet(anonKey) ==> r.error == Some("Missing Supabase configuration")
    ensures IsSet(url) && IsSet(anonKey) && session.SessionError? ==> r.error == Some(session.message)
    ensures IsSet(url) && IsSet(anonKey) && session.SessionThrew? ==> r.error == Some("Failed to connect to database")
  {
    if !IsSet(url) || !IsSet(anonKey) then ConnectionTest(false, Some("Missing Supabase configuration"))
    else match session
      case SessionError(m) => ConnectionTest(false, Some(m))
      case SessionOk => ConnectionTest(true, None)
      case SessionThrew => ConnectionTest(false, Some("Failed to connect to database"))
  }

  // ------------------------------------------------------ rate-limit cache

  datatype CacheEntry = CacheEntry(count: int, timestamp: int)

  /** `CACHE_DURATION`: five minutes in milliseconds. */
  const CacheDuration := 5 * 60 * 1000
  /** Submissions allowed per identity while its entry is fresh. */
  const RateLimitMax := 5
  const MaxRetries := 3
  const RetryDelay := 1000

  /** What `checkRateLimit` answers for `iphash` at time `now`. */
  predicate Allows(cache: map<string, CacheEntry>, iphash: string, now: int)
  {
    if iphash in cache && now - cache[iphash].timestamp < CacheDuration then cache[iphash].count < RateLimitMax
    else true
  }

  /** An identity without an entry is always allowed; a refusal needs a fresh
      entry that already counts `RateLimitMax`. */
  lemma AllowsCases(cache: map<string, CacheEntry>, iphash: string, now: int)
    ensures iphash !in cache ==> Allows(cache, iphash, now)
    ensures !Allows(cache, iphash, now) ==>
              iphash in cache && cache[iphash].count >= RateLimitMax && now - cache[iphash].timestamp < CacheDuration
  {
  }

  /** The cache after a successful insert: an existing entry is counted up and
      keeps its timestamp, even when expired; a missing one starts at 1, now. */
  function CacheAfterSuccess(cache: map<string, CacheEntry>, iphash: string, now: int): (r: map<string, CacheEntry>)
    ensures r.Keys == cache.Keys + {iphash}
    ensures forall k :: k in cache && k != iphash ==> r[k] == cache[k]
    ensures iphash in cache ==> r[iphash] == CacheEntry(cache[iphash].count + 1, cache[iphash].timestamp)
    ensures iphash !in cache ==> r[iphash] == CacheEntry(1, now)
  {
    if iphash in cache then
      cache[iphash := CacheEntry(cache[iphash].count + 1, cache[iphash].timestamp)]
    else
      cache[iphash := CacheEntry(1, now)]
  }

  /** The cache after successful inserts for one identity at the given times. */
  function AfterSuccesses(cache: map<string, CacheEntry>, iphash: string, times: seq<int>): map<string, CacheEntry>
    decreases |times|
  {
    if times == [] then cache
    else AfterSuccesses(CacheAfterSuccess(cache, iphash, times[0]), iphash, times[1..])
  }

  lemma {:induction false} AfterSuccessesEntry(cache: map<string, CacheEntry>, iphash: string, times: seq<int>)
    requires iphash in cache
    ensures var r := AfterSuccesses(cache, iphash, times);
      iphash in r && r[iphash] == CacheEntry(cache[iphash].count + |times|, cache[iphash].timestamp)
  {
    if times != [] {
      AfterSuccessesEntry(CacheAfterSuccess(cache, iphash, times[0]), iphash, times[1..]);
    }
  }

  /** Starting from no entry, n successes leave the entry {n, time of the
      first}: a further submission is allowed iff fewer than five went through
      or five minutes have passed since the first, however many have gone
      through since; the window never restarts. */
  lemma RateLimitAfterSuccesses(cache: map<string, CacheEntry>, iphash: string, times: seq<int>, now: int)
    requires iphash !in cache && times != []
    ensures Allows(AfterSuccesses(cache, iphash, times), iphash, now)
        <==> |times| < RateLimitMax || now - times[0] >= CacheDuration
  {
    AfterSuccessesEntry(CacheAfterSuccess(cache, iphash, times[0]), iphash, times[1..]);
  }

  // ------------------------------------------------------------- the row

  /** The submission as the form passes it in (`Omit<SubmissionData, 'iphash' | 'source'>`). */
  datatype SubmissionData = SubmissionData(
    whatsappNumber: string,
    domain: string,
    platforms: Option<seq<string>>,
    primaryPainPoint: string,
    marketingConsent: bool)

  /** The row inserted into `use_case_submissions`. */
  datatype Row = Row(
    whatsappNumber: string,
    domain: string,
    platforms: seq<string>,
    primaryPainPoint: string,
    marketingConsent: bool,
    iphash: string,
    source: string,
    submissionHash: string)

  const Source := "landing_v1"

  /** `s.toLowerCase().trim()`. */
  function Normalize(s: string): (r: string)
    ensures |r| <= |s|
    ensures r != [] ==> !IsJsWhitespace(r[0]) && !IsJsWhitespace(r[|r| - 1])
  {
    Trim(ToLower(s))
  }

  /** The three normalized fields joined by `|`, before base64. */
  function HashInput(data: SubmissionData): (r: string)
  {
    Normalize(data.whatsappNumber) + "|" + Normalize(data.domain) + "|" + Normalize(data.primaryPainPoint)
  }

  /** `btoa` of the hash input; none when `btoa` throws. */
  function SubmissionHash(data: SubmissionData): (h: Option<string>)
    ensures h.Some? <==> IsLatin1(HashInput(data))
  {
    Btoa(HashInput(data))
  }

  /** The hash can be decoded back to the joined fields. */
  lemma SubmissionHashDecodes(data: SubmissionData)
    requires SubmissionHash(data).Some?
    ensures Atob(SubmissionHash(data).value) == Some(HashInput(data))
  {
    AtobBtoa(HashInput(data));
  }

  function BuildRow(data: SubmissionData, iphash: string, submissionHash: string): (row: Row)
    ensures row.source == Source && row.platforms == data.platforms.GetOr([])
    ensures row.iphash == iphash && row.submissionHash == submissionHash
    ensures row.whatsappNumber == data.whatsappNumber && row.domain == data.domain
    ensures row.primaryPainPoint == data.primaryPainPoint && row.marketingConsent == data.marketingConsent
  {
    Row(data.whatsappNumber, data.domain, data.platforms.GetOr([]), data.primaryPainPoint,
        data.marketingConsent, iphash, Source, submissionHash)
  }

  /** The hash sees only the normalized number, domain and pain point: the
      platforms, the consent and the case and edge whitespace of the fields
      do not change it. */
  lemma SubmissionHashDependsOnNormalizedFields(a: SubmissionData, b: SubmissionData)
    requires Normalize(a.whatsappNumber) == Normalize(b.whatsappNumber)
    requires Normalize(a.domain) == Normalize(b.domain)
    requires Normalize(a.primaryPainPoint) == Normalize(b.primaryPainPoint)
    ensures SubmissionHash(a) == SubmissionHash(b)
  {
  }

  predicate NoBar(s: string)
  {
    forall k :: 0 <= k < |s| ==> s[k] != '|'
  }

  /** The position of the first `|` (the length when there is none). */
  function FirstBar(s: string): nat
  {
    if s == [] || s[0] == '|' then 0 else 1 + FirstBar(s[1..])
  }

  lemma {:induction false} FirstBarOfJoin(a: string, b: string)
    requires NoBar(a)
    ensures FirstBar(a + "|" + b) == |a|
  {
    if a != [] {
      assert (a + "|" + b)[1..] == a[1..] + "|" + b;
      FirstBarOfJoin(a[1..], b);
    }
  }

  /** Joining with `|` can be undone when the left part has no `|`. */
  lemma JoinInjective(a: string, b: string, c: string, d: string)
    requires NoBar(a) && NoBar(c)
    requires a + "|" + b == c + "|" + d
    ensures a == c && b == d
  {
    var s := a + "|" + b;
    FirstBarOfJoin(a, b);
    FirstBarOfJoin(c, d);
    assert a == s[..|a|] == c;
    assert b == s[|a| + 1..] == d;
  }

  /** Equal hashes mean equal normalized fields, as long as no field contains
      the `|` delimiter. */
  lemma SubmissionHashInjective(a: SubmissionData, b: SubmissionData)
    requires NoBar(Normalize(a.whatsappNumber)) && NoBar(Normalize(a.domain))
    requires NoBar(Normalize(b.whatsappNumber)) && NoBar(Normalize(b.domain))
    requires SubmissionHash(a).Some? && SubmissionHash(a) == SubmissionHash(b)
    ensures Normalize(a.whatsappNumber) == Normalize(b.whatsappNumber)
    ensures Normalize(a.domain) == Normalize(b.domain)
    ensures Normalize(a.primaryPainPoint) == Normalize(b.primaryPainPoint)
  {
    BtoaInjective(HashInput(a), HashInput(b));
    var na, da, pa := Normalize(a.whatsappNumber), Normalize(a.domain), Normalize(a.primaryPainPoint);
    var nb, db, pb := Normalize(b.whatsappNumber), Normalize(b.domain), Normalize(b.primaryPainPoint);
    JoinAssoc(na, da, pa);
    JoinAssoc(nb, db, pb);
    JoinInjective(na, da + "|" + pa, nb, db + "|" + pb);
    JoinInjective(da, pa, db, pb);
  }

  lemma JoinAssoc(n: string, d: string, p: string)
    ensures n + "|" + d + "|" + p == n + "|" + (d + "|" + p)
  {
  }

  /** Already lower case, and no whitespace anywhere. */
  predicate Plain(s: string)
  {
    forall k :: 0 <= k < |s| ==> LowerChar(s[k]) == s[k] && !IsJsWhitespace(s[k])
  }

  /** A normalized string holds no upper-case Latin-1 letter. */
  lemma NormalizeLower(s: string)
    ensures forall k :: 0 <= k < |Normalize(s)| ==> !IsUpperLatin1(Normalize(s)[k])
  {
    TrimAt(ToLower(s));
  }

  /** Normalizing twice is normalizing once. */
  lemma NormalizeIdempotent(s: string)
    ensures Normalize(Normalize(s)) == Normalize(s)
  {
    var l := ToLower(s);
    var r := Trim(l);
    TrimAt(l);
    assert ToLower(r) == r by {
      forall k | 0 <= k < |r|
        ensures ToLower(r)[k] == r[k]
      {
        LowerCharIdempotent(s[|l| - |TrimStart(l)| + k]);
      }
    }
    TrimIdempotent(l);
  }

  /** Plain strings are already normalized. */
  lemma NormalizePlain(s: string)
    requires Plain(s)
    ensures Normalize(s) == s
  {
    assert ToLower(s) == s;
    TrimNoEdgeWhitespace(s);
  }

  lemma PlainJoin(u: string, v: string)
    requires Plain(u) && Plain(v)
    ensures Plain(u + "|" + v)
  {
  }

  /** Without that condition two different submissions can share a hash, and
      the second is then turned away as a duplicate: moving a `|` from the
      domain into the pain point keeps the hash. */
  lemma DelimiterCollision(n: string, u: string, v: string, w: string, consent: bool)
    requires Plain(u) && Plain(v) && Plain(w)
    ensures var a := SubmissionData(n, u + "|" + v, None, w, consent);
            var b := SubmissionData(n, u, None, v + "|" + w, consent);
            a != b && SubmissionHash(a) == SubmissionHash(b)
  {
    var a := SubmissionData(n, u + "|" + v, None, w, consent);
    var b := SubmissionData(n, u, None, v + "|" + w, consent);
    assert a != b by {
      assert |a.domain| != |b.domain|;
    }
    var m := Normalize(n);
    assert HashInput(a) == m + "|" + (u + "|" + v) + "|" + w by {
      PlainJoin(u, v);
      NormalizePlain(u + "|" + v);
      NormalizePlain(w);
      HashInputOf(a, m, u + "|" + v, w);
    }
    assert HashInput(b) == m + "|" + u + "|" + (v + "|" + w) by {
      PlainJoin(v, w);
      NormalizePlain(u);
      NormalizePlain(v + "|" + w);
      HashInputOf(b, m, u, v + "|" + w);
    }
    MoveBar(m, u, v, w);
    assert HashInput(a) == HashInput(b);
  }

  lemma HashInputOf(data: SubmissionData, m: string, d: string, p: string)
    requires Normalize(data.whatsappNumber) == m && Normalize(data.domain) == d
    requires Normalize(data.primaryPainPoint) == p
    ensures HashInput(data) == m + "|" + d + "|" + p
  {
  }

  lemma MoveBar(m: string, u: string, v: string, w: string)
    ensures m + "|" + (u + "|" + v) + "|" + w == m + "|" + u + "|" + (v + "|" + w)
  {
  }

  // -------------------------------------------------------------- retrying

  /** How the store answered one insert: no error, an error record, or an exception. */
  datatype StoreOutcome = Stored | Rejected(error: RawError) | Threw(error: RawError)

  /** What the environment does during one attempt: `navigator.onLine`, the
      clock when the rate limit is checked and when the cache is updated, and
      the store's answer to the insert. */
  datatype Tick = Tick(online: bool, checkedAt: int, storedAt: int, store: StoreOutcome)

  /** The SHA-256 digest of the salted address, or what computing it threw. */
  datatype DigestOutcome = Digest(bytes: seq<byte>) | DigestThrew(error: RawError)

  /** What the environment does once per submission: the connection test's
      answer, the digest (the same on every attempt) and the exception `btoa`
      throws on a code point above 255, whose wording depends on the browser. */
  datatype Environment = Environment(connection: ConnectionTest, digest: DigestOutcome, btoaError: RawError)


  /** One retry: after which failure, and the delay requested before it. */
  datatype Retry = Retry(thrown: bool, kind: ErrorKind, delayMs: int)

  /** What one call of `submitWithRetry` does up to its recursive call: it
      finishes with a result, or asks for a retry; `inserted` is the insert it
      attempted, if any. */
  datatype Step =
    | Finished(result: SubmissionResult, cache: map<string, CacheEntry>, inserted: seq<Row>)
    | RetryAfter(retry: Retry, inserted: seq<Row>)

  function Failed(error: SubmissionError, retryable: bool): SubmissionResult
  {
    SubmissionResult(false, Some(error), Some(retryable))
  }

  const Succeeded := SubmissionResult(true, None, None)
  const ConnectionFailedError := SubmissionError(Auth, UnableToConnect)
  const RateLimitedError := SubmissionError(RateLimit, TooManyRequests)

  /** The error branch after the insert (`thrown` false) and the `catch` block
      (`thrown` true): an exception is retried only for `network`, an error
      record also for `auth`, and only while `attempt < MAX_RETRIES`. */
  function OnError(error: SubmissionError, thrown: bool, attempt: nat, cache: map<string, CacheEntry>,
                   inserted: seq<Row>): (s: Step)
    ensures s.inserted == inserted
    ensures s.RetryAfter? <==> attempt < MaxRetries && (error.kind == Network || (!thrown && error.kind == Auth))
    ensures s.RetryAfter? ==> s.retry == Retry(thrown, error.kind, RetryDelay * (attempt + 1))
    ensures s.Finished? ==> s.cache == cache && s.result == Failed(error, attempt < MaxRetries)
  {
    if attempt < MaxRetries && (error.kind == Network || (!thrown && error.kind == Auth)) then
      RetryAfter(Retry(thrown, error.kind, RetryDelay * (attempt + 1)), inserted)
    else
      Finished(Failed(error, attempt < MaxRetries), cache, inserted)
  }

  /** How an attempt ends before its error is classified: finished without
      an error to classify, or failed with a raw error that was returned
      (`thrown` false) or thrown (`thrown` true). */
  datatype Outcome =
    | Done(step: Step)
    | Failure(error: RawError, thrown: bool, inserted: seq<Row>)

  /** The `try` block of `submitWithRetry` after the connection test: the
      digest, the rate-limit check, the submission hash and the insert, in
      that order. */
  function AfterConnectionTest(data: SubmissionData, digest: DigestOutcome, btoaError: RawError, tick: Tick,
                               cache: map<string, CacheEntry>): (o: Outcome)
    ensures o.Done? <==>
      digest.Digest? && (!Allows(cache, GenerateIPHash(digest.bytes), tick.checkedAt)
                         || (SubmissionHash(data).Some? && tick.store.Stored?))
    ensures o.Done? ==> o.step.Finished?
    ensures o.Done? && o.step.result.success ==>
      && o.step.result == Succeeded && digest.Digest?
      && o.step.cache == CacheAfterSuccess(cache, GenerateIPHash(digest.bytes), tick.storedAt)
    ensures o.Done? && !o.step.result.success ==>
      o.step.cache == cache && o.step.inserted == [] && o.step.result == Failed(RateLimitedError, false)
    ensures var inserted := if o.Done? then o.step.inserted else o.inserted;
      && |inserted| <= 1
      && (|inserted| == 1 ==>
            && digest.Digest? && SubmissionHash(data).Some?
            && inserted[0] == BuildRow(data, GenerateIPHash(digest.bytes), SubmissionHash(data).value))
  {
    match digest
    case DigestThrew(e) => Failure(e, true, [])
    case Digest(bytes) =>
      var iphash := GenerateIPHash(bytes);
      if !Allows(cache, iphash, tick.checkedAt) then
        Done(Finished(Failed(RateLimitedError, false), cache, []))
      else match SubmissionHash(data)
        case None => Failure(btoaError, true, [])
        case Some(hash) =>
          var row := BuildRow(data, iphash, hash);
          match tick.store
          case Stored => Done(Finished(Succeeded, CacheAfterSuccess(cache, iphash, tick.storedAt), [row]))
          case Rejected(e) => Failure(e, false, [row])
          case Threw(e) => Failure(e, true, [row])
  }

  /** The `try` block of `submitWithRetry` at attempt `attempt`: the
      connection test (first attempt only), then the rest. */
  function AttemptOutcome(data: SubmissionData, env: Environment, tick: Tick, cache: map<string, CacheEntry>,
                          attempt: nat): (o: Outcome)
    ensures o.Done? ==> o.step.Finished?
    ensures o.Done? && o.step.result.success ==>
      && o.step.result == Succeeded && env.digest.Digest?
      && o.step.cache == CacheAfterSuccess(cache, GenerateIPHash(env.digest.bytes), tick.storedAt)
    ensures o.Done? && !o.step.result.success ==>
      && o.step.cache == cache && o.step.inserted == []
      && ((attempt == 0 && o.step.result == Failed(ConnectionFailedError, true))
          || o.step.result == Failed(RateLimitedError, false))
    ensures var inserted := if o.Done? then o.step.inserted else o.inserted;
      && |inserted| <= 1
      && (|inserted| == 1 ==>
            && env.digest.Digest? && SubmissionHash(data).Some?
            && inserted[0] == BuildRow(data, GenerateIPHash(env.digest.bytes), SubmissionHash(data).value))
  {
    if attempt == 0 && !env.connection.success then
      Done(Finished(Failed(ConnectionFailedError, true), cache, []))
    else
      AfterConnectionTest(data, env.digest, env.btoaError, tick, cache)
  }

  /** What one attempt guarantees, whatever the environment does. */
  predicate StepSpec(s: Step, iphash: Option<string>, row: Option<Row>, tick: Tick, cache: map<string, CacheEntry>,
                     attempt: nat)
  {
    // a retry waits `RETRY_DELAY * (attempt + 1)` and follows a network error
    // or an `auth` error the store returned
    && (s.RetryAfter? ==>
          && attempt < MaxRetries && s.retry.delayMs == RetryDelay * (attempt + 1)
          && (s.retry.kind == Network || (s.retry.kind == Auth && !s.retry.thrown)))
    // an error and a retry hint are reported exactly on failure
    && (s.Finished? ==>
          && (s.result.success <==> s.result.error.None?)
          && (s.result.success <==> s.result.retryable.None?))
    // only a success changes the cache
    && (s.Finished? && s.result.success ==>
          iphash.Some? && s.cache == CacheAfterSuccess(cache, iphash.value, tick.storedAt))
    && (s.Finished? && !s.result.success ==> s.cache == cache)
    // apart from the rate-limit refusal, a failure is retryable exactly when
    // retries are left, and a network failure ends only the last attempt
    && (s.Finished? && !s.result.success && s.result.error != Some(RateLimitedError) ==>
          s.result.retryable == Some(attempt < MaxRetries))
    && (s.Finished? && s.result.error.Some? && s.result.error.value.kind == Network ==> MaxRetries <= attempt)
    // the attempted insert, if any, is the row built from the submission
    && |s.inserted| <= 1
    && (|s.inserted| == 1 ==> row.Some? && s.inserted[0] == row.value)
  }

  /** The hex of the digest, unless computing the digest threw. */
  function IPHashOf(env: Environment): (iphash: Option<string>)
    ensures iphash.Some? <==> env.digest.Digest?
    ensures iphash.Some? ==> |iphash.value| == 2 * |env.digest.bytes|
  {
    match env.digest
    case Digest(bytes) => Some(GenerateIPHash(bytes))
    case DigestThrew(_) => None
  }

  /** The row a submission inserts on every attempt, unless the digest or
      `btoa` threw. */
  function RowOf(data: SubmissionData, env: Environment): (row: Option<Row>)
    ensures row.Some? <==> IPHashOf(env).Some? && SubmissionHash(data).Some?
    ensures row.Some? ==> row.value.iphash == IPHashOf(env).value
    ensures row.Some? ==> row.value.submissionHash == SubmissionHash(data).value
  {
    if IPHashOf(env).Some? && SubmissionHash(data).Some? then
      Some(BuildRow(data, IPHashOf(env).value, SubmissionHash(data).value))
    else None
  }

  /** One call of `submitWithRetry` at attempt `attempt`, up to its recursive
      call: a failure is classified once and handed to the retry decision. */
  function AttemptStep(data: SubmissionData, env: Environment, tick: Tick, cache: map<string, CacheEntry>,
                       attempt: nat): (s: Step)
    ensures StepSpec(s, IPHashOf(env), RowOf(data, env), tick, cache, attempt)
  {
    match AttemptOutcome(data, env, tick, cache, attempt)
    case Done(step) => step
    case Failure(e, thrown, inserted) => OnError(ClassifyError(tick.online, e), thrown, attempt, cache, inserted)
  }

  /** Everything a submission does: its result, the cache afterwards, the
      inserts it attempted and the retries it took. */
  datatype Trace = Trace(result: SubmissionResult, cache: map<string, CacheEntry>, inserts: seq<Row>, retries: seq<Retry>)

  /** `submitWithRetry(data, userIP, attempt)`, with `ticks[k]` the
      environment during attempt k. */
  function SubmitWithRetry(data: SubmissionData, env: Environment, ticks: seq<Tick>,
                           cache: map<string, CacheEntry>, attempt: nat): Trace
    requires attempt <= MaxRetries < |ticks|
    decreases MaxRetries - attempt
  {
    match AttemptStep(data, env, ticks[attempt], cache, attempt)
    case Finished(result, after, inserted) => Trace(result, after, inserted, [])
    case RetryAfter(retry, inserted) =>
      Prefixed(SubmitWithRetry(data, env, ticks, cache, attempt + 1), inserted, [retry])
  }

  /** A finished attempt ends the trace: the loop of `SubmitFormData` returns. */
  lemma SubmitWithRetryFinished(data: SubmissionData, env: Environment, ticks: seq<Tick>,
                                cache: map<string, CacheEntry>, attempt: nat, step: Step,
                                inserts: seq<Row>, retries: seq<Retry>)
    requires attempt <= MaxRetries < |ticks|
    requires step == AttemptStep(data, env, ticks[attempt], cache, attempt) && step.Finished?
    ensures Prefixed(SubmitWithRetry(data, env, ticks, cache, attempt), inserts, retries)
      == Trace(step.result, step.cache, inserts + step.inserted, retries)
  {
    assert retries + [] == retries;
  }

  /** A retried attempt moves its insert and its retry to the prefix: the loop
      of `SubmitFormData` goes round again. */
  lemma SubmitWithRetryRetried(data: SubmissionData, env: Environment, ticks: seq<Tick>,
                               cache: map<string, CacheEntry>, attempt: nat, step: Step,
                               inserts: seq<Row>, retries: seq<Retry>)
    requires attempt <= MaxRetries < |ticks|
    requires step == AttemptStep(data, env, ticks[attempt], cache, attempt) && step.RetryAfter?
    ensures Prefixed(SubmitWithRetry(data, env, ticks, cache, attempt), inserts, retries)
      == Prefixed(SubmitWithRetry(data, env, ticks, cache, attempt + 1), inserts + step.inserted, retries + [step.retry])
  {
    PrefixedTwice(SubmitWithRetry(data, env, ticks, cache, attempt + 1), inserts, step.inserted, retries, [step.retry]);
  }

  /** The trace `t` with inserts and retries that happened before it. */
  function Prefixed(t: Trace, inserts: seq<Row>, retries: seq<Retry>): Trace
  {
    Trace(t.result, t.cache, inserts + t.inserts, retries + t.retries)
  }

  lemma PrefixedTwice(t: Trace, a: seq<Row>, b: seq<Row>, c: seq<Retry>, d: seq<Retry>)
    ensures Prefixed(Prefixed(t, b, d), a, c) == Prefixed(t, a + b, c + d)
  {
    assert a + (b + t.inserts) == (a + b) + t.inserts;
    assert c + (d + t.retries) == (c + d) + t.retries;
  }

  // --------------------------------------------- what a submission does

  /** The steps an environment can produce, as far as the properties below
      need them. */
  predicate ValidSteps(steps: seq<Step>, iphash: Option<string>, row: Option<Row>, ticks: seq<Tick>,
                       cache: map<string, CacheEntry>)
  {
    && |steps| == MaxRetries + 1 && MaxRetries < |ticks| && steps[MaxRetries].Finished?
    && forall k :: 0 <= k < |steps| ==> StepSpec(steps[k], iphash, row, ticks[k], cache, k)
  }

  /** The steps of attempts 0 to `MAX_RETRIES` against one cache: the cache
      changes only when a step finishes, so every attempt that runs sees it. */
  function Steps(data: SubmissionData, env: Environment, ticks: seq<Tick>, cache: map<string, CacheEntry>)
    : (steps: seq<Step>)
    requires MaxRetries < |ticks|
    ensures |steps| == MaxRetries + 1
    ensures forall k :: 0 <= k < |steps| ==> steps[k] == AttemptStep(data, env, ticks[k], cache, k)
    ensures ValidSteps(steps, IPHashOf(env), RowOf(data, env), ticks, cache)
  {
    seq(MaxRetries + 1, k requires 0 <= k < MaxRetries + 1 => AttemptStep(data, env, ticks[k], cache, k))
  }

  /** The trace that `steps` produce from `attempt` on. */
  function Run(steps: seq<Step>, attempt: nat): Trace
    requires attempt < |steps| && steps[|steps| - 1].Finished?
    decreases |steps| - attempt
  {
    match steps[attempt]
    case Finished(result, after, inserted) => Trace(result, after, inserted, [])
    case RetryAfter(retry, inserted) => Prefixed(Run(steps, attempt + 1), inserted, [retry])
  }

  /** The recursion of `submitWithRetry` runs the steps in order. */
  lemma {:induction false} SubmitWithRetryRuns(data: SubmissionData, env: Environment, ticks: seq<Tick>,
                                               cache: map<string, CacheEntry>, attempt: nat)
    requires attempt <= MaxRetries < |ticks|
    ensures SubmitWithRetry(data, env, ticks, cache, attempt) == Run(Steps(data, env, ticks, cache), attempt)
    decreases MaxRetries - attempt
  {
    var steps := Steps(data, env, ticks, cache);
    var step := steps[attempt];
    if step.Finished? {
      SubmitWithRetryFinished(data, env, ticks, cache, attempt, step, [], []);
    } else {
      SubmitWithRetryRetried(data, env, ticks, cache, attempt, step, [], []);
      SubmitWithRetryRuns(data, env, ticks, cache, attempt + 1);
    }
  }

  /** At most `MAX_RETRIES` retries, at most one insert per attempt, delays
      growing by `RETRY_DELAY` each time, and only after network errors or
      returned `auth` errors. */
  lemma {:induction false} RunRetries(steps: seq<Step>, iphash: Option<string>, row: Option<Row>, ticks: seq<Tick>,
                                      cache: map<string, CacheEntry>, attempt: nat)
    requires ValidSteps(steps, iphash, row, ticks, cache) && attempt <= MaxRetries
    ensures var t := Run(steps, attempt);
      && attempt + |t.retries| <= MaxRetries
      && |t.inserts| <= |t.retries| + 1
      && (forall i :: 0 <= i < |t.retries| ==> t.retries[i].delayMs == RetryDelay * (attempt + i + 1))
      && (forall i :: 0 <= i < |t.retries| ==>
            t.retries[i].kind == Network || (t.retries[i].kind == Auth && !t.retries[i].thrown))
    decreases MaxRetries - attempt
  {
    assert StepSpec(steps[attempt], iphash, row, ticks[attempt], cache, attempt);
    if steps[attempt].RetryAfter? {
      RunRetries(steps, iphash, row, ticks, cache, attempt + 1);
      var rest := Run(steps, attempt + 1);
      var retries := Run(steps, attempt).retries;
      assert retries == [steps[attempt].retry] + rest.retries;
      forall i | 0 <= i < |retries|
        ensures retries[i].delayMs == RetryDelay * (attempt + i + 1)
        ensures retries[i].kind == Network || (retries[i].kind == Auth && !retries[i].thrown)
      {
        if i > 0 {
          assert retries[i] == rest.retries[i - 1];
        }
      }
    }
  }

  /** A submission reports an error exactly when it failed, and a retry hint
      exactly then too. */
  lemma {:induction false} RunResultShape(steps: seq<Step>, iphash: Option<string>, row: Option<Row>,
                                          ticks: seq<Tick>, cache: map<string, CacheEntry>, attempt: nat)
    requires ValidSteps(steps, iphash, row, ticks, cache) && attempt <= MaxRetries
    ensures var t := Run(steps, attempt);
      && (t.result.success <==> t.result.error.None?)
      && (t.result.success <==> t.result.retryable.None?)
    decreases MaxRetries - attempt
  {
    assert StepSpec(steps[attempt], iphash, row, ticks[attempt], cache, attempt);
    if steps[attempt].RetryAfter? {
      RunResultShape(steps, iphash, row, ticks, cache, attempt + 1);
    }
  }

  /** One turn of the loop of `SubmitFormData`: with `inserts` and `retries`
      collected so far, a finished step completes the run and a retry hands
      on to the next attempt with one more retry. */
  lemma RunAdvance(steps: seq<Step>, attempt: nat, inserts: seq<Row>, retries: seq<Retry>)
    requires attempt < |steps| && steps[|steps| - 1].Finished?
    requires Run(steps, 0) == Prefixed(Run(steps, attempt), inserts, retries)
    ensures steps[attempt].Finished? ==>
              Run(steps, 0) == Trace(steps[attempt].result, steps[attempt].cache, inserts + steps[attempt].inserted, retries)
    ensures steps[attempt].RetryAfter? ==>
              && attempt + 1 < |steps|
              && Run(steps, 0) == Prefixed(Run(steps, attempt + 1), inserts + steps[attempt].inserted,
                                           retries + [steps[attempt].retry])
  {
    var step := steps[attempt];
    if step.Finished? {
      assert retries + [] == retries;
    } else {
      PrefixedTwice(Run(steps, attempt + 1), inserts, step.inserted, retries, [step.retry]);
    }
  }

  /** A run ends at the first finished step: after one retry per step before
      it, with that step's result and cache. */
  lemma {:induction false} RunFinal(steps: seq<Step>, attempt: nat)
    requires attempt < |steps| && steps[|steps| - 1].Finished?
    ensures attempt + |Run(steps, attempt).retries| < |steps|
    ensures steps[attempt + |Run(steps, attempt).retries|].Finished?
    ensures forall k :: attempt <= k < attempt + |Run(steps, attempt).retries| ==> steps[k].RetryAfter?
    ensures Run(steps, attempt).result == steps[attempt + |Run(steps, attempt).retries|].result
    ensures Run(steps, attempt).cache == steps[attempt + |Run(steps, attempt).retries|].cache
    decreases |steps| - attempt
  {
    if steps[attempt].RetryAfter? {
      RunFinal(steps, attempt + 1);
      var rest := Run(steps, attempt + 1);
      assert Run(steps, attempt) == Prefixed(rest, steps[attempt].inserted, [steps[attempt].retry]);
      assert |Run(steps, attempt).retries| == 1 + |rest.retries|;
    }
  }

  /** Only a successful submission changes the cache, by one success update
      at the clock of its last attempt. */
  lemma RunCache(steps: seq<Step>, iphash: Option<string>, row: Option<Row>, ticks: seq<Tick>,
                 cache: map<string, CacheEntry>, attempt: nat)
    requires ValidSteps(steps, iphash, row, ticks, cache) && attempt <= MaxRetries
    ensures attempt + |Run(steps, attempt).retries| <= MaxRetries
    ensures Run(steps, attempt).result.success ==>
              && iphash.Some?
              && Run(steps, attempt).cache
                 == CacheAfterSuccess(cache, iphash.value, ticks[attempt + |Run(steps, attempt).retries|].storedAt)
    ensures !Run(steps, attempt).result.success ==> Run(steps, attempt).cache == cache
  {
    RunFinal(steps, attempt);
    var last := attempt + |Run(steps, attempt).retries|;
    assert StepSpec(steps[last], iphash, row, ticks[last], cache, last);
  }

  /** Apart from the rate-limit refusal, a failed submission is reported
      retryable exactly when its last attempt had retries left; a network
      failure is reported only after the last attempt, as not retryable. */
  lemma {:induction false} RunRetryable(steps: seq<Step>, iphash: Option<string>, row: Option<Row>,
                                        ticks: seq<Tick>, cache: map<string, CacheEntry>, attempt: nat)
    requires ValidSteps(steps, iphash, row, ticks, cache) && attempt <= MaxRetries
    ensures var t := Run(steps, attempt);
      && (!t.result.success && t.result.error != Some(RateLimitedError) ==>
            t.result.retryable == Some(attempt + |t.retries| < MaxRetries))
      && (t.result.error.Some? && t.result.error.value.kind == Network ==>
            attempt + |t.retries| == MaxRetries && t.result.retryable == Some(false))
    decreases MaxRetries - attempt
  {
    RunRetries(steps, iphash, row, ticks, cache, attempt);
    assert StepSpec(steps[attempt], iphash, row, ticks[attempt], cache, attempt);
    if steps[attempt].RetryAfter? {
      RunRetryable(steps, iphash, row, ticks, cache, attempt + 1);
    }
  }

  /** Every attempted insert is the same row, built from the submission. */
  lemma {:induction false} RunPayload(steps: seq<Step>, iphash: Option<string>, row: Option<Row>, ticks: seq<Tick>,
                                      cache: map<string, CacheEntry>, attempt: nat)
    requires ValidSteps(steps, iphash, row, ticks, cache) && attempt <= MaxRetries
    ensures |Run(steps, attempt).inserts| > 0 ==> row.Some?
    ensures row.Some? ==> forall i :: 0 <= i < |Run(steps, attempt).inserts| ==> Run(steps, attempt).inserts[i] == row.value
    decreases MaxRetries - attempt
  {
    var s := steps[attempt];
    assert StepSpec(s, iphash, row, ticks[attempt], cache, attempt);
    var inserts := Run(steps, attempt).inserts;
    if s.Finished? {
      assert inserts == s.inserted;
    } else {
      RunPayload(steps, iphash, row, ticks, cache, attempt + 1);
      var rest := Run(steps, attempt + 1).inserts;
      assert inserts == s.inserted + rest;
      if |inserts| > 0 {
        assert row.Some? by {
          if |s.inserted| == 0 {
            assert |rest| > 0;
          }
        }
        forall i | 0 <= i < |inserts|
          ensures inserts[i] == row.value
        {
          if i < |s.inserted| {
            assert i == 0 && inserts[i] == s.inserted[0];
          } else {
            assert inserts[i] == rest[i - |s.inserted|];
          }
        }
      }
    }
  }

  /** `submitFormData` retries at most `MAX_RETRIES` times, waiting 1000,
      2000 and 3000 ms, only after network errors or returned `auth` errors,
      and inserts at most once per attempt. */
  lemma SubmissionRetries(data: SubmissionData, env: Environment, ticks: seq<Tick>, cache: map<string, CacheEntry>)
    requires MaxRetries < |ticks|
    ensures var t := SubmitWithRetry(data, env, ticks, cache, 0);
      && |t.retries| <= MaxRetries
      && |t.inserts| <= |t.retries| + 1
      && (forall i :: 0 <= i < |t.retries| ==> t.retries[i].delayMs == RetryDelay * (i + 1))
      && (forall i :: 0 <= i < |t.retries| ==>
            t.retries[i].kind == Network || (t.retries[i].kind == Auth && !t.retries[i].thrown))
  {
    SubmitWithRetryRuns(data, env, ticks, cache, 0);
    RunRetries(Steps(data, env, ticks, cache), IPHashOf(env), RowOf(data, env), ticks, cache, 0);
  }

  /** The result of `submitFormData` carries an error and a retry hint exactly
      when it failed; apart from the rate-limit refusal the hint says whether
      retries were left, and a network failure comes only after the last
      retry, marked not retryable. */
  lemma SubmissionResultShape(data: SubmissionData, env: Environment, ticks: seq<Tick>,
                              cache: map<string, CacheEntry>)
    requires MaxRetries < |ticks|
    ensures var t := SubmitWithRetry(data, env, ticks, cache, 0);
      && (t.result.success <==> t.result.error.None?)
      && (t.result.success <==> t.result.retryable.None?)
      && (!t.result.success && t.result.error != Some(RateLimitedError) ==>
            t.result.retryable == Some(|t.retries| < MaxRetries))
      && (t.result.error.Some? && t.result.error.value.kind == Network ==>
            |t.retries| == MaxRetries && t.result.retryable == Some(false))
  {
    SubmitWithRetryRuns(data, env, ticks, cache, 0);
    RunResultShape(Steps(data, env, ticks, cache), IPHashOf(env), RowOf(data, env), ticks, cache, 0);
    RunRetryable(Steps(data, env, ticks, cache), IPHashOf(env), RowOf(data, env), ticks, cache, 0);
  }

  /** Every insert `submitFormData` attempts is the same row, and only a
      success changes the cache: one success update for the digest's hex at
      the clock of the last attempt. */
  lemma SubmissionEffects(data: SubmissionData, env: Environment, ticks: seq<Tick>, cache: map<string, CacheEntry>)
    requires MaxRetries < |ticks|
    ensures var t := SubmitWithRetry(data, env, ticks, cache, 0);
      && |t.retries| <= MaxRetries
      && (|t.inserts| > 0 ==> RowOf(data, env).Some? && forall i :: 0 <= i < |t.inserts| ==> t.inserts[i] == RowOf(data, env).value)
      && (t.result.success ==>
            IPHashOf(env).Some?
            && t.cache == CacheAfterSuccess(cache, IPHashOf(env).value, ticks[|t.retries|].storedAt))
      && (!t.result.success ==> t.cache == cache)
  {
    SubmitWithRetryRuns(data, env, ticks, cache, 0);
    RunPayload(Steps(data, env, ticks, cache), IPHashOf(env), RowOf(data, env), ticks, cache, 0);
    RunCache(Steps(data, env, ticks, cache), IPHashOf(env), RowOf(data, env), ticks, cache, 0);
  }

  /** A failed connection test ends the submission at once: nothing is
      inserted, nothing retried, the cache is unchanged, and the result says
      that trying again may help. */
  lemma ConnectionGate(data: SubmissionData, env: Environment, ticks: seq<Tick>, cache: map<string, CacheEntry>)
    requires MaxRetries < |ticks| && !env.connection.success
    ensures SubmitWithRetry(data, env, ticks, cache, 0) == Trace(Failed(ConnectionFailedError, true), cache, [], [])
  {
    var step := AttemptStep(data, env, ticks[0], cache, 0);
    assert step == Finished(Failed(ConnectionFailedError, true), cache, []);
    SubmitWithRetryFinished(data, env, ticks, cache, 0, step, [], []);
  }

  /** Only the first attempt tests the connection: from the second on, its
      answer makes no difference. */
  lemma {:induction false} ConnectionOnlyAtFirst(data: SubmissionData, env: Environment, ticks: seq<Tick>,
                                                 cache: map<string, CacheEntry>, attempt: nat, other: ConnectionTest)
    requires 0 < attempt <= MaxRetries < |ticks|
    ensures SubmitWithRetry(data, env, ticks, cache, attempt)
         == SubmitWithRetry(data, env.(connection := other), ticks, cache, attempt)
    decreases MaxRetries - attempt
  {
    var env' := env.(connection := other);
    var step := AttemptStep(data, env, ticks[attempt], cache, attempt);
    assert step == AttemptStep(data, env', ticks[attempt], cache, attempt);
    if step.Finished? {
      SubmitWithRetryFinished(data, env, ticks, cache, attempt, step, [], []);
      SubmitWithRetryFinished(data, env', ticks, cache, attempt, step, [], []);
    } else {
      SubmitWithRetryRetried(data, env, ticks, cache, attempt, step, [], []);
      SubmitWithRetryRetried(data, env', ticks, cache, attempt, step, [], []);
      ConnectionOnlyAtFirst(data, env, ticks, cache, attempt + 1, other);
    }
  }

  /** A refused rate-limit check ends the submission at once, whatever the
      attempt: nothing is inserted or retried, and the result is not
      retryable. */
  lemma RateGate(data: SubmissionData, env: Environment, ticks: seq<Tick>, cache: map<string, CacheEntry>,
                 attempt: nat)
    requires attempt <= MaxRetries < |ticks|
    requires attempt > 0 || env.connection.success
    requires env.digest.Digest? && !Allows(cache, GenerateIPHash(env.digest.bytes), ticks[attempt].checkedAt)
    ensures SubmitWithRetry(data, env, ticks, cache, attempt) == Trace(Failed(RateLimitedError, false), cache, [], [])
  {
    var step := AttemptStep(data, env, ticks[attempt], cache, attempt);
    assert step == Finished(Failed(RateLimitedError, false), cache, []);
    SubmitWithRetryFinished(data, env, ticks, cache, attempt, step, [], []);
  }

  /** A duplicate submission, which the store refuses by its unique index,
      is not retried: the user is told it was already received, and the
      result is retryable exactly when retries were left. */
  lemma DuplicateNotRetried(data: SubmissionData, env: Environment, ticks: seq<Tick>,
                            cache: map<string, CacheEntry>, attempt: nat, error: RawError)
    requires attempt <= MaxRetries < |ticks|
    requires attempt > 0 || env.connection.success
    requires env.digest.Digest? && Allows(cache, GenerateIPHash(env.digest.bytes), ticks[attempt].checkedAt)
    requires SubmissionHash(data).Some?
    requires ticks[attempt].online && ticks[attempt].store == Rejected(error) && IsDuplicate(error)
    ensures SubmitWithRetry(data, env, ticks, cache, attempt)
         == Trace(Failed(SubmissionError(Validation, AlreadySubmitted), attempt < MaxRetries), cache,
                  [RowOf(data, env).value], [])
  {
    var row := BuildRow(data, GenerateIPHash(env.digest.bytes), SubmissionHash(data).value);
    var duplicate := SubmissionError(Validation, AlreadySubmitted);
    DuplicateStep(data, env, ticks[attempt], cache, attempt, error);
    assert RowOf(data, env) == Some(row);
    assert SubmitWithRetry(data, env, ticks, cache, attempt)
        == Trace(Failed(duplicate, attempt < MaxRetries), cache, [row], []);
  }

  /** The attempt that meets a duplicate finishes with the duplicate error and the one insert. */
  lemma DuplicateStep(data: SubmissionData, env: Environment, tick: Tick,
                      cache: map<string, CacheEntry>, attempt: nat, error: RawError)
    requires attempt > 0 || env.connection.success
    requires env.digest.Digest? && Allows(cache, GenerateIPHash(env.digest.bytes), tick.checkedAt)
    requires SubmissionHash(data).Some?
    requires tick.online && tick.store == Rejected(error) && IsDuplicate(error)
    ensures AttemptStep(data, env, tick, cache, attempt)
         == Finished(Failed(SubmissionError(Validation, AlreadySubmitted), attempt < MaxRetries), cache,
                     [BuildRow(data, GenerateIPHash(env.digest.bytes), SubmissionHash(data).value)])
  {
    var row := BuildRow(data, GenerateIPHash(env.digest.bytes), SubmissionHash(data).value);
    assert AttemptOutcome(data, env, tick, cache, attempt) == Failure(error, false, [row]) by {
      StoreRejected(data, env.digest, env.btoaError, tick, cache, error);
    }
    ClassifyDuplicate(error);
  }

  /** An insert the store refuses with an error record hands that error on, with the row. */
  lemma StoreRejected(data: SubmissionData, digest: DigestOutcome, btoaError: RawError, tick: Tick,
                      cache: map<string, CacheEntry>, error: RawError)
    requires digest.Digest? && Allows(cache, GenerateIPHash(digest.bytes), tick.checkedAt)
    requires SubmissionHash(data).Some? && tick.store == Rejected(error)
    ensures AfterConnectionTest(data, digest, btoaError, tick, cache)
         == Failure(error, false, [BuildRow(data, GenerateIPHash(digest.bytes), SubmissionHash(data).value)])
  {
  }

  /** Online, a duplicate is classified as already received. */
  lemma ClassifyDuplicate(error: RawError)
    requires IsDuplicate(error)
    ensures ClassifyError(true, error) == SubmissionError(Validation, AlreadySubmitted)
  {
  }

  /** Offline, an attempt that is let through fails with the offline network
      error: it is retried while retries are left, and reported as not
      retryable on the last attempt. */
  lemma StepOffline(data: SubmissionData, env: Environment, tick: Tick, cache: map<string, CacheEntry>, attempt: nat)
    requires attempt <= MaxRetries
    requires attempt > 0 || env.connection.success
    requires env.digest.Digest? ==> Allows(cache, GenerateIPHash(env.digest.bytes), tick.checkedAt)
    requires !tick.online && !tick.store.Stored?
    ensures var s := AttemptStep(data, env, tick, cache, attempt);
      && (attempt < MaxRetries ==> s.RetryAfter? && s.retry.kind == Network)
      && (attempt == MaxRetries ==>
            s.Finished? && s.cache == cache && s.result == Failed(SubmissionError(Network, NoInternet), false))
  {
    var o := AfterConnectionTest(data, env.digest, env.btoaError, tick, cache);
    assert o == AttemptOutcome(data, env, tick, cache, attempt);
    assert ClassifyError(false, o.error) == SubmissionError(Network, NoInternet);
  }

  /** Offline for the whole submission, every attempt fails: the submission
      waits out all `MAX_RETRIES` retries and ends with the offline error,
      not retryable, the cache unchanged. */
  lemma {:induction false} OfflineExhaustsRetries(data: SubmissionData, env: Environment, ticks: seq<Tick>,
                                                  cache: map<string, CacheEntry>, attempt: nat)
    requires attempt <= MaxRetries < |ticks|
    requires attempt > 0 || env.connection.success
    requires forall k :: attempt <= k <= MaxRetries ==> !ticks[k].online && !ticks[k].store.Stored?
    requires env.digest.Digest? ==>
      forall k :: attempt <= k <= MaxRetries ==> Allows(cache, GenerateIPHash(env.digest.bytes), ticks[k].checkedAt)
    ensures var t := SubmitWithRetry(data, env, ticks, cache, attempt);
      && t.result == Failed(SubmissionError(Network, NoInternet), false)
      && t.cache == cache
      && |t.retries| == MaxRetries - attempt
    decreases MaxRetries - attempt
  {
    StepOffline(data, env, ticks[attempt], cache, attempt);
    var step := AttemptStep(data, env, ticks[attempt], cache, attempt);
    if attempt == MaxRetries {
      SubmitWithRetryFinished(data, env, ticks, cache, attempt, step, [], []);
    } else {
      SubmitWithRetryRetried(data, env, ticks, cache, attempt, step, [], []);
      OfflineExhaustsRetries(data, env, ticks, cache, attempt + 1);
    }
  }

  /** The service, with the module-level `rateLimitCache` as its field. */
  class SubmissionService {
    var rateLimitCache: map<string, CacheEntry>

    constructor ()
      ensures rateLimitCache == map[]
    {
      rateLimitCache := map[];
    }

    /** `checkRateLimit(iphash)` at time `now`. */
    method CheckRateLimit(iphash: string, now: int) returns (allowed: bool)
      ensures allowed == Allows(rateLimitCache, iphash, now)
    {
      if iphash in rateLimitCache && now - rateLimitCache[iphash].timestamp < CacheDuration {
        allowed := rateLimitCache[iphash].count < RateLimitMax;
      } else {
        allowed := true;
      }
    }

    /** The cache update after a successful insert. */
    method RecordSuccess(iphash: string, now: int)
      modifies this
      ensures rateLimitCache == CacheAfterSuccess(old(rateLimitCache), iphash, now)
    {
      if iphash in rateLimitCache {
        var cached := rateLimitCache[iphash];
        rateLimitCache := rateLimitCache[iphash := CacheEntry(cached.count + 1, cached.timestamp)];
      } else {
        rateLimitCache := rateLimitCache[iphash := CacheEntry(1, now)];
      }
    }

    /** One call of `submitWithRetry`, up to its recursive call: it finishes
        with a result or asks for a retry, and updates the cache on success. */
    method TryAttempt(data: SubmissionData, env: Environment, tick: Tick, attempt: nat) returns (outcome: Outcome)
      modifies this
      ensures outcome == AttemptOutcome(data, env, tick, old(rateLimitCache), attempt)
      ensures outcome.Done? ==> rateLimitCache == outcome.step.cache
      ensures outcome.Failure? ==> rateLimitCache == old(rateLimitCache)
    {
      if attempt == 0 && !env.connection.success {
        return Done(Finished(Failed(ConnectionFailedError, true), rateLimitCache, []));
      }
      match env.digest {
        case DigestThrew(e) =>
          outcome := Failure(e, true, []);
        case Digest(bytes) =>
          var iphash := GenerateIPHash(bytes);
          var canSubmit := CheckRateLimit(iphash, tick.checkedAt);
          if !canSubmit {
            return Done(Finished(Failed(RateLimitedError, false), rateLimitCache, []));
          }
          var hash := SubmissionHash(data);
          if hash.None? {
            return Failure(env.btoaError, true, []);
          }
          var row := BuildRow(data, iphash, hash.value);
          match tick.store {
            case Stored =>
              RecordSuccess(iphash, tick.storedAt);
              outcome := Done(Finished(Succeeded, rateLimitCache, [row]));
            case Rejected(e) =>
              outcome := Failure(e, false, [row]);
            case Threw(e) =>
              outcome := Failure(e, true, [row]);
          }
      }
    }

    /** One call of `submitWithRetry`, up to its recursive call: the `try`
        block, then the classification of its error and the retry decision. */
    method Attempt(data: SubmissionData, env: Environment, tick: Tick, attempt: nat) returns (step: Step)
      modifies this
      ensures step == AttemptStep(data, env, tick, old(rateLimitCache), attempt)
      ensures step.Finished? ==> rateLimitCache == step.cache
      ensures step.RetryAfter? ==> rateLimitCache == old(rateLimitCache)
    {
      var outcome := TryAttempt(data, env, tick, attempt);
      match outcome {
        case Done(s) =>
          step := s;
        case Failure(e, thrown, inserted) =>
          step := OnError(ClassifyError(tick.online, e), thrown, attempt, rateLimitCache, inserted);
      }
    }

    /** `submitFormData`, with the recursion of `submitWithRetry` as a loop
        over the attempt counter; `ticks[k]` is the environment during
        attempt k, and the delays it waits are returned in `retries`. */
    method SubmitFormData(data: SubmissionData, env: Environment, ticks: seq<Tick>)
      returns (result: SubmissionResult, inserts: seq<Row>, retries: seq<Retry>)
      requires MaxRetries < |ticks|
      modifies this
      ensures Trace(result, rateLimitCache, inserts, retries) == SubmitWithRetry(data, env, ticks, old(rateLimitCache), 0)
    {
      ghost var cache := rateLimitCache;
      ghost var steps := Steps(data, env, ticks, cache);
      SubmitWithRetryRuns(data, env, ticks, cache, 0);
      var attempt: nat := 0;
      inserts, retries := [], [];
      while true
        invariant attempt <= MaxRetries && rateLimitCache == cache
        invariant Run(steps, 0) == Prefixed(Run(steps, attempt), inserts, retries)
        decreases MaxRetries - attempt
      {
        var step := Attempt(data, env, ticks[attempt], attempt);
        assert step == steps[attempt];
        RunAdvance(steps, attempt, inserts, retries);
        if step.Finished? {
          result, inserts := step.result, inserts + step.inserted;
          return;
        }
        inserts, retries := inserts + step.inserted, retries + [step.retry];
        attempt := attempt + 1;
      }
    }
  }
}
