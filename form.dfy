/** The logic of the submission form (src/components/SubmissionForm.tsx):
    input sanitising, the payload it hands to the service, the platform
    check boxes, the double-submit guard, how a result is turned into the
    error banner and the retry button, and the banner's icon and colour.
    React's state hooks become the fields of a class; the markup is not
    modelled. */
module Form {
  import opened Wrappers
  import opened Text
  import opened Validation
  import opened Service

  // ------------------------------------------------------------ sanitising

  /** The two code points `sanitizeInput` strips. */
  const Brackets: set<char> := {'<', '>'}

  /** No angle bracket anywhere in `s`. */
  predicate Clean(s: string)
  {
    forall k :: 0 <= k < |s| ==> s[k] !in Brackets
  }

  /** `sanitizeInput`: trim, then delete every `<` and `>`. */
  function SanitizeInput(s: string): (r: string)
    ensures |r| <= |s|
    ensures Clean(r)
  {
    Without(Trim(s), Brackets)
  }

  /** Every other code point of the trimmed input survives, as often as it occurs. */
  lemma SanitizeKeepsOthers(s: string, c: char)
    ensures multiset(SanitizeInput(s))[c] == if c in Brackets then 0 else multiset(Trim(s))[c]
  {
    WithoutCounts(Trim(s), Brackets, c);
  }

  /** Trimming never brings a bracket in. */
  lemma TrimKeepsClean(s: string)
    requires Clean(s)
    ensures Clean(Trim(s))
  {
    var t := TrimStart(s);
    assert Clean(t) by {
      forall k | 0 <= k < |t| ensures t[k] !in Brackets {
        assert t[k] == s[|s| - |t| + k];
      }
    }
    var u := TrimEnd(t);
    assert Clean(u) by {
      forall k | 0 <= k < |u| ensures u[k] !in Brackets {
        assert u[k] == t[k];
      }
    }
  }

  /** Input without brackets is only trimmed. */
  lemma SanitizeCleanIsTrim(s: string)
    requires Clean(s)
    ensures SanitizeInput(s) == Trim(s)
  {
    TrimKeepsClean(s);
    WithoutNothingToDrop(Trim(s), Brackets);
  }

  /** Input that is already trimmed and has no brackets passes unchanged. */
  lemma SanitizeFixedPoint(s: string)
    requires Clean(s)
    requires s != [] ==> !IsJsWhitespace(s[0]) && !IsJsWhitespace(s[|s| - 1])
    ensures SanitizeInput(s) == s
  {
    SanitizeCleanIsTrim(s);
    TrimNoEdgeWhitespace(s);
  }

  /** A second pass only trims what deleting the brackets exposed ... */
  lemma SanitizeTwice(s: string)
    ensures SanitizeInput(SanitizeInput(s)) == Trim(SanitizeInput(s))
  {
    SanitizeCleanIsTrim(SanitizeInput(s));
  }

  /** ... so from the second pass on nothing changes any more. */
  lemma SanitizeSettles(s: string)
    ensures SanitizeInput(SanitizeInput(SanitizeInput(s))) == SanitizeInput(SanitizeInput(s))
  {
    var once := SanitizeInput(s);
    SanitizeTwice(s);
    SanitizeTwice(once);
    TrimIdempotent(once);
  }

  /** Deleting a leading `<` can expose whitespace ... */
  lemma SanitizeExposesSpace(x: string)
    requires x != [] && Clean(x) && !IsJsWhitespace(x[|x| - 1])
    ensures SanitizeInput(['<', ' '] + x) == [' '] + x
  {
    var s := ['<', ' '] + x;
    assert !IsJsWhitespace(s[0]) && s[|s| - 1] == x[|x| - 1];
    TrimNoEdgeWhitespace(s);
    WithoutAppend(['<', ' '], x, Brackets);
    WithoutNothingToDrop(x, Brackets);
    assert ['<', ' '][1..] == [' '];
    assert [' '][1..] == [];
  }

  /** ... which a second pass then trims. */
  lemma SanitizeTrimsSpace(x: string)
    requires x != [] && Clean(x) && !IsJsWhitespace(x[0]) && !IsJsWhitespace(x[|x| - 1])
    ensures SanitizeInput([' '] + x) == x
  {
    var s := [' '] + x;
    assert s[1..] == x;
    assert TrimStart(s) == TrimStart(x);
    TrimNoEdgeWhitespace(x);
    WithoutNothingToDrop(x, Brackets);
  }

  /** So sanitising is not idempotent: `"< a"` becomes `" a"`, then `"a"`. */
  lemma SanitizeNotIdempotent(x: string)
    requires x != [] && Clean(x) && !IsJsWhitespace(x[0]) && !IsJsWhitespace(x[|x| - 1])
    ensures SanitizeInput(SanitizeInput(['<', ' '] + x)) != SanitizeInput(['<', ' '] + x)
  {
    SanitizeExposesSpace(x);
    SanitizeTrimsSpace(x);
    assert |[' '] + x| != |x|;
  }

  // -------------------------------------------------------------- payload

  /** What react-hook-form hands to `onSubmit`; `platforms` is undefined until a box is touched. */
  datatype FormValues = FormValues(
    whatsappNumber: string,
    domain: string,
    platforms: Option<seq<string>>,
    primaryPainPoint: string,
    marketingConsent: bool)

  /** The platforms, each sanitised; an unset list becomes the empty one. */
  function SanitizePlatforms(platforms: Option<seq<string>>): (r: seq<string>)
    ensures |r| == |platforms.GetOr([])|
    ensures forall i :: 0 <= i < |r| ==> Clean(r[i])
  {
    var ps := platforms.GetOr([]);
    seq(|ps|, i requires 0 <= i < |ps| => SanitizeInput(ps[i]))
  }

  /** The sanitised data passed to the service. */
  function BuildPayload(v: FormValues): (d: SubmissionData)
    ensures |d.whatsappNumber| > 0 && d.whatsappNumber[0] == '+'
    ensures Clean(d.domain) && |d.domain| <= |v.domain|
    ensures Clean(d.primaryPainPoint) && |d.primaryPainPoint| <= |v.primaryPainPoint|
    ensures d.platforms.Some? && |d.platforms.value| == |v.platforms.GetOr([])|
    ensures forall i :: 0 <= i < |d.platforms.value| ==> Clean(d.platforms.value[i])
    ensures d.marketingConsent == v.marketingConsent
    ensures d.whatsappNumber == FormatWhatsAppNumber(v.whatsappNumber)
    ensures d.domain == SanitizeInput(v.domain) && d.primaryPainPoint == SanitizeInput(v.primaryPainPoint)
    ensures d.platforms == Some(SanitizePlatforms(v.platforms))
  {
    SubmissionData(
      FormatWhatsAppNumber(v.whatsappNumber),
      SanitizeInput(v.domain),
      Some(SanitizePlatforms(v.platforms)),
      SanitizeInput(v.primaryPainPoint),
      v.marketingConsent)
  }

  /** The payload keeps each platform at its position, sanitised. */
  lemma PayloadPlatforms(v: FormValues, i: int)
    requires v.platforms.Some? && 0 <= i < |v.platforms.value|
    ensures BuildPayload(v).platforms.value[i] == SanitizeInput(v.platforms.value[i])
  {
  }

  /** Since the form always sends a list, the stored row's platforms are exactly the sanitised ones. */
  lemma PayloadRowPlatforms(v: FormValues, iphash: string, submissionHash: string)
    ensures BuildRow(BuildPayload(v), iphash, submissionHash).platforms == SanitizePlatforms(v.platforms)
  {
  }

  /** Every row a submission of the form's values inserts holds the sanitised platforms. */
  lemma SubmittedRowsPlatforms(v: FormValues, env: Environment, ticks: seq<Tick>, cache: map<string, CacheEntry>)
    requires MaxRetries < |ticks|
    ensures var t := SubmitWithRetry(BuildPayload(v), env, ticks, cache, 0);
      forall i :: 0 <= i < |t.inserts| ==> t.inserts[i].platforms == SanitizePlatforms(v.platforms)
  {
    var d := BuildPayload(v);
    var t := SubmitWithRetry(d, env, ticks, cache, 0);
    SubmissionEffects(d, env, ticks, cache);
    forall i | 0 <= i < |t.inserts|
      ensures t.inserts[i].platforms == SanitizePlatforms(v.platforms)
    {
      assert t.inserts[i] == RowOf(d, env).value;
    }
  }

  // ------------------------------------------------------------ platforms

  /** The list without any copy of `platform`, the rest in order (the unchecking branch). */
  function RemoveAll(ps: seq<string>, platform: string): (r: seq<string>)
    ensures |r| <= |ps|
    ensures platform !in r
    ensures forall q :: q in r <==> q in ps && q != platform
  {
    if ps == [] then []
    else (if ps[0] == platform then [] else [ps[0]]) + RemoveAll(ps[1..], platform)
  }

  /** Filtering works piece by piece, so the kept platforms stay in order. */
  lemma {:induction false} RemoveAllAppend(a: seq<string>, b: seq<string>, platform: string)
    ensures RemoveAll(a + b, platform) == RemoveAll(a, platform) + RemoveAll(b, platform)
  {
    if a == [] {
      assert a + b == b;
    } else {
      var head := if a[0] == platform then [] else [a[0]];
      assert (a + b)[0] == a[0];
      assert (a + b)[1..] == a[1..] + b;
      assert RemoveAll(a + b, platform) == head + RemoveAll(a[1..] + b, platform);
      assert RemoveAll(a, platform) == head + RemoveAll(a[1..], platform);
      RemoveAllAppend(a[1..], b, platform);
      assert head + (RemoveAll(a[1..], platform) + RemoveAll(b, platform))
          == (head + RemoveAll(a[1..], platform)) + RemoveAll(b, platform);
    }
  }

  /** Every other platform is kept as often as it was listed. */
  lemma {:induction false} RemoveAllCounts(ps: seq<string>, platform: string, q: string)
    ensures multiset(RemoveAll(ps, platform))[q] == if q == platform then 0 else multiset(ps)[q]
  {
    if ps != [] {
      var head := if ps[0] == platform then [] else [ps[0]];
      var rest := RemoveAll(ps[1..], platform);
      RemoveAllCounts(ps[1..], platform, q);
      assert RemoveAll(ps, platform) == head + rest;
      assert multiset(head + rest) == multiset(head) + multiset(rest);
      assert ps == [ps[0]] + ps[1..];
      assert multiset(ps) == multiset([ps[0]]) + multiset(ps[1..]);
    }
  }

  /** A platform that is not listed leaves the list as it is. */
  lemma {:induction false} RemoveAllAbsent(ps: seq<string>, platform: string)
    requires platform !in ps
    ensures RemoveAll(ps, platform) == ps
  {
    if ps != [] {
      assert ps[0] != platform;
      assert platform !in ps[1..];
      RemoveAllAbsent(ps[1..], platform);
    }
  }

  /** The new platform list after a check box changes. */
  function TogglePlatform(current: seq<string>, platform: string, checked: bool): (r: seq<string>)
    ensures checked ==> |r| == |current| + 1 && r[|current|] == platform && r[..|current|] == current
    ensures !checked ==> platform !in r
    ensures forall q :: q != platform ==> (q in r <==> q in current)
  {
    if checked then current + [platform] else RemoveAll(current, platform)
  }

  /** Checking then unchecking a box removes every copy of that platform, and nothing else. */
  lemma CheckThenUncheck(current: seq<string>, platform: string)
    ensures TogglePlatform(TogglePlatform(current, platform, true), platform, false)
         == RemoveAll(current, platform)
  {
    RemoveAllAppend(current, [platform], platform);
    assert RemoveAll([platform], platform) == [];
  }

  /** For a platform that was not yet listed, checking then unchecking is a round trip. */
  lemma CheckThenUncheckFresh(current: seq<string>, platform: string)
    requires platform !in current
    ensures TogglePlatform(TogglePlatform(current, platform, true), platform, false) == current
  {
    CheckThenUncheck(current, platform);
    RemoveAllAbsent(current, platform);
  }

  // -------------------------------------------------------- the error banner

  /** How the awaited service call ends: with a result, or with an exception. */
  datatype SubmitOutcome = Returned(result: SubmissionResult) | Raised

  /** The error the banner shows for a failed result: the service's own, or a
      generic `unknown` one when the result carries none. */
  function ShownError(r: SubmissionResult): (e: SubmissionError)
    ensures r.error.Some? ==> e == r.error.value
    ensures r.error.None? ==> e.kind == Unknown && e.message == FailedToSubmit
  {
    r.error.GetOr(SubmissionError(Unknown, FailedToSubmit))
  }

  /** Whether the retry button is offered: only when the result says so. */
  function ShowRetry(r: SubmissionResult): (b: bool)
    ensures b <==> r.retryable == Some(true)
  {
    r.retryable.GetOr(false)
  }

  /** The service never leaves the form to its fallbacks: every failed
      submission carries its own error and its own retry decision. */
  lemma FallbacksUnused(data: SubmissionData, env: Environment, ticks: seq<Tick>,
                        cache: map<string, CacheEntry>)
    requires MaxRetries < |ticks|
    ensures var r := SubmitWithRetry(data, env, ticks, cache, 0).result;
      !r.success ==> r.error == Some(ShownError(r)) && r.retryable == Some(ShowRetry(r))
  {
    var r := SubmitWithRetry(data, env, ticks, cache, 0).result;
    SubmissionResultShape(data, env, ticks, cache);
    if !r.success {
      assert r.error.Some? && r.retryable.Some?;
      ShownDecisions(r);
    }
  }

  /** A failed result that carries both decisions is shown as it is. */
  lemma ShownDecisions(r: SubmissionResult)
    requires r.error.Some? && r.retryable.Some?
    ensures r.error == Some(ShownError(r)) && r.retryable == Some(ShowRetry(r))
  {
  }

  /** Unless the rate limit refused it, a failed submission offers the retry
      button exactly when the service gave up before its last attempt. */
  lemma RetryButtonOffered(data: SubmissionData, env: Environment, ticks: seq<Tick>,
                           cache: map<string, CacheEntry>)
    requires MaxRetries < |ticks|
    ensures var t := SubmitWithRetry(data, env, ticks, cache, 0);
      !t.result.success && t.result.error != Some(RateLimitedError) ==>
        (ShowRetry(t.result) <==> |t.retries| < MaxRetries)
  {
    SubmissionResultShape(data, env, ticks, cache);
  }

  /** `getErrorIcon`; `server` and `unknown` fall to the default. */
  function ErrorIcon(kind: ErrorKind): (icon: string)
    ensures icon == "\U{274C}" <==> Unnamed(kind)
  {
    match kind
    case Network => "\U{1F310}"
    case Auth => "\U{1F512}"
    case RateLimit => "\U{23F0}"
    case Validation => "\U{26A0}\U{FE0F}"
    case _ => "\U{274C}"
  }

  /** The Tailwind palette a banner is drawn in. */
  datatype Tint = Blue | Yellow | Orange | Gray | Red

  function TintName(t: Tint): string
  {
    match t
    case Blue => "blue"
    case Yellow => "yellow"
    case Orange => "orange"
    case Gray => "gray"
    case Red => "red"
  }

  /** The banner's classes in the palette `t`: `bg-<t>-50 border-<t>-200 text-<t>-700`. */
  function Banner(t: Tint): string
  {
    "bg-" + TintName(t) + "-50 border-" + TintName(t) + "-200 text-" + TintName(t) + "-700"
  }

  /** Different palettes give different classes. */
  lemma BannerInjective(t: Tint, u: Tint)
    ensures Banner(t) == Banner(u) <==> t == u
  {
    if Banner(t) == Banner(u) {
      assert Banner(t)[3] == TintName(t)[0];
      assert Banner(u)[3] == TintName(u)[0];
    }
  }

  /** `getErrorColor`'s palette; `server` and `unknown` fall to the red default. */
  function ErrorTint(kind: ErrorKind): Tint
  {
    match kind
    case Network => Blue
    case Auth => Yellow
    case RateLimit => Orange
    case Validation => Gray
    case _ => Red
  }

  /** `getErrorColor`. */
  function ErrorColor(kind: ErrorKind): (classes: string)
    ensures classes == Banner(Red) <==> Unnamed(kind)
  {
    BannerInjective(ErrorTint(kind), Red);
    Banner(ErrorTint(kind))
  }

  /** The kinds the banner's switch statements do not name. */
  predicate Unnamed(kind: ErrorKind)
  {
    kind == Server || kind == Unknown
  }

  /** Two kinds get the same icon exactly when they are equal or both unnamed. */
  lemma IconDistinguishes(a: ErrorKind, b: ErrorKind)
    ensures ErrorIcon(a) == ErrorIcon(b) <==> a == b || (Unnamed(a) && Unnamed(b))
  {
  }

  /** Two kinds get the same colour exactly when they are equal or both unnamed. */
  lemma ColorDistinguishes(a: ErrorKind, b: ErrorKind)
    ensures ErrorColor(a) == ErrorColor(b) <==> a == b || (Unnamed(a) && Unnamed(b))
  {
    BannerInjective(ErrorTint(a), ErrorTint(b));
  }

  // -------------------------------------------------------------- the form

  /** The component's state: the hooks it updates and the `platforms` form field. */
  class SubmissionForm {
    var isSubmitting: bool
    var submitError: Option<SubmissionError>
    var showRetryOption: bool
    var whatsappValid: bool
    var platforms: Option<seq<string>>

    /** The state on first render. */
    constructor ()
      ensures !isSubmitting && submitError == None && !showRetryOption && !whatsappValid
      ensures platforms == None
    {
      isSubmitting := false;
      submitError := None;
      showRetryOption := false;
      whatsappValid := false;
      platforms := None;
    }

    /** The effect run when the watched number changes (an empty field is invalid). */
    method WatchWhatsApp(number: string)
      modifies this
      ensures whatsappValid == ValidateWhatsAppNumber(number)
      ensures isSubmitting == old(isSubmitting) && submitError == old(submitError)
      ensures showRetryOption == old(showRetryOption) && platforms == old(platforms)
    {
      if number != "" {
        whatsappValid := ValidateWhatsAppNumber(number);
      } else {
        whatsappValid := false;
      }
    }

    /** `handlePlatformChange(platform, checked)`. */
    method HandlePlatformChange(platform: string, checked: bool)
      modifies this
      ensures platforms == Some(TogglePlatform(old(platforms).GetOr([]), platform, checked))
      ensures isSubmitting == old(isSubmitting) && submitError == old(submitError)
      ensures showRetryOption == old(showRetryOption) && whatsappValid == old(whatsappValid)
    {
      var current := if platforms.Some? then platforms.value else [];
      if checked {
        platforms := Some(current + [platform]);
      } else {
        platforms := Some(RemoveAll(current, platform));
      }
    }

    /** The part of `onSubmit` before the `await`: the guard, the reset and the payload. */
    method BeginSubmit(values: FormValues) returns (payload: Option<SubmissionData>)
      requires values.platforms == platforms
      modifies this
      ensures old(isSubmitting) ==> payload == None
      ensures old(isSubmitting) ==> isSubmitting && submitError == old(submitError)
                                    && showRetryOption == old(showRetryOption)
      ensures old(isSubmitting) ==> unchanged(this)
      ensures !old(isSubmitting) ==> payload == Some(BuildPayload(values))
      ensures !old(isSubmitting) ==> isSubmitting && submitError == None && !showRetryOption
      ensures whatsappValid == old(whatsappValid) && platforms == old(platforms)
    {
      if isSubmitting {
        return None;
      }
      isSubmitting := true;
      submitError := None;
      showRetryOption := false;
      payload := Some(BuildPayload(values));
    }

    /** The part of `onSubmit` after the `await`; `notify` says whether `onSuccess` is called. */
    method CompleteSubmit(outcome: SubmitOutcome) returns (notify: bool)
      modifies this
      ensures !isSubmitting
      ensures notify <==> outcome.Returned? && outcome.result.success
      ensures notify ==> submitError == old(submitError) && showRetryOption == old(showRetryOption)
      ensures outcome.Returned? && !outcome.result.success ==>
                submitError == Some(ShownError(outcome.result)) && showRetryOption == ShowRetry(outcome.result)
      ensures outcome.Raised? ==>
                submitError == Some(SubmissionError(Unknown, UnexpectedError)) && showRetryOption
      ensures whatsappValid == old(whatsappValid) && platforms == old(platforms)
    {
      notify := false;
      match outcome {
        case Returned(result) =>
          if result.success {
            notify := true;
          } else {
            submitError := Some(ShownError(result));
            showRetryOption := ShowRetry(result);
          }
        case Raised =>
          submitError := Some(SubmissionError(Unknown, UnexpectedError));
          showRetryOption := true;
      }
      isSubmitting := false;
    }

    /** `onSubmit` with the service call in between: a second press while a
        submission is under way does nothing; otherwise the banner shows
        what the retrying submission ended in. */
    method OnSubmit(values: FormValues, service: SubmissionService, env: Environment, ticks: seq<Tick>)
      returns (notify: bool, inserts: seq<Row>, retries: seq<Retry>)
      requires MaxRetries < |ticks|
      requires values.platforms == platforms
      modifies this, service
      ensures old(isSubmitting) ==> !notify && inserts == [] && retries == []
      ensures old(isSubmitting) ==> unchanged(this) && unchanged(service)
      ensures forall i :: 0 <= i < |inserts| ==> inserts[i].platforms == SanitizePlatforms(old(platforms))
      ensures !old(isSubmitting) ==>
        var t := SubmitWithRetry(BuildPayload(values), env, ticks, old(service.rateLimitCache), 0);
        && service.rateLimitCache == t.cache && inserts == t.inserts && retries == t.retries
        && !isSubmitting
        && (notify <==> t.result.success)
        && submitError == (if t.result.success then None else Some(ShownError(t.result)))
        && showRetryOption == (!t.result.success && ShowRetry(t.result))
      ensures whatsappValid == old(whatsappValid) && platforms == old(platforms)
    {
      inserts, retries := [], [];
      ghost var cache := service.rateLimitCache;
      var payload := BeginSubmit(values);
      if payload.None? {
        return false, inserts, retries;
      }
      var result;
      result, inserts, retries := service.SubmitFormData(payload.value, env, ticks);
      SubmittedRowsPlatforms(values, env, ticks, cache);
      notify := CompleteSubmit(Returned(result));
    }

    /** `handleRetry`: clear the banner and submit the same values again. */
    method HandleRetry(values: FormValues, service: SubmissionService, env: Environment, ticks: seq<Tick>)
      returns (notify: bool, inserts: seq<Row>, retries: seq<Retry>)
      requires MaxRetries < |ticks|
      requires values.platforms == platforms
      modifies this, service
      ensures old(isSubmitting) ==> !notify && inserts == [] && retries == []
      ensures old(isSubmitting) ==> submitError == None && !showRetryOption
      ensures forall i :: 0 <= i < |inserts| ==> inserts[i].platforms == SanitizePlatforms(old(platforms))
      ensures old(isSubmitting) ==> isSubmitting && unchanged(service)
      ensures !old(isSubmitting) ==>
        var t := SubmitWithRetry(BuildPayload(values), env, ticks, old(service.rateLimitCache), 0);
        && service.rateLimitCache == t.cache && inserts == t.inserts && retries == t.retries
        && !isSubmitting
        && (notify <==> t.result.success)
        && submitError == (if t.result.success then None else Some(ShownError(t.result)))
        && showRetryOption == (!t.result.success && ShowRetry(t.result))
      ensures whatsappValid == old(whatsappValid) && platforms == old(platforms)
    {
      submitError := None;
      showRetryOption := false;
      notify, inserts, retries := OnSubmit(values, service, env, ticks);
    }
  }
}
