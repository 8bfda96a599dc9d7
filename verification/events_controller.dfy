/**
 * The events endpoint: POST validates and normalises a request into a
 * `UserEvent`, hands it to the producer and maps the outcome to a status code;
 * GET clamps the requested limit and reads the processed-event store.
 */
module EventsController {
  import opened Wrappers
  import opened Text
  import opened Exceptions
  import opened Events
  import opened ProcessedEventStore

  /** The canonical event types, as the case-insensitive set spells them. */
  const AllowedTypes: set<string> := {"login", "logout", "purchase"}

  const AllowedTypesError: string := "type must be one of: login, logout, purchase"

  /** `AllowedTypes.Contains(t)` under `StringComparer.OrdinalIgnoreCase`. */
  predicate IsAllowedType(t: string): (r: bool)
    ensures t in AllowedTypes ==> r
    ensures r ==> |t| in {5, 6, 8}
  {
    EqualsOrdinalIgnoreCase("login", t) || EqualsOrdinalIgnoreCase("logout", t) || EqualsOrdinalIgnoreCase("purchase", t)
  }

  /** A type is accepted exactly when its lower-case form is one of the canonical values. */
  lemma AllowedTypeIff(t: string)
    ensures IsAllowedType(t) <==> ToLowerInvariant(t) in AllowedTypes
  {
    IgnoreCaseIffSameLowerCase("login", t);
    IgnoreCaseIffSameLowerCase("logout", t);
    IgnoreCaseIffSameLowerCase("purchase", t);
    assert ToLowerInvariant("login") == "login";
    assert ToLowerInvariant("logout") == "logout";
    assert ToLowerInvariant("purchase") == "purchase";
  }

  /**
   * `[Required]` on a string (empty strings not allowed): present and not null,
   * empty or white space, that is, something is left after trimming.
   */
  predicate Required(v: Option<string>): (r: bool)
    ensures r ==> MinLength(v, 1)
  {
    v.Some? && !AllWhiteSpace(v.value)
  }

  /** A value passes `[Required]` exactly when trimming leaves something of it. */
  lemma RequiredIffNonEmptyAfterTrim(v: Option<string>)
    ensures Required(v) <==> v.Some? && Trim(v.value) != []
  {
    if v.Some? {
      TrimEmptyIff(v.value);
    }
  }

  /**
   * `[MinLength(n)]`: a missing value passes; a present one needs a
   * `string.Length` (UTF-16 code units) of at least `n`.
   */
  predicate MinLength(v: Option<string>, n: nat): (r: bool)
    ensures v.None? ==> r
    ensures v.Some? && |v.value| >= n ==> r
    ensures v.Some? && 2 * |v.value| < n ==> !r
  {
    v.None? || Utf16Length(v.value) >= n
  }

  /**
   * `ModelState.IsValid` for the request body: no binding error and every
   * validation attribute of `IngestEventRequest` satisfied. `[MinLength(1)]` on
   * the user id adds nothing to `[Required]`.
   */
  predicate ModelStateValid(body: IngestEventRequest, bindingOk: bool): (r: bool)
    ensures r <==> bindingOk && Required(body.userId) && Required(body.eventType) && MinLength(body.eventType, 3)
  {
    && bindingOk
    && Required(body.userId) && MinLength(body.userId, 1)
    && Required(body.eventType) && MinLength(body.eventType, 3)
  }

  datatype IngestError = ValidationFailed | TypeNotAllowed(message: string)

  /**
   * The decision part of POST: the model-state gate, then the type check, then
   * the construction of the normalised event, with `now` standing for the clock.
   */
  function Normalize(body: IngestEventRequest, bindingOk: bool, now: Timestamp): (r: Result<UserEvent, IngestError>)
    ensures r == Failure(ValidationFailed) <==> !ModelStateValid(body, bindingOk)
    ensures r.Failure? && r.error.TypeNotAllowed? <==>
              ModelStateValid(body, bindingOk) && ToLowerInvariant(body.eventType.value) !in AllowedTypes
    ensures r.Failure? ==> r.error == ValidationFailed || r.error == TypeNotAllowed(AllowedTypesError)
    ensures r.Success? ==>
              && r.value.userId == Trim(body.userId.value)
              && r.value.eventType == ToLowerInvariant(body.eventType.value)
              && r.value.timestamp == (if body.timestamp.Some? then body.timestamp.value else now)
              && r.value.data == body.data
  {
    if !ModelStateValid(body, bindingOk) then Failure(ValidationFailed)
    else
      AllowedTypeIff(body.eventType.value);
      if !IsAllowedType(body.eventType.value) then Failure(TypeNotAllowed(AllowedTypesError))
      else
        Success(UserEvent(
          userId := Trim(body.userId.value),
          eventType := ToLowerInvariant(body.eventType.value),
          timestamp := match body.timestamp case Some(ts) => ts case None => now,
          data := body.data))
  }

  /**
   * Every event POST builds is canonical: a non-empty user id with no surrounding
   * white space and one of the three lower-case types.
   */
  lemma NormalizedEventIsCanonical(body: IngestEventRequest, bindingOk: bool, now: Timestamp)
    requires Normalize(body, bindingOk, now).Success?
    ensures var e := Normalize(body, bindingOk, now).value;
            && e.eventType in AllowedTypes
            && e.userId != []
            && !IsWhiteSpace(e.userId[0]) && !IsWhiteSpace(e.userId[|e.userId| - 1])
  {
    TrimEmptyIff(body.userId.value);
  }

  /** A white-space-only user id fails `[Required]`, so it never reaches the trimming step. */
  lemma WhiteSpaceUserIdIsInvalid(body: IngestEventRequest, bindingOk: bool, now: Timestamp)
    requires body.userId.Some? && AllWhiteSpace(body.userId.value)
    ensures Normalize(body, bindingOk, now) == Failure(ValidationFailed)
  {
  }

  /** What the producer's PublishAsync did with the event: completed, or threw. */
  datatype PublishOutcome = Published | Threw(ex: ExceptionType)

  /** The action results of the controller; `Unhandled` is an exception escaping the action. */
  datatype Response =
    | ValidationProblem
    | BadRequest(error: string)
    | Accepted
    | Problem(statusCode: int, title: string)
    | Unhandled(ex: ExceptionType)

  /** The HTTP status each action result carries (an escaping exception becomes 500 in the host). */
  function StatusCode(r: Response): int
  {
    match r
    case ValidationProblem => 400
    case BadRequest(_) => 400
    case Accepted => 202
    case Problem(code, _) => code
    case Unhandled(_) => 500
  }

  /** The catch clauses around the publish call, in source order. */
  const PublishCatches: seq<Handler<Response>> := [
    Catch(OperationCanceledException, Problem(499, "Client closed request")),
    Catch(Exception, Problem(500, "Failed to enqueue event"))
  ]

  /** The try statement around PublishAsync: success is 202, otherwise the first matching catch clause decides. */
  /**
   * Success gives 202; a cancellation (OperationCanceledException or a subclass)
   * gives 499; every other exception gives 500; nothing escapes the action.
   */
  function PublishResponse(outcome: PublishOutcome): (r: Response)
    ensures !r.Unhandled?
    ensures StatusCode(r) == 202 <==> outcome.Published?
    ensures StatusCode(r) == 499 <==> outcome.Threw? && IsA(outcome.ex, OperationCanceledException)
    ensures StatusCode(r) == 500 <==> outcome.Threw? && !IsA(outcome.ex, OperationCanceledException)
  {
    match outcome
    case Published => Accepted
    case Threw(ex) =>
      EveryExceptionIsAnException(ex);
      assert IsA(ex, PublishCatches[1].catches);
      match FirstMatch(PublishCatches, ex)
      case Some(i) => PublishCatches[i].action
      case None => Unhandled(ex)
  }

  /**
   * The cancellation clause must come first: a cancellation is also an
   * Exception, and with the clauses swapped it would be reported as 500.
   */
  lemma CancellationClauseComesFirst(ex: ExceptionType)
    requires IsA(ex, OperationCanceledException)
    ensures IsA(ex, Exception)
    ensures StatusCode(PublishResponse(Threw(ex))) == 499
    ensures var swapped := [PublishCatches[1], PublishCatches[0]];
            FirstMatch(swapped, ex) == Some(0) && swapped[0].action.statusCode == 500
  {
    EveryExceptionIsAnException(ex);
  }

  /** The result of POST: the response and the event handed to the producer, if any. */
  datatype PostResult = PostResult(response: Response, published: Option<UserEvent>)

  /** POST /events, with the producer's behaviour on this event given as `outcome`. */
  function Post(body: IngestEventRequest, bindingOk: bool, now: Timestamp, outcome: PublishOutcome): (r: PostResult)
    ensures r.published.Some? <==> ModelStateValid(body, bindingOk) && IsAllowedType(body.eventType.value)
    ensures !ModelStateValid(body, bindingOk) ==> r.response == ValidationProblem
    ensures ModelStateValid(body, bindingOk) && !IsAllowedType(body.eventType.value) ==>
              r.response == BadRequest(AllowedTypesError)
    ensures r.published.Some? ==> r.published == Some(Normalize(body, bindingOk, now).value) && r.response == PublishResponse(outcome)
  {
    match Normalize(body, bindingOk, now)
    case Failure(ValidationFailed) => PostResult(ValidationProblem, None)
    case Failure(TypeNotAllowed(msg)) => PostResult(BadRequest(msg), None)
    case Success(evt) => PostResult(PublishResponse(outcome), Some(evt))
  }

  /**
   * The status POST returns: 400 exactly when nothing was published; otherwise
   * the publish outcome's 202, 499 or 500.
   */
  lemma PostStatus(body: IngestEventRequest, bindingOk: bool, now: Timestamp, outcome: PublishOutcome)
    ensures var r := Post(body, bindingOk, now, outcome);
            && (StatusCode(r.response) == 400 <==> r.published.None?)
            && (StatusCode(r.response) == 202 <==> r.published.Some? && outcome.Published?)
            && (StatusCode(r.response) in {400, 202, 499, 500})
  {
  }

  /** `Math.Clamp`: `value` forced into `[lo, hi]`. */
  function Clamp(value: int, lo: int, hi: int): (r: int)
    requires lo <= hi
    ensures lo <= r <= hi
    ensures lo <= value <= hi ==> r == value
    ensures value < lo ==> r == lo
    ensures value > hi ==> r == hi
  {
    if value < lo then lo else if value > hi then hi else value
  }

  /** How many events GET reads: the query's limit (100 when absent) clamped to 1..1000. */
  function TakeCount(limit: Option<int>): (take: int)
    ensures 1 <= take <= 1000
    ensures limit.None? ==> take == 100
    ensures limit.Some? && 1 <= limit.value <= 1000 ==> take == limit.value
    ensures limit.Some? && limit.value < 1 ==> take == 1
    ensures limit.Some? && limit.value > 1000 ==> take == 1000
  {
    Clamp(match limit case Some(n) => n case None => 100, 1, 1000)
  }

  /** GET /events: between 1 and 1000 of the newest stored events (fewer only when fewer exist), newest first. */
  function Get(store: InMemoryProcessedEventStore, limit: Option<int>): (items: seq<UserEvent>)
    reads store
    ensures |items| == Min(TakeCount(limit), |store.events|)
    ensures |items| <= 1000 && (store.events != [] ==> |items| >= 1)
    ensures forall i :: 0 <= i < |items| ==> items[i] == store.events[|store.events| - 1 - i]
  {
    store.GetRecent(TakeCount(limit))
  }

  /** A request with type "refund" is refused with the message naming the three types. */
  lemma RefundIsRejected(userId: string, now: Timestamp, outcome: PublishOutcome)
    requires !AllWhiteSpace(userId)
    ensures var r := Post(IngestEventRequest(Some(userId), Some("refund"), None, None), true, now, outcome);
            r.response == BadRequest(AllowedTypesError) && r.published.None?
  {
    AllowedTypeIff("refund");
    var lowered := ToLowerInvariant("refund");
    assert lowered[0] == 'r';
    assert !AllWhiteSpace("refund") by { assert !IsWhiteSpace("refund"[0]); }
  }

  /**
   * A type of one ASCII letter and one character above U+FFFF has a
   * `string.Length` of 3, so it passes `[MinLength(3)]` and is refused by the
   * type check rather than by validation.
   */
  lemma SurrogatePairTypeIsRejectedAsUnknown(userId: string, now: Timestamp, outcome: PublishOutcome)
    requires !AllWhiteSpace(userId)
    ensures var r := Post(IngestEventRequest(Some(userId), Some("a\U{1F600}"), None, None), true, now, outcome);
            r.response == BadRequest(AllowedTypesError) && r.published.None?
  {
    var t := "a\U{1F600}";
    assert Utf16Length(t) == 3 by { assert t[1..] == "\U{1F600}"; }
    assert !AllWhiteSpace(t) by { assert !IsWhiteSpace(t[0]); }
    assert !IsAllowedType(t);
  }

  /** A padded, upper-case login is accepted and normalised to ("alice", "login", now). */
  lemma AliceLogsIn(now: Timestamp)
    ensures var r := Post(IngestEventRequest(Some(" alice "), Some("LOGIN"), None, None), true, now, Published);
            r.response == Accepted && r.published == Some(UserEvent("alice", "login", now, None))
  {
    assert !AllWhiteSpace(" alice ") by { assert !IsWhiteSpace(" alice "[1]); }
    assert !AllWhiteSpace("LOGIN") by { assert !IsWhiteSpace("LOGIN"[0]); }
    assert ToLowerInvariant("LOGIN") == "login";
    AllowedTypeIff("LOGIN");
    TrimAlice();
    FilledAllowedRequestIsPublished(" alice ", "LOGIN", "alice", "login", now, Published);
  }

  /**
   * A request whose strings are present and not blank, whose type has at least
   * three characters and is allowed, is published with the given trimmed and
   * lower-cased spellings.
   */
  lemma FilledAllowedRequestIsPublished(userId: string, eventType: string, trimmed: string, lowered: string,
                                         now: Timestamp, outcome: PublishOutcome)
    requires !AllWhiteSpace(userId) && !AllWhiteSpace(eventType) && |eventType| >= 3
    requires IsAllowedType(eventType) && Trim(userId) == trimmed && ToLowerInvariant(eventType) == lowered
    ensures var r := Post(IngestEventRequest(Some(userId), Some(eventType), None, None), true, now, outcome);
            r.response == PublishResponse(outcome) && r.published == Some(UserEvent(trimmed, lowered, now, None))
  {
  }

  lemma TrimAlice()
    ensures Trim(" alice ") == "alice"
  {
    var core := "alice";
    assert " alice " == " " + core + " ";
    assert core[0] == 'a' && core[|core| - 1] == 'e';
    TrimStrips(" ", core, " ");
  }
}
