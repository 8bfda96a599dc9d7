/**
 * The background consumer: subscribe once, then poll records until the stop
 * token is cancelled, appending each decoded event to the processed-event
 * store; consume errors are logged and the loop goes on; a cancellation ends
 * the loop; on every way out the consumer is closed and then disposed.
 *
 * The broker, the JSON decoder, the stop token and Task.Delay are the
 * environment: what each of them does in one turn of the loop is one
 * `Iteration`, and the method is run against a finite script of them.
 */
module KafkaConsumer {
  import opened Wrappers
  import opened Exceptions
  import opened Events
  import opened ProcessedEventStore

  /** What Consume followed by Deserialize produced in one turn of the loop. */
  datatype Poll =
    | NoValue                          // the result, its Message or the Message's Value is null
    | Decoded(evt: UserEvent)          // a record whose value deserialised to an event
    | DecodedNull                      // a record whose value deserialised to null
    | ConsumeThrew(ex: ExceptionType)  // Consume threw
    | DecodeThrew(ex: ExceptionType)   // Deserialize threw (a JsonException for a malformed record)

  /** How the awaited Task.Delay(10, stoppingToken) ended. */
  datatype DelayOutcome = Elapsed | DelayThrew(ex: ExceptionType)

  /** One turn: the token's state at the loop test, the poll, and the delay. */
  datatype Iteration = Iteration(cancellationRequested: bool, poll: Poll, delay: DelayOutcome)

  /** How ExecuteAsync ended: still looping, stopped through cancellation, or with an exception escaping. */
  datatype Exit = Running | Stopped | Faulted(ex: ExceptionType)

  datatype Recovery = LogAndContinue | LogAndStop

  /** The catch clause inside the loop. */
  const InnerCatches: seq<Handler<Recovery>> := [Catch(ConsumeException, LogAndContinue)]

  /** The catch clause around the loop. */
  const OuterCatches: seq<Handler<Recovery>> := [Catch(OperationCanceledException, LogAndStop)]

  /** The effect of one non-cancelled turn: the event appended, if any, and the exception leaving the turn, if any. */
  datatype TurnResult = TurnResult(appended: Option<UserEvent>, escaped: Option<ExceptionType>)

  function DelayEscape(delay: DelayOutcome): Option<ExceptionType>
  {
    match delay
    case Elapsed => None
    case DelayThrew(ex) => Some(ex)
  }

  /**
   * The body of the while loop, for a turn whose loop test passed: only a
   * decoded event is appended; a null result leaves before the delay; an
   * exception is swallowed exactly when it is a ConsumeException, and every
   * other one leaves the turn unchanged.
   */
  function Turn(it: Iteration): (r: TurnResult)
    ensures r.appended == (if it.poll.Decoded? then Some(it.poll.evt) else None)
    ensures it.poll.NoValue? ==> r.escaped.None?
    ensures it.poll.Decoded? || it.poll.DecodedNull? ==> r.escaped == DelayEscape(it.delay)
    ensures (it.poll.ConsumeThrew? || it.poll.DecodeThrew?) ==>
              r.escaped == if IsA(it.poll.ex, ConsumeException) then DelayEscape(it.delay) else Some(it.poll.ex)
  {
    match it.poll
    case NoValue => TurnResult(None, None)   // `continue` skips the delay
    case Decoded(e) => TurnResult(Some(e), DelayEscape(it.delay))
    case DecodedNull => TurnResult(None, DelayEscape(it.delay))
    case ConsumeThrew(ex) =>
      if FirstMatch(InnerCatches, ex).Some? then TurnResult(None, DelayEscape(it.delay)) else TurnResult(None, Some(ex))
    case DecodeThrew(ex) =>
      if FirstMatch(InnerCatches, ex).Some? then TurnResult(None, DelayEscape(it.delay)) else TurnResult(None, Some(ex))
  }

  /** What the catch clause around the loop makes of an exception leaving it. */
  function OuterExit(ex: ExceptionType): (r: Exit)
    ensures r == Stopped <==> IsA(ex, OperationCanceledException)
    ensures r != Stopped ==> r == Faulted(ex)
  {
    if FirstMatch(OuterCatches, ex).Some? then Stopped else Faulted(ex)
  }

  datatype RunResult = RunResult(appended: seq<UserEvent>, polls: nat, exit: Exit)

  function AsSeq(o: Option<UserEvent>): seq<UserEvent>
  {
    match o
    case None => []
    case Some(e) => [e]
  }

  /**
   * The loop run against a script: the events appended (in order), the number of
   * Consume calls, and how it ended. An exhausted script leaves it Running.
   */
  function Run(iters: seq<Iteration>): (r: RunResult)
    ensures |r.appended| <= r.polls <= |iters|
    ensures r.exit == Running ==> r.polls == |iters|
  {
    if iters == [] then RunResult([], 0, Running)
    else if iters[0].cancellationRequested then RunResult([], 0, Stopped)
    else
      var t := Turn(iters[0]);
      if t.escaped.Some? then RunResult(AsSeq(t.appended), 1, OuterExit(t.escaped.value))
      else
        var rest := Run(iters[1..]);
        RunResult(AsSeq(t.appended) + rest.appended, 1 + rest.polls, rest.exit)
  }

  /** How a single non-cancelled turn ends, as Run sees it. */
  function TurnExit(it: Iteration): Exit
  {
    match Turn(it).escaped
    case None => Running
    case Some(ex) => OuterExit(ex)
  }

  /** The events of the decoded records in a stretch of the script, in order. */
  function DecodedEvents(iters: seq<Iteration>): seq<UserEvent>
  {
    if iters == [] then []
    else (if iters[0].poll.Decoded? then [iters[0].poll.evt] else []) + DecodedEvents(iters[1..])
  }

  lemma {:induction false} DecodedEventsAppend(a: seq<Iteration>, b: seq<Iteration>)
    ensures DecodedEvents(a + b) == DecodedEvents(a) + DecodedEvents(b)
  {
    if a == [] {
      assert a + b == b;
    } else {
      assert (a + b)[0] == a[0] && (a + b)[1..] == a[1..] + b;
      DecodedEventsAppend(a[1..], b);
    }
  }

  /**
   * The store receives exactly the events of the decoded records among the
   * polled ones, each once, in consumption order: null results, null decodes and
   * exceptions add nothing.
   */
  lemma {:induction false} AppendedAreTheDecodedPolls(iters: seq<Iteration>)
    ensures Run(iters).appended == DecodedEvents(iters[..Run(iters).polls])
  {
    if iters != [] && !iters[0].cancellationRequested {
      var t := Turn(iters[0]);
      assert AsSeq(t.appended) == DecodedEvents([iters[0]]);
      if t.escaped.None? {
        var p := Run(iters[1..]).polls;
        AppendedAreTheDecodedPolls(iters[1..]);
        assert iters[..1 + p] == [iters[0]] + iters[1..][..p];
        DecodedEventsAppend([iters[0]], iters[1..][..p]);
      } else {
        assert iters[..1] == [iters[0]];
      }
    }
  }

  /** Running two scripts back to back: the second only runs if the first left the loop running. */
  lemma RunConcat(a: seq<Iteration>, b: seq<Iteration>)
    ensures Run(a + b) ==
              if Run(a).exit == Running
              then RunResult(Run(a).appended + Run(b).appended, Run(a).polls + Run(b).polls, Run(b).exit)
              else Run(a)
  {
    if Run(a).exit == Running {
      RunConcatWhileRunning(a, b);
    } else {
      RunConcatAfterExit(a, b);
    }
  }

  lemma {:induction false} RunConcatAfterExit(a: seq<Iteration>, b: seq<Iteration>)
    requires Run(a).exit != Running
    ensures Run(a + b) == Run(a)
  {
    var ab := a + b;
    assert ab[0] == a[0] && ab[1..] == a[1..] + b;
    if !a[0].cancellationRequested && Turn(a[0]).escaped.None? {
      RunConcatAfterExit(a[1..], b);
    }
  }

  lemma {:induction false} RunConcatWhileRunning(a: seq<Iteration>, b: seq<Iteration>)
    requires Run(a).exit == Running
    ensures Run(a + b).appended == Run(a).appended + Run(b).appended
    ensures Run(a + b).polls == Run(a).polls + Run(b).polls
    ensures Run(a + b).exit == Run(b).exit
  {
    if a == [] {
      assert a + b == b;
    } else {
      var ab := a + b;
      assert ab[0] == a[0] && ab[1..] == a[1..] + b;
      var head := AsSeq(Turn(a[0]).appended);
      RunConcatWhileRunning(a[1..], b);
      assert head + Run(a[1..] + b).appended == (head + Run(a[1..]).appended) + Run(b).appended;
    }
  }

  /** Extending a still-running prefix of the script by one polled turn. */
  lemma RunSnoc(iters: seq<Iteration>, i: nat)
    requires i < |iters| && !iters[i].cancellationRequested && Run(iters[..i]).exit == Running
    ensures Run(iters[..i + 1]) ==
              RunResult(Run(iters[..i]).appended + AsSeq(Turn(iters[i]).appended), Run(iters[..i]).polls + 1, TurnExit(iters[i]))
  {
    assert iters[..i + 1] == iters[..i] + [iters[i]];
    RunConcatWhileRunning(iters[..i], [iters[i]]);
    assert [iters[i]][1..] == [];
  }

  /** The whole script's run, from the run of a prefix at which the loop stopped polling. */
  lemma RunFromPrefix(iters: seq<Iteration>, i: nat)
    requires i <= |iters|
    requires i < |iters| && Run(iters[..i]).exit == Running ==> iters[i].cancellationRequested
    ensures Run(iters) == if Run(iters[..i]).exit == Running && i < |iters|
                          then RunResult(Run(iters[..i]).appended, Run(iters[..i]).polls, Stopped)
                          else Run(iters[..i])
  {
    assert iters == iters[..i] + iters[i..];
    RunConcat(iters[..i], iters[i..]);
    if i < |iters| {
      assert iters[i..][0] == iters[i];
      assert Run(iters[..i]).appended + [] == Run(iters[..i]).appended;
    } else {
      assert iters[i..] == [];
      assert Run(iters[..i]).appended + [] == Run(iters[..i]).appended;
    }
  }

  /** A turn that ends the loop: the token was cancelled, or an exception left the loop body. */
  predicate EndsLoop(it: Iteration)
  {
    it.cancellationRequested || Turn(it).escaped.Some?
  }

  /**
   * The loop ends at the first turn that ends it, and only there: a cancelled
   * token or an OperationCanceledException stops it cleanly, any other escaping
   * exception faults it; that turn is polled unless the token was already cancelled.
   */
  lemma {:induction false} RunEndsAtFirstEndingTurn(iters: seq<Iteration>, k: nat)
    requires k < |iters| && EndsLoop(iters[k])
    requires forall j :: 0 <= j < k ==> !EndsLoop(iters[j])
    ensures Run(iters).polls == if iters[k].cancellationRequested then k else k + 1
    ensures iters[k].cancellationRequested ==> Run(iters).exit == Stopped
    ensures !iters[k].cancellationRequested ==> Run(iters).exit == OuterExit(Turn(iters[k]).escaped.value)
  {
    if k > 0 {
      assert !EndsLoop(iters[0]);
      assert forall j :: 0 <= j < k - 1 ==> iters[1..][j] == iters[j + 1];
      RunEndsAtFirstEndingTurn(iters[1..], k - 1);
    }
  }

  /** Without an ending turn the loop polls every turn, appends every decoded event, and is still running. */
  lemma {:induction false} RunWithoutEndingTurn(iters: seq<Iteration>)
    requires forall j :: 0 <= j < |iters| ==> !EndsLoop(iters[j])
    ensures Run(iters).exit == Running && Run(iters).polls == |iters|
    ensures Run(iters).appended == DecodedEvents(iters)
  {
    if iters != [] {
      assert forall j :: 0 <= j < |iters| - 1 ==> iters[1..][j] == iters[j + 1];
      RunWithoutEndingTurn(iters[1..]);
    }
  }

  /**
   * A ConsumeException (or a subclass) is logged and swallowed: the turn counts
   * one poll, adds nothing, and the loop carries on with the rest of the script
   * exactly as if that turn had not happened.
   */
  lemma ConsumeErrorIsSwallowed(it: Iteration, rest: seq<Iteration>)
    requires !it.cancellationRequested && it.delay == Elapsed
    requires it.poll.ConsumeThrew? && IsA(it.poll.ex, ConsumeException)
    ensures var r := Run([it] + rest);
            r.appended == Run(rest).appended && r.polls == 1 + Run(rest).polls && r.exit == Run(rest).exit
  {
    assert ([it] + rest)[0] == it && ([it] + rest)[1..] == rest;
  }

  /**
   * A malformed record ends the loop: the JsonException from Deserialize is not a
   * ConsumeException, passes the outer clause too, and escapes; the valid record
   * behind it is never read.
   */
  lemma MalformedRecordEndsLoop(e: UserEvent)
    ensures var r := Run([Iteration(false, DecodeThrew(JsonException), Elapsed), Iteration(false, Decoded(e), Elapsed)]);
            r.appended == [] && r.polls == 1 && r.exit == Faulted(JsonException)
  {
    assert !IsA(JsonException, ConsumeException);
    assert !IsA(JsonException, OperationCanceledException);
  }

  /** A cancellation during the delay stops the loop cleanly, after the event just read was appended. */
  lemma CancelledDelayStopsAfterAppend(e: UserEvent, rest: seq<Iteration>)
    ensures var r := Run([Iteration(false, Decoded(e), DelayThrew(TaskCanceledException))] + rest);
            r.appended == [e] && r.polls == 1 && r.exit == Stopped
  {
    assert IsA(TaskCanceledException, OperationCanceledException);
  }

  /** The calls made on the Kafka consumer handle. */
  datatype ClientCall = SubscribeCall(topic: string) | ConsumeCall | CloseCall | DisposeCall

  function ConsumeCalls(n: nat): (r: seq<ClientCall>)
    ensures |r| == n && forall i :: 0 <= i < n ==> r[i] == ConsumeCall
  {
    if n == 0 then [] else ConsumeCalls(n - 1) + [ConsumeCall]
  }

  /** Subscribe, `polls` Consume calls, then Close and Dispose once the loop is left. */
  function ExpectedCalls(topic: string, polls: nat, exited: bool): seq<ClientCall>
  {
    [SubscribeCall(topic)] + ConsumeCalls(polls) + (if exited then [CloseCall, DisposeCall] else [])
  }

  /**
   * Subscribe is the first call and is made once; Close and Dispose come last, in
   * that order, exactly when the loop was left; every call between is a Consume.
   */
  lemma ExpectedCallsOrder(topic: string, polls: nat, exited: bool)
    ensures var c := ExpectedCalls(topic, polls, exited);
            && c[0] == SubscribeCall(topic)
            && (forall i :: 0 < i < |c| ==> !c[i].SubscribeCall?)
            && (forall i :: 1 <= i <= polls ==> c[i] == ConsumeCall)
            && |c| == 1 + polls + (if exited then 2 else 0)
            && (exited ==> c[|c| - 2] == CloseCall && c[|c| - 1] == DisposeCall)
  {
    var c := ExpectedCalls(topic, polls, exited);
    forall i | 0 < i < |c| ensures !c[i].SubscribeCall? {
      if i <= polls {
        assert c[i] == ConsumeCalls(polls)[i - 1];
      }
    }
  }

  /** The consumer handle, as the log of calls made on it. */
  class ConsumerClient {
    var calls: seq<ClientCall>
    var disposed: bool

    constructor ()
      ensures calls == [] && !disposed
    {
      calls := [];
      disposed := false;
    }

    method Subscribe(topic: string)
      requires !disposed
      modifies this
      ensures calls == old(calls) + [SubscribeCall(topic)] && !disposed
    {
      calls := calls + [SubscribeCall(topic)];
    }

    method Consume()
      requires !disposed
      modifies this
      ensures calls == old(calls) + [ConsumeCall] && !disposed
    {
      calls := calls + [ConsumeCall];
    }

    method Close()
      requires !disposed
      modifies this
      ensures calls == old(calls) + [CloseCall] && !disposed
    {
      calls := calls + [CloseCall];
    }

    method Dispose()
      modifies this
      ensures calls == old(calls) + [DisposeCall] && disposed
    {
      calls := calls + [DisposeCall];
      disposed := true;
    }
  }

  class KafkaConsumerHostedService {
    const store: InMemoryProcessedEventStore
    const consumer: ConsumerClient
    const topic: string

    constructor (store: InMemoryProcessedEventStore, topic: string)
      ensures this.store == store && this.topic == topic
      ensures fresh(consumer) && consumer.calls == [] && !consumer.disposed
    {
      this.store := store;
      this.topic := topic;
      consumer := new ConsumerClient();
    }

    /**
     * One pass through the loop body after the loop test: poll, dispatch the
     * record, catch what the inner catch clause catches, then wait. Returns the
     * exception that leaves the body, if any.
     */
    method LoopBody(it: Iteration) returns (escaped: Option<ExceptionType>)
      requires !consumer.disposed
      modifies store, consumer
      ensures escaped == Turn(it).escaped
      ensures store.events == old(store.events) + AsSeq(Turn(it).appended)
      ensures consumer.calls == old(consumer.calls) + [ConsumeCall] && !consumer.disposed
    {
      consumer.Consume();
      // what Consume or Deserialize threw, and whether `continue` skips the delay
      var thrown: Option<ExceptionType> := None;
      var skipDelay := false;
      match it.poll {
        case NoValue =>
          skipDelay := true;
        case Decoded(e) =>
          store.Append(e);
        case DecodedNull =>
        case ConsumeThrew(ex) =>
          thrown := Some(ex);
        case DecodeThrew(ex) =>
          thrown := Some(ex);
      }
      escaped := None;
      if thrown.Some? && FirstMatch(InnerCatches, thrown.value).None? {
        escaped := thrown;
      } else if !skipDelay && it.delay.DelayThrew? {
        escaped := Some(it.delay.ex);
      }
    }

    /**
     * ExecuteAsync against the script `iters`: the store receives exactly the
     * events Run says, in order; the handle sees Subscribe first, one Consume per
     * polled turn, and Close then Dispose on every way out of the loop.
     */
    method ExecuteAsync(iters: seq<Iteration>) returns (exit: Exit)
      requires consumer.calls == [] && !consumer.disposed
      modifies store, consumer
      ensures exit == Run(iters).exit
      ensures store.events == old(store.events) + Run(iters).appended
      ensures consumer.calls == ExpectedCalls(topic, Run(iters).polls, exit != Running)
      ensures consumer.disposed <==> exit != Running
    {
      consumer.Subscribe(topic);
      var i, polls := 0, 0;
      ghost var added: seq<UserEvent> := [];
      var escaped: Option<ExceptionType> := None;
      assert iters[..0] == [];
      while i < |iters| && !iters[i].cancellationRequested && escaped.None?
        invariant 0 <= i <= |iters|
        invariant !consumer.disposed
        invariant consumer.calls == [SubscribeCall(topic)] + ConsumeCalls(polls)
        invariant store.events == old(store.events) + added
        invariant Run(iters[..i]) == RunResult(added, polls, if escaped.Some? then OuterExit(escaped.value) else Running)
      {
        RunSnoc(iters, i);
        ghost var turn := Turn(iters[i]);
        escaped := LoopBody(iters[i]);
        assert ConsumeCalls(polls + 1) == ConsumeCalls(polls) + [ConsumeCall];
        polls := polls + 1;
        added := added + AsSeq(turn.appended);
        i := i + 1;
      }
      RunFromPrefix(iters, i);
      if escaped.Some? {
        exit := OuterExit(escaped.value);
      } else if i < |iters| {
        exit := Stopped;
      } else {
        exit := Running;
      }
      if exit != Running {
        consumer.Close();
        consumer.Dispose();
      }
    }
  }
}
