/**
 * The three parts together: an event accepted by POST, read off the log by the
 * consumer and appended to the store, is what GET returns.
 */
module Pipeline {
  import opened Wrappers
  import opened Events
  import opened ProcessedEventStore
  import opened EventsController
  import opened KafkaConsumer

  /** Once the consumer has appended a record's event, GET with limit 1 returns just that event. */
  lemma ConsumedEventIsNewest(st: InMemoryProcessedEventStore, older: seq<UserEvent>, e: UserEvent)
    requires st.events == older + Run([Iteration(false, Decoded(e), Elapsed)]).appended
    ensures Get(st, Some(1)) == [e]
  {
    var iters := [Iteration(false, Decoded(e), Elapsed)];
    assert iters[1..] == [];
    assert Run(iters).appended == [e];
    RecentAfterAppends(st, older, [e]);
    assert Reverse([e]) == [e];
  }

  /**
   * POST {" alice ", "LOGIN"} is accepted; once the consumer has read that record,
   * GET ?limit=1 returns the normalised event ("alice", "login").
   */
  lemma AliceRoundTrip(st: InMemoryProcessedEventStore, older: seq<UserEvent>, now: Timestamp)
    requires var posted := Post(IngestEventRequest(Some(" alice "), Some("LOGIN"), None, None), true, now, Published);
             posted.published.Some? &&
             st.events == older + Run([Iteration(false, Decoded(posted.published.value), Elapsed)]).appended
    ensures StatusCode(Post(IngestEventRequest(Some(" alice "), Some("LOGIN"), None, None), true, now, Published).response) == 202
    ensures Get(st, Some(1)) == [UserEvent("alice", "login", now, None)]
  {
    AliceLogsIn(now);
    ConsumedEventIsNewest(st, older, UserEvent("alice", "login", now, None));
  }
}
