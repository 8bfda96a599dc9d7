/**
 * The in-memory store of processed events: an append-only queue, read back
 * newest first. Nothing is ever removed.
 */
module ProcessedEventStore {
  import opened Events

  function Min(a: int, b: int): int
  {
    if a <= b then a else b
  }

  /** `Enumerable.Reverse`: the same elements, last first. */
  function Reverse<T>(s: seq<T>): (r: seq<T>)
    ensures |r| == |s|
    ensures forall i :: 0 <= i < |s| ==> r[i] == s[|s| - 1 - i]
  {
    if s == [] then [] else Reverse(s[1..]) + [s[0]]
  }

  /** `Enumerable.Take`: the first `n` elements, all of them when `n` exceeds the count, none when `n <= 0`. */
  function Take<T>(s: seq<T>, n: int): (r: seq<T>)
    ensures |r| == if n <= 0 then 0 else Min(n, |s|)
    ensures r == s[..|r|]
  {
    if n <= 0 then [] else if n >= |s| then s else s[..n]
  }

  class InMemoryProcessedEventStore {
    /** The queue's contents in arrival order, oldest first. */
    var events: seq<UserEvent>

    constructor ()
      ensures events == []
    {
      events := [];
    }

    /** Enqueue at the newest end; duplicates are kept as separate entries. */
    method Append(evt: UserEvent)
      modifies this
      ensures events == old(events) + [evt]
    {
      events := events + [evt];
    }

    /** The `limit` most recent events, newest first; fewer when fewer are stored, none when `limit <= 0`. */
    function GetRecent(limit: int): (r: seq<UserEvent>)
      reads this
      ensures |r| == if limit <= 0 then 0 else Min(limit, |events|)
      ensures forall i :: 0 <= i < |r| ==> r[i] == events[|events| - 1 - i]
    {
      Take(Reverse(events), limit)
    }
  }

  /** After `es` have been appended (on top of anything older), reading `|es|` yields them newest first. */
  lemma RecentAfterAppends(st: InMemoryProcessedEventStore, older: seq<UserEvent>, es: seq<UserEvent>)
    requires st.events == older + es
    ensures st.GetRecent(|es|) == Reverse(es)
  {
    NewestSuffixReversed(older, es);
  }

  lemma NewestSuffixReversed<T>(older: seq<T>, es: seq<T>)
    ensures Take(Reverse(older + es), |es|) == Reverse(es)
  {
    ReversedSuffix(older + es, es, Reverse(older + es), Reverse(es));
  }

  /** The first `|es|` elements of the reversal of `older + es` are the reversal of `es`. */
  lemma ReversedSuffix<T>(all: seq<T>, es: seq<T>, rev: seq<T>, tail: seq<T>)
    requires |es| <= |all| && all[|all| - |es|..] == es
    requires |rev| == |all| && forall i :: 0 <= i < |all| ==> rev[i] == all[|all| - 1 - i]
    requires |tail| == |es| && forall i :: 0 <= i < |es| ==> tail[i] == es[|es| - 1 - i]
    ensures rev[..|es|] == tail
  {
    forall i | 0 <= i < |es| ensures rev[i] == tail[i] {
      assert all[|all| - 1 - i] == all[|all| - |es|..][|es| - 1 - i];
    }
  }

  /** A limit at or beyond the count returns every stored event: nothing has been evicted. */
  lemma RecentBeyondCountIsEverything(st: InMemoryProcessedEventStore, k: int)
    requires k >= |st.events|
    ensures st.GetRecent(k) == Reverse(st.events)
    ensures multiset(st.GetRecent(k)) == multiset(st.events)
  {
    RecentAfterAppends(st, [], st.events);
    assert [] + st.events == st.events;
    ReverseIsPermutation(st.events);
  }

  lemma {:induction false} ReverseIsPermutation<T>(s: seq<T>)
    ensures multiset(Reverse(s)) == multiset(s)
  {
    if s != [] {
      ReverseIsPermutation(s[1..]);
      assert s == [s[0]] + s[1..];
    }
  }

  /** A smaller limit reads a prefix of what a larger one reads. */
  lemma RecentIsMonotone(st: InMemoryProcessedEventStore, j: int, k: int)
    requires j <= k
    ensures st.GetRecent(j) <= st.GetRecent(k)
  {
    var a, b := st.GetRecent(j), st.GetRecent(k);
    assert |a| <= |b|;
    forall i | 0 <= i < |a| ensures a[i] == b[i] { }
  }

  /** Appending the same event twice stores two entries; both come back. */
  lemma DuplicatesAreKept(st: InMemoryProcessedEventStore, older: seq<UserEvent>, e: UserEvent)
    requires st.events == older + [e] + [e]
    ensures st.GetRecent(2) == [e, e]
    ensures multiset(st.events)[e] == multiset(older)[e] + 2
  {
    RecentAfterAppends(st, older, [e, e]);
    assert older + [e] + [e] == older + [e, e];
  }
}
