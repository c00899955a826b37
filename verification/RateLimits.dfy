/**
 * The in-memory rate-limit index (packages/db/src/memory.ts): one scope, keys kept in insertion
 * order, hits swept once a minute, the oldest keys evicted beyond a size cap. The specification
 * is the plain, never pruned list of every hit.
 */
module RateLimits {
  import opened Wrappers
  import opened SlidingWindow

  const RETENTION_MS: int := 60 * 60 * 1000
  const SWEEP_GAP_MS: int := 60_000
  const MAX_KEYS: nat := 10_000

  datatype Entry = Entry(key: string, times: seq<int>)
  datatype Hit = Hit(key: string, at: int)

  /** `rateLimitWindowStart`: refuses a window the retention does not cover */
  function WindowStart(windowMs: int, now: int): (since: Option<int>)
    ensures since.None? <==> windowMs > 3_600_000
    ensures since.Some? ==> since.value == now - windowMs >= now - 3_600_000
  {
    if windowMs > RETENTION_MS then None else Some(now - windowMs)
  }

  // ----- The specification: the full log of hits -----

  /** The hits of `key`, or of every key */
  function TimesOf(history: seq<Hit>, key: Option<string>): seq<int> {
    if history == [] then []
    else
      var last := history[|history| - 1];
      var rest := TimesOf(history[..|history| - 1], key);
      if key == None || key == Some(last.key) then rest + [last.at] else rest
  }

  /** Hits of `key` (or of every key) strictly after `since` */
  function CountAfter(history: seq<Hit>, key: Option<string>, since: int): nat {
    if history == [] then 0
    else
      var last := history[|history| - 1];
      CountAfter(history[..|history| - 1], key, since) +
      if last.at > since && (key == None || key == Some(last.key)) then 1 else 0
  }

  /** Where the log holds a hit of `key`, or of any key, after `since` */
  function PlacesAfter(history: seq<Hit>, key: Option<string>, since: int): set<nat> {
    set i: nat | i < |history| && history[i].at > since && (key == None || key == Some(history[i].key))
  }

  lemma PlacesWithLast(history: seq<Hit>, key: Option<string>, since: int)
    requires history != []
    ensures var n := |history| - 1;
            var before := PlacesAfter(history[..n], key, since);
            && n !in before
            && PlacesAfter(history, key, since) ==
               if history[n].at > since && (key == None || key == Some(history[n].key)) then before + {n} else before
  {
    var n := |history| - 1;
    forall i: nat | i < n ensures i in PlacesAfter(history, key, since) <==> i in PlacesAfter(history[..n], key, since) {
      assert history[..n][i] == history[i];
    }
  }

  lemma {:induction false} CountIsOfPlaces(history: seq<Hit>, key: Option<string>, since: int)
    ensures CountAfter(history, key, since) == |PlacesAfter(history, key, since)|
  {
    if history != [] {
      CountIsOfPlaces(history[..|history| - 1], key, since);
      PlacesWithLast(history, key, since);
    }
  }

  // ----- The index -----

  function After(times: seq<int>, since: int): seq<int> {
    if times == [] then []
    else
      var rest, last := After(times[..|times| - 1], since), times[|times| - 1];
      if last > since then rest + [last] else rest
  }

  function IndexCount(entries: seq<Entry>, key: Option<string>, since: int): nat {
    if entries == [] then 0
    else
      var last := entries[|entries| - 1];
      IndexCount(entries[..|entries| - 1], key, since) +
      if key == None || key == Some(last.key) then |After(last.times, since)| else 0
  }

  function Swept(entries: seq<Entry>, since: int): seq<Entry> {
    if entries == [] then []
    else
      var rest, last := Swept(entries[..|entries| - 1], since), entries[|entries| - 1];
      var recent := After(last.times, since);
      if recent != [] then rest + [Entry(last.key, recent)] else rest
  }

  ghost predicate DistinctKeys(entries: seq<Entry>) {
    forall i, j :: 0 <= i < j < |entries| ==> entries[i].key != entries[j].key
  }

  ghost predicate AllAfter(entries: seq<Entry>, cutoff: int) {
    forall i :: 0 <= i < |entries| ==>
      entries[i].times != [] && forall k :: 0 <= k < |entries[i].times| ==> entries[i].times[k] > cutoff
  }

  ghost predicate AgreesAt(entries: seq<Entry>, history: seq<Hit>, key: Option<string>, since: int) {
    IndexCount(entries, key, since) == CountAfter(history, key, since)
  }

  /** The index answers every question about times at or after `cutoff` as the full log would */
  ghost predicate Agrees(entries: seq<Entry>, history: seq<Hit>, cutoff: int) {
    && AllAfter(entries, cutoff)
    && forall key, since :: since >= cutoff ==> AgreesAt(entries, history, key, since)
  }

  // ----- What sweeping and appending do to the counts -----

  lemma {:induction false} AfterKeeps(times: seq<int>, since: int)
    ensures forall k :: 0 <= k < |After(times, since)| ==> After(times, since)[k] > since
    ensures |After(times, since)| <= |times|
  {
    if times != [] {
      AfterKeeps(times[..|times| - 1], since);
    }
  }

  lemma {:induction false} AfterAll(times: seq<int>, since: int)
    requires forall k :: 0 <= k < |times| ==> times[k] > since
    ensures After(times, since) == times
  {
    if times != [] {
      var n := |times| - 1;
      AfterAll(times[..n], since);
      assert times == times[..n] + [times[n]];
    }
  }

  lemma {:induction false} AfterTwice(times: seq<int>, since: int, later: int)
    requires since <= later
    ensures After(After(times, since), later) == After(times, later)
  {
    if times != [] {
      var n := |times| - 1;
      AfterTwice(times[..n], since, later);
      var a := After(times[..n], since);
      if times[n] > since {
        assert After(times, since) == a + [times[n]];
        assert (a + [times[n]])[..|a|] == a;
      } else {
        assert After(times, since) == a;
      }
    }
  }

  lemma {:induction false} SweptCounts(entries: seq<Entry>, since: int, key: Option<string>, later: int)
    requires since <= later
    ensures IndexCount(Swept(entries, since), key, later) == IndexCount(entries, key, later)
  {
    if entries != [] {
      var n := |entries| - 1;
      SweptCounts(entries[..n], since, key, later);
      KeptCounts(Swept(entries[..n], since), entries[n], since, key, later);
    }
  }

  /** What the last entry still counts for once it has been swept */
  lemma KeptCounts(swept: seq<Entry>, last: Entry, since: int, key: Option<string>, later: int)
    requires since <= later
    ensures var recent := After(last.times, since);
            IndexCount(if recent != [] then swept + [Entry(last.key, recent)] else swept, key, later) ==
            IndexCount(swept, key, later) + if key == None || key == Some(last.key) then |After(last.times, later)| else 0
  {
    var recent := After(last.times, since);
    AfterTwice(last.times, since, later);
    if recent != [] {
      IndexCountConcat(swept, [Entry(last.key, recent)], key, later);
      IndexCountOne(Entry(last.key, recent), key, later);
    }
  }

  function Keys(entries: seq<Entry>): set<string> {
    if entries == [] then {} else Keys(entries[..|entries| - 1]) + {entries[|entries| - 1].key}
  }

  lemma {:induction false} KeysAreKeys(entries: seq<Entry>, key: string)
    ensures key in Keys(entries) <==> exists i :: 0 <= i < |entries| && entries[i].key == key
  {
    if entries != [] {
      var n := |entries| - 1;
      KeysAreKeys(entries[..n], key);
      if i :| 0 <= i < |entries| && entries[i].key == key {
        assert i < n ==> entries[..n][i].key == key;
      }
    }
  }

  lemma DistinctLast(entries: seq<Entry>)
    requires entries != [] && DistinctKeys(entries)
    ensures DistinctKeys(entries[..|entries| - 1])
    ensures entries[|entries| - 1].key !in Keys(entries[..|entries| - 1])
  {
    KeysAreKeys(entries[..|entries| - 1], entries[|entries| - 1].key);
  }

  lemma DistinctAppend(entries: seq<Entry>, last: Entry)
    requires DistinctKeys(entries) && last.key !in Keys(entries)
    ensures DistinctKeys(entries + [last])
  {
    KeysAreKeys(entries, last.key);
  }

  lemma KeysAppend(entries: seq<Entry>, last: Entry)
    ensures Keys(entries + [last]) == Keys(entries) + {last.key}
  {
    assert (entries + [last])[..|entries|] == entries;
  }

  lemma {:induction false} SweptKeys(entries: seq<Entry>, since: int)
    ensures |Swept(entries, since)| <= |entries| && Keys(Swept(entries, since)) <= Keys(entries)
  {
    if entries != [] {
      var n := |entries| - 1;
      SweptKeys(entries[..n], since);
      assert entries == entries[..n] + [entries[n]];
      KeysAppend(entries[..n], entries[n]);
      KeysAppend(Swept(entries[..n], since), Entry(entries[n].key, After(entries[n].times, since)));
    }
  }

  lemma SweptOneMore(swept: seq<Entry>, key: string, recent: seq<int>, since: int)
    requires DistinctKeys(swept) && AllAfter(swept, since) && key !in Keys(swept)
    requires recent != [] && forall i :: 0 <= i < |recent| ==> recent[i] > since
    ensures DistinctKeys(swept + [Entry(key, recent)]) && AllAfter(swept + [Entry(key, recent)], since)
  {
    DistinctAppend(swept, Entry(key, recent));
  }

  lemma {:induction false} SweptShape(entries: seq<Entry>, since: int)
    requires DistinctKeys(entries)
    ensures DistinctKeys(Swept(entries, since)) && AllAfter(Swept(entries, since), since)
    ensures |Swept(entries, since)| <= |entries|
  {
    SweptKeys(entries, since);
    if entries != [] {
      var n := |entries| - 1;
      DistinctLast(entries);
      SweptShape(entries[..n], since);
      SweptKeys(entries[..n], since);
      var recent := After(entries[n].times, since);
      if recent != [] {
        AfterKeeps(entries[n].times, since);
        SweptOneMore(Swept(entries[..n], since), entries[n].key, recent, since);
      }
    }
  }

  lemma SweptAgrees(entries: seq<Entry>, history: seq<Hit>, cutoff: int, since: int)
    requires DistinctKeys(entries) && Agrees(entries, history, cutoff) && cutoff <= since
    ensures Agrees(Swept(entries, since), history, since)
  {
    SweptShape(entries, since);
    forall key, later | later >= since ensures AgreesAt(Swept(entries, since), history, key, later) {
      SweptCounts(entries, since, key, later);
      assert AgreesAt(entries, history, key, later);
    }
  }

  /** Position of `key`, or the number of entries when it is not tracked */
  function IndexOf(entries: seq<Entry>, key: string): (i: nat)
    ensures i <= |entries|
    ensures i < |entries| ==> entries[i].key == key
    ensures i == |entries| ==> forall j :: 0 <= j < |entries| ==> entries[j].key != key
  {
    if entries == [] then 0
    else if entries[0].key == key then 0
    else 1 + IndexOf(entries[1..], key)
  }

  /** `keys.delete(key); keys.set(key, [...times, at])`: the key moves to the end with one more hit */
  function Touched(entries: seq<Entry>, key: string, at: int): seq<Entry> {
    var i := IndexOf(entries, key);
    if i == |entries| then entries + [Entry(key, [at])]
    else entries[..i] + entries[i + 1..] + [Entry(key, entries[i].times + [at])]
  }

  lemma {:induction false} IndexCountConcat(a: seq<Entry>, b: seq<Entry>, key: Option<string>, since: int)
    ensures IndexCount(a + b, key, since) == IndexCount(a, key, since) + IndexCount(b, key, since)
  {
    if b == [] {
      assert a + b == a;
    } else {
      var n := |b| - 1;
      IndexCountConcat(a, b[..n], key, since);
      assert (a + b)[..|a + b| - 1] == a + b[..n];
    }
  }

  lemma IndexCountOne(e: Entry, key: Option<string>, since: int)
    ensures IndexCount([e], key, since) ==
            if key == None || key == Some(e.key) then |After(e.times, since)| else 0
  {
    assert [e][..0] == [];
  }

  lemma AfterAppend(times: seq<int>, at: int, since: int)
    ensures After(times + [at], since) == After(times, since) + if at > since then [at] else []
  {
    assert (times + [at])[..|times|] == times;
  }

  lemma NewKeyCounts(entries: seq<Entry>, k: string, at: int, key: Option<string>, since: int)
    ensures IndexCount(entries + [Entry(k, [at])], key, since) ==
            IndexCount(entries, key, since) +
            if at > since && (key == None || key == Some(k)) then 1 else 0
  {
    IndexCountConcat(entries, [Entry(k, [at])], key, since);
    IndexCountOne(Entry(k, [at]), key, since);
    AfterAppend([], at, since);
    assert [] + [at] == [at];
  }

  /** Taking one entry out and putting another one last */
  lemma MovedCounts(a: seq<Entry>, e: Entry, b: seq<Entry>, e': Entry, key: Option<string>, since: int)
    ensures IndexCount(a + b + [e'], key, since) + IndexCount([e], key, since) ==
            IndexCount(a + ([e] + b), key, since) + IndexCount([e'], key, since)
  {
    IndexCountConcat(a, [e] + b, key, since);
    IndexCountConcat([e], b, key, since);
    IndexCountConcat(a + b, [e'], key, since);
    IndexCountConcat(a, b, key, since);
  }

  lemma KnownKeyCounts(entries: seq<Entry>, i: nat, k: string, at: int, key: Option<string>, since: int)
    requires i < |entries| && entries[i].key == k
    ensures IndexCount(entries[..i] + entries[i + 1..] + [Entry(k, entries[i].times + [at])], key, since) ==
            IndexCount(entries, key, since) +
            if at > since && (key == None || key == Some(k)) then 1 else 0
  {
    var e := entries[i];
    var e' := Entry(k, e.times + [at]);
    assert entries == entries[..i] + ([e] + entries[i + 1..]);
    MovedCounts(entries[..i], e, entries[i + 1..], e', key, since);
    IndexCountOne(e, key, since);
    IndexCountOne(e', key, since);
    AfterAppend(e.times, at, since);
  }

  lemma TouchedCounts(entries: seq<Entry>, k: string, at: int, key: Option<string>, since: int)
    ensures IndexCount(Touched(entries, k, at), key, since) ==
            IndexCount(entries, key, since) +
            if at > since && (key == None || key == Some(k)) then 1 else 0
  {
    var i := IndexOf(entries, k);
    if i == |entries| {
      NewKeyCounts(entries, k, at, key, since);
    } else {
      KnownKeyCounts(entries, i, k, at, key, since);
    }
  }

  lemma TouchedShape(entries: seq<Entry>, cutoff: int, k: string, at: int)
    requires DistinctKeys(entries) && AllAfter(entries, cutoff) && at > cutoff
    ensures DistinctKeys(Touched(entries, k, at)) && AllAfter(Touched(entries, k, at), cutoff)
    ensures |Touched(entries, k, at)| <= |entries| + 1
  {
    var i := IndexOf(entries, k);
    var t := Touched(entries, k, at);
    forall j | 0 <= j < |t|
      ensures t[j].times != [] && forall m :: 0 <= m < |t[j].times| ==> t[j].times[m] > cutoff
    {
      if j < |t| - 1 {
        assert t[j] == entries[if j < i then j else j + 1];
      }
    }
    if i < |entries| {
      forall j, l | 0 <= j < l < |t| ensures t[j].key != t[l].key {
        assert t[j] == entries[if j < i then j else j + 1];
        if l < |t| - 1 {
          assert t[l] == entries[if l < i then l else l + 1];
        } else {
          assert entries[i].key == t[l].key;
        }
      }
    }
  }

  lemma TouchedAgrees(entries: seq<Entry>, history: seq<Hit>, cutoff: int, k: string, at: int)
    requires DistinctKeys(entries) && Agrees(entries, history, cutoff) && at > cutoff
    ensures DistinctKeys(Touched(entries, k, at))
    ensures Agrees(Touched(entries, k, at), history + [Hit(k, at)], cutoff)
    ensures |Touched(entries, k, at)| <= |entries| + 1
  {
    TouchedShape(entries, cutoff, k, at);
    var h' := history + [Hit(k, at)];
    assert h'[..|history|] == history;
    forall key, since | since >= cutoff
      ensures AgreesAt(Touched(entries, k, at), h', key, since)
    {
      TouchedCounts(entries, k, at, key, since);
      assert AgreesAt(entries, history, key, since);
    }
  }

  /** No more keys are tracked than hits are held, since no tracked key is empty. */
  lemma {:induction false} KeysAtMostHits(entries: seq<Entry>, cutoff: int)
    requires AllAfter(entries, cutoff)
    ensures |entries| <= IndexCount(entries, None, cutoff)
  {
    if entries != [] {
      var n := |entries| - 1;
      AllAfterLast(entries, cutoff);
      KeysAtMostHits(entries[..n], cutoff);
      AfterAll(entries[n].times, cutoff);
    }
  }

  lemma {:induction false} CountAfterMonotone(history: seq<Hit>, key: Option<string>, since: int, later: int)
    requires since <= later
    ensures CountAfter(history, key, later) <= CountAfter(history, key, since)
  {
    if history != [] {
      CountAfterMonotone(history[..|history| - 1], key, since, later);
    }
  }

  /** Hits held, over all keys */
  function Held(entries: seq<Entry>): nat {
    if entries == [] then 0
    else Held(entries[..|entries| - 1]) + |entries[|entries| - 1].times|
  }

  lemma AllAfterLast(entries: seq<Entry>, cutoff: int)
    requires entries != [] && AllAfter(entries, cutoff)
    ensures AllAfter(entries[..|entries| - 1], cutoff)
    ensures var times := entries[|entries| - 1].times;
            times != [] && forall k :: 0 <= k < |times| ==> times[k] > cutoff
  {
  }

  lemma {:induction false} SweptIsIdle(entries: seq<Entry>, since: int, cutoff: int)
    requires AllAfter(entries, cutoff) && since <= cutoff
    ensures Swept(entries, since) == entries
  {
    if entries != [] {
      var n := |entries| - 1;
      AllAfterLast(entries, cutoff);
      SweptIsIdle(entries[..n], since, cutoff);
      AfterAll(entries[n].times, since);
      assert entries == entries[..n] + [Entry(entries[n].key, entries[n].times)];
    }
  }

  /** The index lists each key once and answers as the full log would */
  ghost predicate Sound(entries: seq<Entry>, history: seq<Hit>, cutoff: int) {
    DistinctKeys(entries) && Agrees(entries, history, cutoff)
  }

  function Later(a: int, b: int): int {
    if a > b then a else b
  }

  lemma SweptSound(entries: seq<Entry>, history: seq<Hit>, cutoff: int, since: int)
    requires Sound(entries, history, cutoff)
    ensures Sound(Swept(entries, since), history, Later(since, cutoff))
  {
    SweptShape(entries, since);
    if since >= cutoff {
      SweptAgrees(entries, history, cutoff, since);
    } else {
      SweptIsIdle(entries, since, cutoff);
    }
  }

  /** The index before a hit is added: swept when the last sweep is over a minute old */
  function SweptFirst(entries: seq<Entry>, sweptAt: int, at: int): seq<Entry> {
    if at - sweptAt > SWEEP_GAP_MS then Swept(entries, at - RETENTION_MS) else entries
  }

  /** The oldest keys beyond the cap are dropped */
  function Evicted(entries: seq<Entry>): seq<Entry> {
    if |entries| <= MAX_KEYS then entries else entries[|entries| - MAX_KEYS..]
  }

  /** What is left is the newest 10 000 keys, or all of them */
  lemma EvictedIsTheTail(entries: seq<Entry>)
    ensures |Evicted(entries)| == if |entries| < 10_000 then |entries| else 10_000
    ensures entries == entries[..|entries| - |Evicted(entries)|] + Evicted(entries)
  {
  }

  lemma FewHitsFewKeys(entries: seq<Entry>, history: seq<Hit>, cutoff: int, since: int)
    requires Agrees(entries, history, cutoff) && since <= cutoff && CountAfter(history, None, since) < MAX_KEYS
    ensures |entries| < MAX_KEYS
  {
    KeysAtMostHits(entries, cutoff);
    assert AgreesAt(entries, history, None, cutoff);
    CountAfterMonotone(history, None, since, cutoff);
  }

  /** Fewer than 10 000 hits in the retention plus one sweep gap: nothing is evicted, the index stays sound. */
  lemma TouchedSound(entries: seq<Entry>, history: seq<Hit>, cutoff: int, key: string, at: int)
    ensures Sound(entries, history, cutoff) && at - RETENTION_MS - SWEEP_GAP_MS <= cutoff < at &&
            CountAfter(history, None, at - RETENTION_MS - SWEEP_GAP_MS) < MAX_KEYS
            ==> Sound(Evicted(Touched(entries, key, at)), history + [Hit(key, at)], cutoff)
  {
    if Sound(entries, history, cutoff) && at - RETENTION_MS - SWEEP_GAP_MS <= cutoff < at &&
       CountAfter(history, None, at - RETENTION_MS - SWEEP_GAP_MS) < MAX_KEYS {
      FewHitsFewKeys(entries, history, cutoff, at - RETENTION_MS - SWEEP_GAP_MS);
      TouchedAgrees(entries, history, cutoff, key, at);
    }
  }

  // ----- The store -----

  class MemoryRateLimits {
    /** The scope's `Map<key, times>` in insertion order */
    var entries: seq<Entry>
    /** When the retention sweep last ran */
    var sweptAt: int
    /** Every hit ever recorded */
    ghost var history: seq<Hit>
    /** Hits at or before this instant may have been dropped */
    ghost var cutoff: int

    /** Exact for every `since` the retention allows, as long as no key was evicted */
    ghost predicate Exact()
      reads this
    {
      Sound(entries, history, cutoff) && 0 <= sweptAt
    }

    constructor ()
      ensures Exact() && history == [] && sweptAt == 0 && cutoff == -RETENTION_MS
    {
      entries, sweptAt, history, cutoff := [], 0, [], -RETENTION_MS;
    }

    /** Counts by walking the index; equals the count over the full, unpruned log. */
    method Count(key: Option<string>, since: int) returns (n: nat)
      ensures n == IndexCount(entries, key, since)
      ensures Exact() && since >= cutoff ==> n == CountAfter(history, key, since)
    {
      n := 0;
      for i := 0 to |entries|
        invariant n == IndexCount(entries[..i], key, since)
      {
        assert entries[..i + 1][..i] == entries[..i];
        if key == None || key == Some(entries[i].key) {
          n := n + |After(entries[i].times, since)|;
        }
      }
      assert entries[..|entries|] == entries;
      assert Exact() && since >= cutoff ==> AgreesAt(entries, history, key, since);
    }

    /** Drops hits at or before `since` and keys left without any; says how many hits it removed. */
    method Sweep(since: int) returns (removed: nat)
      modifies `entries, `cutoff
      ensures entries == Swept(old(entries), since)
      ensures removed == Held(old(entries)) - Held(entries)
      ensures cutoff == Later(since, old(cutoff))
      ensures old(Exact()) ==> Exact()
    {
      ghost var before := entries;
      var kept: seq<Entry> := [];
      removed := 0;
      for i := 0 to |entries|
        invariant entries == before && cutoff == old(cutoff)
        invariant kept == Swept(before[..i], since)
        invariant removed == Held(before[..i]) - Held(kept)
      {
        assert before[..i + 1][..i] == before[..i];
        var recent := After(entries[i].times, since);
        AfterKeeps(entries[i].times, since);
        removed := removed + (|entries[i].times| - |recent|);
        if recent != [] {
          assert (kept + [Entry(entries[i].key, recent)])[..|kept|] == kept;
          kept := kept + [Entry(entries[i].key, recent)];
        }
      }
      assert before[..|before|] == before;
      if Sound(before, history, cutoff) {
        SweptSound(before, history, cutoff, since);
      }
      entries, cutoff := kept, Later(since, cutoff);
    }

    method Evict()
      modifies `entries
      ensures entries == Evicted(old(entries))
    {
      while |entries| > MAX_KEYS
        invariant |entries| <= |old(entries)| && entries == old(entries)[|old(entries)| - |entries|..]
        invariant |entries| >= MAX_KEYS || entries == old(entries)
        decreases |entries|
      {
        entries := entries[1..];
      }
    }

    /** The sweep that a hit runs first when the last one is over a minute old */
    method SweepWhenDue(at: int)
      requires at >= 0
      modifies `entries, `sweptAt, `cutoff
      ensures entries == SweptFirst(old(entries), old(sweptAt), at)
      ensures sweptAt == if at - old(sweptAt) > 60_000 then at else old(sweptAt)
      ensures cutoff == if at - old(sweptAt) > 60_000 then Later(at - 3_600_000, old(cutoff)) else old(cutoff)
      ensures old(Exact()) ==> Exact()
    {
      if at - sweptAt > SWEEP_GAP_MS {
        var _ := Sweep(at - RETENTION_MS);
        sweptAt := at;
      }
    }

    /**
     * Records a hit at `at`, sweeping first when the last sweep is over a minute old, and evicting
     * the oldest keys beyond the cap. Unless 10 000 hits fell within the retention plus one sweep
     * gap, nothing is evicted and the index stays exact.
     */
    method Record(key: string, at: int)
      requires at >= 0
      modifies this
      ensures entries == Evicted(Touched(SweptFirst(old(entries), old(sweptAt), at), key, at))
      ensures history == old(history) + [Hit(key, at)]
      ensures at - sweptAt <= 60_000
      ensures sweptAt == if at - old(sweptAt) > 60_000 then at else old(sweptAt)
      ensures cutoff == if at - old(sweptAt) > 60_000 then Later(at - 3_600_000, old(cutoff)) else old(cutoff)
      ensures old(Exact()) && at > old(cutoff) &&
              old(cutoff) >= old(sweptAt) - 3_600_000 &&
              CountAfter(old(history), None, at - 3_660_000) < 10_000
              ==> Exact() && cutoff >= sweptAt - 3_600_000
    {
      SweepWhenDue(at);
      ghost var swept, known := entries, history;
      entries, history := Touched(entries, key, at), history + [Hit(key, at)];
      Evict();
      TouchedSound(swept, known, cutoff, key, at);
    }

    /** `pruneExpired`: the housekeeping sweep; never changes an answer inside the retention. */
    method PruneExpired(now: int) returns (removed: nat)
      modifies `entries, `cutoff
      ensures entries == Swept(old(entries), now - 3_600_000)
      ensures removed == Held(old(entries)) - Held(entries)
      ensures cutoff == old(cutoff) || cutoff == now - 3_600_000
      ensures cutoff >= old(cutoff)
      ensures old(Exact()) ==> Exact()
    {
      removed := Sweep(now - RETENTION_MS);
    }
  }

  // ----- The full log as lists of times -----

  lemma {:induction false} TimesOfCount(history: seq<Hit>, key: Option<string>, lo: int, hi: int)
    requires forall i :: 0 <= i < |history| ==> history[i].at <= hi
    ensures CountIn(TimesOf(history, key), lo, hi) == CountAfter(history, key, lo)
  {
    if history != [] {
      var n := |history| - 1;
      TimesOfCount(history[..n], key, lo, hi);
      CountAppend(TimesOf(history[..n], key), history[n].at, lo, hi);
      assert history[n].at <= hi;
    }
  }

  lemma {:induction false} TimesOfBound(history: seq<Hit>, key: Option<string>, hi: int)
    requires forall i :: 0 <= i < |history| ==> history[i].at <= hi
    ensures forall i :: 0 <= i < |TimesOf(history, key)| ==> TimesOf(history, key)[i] <= hi
  {
    if history != [] {
      TimesOfBound(history[..|history| - 1], key, hi);
    }
  }

  // ----- The Postgres table: one row per hit, pruned by age -----

  /** `delete from rate_limits where hit_at < before` */
  function Pruned(rows: seq<Hit>, before: int): seq<Hit> {
    if rows == [] then []
    else
      var rest, last := Pruned(rows[..|rows| - 1], before), rows[|rows| - 1];
      if last.at < before then rest else rest + [last]
  }

  /** What is deleted is what is older than the instant, and nothing else. */
  lemma {:induction false} PrunedIsWhatIsLeft(rows: seq<Hit>, before: int)
    ensures forall hit :: multiset(Pruned(rows, before))[hit] == if hit.at < before then 0 else multiset(rows)[hit]
  {
    if rows != [] {
      var n := |rows| - 1;
      PrunedIsWhatIsLeft(rows[..n], before);
      assert rows == rows[..n] + [rows[n]];
    }
  }

  /** Pruning at the retention changes no count a limiter is allowed to ask for at or after `now`. */
  lemma {:induction false} PruneKeepsVerdicts(rows: seq<Hit>, now: int, key: Option<string>, windowMs: int, later: int)
    requires now <= later && WindowStart(windowMs, later).Some?
    ensures CountAfter(Pruned(rows, now - 3_600_000), key, WindowStart(windowMs, later).value) ==
            CountAfter(rows, key, WindowStart(windowMs, later).value)
  {
    if rows != [] {
      var n := |rows| - 1;
      PruneKeepsVerdicts(rows[..n], now, key, windowMs, later);
      var p := Pruned(rows[..n], now - RETENTION_MS);
      assert (p + [rows[n]])[..|p|] == p;
      assert p + [] == p;
    }
  }
}
