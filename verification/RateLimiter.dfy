// apps/indexer/src/rate-limit.ts: fixed windows per key over a bounded,
// insertion-ordered map.
module RateLimiting {
  import opened Prelude

  type Key = string

  datatype Bucket = Bucket(count: nat, resetAt: int)

  /** A JavaScript Map from keys to buckets, as its entries in iteration order. */
  datatype Entry = Entry(key: Key, bucket: Bucket)
  type Entries = seq<Entry>

  datatype Limiter = Limiter(entries: Entries, operations: nat)

  datatype Rules = Rules(limit: nat, windowMs: nat)

  datatype Answer = Answer(allowed: bool, retryAfter: nat)

  datatype Request = Request(key: Key, now: int)

  const MAX_BUCKETS: nat := 10_000

  /** Map.get */
  function Lookup(es: Entries, key: Key): Option<Bucket> {
    if |es| == 0 then None
    else if es[|es| - 1].key == key then Some(es[|es| - 1].bucket)
    else Lookup(es[..|es| - 1], key)
  }

  /** The first occurrence scanning back from the end gets the new bucket. */
  function Replace(es: Entries, key: Key, bucket: Bucket): Entries {
    if |es| == 0 then []
    else
      var front, last := es[..|es| - 1], es[|es| - 1];
      if last.key == key then front + [Entry(key, bucket)] else Replace(front, key, bucket) + [last]
  }

  /** Map.set: in place for a known key, at the end for a new one. */
  function Put(es: Entries, key: Key, bucket: Bucket): Entries {
    if Lookup(es, key).Some? then Replace(es, key, bucket) else es + [Entry(key, bucket)]
  }

  predicate Distinct(es: Entries) {
    |es| == 0 || (Lookup(es[..|es| - 1], es[|es| - 1].key).None? && Distinct(es[..|es| - 1]))
  }

  predicate LiveAt(es: Entries, key: Key, now: int) {
    Lookup(es, key).Some? && Lookup(es, key).value.resetAt > now
  }

  /** The entries whose window has not ended. */
  function Unexpired(es: Entries, now: int): (kept: Entries)
    ensures |kept| <= |es|
  {
    if |es| == 0 then []
    else
      var front, last := Unexpired(es[..|es| - 1], now), es[|es| - 1];
      if last.bucket.resetAt > now then front + [last] else front
  }

  /** while (size >= 10_000) drop the oldest entry, but stop at the empty string, which is falsy. */
  function Evicted(es: Entries): Entries {
    if |es| >= MAX_BUCKETS && es[0].key != "" then Evicted(es[1..]) else es
  }

  function Pruned(es: Entries, now: int): Entries {
    Evicted(Unexpired(es, now))
  }

  /** The first lines of consume: count the call, and prune every 256 calls or at capacity. */
  function Tidied(l: Limiter, now: int): Limiter {
    var operations := l.operations + 1;
    var due := operations % 256 == 0 || |l.entries| >= MAX_BUCKETS;
    Limiter(if due then Pruned(l.entries, now) else l.entries, operations)
  }

  function CeilSeconds(ms: int): int {
    (ms + 999) / 1_000
  }

  /** Math.max(1, Math.ceil((resetAt - now) / 1_000)) */
  function RetryAfter(bucket: Bucket, now: int): nat {
    var seconds := CeilSeconds(bucket.resetAt - now);
    if seconds > 1 then seconds else 1
  }

  predicate Over(bucket: Option<Bucket>, now: int) {
    bucket.None? || bucket.value.resetAt <= now
  }

  /** What a call does to its own bucket: open a window, or count against the one that is open. */
  function Charged(rules: Rules, current: Option<Bucket>, now: int): Bucket {
    if Over(current, now) then Bucket(1, now + rules.windowMs)
    else current.value.(count := current.value.count + 1)
  }

  /** A call that opens a window is always allowed. */
  predicate Allows(rules: Rules, current: Option<Bucket>, now: int) {
    Over(current, now) || current.value.count + 1 <= rules.limit
  }

  function Consumed(rules: Rules, l: Limiter, r: Request): (Limiter, Answer) {
    var tidy := Tidied(l, r.now);
    var current := Lookup(tidy.entries, r.key);
    var bucket := Charged(rules, current, r.now);
    (tidy.(entries := Put(tidy.entries, r.key, bucket)),
     if Allows(rules, current, r.now) then Answer(true, 0) else Answer(false, RetryAfter(bucket, r.now)))
  }

  class RateLimiter {
    const rules: Rules
    var entries: Entries
    var operations: nat

    ghost function State(): Limiter
      reads this
    {
      Limiter(entries, operations)
    }

    constructor (limit: nat, windowMs: nat)
      ensures rules == Rules(limit, windowMs) && State() == Limiter([], 0)
    {
      rules := Rules(limit, windowMs);
      entries, operations := [], 0;
    }

    method Consume(key: Key, now: int) returns (answer: Answer)
      modifies this
      ensures (State(), answer) == Consumed(rules, old(State()), Request(key, now))
    {
      operations := operations + 1;
      if operations % 256 == 0 || |entries| >= MAX_BUCKETS {
        Prune(now);
      }
      var current := Lookup(entries, key);
      if current.None? || current.value.resetAt <= now {
        entries := Put(entries, key, Bucket(1, now + rules.windowMs));
        return Answer(true, 0);
      }
      var bucket := current.value.(count := current.value.count + 1);
      entries := Put(entries, key, bucket);
      if bucket.count <= rules.limit { return Answer(true, 0); }
      answer := Answer(false, RetryAfter(bucket, now));
    }

    /** Delete the expired entries, then the oldest ones down to below capacity. */
    method Prune(now: int)
      modifies this`entries
      ensures entries == Pruned(old(entries), now)
    {
      ghost var before := entries;
      var kept: Entries := [];
      for i := 0 to |entries|
        invariant entries == before && kept == Unexpired(before[..i], now)
      {
        assert before[..i + 1][..i] == before[..i];
        if entries[i].bucket.resetAt > now { kept := kept + [entries[i]]; }
      }
      assert before[..|before|] == before;
      entries := kept;
      while |entries| >= MAX_BUCKETS
        invariant Evicted(entries) == Pruned(before, now)
        decreases |entries|
      {
        if entries[0].key == "" { break; }
        entries := entries[1..];
      }
    }
  }

  lemma {:induction false} LookupReplace(es: Entries, key: Key, bucket: Bucket, other: Key)
    ensures |Replace(es, key, bucket)| == |es|
    ensures Lookup(Replace(es, key, bucket), other)
            == if other == key && Lookup(es, key).Some? then Some(bucket) else Lookup(es, other)
    decreases |es|
  {
    if |es| > 0 {
      var front := es[..|es| - 1];
      LookupReplace(front, key, bucket, other);
      var after := Replace(es, key, bucket);
      assert after[..|es| - 1] == if es[|es| - 1].key == key then front else Replace(front, key, bucket);
    }
  }

  lemma {:induction false} DistinctReplace(es: Entries, key: Key, bucket: Bucket)
    requires Distinct(es)
    ensures Distinct(Replace(es, key, bucket))
    decreases |es|
  {
    if |es| > 0 {
      var front, last := es[..|es| - 1], es[|es| - 1];
      DistinctReplace(front, key, bucket);
      LookupReplace(front, key, bucket, last.key);
      var after := Replace(es, key, bucket);
      assert after[..|es| - 1] == if last.key == key then front else Replace(front, key, bucket);
    }
  }

  lemma LookupPut(es: Entries, key: Key, bucket: Bucket, other: Key)
    ensures Lookup(Put(es, key, bucket), other) == if other == key then Some(bucket) else Lookup(es, other)
    ensures |Put(es, key, bucket)| == if Lookup(es, key).Some? then |es| else |es| + 1
  {
    LookupReplace(es, key, bucket, other);
    assert (es + [Entry(key, bucket)])[..|es|] == es;
  }

  lemma DistinctPut(es: Entries, key: Key, bucket: Bucket)
    requires Distinct(es)
    ensures Distinct(Put(es, key, bucket))
  {
    DistinctReplace(es, key, bucket);
    assert (es + [Entry(key, bucket)])[..|es|] == es;
  }

  lemma LookupLast(es: Entries, e: Entry, key: Key)
    ensures Lookup(es + [e], key) == if e.key == key then Some(e.bucket) else Lookup(es, key)
    ensures Distinct(es + [e]) <==> Distinct(es) && Lookup(es, e.key).None?
  {
    assert (es + [e])[..|es|] == es;
  }

  /** Sweeping loses nothing that is still live. */
  lemma {:induction false} LookupUnexpired(es: Entries, now: int, key: Key)
    requires Distinct(es)
    ensures Distinct(Unexpired(es, now))
    ensures Lookup(Unexpired(es, now), key) == if LiveAt(es, key, now) then Lookup(es, key) else None
    decreases |es|
  {
    if |es| > 0 {
      var front, last := es[..|es| - 1], es[|es| - 1];
      LookupUnexpired(front, now, key);
      LookupUnexpired(front, now, last.key);
      LookupLast(Unexpired(front, now), last, key);
    }
  }

  lemma {:induction false} LookupTail(es: Entries, key: Key)
    requires Distinct(es) && |es| > 0
    ensures Distinct(es[1..])
    ensures Lookup(es[1..], key) == if key == es[0].key then None else Lookup(es, key)
    ensures Lookup(es, es[0].key) == Some(es[0].bucket)
    decreases |es|
  {
    if |es| > 1 {
      var front, last := es[..|es| - 1], es[|es| - 1];
      LookupTail(front, key);
      LookupTail(front, last.key);
      assert es[1..][..|es| - 2] == front[1..];
    }
  }

  lemma {:induction false} LookupEvicted(es: Entries, key: Key)
    requires Distinct(es)
    ensures Distinct(Evicted(es))
    ensures Lookup(Evicted(es), key).Some? ==> Lookup(Evicted(es), key) == Lookup(es, key)
    ensures |Evicted(es)| <= |es|
    ensures |Evicted(es)| < MAX_BUCKETS || Evicted(es)[0].key == ""
    decreases |es|
  {
    if |es| >= MAX_BUCKETS && es[0].key != "" {
      LookupTail(es, key);
      LookupEvicted(es[1..], key);
    }
  }

  lemma TidiedLookup(l: Limiter, now: int, key: Key)
    requires Distinct(l.entries)
    ensures Distinct(Tidied(l, now).entries)
    ensures Lookup(Tidied(l, now).entries, key).Some? ==> Lookup(Tidied(l, now).entries, key) == Lookup(l.entries, key)
  {
    LookupUnexpired(l.entries, now, key);
    LookupEvicted(Unexpired(l.entries, now), key);
  }

  lemma ConsumedDistinct(rules: Rules, l: Limiter, r: Request)
    requires Distinct(l.entries)
    ensures Distinct(Consumed(rules, l, r).0.entries)
  {
    TidiedLookup(l, r.now, r.key);
    var tidy := Tidied(l, r.now);
    DistinctPut(tidy.entries, r.key, Charged(rules, Lookup(tidy.entries, r.key), r.now));
  }

  /** A call touches the bucket of its own key and leaves the others as tidying left them. */
  lemma ConsumedLookup(rules: Rules, l: Limiter, r: Request, key: Key)
    ensures
      var tidy := Tidied(l, r.now).entries;
      && Lookup(Consumed(rules, l, r).0.entries, key)
         == (if key == r.key then Some(Charged(rules, Lookup(tidy, key), r.now)) else Lookup(tidy, key))
      && |Consumed(rules, l, r).0.entries| == (if Lookup(tidy, r.key).Some? then |tidy| else |tidy| + 1)
  {
    var tidy := Tidied(l, r.now).entries;
    LookupPut(tidy, r.key, Charged(rules, Lookup(tidy, r.key), r.now), key);
  }
}
