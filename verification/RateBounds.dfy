// What RateLimiter promises over whole request histories: how large its map
// grows, how many calls a window admits, and that waiting as told is enough.
module RateBounds {
  import opened Prelude
  import opened RateLimiting

  /** The calls made so far and whether they were allowed, the latest outermost. */
  datatype History = Fresh | Then(before: History, call: Request, allowed: bool)

  const NEW: Limiter := Limiter([], 0)

  /** The limiter after a history of calls. */
  function After(rules: Rules, l: Limiter, h: History): Limiter {
    match h
    case Fresh => l
    case Then(before, call, _) => Consumed(rules, After(rules, l, before), call).0
  }

  lemma {:induction false} AfterDistinct(rules: Rules, l: Limiter, h: History)
    requires Distinct(l.entries)
    ensures Distinct(After(rules, l, h).entries)
  {
    if h.Then? {
      AfterDistinct(rules, l, h.before);
      ConsumedDistinct(rules, After(rules, l, h.before), h.call);
    }
  }

  // The size of the map.

  /** No entry's window has ended. */
  predicate AllLive(es: Entries, now: int) {
    |es| == 0 || (es[|es| - 1].bucket.resetAt > now && AllLive(es[..|es| - 1], now))
  }

  /** A full map of live entries whose oldest key is the empty string, asked about a new key. */
  predicate Overflows(l: Limiter, r: Request) {
    && |l.entries| == MAX_BUCKETS
    && l.entries[0].key == ""
    && Lookup(l.entries, r.key).None?
    && AllLive(l.entries, r.now)
  }

  lemma {:induction false} UnexpiredShrinks(es: Entries, now: int)
    ensures if AllLive(es, now) then Unexpired(es, now) == es else |Unexpired(es, now)| < |es|
    decreases |es|
  {
    if |es| > 0 {
      var front, last := es[..|es| - 1], es[|es| - 1];
      UnexpiredShrinks(front, now);
      if last.bucket.resetAt > now { assert es == front + [last]; }
    }
  }

  /** Eviction of a list at capacity: nothing when an empty key leads it, the oldest entry otherwise. */
  lemma EvictedAtCapacity(es: Entries)
    requires |es| <= MAX_BUCKETS
    ensures Evicted(es) == if |es| == MAX_BUCKETS && es[0].key != "" then es[1..] else es
  {
    if |es| == MAX_BUCKETS && es[0].key != "" {
      assert |es[1..]| < MAX_BUCKETS;
      assert Evicted(es[1..]) == es[1..];
    }
  }

  lemma FullMapTidied(l: Limiter, now: int)
    requires |l.entries| == MAX_BUCKETS
    ensures
      var tidy := Tidied(l, now).entries;
      if AllLive(l.entries, now) && l.entries[0].key == "" then tidy == l.entries else |tidy| < MAX_BUCKETS
  {
    UnexpiredShrinks(l.entries, now);
    EvictedAtCapacity(Unexpired(l.entries, now));
  }

  lemma TidiedSize(l: Limiter, now: int)
    requires |l.entries| < MAX_BUCKETS
    ensures |Tidied(l, now).entries| < MAX_BUCKETS
  {
    EvictedAtCapacity(Unexpired(l.entries, now));
  }

  /** One call keeps the map within its capacity exactly unless the map overflows. */
  lemma CapacityKeptExactly(rules: Rules, l: Limiter, r: Request)
    requires |l.entries| <= MAX_BUCKETS
    ensures |Consumed(rules, l, r).0.entries| <= MAX_BUCKETS <==> !Overflows(l, r)
  {
    ConsumedLookup(rules, l, r, r.key);
    if |l.entries| == MAX_BUCKETS {
      FullMapTidied(l, r.now);
    } else {
      TidiedSize(l, r.now);
    }
  }

  /** The map was within its capacity after every call. */
  predicate AlwaysWithin(rules: Rules, h: History) {
    |After(rules, NEW, h).entries| <= MAX_BUCKETS && (h.Then? ==> AlwaysWithin(rules, h.before))
  }

  /** No call found the map in the overflowing state. */
  predicate NeverOverflows(rules: Rules, h: History) {
    h.Then? ==> !Overflows(After(rules, NEW, h.before), h.call) && NeverOverflows(rules, h.before)
  }

  /** Over a whole history: the map stays within capacity exactly while no call overflows it. */
  lemma {:induction false} CapacityOverHistories(rules: Rules, h: History)
    ensures AlwaysWithin(rules, h) <==> NeverOverflows(rules, h)
  {
    if h.Then? {
      CapacityOverHistories(rules, h.before);
      var l := After(rules, NEW, h.before);
      if |l.entries| <= MAX_BUCKETS { CapacityKeptExactly(rules, l, h.call); }
    }
  }

  predicate NeverAsks(h: History, key: Key) {
    h.Then? ==> h.call.key != key && NeverAsks(h.before, key)
  }

  /** Without a call of its own a key's bucket is kept as it is or dropped. */
  lemma {:induction false} BucketOutlivesOthers(rules: Rules, l: Limiter, h: History, key: Key)
    requires Distinct(l.entries) && NeverAsks(h, key)
    ensures
      var bucket := Lookup(After(rules, l, h).entries, key);
      bucket.None? || bucket == Lookup(l.entries, key)
  {
    if h.Then? {
      var before := After(rules, l, h.before);
      BucketOutlivesOthers(rules, l, h.before, key);
      AfterDistinct(rules, l, h.before);
      TidiedLookup(before, h.call.now, key);
      ConsumedLookup(rules, before, h.call, key);
    }
  }

  /** A limiter that is never asked about the empty string never exceeds its capacity. */
  lemma {:induction false} NamedKeysStayWithinCapacity(rules: Rules, h: History)
    requires NeverAsks(h, "")
    ensures AlwaysWithin(rules, h)
  {
    if h.Then? {
      var l := After(rules, NEW, h.before);
      NamedKeysStayWithinCapacity(rules, h.before);
      BucketOutlivesOthers(rules, NEW, h.before, "");
      AfterDistinct(rules, NEW, h.before);
      if |l.entries| == MAX_BUCKETS { LookupTail(l.entries, ""); }
      CapacityKeptExactly(rules, l, h.call);
    }
  }

  function Name(i: nat): (key: Key)
    ensures |key| == i
  {
    if i == 0 then "" else Name(i - 1) + "a"
  }

  function Crowd(n: nat, resetAt: int): Entries {
    if n == 0 then [] else Crowd(n - 1, resetAt) + [Entry(Name(n - 1), Bucket(1, resetAt))]
  }

  lemma {:induction false} CrowdEntries(n: nat, resetAt: int, now: int)
    requires now < resetAt
    ensures |Crowd(n, resetAt)| == n && AllLive(Crowd(n, resetAt), now)
    ensures n > 0 ==> Crowd(n, resetAt)[0].key == ""
  {
    if n > 0 {
      CrowdEntries(n - 1, resetAt, now);
      assert Crowd(n, resetAt)[..n - 1] == Crowd(n - 1, resetAt);
    }
  }

  lemma {:induction false} NotInCrowd(n: nat, resetAt: int, key: Key)
    requires n <= |key|
    ensures Lookup(Crowd(n, resetAt), key).None?
  {
    if n > 0 {
      NotInCrowd(n - 1, resetAt, key);
      LookupLast(Crowd(n - 1, resetAt), Entry(Name(n - 1), Bucket(1, resetAt)), key);
    }
  }

  /** Calls at one instant, one for each of the first n names. */
  function CrowdCalls(n: nat): History {
    if n == 0 then Fresh else Then(CrowdCalls(n - 1), Request(Name(n - 1), 0), true)
  }

  lemma LiveMapUntouched(l: Limiter, now: int)
    requires AllLive(l.entries, now) && |l.entries| <= MAX_BUCKETS
    requires |l.entries| > 0 ==> l.entries[0].key == ""
    ensures Tidied(l, now).entries == l.entries
  {
    UnexpiredShrinks(l.entries, now);
    EvictedAtCapacity(l.entries);
  }

  lemma NewKeyAppended(rules: Rules, l: Limiter, r: Request)
    requires Tidied(l, r.now).entries == l.entries && Lookup(l.entries, r.key).None?
    ensures Consumed(rules, l, r).0.entries == l.entries + [Entry(r.key, Bucket(1, r.now + rules.windowMs))]
  {
  }

  lemma {:induction false} CrowdGathers(rules: Rules, n: nat)
    requires n <= MAX_BUCKETS + 1 && rules.windowMs > 0
    ensures After(rules, NEW, CrowdCalls(n)).entries == Crowd(n, rules.windowMs)
  {
    if n > 0 {
      CrowdGathers(rules, n - 1);
      CrowdGrows(rules, After(rules, NEW, CrowdCalls(n - 1)), n - 1);
    }
  }

  lemma CrowdGrows(rules: Rules, l: Limiter, n: nat)
    requires n <= MAX_BUCKETS && rules.windowMs > 0 && l.entries == Crowd(n, rules.windowMs)
    ensures Consumed(rules, l, Request(Name(n), 0)).0.entries == Crowd(n + 1, rules.windowMs)
  {
    CrowdEntries(n, rules.windowMs, 0);
    LiveMapUntouched(l, 0);
    NotInCrowd(n, rules.windowMs, Name(n));
    NewKeyAppended(rules, l, Request(Name(n), 0));
  }

  /** The capacity is not a bound: 10,001 keys at one instant, the first of them empty, all stay. */
  lemma EmptyKeyBreaksCapacity(rules: Rules)
    requires rules.windowMs > 0
    ensures |After(rules, NEW, CrowdCalls(MAX_BUCKETS + 1)).entries| == MAX_BUCKETS + 1
  {
    CrowdGathers(rules, MAX_BUCKETS + 1);
    CrowdEntries(MAX_BUCKETS + 1, rules.windowMs, 0);
  }

  /** Only the caller's entry may have ended. */
  predicate OnlyOwnEnded(es: Entries, key: Key, now: int) {
    forall i | 0 <= i < |es| :: es[i].key == key || es[i].bucket.resetAt > now
  }

  lemma {:induction false} SweepLeavesLive(es: Entries, now: int)
    ensures forall i | 0 <= i < |Unexpired(es, now)| :: Unexpired(es, now)[i].bucket.resetAt > now
    decreases |es|
  {
    if |es| > 0 { SweepLeavesLive(es[..|es| - 1], now); }
  }

  lemma {:induction false} EvictionIsSuffix(es: Entries)
    ensures |Evicted(es)| <= |es| && Evicted(es) == es[|es| - |Evicted(es)|..]
    decreases |es|
  {
    if |es| >= MAX_BUCKETS && es[0].key != "" {
      EvictionIsSuffix(es[1..]);
      var kept := Evicted(es);
      assert es[|es| - |kept|..] == es[1..][|es| - 1 - |kept|..];
    }
  }

  lemma {:induction false} ReplaceKeepsOthers(es: Entries, key: Key, bucket: Bucket)
    ensures |Replace(es, key, bucket)| == |es|
    ensures forall i | 0 <= i < |es| ::
      Replace(es, key, bucket)[i] == es[i] || Replace(es, key, bucket)[i] == Entry(key, bucket)
    decreases |es|
  {
    if |es| > 0 { ReplaceKeepsOthers(es[..|es| - 1], key, bucket); }
  }

  lemma TidyIsLive(es: Entries, now: int)
    ensures forall i | 0 <= i < |Pruned(es, now)| :: Pruned(es, now)[i].bucket.resetAt > now
  {
    var swept := Unexpired(es, now);
    SweepLeavesLive(es, now);
    EvictionIsSuffix(swept);
    assert forall i | 0 <= i < |Evicted(swept)| :: Evicted(swept)[i] == swept[|swept| - |Evicted(swept)| + i];
  }

  lemma PutKeepsOthers(es: Entries, key: Key, bucket: Bucket, now: int)
    requires forall i | 0 <= i < |es| :: es[i].bucket.resetAt > now
    ensures OnlyOwnEnded(Put(es, key, bucket), key, now)
  {
    ReplaceKeepsOthers(es, key, bucket);
  }

  /** Every 256th call, and any at capacity, sweeps: afterwards no bucket but the caller's own has ended. */
  lemma SweptRegularly(rules: Rules, l: Limiter, r: Request)
    requires (l.operations + 1) % 256 == 0 || |l.entries| >= 10_000
    ensures OnlyOwnEnded(Consumed(rules, l, r).0.entries, r.key, r.now)
  {
    var tidy := Tidied(l, r.now).entries;
    TidyIsLive(l.entries, r.now);
    assert tidy == Pruned(l.entries, r.now);
    PutKeepsOthers(tidy, r.key, Charged(rules, Lookup(tidy, r.key), r.now), r.now);
  }

  /** The limiter counts its calls, so of every 256 in a row one sweeps. */
  lemma {:induction false} OperationsCount(rules: Rules, h: History)
    ensures After(rules, NEW, h).operations == Length(h)
  {
    if h.Then? { OperationsCount(rules, h.before); }
  }

  function Length(h: History): nat {
    match h case Fresh => 0 case Then(before, _, _) => Length(before) + 1
  }

  // The number of admitted calls.

  /** The clock never runs backwards, and has not passed t. */
  predicate Monotone(h: History, t: int) {
    h.Then? ==> h.call.now <= t && Monotone(h.before, h.call.now)
  }

  /** The call is not one before which a prune drops the key's live bucket. */
  predicate NotEvictedBy(l: Limiter, key: Key, now: int) {
    LiveAt(l.entries, key, now) ==> LiveAt(Tidied(l, now).entries, key, now)
  }

  /** The key's live bucket was never dropped. */
  predicate NeverEvicted(rules: Rules, h: History, key: Key) {
    h.Then? ==>
      NeverEvicted(rules, h.before, key) && NotEvictedBy(After(rules, NEW, h.before), key, h.call.now)
  }

  predicate Answered(rules: Rules, l: Limiter, r: Request, allowed: bool) {
    Consumed(rules, l, r).1.allowed == allowed
  }

  /** The recorded answers are the limiter's own. */
  predicate Happened(rules: Rules, h: History) {
    h.Then? ==> Happened(rules, h.before) && Answered(rules, After(rules, NEW, h.before), h.call, h.allowed)
  }

  predicate Counts(r: Request, key: Key, start: int, stop: int) {
    r.key == key && start <= r.now < stop
  }

  /** Calls for key allowed at times from start up to but not including stop. */
  function Admitted(h: History, key: Key, start: int, stop: int): nat {
    match h
    case Fresh => 0
    case Then(before, call, allowed) =>
      Admitted(before, key, start, stop) + (if Counts(call, key, start, stop) && allowed then 1 else 0)
  }

  /** Two states of a bucket that no call at or after this time can tell apart. */
  predicate SameFrom(a: Option<Bucket>, b: Option<Bucket>, now: int) {
    a == b || (Over(a, now) && Over(b, now))
  }

  /** A key's fixed window as its own calls alone make it. */
  function Window(rules: Rules, h: History, key: Key): Option<Bucket> {
    match h
    case Fresh => None
    case Then(before, call, _) =>
      var window := Window(rules, before, key);
      if call.key == key then Some(Charged(rules, window, call.now)) else window
  }

  /** Every call of the key got the answer that its own window gives. */
  predicate OwnAnswers(rules: Rules, h: History, key: Key) {
    h.Then? ==>
      && OwnAnswers(rules, h.before, key)
      && (h.call.key == key ==> h.allowed == Allows(rules, Window(rules, h.before, key), h.call.now))
  }

  /** One call, for a key whose bucket and window agree so far. */
  lemma CallAgrees(rules: Rules, l: Limiter, r: Request, key: Key, window: Option<Bucket>)
    requires Distinct(l.entries) && NotEvictedBy(l, key, r.now)
    requires SameFrom(Lookup(l.entries, key), window, r.now)
    ensures SameFrom(Lookup(Consumed(rules, l, r).0.entries, key),
                     if r.key == key then Some(Charged(rules, window, r.now)) else window, r.now)
    ensures r.key == key ==> (Consumed(rules, l, r).1.allowed <==> Allows(rules, window, r.now))
  {
    TidiedLookup(l, r.now, key);
    ConsumedLookup(rules, l, r, key);
    assert SameFrom(Lookup(Tidied(l, r.now).entries, key), window, r.now);
  }

  /** Callers are isolated: a key that is never evicted is treated as its own calls alone demand. */
  lemma {:induction false} Isolated(rules: Rules, h: History, key: Key, t: int)
    requires Monotone(h, t) && Happened(rules, h) && NeverEvicted(rules, h, key)
    ensures SameFrom(Lookup(After(rules, NEW, h).entries, key), Window(rules, h, key), t)
    ensures OwnAnswers(rules, h, key)
  {
    if h.Then? {
      Isolated(rules, h.before, key, h.call.now);
      AfterDistinct(rules, NEW, h.before);
      CallAgrees(rules, After(rules, NEW, h.before), h.call, key, Window(rules, h.before, key));
    }
  }

  // Windows are fixed: they are told from the times of the calls alone.

  /** When the key's current window opened: at its first call, and again at the first call a whole window later. */
  function OpenedAt(rules: Rules, h: History, key: Key): Option<int> {
    match h
    case Fresh => None
    case Then(before, call, _) =>
      var since := OpenedAt(rules, before, key);
      if call.key == key && Opens(rules, since, call.now) then Some(call.now) else since
  }

  predicate Opens(rules: Rules, since: Option<int>, now: int) {
    since.None? || now >= since.value + rules.windowMs
  }

  /** The key's calls since then, allowed or not. */
  function CallsSince(rules: Rules, h: History, key: Key): nat {
    match h
    case Fresh => 0
    case Then(before, call, _) =>
      if call.key != key then CallsSince(rules, before, key)
      else if Opens(rules, OpenedAt(rules, before, key), call.now) then 1
      else CallsSince(rules, before, key) + 1
  }

  /** The key's own bucket counts the calls of its window and ends with it, however many of them were refused. */
  lemma {:induction false} WindowIsFixed(rules: Rules, h: History, key: Key)
    ensures Window(rules, h, key)
         == if OpenedAt(rules, h, key).None? then None
            else Some(Bucket(CallsSince(rules, h, key), OpenedAt(rules, h, key).value + rules.windowMs))
  {
    if h.Then? { WindowIsFixed(rules, h.before, key); }
  }

  /**
   * Fixed windows. In any history of the limiter, a call of a never evicted key is
   * allowed exactly if it opens a window or is among the first limit calls of one,
   * and a refused caller is told the least whole number of seconds to the window's end,
   * which refused calls do not move.
   */
  lemma FixedWindows(rules: Rules, h: History, t: int)
    requires h.Then? && Monotone(h, t) && Happened(rules, h) && NeverEvicted(rules, h, h.call.key)
    ensures
      var since := OpenedAt(rules, h.before, h.call.key);
      h.allowed <==>
        Opens(rules, since, h.call.now) || CallsSince(rules, h.before, h.call.key) < rules.limit
    ensures
      var since := OpenedAt(rules, h.before, h.call.key);
      var answer := Consumed(rules, After(rules, NEW, h.before), h.call).1;
      && answer.allowed == h.allowed
      && (!h.allowed ==>
            && since.Some?
            && 1_000 * (answer.retryAfter - 1) < since.value + rules.windowMs - h.call.now <= 1_000 * answer.retryAfter)
  {
    var l, key := After(rules, NEW, h.before), h.call.key;
    Isolated(rules, h.before, key, h.call.now);
    WindowIsFixed(rules, h.before, key);
    AfterDistinct(rules, NEW, h.before);
    CallAgrees(rules, l, h.call, key, Window(rules, h.before, key));
    TidiedLookup(l, h.call.now, key);
    if !h.allowed { RetryAfterIsLeast(rules, l, h.call); ConsumedLookup(rules, l, h.call, key); }
  }

  /** How many more calls the interval of one window from start can admit after time t. */
  function Budget(rules: Rules, bucket: Option<Bucket>, t: int, start: int): int {
    if t >= start + rules.windowMs then 0
    else if Over(bucket, t) then (if t >= start then rules.limit else 2 * rules.limit - 1)
    else if bucket.value.resetAt < start then 2 * rules.limit - 1
    else (if bucket.value.count < rules.limit then rules.limit - bucket.value.count else 0)
         + (if bucket.value.resetAt < start + rules.windowMs then rules.limit else 0)
  }

  predicate Counting(bucket: Option<Bucket>) {
    bucket.Some? ==> bucket.value.count >= 1
  }

  lemma BudgetShrinks(rules: Rules, bucket: Option<Bucket>, t: int, t': int, start: int)
    requires t <= t' && rules.limit >= 1 && Counting(bucket)
    ensures 0 <= Budget(rules, bucket, t', start) <= Budget(rules, bucket, t, start) <= 2 * rules.limit - 1
  {
  }

  /** A call spends from the budget of its own key what it admits. */
  lemma ChargeSpends(rules: Rules, bucket: Option<Bucket>, now: int, start: int)
    requires Counting(bucket) && rules.limit >= 1
    ensures
      var charged := Some(Charged(rules, bucket, now));
      && Counting(charged)
      && (if Allows(rules, bucket, now) && start <= now < start + rules.windowMs then 1 else 0)
         + Budget(rules, charged, now, start) <= Budget(rules, bucket, now, start)
  {
  }

  lemma {:induction false} OwnAnswersWithinBudget(rules: Rules, h: History, key: Key, start: int, t: int)
    requires rules.limit >= 1 && Monotone(h, t) && OwnAnswers(rules, h, key)
    ensures Counting(Window(rules, h, key))
    ensures Admitted(h, key, start, start + rules.windowMs)
            + Budget(rules, Window(rules, h, key), t, start) <= 2 * rules.limit - 1
  {
    if h.Then? {
      var now := h.call.now;
      OwnAnswersWithinBudget(rules, h.before, key, start, now);
      ChargeSpends(rules, Window(rules, h.before, key), now, start);
      BudgetShrinks(rules, Window(rules, h, key), now, t, start);
    }
  }

  /** Any half-open interval one window long admits fewer than twice the limit. */
  lemma RateBound(rules: Rules, h: History, key: Key, start: int, t: int)
    requires rules.limit >= 1 && Monotone(h, t) && Happened(rules, h) && NeverEvicted(rules, h, key)
    ensures Admitted(h, key, start, start + rules.windowMs) <= 2 * rules.limit - 1
  {
    Isolated(rules, h, key, t);
    OwnAnswersWithinBudget(rules, h, key, start, t);
    BudgetShrinks(rules, Window(rules, h, key), t, t, start);
  }

  /** The map had room before every call. */
  predicate AlwaysRoom(rules: Rules, h: History) {
    h.Then? ==> |After(rules, NEW, h.before).entries| < MAX_BUCKETS && AlwaysRoom(rules, h.before)
  }

  lemma RoomKeepsLive(l: Limiter, key: Key, now: int)
    requires Distinct(l.entries) && |l.entries| < MAX_BUCKETS
    ensures NotEvictedBy(l, key, now)
  {
    LookupUnexpired(l.entries, now, key);
    EvictedAtCapacity(Unexpired(l.entries, now));
  }

  /** Eviction needs a full map. */
  lemma {:induction false} RoomNeverEvicts(rules: Rules, h: History, key: Key)
    requires AlwaysRoom(rules, h)
    ensures NeverEvicted(rules, h, key)
  {
    if h.Then? {
      RoomNeverEvicts(rules, h.before, key);
      AfterDistinct(rules, NEW, h.before);
      RoomKeepsLive(After(rules, NEW, h.before), key, h.call.now);
    }
  }

  // The bound is reached.

  /** A history followed by n calls alike, all allowed. */
  function Burst(h: History, r: Request, n: nat): History {
    if n == 0 then h else Then(Burst(h, r, n - 1), r, true)
  }

  lemma ChargedInside(rules: Rules, bucket: Bucket, now: int)
    requires now < bucket.resetAt && bucket.count < rules.limit
    ensures Charged(rules, Some(bucket), now) == Bucket(bucket.count + 1, bucket.resetAt)
    ensures Allows(rules, Some(bucket), now)
  {
  }

  /** Calls inside an open window are all allowed up to the limit. */
  lemma {:induction false} BurstAdmitted(
    rules: Rules, h: History, r: Request, n: nat, bucket: Bucket, start: int, stop: int)
    requires Window(rules, h, r.key) == Some(bucket) && OwnAnswers(rules, h, r.key)
    requires r.now < bucket.resetAt && bucket.count + n <= rules.limit && start <= r.now < stop
    ensures Window(rules, Burst(h, r, n), r.key) == Some(Bucket(bucket.count + n, bucket.resetAt))
    ensures OwnAnswers(rules, Burst(h, r, n), r.key)
    ensures Admitted(Burst(h, r, n), r.key, start, stop) == Admitted(h, r.key, start, stop) + n
  {
    if n > 0 {
      BurstAdmitted(rules, h, r, n - 1, bucket, start, stop);
      ChargedInside(rules, Bucket(bucket.count + n - 1, bucket.resetAt), r.now);
    }
  }

  /** A window opened early, filled at its end and followed by a full one. */
  function Squeeze(rules: Rules, key: Key): History
    requires rules.limit >= 1 && rules.windowMs >= 2
  {
    var late, next := Request(key, rules.windowMs - 1), Request(key, rules.windowMs);
    var filled := Burst(Then(Fresh, Request(key, 0), true), late, rules.limit - 1);
    Burst(Then(filled, next, true), next, rules.limit - 1)
  }

  lemma SqueezeAdmits(rules: Rules, key: Key)
    requires rules.limit >= 1 && rules.windowMs >= 2
    ensures OwnAnswers(rules, Squeeze(rules, key), key)
    ensures Admitted(Squeeze(rules, key), key, rules.windowMs - 1, 2 * rules.windowMs - 1) == 2 * rules.limit - 1
  {
    var w, n := rules.windowMs, rules.limit - 1;
    var start, stop := w - 1, 2 * w - 1;
    var late, next := Request(key, w - 1), Request(key, w);
    var early := Then(Fresh, Request(key, 0), true);
    BurstAdmitted(rules, early, late, n, Bucket(1, w), start, stop);
    BurstAdmitted(rules, Then(Burst(early, late, n), next, true), next, n, Bucket(1, 2 * w), start, stop);
  }

  predicate OnlyAsks(h: History, key: Key) {
    h.Then? ==> h.call.key == key && OnlyAsks(h.before, key)
  }

  /** What an only caller's own window demands is what the limiter does. */
  lemma {:induction false} OwnAnswersHappen(rules: Rules, h: History, key: Key, t: int)
    requires Monotone(h, t) && NeverEvicted(rules, h, key) && OnlyAsks(h, key) && OwnAnswers(rules, h, key)
    ensures Happened(rules, h)
  {
    if h.Then? {
      OwnAnswersHappen(rules, h.before, key, h.call.now);
      Isolated(rules, h.before, key, h.call.now);
      AfterDistinct(rules, NEW, h.before);
      CallAgrees(rules, After(rules, NEW, h.before), h.call, key, Window(rules, h.before, key));
    }
  }

  lemma {:induction false} BurstShape(h: History, r: Request, n: nat, key: Key)
    requires Monotone(h, r.now) && OnlyAsks(h, key) && r.key == key
    ensures Monotone(Burst(h, r, n), r.now) && OnlyAsks(Burst(h, r, n), key)
  {
    if n > 0 { BurstShape(h, r, n - 1, key); }
  }

  /** At most one entry, the key's own. */
  predicate OneEntry(es: Entries, key: Key) {
    |es| <= 1 && (|es| == 1 ==> es[0].key == key)
  }

  lemma OneEntryStays(rules: Rules, l: Limiter, r: Request)
    requires OneEntry(l.entries, r.key)
    ensures OneEntry(Consumed(rules, l, r).0.entries, r.key)
  {
    var tidy := Tidied(l, r.now).entries;
    UnexpiredShrinks(l.entries, r.now);
    EvictedAtCapacity(Unexpired(l.entries, r.now));
    assert OneEntry(tidy, r.key);
    assert |tidy| == 1 ==> tidy[..0] == [];
  }

  lemma {:induction false} OneKeyHasRoom(rules: Rules, h: History, key: Key)
    requires OnlyAsks(h, key)
    ensures OneEntry(After(rules, NEW, h).entries, key) && AlwaysRoom(rules, h)
  {
    if h.Then? {
      OneKeyHasRoom(rules, h.before, key);
      OneEntryStays(rules, After(rules, NEW, h.before), h.call);
    }
  }

  lemma SqueezeShape(rules: Rules, key: Key)
    requires rules.limit >= 1 && rules.windowMs >= 2
    ensures Monotone(Squeeze(rules, key), rules.windowMs) && OnlyAsks(Squeeze(rules, key), key)
  {
    var w, n := rules.windowMs, rules.limit - 1;
    var late, next := Request(key, w - 1), Request(key, w);
    var early := Then(Fresh, Request(key, 0), true);
    BurstShape(early, late, n, key);
    BurstShape(Then(Burst(early, late, n), next, true), next, n, key);
  }

  lemma RateBoundIsTight(rules: Rules, key: Key)
    requires rules.limit >= 1 && rules.windowMs >= 2
    ensures exists h ::
      && Monotone(h, rules.windowMs) && Happened(rules, h) && NeverEvicted(rules, h, key)
      && Admitted(h, key, rules.windowMs - 1, 2 * rules.windowMs - 1) == 2 * rules.limit - 1
  {
    var h := Squeeze(rules, key);
    SqueezeShape(rules, key);
    SqueezeAdmits(rules, key);
    OneKeyHasRoom(rules, h, key);
    RoomNeverEvicts(rules, h, key);
    OwnAnswersHappen(rules, h, key, rules.windowMs);
  }

  // Waiting.

  /** The seconds a refused caller is told: the least whole number that reaches the end of its window. */
  lemma RetryAfterIsLeast(rules: Rules, l: Limiter, refused: Request)
    requires !Consumed(rules, l, refused).1.allowed
    ensures
      var (l', answer) := Consumed(rules, l, refused);
      && Lookup(l'.entries, refused.key).Some?
      && 1_000 * (answer.retryAfter - 1) < Lookup(l'.entries, refused.key).value.resetAt - refused.now
         <= 1_000 * answer.retryAfter
  {
    ConsumedLookup(rules, l, refused, refused.key);
  }

  /** A refused caller that waits as told is admitted next time, whatever other callers do in between. */
  lemma WaitingIsEnough(rules: Rules, l: Limiter, refused: Request, others: History, t: int)
    requires Distinct(l.entries)
    requires !Consumed(rules, l, refused).1.allowed
    requires NeverAsks(others, refused.key)
    requires t >= refused.now + 1_000 * Consumed(rules, l, refused).1.retryAfter
    ensures Consumed(rules, After(rules, Consumed(rules, l, refused).0, others), Request(refused.key, t)).1.allowed
  {
    var l' := Consumed(rules, l, refused).0;
    RetryAfterIsLeast(rules, l, refused);
    ConsumedDistinct(rules, l, refused);
    BucketOutlivesOthers(rules, l', others, refused.key);
    AfterDistinct(rules, l', others);
    TidiedLookup(After(rules, l', others), t, refused.key);
  }
}
