/**
 The inbound request limiter of app/common/http_rate_limit.py: a dictionary of deques of
 accepted hits, trimmed on each call and pruned when it grows past its cap.
 */
module RateLimiter {
  import opened Common

  const MAX_TRACKED_KEYS: nat := 10000
  const PRUNE_AFTER: real := 3600.0

  type Table<K> = map<K, seq<real>>

  function Queue<K>(t: Table<K>, key: K): seq<real> {
    if key in t then t[key] else []
  }

  function DropExpired(hits: seq<real>, now: real, window: real): seq<real> {
    if hits != [] && now - hits[0] >= window then DropExpired(hits[1..], now, window) else hits
  }

  predicate Idle(hits: seq<real>, now: real) {
    hits == [] || now - hits[|hits| - 1] > PRUNE_AFTER
  }

  function Pruned<K>(t: Table<K>, now: real): Table<K> {
    map k | k in t && !Idle(t[k], now) :: t[k]
  }

  datatype Recorded<K> = Recorded(table: Table<K>, retryAfter: Option<real>)

  /** The table once the call's own deque is trimmed. */
  function Trimmed<K>(t: Table<K>, key: K, window: real, now: real): Table<K> {
    t[key := DropExpired(Queue(t, key), now, window)]
  }

  function RecordOf<K>(t: Table<K>, key: K, limit: nat, window: real, now: real): Recorded<K>
    requires limit > 0
  {
    var trimmed := Trimmed(t, key, window, now);
    var hits := trimmed[key];
    if |hits| >= limit then Recorded(trimmed, Some(window - (now - hits[0])))
    else
      var kept := if |trimmed| > MAX_TRACKED_KEYS then Pruned(trimmed, now) else trimmed;
      // The deque is appended to either way; when its key was pruned, nothing refers to it any more.
      Recorded(if key in kept then kept[key := hits + [now]] else kept, None)
  }

  class Limiter<K(==)> {
    var hits: Table<K>

    constructor ()
      ensures hits == map[]
    {
      hits := map[];
    }

    method PruneAll(now: real)
      modifies this
      ensures hits == Pruned(old(hits), now)
      ensures forall k :: k in hits <==>
                k in old(hits) && old(hits)[k] != [] && now - old(hits)[k][|old(hits)[k]| - 1] <= 3600.0
    {
      var idle := set k | k in hits && Idle(hits[k], now);
      while idle != {}
        invariant idle <= hits.Keys
        invariant forall k :: k in idle <==> k in hits && Idle(hits[k], now)
        invariant Pruned(hits, now) == Pruned(old(hits), now)
        decreases |idle|
      {
        var k :| k in idle;
        idle := idle - {k};
        hits := hits - {k};
      }
      assert Pruned(hits, now) == hits;
    }

    /** A limit of 0 would read the first hit of an empty deque. */
    method Record(key: K, limit: nat, window: real, now: real) returns (retryAfter: Option<real>)
      requires limit > 0
      modifies this
      ensures Recorded(hits, retryAfter) == RecordOf(old(hits), key, limit, window, now)
    {
      if key !in hits {
        hits := hits[key := []];
      }
      ghost var before := hits;
      while hits[key] != [] && now - hits[key][0] >= window
        invariant key in hits && hits == before[key := hits[key]]
        invariant DropExpired(hits[key], now, window) == DropExpired(before[key], now, window)
        decreases |hits[key]|
      {
        hits := hits[key := hits[key][1..]];
      }
      assert hits == Trimmed(old(hits), key, window, now);
      var deque := hits[key];
      if |deque| >= limit {
        return Some(window - (now - deque[0]));
      }
      if |hits| > MAX_TRACKED_KEYS {
        PruneAll(now);
      }
      if key in hits {
        hits := hits[key := deque + [now]];
      }
      retryAfter := None;
    }
  }

  // --- A limiter that never forgets -------------------------------------------------------

  datatype Rule = Rule(limit: nat, window: real)
  datatype Call<K> = Call(key: K, rule: Rule, now: real)

  /** The limiter, beside every hit it ever accepted from one watched key; `last` is the time of the latest call. */
  datatype Sys<K> = Sys(table: Table<K>, history: seq<real>, last: real)

  function Answer<K>(t: Table<K>, c: Call<K>): Recorded<K>
    requires c.rule.limit > 0
  {
    RecordOf(t, c.key, c.rule.limit, c.rule.window, c.now)
  }

  function Step<K(==)>(s: Sys<K>, watched: K, c: Call<K>): Sys<K>
    requires c.rule.limit > 0
  {
    var r := Answer(s.table, c);
    Sys(r.table, if c.key == watched && r.retryAfter.None? then s.history + [c.now] else s.history, c.now)
  }

  ghost predicate Sorted(h: seq<real>) {
    forall i, j :: 0 <= i <= j < |h| ==> h[i] <= h[j]
  }

  /** How many of the first n hits are still inside the window at `now`. */
  function Live(h: seq<real>, n: nat, now: real, window: real): nat
    requires n <= |h|
  {
    if n == 0 then 0 else Live(h, n - 1, now, window) + if now - h[n - 1] < window then 1 else 0
  }

  /** The deque of a key is its history less some hits that had left the window by `last`. */
  ghost predicate Kept(q: seq<real>, h: seq<real>, rule: Rule, last: real) {
    && |q| <= |h| && |q| <= rule.limit
    && q == h[|h| - |q|..]
    && (forall i :: 0 <= i < |h| - |q| ==> last - h[i] >= rule.window)
    && Sorted(h) && (forall i :: 0 <= i < |h| ==> h[i] <= last)
  }

  /** Every hit was let in with fewer than `limit` others still in its window. */
  ghost predicate Admitted(h: seq<real>, rule: Rule) {
    forall i :: 0 <= i < |h| ==> Live(h, i, h[i], rule.window) < rule.limit
  }

  ghost predicate Inv<K>(s: Sys<K>, watched: K, rule: Rule) {
    && rule.limit > 0
    && Kept(Queue(s.table, watched), s.history, rule, s.last)
    && Admitted(s.history, rule)
  }

  predicate Prunes<K>(t: Table<K>, c: Call<K>) {
    |Trimmed(t, c.key, c.rule.window, c.now)| > MAX_TRACKED_KEYS
  }

  /** The table is full, and the caller is not one of its keys. */
  predicate FindsNoRoom<K>(t: Table<K>, c: Call<K>) {
    c.key !in t && |t| == MAX_TRACKED_KEYS
  }

  /** In a table within its cap only a call that finds no room prunes. */
  lemma PrunesIffNoRoom<K>(t: Table<K>, c: Call<K>)
    requires |t| <= MAX_TRACKED_KEYS
    ensures Prunes(t, c) <==> FindsNoRoom(t, c)
  {
    assert Trimmed(t, c.key, c.rule.window, c.now).Keys == t.Keys + {c.key};
  }

  lemma PrunedIsSmaller<K>(t: Table<K>, now: real)
    ensures |Pruned(t, now)| <= |t|
  {
    assert Pruned(t, now).Keys <= t.Keys;
    SubsetIsSmaller(Pruned(t, now).Keys, t.Keys);
  }

  /** The table never outgrows its cap: the key that would make it prunes its own empty deque. */
  lemma CallKeepsTheCap<K>(t: Table<K>, c: Call<K>)
    requires c.rule.limit > 0 && |t| <= MAX_TRACKED_KEYS
    ensures |Answer(t, c).table| <= MAX_TRACKED_KEYS
  {
    PrunesIffNoRoom(t, c);
    var trimmed := Trimmed(t, c.key, c.rule.window, c.now);
    assert trimmed.Keys == t.Keys + {c.key};
    if FindsNoRoom(t, c) {
      assert Pruned(trimmed, c.now) == Pruned(t, c.now);
      PrunedIsSmaller(t, c.now);
    }
  }

  /** The call costs the watched key no hit: it finds room, or is another key's while the window is at most an hour. */
  predicate Harmless<K(==)>(t: Table<K>, watched: K, rule: Rule, c: Call<K>) {
    !FindsNoRoom(t, c) || (c.key != watched && rule.window <= PRUNE_AFTER)
  }

  lemma {:induction false} LiveAfterSplit(h: seq<real>, d: nat, n: nat, now: real, window: real)
    requires d <= n <= |h|
    requires forall i :: 0 <= i < n ==> (now - h[i] < window <==> i >= d)
    ensures Live(h, n, now, window) == n - d
  {
    if n == 0 {
    } else {
      LiveAfterSplit(h, if d < n then d else n - 1, n - 1, now, window);
    }
  }

  lemma {:induction false} DropIsSuffix(q: seq<real>, now: real, window: real)
    ensures var r := DropExpired(q, now, window);
            && |r| <= |q| && r == q[|q| - |r|..]
            && (forall i :: 0 <= i < |q| - |r| ==> now - q[i] >= window)
            && (r != [] ==> now - r[0] < window)
  {
    if q != [] && now - q[0] >= window {
      DropIsSuffix(q[1..], now, window);
    }
  }

  /** Trimming leaves exactly the hits of the history that are still in the window. */
  lemma TrimmedIsLive(q: seq<real>, h: seq<real>, rule: Rule, last: real, now: real)
    requires Kept(q, h, rule, last) && last <= now
    ensures Kept(DropExpired(q, now, rule.window), h, rule, now)
    ensures |DropExpired(q, now, rule.window)| == Live(h, |h|, now, rule.window)
  {
    var r := DropExpired(q, now, rule.window);
    DropIsSuffix(q, now, rule.window);
    var d := |h| - |r|;
    forall i | 0 <= i < d
      ensures now - h[i] >= rule.window
    {
      if i >= |h| - |q| {
        assert h[i] == q[i - (|h| - |q|)];
      }
    }
    assert r == h[d..];
    assert forall i :: d <= i < |h| ==> h[d] <= h[i];
    assert r != [] ==> r[0] == h[d];
    LiveAfterSplit(h, d, |h|, now, rule.window);
  }

  lemma AcceptedHitIsKept(q: seq<real>, h: seq<real>, rule: Rule, now: real)
    requires Kept(q, h, rule, now) && |q| < rule.limit
    ensures Kept(q + [now], h + [now], rule, now)
  {
  }

  lemma {:induction false} LiveOfPrefix(h: seq<real>, g: seq<real>, n: nat, now: real, window: real)
    requires n <= |h| && n <= |g| && forall i :: 0 <= i < n ==> h[i] == g[i]
    ensures Live(h, n, now, window) == Live(g, n, now, window)
  {
    if n == 0 {
    } else {
      LiveOfPrefix(h, g, n - 1, now, window);
    }
  }

  lemma AcceptedHitIsAdmitted(h: seq<real>, rule: Rule, now: real)
    requires Admitted(h, rule) && Live(h, |h|, now, rule.window) < rule.limit
    ensures Admitted(h + [now], rule)
  {
    var g := h + [now];
    forall i | 0 <= i < |g|
      ensures Live(g, i, g[i], rule.window) < rule.limit
    {
      LiveOfPrefix(g, h, i, g[i], rule.window);
    }
  }

  /**
   The decision is the one a limiter that never forgets would make: accept exactly when
   fewer than `limit` accepted hits of the key are still inside its window.
   */
  lemma DecidesAsIfNothingWereForgotten<K>(s: Sys<K>, watched: K, rule: Rule, now: real)
    requires Inv(s, watched, rule) && s.last <= now
    ensures Answer(s.table, Call(watched, rule, now)).retryAfter.None? <==>
              Live(s.history, |s.history|, now, rule.window) < rule.limit
  {
    TrimmedIsLive(Queue(s.table, watched), s.history, rule, s.last, now);
  }

  lemma IdleIsKeptEmpty(q: seq<real>, h: seq<real>, rule: Rule, last: real, now: real)
    requires Kept(q, h, rule, last) && last <= now && Idle(q, now) && rule.window <= PRUNE_AFTER
    ensures Kept([], h, rule, now)
  {
    forall i | 0 <= i < |h|
      ensures now - h[i] >= rule.window
    {
      assert q != [] ==> h[i] <= h[|h| - 1] == q[|q| - 1];
    }
  }

  /** The deque the watched key has after a call, in terms of the one it had. */
  lemma QueueAfter<K>(t: Table<K>, c: Call<K>, k: K)
    requires c.rule.limit > 0
    ensures var r := Answer(t, c);
            var hits := DropExpired(Queue(t, c.key), c.now, c.rule.window);
            && (k != c.key ==> Queue(r.table, k) == Queue(t, k)
                               || (Prunes(t, c) && Idle(Queue(t, k), c.now) && Queue(r.table, k) == []))
            && (r.retryAfter.Some? <==> |hits| >= c.rule.limit)
            && (r.retryAfter.Some? ==> Queue(r.table, c.key) == hits)
            && (r.retryAfter.None? ==>
                  Queue(r.table, c.key) == if Prunes(t, c) && Idle(hits, c.now) then [] else hits + [c.now])
  {
  }

  lemma OtherCallsKeepInv<K>(s: Sys<K>, watched: K, rule: Rule, c: Call<K>)
    requires Inv(s, watched, rule) && s.last <= c.now && c.rule.limit > 0 && c.key != watched
    requires |s.table| <= MAX_TRACKED_KEYS && Harmless(s.table, watched, rule, c)
    ensures Inv(Step(s, watched, c), watched, rule)
  {
    QueueAfter(s.table, c, watched);
    PrunesIffNoRoom(s.table, c);
    if Prunes(s.table, c) && Idle(Queue(s.table, watched), c.now) {
      IdleIsKeptEmpty(Queue(s.table, watched), s.history, rule, s.last, c.now);
    }
  }

  lemma OwnCallsKeepInv<K>(s: Sys<K>, watched: K, rule: Rule, c: Call<K>)
    requires Inv(s, watched, rule) && s.last <= c.now && c.key == watched && c.rule == rule
    requires |s.table| <= MAX_TRACKED_KEYS && Harmless(s.table, watched, rule, c)
    ensures Inv(Step(s, watched, c), watched, rule)
  {
    var q, h := Queue(s.table, watched), s.history;
    var hits := DropExpired(q, c.now, rule.window);
    TrimmedIsLive(q, h, rule, s.last, c.now);
    QueueAfter(s.table, c, watched);
    PrunesIffNoRoom(s.table, c);
    if |hits| < rule.limit {
      AcceptedHitIsKept(hits, h, rule, c.now);
      AcceptedHitIsAdmitted(h, rule, c.now);
    }
  }

  // --- Runs ------------------------------------------------------------------------------

  /** Calls with a monotone clock, of which the watched key's all come under one rule. */
  predicate Legal<K(==)>(last: real, calls: seq<Call<K>>, watched: K, rule: Rule)
    decreases |calls|
  {
    calls == [] ||
    (&& last <= calls[0].now && calls[0].rule.limit > 0
     && (calls[0].key == watched ==> calls[0].rule == rule)
     && Legal(calls[0].now, calls[1..], watched, rule))
  }

  function Run<K(==)>(s: Sys<K>, calls: seq<Call<K>>, watched: K, rule: Rule): Sys<K>
    requires Legal(s.last, calls, watched, rule)
    decreases |calls|
  {
    if calls == [] then s else Run(Step(s, watched, calls[0]), calls[1..], watched, rule)
  }

  /** No call of the run costs the watched key a hit. */
  predicate SafeRun<K(==)>(s: Sys<K>, calls: seq<Call<K>>, watched: K, rule: Rule)
    requires Legal(s.last, calls, watched, rule)
    decreases |calls|
  {
    calls == [] ||
    (Harmless(s.table, watched, rule, calls[0]) && SafeRun(Step(s, watched, calls[0]), calls[1..], watched, rule))
  }

  lemma {:induction false} RunKeepsTheCap<K>(s: Sys<K>, calls: seq<Call<K>>, watched: K, rule: Rule)
    requires Legal(s.last, calls, watched, rule) && |s.table| <= MAX_TRACKED_KEYS
    ensures |Run(s, calls, watched, rule).table| <= MAX_TRACKED_KEYS
    decreases |calls|
  {
    if calls == [] {
    } else {
      CallKeepsTheCap(s.table, calls[0]);
      RunKeepsTheCap(Step(s, watched, calls[0]), calls[1..], watched, rule);
    }
  }

  lemma {:induction false} RunKeepsInv<K>(s: Sys<K>, calls: seq<Call<K>>, watched: K, rule: Rule)
    requires Inv(s, watched, rule) && |s.table| <= MAX_TRACKED_KEYS
    requires Legal(s.last, calls, watched, rule) && SafeRun(s, calls, watched, rule)
    ensures Inv(Run(s, calls, watched, rule), watched, rule)
    decreases |calls|
  {
    if calls == [] {
    } else {
      var c := calls[0];
      CallKeepsTheCap(s.table, c);
      if c.key == watched {
        OwnCallsKeepInv(s, watched, rule, c);
      } else {
        OtherCallsKeepInv(s, watched, rule, c);
      }
      RunKeepsInv(Step(s, watched, c), calls[1..], watched, rule);
    }
  }

  /** Hits in the half-open interval [from, from + window), among the first n. */
  function HitsIn(h: seq<real>, n: nat, from: real, window: real): nat
    requires n <= |h|
  {
    if n == 0 then 0 else HitsIn(h, n - 1, from, window) + if from <= h[n - 1] < from + window then 1 else 0
  }

  lemma {:induction false} IntervalIsLive(h: seq<real>, n: nat, from: real, window: real, now: real)
    requires n <= |h| && from <= now < from + window
    ensures HitsIn(h, n, from, window) <= Live(h, n, now, window)
  {
    if n == 0 {
    } else {
      IntervalIsLive(h, n - 1, from, window, now);
    }
  }

  lemma {:induction false} AdmittedHitsAreSpread(h: seq<real>, n: nat, rule: Rule, from: real)
    requires n <= |h| && Admitted(h, rule)
    ensures HitsIn(h, n, from, rule.window) <= rule.limit
  {
    if n == 0 {
    } else {
      AdmittedHitsAreSpread(h, n - 1, rule, from);
      if from <= h[n - 1] < from + rule.window {
        IntervalIsLive(h, n - 1, from, rule.window, h[n - 1]);
        assert Live(h, n - 1, h[n - 1], rule.window) < rule.limit;
      }
    }
  }

  function Booted<K>(start: real): Sys<K> {
    Sys(map[], [], start)
  }

  /** No half-open interval of the watched key's window length holds more than its limit of accepted hits. */
  ghost predicate KeepsTheLimit<K>(s: Sys<K>, calls: seq<Call<K>>, watched: K, rule: Rule)
    requires Legal(s.last, calls, watched, rule)
  {
    var h := Run(s, calls, watched, rule).history;
    forall from :: HitsIn(h, |h|, from, rule.window) <= rule.limit
  }

  /** Whatever other keys and rules are in play, a run that costs the watched key no hit keeps its limit. */
  lemma NoWindowExceedsTheLimit<K>(start: real, calls: seq<Call<K>>, watched: K, rule: Rule)
    requires rule.limit > 0 && Legal(start, calls, watched, rule) && SafeRun(Booted(start), calls, watched, rule)
    ensures KeepsTheLimit(Booted(start), calls, watched, rule)
  {
    SafeRunKeepsTheLimit(Booted(start), calls, watched, rule);
  }

  lemma SafeRunKeepsTheLimit<K>(s: Sys<K>, calls: seq<Call<K>>, watched: K, rule: Rule)
    requires Inv(s, watched, rule) && |s.table| <= MAX_TRACKED_KEYS
    requires Legal(s.last, calls, watched, rule) && SafeRun(s, calls, watched, rule)
    ensures KeepsTheLimit(s, calls, watched, rule)
  {
    RunKeepsInv(s, calls, watched, rule);
    var h := Run(s, calls, watched, rule).history;
    forall from
      ensures HitsIn(h, |h|, from, rule.window) <= rule.limit
    {
      AdmittedHitsAreSpread(h, |h|, rule, from);
    }
  }

  predicate Over<K(==)>(calls: seq<Call<K>>, keys: set<K>) {
    forall i :: 0 <= i < |calls| ==> calls[i].key in keys
  }

  /** While every key that could be tracked fits the table, every run is safe. */
  lemma {:induction false} FewKeysAreSafe<K>(s: Sys<K>, calls: seq<Call<K>>, watched: K, rule: Rule, keys: set<K>)
    requires |keys| <= MAX_TRACKED_KEYS && s.table.Keys <= keys
    requires Legal(s.last, calls, watched, rule) && Over(calls, keys)
    ensures SafeRun(s, calls, watched, rule)
    decreases |calls|
  {
    if calls == [] {
    } else {
      var c := calls[0];
      RoomForAll(s.table, c, keys);
      assert Step(s, watched, c).table.Keys <= keys;
      FewKeysAreSafe(Step(s, watched, c), calls[1..], watched, rule, keys);
    }
  }

  lemma RoomForAll<K>(t: Table<K>, c: Call<K>, keys: set<K>)
    requires |keys| <= MAX_TRACKED_KEYS && t.Keys <= keys && c.key in keys
    ensures !FindsNoRoom(t, c)
  {
    if c.key !in t {
      SubsetIsSmaller(t.Keys + {c.key}, keys);
      assert |t.Keys + {c.key}| == |t| + 1;
    }
  }

  // --- When the limit breaks ----------------------------------------------------------------

  /** An accepted hit is lost exactly when the call finds the table full and its own key not in it. */
  lemma HitIsLostExactlyWhenPruned<K>(t: Table<K>, c: Call<K>)
    requires c.rule.limit > 0 && |t| <= MAX_TRACKED_KEYS && Answer(t, c).retryAfter.None?
    ensures var hits := DropExpired(Queue(t, c.key), c.now, c.rule.window);
            Queue(Answer(t, c).table, c.key) == if FindsNoRoom(t, c) then [] else hits + [c.now]
  {
    PrunesIffNoRoom(t, c);
    QueueAfter(t, c, c.key);
  }

  /** The same call n times. */
  function Burst<K>(c: Call<K>, n: nat): (calls: seq<Call<K>>)
    ensures |calls| == n && forall i :: 0 <= i < n ==> calls[i] == c
  {
    if n == 0 then [] else [c] + Burst(c, n - 1)
  }

  lemma {:induction false} BurstIsLegal<K>(last: real, c: Call<K>, n: nat)
    requires last <= c.now && c.rule.limit > 0
    ensures Legal(last, Burst(c, n), c.key, c.rule)
    decreases n
  {
    if n == 0 {
    } else {
      BurstIsLegal(c.now, c, n - 1);
      assert Burst(c, n)[1..] == Burst(c, n - 1);
    }
  }

  lemma {:induction false} NothingInNoTime(h: seq<real>, n: nat, from: real, window: real)
    requires n <= |h| && window <= 0.0
    ensures HitsIn(h, n, from, window) == 0
  {
    if n == 0 {
    } else {
      NothingInNoTime(h, n - 1, from, window);
    }
  }

  lemma HitsInMore(h: seq<real>, now: real, from: real, window: real)
    ensures HitsIn(h + [now], |h| + 1, from, window) ==
            HitsIn(h, |h|, from, window) + if from <= now < from + window then 1 else 0
  {
    HitsInPrefix(h + [now], h, |h|, from, window);
  }

  lemma {:induction false} HitsInPrefix(h: seq<real>, g: seq<real>, n: nat, from: real, window: real)
    requires n <= |h| && n <= |g| && forall i :: 0 <= i < n ==> h[i] == g[i]
    ensures HitsIn(h, n, from, window) == HitsIn(g, n, from, window)
  {
    if n == 0 {
    } else {
      HitsInPrefix(h, g, n - 1, from, window);
    }
  }

  /** As many calls as the deque still has room for are all accepted, whatever pruning does meanwhile. */
  lemma {:induction false} BurstGoesThrough<K>(s: Sys<K>, c: Call<K>, n: nat)
    requires s.last <= c.now && c.rule.limit > 0 && c.rule.window > 0.0
    requires |Queue(s.table, c.key)| + n <= c.rule.limit
    ensures Legal(s.last, Burst(c, n), c.key, c.rule)
    ensures var h := Run(s, Burst(c, n), c.key, c.rule).history;
            HitsIn(h, |h|, c.now, c.rule.window) == HitsIn(s.history, |s.history|, c.now, c.rule.window) + n
    decreases n
  {
    BurstIsLegal(s.last, c, n);
    if n == 0 {
    } else {
      DropIsSuffix(Queue(s.table, c.key), c.now, c.rule.window);
      QueueAfter(s.table, c, c.key);
      HitsInMore(s.history, c.now, c.now, c.rule.window);
      BurstGoesThrough(Step(s, c.key, c), c, n - 1);
      assert Burst(c, n)[1..] == Burst(c, n - 1);
    }
  }

  /** At a full table a key that is not in it gets one call more than its limit through at a single instant. */
  lemma NoRoomLetsABurstThrough<K>(s: Sys<K>, c: Call<K>)
    requires s.last <= c.now && c.rule.limit > 0 && c.rule.window > 0.0
    requires FindsNoRoom(s.table, c)
    ensures var calls := Burst(c, c.rule.limit + 1);
            && Legal(s.last, calls, c.key, c.rule)
            && var h := Run(s, calls, c.key, c.rule).history;
               HitsIn(h, |h|, c.now, c.rule.window) > c.rule.limit
  {
    var n := c.rule.limit;
    var next := Step(s, c.key, c);
    BurstIsLegal(s.last, c, n + 1);
    HitIsLostExactlyWhenPruned(s.table, c);
    QueueAfter(s.table, c, c.key);
    HitsInMore(s.history, c.now, c.now, c.rule.window);
    BurstGoesThrough(next, c, n);
    assert Burst(c, n + 1)[1..] == Burst(c, n);
    assert Run(s, Burst(c, n + 1), c.key, c.rule) == Run(next, Burst(c, n), c.key, c.rule);
  }

  lemma {:induction false} BurstIsSafe<K>(s: Sys<K>, c: Call<K>, n: nat)
    requires Legal(s.last, Burst(c, n), c.key, c.rule) && |s.table| <= MAX_TRACKED_KEYS && !FindsNoRoom(s.table, c)
    ensures SafeRun(s, Burst(c, n), c.key, c.rule)
    decreases n
  {
    if n == 0 {
    } else {
      var next := Step(s, c.key, c);
      PrunesIffNoRoom(s.table, c);
      CallKeepsTheCap(s.table, c);
      assert c.key in next.table;
      assert Burst(c, n)[1..] == Burst(c, n - 1);
      BurstIsSafe(next, c, n - 1);
    }
  }

  /**
   After any run that kept the key's hits, the limit can be broken by the key's next calls, at
   one instant, exactly when it finds the table full and itself not in it.
   */
  lemma BurstBreaksTheLimitIffNoRoom<K>(s: Sys<K>, watched: K, rule: Rule, now: real)
    requires Inv(s, watched, rule) && |s.table| <= MAX_TRACKED_KEYS && s.last <= now && rule.window > 0.0
    ensures var c := Call(watched, rule, now);
            && Legal(s.last, Burst(c, rule.limit + 1), watched, rule)
            && (KeepsTheLimit(s, Burst(c, rule.limit + 1), watched, rule) <==> !FindsNoRoom(s.table, c))
  {
    var c := Call(watched, rule, now);
    BurstIsLegal(s.last, c, rule.limit + 1);
    if FindsNoRoom(s.table, c) {
      NoRoomLetsABurstThrough(s, c);
    } else {
      BurstIsSafe(s, c, rule.limit + 1);
      SafeRunKeepsTheLimit(s, Burst(c, rule.limit + 1), watched, rule);
    }
  }

  lemma ANewKeyIsTracked<K>(s: Sys<K>, watched: K, c: Call<K>)
    requires c.key !in s.table && c.key != watched && |s.table| < MAX_TRACKED_KEYS && c.rule.limit > 0
    ensures var next := Step(s, watched, c);
            && next.table.Keys == s.table.Keys + {c.key} && |next.table| == |s.table| + 1
            && next.history == s.history && next.last == c.now
  {
    PrunesIffNoRoom(s.table, c);
    assert Trimmed(s.table, c.key, c.rule.window, c.now) == s.table[c.key := []];
  }

  /** Other keys fill the table with one call each, and then the watched key's burst goes through. */
  lemma {:induction false} FillThenBurst<K>(s: Sys<K>, keys: set<K>, watched: K, rule: Rule)
    returns (calls: seq<Call<K>>)
    requires rule.limit > 0 && rule.window > 0.0
    requires watched in keys && |keys| > MAX_TRACKED_KEYS
    requires s.table.Keys <= keys - {watched} && |s.table| <= MAX_TRACKED_KEYS
    ensures Legal(s.last, calls, watched, rule) && Over(calls, keys) && !KeepsTheLimit(s, calls, watched, rule)
    decreases MAX_TRACKED_KEYS - |s.table|
  {
    if |s.table| == MAX_TRACKED_KEYS {
      calls := Burst(Call(watched, rule, s.last), rule.limit + 1);
      NoRoomLetsABurstThrough(s, Call(watched, rule, s.last));
    } else {
      var key := AnotherKey(s.table.Keys, keys, watched);
      var c := Call(key, rule, s.last);
      ANewKeyIsTracked(s, watched, c);
      var rest := FillThenBurst(Step(s, watched, c), keys, watched, rule);
      calls := [c] + rest;
      assert calls[1..] == rest;
      assert Run(s, calls, watched, rule) == Run(Step(s, watched, c), rest, watched, rule);
    }
  }

  lemma AnotherKey<K>(some: set<K>, keys: set<K>, watched: K) returns (key: K)
    requires watched in keys && |keys| > MAX_TRACKED_KEYS > |some| && some <= keys - {watched}
    ensures key in keys && key !in some && key != watched
  {
    assert |keys - {watched}| == |keys| - 1;
    assert keys - {watched} != some;
    key :| key in keys - {watched} && key !in some;
  }

  /** From an empty table, any 10,001 keys have a run in which one of them gets more than its limit through. */
  lemma OverTheCapTheBoundFails<K>(start: real, keys: set<K>, watched: K, rule: Rule) returns (calls: seq<Call<K>>)
    requires rule.limit > 0 && rule.window > 0.0 && watched in keys && |keys| > MAX_TRACKED_KEYS
    ensures Legal(start, calls, watched, rule) && Over(calls, keys)
    ensures !KeepsTheLimit(Booted(start), calls, watched, rule)
  {
    calls := FillThenBurst(Booted(start), keys, watched, rule);
  }

  ghost predicate EveryRunKeepsTheLimit<K(!new)>(start: real, keys: set<K>, watched: K, rule: Rule) {
    forall calls: seq<Call<K>> :: Legal(start, calls, watched, rule) && Over(calls, keys) ==>
      KeepsTheLimit(Booted(start), calls, watched, rule)
  }

  /**
   Every run over a set of keys keeps the limit of one of them exactly when the set fits the
   table. (A window of no length holds no hits at all.)
   */
  lemma TheLimitHoldsIffTheKeysFit<K(!new)>(start: real, keys: set<K>, watched: K, rule: Rule)
    requires rule.limit > 0 && watched in keys
    ensures EveryRunKeepsTheLimit(start, keys, watched, rule) <==> |keys| <= MAX_TRACKED_KEYS || rule.window <= 0.0
  {
    if |keys| <= MAX_TRACKED_KEYS {
      forall calls: seq<Call<K>> | Legal(start, calls, watched, rule) && Over(calls, keys)
        ensures KeepsTheLimit(Booted(start), calls, watched, rule)
      {
        FewKeysAreSafe(Booted(start), calls, watched, rule, keys);
        NoWindowExceedsTheLimit(start, calls, watched, rule);
      }
    } else if rule.window <= 0.0 {
      forall calls: seq<Call<K>> | Legal(start, calls, watched, rule) && Over(calls, keys)
        ensures KeepsTheLimit(Booted(start), calls, watched, rule)
      {
        var h := Run(Booted(start), calls, watched, rule).history;
        forall from
          ensures HitsIn(h, |h|, from, rule.window) <= rule.limit
        {
          NothingInNoTime(h, |h|, from, rule.window);
        }
      }
    } else {
      var calls := OverTheCapTheBoundFails(start, keys, watched, rule);
    }
  }

  // --- Waiting -----------------------------------------------------------------------------

  lemma DropNothing(q: seq<real>, now: real, window: real)
    requires q != [] && now - q[0] < window
    ensures DropExpired(q, now, window) == q
  {
  }

  /**
   A rejected call counts for nothing, and its answer is exact: any retry before the
   returned number of seconds is rejected again, and one after exactly that long succeeds.
   */
  lemma RetryAfterIsExact<K>(s: Sys<K>, watched: K, rule: Rule, now: real, later: real)
    requires Inv(s, watched, rule) && s.last <= now <= later
    requires Answer(s.table, Call(watched, rule, now)).retryAfter.Some?
    ensures var r := Answer(s.table, Call(watched, rule, now));
            && Step(s, watched, Call(watched, rule, now)).history == s.history
            && r.retryAfter.value > 0.0
            && (later < now + r.retryAfter.value ==> Answer(r.table, Call(watched, rule, later)).retryAfter.Some?)
            && (later == now + r.retryAfter.value ==> Answer(r.table, Call(watched, rule, later)).retryAfter.None?)
  {
    var c := Call(watched, rule, now);
    var hits := DropExpired(Queue(s.table, watched), now, rule.window);
    DropIsSuffix(Queue(s.table, watched), now, rule.window);
    TrimmedIsLive(Queue(s.table, watched), s.history, rule, s.last, now);
    var r := Answer(s.table, c);
    QueueAfter(s.table, c, watched);
    QueueAfter(r.table, Call(watched, rule, later), watched);
    if later < now + r.retryAfter.value {
      DropNothing(hits, later, rule.window);
    } else if later == now + r.retryAfter.value {
      assert DropExpired(hits, later, rule.window) == DropExpired(hits[1..], later, rule.window);
      DropIsSuffix(hits[1..], later, rule.window);
    }
  }

  // --- Pruning -----------------------------------------------------------------------------

  /** For windows up to an hour, pruning a table changes no later decision about any key in it. */
  lemma PruningIsInvisible<K>(t: Table<K>, k: K, rule: Rule, now: real, later: real)
    requires rule.limit > 0 && rule.window <= PRUNE_AFTER && now <= later && Sorted(Queue(t, k))
    ensures Answer(Pruned(t, now), Call(k, rule, later)).retryAfter == Answer(t, Call(k, rule, later)).retryAfter
  {
    if k in t && Idle(t[k], now) {
      AllDropped(t[k], later, rule.window);
    }
  }

  lemma {:induction false} AllDropped(q: seq<real>, later: real, window: real)
    requires Sorted(q) && (q != [] ==> later - q[|q| - 1] >= window)
    ensures DropExpired(q, later, window) == []
  {
    if q == [] {
    } else {
      assert q[0] <= q[|q| - 1];
      AllDropped(q[1..], later, window);
    }
  }
}
