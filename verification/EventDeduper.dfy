/** The agent's event filter: a bounded, expiring cache of recently admitted
    event keys, one per event source, kept beside a FIFO of slots. Expiry takes
    keys out of the cache but leaves their slots in the FIFO, so a stale slot can
    later evict a key that was admitted again.

    Time is in nanoseconds. The reference semantics is a predicate on the history
    of admissions (`Remembered`); the imperative filter is proved to answer
    exactly as that predicate does.
 */
module EventDeduper {
  import opened Common

  const DEDUP_WINDOW: int := 300_000_000_000

  datatype Deduper = Deduper(entries: map<string, int>, order: seq<string>)

  const EMPTY := Deduper(map[], [])

  /** One call of the filter that got as far as the cache, or one admission. */
  datatype Stamped = Stamped(key: string, time: int)

  // ---------------------------------------------------------------- the code

  function Live(entries: map<string, int>, now: int): map<string, int> {
    map k | k in entries && now - entries[k] <= DEDUP_WINDOW :: entries[k]
  }

  function EvictTo(d: Deduper, max: nat): Deduper
    decreases |d.order|
  {
    if |d.order| <= max then d
    else EvictTo(Deduper(d.entries - {d.order[0]}, d.order[1..]), max)
  }

  /** The effect of one offer on the cache of its source, and whether it is skipped. */
  function Offer(d: Deduper, key: string, now: int, max: nat): (Deduper, bool) {
    var live := Live(d.entries, now);
    if key in live then (Deduper(live, d.order), true)
    else (EvictTo(Deduper(live[key := now], d.order + [key]), max), false)
  }

  // ---------------------------------------------------- reference semantics

  const FIVE_MINUTES: int := 5 * 60 * 1_000_000_000

  predicate IsLatest(h: seq<Stamped>, k: string, a: nat) {
    a < |h| && h[a].key == k && forall i :: a < i < |h| ==> h[i].key != k
  }

  /** Some slot of `k` was pushed out of the FIFO at or after admission `a`. */
  ghost predicate Evicted(h: seq<Stamped>, k: string, a: nat, max: nat) {
    exists b :: 0 <= b < |h| && h[b].key == k && a <= b + max < |h|
  }

  ghost predicate Remembered(h: seq<Stamped>, k: string, now: int, max: nat) {
    exists a: nat ::
      IsLatest(h, k, a) && now - h[a].time <= FIVE_MINUTES && !Evicted(h, k, a, max)
  }

  ghost predicate Chronological(h: seq<Stamped>) {
    forall i, j :: 0 <= i < j < |h| ==> h[i].time <= h[j].time
  }

  /** What the cache must look like after the admissions `h`, as of time `now`. */
  ghost predicate Represents(d: Deduper, h: seq<Stamped>, now: int, max: nat) {
    && |d.order| == (if |h| < max then |h| else max)
    && (forall i :: 0 <= i < |d.order| ==> d.order[i] == h[|h| - |d.order| + i].key)
    && (forall k :: k in d.entries <==> Remembered(h, k, now, max))
    && (forall k, a: nat :: k in d.entries && IsLatest(h, k, a) ==> d.entries[k] == h[a].time)
  }

  // ---------------------------------------------------------- one offer

  lemma {:induction false} LiveIsRemembered(d: Deduper, h: seq<Stamped>, last: int, now: int, max: nat)
    requires Represents(d, h, last, max) && last <= now
    ensures Represents(Deduper(Live(d.entries, now), d.order), h, now, max)
  {
    var live := Live(d.entries, now);
    forall k ensures k in live <==> Remembered(h, k, now, max) {
      if k in live {
        var a: nat :| IsLatest(h, k, a) && last - h[a].time <= FIVE_MINUTES && !Evicted(h, k, a, max);
        assert d.entries[k] == h[a].time;
      }
      if Remembered(h, k, now, max) {
        var a: nat :| IsLatest(h, k, a) && now - h[a].time <= FIVE_MINUTES && !Evicted(h, k, a, max);
        assert Remembered(h, k, last, max);
      }
    }
  }

  lemma {:induction false} LatestAfterAppend(h: seq<Stamped>, s: Stamped, k: string, a: nat)
    ensures IsLatest(h + [s], k, a) <==> if s.key == k then a == |h| else IsLatest(h, k, a)
  {
    var h' := h + [s];
    assert h'[|h|] == s;
    assert forall i :: 0 <= i < |h| ==> h'[i] == h[i];
  }

  lemma {:induction false} EvictedAfterAppend(h: seq<Stamped>, s: Stamped, k: string, a: nat, max: nat)
    requires 0 < max && a <= |h|
    ensures Evicted(h + [s], k, a, max) <==>
            Evicted(h, k, a, max) || (max <= |h| && h[|h| - max].key == k)
  {
    var h' := h + [s];
    if Evicted(h, k, a, max) {
      var b :| 0 <= b < |h| && h[b].key == k && a <= b + max < |h|;
      assert h'[b].key == k;
    }
    if max <= |h| && h[|h| - max].key == k {
      assert h'[|h| - max].key == k;
    }
  }

  /** After an admission a key is remembered iff it is the new one or was
      remembered before, and it does not own the slot that falls out. */
  lemma {:induction false} RememberedAfterAppend(h: seq<Stamped>, s: Stamped, k: string, max: nat)
    requires 0 < max
    ensures Remembered(h + [s], k, s.time, max) <==>
            && (k == s.key || Remembered(h, k, s.time, max))
            && !(max <= |h| && h[|h| - max].key == k)
  {
    var h' := h + [s];
    if k == s.key {
      LatestAfterAppend(h, s, k, |h|);
      EvictedAfterAppend(h, s, k, |h|, max);
      assert !Evicted(h, k, |h|, max);
      forall a: nat | IsLatest(h', k, a) ensures a == |h| { LatestAfterAppend(h, s, k, a); }
    } else {
      forall a: nat | a <= |h|
        ensures IsLatest(h', k, a) <==> IsLatest(h, k, a)
        ensures Evicted(h', k, a, max) <==> Evicted(h, k, a, max) || (max <= |h| && h[|h| - max].key == k)
      {
        LatestAfterAppend(h, s, k, a);
        EvictedAfterAppend(h, s, k, a, max);
      }
    }
  }

  /** Appending a slot and evicting down to `max` represents the longer history. */
  lemma {:induction false} AdmissionRepresents(d: Deduper, h: seq<Stamped>, s: Stamped, max: nat)
    requires 0 < max && Represents(d, h, s.time, max)
    ensures Represents(EvictTo(Deduper(d.entries[s.key := s.time], d.order + [s.key]), max), h + [s], s.time, max)
  {
    var h', d1 := h + [s], Deduper(d.entries[s.key := s.time], d.order + [s.key]);
    var d' := EvictTo(d1, max);
    if |d1.order| > max {
      assert d1.order[0] == h[|h| - max].key;
      var d2 := Deduper(d1.entries - {d1.order[0]}, d1.order[1..]);
      assert d' == EvictTo(d2, max) == d2;
    }
    forall k ensures k in d'.entries <==> Remembered(h', k, s.time, max) {
      RememberedAfterAppend(h, s, k, max);
    }
    forall k, a: nat | k in d'.entries && IsLatest(h', k, a) ensures d'.entries[k] == h'[a].time {
      LatestAfterAppend(h, s, k, a);
    }
  }

  /** One offer answers exactly as the reference predicate, and the cache keeps
      representing the history. */
  lemma {:induction false} OfferIsExact(d: Deduper, h: seq<Stamped>, last: int, key: string, now: int, max: nat)
    requires 0 < max && last <= now && Represents(d, h, last, max)
    ensures var (d', skip) := Offer(d, key, now, max);
            && (skip <==> Remembered(h, key, now, max))
            && Represents(d', if skip then h else h + [Stamped(key, now)], now, max)
  {
    LiveIsRemembered(d, h, last, now, max);
    var live := Live(d.entries, now);
    if key !in live {
      AdmissionRepresents(Deduper(live, d.order), h, Stamped(key, now), max);
    }
  }

  lemma {:induction false} EmptyRepresentsNothing(now: int, max: nat)
    ensures Represents(EMPTY, [], now, max)
  {
  }

  // ---------------------------------------------------------- whole runs

  /** The code's answers to a run of offers at one source. */
  function Run(calls: seq<Stamped>, max: nat): (r: (Deduper, seq<bool>))
    ensures |r.1| == |calls|
  {
    if calls == [] then (EMPTY, [])
    else
      var n := |calls| - 1;
      var (d, answers) := Run(calls[..n], max);
      var (d', skip) := Offer(d, calls[n].key, calls[n].time, max);
      (d', answers + [skip])
  }

  /** The admissions and the answers according to the reference predicate alone. */
  ghost function Reference(calls: seq<Stamped>, max: nat): (r: (seq<Stamped>, seq<bool>))
    ensures |r.1| == |calls|
  {
    if calls == [] then ([], [])
    else
      var n := |calls| - 1;
      var (h, answers) := Reference(calls[..n], max);
      if Remembered(h, calls[n].key, calls[n].time, max) then (h, answers + [true])
      else (h + [calls[n]], answers + [false])
  }

  /** For every run with a non-decreasing clock, the cache answers as the reference
      does and represents exactly the reference's admissions. */
  lemma {:induction false} RunRefinesReference(calls: seq<Stamped>, max: nat)
    requires 0 < max && Chronological(calls)
    ensures Run(calls, max).1 == Reference(calls, max).1
    ensures calls != [] ==>
              Represents(Run(calls, max).0, Reference(calls, max).0, calls[|calls| - 1].time, max)
  {
    if calls != [] {
      var n := |calls| - 1;
      RunRefinesReference(calls[..n], max);
      var d, h := Run(calls[..n], max).0, Reference(calls[..n], max).0;
      var last := if n == 0 then calls[n].time else calls[n - 1].time;
      EmptyRepresentsNothing(last, max);
      OfferIsExact(d, h, last, calls[n].key, calls[n].time, max);
    }
  }

  /** Every admission in the reference history is a call that was let through. */
  lemma {:induction false} AdmissionsAreCalls(calls: seq<Stamped>, max: nat, i: nat)
    requires i < |Reference(calls, max).0|
    ensures exists j :: 0 <= j < |calls| && !Reference(calls, max).1[j] && calls[j] == Reference(calls, max).0[i]
  {
    var n := |calls| - 1;
    var (h, answers) := Reference(calls[..n], max);
    if i < |h| {
      AdmissionsAreCalls(calls[..n], max, i);
      var j :| 0 <= j < n && !answers[j] && calls[..n][j] == h[i];
      assert Reference(calls, max).1[j] == answers[j];
      assert !Reference(calls, max).1[j] && calls[j] == Reference(calls, max).0[i];
    } else {
      assert !Reference(calls, max).1[n];
    }
  }

  lemma {:induction false} RunSnoc(calls: seq<Stamped>, c: Stamped, max: nat)
    ensures var (d, answers) := Run(calls, max);
            var (d', skip) := Offer(d, c.key, c.time, max);
            Run(calls + [c], max) == (d', answers + [skip])
  {
    assert (calls + [c])[..|calls|] == calls;
  }

  lemma {:induction false} RunPrefix(calls: seq<Stamped>, max: nat, m: nat)
    requires m <= |calls|
    ensures Run(calls[..m], max).1 == Run(calls, max).1[..m]
  {
    if m == |calls| {
      assert calls[..m] == calls;
    } else {
      var n := |calls| - 1;
      RunPrefix(calls[..n], max, m);
      assert calls[..n][..m] == calls[..m];
    }
  }

  lemma {:induction false} LastSkipHasWitness(calls: seq<Stamped>, max: nat)
    requires 0 < max && Chronological(calls) && calls != [] && Run(calls, max).1[|calls| - 1]
    ensures var i := |calls| - 1;
            exists j :: && 0 <= j < i && !Run(calls[..i], max).1[j] && calls[j].key == calls[i].key
                        && 0 <= calls[i].time - calls[j].time <= FIVE_MINUTES
  {
    var n := |calls| - 1;
    var prefix := calls[..n];
    RunRefinesReference(calls, max);
    RunRefinesReference(prefix, max);
    var h := Reference(prefix, max).0;
    assert Remembered(h, calls[n].key, calls[n].time, max);
    var a: nat :| IsLatest(h, calls[n].key, a) && calls[n].time - h[a].time <= FIVE_MINUTES;
    AdmissionsAreCalls(prefix, max, a);
    var j :| 0 <= j < |prefix| && !Reference(prefix, max).1[j] && prefix[j] == h[a];
    assert calls[j] == prefix[j] && !Run(prefix, max).1[j];
  }

  /** No skip without cause: a skipped offer repeats the key of an earlier offer
      that was let through no more than one window before. */
  lemma {:induction false} SkipsHaveWitnesses(calls: seq<Stamped>, max: nat, i: nat)
    requires 0 < max && Chronological(calls) && i < |calls| && Run(calls, max).1[i]
    ensures exists j :: && 0 <= j < i && !Run(calls, max).1[j] && calls[j].key == calls[i].key
                        && 0 <= calls[i].time - calls[j].time <= FIVE_MINUTES
  {
    var upTo := calls[..i + 1];
    RunPrefix(calls, max, i + 1);
    RunPrefix(calls, max, i);
    assert upTo[..i] == calls[..i];
    LastSkipHasWitness(upTo, max);
    var j :| && 0 <= j < i && !Run(calls[..i], max).1[j] && upTo[j].key == upTo[i].key
             && 0 <= upTo[i].time - upTo[j].time <= FIVE_MINUTES;
    assert !Run(calls, max).1[j] && calls[j].key == calls[i].key;
  }

  /** While no slot has been pushed out, the cache is a plain scan of the history. */
  lemma {:induction false} NoEvictionIsPlainScan(h: seq<Stamped>, k: string, now: int, max: nat)
    requires Chronological(h) && |h| <= max
    ensures Remembered(h, k, now, max) <==>
            exists i :: 0 <= i < |h| && h[i].key == k && now - h[i].time <= FIVE_MINUTES
  {
    if i :| 0 <= i < |h| && h[i].key == k && now - h[i].time <= FIVE_MINUTES {
      var a := LatestFrom(h, k, i);
      assert !Evicted(h, k, a, max);
    }
  }

  lemma {:induction false} LatestFrom(h: seq<Stamped>, k: string, i: nat) returns (a: nat)
    requires i < |h| && h[i].key == k
    ensures i <= a && IsLatest(h, k, a)
    decreases |h| - i
  {
    if j :| i < j < |h| && h[j].key == k {
      a := LatestFrom(h, k, j);
    } else {
      a := i;
    }
  }

  /** The cache and its FIFO never hold more than `max` keys. */
  lemma {:induction false} CacheIsBounded(d: Deduper, h: seq<Stamped>, now: int, max: nat)
    requires Represents(d, h, now, max)
    ensures |d.order| <= max && |d.entries| <= max
    ensures forall k :: k in d.entries ==> k in d.order
  {
    forall k | k in d.entries ensures k in d.order {
      var a: nat :| IsLatest(h, k, a) && !Evicted(h, k, a, max);
      assert a + max >= |h|;
      assert d.order[a - (|h| - |d.order|)] == k;
    }
    var slots := set i | 0 <= i < |d.order| :: d.order[i];
    assert d.entries.Keys <= slots;
    SlotsBound(d.order);
    SubsetCardinality(d.entries.Keys, slots);
  }

  lemma {:induction false} SlotsBound(s: seq<string>)
    ensures |set i | 0 <= i < |s| :: s[i]| <= |s|
  {
    var all := set i | 0 <= i < |s| :: s[i];
    if s == [] {
      assert all == {};
    } else {
      var rest := s[..|s| - 1];
      SlotsBound(rest);
      var fewer := set i | 0 <= i < |rest| :: rest[i];
      assert all == fewer + {s[|s| - 1]} by {
        forall i | 0 <= i < |s| - 1 ensures s[i] in fewer { assert rest[i] == s[i]; }
      }
    }
  }

  lemma {:induction false} StaleSlotOffers(a: string, b: string) returns (d1: Deduper, d2: Deduper, d3: Deduper)
    requires a != b
    ensures var w := FIVE_MINUTES + 1;
            && Offer(EMPTY, a, 0, 2) == (d1, false) && Offer(d1, a, w, 2) == (d2, false)
            && Offer(d2, b, w + 1, 2) == (d3, false) && a !in d3.entries
  {
    var w := FIVE_MINUTES + 1;
    d1, d2, d3 := Deduper(map[a := 0], [a]), Deduper(map[a := w], [a, a]), Deduper(map[b := w + 1], [a, b]);
    assert Live(EMPTY.entries, 0)[a := 0] == d1.entries && [] + [a] == d1.order;
    assert Live(d1.entries, w)[a := w] == d2.entries && [a] + [a] == d2.order;
    var full := Deduper(map[a := w, b := w + 1], [a, a, b]);
    assert Live(d2.entries, w + 1)[b := w + 1] == full.entries && d2.order + [b] == full.order;
    assert full.entries - {a} == d3.entries && full.order[1..] == [a, b];
    assert EvictTo(full, 2) == EvictTo(d3, 2) == d3;
  }

  /** Remembering fails where one would expect it to hold: `A` was admitted two
      nanoseconds ago, the cache has room for two keys and only one other key came
      in between, yet `A` is let through again, because the slot of its expired
      first admission evicted it. */
  lemma {:induction false} StaleSlotEvictsRefreshedKey(a: string, b: string)
    requires a != b
    ensures var w := FIVE_MINUTES + 1;
            Run([Stamped(a, 0), Stamped(a, w), Stamped(b, w + 1), Stamped(a, w + 2)], 2).1
            == [false, false, false, false]
  {
    var w := FIVE_MINUTES + 1;
    var c0, c1, c2, c3 := Stamped(a, 0), Stamped(a, w), Stamped(b, w + 1), Stamped(a, w + 2);
    var d1, d2, d3 := StaleSlotOffers(a, b);
    RunSnoc([], c0, 2);
    RunSnoc([c0], c1, 2);
    RunSnoc([c0, c1], c2, 2);
    RunSnoc([c0, c1, c2], c3, 2);
    assert [] + [c0] == [c0] && [c0] + [c1] == [c0, c1];
    assert [c0, c1] + [c2] == [c0, c1, c2] && [c0, c1, c2] + [c3] == [c0, c1, c2, c3];
  }

  // ---------------------------------------------------------- the filter object

  ghost predicate AllRepresent(caches: map<string, Deduper>, history: map<string, seq<Stamped>>,
                               lastCall: map<string, int>, max: int)
  {
    && history.Keys == lastCall.Keys == caches.Keys
    && (forall s :: s in caches ==> 0 < max && Represents(caches[s], history[s], lastCall[s], max))
  }

  lemma {:induction false} AllRepresentAfterUpdate(caches: map<string, Deduper>, history: map<string, seq<Stamped>>,
                                lastCall: map<string, int>, max: int,
                                source: string, d: Deduper, h: seq<Stamped>, now: int)
    requires AllRepresent(caches, history, lastCall, max)
    requires 0 < max && Represents(d, h, now, max)
    ensures AllRepresent(caches[source := d], history[source := h], lastCall[source := now], max)
  {
  }

  /** The filter with its per-source caches. The exclusion patterns and the
      fingerprint are uninterpreted functions. The ghost fields record, for each
      source, its admissions and the time of its latest call. */
  class EventFilter {
    const dedupMaxEntries: int
    const excludePatterns: seq<string -> bool>
    const fingerprint: string -> string
    var dedupBySrc: map<string, Deduper>
    ghost var history: map<string, seq<Stamped>>
    ghost var lastCall: map<string, int>

    ghost predicate Valid()
      reads this
    {
      AllRepresent(dedupBySrc, history, lastCall, dedupMaxEntries)
    }

    ghost predicate Screened(message: string) {
      message == "" || exists i :: 0 <= i < |excludePatterns| && excludePatterns[i](message)
    }

    ghost function Past(source: string): seq<Stamped>
      reads this
    {
      if source in history then history[source] else []
    }

    constructor (dedupMax: int, patterns: seq<string -> bool>, digest: string -> string)
      ensures Valid() && dedupBySrc == map[] && dedupMaxEntries == dedupMax
      ensures excludePatterns == patterns && fingerprint == digest
    {
      dedupMaxEntries := dedupMax;
      excludePatterns := patterns;
      fingerprint := digest;
      dedupBySrc, history, lastCall := map[], map[], map[];
    }

    /** Deletes, one key at a time, the entries older than the window. */
    method Expire(entries: map<string, int>, now: int) returns (live: map<string, int>)
      ensures live == Live(entries, now)
    {
      live := entries;
      var todo := entries.Keys;
      while todo != {}
        invariant todo <= entries.Keys
        invariant forall k :: k in live <==> k in entries && (k in todo || now - entries[k] <= DEDUP_WINDOW)
        invariant forall k :: k in live ==> live[k] == entries[k]
        decreases todo
      {
        var k :| k in todo;
        if now - entries[k] > DEDUP_WINDOW {
          live := live - {k};
        }
        todo := todo - {k};
      }
    }

    /** The cache part of `shouldSkipEvent`: expiry, lookup, append and eviction. */
    method OfferTo(deduper: Deduper, key: string, now: int, ghost h: seq<Stamped>, ghost last: int)
      returns (updated: Deduper, skip: bool)
      requires 0 < dedupMaxEntries && last <= now && Represents(deduper, h, last, dedupMaxEntries)
      ensures (updated, skip) == Offer(deduper, key, now, dedupMaxEntries)
      ensures skip <==> Remembered(h, key, now, dedupMaxEntries)
      ensures Represents(updated, if skip then h else h + [Stamped(key, now)], now, dedupMaxEntries)
    {
      OfferIsExact(deduper, h, last, key, now, dedupMaxEntries);
      var entries := Expire(deduper.entries, now);
      if key in entries {
        return Deduper(entries, deduper.order), true;
      }
      entries := entries[key := now];
      var order := deduper.order + [key];
      ghost var spec := EvictTo(Deduper(entries, order), dedupMaxEntries);
      if |order| > dedupMaxEntries {
        var excess := |order| - dedupMaxEntries;
        for i := 0 to excess
          invariant |order| == dedupMaxEntries + excess - i
          invariant EvictTo(Deduper(entries, order), dedupMaxEntries) == spec
        {
          var oldest := order[0];
          order := order[1..];
          entries := entries - {oldest};
        }
      }
      return Deduper(entries, order), false;
    }

    /** Offers a key to its source's cache. The source skips it iff it remembers
        the key, and only that source's history grows. */
    method Deduplicate(source: string, key: string, now: int) returns (skip: bool)
      requires Valid() && 0 < dedupMaxEntries
      requires source in lastCall ==> lastCall[source] <= now
      modifies this
      ensures Valid()
      ensures skip <==> Remembered(old(Past(source)), key, now, dedupMaxEntries)
      ensures history == old(history)[source := if skip then old(Past(source)) else old(Past(source)) + [Stamped(key, now)]]
      ensures lastCall == old(lastCall)[source := now]
      ensures source in dedupBySrc && dedupBySrc == old(dedupBySrc)[source := dedupBySrc[source]]
    {
      var deduper := if source in dedupBySrc then dedupBySrc[source] else EMPTY;
      ghost var h := Past(source);
      ghost var last := if source in lastCall then lastCall[source] else now;
      EmptyRepresentsNothing(now, dedupMaxEntries);
      deduper, skip := OfferTo(deduper, key, now, h, last);
      h := if skip then h else h + [Stamped(key, now)];
      AllRepresentAfterUpdate(dedupBySrc, history, lastCall, dedupMaxEntries, source, deduper, h, now);
      dedupBySrc := dedupBySrc[source := deduper];
      history := history[source := h];
      lastCall := lastCall[source := now];
    }

    /** `shouldSkipEvent`: screened messages are skipped and leave no trace; with
        deduplication off everything else passes; otherwise the answer is exactly
        whether the source remembers the key of the message. */
    method ShouldSkipEvent(source: string, message: string, now: int) returns (skip: bool)
      requires Valid()
      requires source in lastCall ==> lastCall[source] <= now
      modifies this
      ensures Valid()
      ensures Screened(message) ==> skip
      ensures Screened(message) || dedupMaxEntries <= 0 ==>
                dedupBySrc == old(dedupBySrc) && history == old(history) && lastCall == old(lastCall)
      ensures !Screened(message) && dedupMaxEntries <= 0 ==> !skip
      ensures !Screened(message) && 0 < dedupMaxEntries ==>
                var key := source + "|" + fingerprint(message);
                && (skip <==> Remembered(old(Past(source)), key, now, dedupMaxEntries))
                && history == old(history)[source := if skip then old(Past(source))
                                                     else old(Past(source)) + [Stamped(key, now)]]
                && lastCall == old(lastCall)[source := now]
                && source in dedupBySrc && dedupBySrc == old(dedupBySrc)[source := dedupBySrc[source]]
    {
      if message == "" {
        return true;
      }
      for i := 0 to |excludePatterns|
        invariant forall j :: 0 <= j < i ==> !excludePatterns[j](message)
      {
        if excludePatterns[i](message) {
          return true;
        }
      }
      if dedupMaxEntries <= 0 {
        return false;
      }
      skip := Deduplicate(source, source + "|" + fingerprint(message), now);
    }
  }
}
