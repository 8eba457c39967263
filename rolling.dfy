/** The rolling latency aggregator (src/metrics/rolling.py): three global
    series of timestamped latency samples and per-(symbol, channel) latency
    and staleness series, all trimmed to a time window on every update; the
    counters beside them; the percentile summary printed at most once a
    second; and the per-key statistics exported as CSV rows. Clock readings
    are inputs. */
module Rolling {
  import opened Common
  import opened Normalizer

  /** A sample stamped with the monotonic clock in ms when it was taken. */
  datatype Sample = Sample(t: int, v: int)

  /** A per-stream key: (symbol, channel). */
  type Key = (string, string)

  // ---------------------------------------------------------------------
  // Window eviction
  // ---------------------------------------------------------------------

  /** Timestamps never decrease along the series. */
  ghost predicate Sorted(s: seq<Sample>)
  {
    forall i, j :: 0 <= i < j < |s| ==> s[i].t <= s[j].t
  }

  /** Every timestamp is at most `t`. */
  ghost predicate NotAfter(s: seq<Sample>, t: int)
  {
    forall i :: 0 <= i < |s| ==> s[i].t <= t
  }

  /** Every timestamp is at least `cutoff`. */
  ghost predicate NotBefore(s: seq<Sample>, cutoff: int)
  {
    forall i :: 0 <= i < |s| ==> s[i].t >= cutoff
  }

  /** What repeated `popleft` leaves while the front sample is older than `cutoff`. */
  function Evict(s: seq<Sample>, cutoff: int): (r: seq<Sample>)
    ensures |r| <= |s|
    decreases |s|
  {
    if s != [] && s[0].t < cutoff then Evict(s[1..], cutoff) else s
  }

  /** Eviction drops the longest prefix of samples older than the cutoff and
      nothing else: the rest is an unchanged suffix of the series. */
  lemma {:induction false} EvictDropsOldPrefix(s: seq<Sample>, cutoff: int)
    ensures var r := Evict(s, cutoff);
      && r == s[|s| - |r|..]
      && (forall i :: 0 <= i < |s| - |r| ==> s[i].t < cutoff)
      && (r != [] ==> r[0].t >= cutoff)
    decreases |s|
  {
    if s != [] && s[0].t < cutoff {
      EvictDropsOldPrefix(s[1..], cutoff);
    }
  }

  /** On a time-ordered series eviction keeps exactly the samples at or after the cutoff. */
  lemma EvictSorted(s: seq<Sample>, cutoff: int)
    requires Sorted(s)
    ensures Sorted(Evict(s, cutoff)) && NotBefore(Evict(s, cutoff), cutoff)
    ensures forall x :: x in Evict(s, cutoff) <==> x in s && x.t >= cutoff
  {
    var r := Evict(s, cutoff);
    var k := |s| - |r|;
    EvictDropsOldPrefix(s, cutoff);
    assert forall i :: 0 <= i < |r| ==> r[i] == s[k + i];
    assert r != [] ==> r[0].t >= cutoff;
    assert forall i :: 0 <= i < |r| ==> r[0].t <= r[i].t;
    forall x | x in s && x.t >= cutoff ensures x in r {
      var i :| 0 <= i < |s| && s[i] == x;
      assert i >= k;
      assert r[i - k] == x;
    }
    forall x | x in r ensures x in s && x.t >= cutoff {
      var i :| 0 <= i < |r| && r[i] == x;
      assert s[k + i] == x;
    }
  }

  /** The sample just appended at time `t` survives eviction at `t - window`
      exactly when the window is not negative. */
  lemma AppendedSurvives(s: seq<Sample>, x: Sample, window: int)
    requires Sorted(s) && NotAfter(s, x.t)
    ensures var r := Evict(s + [x], x.t - window);
      (r != [] && r[|r| - 1] == x) <==> window >= 0
  {
    var r := Evict(s + [x], x.t - window);
    EvictDropsOldPrefix(s + [x], x.t - window);
    if window >= 0 {
      var w := s + [x];
      assert w[|w| - 1] == x;
      assert |r| > 0;
      assert r[|r| - 1] == w[|w| - 1];
    }
  }

  /** `while q and q[0][0] < cutoff: q.popleft()` */
  method EvictFront(s: seq<Sample>, cutoff: int) returns (r: seq<Sample>)
    ensures r == Evict(s, cutoff)
  {
    var i := 0;
    assert s[0..] == s;
    while i < |s| && s[i].t < cutoff
      invariant 0 <= i <= |s|
      invariant Evict(s[i..], cutoff) == Evict(s, cutoff)
    {
      EvictStep(s, i, cutoff);
      i := i + 1;
    }
    r := s[i..];
  }

  lemma EvictStep(s: seq<Sample>, i: nat, cutoff: int)
    requires i < |s| && s[i].t < cutoff
    ensures Evict(s[i..], cutoff) == Evict(s[i + 1..], cutoff)
  {
    assert s[i..][1..] == s[i + 1..];
  }

  lemma SortedSnoc(s: seq<Sample>, x: Sample)
    requires Sorted(s) && NotAfter(s, x.t)
    ensures Sorted(s + [x])
  {
  }

  /** The values of a series, in order (`[v for _, v in q]`). */
  function Values(s: seq<Sample>): (r: seq<int>)
    ensures |r| == |s| && forall i :: 0 <= i < |s| ==> r[i] == s[i].v
  {
    seq(|s|, i requires 0 <= i < |s| => s[i].v)
  }

  ghost predicate AllSorted(m: map<Key, seq<Sample>>)
  {
    forall k :: k in m ==> Sorted(m[k])
  }

  ghost predicate AllNotAfter(m: map<Key, seq<Sample>>, t: int)
  {
    forall k :: k in m ==> NotAfter(m[k], t)
  }

  lemma SeriesMapUpdate(m: map<Key, seq<Sample>>, key: Key, s: seq<Sample>, t: int)
    requires Sorted(s) && NotAfter(s, t)
    ensures AllSorted(m) ==> AllSorted(m[key := s])
    ensures AllNotAfter(m, t) ==> AllNotAfter(m[key := s], t)
  {
  }

  /** `d[key].append(x)`, creating the series if needed, then trimming that
      series to the window. */
  function AddSample(m: map<Key, seq<Sample>>, key: Key, x: Sample, cutoff: int): (r: map<Key, seq<Sample>>)
    ensures r.Keys == m.Keys + {key}
  {
    m[key := Evict(SeriesAt(m, key) + [x], cutoff)]
  }

  method AddSampleAt(m: map<Key, seq<Sample>>, key: Key, x: Sample, cutoff: int) returns (r: map<Key, seq<Sample>>)
    requires AllSorted(m) && AllNotAfter(m, x.t)
    ensures r == AddSample(m, key, x, cutoff)
    ensures AllSorted(r) && AllNotAfter(r, x.t)
  {
    var s := AppendAndEvict(SeriesAt(m, key), x, cutoff);
    SeriesMapUpdate(m, key, s, x.t);
    r := m[key := s];
  }

  /** The per-key tables after tracking `e` at time `t` with window start
      `cutoff`: the latency series of the event's key always grows, its
      staleness series only when an earlier exchange timestamp is known, and the
      event's exchange timestamp is remembered. */
  ghost predicate TrackedTables(e: NormalizedEvent, t: int, cutoff: int,
                                latency: map<Key, seq<Sample>>, staleness: map<Key, seq<Sample>>, lastTs: map<Key, int>,
                                latency': map<Key, seq<Sample>>, staleness': map<Key, seq<Sample>>, lastTs': map<Key, int>)
  {
    && latency' == AddSample(latency, KeyOf(e), Sample(t, ExToRecv(e)), cutoff)
    && staleness' == (if KeyOf(e) in lastTs
                      then AddSample(staleness, KeyOf(e), Sample(t, e.tsExchangeMs - lastTs[KeyOf(e)]), cutoff)
                      else staleness)
    && lastTs' == lastTs[KeyOf(e) := e.tsExchangeMs]
  }

  /** The per-key part of `update(event)` on the three tables: the latency
      series of the event's key always grows, its staleness series only when
      an earlier exchange timestamp is known, and the timestamp is remembered. */
  method TrackTables(latency: map<Key, seq<Sample>>, staleness: map<Key, seq<Sample>>, lastTs: map<Key, int>,
                     e: NormalizedEvent, t: int, cutoff: int)
    returns (latency': map<Key, seq<Sample>>, staleness': map<Key, seq<Sample>>, lastTs': map<Key, int>)
    requires AllSorted(latency) && AllSorted(staleness) && AllNotAfter(latency, t) && AllNotAfter(staleness, t)
    ensures TrackedTables(e, t, cutoff, latency, staleness, lastTs, latency', staleness', lastTs')
    ensures AllSorted(latency') && AllSorted(staleness') && AllNotAfter(latency', t) && AllNotAfter(staleness', t)
  {
    var key := KeyOf(e);
    latency' := AddSampleAt(latency, key, Sample(t, ExToRecv(e)), cutoff);
    staleness' := staleness;
    if key in lastTs {
      staleness' := AddSampleAt(staleness, key, Sample(t, e.tsExchangeMs - lastTs[key]), cutoff);
    }
    lastTs' := lastTs[key := e.tsExchangeMs];
  }

  /** `d.get(key, deque())` */
  function SeriesAt(m: map<Key, seq<Sample>>, key: Key): seq<Sample>
  {
    if key in m then m[key] else []
  }

  // ---------------------------------------------------------------------
  // Percentiles
  // ---------------------------------------------------------------------

  ghost predicate Ascending(s: seq<int>)
  {
    forall i, j :: 0 <= i < j < |s| ==> s[i] <= s[j]
  }

  function Insert(x: int, s: seq<int>): (r: seq<int>)
    requires Ascending(s)
    ensures Ascending(r) && multiset(r) == multiset(s) + multiset{x}
  {
    if s == [] || x <= s[0] then
      AscendingCons(x, s);
      [x] + s
    else
      var tail := Insert(x, s[1..]);
      InsertBelow(x, s, tail);
      AscendingCons(s[0], tail);
      assert s == [s[0]] + s[1..];
      assert multiset([s[0]] + tail) == multiset{s[0]} + multiset(tail);
      [s[0]] + tail
  }

  lemma AscendingCons(h: int, t: seq<int>)
    requires Ascending(t) && (t == [] || h <= t[0])
    ensures Ascending([h] + t)
  {
  }

  lemma InsertBelow(x: int, s: seq<int>, tail: seq<int>)
    requires Ascending(s) && s != [] && s[0] < x
    requires multiset(tail) == multiset(s[1..]) + multiset{x}
    ensures forall y :: y in tail ==> s[0] <= y
  {
    forall y | y in tail ensures s[0] <= y {
      assert y in multiset(tail);
      if y != x {
        assert y in multiset(s[1..]);
        assert y in s[1..];
      }
    }
  }

  /** `sorted(values)` */
  function SortInts(s: seq<int>): (r: seq<int>)
    ensures Ascending(r) && multiset(r) == multiset(s)
  {
    if s == [] then []
    else
      assert s == [s[0]] + s[1..];
      Insert(s[0], SortInts(s[1..]))
  }

  /** The nearest-rank index `int(p / 100 * (n - 1))`, taken over exact arithmetic. */
  function RankIndex(p: nat, n: nat): (k: nat)
    requires p <= 100 && n > 0
    ensures k < n
    ensures k * 100 <= p * (n - 1) < (k + 1) * 100
  {
    var m := p * (n - 1);
    MulMonotone(p, 100, n - 1);
    m / 100
  }

  lemma RankIndexMonotone(p: nat, q: nat, n: nat)
    requires p <= q <= 100 && n > 0
    ensures RankIndex(p, n) <= RankIndex(q, n)
  {
    MulMonotone(p, q, n - 1);
  }

  lemma {:induction false} MulMonotone(a: nat, b: nat, c: nat)
    requires a <= b
    ensures a * c <= b * c
  {
    if c > 0 {
      MulMonotone(a, b, c - 1);
      assert a * c == a * (c - 1) + a;
      assert b * c == b * (c - 1) + b;
    }
  }

  function Percentile(values: seq<int>, p: nat): int
    requires values != [] && p <= 100
  {
    var sorted := SortInts(values);
    assert |sorted| == |values| by { assert |multiset(sorted)| == |multiset(values)|; }
    sorted[RankIndex(p, |values|)]
  }

  /** `_percentiles(values, p50, p95, p99)`: each result is one of the values,
      so it lies between the smallest and the largest; no values give zeros. */
  function Percentiles(values: seq<int>, p50: nat, p95: nat, p99: nat): (r: (int, int, int))
    requires p50 <= 100 && p95 <= 100 && p99 <= 100
    ensures values == [] ==> r == (0, 0, 0)
    ensures values != [] ==> r.0 in values && r.1 in values && r.2 in values
    ensures values != [] ==>
      (MinOf(values) <= r.0 <= MaxOf(values) && MinOf(values) <= r.1 <= MaxOf(values)
       && MinOf(values) <= r.2 <= MaxOf(values))
  {
    if values == [] then (0, 0, 0)
    else
      PercentileIsValue(values, p50);
      PercentileIsValue(values, p95);
      PercentileIsValue(values, p99);
      (Percentile(values, p50), Percentile(values, p95), Percentile(values, p99))
  }

  lemma PercentileIsValue(values: seq<int>, p: nat)
    requires values != [] && p <= 100
    ensures Percentile(values, p) in values
  {
    var sorted := SortInts(values);
    assert |sorted| == |values| by { assert |multiset(sorted)| == |multiset(values)|; }
    assert sorted[RankIndex(p, |values|)] in multiset(sorted);
  }

  /** A higher percentile is never below a lower one. */
  lemma PercentilesOrdered(values: seq<int>, p: nat, q: nat)
    requires values != [] && p <= q <= 100
    ensures Percentile(values, p) <= Percentile(values, q)
  {
    var sorted := SortInts(values);
    assert |sorted| == |values| by { assert |multiset(sorted)| == |multiset(values)|; }
    RankIndexMonotone(p, q, |values|);
  }

  /** Identical samples give that value at every percentile. */
  lemma ConstantPercentiles(values: seq<int>, c: int, p50: nat, p95: nat, p99: nat)
    requires values != [] && forall i :: 0 <= i < |values| ==> values[i] == c
    requires p50 <= 100 && p95 <= 100 && p99 <= 100
    ensures Percentiles(values, p50, p95, p99) == (c, c, c)
  {
  }

  // ---------------------------------------------------------------------
  // Series statistics for the CSV export
  // ---------------------------------------------------------------------

  function MinOf(s: seq<int>): (m: int)
    requires s != []
    ensures m in s && forall x :: x in s ==> m <= x
  {
    if |s| == 1 then s[0]
    else
      var m := MinOf(s[1..]);
      assert forall x :: x in s ==> x == s[0] || x in s[1..];
      if s[0] <= m then s[0] else m
  }

  function MaxOf(s: seq<int>): (m: int)
    requires s != []
    ensures m in s && forall x :: x in s ==> x <= m
  {
    if |s| == 1 then s[0]
    else
      var m := MaxOf(s[1..]);
      assert forall x :: x in s ==> x == s[0] || x in s[1..];
      if s[0] >= m then s[0] else m
  }

  function SumOf(s: seq<int>): int
  {
    if s == [] then 0 else s[0] + SumOf(s[1..])
  }

  /** Sum of squared deviations from `mean`. */
  function SquaredDeviations(s: seq<int>, mean: real): (r: real)
    ensures r >= 0.0
  {
    if s == [] then 0.0 else (s[0] as real - mean) * (s[0] as real - mean) + SquaredDeviations(s[1..], mean)
  }

  lemma {:induction false} SumBounds(s: seq<int>, lo: int, hi: int)
    requires forall x :: x in s ==> lo <= x <= hi
    ensures |s| * lo <= SumOf(s) <= |s| * hi
  {
    if s != [] {
      var n := |s| - 1;
      assert forall x :: x in s[1..] ==> x in s;
      SumBounds(s[1..], lo, hi);
      assert s[0] in s;
      MulSucc(n, lo);
      MulSucc(n, hi);
    }
  }

  lemma MulSucc(n: int, x: int)
    ensures (n + 1) * x == n * x + x
  {
  }

  /** count, mean, sample variance, min and max of one exported series. The
      export prints the square root of the variance. */
  datatype Stats = Stats(count: nat, mean: real, variance: real, min: real, max: real)

  function SeriesStats(vals: seq<int>): (st: Stats)
    ensures st.count == |vals|
    ensures vals == [] ==> st == Stats(0, 0.0, 0.0, 0.0, 0.0)
    ensures vals != [] ==> st.min == MinOf(vals) as real && st.max == MaxOf(vals) as real
    ensures vals != [] ==> st.min <= st.mean <= st.max
    ensures vals != [] ==> st.mean == Mean(SumOf(vals), |vals|)
    ensures |vals| <= 1 ==> st.variance == 0.0
    ensures st.variance >= 0.0
  {
    if vals == [] then Stats(0, 0.0, 0.0, 0.0, 0.0)
    else
      var n := |vals|;
      var lo, hi := MinOf(vals), MaxOf(vals);
      SumBounds(vals, lo, hi);
      var mean := Mean(SumOf(vals), n);
      MeanBetween(SumOf(vals), n, lo, hi);
      Stats(n, mean, SampleVariance(vals, mean), lo as real, hi as real)
  }

  function Mean(sum: int, n: nat): (m: real)
    requires n > 0
    ensures m * n as real == sum as real
  {
    sum as real / n as real
  }

  /** Sum of squared deviations over n - 1, or 0 for fewer than two samples. */
  function SampleVariance(vals: seq<int>, mean: real): (v: real)
    ensures v >= 0.0
    ensures |vals| <= 1 ==> v == 0.0
  {
    if |vals| > 1 then SquaredDeviations(vals, mean) / (|vals| - 1) as real else 0.0
  }

  lemma MeanBetween(sum: int, n: nat, lo: int, hi: int)
    requires n > 0 && n * lo <= sum <= n * hi
    ensures lo as real <= Mean(sum, n) <= hi as real
  {
    var m, k := Mean(sum, n), n as real;
    MulReal(n, lo);
    MulReal(n, hi);
    ScaleBelow(lo as real, m, k);
    ScaleBelow(m, hi as real, k);
  }

  lemma MulReal(n: int, x: int)
    ensures (n * x) as real == n as real * x as real
  {
  }

  lemma ScaleBelow(a: real, b: real, k: real)
    requires k > 0.0 && a * k <= b * k
    ensures a <= b
  {
    assert (b - a) * k == b * k - a * k;
  }

  // ---------------------------------------------------------------------
  // Key order: Python compares strings code point by code point, and
  // tuples element by element.
  // ---------------------------------------------------------------------

  predicate StrLt(a: string, b: string)
  {
    if |a| == 0 then |b| > 0
    else if |b| == 0 then false
    else if a[0] != b[0] then a[0] < b[0]
    else StrLt(a[1..], b[1..])
  }

  predicate KeyLt(x: Key, y: Key)
  {
    StrLt(x.0, y.0) || (x.0 == y.0 && StrLt(x.1, y.1))
  }

  lemma {:induction false} StrLtIrreflexive(a: string)
    ensures !StrLt(a, a)
  {
    if |a| > 0 { StrLtIrreflexive(a[1..]); }
  }

  lemma {:induction false} StrLtTransitive(a: string, b: string, c: string)
    requires StrLt(a, b) && StrLt(b, c)
    ensures StrLt(a, c)
  {
    if |a| > 0 && |b| > 0 && |c| > 0 && a[0] == b[0] && b[0] == c[0] {
      StrLtTransitive(a[1..], b[1..], c[1..]);
    }
  }

  lemma {:induction false} StrLtTotal(a: string, b: string)
    ensures StrLt(a, b) || a == b || StrLt(b, a)
  {
    if |a| > 0 && |b| > 0 && a[0] == b[0] {
      StrLtTotal(a[1..], b[1..]);
      if a[1..] == b[1..] { assert a == [a[0]] + a[1..] && b == [b[0]] + b[1..]; }
    }
  }

  /** The key order is a strict total order. */
  lemma KeyOrder(x: Key, y: Key, z: Key)
    ensures !KeyLt(x, x)
    ensures KeyLt(x, y) || x == y || KeyLt(y, x)
    ensures KeyLt(x, y) && KeyLt(y, z) ==> KeyLt(x, z)
  {
    StrLtIrreflexive(x.0);
    StrLtIrreflexive(x.1);
    StrLtTotal(x.0, y.0);
    StrLtTotal(x.1, y.1);
    if KeyLt(x, y) && KeyLt(y, z) {
      if StrLt(x.0, y.0) && StrLt(y.0, z.0) { StrLtTransitive(x.0, y.0, z.0); }
      if x.0 == y.0 && y.0 == z.0 { StrLtTransitive(x.1, y.1, z.1); }
    }
  }

  lemma KeyLtAsymmetric(x: Key, y: Key)
    requires KeyLt(x, y)
    ensures !KeyLt(y, x) && x != y
  {
    KeyOrder(x, y, x);
  }

  ghost predicate StrictlyAscending(s: seq<Key>)
  {
    forall i, j :: 0 <= i < j < |s| ==> KeyLt(s[i], s[j])
  }

  function InsertKey(k: Key, s: seq<Key>): (r: seq<Key>)
    requires StrictlyAscending(s) && k !in s
    ensures StrictlyAscending(r)
    ensures forall x :: x in r <==> x == k || x in s
    ensures |r| == |s| + 1
  {
    if s == [] then [k]
    else
      KeyOrder(k, s[0], k);
      if KeyLt(k, s[0]) then
        assert forall j :: 0 < j < |s| ==> KeyLt(k, s[j]) by {
          forall j | 0 < j < |s| ensures KeyLt(k, s[j]) { KeyOrder(k, s[0], s[j]); }
        }
        [k] + s
      else
        var tail := InsertKey(k, s[1..]);
        assert forall x :: x in tail ==> KeyLt(s[0], x) by {
          forall x | x in tail ensures KeyLt(s[0], x) {
            if x != k { var j :| 0 <= j < |s[1..]| && s[1..][j] == x; assert s[j + 1] == x; }
          }
        }
        [s[0]] + tail
  }

  /** `sorted(keys)` for a set of keys. */
  method SortKeys(keys: set<Key>) returns (r: seq<Key>)
    ensures StrictlyAscending(r)
    ensures forall k :: k in r <==> k in keys
  {
    var rest := keys;
    r := [];
    while rest != {}
      invariant StrictlyAscending(r)
      invariant forall k :: k in keys <==> k in r || k in rest
      invariant forall k :: k in r ==> k !in rest
      decreases |rest|
    {
      var k :| k in rest;
      r := InsertKey(k, r);
      rest := rest - {k};
    }
  }

  /** A set has only one strictly ascending listing, so the export order is determined. */
  lemma {:induction false} AscendingListingUnique(a: seq<Key>, b: seq<Key>)
    requires StrictlyAscending(a) && StrictlyAscending(b)
    requires forall k :: k in a <==> k in b
    ensures a == b
  {
    assert a != [] ==> a[0] in a;
    assert b != [] ==> b[0] in b;
    if a != [] && b != [] {
      assert a[0] == b[0] by {
        var i :| 0 <= i < |b| && b[i] == a[0];
        var j :| 0 <= j < |a| && a[j] == b[0];
        if a[0] != b[0] {
          assert i > 0 && j > 0;
          KeyLtAsymmetric(b[0], a[0]);
        }
      }
      forall k ensures k in a[1..] <==> k in b[1..] {
        if k in a[1..] {
          var i :| 0 <= i < |a[1..]| && a[1..][i] == k;
          assert KeyLt(a[0], a[i + 1]);
          KeyLtAsymmetric(a[0], k);
          assert k in b;
        }
        if k in b[1..] {
          var i :| 0 <= i < |b[1..]| && b[1..][i] == k;
          assert KeyLt(b[0], b[i + 1]);
          KeyLtAsymmetric(b[0], k);
          assert k in a;
        }
      }
      AscendingListingUnique(a[1..], b[1..]);
      assert a == [a[0]] + a[1..] && b == [b[0]] + b[1..];
    }
  }

  /** One exported CSV row. */
  datatype Row = Row(generatedAt: string, symbol: string, channel: string, latency: Stats, staleness: Stats)

  /** The (symbol, channel) of each row. */
  function RowKeys(rows: seq<Row>): (keys: seq<Key>)
    ensures |keys| == |rows| && forall i :: 0 <= i < |rows| ==> keys[i] == (rows[i].symbol, rows[i].channel)
  {
    seq(|rows|, i requires 0 <= i < |rows| => (rows[i].symbol, rows[i].channel))
  }

  // ---------------------------------------------------------------------
  // The periodic summary line
  // ---------------------------------------------------------------------

  const MinSamples := 20

  /** The per-stage section of the summary: p50/p95/p99 and, for the two
      in-process stages, the percentage of events whose latency was exactly 0. */
  datatype Section = Section(quantiles: (int, int, int), zeroRate: Option<real>)

  datatype Summary = Summary(exToRecv: Option<Section>, recvToDecode: Option<Section>,
                             decodeToProc: Option<Section>, messageCounts: map<string, nat>)

  /** `zero / max(1, total) * 100` */
  function ZeroRate(zero: nat, total: nat): (r: real)
    ensures 0.0 <= r
    ensures zero <= total ==> r <= 100.0
    ensures (r == 0.0) <==> zero == 0
  {
    var d := if total > 1 then total else 1;
    assert zero <= total ==> zero as real <= d as real;
    (zero as real / d as real) * 100.0
  }

  function StageSection(values: seq<int>, zeroRate: Option<real>): Option<Section>
  {
    if |values| >= MinSamples then Some(Section(Percentiles(values, 50, 95, 99), zeroRate)) else None
  }

  /** The line `print_stats` prints, or None when it would print nothing. */
  function Summarize(ex: seq<int>, rd: seq<int>, dp: seq<int>, zeroRd: nat, zeroDp: nat, total: nat,
                     counts: map<string, nat>): (r: Option<Summary>)
    ensures r.Some? <==> (|ex| >= MinSamples || |rd| >= MinSamples || |dp| >= MinSamples)
    ensures r.Some? ==>
      ((r.value.exToRecv.Some? <==> |ex| >= MinSamples)
       && (r.value.recvToDecode.Some? <==> |rd| >= MinSamples)
       && (r.value.decodeToProc.Some? <==> |dp| >= MinSamples)
       && r.value.messageCounts == counts)
  {
    var s := Summary(StageSection(ex, None), StageSection(rd, Some(ZeroRate(zeroRd, total))),
                     StageSection(dp, Some(ZeroRate(zeroDp, total))), counts);
    if s.exToRecv.None? && s.recvToDecode.None? && s.decodeToProc.None? then None else Some(s)
  }

  /** Every reported quantile triple is ordered and lies within the stage's samples. */
  lemma SummarySectionsBounded(values: seq<int>, z: Option<real>)
    requires StageSection(values, z).Some?
    ensures var q := StageSection(values, z).value.quantiles;
      q.0 <= q.1 <= q.2 && q.0 in values && q.2 in values
  {
    PercentilesOrdered(values, 50, 95);
    PercentilesOrdered(values, 95, 99);
  }

  // ---------------------------------------------------------------------
  // The aggregator
  // ---------------------------------------------------------------------

  /** `int(x)` for a real: truncation toward zero. */
  function TruncToZero(x: real): (r: int)
    ensures x >= 0.0 ==> r as real <= x < r as real + 1.0
    ensures x < 0.0 ==> r as real - 1.0 < x <= r as real
  {
    if x >= 0.0 then x.Floor else -((-x).Floor)
  }

  /** Exchange-to-receipt latency in ms. */
  function ExToRecv(e: NormalizedEvent): int { e.tsRecvEpochMs - e.tsExchangeMs }

  /** Receipt-to-decoded latency in ns. */
  function RecvToDecode(e: NormalizedEvent): int { e.tsDecodedMonoNs - e.tsRecvMonoNs }

  /** Decoded-to-processed latency in ns. */
  function DecodeToProc(e: NormalizedEvent): int { e.tsProcMonoNs - e.tsDecodedMonoNs }

  function KeyOf(e: NormalizedEvent): Key { (e.symbol, e.channel) }

  class RollingMetrics {
    const windowSeconds: real
    const windowMs: int
    var exToRecv: seq<Sample>
    var recvToDecode: seq<Sample>
    var decodeToProc: seq<Sample>
    var latencyByKey: map<Key, seq<Sample>>
    var stalenessByKey: map<Key, seq<Sample>>
    var lastTsExchange: map<Key, int>
    var messageCounts: map<string, nat>
    var zeroRecvToDecode: nat
    var zeroDecodeToProc: nat
    var totalEvents: nat
    var lastPrintTime: real

    /** Series are time-ordered; a key has a latency series exactly when a last
        exchange timestamp is remembered for it, and a staleness series only
        then; the counters agree with the event total. */
    ghost predicate Valid()
      reads this
    {
      CountsValid() && SeriesValid() && KeysValid()
    }

    ghost predicate CountsValid()
      reads this`zeroRecvToDecode, this`zeroDecodeToProc, this`totalEvents, this`messageCounts
    {
      && zeroRecvToDecode <= totalEvents
      && zeroDecodeToProc <= totalEvents
      && Sum(messageCounts) == totalEvents
    }

    ghost predicate SeriesValid()
      reads this`exToRecv, this`recvToDecode, this`decodeToProc
    {
      Sorted(exToRecv) && Sorted(recvToDecode) && Sorted(decodeToProc)
    }

    ghost predicate KeysValid()
      reads this`latencyByKey, this`stalenessByKey, this`lastTsExchange
    {
      && AllSorted(latencyByKey) && AllSorted(stalenessByKey)
      && latencyByKey.Keys == lastTsExchange.Keys
      && stalenessByKey.Keys <= latencyByKey.Keys
    }

    /** No stored sample is stamped later than `t`: the clock has not gone back. */
    ghost predicate ClockAtOrAfter(t: int)
      reads this`exToRecv, this`recvToDecode, this`decodeToProc, this`latencyByKey, this`stalenessByKey
    {
      && NotAfter(exToRecv, t) && NotAfter(recvToDecode, t) && NotAfter(decodeToProc, t)
      && AllNotAfter(latencyByKey, t) && AllNotAfter(stalenessByKey, t)
    }

    /** `RollingMetrics(window_seconds)`, with the monotonic clock in seconds at creation. */
    constructor (windowSeconds: real, nowSec: real)
      ensures Valid()
      ensures this.windowSeconds == windowSeconds && windowMs == TruncToZero(windowSeconds * 1000.0)
      ensures exToRecv == [] && recvToDecode == [] && decodeToProc == []
      ensures latencyByKey == map[] && stalenessByKey == map[] && lastTsExchange == map[]
      ensures messageCounts == map[] && zeroRecvToDecode == 0 && zeroDecodeToProc == 0 && totalEvents == 0
      ensures lastPrintTime == nowSec
    {
      this.windowSeconds := windowSeconds;
      windowMs := TruncToZero(windowSeconds * 1000.0);
      exToRecv, recvToDecode, decodeToProc := [], [], [];
      latencyByKey, stalenessByKey, lastTsExchange := map[], map[], map[];
      messageCounts := map[];
      zeroRecvToDecode, zeroDecodeToProc, totalEvents := 0, 0, 0;
      lastPrintTime := nowSec;
    }

    /** The counters after counting `e`, given their values before. */
    ghost predicate Counted(e: NormalizedEvent, total: nat, zeroRecv: nat, zeroDecode: nat, counts: map<string, nat>)
      reads this`totalEvents, this`zeroRecvToDecode, this`zeroDecodeToProc, this`messageCounts
    {
      && totalEvents == total + 1
      && zeroRecvToDecode == zeroRecv + (if RecvToDecode(e) == 0 then 1 else 0)
      && zeroDecodeToProc == zeroDecode + (if DecodeToProc(e) == 0 then 1 else 0)
      && messageCounts == counts[e.symbol := At(counts, e.symbol) + 1]
    }

    /** The three global series after appending the latencies of `e` at time
        `t` and trimming to the window, given the series before. */
    ghost predicate Appended(e: NormalizedEvent, t: int, ex: seq<Sample>, rd: seq<Sample>, dp: seq<Sample>)
      reads this`exToRecv, this`recvToDecode, this`decodeToProc
    {
      && exToRecv == Evict(ex + [Sample(t, ExToRecv(e))], t - windowMs)
      && recvToDecode == Evict(rd + [Sample(t, RecvToDecode(e))], t - windowMs)
      && decodeToProc == Evict(dp + [Sample(t, DecodeToProc(e))], t - windowMs)
      && NotBefore(exToRecv, t - windowMs) && NotBefore(recvToDecode, t - windowMs)
      && NotBefore(decodeToProc, t - windowMs)
    }

    /** The per-key tables after tracking `e` at time `t`, given the tables before. */
    ghost predicate Tracked(e: NormalizedEvent, t: int, latency: map<Key, seq<Sample>>,
                            staleness: map<Key, seq<Sample>>, lastTs: map<Key, int>)
      reads this`latencyByKey, this`stalenessByKey, this`lastTsExchange
    {
      TrackedTables(e, t, t - windowMs, latency, staleness, lastTs, latencyByKey, stalenessByKey, lastTsExchange)
    }

    /** `update(event)` with the monotonic clock reading `tMonoMs` in ms. */
    method Update(e: NormalizedEvent, tMonoMs: int)
      requires Valid() && ClockAtOrAfter(tMonoMs)
      modifies this`totalEvents, this`zeroRecvToDecode, this`zeroDecodeToProc, this`messageCounts
      modifies this`exToRecv, this`recvToDecode, this`decodeToProc
      modifies this`latencyByKey, this`stalenessByKey, this`lastTsExchange
      ensures Valid() && ClockAtOrAfter(tMonoMs)
      ensures Counted(e, old(totalEvents), old(zeroRecvToDecode), old(zeroDecodeToProc), old(messageCounts))
      ensures Appended(e, tMonoMs, old(exToRecv), old(recvToDecode), old(decodeToProc))
      ensures Tracked(e, tMonoMs, old(latencyByKey), old(stalenessByKey), old(lastTsExchange))
    {
      CountEvent(e);
      AddLatencies(e, tMonoMs);
      TrackKey(e, tMonoMs);
    }

    /** The event total, the zero-latency counters and the per-symbol count. */
    method CountEvent(e: NormalizedEvent)
      requires CountsValid()
      modifies this`totalEvents, this`zeroRecvToDecode, this`zeroDecodeToProc, this`messageCounts
      ensures CountsValid()
      ensures Counted(e, old(totalEvents), old(zeroRecvToDecode), old(zeroDecodeToProc), old(messageCounts))
    {
      totalEvents := totalEvents + 1;
      if RecvToDecode(e) == 0 {
        zeroRecvToDecode := zeroRecvToDecode + 1;
      }
      if DecodeToProc(e) == 0 {
        zeroDecodeToProc := zeroDecodeToProc + 1;
      }
      SumAdd(messageCounts, e.symbol, 1);
      messageCounts := messageCounts[e.symbol := At(messageCounts, e.symbol) + 1];
    }

    /** The three global series: append, then trim to the window. */
    method AddLatencies(e: NormalizedEvent, tMonoMs: int)
      requires SeriesValid() && ClockAtOrAfter(tMonoMs)
      modifies this`exToRecv, this`recvToDecode, this`decodeToProc
      ensures SeriesValid() && ClockAtOrAfter(tMonoMs)
      ensures Appended(e, tMonoMs, old(exToRecv), old(recvToDecode), old(decodeToProc))
    {
      var cutoff := tMonoMs - windowMs;
      exToRecv := AppendAndEvict(exToRecv, Sample(tMonoMs, ExToRecv(e)), cutoff);
      recvToDecode := AppendAndEvict(recvToDecode, Sample(tMonoMs, RecvToDecode(e)), cutoff);
      decodeToProc := AppendAndEvict(decodeToProc, Sample(tMonoMs, DecodeToProc(e)), cutoff);
    }

    /** The event's (symbol, channel) series: latency always, staleness when an
        earlier exchange timestamp is known; then remember this one. */
    method TrackKey(e: NormalizedEvent, tMonoMs: int)
      requires KeysValid() && ClockAtOrAfter(tMonoMs)
      modifies this`latencyByKey, this`stalenessByKey, this`lastTsExchange
      ensures KeysValid() && ClockAtOrAfter(tMonoMs)
      ensures Tracked(e, tMonoMs, old(latencyByKey), old(stalenessByKey), old(lastTsExchange))
    {
      latencyByKey, stalenessByKey, lastTsExchange :=
        TrackTables(latencyByKey, stalenessByKey, lastTsExchange, e, tMonoMs, tMonoMs - windowMs);
    }

    /** `print_stats(force)` with the monotonic clock reading `now` in seconds:
        rate-limited to once a second unless forced. */
    method PrintStats(force: bool, now: real) returns (line: Option<Summary>)
      modifies this`lastPrintTime
      ensures if !force && now - old(lastPrintTime) < 1.0 then
                line == None && lastPrintTime == old(lastPrintTime)
              else
                lastPrintTime == now
                && line == Summarize(Values(exToRecv), Values(recvToDecode), Values(decodeToProc),
                                     zeroRecvToDecode, zeroDecodeToProc, totalEvents, messageCounts)
    {
      if !force && now - lastPrintTime < 1.0 {
        return None;
      }
      lastPrintTime := now;
      line := Summarize(Values(exToRecv), Values(recvToDecode), Values(decodeToProc),
                        zeroRecvToDecode, zeroDecodeToProc, totalEvents, messageCounts);
    }

    /** The data rows of `export_csv(path)`, one per key seen in either per-key
        table, in key order; `generatedAt` is the UTC time stamp of the export. */
    method ExportRows(generatedAt: string) returns (rows: seq<Row>)
      ensures StrictlyAscending(RowKeys(rows))
      ensures forall k :: k in RowKeys(rows) <==> k in latencyByKey || k in stalenessByKey
      ensures forall i :: 0 <= i < |rows| ==>
                rows[i] == ExportRow(generatedAt, latencyByKey, stalenessByKey, RowKeys(rows)[i])
    {
      var latency, staleness := latencyByKey, stalenessByKey;
      var keys := SortKeys(latency.Keys + staleness.Keys);
      rows := [];
      var i := 0;
      while i < |keys|
        invariant 0 <= i <= |keys|
        invariant RowsFor(rows, generatedAt, latency, staleness, keys, i)
      {
        RowsForSnoc(rows, generatedAt, latency, staleness, keys, i);
        rows := rows + [ExportRow(generatedAt, latency, staleness, keys[i])];
        i := i + 1;
      }
      assert RowKeys(rows) == keys;
    }
  }

  /** The CSV row for one key. */
  function ExportRow(generatedAt: string, latency: map<Key, seq<Sample>>,
                     staleness: map<Key, seq<Sample>>, key: Key): (row: Row)
    ensures row.symbol == key.0 && row.channel == key.1 && row.generatedAt == generatedAt
    ensures row.latency.count == |SeriesAt(latency, key)|
    ensures row.staleness.count == |SeriesAt(staleness, key)|
  {
    Row(generatedAt, key.0, key.1,
        SeriesStats(Values(SeriesAt(latency, key))),
        SeriesStats(Values(SeriesAt(staleness, key))))
  }

  /** `rows` holds the row of each of the first `n` keys, in order. */
  ghost predicate RowsFor(rows: seq<Row>, generatedAt: string, latency: map<Key, seq<Sample>>,
                          staleness: map<Key, seq<Sample>>, keys: seq<Key>, n: nat)
  {
    n <= |keys| && |rows| == n
    && forall j :: 0 <= j < n ==> rows[j] == ExportRow(generatedAt, latency, staleness, keys[j])
  }

  lemma RowsForSnoc(rows: seq<Row>, generatedAt: string, latency: map<Key, seq<Sample>>,
                    staleness: map<Key, seq<Sample>>, keys: seq<Key>, n: nat)
    requires RowsFor(rows, generatedAt, latency, staleness, keys, n) && n < |keys|
    ensures RowsFor(rows + [ExportRow(generatedAt, latency, staleness, keys[n])], generatedAt, latency, staleness, keys, n + 1)
  {
    var r := rows + [ExportRow(generatedAt, latency, staleness, keys[n])];
    assert forall j :: 0 <= j < n ==> r[j] == rows[j];
  }

  /** Append one sample and trim the series to the window. */
  method AppendAndEvict(s: seq<Sample>, x: Sample, cutoff: int) returns (r: seq<Sample>)
    requires Sorted(s) && NotAfter(s, x.t)
    ensures r == Evict(s + [x], cutoff)
    ensures Sorted(r) && NotAfter(r, x.t) && NotBefore(r, cutoff)
  {
    SortedSnoc(s, x);
    EvictSorted(s + [x], cutoff);
    r := EvictFront(s + [x], cutoff);
  }
}
