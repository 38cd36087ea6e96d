/** Vocabulary shared by every screen of the portfolio: random draws, the
    JavaScript `slice(-k)` window, the capped rolling history built on it, and
    the 25/50/75/100 progress bands that pick a status label. */
module Common {

  /** One value of `Math.random()`: a real in [0, 1). Every random choice of the
      source is passed in as one of these instead of being drawn. */
  type Draw = r: real | 0.0 <= r < 1.0

  datatype Option<T> = None | Some(value: T)

  /** `Math.floor(d * n)`: the index a draw selects in a collection of n items. */
  function PickIndex(d: Draw, n: nat): (k: nat)
    requires n > 0
    ensures k < n
    ensures k as real <= d * n as real < k as real + 1.0
  {
    Scale(d, n as real).Floor
  }

  /** `d * m`: a draw scaled to the half-open interval [0, m). */
  function Scale(d: Draw, m: real): (x: real)
    requires m > 0.0
    ensures 0.0 <= x < m
  {
    d * m
  }

  /** `d * width - half`: a draw spread over the half-open interval [-half, half). */
  function Spread(d: Draw, half: real): (x: real)
    requires half > 0.0
    ensures -half <= x < half
  {
    d * (2.0 * half) - half
  }

  /** `Math.random() * n` for a non-negative window extent n. */
  function Across(d: Draw, n: nat): (x: real)
    ensures 0.0 <= x <= n as real
    ensures n > 0 ==> x < n as real
  {
    var w := n as real;
    assert d * w <= w by { assert (1.0 - d) * w >= 0.0; }
    assert n > 0 ==> d * w < w by {
      if n > 0 { assert (1.0 - d) * w > 0.0; }
    }
    d * w
  }

  function Min(a: int, b: int): int { if a < b then a else b }

  /** JavaScript `s.slice(-k)` for a positive k: the newest (at most) k elements. */
  function Last<T>(s: seq<T>, k: nat): (r: seq<T>)
    requires k > 0
    ensures |r| == Min(|s|, k)
    ensures r == s[|s| - |r|..]
  {
    if |s| <= k then s else s[|s| - k..]
  }

  ghost predicate IsSuffix<T>(r: seq<T>, s: seq<T>) {
    |r| <= |s| && r == s[|s| - |r|..]
  }

  /** Each entry of a suffix is the entry at the same distance from the end. */
  lemma SuffixIndex<T>(r: seq<T>, s: seq<T>)
    requires IsSuffix(r, s)
    ensures forall i :: 0 <= i < |r| ==> r[i] == s[|s| - |r| + i]
  {
  }

  /** A suffix of a pool with x appended holds only elements that satisfy ok
      when x and every element of the pool do. */
  lemma SuffixOfPushAll<T>(pool: seq<T>, x: T, r: seq<T>, ok: T -> bool)
    requires IsSuffix(r, pool + [x]) && ok(x)
    requires forall i :: 0 <= i < |pool| ==> ok(pool[i])
    ensures forall i :: 0 <= i < |r| ==> ok(r[i])
  {
    forall i | 0 <= i < |r| ensures ok(r[i]) {
      var j := |pool| + 1 - |r| + i;
      assert r[i] == (pool + [x])[j];
    }
  }

  /** `[...prev.slice(-k), x]`: keep the newest k entries and append x, so the
      history holds at most k + 1 entries and the oldest are evicted first. */
  function PushCapped<T>(s: seq<T>, x: T, k: nat): (r: seq<T>)
    requires k > 0
    ensures |r| == Min(|s| + 1, k + 1)
    ensures |r| <= k + 1 && r[|r| - 1] == x
    ensures IsSuffix(r, s + [x])
  {
    var r := Last(s, k) + [x];
    assert r == (s + [x])[|s| + 1 - |r|..];
    r
  }

  /** A capped history is always the newest k + 1 entries of the unbounded log
      of everything ever pushed: pushing onto the window of a log gives the
      window of the extended log (FIFO eviction). */
  lemma PushCappedTracksLog<T>(log: seq<T>, x: T, k: nat)
    requires k > 0
    ensures PushCapped(Last(log, k + 1), x, k) == Last(log + [x], k + 1)
  {
    var w := Last(log, k + 1);
    var lhs := PushCapped(w, x, k);
    var rhs := Last(log + [x], k + 1);
    assert |lhs| == |rhs|;
    forall i | 0 <= i < |lhs| ensures lhs[i] == rhs[i] {
      if i < |lhs| - 1 {
        assert lhs[i] == Last(w, k)[i];
        assert Last(w, k)[i] == w[|w| - |Last(w, k)| + i];
      }
    }
  }

  /** Index of the progress band a value falls in, using the thresholds
      25, 50, 75 and 100 shared by the loading screens' status labels. */
  function ThresholdBand(p: real): (b: nat)
    ensures b <= 4
    ensures b == 0 <==> p < 25.0
    ensures b == 1 <==> 25.0 <= p < 50.0
    ensures b == 2 <==> 50.0 <= p < 75.0
    ensures b == 3 <==> 75.0 <= p < 100.0
    ensures b == 4 <==> p >= 100.0
  {
    if p < 25.0 then 0
    else if p < 50.0 then 1
    else if p < 75.0 then 2
    else if p < 100.0 then 3
    else 4
  }

  /** A growing progress value never moves back to an earlier label. */
  lemma ThresholdBandMonotone(p: real, q: real)
    requires p <= q
    ensures ThresholdBand(p) <= ThresholdBand(q)
  {
  }
}
