/**
 Blink and yawn analytics: rolling sixty-second windows of millisecond
 timestamps, one entry per rising edge of "eyes closed" or "mouth open",
 and the stress score derived from the two window sizes.
 */
module RollingWindow {
  import opened Seqs
  import opened Edges

  /** Width of the rolling window in milliseconds. */
  const WindowMs := 60000

  ghost predicate Sorted(ts: seq<int>) {
    forall i, j :: 0 <= i < j < |ts| ==> ts[i] <= ts[j]
  }

  /** The state of a window right after a frame at `now`: ascending, and every
      entry recorded no later than `now` and less than a minute before it. */
  ghost predicate WindowInv(ts: seq<int>, now: int) {
    && Sorted(ts)
    && forall i :: 0 <= i < |ts| ==> now - WindowMs < ts[i] <= now
  }

  /** Appends `now` on a rising edge of the observed condition (true now, false
      at the previous frame with a face); sustained truth appends nothing. */
  function RecordEdge(ts: seq<int>, was: bool, isNow: bool, now: int): seq<int> {
    if isNow && !was then ts + [now] else ts
  }

  /** The eviction test: an entry is kept while it is strictly newer than `cutoff`. */
  function Above(cutoff: int): int -> bool {
    t => t > cutoff
  }

  /** Drops every entry that is a minute old or older, keeping the rest in order. */
  function Evict(ts: seq<int>, now: int): (r: seq<int>)
    ensures forall t :: t in r <==> t in ts && t > now - WindowMs
    ensures forall t :: multiset(r)[t] == if t > now - WindowMs then multiset(ts)[t] else 0
    ensures forall i :: 0 <= i < |r| ==> r[i] > now - WindowMs
    ensures |r| <= |ts|
    ensures Sorted(ts) ==> Sorted(r)
    ensures Sorted(ts) ==> r == ts[|ts| - |r|..]
    ensures Sorted(ts) ==> forall i :: 0 <= i < |ts| - |r| ==> ts[i] <= now - WindowMs
  {
    FilterMembership(ts, Above(now - WindowMs));
    FilterKeepsSorted(ts, Above(now - WindowMs));
    FilterSortedSuffix(ts, now - WindowMs);
    Filter(ts, Above(now - WindowMs))
  }

  /** A window that can be updated at `now`: ascending, and nothing recorded
      after `now`. */
  ghost predicate Ready(ts: seq<int>, now: int) {
    && Sorted(ts)
    && forall i :: 0 <= i < |ts| ==> ts[i] <= now
  }

  /** One frame's update of a window: record a rising edge, then evict. It
      keeps exactly the recent entries and, when the wall clock has not run
      backwards, leaves a window that holds only the last minute, in order. */
  function UpdateWindow(ts: seq<int>, was: bool, isNow: bool, now: int): (r: seq<int>)
    ensures forall t :: t in r <==> (t in ts || (t == now && isNow && !was)) && t > now - WindowMs
    ensures forall t :: multiset(r)[t] ==
                          if t > now - WindowMs then multiset(ts)[t] + (if t == now && isNow && !was then 1 else 0) else 0
    ensures Ready(ts, now) ==> WindowInv(r, now)
  {
    UpdateWindowKeepsInv(ts, was, isNow, now);
    assert isNow && !was ==> multiset(RecordEdge(ts, was, isNow, now)) == multiset(ts) + multiset{now};
    Evict(RecordEdge(ts, was, isNow, now), now)
  }

  lemma FilterMembership(s: seq<int>, keep: int -> bool)
    ensures forall t :: t in Filter(s, keep) <==> t in s && keep(t)
  {
    var r := Filter(s, keep);
    forall t
      ensures t in r <==> t in s && keep(t)
    {
      assert t in r <==> multiset(r)[t] > 0;
      assert t in s <==> multiset(s)[t] > 0;
    }
  }

  lemma {:induction false} FilterKeepsSorted(s: seq<int>, keep: int -> bool)
    ensures Sorted(s) ==> Sorted(Filter(s, keep))
  {
    if |s| > 0 && Sorted(s) {
      FilterKeepsSorted(s[1..], keep);
      var tail := Filter(s[1..], keep);
      forall k | 0 <= k < |tail|
        ensures s[0] <= tail[k]
      {
        FilterMembership(s[1..], keep);
        assert tail[k] in tail;
      }
    }
  }

  lemma {:induction false} FilterSortedSuffix(s: seq<int>, cutoff: int)
    ensures var r := Filter(s, Above(cutoff));
      Sorted(s) ==>
        && r == s[|s| - |r|..]
        && forall i :: 0 <= i < |s| - |r| ==> s[i] <= cutoff
  {
    if |s| > 0 && Sorted(s) {
      if s[0] > cutoff {
        FilterAllKept(s, Above(cutoff));
      } else {
        assert Sorted(s[1..]);
        FilterSortedSuffix(s[1..], cutoff);
        var r := Filter(s[1..], Above(cutoff));
        assert Filter(s, Above(cutoff)) == r;
        assert s[1..][|s| - 1 - |r|..] == s[|s| - |r|..];
        assert forall i :: 1 <= i < |s| - |r| ==> s[i] == s[1..][i - 1];
      }
    }
  }

  /** An entry is evicted exactly when it is at least sixty seconds old: one
      recorded 60000 ms before `now` is already gone, one 59999 ms old stays. */
  lemma EvictBoundary(t: int, now: int)
    ensures Evict([t], now) == [] <==> now - t >= WindowMs
  {
    FilterSingleton(t, Above(now - WindowMs));
  }

  /** Evicting at an earlier frame and again at a later one is the same as
      evicting once at the later one: the window's contents depend only on the
      current time, not on how often frames arrived in between. */
  lemma EvictLater(ts: seq<int>, earlier: int, later: int)
    requires earlier <= later
    ensures Evict(Evict(ts, earlier), later) == Evict(ts, later)
  {
    FilterNarrowing(ts, Above(earlier - WindowMs), Above(later - WindowMs));
  }

  lemma UpdateWindowKeepsInv(ts: seq<int>, was: bool, isNow: bool, now: int)
    ensures Ready(ts, now) ==> WindowInv(Evict(RecordEdge(ts, was, isNow, now), now), now)
  {
    if Ready(ts, now) {
      var grown := RecordEdge(ts, was, isNow, now);
      assert forall i :: 0 <= i < |grown| ==> grown[i] <= now;
      assert Sorted(grown) by {
        forall i, j | 0 <= i < j < |grown|
          ensures grown[i] <= grown[j]
        {
          if j < |ts| {
            assert grown[i] == ts[i] && grown[j] == ts[j];
          }
        }
      }
      var r := Evict(grown, now);
      forall i | 0 <= i < |r|
        ensures now - WindowMs < r[i] <= now
      {
        assert r[i] in grown by { assert r[i] in r; }
      }
    }
  }

  /** Applies `RecordEdge` over a run of frames, carrying the previous observation. */
  function Record(ts: seq<int>, was: bool, observed: seq<bool>, nows: seq<int>): seq<int>
    requires |observed| == |nows|
    decreases |observed|
  {
    if |observed| == 0 then ts
    else Record(RecordEdge(ts, was, observed[0], nows[0]), observed[0], observed[1..], nows[1..])
  }

  /** Each rising edge of the run, and nothing else, adds one timestamp; the old
      entries stay in front unchanged. */
  lemma {:induction false} RecordCountsRisingEdges(ts: seq<int>, was: bool, observed: seq<bool>, nows: seq<int>)
    requires |observed| == |nows|
    ensures |Record(ts, was, observed, nows)| == |ts| + RisingCount(was, observed)
    ensures Record(ts, was, observed, nows)[..|ts|] == ts
    decreases |observed|
  {
    if |observed| > 0 {
      var next := RecordEdge(ts, was, observed[0], nows[0]);
      RecordCountsRisingEdges(next, observed[0], observed[1..], nows[1..]);
    }
  }

  /** JavaScript's `Math.round`: rounds half-way values up. */
  function Round(x: real): int {
    (x + 0.5).Floor
  }

  function Min(a: int, b: int): int {
    if a <= b then a else b
  }

  lemma HalfFloor(n: int)
    ensures ((n as real) / 2.0).Floor == n / 2
  {
    var q, m := n / 2, n % 2;
    assert n == 2 * q + m;
    assert (n as real) / 2.0 == q as real + (m as real) / 2.0;
  }

  /** Composite stress score from the blink and yawn counts of the last minute.
      In integers: fifteen points per yawn plus one and a half per blink rounded
      half up, capped at 100. */
  function StressLevel(blinkRate: nat, yawnRate: nat): (r: int)
    ensures 0 <= r <= 100
    ensures r == Min(100, 15 * yawnRate + (3 * blinkRate + 1) / 2)
  {
    var x := blinkRate as real * 1.5 + yawnRate as real * 15.0;
    assert x + 0.5 == ((3 * blinkRate + 1) as real) / 2.0 + (15 * yawnRate) as real;
    HalfFloor(3 * blinkRate + 1);
    Min(100, Round(x))
  }
}
