/**
 * The recency window of `show updates` and `show hist`: both loops start at
 * the last index of a list of length `n` and walk down while the index is
 * above `limit = max(0, n - 1 - m)`, where `m` is the requested maximum.
 */
module Recency {

  /** The lower bound the display loops stop above. */
  function Limit(n: int, m: int): nat
  {
    if n - 1 - m < 0 then 0 else n - 1 - m
  }

  /** The indices `hi, hi - 1, ..., lo + 1`, in that order. */
  function Descend(hi: int, lo: int): seq<int>
    decreases hi - lo
  {
    if hi <= lo then [] else [hi] + Descend(hi - 1, lo)
  }

  lemma {:induction false} DescendAt(hi: int, lo: int)
    ensures |Descend(hi, lo)| == if hi <= lo then 0 else hi - lo
    ensures forall j :: 0 <= j < |Descend(hi, lo)| ==> Descend(hi, lo)[j] == hi - j
    decreases hi - lo
  {
    if hi > lo {
      DescendAt(hi - 1, lo);
    }
  }

  /** How many entries a display loop shows for a positive maximum: `min(m, n - 1)`, none for an empty list. */
  function Shown(n: nat, m: nat): nat
  {
    if n == 0 then 0 else if m < n - 1 then m else n - 1
  }

  /**
   * The indices a display loop visits for a list of length `n` and a
   * maximum `m`, in visiting order: `Shown(n, m)` of them when `m` is
   * positive, none otherwise, counting down from the last.
   */
  function Window(n: nat, m: int): (w: seq<int>)
    ensures |w| == if m <= 0 then 0 else Shown(n, m)
    ensures forall j :: 0 <= j < |w| ==> w[j] == n - 1 - j
  {
    DescendAt(n - 1, Limit(n, m));
    Descend(n - 1, Limit(n, m))
  }

  /**
   * The window is newest first and strictly downward, lies inside the list,
   * never reaches index 0, and runs from the last index down to just above
   * the limit.
   */
  lemma WindowOrder(n: nat, m: int)
    ensures var w := Window(n, m);
      && (forall j :: 0 <= j < |w| ==> 1 <= w[j] < n)
      && (forall i, j :: 0 <= i < j < |w| ==> w[i] > w[j])
      && 0 !in w
      && (|w| > 0 ==> w[0] == n - 1 && w[|w| - 1] == Limit(n, m) + 1)
  {
  }

  /**
   * What a display loop has logged when it stops: after the header, the
   * entry of each index of the window, in window order. `log[j]` is the
   * entry of index `n - j` while the loop runs; the loop exits at `i`
   * with `i <= Limit(n, m)`.
   */
  lemma WindowLog<T>(log: seq<T>, entries: seq<T>, m: int, i: int)
    requires |entries| > 0 ==> i <= |entries| - 1 && (Limit(|entries|, m) <= i || i == |entries| - 1)
    requires |entries| == 0 ==> i == -1
    requires i <= Limit(|entries|, m)
    requires |log| == |entries| - i
    requires forall j :: 1 <= j < |log| ==> log[j] == entries[|entries| - j]
    ensures var w := Window(|entries|, m);
      && |log| == |w| + 1
      && forall j :: 0 <= j < |w| ==> log[j + 1] == entries[w[j]]
  {
  }

  /** One more step of a display loop: logging the entry of index `i` keeps `log[j]` the entry of `n - j`. */
  lemma LogStep<T>(log: seq<T>, entries: seq<T>, i: int)
    requires 0 <= i < |entries| && |log| == |entries| - i
    requires forall j :: 1 <= j < |log| ==> log[j] == entries[|entries| - j]
    ensures forall j :: 1 <= j < |log| + 1 ==> (log + [entries[i]])[j] == entries[|entries| - j]
  {
  }

  /**
   * The oldest entry is never shown: a list of one entry shows nothing, and
   * a list no longer than the maximum shows all but its first entry.
   */
  lemma OldestEntryHidden(n: nat, m: int)
    requires 0 < n <= m
    ensures |Window(n, m)| == n - 1
    ensures 0 !in Window(n, m)
    ensures Window(1, m) == []
  {
  }

  /**
   * The window the loops evidently intend: the `min(m, n)` newest indices,
   * which is what the loop visits when the lower bound is clamped to -1
   * rather than to 0.
   */
  function IntendedWindow(n: nat, m: int): (w: seq<int>)
    ensures |w| == if m <= 0 then 0 else if m < n then m else n
    ensures forall j :: 0 <= j < |w| ==> w[j] == n - 1 - j
  {
    var lo := if n - 1 - m < -1 then -1 else n - 1 - m;
    DescendAt(n - 1, lo);
    Descend(n - 1, lo)
  }

  /** The intended window shows every entry, the oldest included, of a list no longer than the maximum. */
  lemma IntendedWindowShowsAll(n: nat, m: int)
    requires n <= m
    ensures |IntendedWindow(n, m)| == n
    ensures forall k :: 0 <= k < n ==> k in IntendedWindow(n, m)
  {
    var w := IntendedWindow(n, m);
    forall k | 0 <= k < n
      ensures k in w
    {
      assert w[n - 1 - k] == k;
    }
  }
}
