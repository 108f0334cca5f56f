/**
 * `Array#bsearch_index` in find-minimum mode, as mruby's polyfill implements
 * it (mrblib/_ext_array.rb): a lo/hi binary search driven by a block that
 * answers true or false for an element, in the manner of Python's
 * `bisect_left`. The block is a pure function `T -> bool`; the array is only
 * read, so the method has no `modifies` clause.
 */
module ArrayBsearch {
  import opened Wrappers

  /** All elements for which `p` is false come before all for which it is true. */
  ghost predicate Partitioned<T>(s: seq<T>, p: T -> bool) {
    forall i, j :: 0 <= i < j < |s| && p(s[i]) ==> p(s[j])
  }

  /**
   * Reference definition of find-minimum mode: the smallest index whose
   * element satisfies `p`, found by a linear scan, or `None`.
   */
  function FirstSatisfying<T>(s: seq<T>, p: T -> bool): (r: Option<nat>)
    ensures r.Some? ==> r.value < |s| && p(s[r.value])
    ensures r.Some? ==> forall j :: 0 <= j < r.value ==> !p(s[j])
    ensures r.None? <==> forall j :: 0 <= j < |s| ==> !p(s[j])
  {
    if |s| == 0 then None
    else if p(s[0]) then Some(0)
    else match FirstSatisfying(s[1..], p)
      case None => None
      case Some(k) => Some(k + 1)
  }

  /** On a partitioned sequence, a true element preceded by a false one (or by nothing) is the first true element. */
  lemma BoundaryIsFirst<T>(s: seq<T>, p: T -> bool, i: nat)
    requires Partitioned(s, p)
    requires i < |s| && p(s[i])
    requires i == 0 || !p(s[i - 1])
    ensures FirstSatisfying(s, p) == Some(i)
  {
  }

  /** On a partitioned non-empty sequence, a false last element means no element is true. */
  lemma FalseLastMeansNone<T>(s: seq<T>, p: T -> bool)
    requires Partitioned(s, p)
    requires |s| > 0 && !p(s[|s| - 1])
    ensures FirstSatisfying(s, p) == None
  {
  }

  /** The number of halvings that bring `n` down to zero: floor(log2 n) + 1 for n > 0. */
  function Bits(n: nat): nat {
    if n == 0 then 0 else 1 + Bits(n / 2)
  }

  lemma {:induction false} BitsMonotone(m: nat, n: nat)
    requires m <= n
    ensures Bits(m) <= Bits(n)
  {
    if m > 0 {
      BitsMonotone(m / 2, n / 2);
    }
  }

  /**
   * `bsearch_index { |x| p(x) }`. Besides the index (or `nil`), the ghost
   * `probes` records the indices `mid` at which the block was called, in order.
   */
  method BsearchIndex<T>(a: array<T>, p: T -> bool) returns (r: Option<nat>, ghost probes: seq<nat>)
    ensures r.Some? ==> r.value < a.Length
    // whatever the block: the result is a true element whose left neighbour, if any, is false
    ensures r.Some? ==> p(a[r.value]) && (r.value == 0 || !p(a[r.value - 1]))
    ensures r.None? && a.Length > 0 ==> !p(a[a.Length - 1])
    // the answer agrees with every answer the block gave
    ensures var bound := if r.Some? then r.value else a.Length;
            forall k :: k in probes ==> k < a.Length && (p(a[k]) <==> bound <= k)
    // the empty array yields nil without calling the block
    ensures a.Length == 0 ==> r.None? && probes == []
    // at most floor(log2 n) + 1 calls of the block
    ensures |probes| <= Bits(a.Length)
    // partitioned input: bisect_left, the least index whose element satisfies the block
    ensures Partitioned(a[..], p) ==> r == FirstSatisfying(a[..], p)
  {
    var len := a.Length;
    var lo, hi := 0, len;
    probes := [];
    while lo < hi
      invariant 0 <= lo <= hi <= len
      invariant lo == 0 || !p(a[lo - 1])
      invariant hi == len || p(a[hi])
      invariant forall k :: k in probes ==> k < len && (p(a[k]) ==> hi <= k) && (!p(a[k]) ==> k < lo)
      invariant |probes| + Bits(hi - lo) <= Bits(len)
      decreases hi - lo
    {
      var mid := (lo + hi) / 2;
      probes := probes + [mid];
      ghost var size := hi - lo;
      if p(a[mid]) {
        hi := mid;
      } else {
        lo := mid + 1;
      }
      BitsMonotone(hi - lo, size / 2);
    }
    r := if lo == len then None else Some(lo);
    if Partitioned(a[..], p) {
      if lo < len {
        BoundaryIsFirst(a[..], p, lo);
      } else if len > 0 {
        FalseLastMeansNone(a[..], p);
      }
    }
  }
}
