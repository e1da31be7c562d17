/** `table.sort` (`ltablib.c`): quicksort in place. Slot 0 of the array is not used, as in Lua. */
module TabSort {

  // ---------- orders ----------

  ghost predicate StrictWeak<T(!new)>(lt: (T, T) -> bool) {
    && (forall x :: !lt(x, x))
    && (forall x, y, z :: lt(x, y) && lt(y, z) ==> lt(x, z))
    && (forall x, y, z :: !lt(x, y) && !lt(y, z) ==> !lt(x, z))
  }

  /** `x` may come before `y`. */
  predicate Le<T>(lt: (T, T) -> bool, x: T, y: T) { !lt(y, x) }

  lemma LeTrans<T(!new)>(lt: (T, T) -> bool, x: T, y: T, z: T)
    requires StrictWeak(lt) && Le(lt, x, y) && Le(lt, y, z)
    ensures Le(lt, x, z)
  {}

  lemma LeTotal<T(!new)>(lt: (T, T) -> bool, x: T, y: T)
    requires StrictWeak(lt)
    ensures Le(lt, x, y) || Le(lt, y, x)
    ensures lt(x, y) ==> Le(lt, x, y)
    ensures Le(lt, x, x)
  {}

  ghost predicate Sorted<T>(lt: (T, T) -> bool, s: seq<T>, lo: nat, hi: nat)
    requires lo <= hi <= |s|
  {
    forall i, j | lo <= i < j < hi :: Le(lt, s[i], s[j])
  }

  /** Everything up to `p` may come before `x`. */
  ghost predicate Below<T>(lt: (T, T) -> bool, s: seq<T>, lo: nat, hi: nat, x: T)
    requires lo <= hi <= |s|
  {
    forall k | lo <= k < hi :: Le(lt, s[k], x)
  }

  ghost predicate Above<T>(lt: (T, T) -> bool, s: seq<T>, lo: nat, hi: nat, x: T)
    requires lo <= hi <= |s|
  {
    forall k | lo <= k < hi :: Le(lt, x, s[k])
  }

  // ---------- permutations of a part ----------

  ghost predicate Perm<T>(s: seq<T>, t: seq<T>, lo: nat, hi: nat) {
    && lo <= hi <= |s| == |t| && s[..lo] == t[..lo] && s[hi..] == t[hi..]
    && multiset(s[lo..hi]) == multiset(t[lo..hi])
  }

  lemma PermTrans<T>(s: seq<T>, t: seq<T>, r: seq<T>, lo: nat, hi: nat)
    requires Perm(s, t, lo, hi) && Perm(t, r, lo, hi)
    ensures Perm(s, r, lo, hi)
  {}

  lemma PermWider<T>(s: seq<T>, t: seq<T>, lo: nat, hi: nat, lo2: nat, hi2: nat)
    requires Perm(s, t, lo, hi) && lo2 <= lo && hi <= hi2 <= |s|
    ensures Perm(s, t, lo2, hi2)
  {
    assert s[lo2..hi2] == s[lo2..lo] + s[lo..hi] + s[hi..hi2];
    assert t[lo2..hi2] == t[lo2..lo] + t[lo..hi] + t[hi..hi2];
    assert s[lo2..lo] == s[..lo][lo2..] && t[lo2..lo] == t[..lo][lo2..];
    assert s[hi..hi2] == s[hi..][..hi2 - hi] && t[hi..hi2] == t[hi..][..hi2 - hi];
  }

  lemma PermAt<T>(s: seq<T>, t: seq<T>, lo: nat, hi: nat, k: nat)
    requires Perm(s, t, lo, hi) && k < |s|
    ensures k < lo || hi <= k ==> t[k] == s[k]
    ensures lo <= k < hi ==> exists m :: lo <= m < hi && t[k] == s[m]
  {
    if k < lo {
      assert t[..lo][k] == s[..lo][k];
    } else if hi <= k {
      assert t[hi..][k - hi] == s[hi..][k - hi];
    } else {
      assert t[lo..hi][k - lo] in multiset(t[lo..hi]);
      assert t[k] in multiset(s[lo..hi]);
      var m :| 0 <= m < hi - lo && s[lo..hi][m] == t[k];
      assert s[lo + m] == t[k];
    }
  }

  function Swapped<T>(s: seq<T>, i: nat, j: nat): seq<T>
    requires i < |s| && j < |s|
  {
    s[i := s[j]][j := s[i]]
  }

  lemma SwappedAt<T>(s: seq<T>, i: nat, j: nat)
    requires i < |s| && j < |s|
    ensures |Swapped(s, i, j)| == |s| && Swapped(s, i, j)[i] == s[j] && Swapped(s, i, j)[j] == s[i]
    ensures forall k | 0 <= k < |s| && k != i && k != j :: Swapped(s, i, j)[k] == s[k]
  {}

  lemma SwapPerm<T>(s: seq<T>, i: nat, j: nat, lo: nat, hi: nat)
    requires lo <= i < hi <= |s| && lo <= j < hi
    ensures Perm(s, Swapped(s, i, j), lo, hi)
  {
    var t := Swapped(s, i, j);
    assert t[lo..hi] == s[lo..hi][i - lo := s[j]][j - lo := s[i]];
  }

  // ---------- the part that is still to be sorted ----------

  /** Of the slots `lo` to `hi`, any two are in order unless both are between `l` and `u`. */
  ghost predicate Settled<T>(lt: (T, T) -> bool, s: seq<T>, lo: nat, hi: nat, l: nat, u: nat)
    requires hi <= |s|
  {
    forall i, j | lo <= i < j < hi && (i < l || j >= u) :: Le(lt, s[i], s[j])
  }

  lemma SettledPerm<T>(lt: (T, T) -> bool, s: seq<T>, t: seq<T>, lo: nat, hi: nat, l: nat, u: nat)
    requires lo <= l <= u <= hi <= |s| && Settled(lt, s, lo, hi, l, u) && Perm(s, t, l, u)
    ensures |t| == |s| && Settled(lt, t, lo, hi, l, u)
  {
    assert |t| == |s|;
    hide Le, Perm;
    forall i, j | lo <= i < j < hi && (i < l || j >= u) ensures Le(lt, t[i], t[j]) {
      PermAt(s, t, l, u, i);
      PermAt(s, t, l, u, j);
    }
  }

  /** Elements that keep their bounds when they are permuted. */
  lemma BoundsPerm<T>(lt: (T, T) -> bool, s: seq<T>, t: seq<T>, lo: nat, hi: nat, x: T)
    requires Perm(s, t, lo, hi)
    ensures Below(lt, s, lo, hi, x) ==> Below(lt, t, lo, hi, x)
    ensures Above(lt, s, lo, hi, x) ==> Above(lt, t, lo, hi, x)
  {
    assert lo <= hi <= |t| == |s|;
    hide Le, Perm;
    forall k | lo <= k < hi ensures exists m :: lo <= m < hi && t[k] == s[m] { PermAt(s, t, lo, hi, k); }
  }

  /** The pivot is at `p`, and one part has been sorted: the other part is left. */
  lemma SettledSplit<T(!new)>(lt: (T, T) -> bool, s: seq<T>, lo: nat, hi: nat, l: nat, p: nat, u: nat, left: bool)
    requires StrictWeak(lt) && lo <= l <= p < u <= hi <= |s| && Settled(lt, s, lo, hi, l, u)
    requires Below(lt, s, l, p, s[p]) && Above(lt, s, p + 1, u, s[p])
    requires if left then Sorted(lt, s, l, p) else Sorted(lt, s, p + 1, u)
    ensures if left then Settled(lt, s, lo, hi, p + 1, u) else Settled(lt, s, lo, hi, l, p)
  {
    hide Le, StrictWeak;
    forall i, j | lo <= i < j < hi && (if left then i < p + 1 || j >= u else i < l || j >= p)
      ensures Le(lt, s[i], s[j])
    {
      if l <= i && j < u && i < p < j { LeTrans(lt, s[i], s[p], s[j]); }
    }
  }

  lemma SettledSorted<T>(lt: (T, T) -> bool, s: seq<T>, lo: nat, hi: nat, l: nat, u: nat)
    requires lo <= l <= hi && u <= hi <= |s| && Settled(lt, s, lo, hi, l, u) && (u <= l + 1 || Sorted(lt, s, l, u))
    ensures Sorted(lt, s, lo, hi)
  {
    hide Le;
  }

  // ---------- the algorithm ----------

  function Pow2(n: nat): (r: nat)
    ensures r > 0
  {
    if n == 0 then 1 else 2 * Pow2(n - 1)
  }

  method Swap<T>(a: array<T>, i: nat, j: nat)
    requires i < a.Length && j < a.Length
    modifies a
    ensures a[..] == Swapped(old(a[..]), i, j)
  {
    a[i], a[j] := a[j], a[i];
  }

  /** Two elements are put in order. */
  method OrderTwo<T(!new)>(a: array<T>, lt: (T, T) -> bool, i: nat, j: nat, ghost l: nat, ghost u: nat)
      returns (swapped: bool)
    requires StrictWeak(lt) && l <= i < j <= u < a.Length
    modifies a
    ensures Perm(old(a[..]), a[..], l, u + 1) && Le(lt, a[i], a[j])
    ensures a[..] == if swapped then Swapped(old(a[..]), i, j) else old(a[..])
    ensures swapped ==> Le(lt, old(a[j]), old(a[i]))
  {
    LeTotal(lt, a[j], a[i]);
    hide StrictWeak, Perm;
    swapped := lt(a[j], a[i]);
    SwapPerm(a[..], i, j, l, u + 1);
    SwapPerm(a[..], i, i, l, u + 1);
    assert Swapped(a[..], i, i) == a[..];
    if swapped { Swap(a, i, j); }
  }

  /** The first and the last element, and the one in the middle, are put in order. */
  method OrderThree<T(!new)>(a: array<T>, lt: (T, T) -> bool, l: nat, u: nat) returns (i: nat)
    requires StrictWeak(lt) && 1 <= l && l + 1 < u < a.Length && Le(lt, a[l], a[u])
    modifies a
    ensures Perm(old(a[..]), a[..], l, u + 1) && i == (l + u) / 2
    ensures Le(lt, a[l], a[i]) && Le(lt, a[i], a[u])
  {
    hide Perm, StrictWeak, Le, Swapped;
    ghost var s := a[..];
    i := (l + u) / 2;
    SwappedAt(s, l, i);
    var swapped := OrderTwo(a, lt, l, i, l, u);
    if swapped {
      LeTrans(lt, s[i], s[l], s[u]);
    } else {
      ghost var t := a[..];
      SwappedAt(t, i, u);
      swapped := OrderTwo(a, lt, i, u, l, u);
      PermTrans(s, t, a[..], l, u + 1);
      if swapped { LeTrans(lt, s[l], s[u], s[i]); }
    }
  }

  /** The part of the loop around the two scans: `i` and `j` have come together when it ends. */
  method Partition<T(!new)>(a: array<T>, lt: (T, T) -> bool, l: nat, u: nat, p: T) returns (i: nat)
    requires StrictWeak(lt) && 1 <= l && l + 2 < u < a.Length
    requires a[u - 1] == p && Le(lt, a[l], p) && Le(lt, p, a[u])
    modifies a
    ensures Perm(old(a[..]), a[..], l, u + 1) && l < i < u && a[i] == p
    ensures Below(lt, a[..], l, i, p) && Above(lt, a[..], i + 1, u + 1, p)
  {
    hide Perm, Le, StrictWeak, Below, Above, Swapped;
    ghost var s0 := a[..];
    i := l;
    var j := u - 1;
    PermSame(s0, l, u + 1);
    OuterBounds(lt, s0, l, u, p);
    while true
      invariant l <= i < u - 1 && l < j && i <= j <= u - 1 && a[u - 1] == p && Le(lt, a[l], p)
          && Perm(s0, a[..], l, u + 1)
      invariant Below(lt, a[..], l, i + 1, p) && Above(lt, a[..], j, u + 1, p)
      decreases u - i
    {
      i := ScanUp(a, lt, l, u, i, p);
      j := ScanDown(a, lt, l, u, j, p);
      if j < i { break; }
      SwapInner(a, lt, l, u, i, j, p, s0);
    }
    SwapLast(a, lt, l, u, i, j, p, s0);
  }

  method SwapInner<T(!new)>(a: array<T>, lt: (T, T) -> bool, l: nat, u: nat, i: nat, j: nat, p: T, ghost s0: seq<T>)
    requires l < i <= j < u - 1 && u < a.Length && Le(lt, a[l], p) && Perm(s0, a[..], l, u + 1)
    requires Below(lt, a[..], l, i, p) && Le(lt, p, a[i]) && Above(lt, a[..], j + 1, u + 1, p) && Le(lt, a[j], p)
    modifies a
    ensures Perm(s0, a[..], l, u + 1) && Below(lt, a[..], l, i + 1, p) && Above(lt, a[..], j, u + 1, p)
    ensures a[u - 1] == old(a[u - 1]) && Le(lt, a[l], p)
  {
    hide Perm, Le, Below, Above;
    ghost var s := a[..];
    Swap(a, i, j);
    InnerSwap(lt, s, l, u, i, j, p);
    SwapPerm(s, i, j, l, u + 1);
    PermTrans(s0, s, a[..], l, u + 1);
  }

  method SwapLast<T(!new)>(a: array<T>, lt: (T, T) -> bool, l: nat, u: nat, i: nat, ghost j: nat, p: T,
                           ghost s0: seq<T>)
    requires l <= j < i <= u - 1 && u < a.Length && a[u - 1] == p && Perm(s0, a[..], l, u + 1)
    requires Below(lt, a[..], l, i, p) && Above(lt, a[..], j + 1, u + 1, p)
    modifies a
    ensures Perm(s0, a[..], l, u + 1) && a[i] == p && Below(lt, a[..], l, i, p) && Above(lt, a[..], i + 1, u + 1, p)
  {
    hide Perm, Le, Below, Above;
    ghost var s := a[..];
    Swap(a, u - 1, i);
    LastSwap(lt, s, l, u, i, j, p);
    SwapPerm(s, u - 1, i, l, u + 1);
    PermTrans(s0, s, a[..], l, u + 1);
  }

  lemma OuterBounds<T(!new)>(lt: (T, T) -> bool, s: seq<T>, l: nat, u: nat, p: T)
    requires StrictWeak(lt) && l < u < |s| && u >= 1 && s[u - 1] == p && Le(lt, s[l], p) && Le(lt, p, s[u])
    ensures Below(lt, s, l, l + 1, p) && Above(lt, s, u - 1, u + 1, p)
  {
    LeTotal(lt, p, p);
  }

  /** Two elements on the wrong sides change places. */
  lemma InnerSwap<T(!new)>(lt: (T, T) -> bool, s: seq<T>, l: nat, u: nat, i: nat, j: nat, p: T)
    requires l < i <= j < u - 1 && u < |s| && Le(lt, s[l], p)
    requires Below(lt, s, l, i, p) && Le(lt, p, s[i]) && Above(lt, s, j + 1, u + 1, p) && Le(lt, s[j], p)
    ensures var t := Swapped(s, i, j);
      Below(lt, t, l, i + 1, p) && Above(lt, t, j, u + 1, p) && t[u - 1] == s[u - 1] && Le(lt, t[l], p)
  {
    hide Le;
  }

  /** The pivot comes to its place. */
  lemma LastSwap<T(!new)>(lt: (T, T) -> bool, s: seq<T>, l: nat, u: nat, i: nat, j: nat, p: T)
    requires l <= j < i <= u - 1 && u < |s| && s[u - 1] == p && Below(lt, s, l, i, p) && Above(lt, s, j + 1, u + 1, p)
    ensures var t := Swapped(s, u - 1, i);
      t[i] == p && Below(lt, t, l, i, p) && Above(lt, t, i + 1, u + 1, p)
  {
    hide Le;
  }

  /** `++i` until `a[i] >= P`; the element before the last one stops it. */
  method ScanUp<T(!new)>(a: array<T>, lt: (T, T) -> bool, l: nat, u: nat, i0: nat, p: T) returns (i: nat)
    requires StrictWeak(lt) && 1 <= l <= i0 < u - 1 && u < a.Length && a[u - 1] == p && Below(lt, a[..], l, i0 + 1, p)
    ensures i0 < i <= u - 1 && Below(lt, a[..], l, i, p) && Le(lt, p, a[i])
  {
    i := i0 + 1;
    while lt(a[i], p)
      invariant i0 < i <= u - 1 && Below(lt, a[..], l, i, p)
      decreases u - i
    {
      // `i > u` would be "invalid order function for sorting"
      assert i <= u;
      LeTotal(lt, a[i], p);
      i := i + 1;
    }
  }

  /** `--j` until `a[j] <= P`; the first element stops it. */
  method ScanDown<T(!new)>(a: array<T>, lt: (T, T) -> bool, l: nat, u: nat, j0: nat, p: T) returns (j: nat)
    requires StrictWeak(lt) && 1 <= l < j0 <= u - 1 && u < a.Length && Le(lt, a[l], p) && Above(lt, a[..], j0, u + 1, p)
    ensures l <= j < j0 && Above(lt, a[..], j + 1, u + 1, p) && Le(lt, a[j], p)
  {
    j := j0 - 1;
    while lt(p, a[j])
      invariant l <= j < j0 && Above(lt, a[..], j + 1, u + 1, p)
      decreases j
    {
      // `j < l` would be "invalid order function for sorting"
      assert j >= l;
      LeTotal(lt, p, a[j]);
      j := j - 1;
    }
  }

  /** One round of the loop, on at least four elements: a pivot in its place between two parts. */
  method Split<T(!new)>(a: array<T>, lt: (T, T) -> bool, l: nat, u: nat, mid: nat) returns (i: nat)
    requires StrictWeak(lt) && 1 <= l && l + 2 < u < a.Length && mid == (l + u) / 2
    requires Le(lt, a[l], a[mid]) && Le(lt, a[mid], a[u])
    modifies a
    ensures Perm(old(a[..]), a[..], l, u + 1) && l < i < u
    ensures Below(lt, a[..], l, i, a[i]) && Above(lt, a[..], i + 1, u + 1, a[i])
  {
    hide Perm, StrictWeak, Le;
    ghost var s := a[..];
    var p := a[mid];
    Swap(a, mid, u - 1);
    SwapPerm(s, mid, u - 1, l, u + 1);
    ghost var t := a[..];
    i := Partition(a, lt, l, u, p);
    PermTrans(s, t, a[..], l, u + 1);
  }

  /** The first half of the loop body: two or three elements are sorted; otherwise there is a pivot
      at `i` between two parts. */
  method Pivot<T(!new)>(a: array<T>, lt: (T, T) -> bool, l: nat, u: nat) returns (sorted: bool, i: nat)
    requires StrictWeak(lt) && 1 <= l < u < a.Length
    modifies a
    ensures Perm(old(a[..]), a[..], l, u + 1)
    ensures if sorted then Sorted(lt, a[..], l, u + 1)
            else l + 2 < u && l < i < u && Below(lt, a[..], l, i, a[i]) && Above(lt, a[..], i + 1, u + 1, a[i])
  {
    hide Perm, StrictWeak, Le, Sorted, Below, Above, Swapped;
    ghost var s := a[..];
    i := 0;
    var swapped := OrderTwo(a, lt, l, u, l, u);
    if u - l == 1 {
      TwoSorted(lt, a[..], l, u);
      return true, i;
    }

    ghost var s1 := a[..];
    i := OrderThree(a, lt, l, u);
    ghost var s2 := a[..];
    PermTrans(s, s1, s2, l, u + 1);
    if u - l == 2 {
      ThreeSorted(lt, a[..], l, u);
      return true, i;
    }
    i := Split(a, lt, l, u, i);
    PermTrans(s, s2, a[..], l, u + 1);
    sorted := false;
  }

  /** `auxsort` sorts the slots from `l0` to `u0`. It calls itself for the smaller part only, so at
      most 1 + log2(n) calls are nested for n elements: `depth` counts them. */
  method AuxSort<T(!new)>(a: array<T>, lt: (T, T) -> bool, l0: nat, u0: nat) returns (ghost depth: nat)
    requires StrictWeak(lt) && 1 <= l0 <= u0 + 1 && u0 < a.Length
    modifies a
    ensures Perm(old(a[..]), a[..], l0, u0 + 1) && Sorted(lt, a[..], l0, u0 + 1)
    ensures depth >= 1 && Pow2(depth - 1) <= if l0 < u0 then u0 - l0 + 1 else 1
    decreases u0 + 1 - l0
  {
    hide Perm, StrictWeak, Le, Settled, Sorted, Below, Above, Pow2, Swapped;
    ghost var s0 := a[..];
    var l, u := l0, u0;
    depth := 1;
    DepthOne();
    assert Perm(s0, a[..], l0, u0 + 1) by { PermSame(s0, l0, u0 + 1); }
    assert Settled(lt, a[..], l0, u0 + 1, l, u + 1) by { AllUnsettled(lt, s0, l0, u0 + 1); }
    while l < u
      invariant l0 <= l <= u + 1 && u <= u0 && Perm(s0, a[..], l0, u0 + 1)
      invariant Settled(lt, a[..], l0, u0 + 1, l, u + 1)
      invariant depth >= 1 && Pow2(depth - 1) <= if l0 < u0 then u0 - l0 + 1 else 1
      decreases u - l
    {
      ghost var s := a[..];
      var sorted, i := Pivot(a, lt, l, u);
      if sorted {
        Finish(lt, s0, s, a[..], l0, u0, l, u);
        return;
      }
      ghost var s3 := a[..];
      Round(lt, s0, s, s3, l0, u0, l, u);
      ghost var d;
      if i - l < u - i {
        d := AuxSort(a, lt, l, i - 1);
        AfterLeft(lt, s0, s3, a[..], l0, u0, l, i, u);
        DepthMore(d, l, i - 1, l0, u0);
        l := i + 1;
      } else {
        d := AuxSort(a, lt, i + 1, u);
        AfterRight(lt, s0, s3, a[..], l0, u0, l, i, u);
        DepthMore(d, i + 1, u, l0, u0);
        u := i - 1;
      }
      depth := if depth < d + 1 then d + 1 else depth;
    }
    SettledSorted(lt, a[..], l0, u0 + 1, l, u + 1);
  }

  lemma PermSame<T>(s: seq<T>, lo: nat, hi: nat)
    requires lo <= hi <= |s|
    ensures Perm(s, s, lo, hi)
  {}

  lemma AllUnsettled<T>(lt: (T, T) -> bool, s: seq<T>, lo: nat, hi: nat)
    requires hi <= |s|
    ensures Settled(lt, s, lo, hi, lo, hi)
  {}

  lemma TwoSorted<T>(lt: (T, T) -> bool, s: seq<T>, l: nat, u: nat)
    requires u == l + 1 && u < |s| && Le(lt, s[l], s[u])
    ensures Sorted(lt, s, l, u + 1)
  {}

  lemma ThreeSorted<T(!new)>(lt: (T, T) -> bool, s: seq<T>, l: nat, u: nat)
    requires StrictWeak(lt) && u == l + 2 && u < |s| && Le(lt, s[l], s[l + 1]) && Le(lt, s[l + 1], s[u])
    ensures Sorted(lt, s, l, u + 1)
  {
    LeTrans(lt, s[l], s[l + 1], s[u]);
    hide StrictWeak, Le;
  }

  /** The part from `l` to `u` has been permuted. */
  lemma Round<T>(lt: (T, T) -> bool, s0: seq<T>, s: seq<T>, t: seq<T>, l0: nat, u0: nat, l: nat, u: nat)
    requires l0 <= l <= u <= u0 < |s| && Perm(s0, s, l0, u0 + 1) && Perm(s, t, l, u + 1)
    requires Settled(lt, s, l0, u0 + 1, l, u + 1)
    ensures Perm(s0, t, l0, u0 + 1) && |t| == |s| && Settled(lt, t, l0, u0 + 1, l, u + 1)
  {
    hide Le;
    SettledPerm(lt, s, t, l0, u0 + 1, l, u + 1);
    PermWider(s, t, l, u + 1, l0, u0 + 1);
    PermTrans(s0, s, t, l0, u0 + 1);
  }

  /** The loop ends with at most three elements. */
  lemma Finish<T>(lt: (T, T) -> bool, s0: seq<T>, s: seq<T>, t: seq<T>, l0: nat, u0: nat, l: nat, u: nat)
    requires l0 <= l <= u <= u0 < |s| && Perm(s0, s, l0, u0 + 1) && Perm(s, t, l, u + 1)
    requires Settled(lt, s, l0, u0 + 1, l, u + 1) && |t| == |s| && Sorted(lt, t, l, u + 1)
    ensures Perm(s0, t, l0, u0 + 1) && Sorted(lt, t, l0, u0 + 1)
  {
    hide Le, Perm, Sorted, Settled;
    Round(lt, s0, s, t, l0, u0, l, u);
    SettledSorted(lt, t, l0, u0 + 1, l, u + 1);
  }

  lemma DepthOne()
    ensures Pow2(0) == 1
  {}

  /** A call for at most half of the other elements is one level deeper. */
  lemma DepthMore(d: nat, l: nat, u: nat, l0: nat, u0: nat)
    requires d >= 1 && Pow2(d - 1) <= (if l < u then u - l + 1 else 1) && l <= u && 2 * (u - l + 1) < u0 - l0 + 1
    ensures Pow2(d) <= u0 - l0 + 1
  {}

  /** The left part has been sorted. */
  lemma AfterLeft<T(!new)>(lt: (T, T) -> bool, s0: seq<T>, s: seq<T>, t: seq<T>, l0: nat, u0: nat, l: nat, i: nat,
                           u: nat)
    requires StrictWeak(lt) && l0 <= l < i < u <= u0 < |s| && Perm(s0, s, l0, u0 + 1)
        && Settled(lt, s, l0, u0 + 1, l, u + 1)
    requires Below(lt, s, l, i, s[i]) && Above(lt, s, i + 1, u + 1, s[i])
    requires |t| == |s| && Perm(s, t, l, i) && Sorted(lt, t, l, i)
    ensures Perm(s0, t, l0, u0 + 1) && Settled(lt, t, l0, u0 + 1, i + 1, u + 1)
  {
    hide Perm, Le, StrictWeak, Sorted, Below, Above, Settled;
    PermAt(s, t, l, i, i);
    BoundsPerm(lt, s, t, l, i, s[i]);
    Kept(lt, s, t, l, i, i + 1, u + 1, s[i]);
    PermWider(s, t, l, i, l, u + 1);
    Round(lt, s0, s, t, l0, u0, l, u);
    SettledSplit(lt, t, l0, u0 + 1, l, i, u + 1, true);
  }

  /** The right part has been sorted. */
  lemma AfterRight<T(!new)>(lt: (T, T) -> bool, s0: seq<T>, s: seq<T>, t: seq<T>, l0: nat, u0: nat, l: nat, i: nat,
                            u: nat)
    requires StrictWeak(lt) && l0 <= l < i < u <= u0 < |s| && Perm(s0, s, l0, u0 + 1)
        && Settled(lt, s, l0, u0 + 1, l, u + 1)
    requires Below(lt, s, l, i, s[i]) && Above(lt, s, i + 1, u + 1, s[i])
    requires |t| == |s| && Perm(s, t, i + 1, u + 1) && Sorted(lt, t, i + 1, u + 1)
    ensures Perm(s0, t, l0, u0 + 1) && Settled(lt, t, l0, u0 + 1, l, i)
  {
    hide Perm, Le, StrictWeak, Sorted, Below, Above, Settled;
    PermAt(s, t, i + 1, u + 1, i);
    BoundsPerm(lt, s, t, i + 1, u + 1, s[i]);
    Kept(lt, s, t, i + 1, u + 1, l, i, s[i]);
    PermWider(s, t, i + 1, u + 1, l, u + 1);
    Round(lt, s0, s, t, l0, u0, l, u);
    SettledSplit(lt, t, l0, u0 + 1, l, i, u + 1, false);
  }

  /** Bounds of elements that stay. */
  lemma Kept<T>(lt: (T, T) -> bool, s: seq<T>, t: seq<T>, lo: nat, hi: nat, lo2: nat, hi2: nat, x: T)
    requires Perm(s, t, lo, hi) && lo2 <= hi2 <= |s| && (hi2 <= lo || hi <= lo2)
    ensures Below(lt, s, lo2, hi2, x) ==> Below(lt, t, lo2, hi2, x)
    ensures Above(lt, s, lo2, hi2, x) ==> Above(lt, t, lo2, hi2, x)
  {
    forall k | lo2 <= k < hi2 ensures t[k] == s[k] { PermAt(s, t, lo, hi, k); }
    hide Le, Perm;
  }

  /** `sort` */
  method Sort<T(!new)>(a: array<T>, lt: (T, T) -> bool)
    requires StrictWeak(lt) && a.Length >= 1
    modifies a
    ensures multiset(a[1..]) == multiset(old(a[1..])) && a[0] == old(a[0])
    ensures forall i, j | 1 <= i < j < a.Length :: !lt(a[j], a[i])
  {
    ghost var s := a[..];
    ghost var depth := AuxSort(a, lt, 1, a.Length - 1);
    assert s[1..a.Length] == old(a[1..]) && a[..][1..a.Length] == a[1..];
    assert a[..][..1][0] == s[..1][0];
  }
}
