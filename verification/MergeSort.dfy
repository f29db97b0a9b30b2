/** `sort_by`: the bottom-up merge sort of the C runtime is the stable sort of the interpreter (micai/src/cgen.rs). */
module MergeSort {

  // ---- keys

  type Byte = b: int | 0 <= b < 256

  /** A sort key; one call sorts by integers or by strings only. */
  datatype Key = IntKey(i: int) | StrKey(s: seq<Byte>)

  /** First differing byte, then length: negative, zero or positive. */
  function StrCmp(a: seq<Byte>, b: seq<Byte>): int {
    if a == [] then (if b == [] then 0 else -1)
    else if b == [] then 1
    else if a[0] != b[0] then a[0] - b[0]
    else StrCmp(a[1..], b[1..])
  }

  predicate Less(x: Key, y: Key) {
    (x.IntKey? && y.IntKey? && x.i < y.i) || (x.StrKey? && y.StrKey? && StrCmp(x.s, y.s) < 0)
  }

  predicate OneKind(keys: seq<Key>) {
    (forall i :: 0 <= i < |keys| ==> keys[i].IntKey?) || (forall i :: 0 <= i < |keys| ==> keys[i].StrKey?)
  }

  lemma {:induction false} StrCmpSign(a: seq<Byte>, b: seq<Byte>)
    ensures (StrCmp(a, b) < 0 <==> StrCmp(b, a) > 0) && (StrCmp(a, b) == 0 <==> a == b)
  {
    if a != [] && b != [] && a[0] == b[0] {
      StrCmpSign(a[1..], b[1..]);
      assert a == [a[0]] + a[1..] && b == [b[0]] + b[1..];
    }
  }

  lemma {:induction false} StrCmpTrans(a: seq<Byte>, b: seq<Byte>, c: seq<Byte>)
    requires StrCmp(a, b) < 0 && StrCmp(b, c) <= 0
    ensures StrCmp(a, c) < 0
  {
    if a != [] && b != [] && c != [] && a[0] == b[0] == c[0] {
      StrCmpTrans(a[1..], b[1..], c[1..]);
    }
  }

  /** By key, and where the keys are equal by position. */
  predicate Before(keys: seq<Key>, a: int, b: int)
    requires 0 <= a < |keys| && 0 <= b < |keys|
  {
    Less(keys[a], keys[b]) || (!Less(keys[b], keys[a]) && a < b)
  }

  lemma BeforeTrans(keys: seq<Key>, a: int, b: int, c: int)
    requires 0 <= a < |keys| && 0 <= b < |keys| && 0 <= c < |keys| && OneKind(keys)
    requires Before(keys, a, b) && Before(keys, b, c)
    ensures Before(keys, a, c)
  {
    var x, y, z := keys[a], keys[b], keys[c];
    if x.StrKey? {
      assert y.StrKey? && z.StrKey?;
      StrCmpSign(x.s, y.s);
      StrCmpSign(y.s, x.s);
      StrCmpSign(z.s, y.s);
      StrCmpSign(z.s, x.s);
      if Less(x, y) {
        StrCmpTrans(x.s, y.s, z.s);
      } else if Less(y, z) {
        assert x.s == y.s;
      }
    }
  }

  lemma BeforeTotal(keys: seq<Key>, a: int, b: int)
    requires 0 <= a < |keys| && 0 <= b < |keys| && OneKind(keys)
    ensures !(Before(keys, a, b) && Before(keys, b, a))
    ensures a != b ==> Before(keys, a, b) || Before(keys, b, a)
  {
    if keys[a].StrKey? {
      assert keys[b].StrKey?;
      StrCmpSign(keys[a].s, keys[b].s);
    }
  }

  // ---- sorted runs of positions

  /** `s` holds the positions `lo .. hi` in order, each once (strictly ascending, so none is doubled). */
  ghost predicate Run(keys: seq<Key>, s: seq<int>, lo: nat, hi: nat) {
    && lo <= hi <= |keys| && |s| == hi - lo
    && (forall i :: 0 <= i < |s| ==> lo <= s[i] < hi)
    && (forall i, j :: 0 <= i < j < |s| ==> Before(keys, s[i], s[j]))
  }

  /** The order of a stable sort: all positions by key, equal keys by position. */
  ghost predicate StableOrder(keys: seq<Key>, s: seq<int>) {
    Run(keys, s, 0, |keys|)
  }

  ghost predicate Positions(keys: seq<Key>, s: seq<int>) {
    forall i :: 0 <= i < |s| ==> 0 <= s[i] < |keys|
  }

  ghost function Merge(keys: seq<Key>, a: seq<int>, b: seq<int>): (r: seq<int>)
    requires Positions(keys, a) && Positions(keys, b)
    ensures |r| == |a| + |b|
  {
    if a == [] then b
    else if b == [] then a
    else if Less(keys[b[0]], keys[a[0]]) then [b[0]] + Merge(keys, a, b[1..])
    else [a[0]] + Merge(keys, a[1..], b)
  }

  lemma {:induction false} MergeMembers(keys: seq<Key>, a: seq<int>, b: seq<int>)
    requires Positions(keys, a) && Positions(keys, b)
    ensures forall x :: x in Merge(keys, a, b) ==> x in a || x in b
  {
    if a != [] && b != [] {
      if Less(keys[b[0]], keys[a[0]]) {
        MergeMembers(keys, a, b[1..]);
      } else {
        MergeMembers(keys, a[1..], b);
      }
    }
  }

  ghost predicate Ascends(keys: seq<Key>, s: seq<int>) {
    Positions(keys, s) && (forall i, j :: 0 <= i < j < |s| ==> Before(keys, s[i], s[j]))
  }

  /** Everything in `s` comes after `x`. */
  ghost predicate Heads(keys: seq<Key>, x: int, s: seq<int>) {
    0 <= x < |keys| && forall y :: y in s ==> 0 <= y < |keys| && Before(keys, x, y)
  }

  lemma ConsAscends(keys: seq<Key>, x: int, s: seq<int>)
    requires Ascends(keys, s) && Heads(keys, x, s)
    ensures Ascends(keys, [x] + s)
  {
    var r := [x] + s;
    forall i, j | 0 <= i < j < |r| ensures Before(keys, r[i], r[j]) {
      assert r[j] in s;
    }
  }

  lemma HeadsAll(keys: seq<Key>, x: int, s: seq<int>)
    requires OneKind(keys) && Ascends(keys, s) && s != [] && 0 <= x < |keys| && Before(keys, x, s[0])
    ensures Heads(keys, x, s)
  {
    forall y | y in s ensures 0 <= y < |keys| && Before(keys, x, y) {
      var i :| 0 <= i < |s| && s[i] == y;
      if i > 0 { BeforeTrans(keys, x, s[0], y); }
    }
  }

  lemma TailAscends(keys: seq<Key>, s: seq<int>)
    requires Ascends(keys, s) && s != []
    ensures Ascends(keys, s[1..]) && s == [s[0]] + s[1..]
    ensures forall x :: x in s[1..] ==> x in s
  {
  }

  /** Merging a run with the run right behind it keeps both in order, ties included. */
  lemma {:induction false} MergeAscends(keys: seq<Key>, a: seq<int>, b: seq<int>, mid: int)
    requires OneKind(keys) && Ascends(keys, a) && Ascends(keys, b)
    requires (forall x :: x in a ==> x < mid) && (forall x :: x in b ==> mid <= x)
    ensures Ascends(keys, Merge(keys, a, b))
  {
    if a != [] && b != [] {
      TailAscends(keys, a);
      TailAscends(keys, b);
      if Less(keys[b[0]], keys[a[0]]) {
        MergeAscends(keys, a, b[1..], mid);
        MergeMembers(keys, a, b[1..]);
        HeadsAll(keys, b[0], a);
        ConsAscends(keys, b[0], Merge(keys, a, b[1..]));
      } else {
        MergeAscends(keys, a[1..], b, mid);
        MergeMembers(keys, a[1..], b);
        assert a[0] in a && b[0] in b;
        HeadsAll(keys, a[0], b);
        ConsAscends(keys, a[0], Merge(keys, a[1..], b));
      }
    }
  }

  lemma MergeIsRun(keys: seq<Key>, a: seq<int>, b: seq<int>, lo: nat, mid: nat, hi: nat)
    requires OneKind(keys) && Run(keys, a, lo, mid) && Run(keys, b, mid, hi)
    ensures Run(keys, Merge(keys, a, b), lo, hi)
  {
    MergeAscends(keys, a, b, mid);
    MergeMembers(keys, a, b);
    var r := Merge(keys, a, b);
    forall i | 0 <= i < |r| ensures lo <= r[i] < hi {
      assert r[i] in r;
    }
  }

  // ---- there is only one stable order

  function UpTo(n: nat): (r: set<int>)
    ensures |r| == n && forall x :: x in r <==> 0 <= x < n
  {
    if n == 0 then {} else UpTo(n - 1) + {n - 1}
  }

  lemma RangeCovered(s: seq<int>, n: nat, v: int)
    requires |s| == n && (forall i :: 0 <= i < n ==> 0 <= s[i] < n)
    requires forall i, j :: 0 <= i < j < n ==> s[i] != s[j]
    requires 0 <= v < n
    ensures v in s
  {
    var got := set x | x in s;
    SeqSetSize(s);
    if v !in s {
      assert got <= UpTo(n) - {v};
      SubsetSize(got, UpTo(n) - {v});
    }
  }

  lemma SubsetSize<T>(a: set<T>, b: set<T>)
    requires a <= b
    ensures |a| <= |b|
  {
    assert b == a + (b - a);
  }

  lemma {:induction false} SeqSetSize(s: seq<int>)
    requires forall i, j :: 0 <= i < j < |s| ==> s[i] != s[j]
    ensures |set x | x in s| == |s|
  {
    if s != [] {
      var rest, last := s[..|s| - 1], s[|s| - 1];
      SeqSetSize(rest);
      assert (set x | x in s) == (set x | x in rest) + {last};
    }
  }

  /** Two stable orders of the same keys are the same: the sort of the runtime and that of the interpreter agree. */
  lemma StableOrderUnique(keys: seq<Key>, s: seq<int>, r: seq<int>)
    requires OneKind(keys) && StableOrder(keys, s) && StableOrder(keys, r)
    ensures s == r
  {
    forall i | 0 <= i < |s| ensures s[i] == r[i] {
      SamePlace(keys, s, r, i);
    }
  }

  // ---- what the order is, said of the keys themselves

  /** `a` is a proper beginning of `b`, or has the smaller byte where they first differ. */
  ghost predicate ByteLess(a: seq<Byte>, b: seq<Byte>) {
    exists k: nat :: k <= |a| && k < |b| && a[..k] == b[..k] && (k == |a| || a[k] < b[k])
  }

  lemma {:induction false} StrCmpIs(a: seq<Byte>, b: seq<Byte>)
    ensures StrCmp(a, b) < 0 <==> ByteLess(a, b)
    decreases |a|
  {
    if a == [] || b == [] || a[0] != b[0] {
      if StrCmp(a, b) < 0 { assert a[..0] == b[..0]; }
      if ByteLess(a, b) {
        var k: nat :| k <= |a| && k < |b| && a[..k] == b[..k] && (k == |a| || a[k] < b[k]);
      }
    } else {
      StrCmpIs(a[1..], b[1..]);
      if ByteLess(a[1..], b[1..]) {
        var k: nat :| k < |a| && k < |b| - 1 && a[1..][..k] == b[1..][..k] && (k == |a| - 1 || a[1..][k] < b[1..][k]);
        assert a[..k + 1] == [a[0]] + a[1..][..k] && b[..k + 1] == [b[0]] + b[1..][..k];
      }
      if ByteLess(a, b) {
        var k: nat :| k <= |a| && k < |b| && a[..k] == b[..k] && (k == |a| || a[k] < b[k]);
        if k > 0 { assert a[1..][..k - 1] == a[..k][1..] && b[1..][..k - 1] == b[..k][1..]; }
      }
    }
  }

  /** The element from place `a` may stand before the one from place `b`. */
  ghost predicate MayPrecede(x: Key, a: int, y: Key, b: int) {
    if x.IntKey? && y.IntKey? then x.i < y.i || (x.i == y.i && a < b)
    else x.StrKey? && y.StrKey? && (ByteLess(x.s, y.s) || (x.s == y.s && a < b))
  }

  /** Every place once, smaller keys first, and equal keys in the order of their places. */
  ghost predicate SortedBy(keys: seq<Key>, order: seq<int>) {
    |order| == |keys| && (forall i :: 0 <= i < |order| ==> 0 <= order[i] < |keys|) &&
    (forall v :: 0 <= v < |keys| ==> v in order) &&
    forall i, j :: 0 <= i < j < |order| ==> MayPrecede(keys[order[i]], order[i], keys[order[j]], order[j])
  }

  lemma BeforeIs(keys: seq<Key>, a: int, b: int)
    requires 0 <= a < |keys| && 0 <= b < |keys| && OneKind(keys) && Before(keys, a, b)
    ensures MayPrecede(keys[a], a, keys[b], b)
  {
    if keys[a].StrKey? {
      assert keys[b].StrKey?;
      StrCmpIs(keys[a].s, keys[b].s);
      StrCmpSign(keys[a].s, keys[b].s);
      StrCmpSign(keys[b].s, keys[a].s);
    } else {
      assert keys[b].IntKey?;
    }
  }

  lemma StableIsSorted(keys: seq<Key>, order: seq<int>)
    requires OneKind(keys) && StableOrder(keys, order)
    ensures SortedBy(keys, order)
  {
    Distinct(keys, order);
    forall v | 0 <= v < |keys| ensures v in order { RangeCovered(order, |keys|, v); }
    forall i, j | 0 <= i < j < |order| ensures MayPrecede(keys[order[i]], order[i], keys[order[j]], order[j]) {
      BeforeIs(keys, order[i], order[j]);
    }
  }

  lemma Distinct(keys: seq<Key>, s: seq<int>)
    requires OneKind(keys) && StableOrder(keys, s)
    ensures forall i, j :: 0 <= i < j < |s| ==> s[i] != s[j]
  {
    forall i, j | 0 <= i < j < |s| ensures s[i] != s[j] {
      BeforeTotal(keys, s[i], s[j]);
    }
  }

  lemma {:induction false} SamePlace(keys: seq<Key>, s: seq<int>, r: seq<int>, i: nat)
    requires OneKind(keys) && StableOrder(keys, s) && StableOrder(keys, r) && i < |s|
    ensures forall k :: 0 <= k <= i ==> s[k] == r[k]
  {
    if i > 0 { SamePlace(keys, s, r, i - 1); }
    Distinct(keys, s);
    Distinct(keys, r);
    if s[i] != r[i] {
      RangeCovered(r, |r|, s[i]);
      RangeCovered(s, |s|, r[i]);
      var k :| 0 <= k < |r| && r[k] == s[i];
      var l :| 0 <= l < |s| && s[l] == r[i];
      BeforeTotal(keys, s[i], r[i]);
    }
  }

  // ---- runs of width w over the whole index

  function Min(a: int, b: int): int {
    if a < b then a else b
  }

  /** From `lo` on, `s` is cut into runs of width `w` (the last one may be shorter). */
  ghost predicate RunsFrom(keys: seq<Key>, s: seq<int>, w: nat, lo: nat)
    requires |s| == |keys| && w > 0
    decreases |s| - lo
  {
    lo >= |s| || (var hi := Min(lo + w, |s|); Run(keys, s[lo..hi], lo, hi) && RunsFrom(keys, s, w, lo + w))
  }

  /** `p`, the part of an index before `lo`, is cut into runs of width `w`. */
  ghost predicate RunsUpTo(keys: seq<Key>, p: seq<int>, w: nat, lo: nat)
    requires w > 0 && |p| == Min(lo, |keys|)
    decreases lo
  {
    lo == 0 ||
    (w <= lo && lo - w < |keys| && Run(keys, p[lo - w..], lo - w, |p|) && RunsUpTo(keys, p[..lo - w], w, lo - w))
  }

  lemma {:induction false} UpToIsFrom(keys: seq<Key>, s: seq<int>, w: nat, lo: nat)
    requires |s| == |keys| && w > 0
    requires RunsUpTo(keys, s[..Min(lo, |s|)], w, lo) && RunsFrom(keys, s, w, lo)
    ensures RunsFrom(keys, s, w, 0)
    decreases lo
  {
    if lo > 0 {
      var p := s[..Min(lo, |s|)];
      assert p[lo - w..] == s[lo - w..Min(lo, |s|)];
      assert p[..lo - w] == s[..Min(lo - w, |s|)];
      UpToIsFrom(keys, s, w, lo - w);
    }
  }

  lemma {:induction false} SinglesAreRuns(keys: seq<Key>, s: seq<int>, lo: nat)
    requires |s| == |keys| && forall i :: 0 <= i < |s| ==> s[i] == i
    ensures RunsFrom(keys, s, 1, lo)
    decreases |s| - lo
  {
    if lo < |s| { SinglesAreRuns(keys, s, lo + 1); }
  }

  /** Two neighbouring runs of width `w` at `lo`, and the runs behind them. */
  lemma TwoRuns(keys: seq<Key>, s: seq<int>, w: nat, lo: nat)
    requires |s| == |keys| && w > 0 && lo < |s| && RunsFrom(keys, s, w, lo)
    ensures var mid, hi := Min(lo + w, |s|), Min(lo + 2 * w, |s|);
            Run(keys, s[lo..mid], lo, mid) && Run(keys, s[mid..hi], mid, hi) && RunsFrom(keys, s, w, lo + 2 * w)
  {
  }

  /** The first element of a merge, and what is left to merge behind it. */
  lemma MergeStep(keys: seq<Key>, a: seq<int>, b: seq<int>)
    requires Positions(keys, a) && Positions(keys, b) && a != [] && b != []
    ensures Positions(keys, a[1..]) && Positions(keys, b[1..])
    ensures Merge(keys, a, b) == if Less(keys[b[0]], keys[a[0]]) then [b[0]] + Merge(keys, a, b[1..])
                                 else [a[0]] + Merge(keys, a[1..], b)
  {
  }

  lemma SliceTail(s: seq<int>, i: nat, j: nat)
    requires i < j <= |s|
    ensures s[i..j] != [] && s[i..j][0] == s[i] && s[i..j][1..] == s[i + 1..j]
  {
  }

  /** `tmp[k] = x`, seen as appending to `tmp[lo..k]`. */
  method Emit(tmp: array<int>, lo: nat, k: nat, x: int)
    requires lo <= k < tmp.Length
    modifies tmp
    ensures tmp[..lo] == old(tmp[..lo]) && tmp[lo..k + 1] == old(tmp[lo..k]) + [x]
  {
    tmp[k] := x;
  }

  /** Copies `idx[i..end]` behind `tmp[lo..k]`. */
  method CopyRest(idx: array<int>, tmp: array<int>, i: nat, end: nat, lo: nat, k: nat)
    requires idx != tmp && i <= end <= idx.Length && lo <= k && k + (end - i) <= tmp.Length
    modifies tmp
    ensures tmp[..lo] == old(tmp[..lo]) && tmp[lo..k + (end - i)] == old(tmp[lo..k]) + idx[i..end]
  {
    var a, m := i, k;
    ghost var done := tmp[lo..k];
    while a < end
      invariant i <= a <= end && m == k + (a - i)
      invariant tmp[..lo] == old(tmp[..lo]) && tmp[lo..m] == done + idx[i..a]
    {
      Emit(tmp, lo, m, idx[a]);
      assert idx[i..a + 1] == idx[i..a] + [idx[a]];
      a := a + 1;
      m := m + 1;
    }
  }

  lemma MergeEnd(keys: seq<Key>, a: seq<int>, b: seq<int>)
    requires Positions(keys, a) && Positions(keys, b) && (a == [] || b == [])
    ensures Merge(keys, a, b) == a + b
  {
  }

  /** What is merged so far, and what is still to be merged. */
  ghost predicate Pending(keys: seq<Key>, s: seq<int>, i: nat, mid: nat, j: nat, hi: nat) {
    i <= mid <= j <= hi <= |s| && Positions(keys, s[i..mid]) && Positions(keys, s[j..hi])
  }

  ghost function Rest(keys: seq<Key>, s: seq<int>, i: nat, mid: nat, j: nat, hi: nat): seq<int>
    requires Pending(keys, s, i, mid, j, hi)
  {
    Merge(keys, s[i..mid], s[j..hi])
  }

  lemma RestStep(keys: seq<Key>, s: seq<int>, i: nat, mid: nat, j: nat, hi: nat)
    requires Pending(keys, s, i, mid, j, hi) && i < mid && j < hi
    ensures 0 <= s[i] < |keys| && 0 <= s[j] < |keys|
    ensures if Less(keys[s[j]], keys[s[i]])
            then Pending(keys, s, i, mid, j + 1, hi) && Rest(keys, s, i, mid, j, hi) == [s[j]] + Rest(keys, s, i, mid, j + 1, hi)
            else Pending(keys, s, i + 1, mid, j, hi) && Rest(keys, s, i, mid, j, hi) == [s[i]] + Rest(keys, s, i + 1, mid, j, hi)
  {
    SliceTail(s, i, mid);
    SliceTail(s, j, hi);
    MergeStep(keys, s[i..mid], s[j..hi]);
  }

  lemma Regroup(a: seq<int>, x: int, b: seq<int>)
    ensures a + ([x] + b) == (a + [x]) + b
  {
  }

  /** Puts out the smaller of the two heads, the left one if they are equal. */
  method MergeHead(keys: seq<Key>, idx: array<int>, tmp: array<int>, lo: nat, i: nat, mid: nat, j: nat, hi: nat, ghost s: seq<int>)
    returns (i': nat, j': nat)
    requires idx.Length == tmp.Length == |keys| && idx != tmp && s == idx[..]
    requires lo <= i < mid <= j < hi <= |keys| && Pending(keys, s, i, mid, j, hi)
    modifies tmp
    ensures i <= i' <= mid && j <= j' <= hi && i' + j' == i + j + 1 && Pending(keys, s, i', mid, j', hi)
    ensures tmp[..lo] == old(tmp[..lo])
    ensures var k := lo + (i - lo) + (j - mid);
      tmp[lo..k + 1] + Rest(keys, s, i', mid, j', hi) == old(tmp[lo..k]) + Rest(keys, s, i, mid, j, hi)
  {
    var k := i + j - mid;
    RestStep(keys, s, i, mid, j, hi);
    var right := Less(keys[idx[j]], keys[idx[i]]);
    var x := if right then idx[j] else idx[i];
    i', j' := if right then i else i + 1, if right then j + 1 else j;
    Regroup(tmp[lo..k], x, Rest(keys, s, i', mid, j', hi));
    Emit(tmp, lo, k, x);
  }

  /** Merges while both runs have something left; equal keys are taken from the left one first. */
  method MergeHeads(keys: seq<Key>, idx: array<int>, tmp: array<int>, lo: nat, mid: nat, hi: nat, ghost s: seq<int>)
    returns (i: nat, j: nat, k: nat)
    requires idx.Length == tmp.Length == |keys| && idx != tmp && s == idx[..]
    requires lo <= mid <= hi <= |keys| && Pending(keys, s, lo, mid, mid, hi)
    modifies tmp
    ensures lo <= i <= mid <= j <= hi && k == i + j - mid
    ensures tmp[..lo] == old(tmp[..lo])
    ensures tmp[lo..k] + (s[i..mid] + s[j..hi]) == Merge(keys, s[lo..mid], s[mid..hi])
  {
    i, j, k := lo, mid, lo;
    ghost var goal := Rest(keys, s, i, mid, j, hi);
    while i < mid && j < hi
      invariant lo <= i <= mid <= j <= hi && k == i + j - mid && idx[..] == s
      invariant tmp[..lo] == old(tmp[..lo])
      invariant Pending(keys, s, i, mid, j, hi) && tmp[lo..k] + Rest(keys, s, i, mid, j, hi) == goal
    {
      i, j := MergeHead(keys, idx, tmp, lo, i, mid, j, hi, s);
      k := k + 1;
    }
    MergeEnd(keys, s[i..mid], s[j..hi]);
  }

  lemma Assoc(a: seq<int>, b: seq<int>, c: seq<int>)
    ensures (a + b) + c == a + (b + c)
  {
  }

  /** Merges two neighbouring runs of `idx` into `tmp`. */
  method MergeRuns(keys: seq<Key>, idx: array<int>, tmp: array<int>, lo: nat, mid: nat, hi: nat, ghost s: seq<int>)
    requires idx.Length == tmp.Length == |keys| && idx != tmp && s == idx[..]
    requires lo <= mid <= hi <= |keys| && Pending(keys, s, lo, mid, mid, hi)
    modifies tmp
    ensures tmp[..lo] == old(tmp[..lo])
    ensures tmp[lo..hi] == Merge(keys, s[lo..mid], s[mid..hi])
  {
    var i, j, k := MergeHeads(keys, idx, tmp, lo, mid, hi, s);
    ghost var done, a, b := tmp[lo..k], s[i..mid], s[j..hi];
    assert idx[i..mid] == a && idx[j..hi] == b;
    CopyRest(idx, tmp, i, mid, lo, k);
    k := k + (mid - i);
    assert tmp[lo..k] == done + a && idx[j..hi] == b;
    CopyRest(idx, tmp, j, hi, lo, k);
    assert k + (hi - j) == hi && tmp[lo..hi] == (done + a) + b;
    Assoc(done, a, b);
  }

  /** A run of width `w` (or the last, shorter one) behind the runs so far. */
  lemma OneMoreRun(keys: seq<Key>, p: seq<int>, w: nat, lo: nat)
    requires w > 0 && lo < |keys| && |p| == Min(lo + w, |keys|)
    requires RunsUpTo(keys, p[..lo], w, lo) && Run(keys, p[lo..], lo, |p|)
    ensures RunsUpTo(keys, p, w, lo + w)
  {
  }

  /** Two runs of width `w` at `lo` become one in `tmp`. */
  method MergeAt(keys: seq<Key>, idx: array<int>, tmp: array<int>, w: nat, lo: nat, ghost s: seq<int>)
    requires OneKind(keys) && idx.Length == tmp.Length == |keys| && idx != tmp && s == idx[..]
    requires w > 0 && lo < |keys| && RunsFrom(keys, s, w, lo)
    modifies tmp
    ensures RunsFrom(keys, s, w, lo + 2 * w) && tmp[..lo] == old(tmp[..lo])
    ensures var hi := Min(lo + 2 * w, |keys|); Run(keys, tmp[lo..hi], lo, hi)
  {
    var n := |keys|;
    var mid, hi := Min(lo + w, n), Min(lo + 2 * w, n);
    TwoRuns(keys, s, w, lo);
    MergeRuns(keys, idx, tmp, lo, mid, hi, s);
    MergeIsRun(keys, s[lo..mid], s[mid..hi], lo, mid, hi);
  }

  /** One pass: runs of width `w` in `idx` become runs of width `2 * w` in `tmp`. */
  method Pass(keys: seq<Key>, idx: array<int>, tmp: array<int>, w: nat)
    requires OneKind(keys) && idx.Length == tmp.Length == |keys| && idx != tmp && w > 0
    requires RunsFrom(keys, idx[..], w, 0)
    modifies tmp
    ensures RunsFrom(keys, tmp[..], 2 * w, 0)
  {
    var n := |keys|;
    var lo: nat := 0;
    ghost var s := idx[..];
    ghost var p: seq<int> := [];
    while lo < n
      invariant idx[..] == s && RunsFrom(keys, s, w, lo)
      invariant p == tmp[..Min(lo, n)] && RunsUpTo(keys, p, 2 * w, lo)
      decreases n - lo
    {
      MergeAt(keys, idx, tmp, w, lo, s);
      ghost var hi := Min(lo + 2 * w, n);
      assert tmp[..hi][lo..] == tmp[lo..hi] && tmp[..hi][..lo] == p;
      p := tmp[..hi];
      OneMoreRun(keys, p, 2 * w, lo);
      lo := lo + 2 * w;
    }
    assert p == tmp[..][..Min(lo, n)];
    UpToIsFrom(keys, tmp[..], 2 * w, lo);
  }

  /** Sorts `data` by the precomputed keys, and says in which order its elements now stand. */
  method SortKeyed<T(0)>(data: array<T>, keys: seq<Key>) returns (ghost order: seq<int>)
    requires |keys| == data.Length && OneKind(keys)
    modifies data
    ensures SortedBy(keys, order) && StableOrder(keys, order)
    ensures forall i :: 0 <= i < data.Length ==> data[i] == old(data[order[i]])
  {
    var n := data.Length;
    if n < 2 {
      order := seq(n, i => i);
      StableIsSorted(keys, order);
      return;
    }
    var idx := new int[n](i => i);
    var tmp := new int[n];
    SinglesAreRuns(keys, idx[..], 0);
    var w := 1;
    while w < n
      invariant w > 0 && idx.Length == tmp.Length == n && idx != tmp && fresh(idx) && fresh(tmp)
      invariant RunsFrom(keys, idx[..], w, 0) && data[..] == old(data[..])
      decreases n - w
    {
      Pass(keys, idx, tmp, w);
      idx, tmp := tmp, idx;
      w := w * 2;
    }
    order := idx[..];
    assert order[0..n] == order;
    StableIsSorted(keys, order);
    var nd := new T[n];
    for i := 0 to n
      invariant idx[..] == order && data[..] == old(data[..])
      invariant forall j :: 0 <= j < i ==> nd[j] == old(data[order[j]])
    {
      nd[i] := data[idx[i]];
    }
    for i := 0 to n
      invariant forall j :: 0 <= j < n ==> nd[j] == old(data[order[j]])
      invariant forall j :: 0 <= j < i ==> data[j] == nd[j]
    {
      data[i] := nd[i];
    }
  }
}
