/** The dictionary of the C runtime: insertion-ordered entries and an open-addressing index (micai/src/cgen.rs). */
module Dict {

  // ---- the simple side: an association list, as the interpreter keeps it

  type Assoc<K, V> = seq<(K, V)>

  function Find<K(==), V>(l: Assoc<K, V>, k: K): (r: int)
    ensures -1 <= r < |l|
    ensures r >= 0 ==> l[r].0 == k
  {
    if l == [] then -1
    else if l[0].0 == k then 0
    else
      var r := Find(l[1..], k);
      if r < 0 then -1 else r + 1
  }

  /** `set`: replace the value of the first entry with the key, or append. */
  function Put<K(==), V>(l: Assoc<K, V>, k: K, v: V): Assoc<K, V> {
    var e := Find(l, k);
    if e >= 0 then l[e := (l[e].0, v)] else l + [(k, v)]
  }

  ghost predicate Distinct<K, V>(l: Assoc<K, V>) {
    forall i, j :: 0 <= i < j < |l| ==> l[i].0 != l[j].0
  }

  function AsMap<K(==), V>(l: Assoc<K, V>): map<K, V> {
    if l == [] then map[] else AsMap(l[..|l| - 1])[l[|l| - 1].0 := l[|l| - 1].1]
  }

  function KeysOf<K, V>(l: Assoc<K, V>): (r: seq<K>)
    ensures |r| == |l| && forall i :: 0 <= i < |l| ==> r[i] == l[i].0
  {
    if l == [] then [] else KeysOf(l[..|l| - 1]) + [l[|l| - 1].0]
  }

  lemma {:induction false} FindNone<K, V>(l: Assoc<K, V>, k: K)
    ensures Find(l, k) < 0 <==> forall i :: 0 <= i < |l| ==> l[i].0 != k
  {
    if l != [] {
      FindNone(l[1..], k);
      if Find(l, k) < 0 {
        forall i | 0 <= i < |l| ensures l[i].0 != k {
          if i > 0 { assert l[i] == l[1..][i - 1]; }
        }
      }
    }
  }

  /** With distinct keys, an entry with the key is the one `Find` finds. */
  lemma FindAt<K, V>(l: Assoc<K, V>, k: K, i: nat)
    requires Distinct(l) && i < |l| && l[i].0 == k
    ensures Find(l, k) == i
  {
    FindNone(l, k);
  }

  /** `set` keeps the keys distinct, keeps old keys in their places, and puts a new key at the end. */
  lemma PutKeeps<K, V>(l: Assoc<K, V>, k: K, v: V)
    requires Distinct(l)
    ensures Distinct(Put(l, k, v))
    ensures KeysOf(l) <= KeysOf(Put(l, k, v))
    ensures |Put(l, k, v)| == if Find(l, k) < 0 then |l| + 1 else |l|
  {
    FindNone(l, k);
  }

  lemma {:induction false} MapHas<K, V>(l: Assoc<K, V>, i: nat)
    requires Distinct(l) && i < |l|
    ensures l[i].0 in AsMap(l) && AsMap(l)[l[i].0] == l[i].1
  {
    var rest := l[..|l| - 1];
    if i < |rest| {
      assert Distinct(rest);
      MapHas(rest, i);
    }
  }

  lemma {:induction false} MapOnly<K, V>(l: Assoc<K, V>, k: K)
    requires k in AsMap(l)
    ensures Find(l, k) >= 0
  {
    FindNone(l, k);
    if l != [] && l[|l| - 1].0 != k {
      var rest := l[..|l| - 1];
      MapOnly(rest, k);
      var r := Find(rest, k);
      assert l[r].0 == k;
    } else {
      assert l[|l| - 1].0 == k;
    }
  }

  /** What `get` finds in the list is what the map holds. */
  lemma FindIsLookup<K, V>(l: Assoc<K, V>, k: K)
    requires Distinct(l)
    ensures Find(l, k) >= 0 <==> k in AsMap(l)
    ensures Find(l, k) >= 0 ==> AsMap(l)[k] == l[Find(l, k)].1
  {
    if k in AsMap(l) {
      MapOnly(l, k);
    }
    if Find(l, k) >= 0 {
      MapHas(l, Find(l, k));
    }
  }

  /** `set` on the list is an update of the map. */
  lemma PutIsUpdate<K, V>(l: Assoc<K, V>, k: K, v: V)
    requires Distinct(l)
    ensures AsMap(Put(l, k, v)) == AsMap(l)[k := v]
  {
    var p, m := Put(l, k, v), AsMap(l)[k := v];
    PutKeeps(l, k, v);
    if Find(l, k) < 0 {
      assert p[..|p| - 1] == l;
    } else {
      forall x | x in AsMap(p) ensures x in m && AsMap(p)[x] == m[x] {
        FindIsLookup(p, x);
        var i := Find(p, x);
        assert l[i].0 == x;
        MapHas(l, i);
        if i != Find(l, k) { FindAt(l, x, i); }
      }
      forall x | x in m ensures x in AsMap(p) {
        FindIsLookup(l, x);
        FindIsLookup(l, k);
        var i := Find(l, x);
        assert p[i].0 == x;
        MapHas(p, i);
      }
    }
  }

  lemma {:induction false} MapSize<K, V>(l: Assoc<K, V>)
    requires Distinct(l)
    ensures |AsMap(l)| == |l|
  {
    if l != [] {
      var rest, k := l[..|l| - 1], l[|l| - 1].0;
      assert Distinct(rest);
      MapSize(rest);
      if k in AsMap(rest) {
        MapOnly(rest, k);
        assert l[Find(rest, k)].0 == k;
      }
      assert AsMap(l).Keys == AsMap(rest).Keys + {k};
    }
  }

  // ---- bit masks

  function Pow2(k: nat): (r: nat)
    ensures r >= 1
  {
    if k == 0 then 1 else 2 * Pow2(k - 1)
  }

  /** `a & b` on natural numbers, bit by bit. */
  function BitAnd(a: nat, b: nat): nat {
    if a == 0 || b == 0 then 0 else 2 * BitAnd(a / 2, b / 2) + (a % 2) * (b % 2)
  }

  /** Masking with `2^k - 1` keeps smaller numbers, takes `2^k` to 0, and always gives a slot. */
  lemma {:induction false} Mask(x: nat, k: nat)
    ensures BitAnd(x, Pow2(k) - 1) < Pow2(k)
    ensures x < Pow2(k) ==> BitAnd(x, Pow2(k) - 1) == x
    ensures x == Pow2(k) ==> BitAnd(x, Pow2(k) - 1) == 0
  {
    if k > 0 && x > 0 {
      Mask(x / 2, k - 1);
      assert (Pow2(k) - 1) / 2 == Pow2(k - 1) - 1 && (Pow2(k) - 1) % 2 == 1;
      assert x == 2 * (x / 2) + x % 2;
    }
  }

  ghost predicate IsPow2(n: nat) {
    exists k: nat :: n == Pow2(k)
  }

  lemma Doubled(n: nat)
    requires IsPow2(n)
    ensures IsPow2(n * 2)
  {
    var k: nat :| n == Pow2(k);
    assert n * 2 == Pow2(k + 1);
  }

  // ---- probing

  /** The slot `d` places behind `home`, going round. */
  function Slot(home: nat, d: nat, n: nat): nat
    requires home < n && d < n
    ensures Slot(home, d, n) < n
  {
    if home + d < n then home + d else home + d - n
  }

  /** How many places behind `at` the slot `z` is. */
  function Distance(at: nat, z: nat, n: nat): nat
    requires at < n && z < n
    ensures Distance(at, z, n) < n && Slot(at, Distance(at, z, n), n) == z
  {
    if at <= z then z - at else z - at + n
  }

  function Home<K>(hash: K -> nat, k: K, n: nat): nat
    requires n > 0
  {
    BitAnd(hash(k), n - 1)
  }

  /** Entry `e` is found by probing from its home: `d` used slots, and then its own. */
  predicate ReachedAt(tbl: seq<int>, home: nat, e: nat, d: nat)
    requires home < |tbl|
  {
    && d < |tbl| && tbl[Slot(home, d, |tbl|)] == e
    && forall j :: 0 <= j < d ==> tbl[Slot(home, j, |tbl|)] != -1
  }

  function Used(tbl: seq<int>): nat {
    if tbl == [] then 0 else (if tbl[0] == -1 then 0 else 1) + Used(tbl[1..])
  }

  /** `tbl` is an index of `keys`: every entry is reached from its home, and half of the slots at least are empty. */
  ghost predicate Indexes<K>(hash: K -> nat, tbl: seq<int>, keys: seq<K>) {
    && IsPow2(|tbl|) && |tbl| > 0
    && (forall s :: 0 <= s < |tbl| ==> -1 <= tbl[s] < |keys|)
    && Used(tbl) == |keys|
    && (forall e :: 0 <= e < |keys| ==> Reached(hash, tbl, keys, e))
  }

  ghost predicate Reached<K>(hash: K -> nat, tbl: seq<int>, keys: seq<K>, e: nat)
    requires e < |keys| && |tbl| > 0
  {
    Home(hash, keys[e], |tbl|) < |tbl| && exists d :: ReachedAt(tbl, Home(hash, keys[e], |tbl|), e, d)
  }

  lemma {:induction false} UsedUpdate(tbl: seq<int>, s: nat, x: int)
    requires s < |tbl| && tbl[s] == -1 && x != -1
    ensures Used(tbl[s := x]) == Used(tbl) + 1
  {
    if s == 0 {
      assert tbl[s := x][1..] == tbl[1..];
    } else {
      UsedUpdate(tbl[1..], s - 1, x);
      assert tbl[s := x][1..] == tbl[1..][s - 1 := x];
    }
  }

  lemma {:induction false} SomeEmpty(tbl: seq<int>) returns (z: nat)
    requires Used(tbl) < |tbl|
    ensures z < |tbl| && tbl[z] == -1
  {
    if tbl[0] == -1 {
      z := 0;
    } else {
      var y := SomeEmpty(tbl[1..]);
      z := y + 1;
    }
  }

  lemma {:induction false} UsedNone(tbl: seq<int>)
    requires forall s :: 0 <= s < |tbl| ==> tbl[s] == -1
    ensures Used(tbl) == 0
  {
    if tbl != [] { UsedNone(tbl[1..]); }
  }

  /** Putting the next entry into the first empty slot from its home keeps all entries reachable. */
  lemma PutSlot<K>(hash: K -> nat, tbl: seq<int>, keys: seq<K>, k: K, d: nat)
    requires Indexes(hash, tbl, keys)
    requires Home(hash, k, |tbl|) < |tbl| && d < |tbl|
    requires forall j :: 0 <= j < d ==> tbl[Slot(Home(hash, k, |tbl|), j, |tbl|)] != -1
    requires tbl[Slot(Home(hash, k, |tbl|), d, |tbl|)] == -1
    ensures Indexes(hash, tbl[Slot(Home(hash, k, |tbl|), d, |tbl|) := |keys|], keys + [k])
  {
    var s := Slot(Home(hash, k, |tbl|), d, |tbl|);
    var tbl', keys' := tbl[s := |keys|], keys + [k];
    UsedUpdate(tbl, s, |keys|);
    forall e | 0 <= e < |keys'| ensures Reached(hash, tbl', keys', e) {
      if e < |keys| {
        assert Reached(hash, tbl, keys, e);
        var c :| ReachedAt(tbl, Home(hash, keys[e], |tbl|), e, c);
        assert ReachedAt(tbl', Home(hash, keys'[e], |tbl'|), e, c);
      } else {
        assert ReachedAt(tbl', Home(hash, keys'[e], |tbl'|), e, d);
      }
    }
  }

  /** A key is not there when probing from its home meets an empty slot first. */
  lemma NotThere<K>(hash: K -> nat, tbl: seq<int>, keys: seq<K>, k: K, d: nat, e: nat)
    requires Indexes(hash, tbl, keys) && Home(hash, k, |tbl|) < |tbl| && d < |tbl|
    requires forall j :: 0 <= j < d ==> var x := tbl[Slot(Home(hash, k, |tbl|), j, |tbl|)]; x != -1 && keys[x] != k
    requires tbl[Slot(Home(hash, k, |tbl|), d, |tbl|)] == -1
    requires e < |keys|
    ensures keys[e] != k
  {
    assert Reached(hash, tbl, keys, e);
    var c :| ReachedAt(tbl, Home(hash, keys[e], |tbl|), e, c);
  }

  // ---- the table

  class Table<K(==), V> {
    const hash: K -> nat
    var keys: seq<K>
    var vals: seq<V>
    var idx: array<int>

    ghost predicate Valid()
      reads this, idx
    {
      && |keys| == |vals|
      && (forall i, j :: 0 <= i < j < |keys| ==> keys[i] != keys[j])
      && (if idx.Length == 0 then keys == [] else Indexes(hash, idx[..], keys) && 2 * |keys| <= idx.Length)
    }

    /** The entries, in insertion order. */
    function Entries(): (r: Assoc<K, V>)
      requires |keys| == |vals|
      reads this
      ensures |r| == |keys| && forall i :: 0 <= i < |r| ==> r[i] == (keys[i], vals[i])
    {
      Zip(keys, vals)
    }

    constructor (hash: K -> nat)
      ensures Valid() && Entries() == [] && this.hash == hash && fresh(idx)
    {
      this.hash := hash;
      keys, vals := [], [];
      idx := new int[0];
    }

    /** The first empty slot from the home of `k`, in a table with room. */
    method EmptySlot(tbl: array<int>, k: K, ghost known: seq<K>) returns (at: nat, ghost d: nat)
      requires Indexes(hash, tbl[..], known) && |known| < tbl.Length
      ensures Home(hash, k, tbl.Length) < tbl.Length && d < tbl.Length
      ensures at == Slot(Home(hash, k, tbl.Length), d, tbl.Length) && tbl[at] == -1
      ensures forall j :: 0 <= j < d ==> tbl[Slot(Home(hash, k, tbl.Length), j, tbl.Length)] != -1
    {
      ghost var z := SomeEmpty(tbl[..]);
      ghost var p: nat :| tbl.Length == Pow2(p);
      Mask(hash(k), p);
      var n := tbl.Length;
      at := BitAnd(hash(k), n - 1);
      d := 0;
      while tbl[at] != -1
        invariant at < n && d < n && at == Slot(Home(hash, k, n), d, n)
        invariant d + Distance(at, z, n) == Distance(Home(hash, k, n), z, n)
        invariant forall j :: 0 <= j < d ==> tbl[Slot(Home(hash, k, n), j, n)] != -1
        decreases Distance(at, z, n)
      {
        assert at != z;
        Mask(at + 1, p);
        at := BitAnd(at + 1, n - 1);
        d := d + 1;
      }
    }

    /** Rebuilds the index with the given number of slots. */
    method Reindex(slots: nat)
      requires |keys| == |vals| && IsPow2(slots) && 2 * |keys| <= slots && slots > 0
      requires forall i, j :: 0 <= i < j < |keys| ==> keys[i] != keys[j]
      modifies this`idx
      ensures Valid() && fresh(idx) && idx.Length == slots
    {
      var t := new int[slots](_ => -1);
      UsedNone(t[..]);
      for e := 0 to |keys|
        invariant keys == old(keys)
        invariant t.Length == slots && Indexes(hash, t[..], keys[..e])
      {
        var at, d := EmptySlot(t, keys[e], keys[..e]);
        PutSlot(hash, t[..], keys[..e], keys[e], d);
        ghost var was := t[..];
        t[at] := e;
        assert t[..] == was[at := e] && keys[..e + 1] == keys[..e] + [keys[e]];
      }
      assert keys[..|keys|] == keys;
      idx := t;
    }

    /** The position of the entry with the key, or -1. */
    method FindKey(k: K) returns (r: int)
      requires Valid()
      ensures r == Find(Entries(), k)
    {
      if idx.Length == 0 { return -1; }
      var n := idx.Length;
      ghost var z := SomeEmpty(idx[..]);
      ghost var p: nat :| n == Pow2(p);
      Mask(hash(k), p);
      var at: nat := BitAnd(hash(k), n - 1);
      ghost var d: nat := 0;
      while idx[at] != -1
        invariant at < n && d < n && at == Slot(Home(hash, k, n), d, n)
        invariant d + Distance(at, z, n) == Distance(Home(hash, k, n), z, n)
        invariant forall j :: 0 <= j < d ==> var x := idx[..][Slot(Home(hash, k, n), j, n)]; x != -1 && keys[x] != k
        decreases Distance(at, z, n)
      {
        var e := idx[at];
        if keys[e] == k {
          FoundInZip(keys, vals, k, e);
          return e;
        }
        assert at != z;
        Mask(at + 1, p);
        at := BitAnd(at + 1, n - 1);
        d := d + 1;
      }
      forall e | 0 <= e < |keys| ensures keys[e] != k {
        NotThere(hash, idx[..], keys, k, d, e);
      }
      AbsentFromZip(keys, vals, k);
      r := -1;
    }

    method Set(k: K, v: V)
      requires Valid()
      modifies this, idx
      ensures Valid() && Entries() == Put(old(Entries()), k, v)
      ensures idx == old(idx) || fresh(idx)
    {
      var e := FindKey(k);
      if e >= 0 {
        vals := vals[e := v];
      } else {
        FindNone(Entries(), k);
        forall i | 0 <= i < |keys| ensures keys[i] != k {
          assert Entries()[i].0 == keys[i];
        }
        Append(k, v);
      }
    }

    /** A new key goes to the end of the entries; the index grows when it would be more than half full. */
    method Append(k: K, v: V)
      requires Valid() && forall i :: 0 <= i < |keys| ==> keys[i] != k
      modifies this, idx
      ensures Valid() && Entries() == old(Entries()) + [(k, v)]
      ensures idx == old(idx) || fresh(idx)
    {
      ghost var known := keys;
      keys := keys + [k];
      vals := vals + [v];
      if idx.Length == 0 || |keys| * 2 > idx.Length {
        var slots := MoreSlots(idx.Length, |keys|);
        Reindex(slots);
      } else {
        var at, d := EmptySlot(idx, k, known);
        PutSlot(hash, idx[..], known, k, d);
        ghost var was := idx[..];
        idx[at] := |keys| - 1;
        assert idx[..] == was[at := |known|];
      }
    }

    method MoreSlots(now: nat, len: nat) returns (slots: nat)
      requires now == 0 || IsPow2(now)
      ensures slots > 0 && IsPow2(slots) && 2 * len <= slots
    {
      slots := if now > 0 then now * 2 else 16;
      assert IsPow2(slots) by {
        if now > 0 { Doubled(now); } else { assert Pow2(4) == 16; }
      }
      while len * 2 > slots
        invariant IsPow2(slots) && slots > 0
        decreases len * 2 - slots
      {
        Doubled(slots);
        slots := slots * 2;
      }
    }

    method Has(k: K) returns (r: bool)
      requires Valid()
      ensures r <==> Find(Entries(), k) >= 0
    {
      var e := FindKey(k);
      r := e >= 0;
    }

    /** The value of the key, or the default. */
    method Get(k: K, default: V) returns (v: V)
      requires Valid()
      ensures v == if Find(Entries(), k) >= 0 then Entries()[Find(Entries(), k)].1 else default
    {
      var e := FindKey(k);
      v := if e >= 0 then vals[e] else default;
    }

    /** A copy with its own index. */
    method Copy() returns (t: Table<K, V>)
      requires Valid()
      ensures fresh(t) && fresh(t.idx) && t.Valid() && t.Entries() == Entries()
    {
      var a := new int[idx.Length];
      for i := 0 to idx.Length
        invariant a[..i] == idx[..i]
      {
        a[i] := idx[i];
      }
      assert a[..] == idx[..];
      t := new Table(hash);
      t.keys, t.vals := keys, vals;
      t.idx := a;
    }
  }

  function Zip<K, V>(ks: seq<K>, vs: seq<V>): (r: Assoc<K, V>)
    requires |ks| == |vs|
    ensures |r| == |ks| && forall i :: 0 <= i < |r| ==> r[i] == (ks[i], vs[i])
  {
    seq(|ks|, i requires 0 <= i < |ks| => (ks[i], vs[i]))
  }

  lemma FoundInZip<K, V>(ks: seq<K>, vs: seq<V>, k: K, e: nat)
    requires |ks| == |vs| && e < |ks| && ks[e] == k
    requires forall i, j :: 0 <= i < j < |ks| ==> ks[i] != ks[j]
    ensures Find(Zip(ks, vs), k) == e
  {
    FindAt(Zip(ks, vs), k, e);
  }

  lemma AbsentFromZip<K, V>(ks: seq<K>, vs: seq<V>, k: K)
    requires |ks| == |vs| && forall i :: 0 <= i < |ks| ==> ks[i] != k
    ensures Find(Zip(ks, vs), k) == -1
  {
    FindNone(Zip(ks, vs), k);
  }

  /** Equal counts, and every entry of `a` is in `b` with an equal value: that is equality of the two maps. */
  method Equal<K(==), V(==)>(a: Table<K, V>, b: Table<K, V>) returns (r: bool)
    requires a.Valid() && b.Valid()
    ensures r <==> AsMap(a.Entries()) == AsMap(b.Entries())
  {
    ghost var x, y := a.Entries(), b.Entries();
    MapSize(x);
    MapSize(y);
    if |a.keys| != |b.keys| {
      return false;
    }
    for i := 0 to |a.keys|
      invariant forall j :: 0 <= j < i ==> Agrees(x[j], y)
    {
      var e := b.FindKey(a.keys[i]);
      FindIsLookup(y, a.keys[i]);
      MapHas(x, i);
      if e < 0 || a.vals[i] != b.vals[e] {
        return false;
      }
    }
    AllAgree(x, y);
    r := true;
  }

  predicate Agrees<K(==), V(==)>(p: (K, V), l: Assoc<K, V>) {
    Find(l, p.0) >= 0 && l[Find(l, p.0)].1 == p.1
  }

  lemma SameSize<K>(a: set<K>, b: set<K>)
    requires a <= b && |a| == |b|
    ensures a == b
  {
    assert b == a + (b - a);
    assert |b| == |a| + |b - a|;
  }

  lemma AllAgree<K, V>(x: Assoc<K, V>, y: Assoc<K, V>)
    requires Distinct(x) && Distinct(y) && |x| == |y|
    requires forall j :: 0 <= j < |x| ==> Agrees(x[j], y)
    ensures AsMap(x) == AsMap(y)
  {
    var m, n := AsMap(x), AsMap(y);
    forall k | k in m ensures k in n && n[k] == m[k] {
      FindIsLookup(x, k);
      FindIsLookup(y, k);
      assert Agrees(x[Find(x, k)], y);
    }
    MapSize(x);
    MapSize(y);
    SameSize(m.Keys, n.Keys);
  }
}
