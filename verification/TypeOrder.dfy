/** Emitting type definitions with their contents first (micai/src/cgen.rs). */
module TypeOrder {
  import opened TypeLayout
  import opened TypeCycles

  /** A definition and the names of the types it holds by value. */
  datatype Tdef = Tdef(name: string, deps: seq<string>)

  /** Where a name is defined; of several definitions with one name, the last. */
  function Index(ds: seq<Tdef>, n: string): (r: int)
    ensures -1 <= r < |ds|
    ensures r >= 0 ==> ds[r].name == n
    ensures r == -1 <==> forall i :: 0 <= i < |ds| ==> ds[i].name != n
  {
    if ds == [] then -1
    else if ds[|ds| - 1].name == n then |ds| - 1
    else Index(ds[..|ds| - 1], n)
  }

  lemma {:induction false} LastCounts(ds: seq<Tdef>, n: string, i: nat)
    requires i < |ds| && ds[i].name == n
    ensures i <= Index(ds, n) && ds[Index(ds, n)].name == n
    decreases |ds|
  {
    if ds[|ds| - 1].name != n { LastCounts(ds[..|ds| - 1], n, i); }
  }

  /** Definition `i` holds definition `j` by value. */
  predicate Holds(ds: seq<Tdef>, i: nat, j: nat) {
    i < |ds| && j < |ds| && exists k :: 0 <= k < |ds[i].deps| && Index(ds, ds[i].deps[k]) == j
  }

  ghost predicate Chain(ds: seq<Tdef>, p: seq<nat>) {
    p != [] && p[0] < |ds| && forall i :: 0 <= i < |p| - 1 ==> Holds(ds, p[i], p[i + 1])
  }

  ghost predicate Connected(ds: seq<Tdef>, a: nat, b: nat) {
    exists p :: Chain(ds, p) && p[0] == a && p[|p| - 1] == b
  }

  ghost predicate Acyclic(ds: seq<Tdef>) {
    forall p :: Chain(ds, p) && |p| > 1 ==> p[0] != p[|p| - 1]
  }

  /** Everything is emitted once, and what is emitted holds nothing that comes later. */
  ghost predicate ContentsFirst(ds: seq<Tdef>, out: seq<nat>) {
    forall k: nat, j: nat :: k < |out| && Holds(ds, out[k], j) ==> j in out[..k]
  }

  ghost predicate Once(out: seq<nat>) {
    forall a, b :: 0 <= a < b < |out| ==> out[a] != out[b]
  }

  // ------------------------------------------------------------------ chains

  lemma ConnectedSelf(ds: seq<Tdef>, a: nat)
    requires a < |ds|
    ensures Connected(ds, a, a)
  {
    var p := [a];
    assert Chain(ds, p) && p[0] == a && p[|p| - 1] == a;
  }

  lemma ConnectedOn(ds: seq<Tdef>, a: nat, b: nat, c: nat)
    requires Connected(ds, a, b) && Holds(ds, b, c)
    ensures Connected(ds, a, c)
  {
    var p :| Chain(ds, p) && p[0] == a && p[|p| - 1] == b;
    var q := p + [c];
    forall i | 0 <= i < |q| - 1 ensures Holds(ds, q[i], q[i + 1]) {
      if i < |p| - 1 { assert q[i] == p[i] && q[i + 1] == p[i + 1]; }
    }
    assert Chain(ds, q) && q[0] == a && q[|q| - 1] == c;
  }

  lemma Closing(ds: seq<Tdef>, i: nat, j: nat) returns (q: seq<nat>)
    requires Connected(ds, j, i) && Holds(ds, i, j)
    ensures Chain(ds, q) && |q| > 1 && q[0] == j && q[|q| - 1] == j
  {
    var p :| Chain(ds, p) && p[0] == j && p[|p| - 1] == i;
    q := p + [j];
    forall k | 0 <= k < |q| - 1 ensures Holds(ds, q[k], q[k + 1]) {
      if k < |p| - 1 { assert q[k] == p[k] && q[k + 1] == p[k + 1]; }
    }
  }

  /** What leads to `i` is not held by `i`. */
  lemma NoWayBack(ds: seq<Tdef>, i: nat, j: nat)
    requires Acyclic(ds) && Connected(ds, j, i)
    ensures !Holds(ds, i, j)
  {
    if Holds(ds, i, j) {
      var q := Closing(ds, i, j);
    }
  }

  // ------------------------------------------------------------------ the visit

  class Emission {
    const ds: seq<Tdef>
    /** 0: not met, 1: being visited, 2: emitted. */
    var state: seq<int>
    var out: seq<nat>

    ghost predicate Valid()
      reads this
    {
      |state| == |ds| && (forall i :: 0 <= i < |ds| ==> 0 <= state[i] <= 2) &&
      (forall j: nat :: j in out <==> j < |ds| && state[j] == 2) && Once(out) &&
      (Acyclic(ds) ==> ContentsFirst(ds, out))
    }

    /** The definitions not met so far. */
    ghost function Unmet(): set<nat>
      reads this
      requires |state| == |ds|
    {
      set i: nat | i < |ds| && state[i] == 0
    }

    constructor (defs: seq<Tdef>)
      ensures ds == defs && Valid() && out == [] && forall i :: 0 <= i < |ds| ==> state[i] == 0
    {
      ds := defs;
      state := seq(|defs|, i => 0);
      out := [];
    }

    /** What a visit keeps: visits under way stay so, what is emitted stays emitted. */
    twostate predicate Grown()
      reads this
    {
      |state| == |old(state)| && old(out) <= out &&
      (forall i :: 0 <= i < |state| ==> (state[i] == 1 <==> old(state)[i] == 1)) &&
      (forall i :: 0 <= i < |state| && old(state)[i] == 2 ==> state[i] == 2)
    }

    method Visit(i: nat)
      requires Valid() && i < |ds|
      requires forall g: nat :: g < |ds| && state[g] == 1 ==> Connected(ds, g, i)
      modifies this
      ensures Valid() && Grown() && Unmet() <= old(Unmet()) && state[i] != 0
      ensures old(state)[i] == 0 ==> state[i] == 2
      decreases Unmet()
    {
      if state[i] != 0 {
        return;
      }
      ghost var before := state;
      ghost var under := Unmet();
      state := state[i := 1];
      assert i in under && i !in Unmet();
      ConnectedSelf(ds, i);
      for k := 0 to |ds[i].deps|
        invariant Valid() && |state| == |before| && old(out) <= out && Unmet() < under
        invariant forall g: nat :: g < |ds| && g != i ==> (state[g] == 1 <==> before[g] == 1)
        invariant forall g: nat :: g < |ds| && before[g] == 2 ==> state[g] == 2
        invariant state[i] == 1
        invariant forall d :: 0 <= d < k && Index(ds, ds[i].deps[d]) >= 0 ==> state[Index(ds, ds[i].deps[d])] != 0
      {
        var j := Index(ds, ds[i].deps[k]);
        if j >= 0 {
          assert Holds(ds, i, j);
          forall g: nat | g < |ds| && state[g] == 1 ensures Connected(ds, g, j) {
            ConnectedOn(ds, g, i, j);
          }
          Visit(j);
        }
      }
      if Acyclic(ds) {
        forall j: nat | Holds(ds, i, j) ensures j in out {
          if state[j] == 1 {
            NoWayBack(ds, i, j);
          }
        }
      }
      Emit(i);
    }

    method Emit(i: nat)
      requires Valid() && i < |ds| && state[i] == 1
      requires Acyclic(ds) ==> forall j: nat :: Holds(ds, i, j) ==> j in out
      modifies this
      ensures Valid() && state == old(state)[i := 2] && out == old(out) + [i]
    {
      state := state[i := 2];
      out := out + [i];
      assert forall k :: 0 <= k < |out| - 1 ==> out[..k] == old(out)[..k];
      assert out[..|out| - 1] == old(out);
    }
  }

  /** Emits every definition once; with no circle among them, after all it holds by value. */
  method OrderedTdefs(ds: seq<Tdef>) returns (out: seq<nat>)
    ensures Once(out) && forall i: nat :: i in out <==> i < |ds|
    ensures Acyclic(ds) ==> ContentsFirst(ds, out)
  {
    var e := new Emission(ds);
    for i := 0 to |ds|
      invariant e.ds == ds && e.Valid()
      invariant forall g :: 0 <= g < |ds| ==> e.state[g] != 1
      invariant forall g :: 0 <= g < i ==> e.state[g] == 2
    {
      e.Visit(i);
    }
    out := e.out;
  }

  // ------------------------------------------------------------------ the pass and the order together

  /** What a fixed array is made of in the end, whatever its dimensions. */
  function Base(t: Ty): Ty {
    if t.Array? then Base(t.elem) else t
  }

  /** The C names of what a definition holds. An array is laid out in place, so its elements count. */
  function NamesOf(ts: seq<Ty>, name: Ty -> string): (r: seq<string>)
    ensures |r| == |ts|
    ensures forall k :: 0 <= k < |ts| ==> r[k] == name(Base(ts[k]))
  {
    if ts == [] then [] else [name(Base(ts[0]))] + NamesOf(ts[1..], name)
  }

  /** A definition for each of the types, with what is held by value once `boxed` is in boxes. */
  function Definitions(w: World, boxed: set<Slot>, tys: seq<Ty>, name: Ty -> string): (ds: seq<Tdef>)
    ensures |ds| == |tys|
    ensures forall i :: 0 <= i < |tys| ==> ds[i] == Tdef(name(tys[i]), NamesOf(Contents(w, boxed, tys[i]), name))
  {
    if tys == [] then []
    else [Tdef(name(tys[0]), NamesOf(Contents(w, boxed, tys[0]), name))] + Definitions(w, boxed, tys[1..], name)
  }

  /** Different types have different names in C. */
  ghost predicate Distinct(name: Ty -> string) {
    forall a, b :: name(a) == name(b) ==> a == b
  }

  /** `a` contains `b` by value. */
  ghost predicate Within(w: World, boxed: set<Slot>, a: Ty, b: Ty) {
    exists p :: |p| > 1 && Way(w, boxed, p) && p[0] == a && p[|p| - 1] == b
  }

  lemma WithinOn(w: World, boxed: set<Slot>, a: Ty, b: Ty, c: Ty)
    requires Within(w, boxed, a, b) && Within(w, boxed, b, c)
    ensures Within(w, boxed, a, c)
  {
    var p :| |p| > 1 && Way(w, boxed, p) && p[0] == a && p[|p| - 1] == b;
    var q :| |q| > 1 && Way(w, boxed, q) && q[0] == b && q[|q| - 1] == c;
    var r := p + q[1..];
    forall i | 0 <= i < |r| - 1 ensures r[i + 1] in Contents(w, boxed, r[i]) {
      if i < |p| - 1 {
        assert p[i + 1] in Contents(w, boxed, p[i]);
      } else {
        var k := i - (|p| - 1);
        assert r[i] == q[k] && r[i + 1] == q[k + 1];
      }
    }
    assert r[0] == a && r[|r| - 1] == c;
  }

  lemma WithinOne(w: World, boxed: set<Slot>, a: Ty, b: Ty)
    requires b in Contents(w, boxed, a)
    ensures Within(w, boxed, a, b)
  {
    var p := [a, b];
    assert Way(w, boxed, p) && p[0] == a && p[|p| - 1] == b;
  }

  lemma {:induction false} WithinBase(w: World, boxed: set<Slot>, a: Ty, t: Ty)
    requires Within(w, boxed, a, t)
    ensures Within(w, boxed, a, Base(t))
    decreases t
  {
    if t.Array? {
      WithinOne(w, boxed, t, t.elem);
      WithinOn(w, boxed, a, t, t.elem);
      WithinBase(w, boxed, a, t.elem);
    }
  }

  /** One definition names another only if its type contains the other's. */
  lemma HeldIsWithin(w: World, boxed: set<Slot>, tys: seq<Ty>, name: Ty -> string, i: nat, j: nat)
    requires Distinct(name) && Holds(Definitions(w, boxed, tys, name), i, j)
    ensures Within(w, boxed, tys[i], tys[j])
  {
    var ds := Definitions(w, boxed, tys, name);
    var k :| 0 <= k < |ds[i].deps| && Index(ds, ds[i].deps[k]) == j;
    var c := Contents(w, boxed, tys[i])[k];
    assert ds[j].name == name(Base(c)) && ds[j].name == name(tys[j]);
    WithinOne(w, boxed, tys[i], c);
    WithinBase(w, boxed, tys[i], c);
  }

  lemma {:induction false} ChainIsWithin(w: World, boxed: set<Slot>, tys: seq<Ty>, name: Ty -> string, p: seq<nat>)
    requires Distinct(name) && Chain(Definitions(w, boxed, tys, name), p) && |p| > 1
    ensures p[0] < |tys| && p[|p| - 1] < |tys| && Within(w, boxed, tys[p[0]], tys[p[|p| - 1]])
    decreases |p|
  {
    var ds := Definitions(w, boxed, tys, name);
    var n := |p| - 2;
    assert Holds(ds, p[n], p[n + 1]);
    HeldIsWithin(w, boxed, tys, name, p[n], p[n + 1]);
    if n > 0 {
      var q := p[..n + 1];
      forall i | 0 <= i < |q| - 1 ensures Holds(ds, q[i], q[i + 1]) {
        assert Holds(ds, p[i], p[i + 1]);
      }
      ChainIsWithin(w, boxed, tys, name, q);
      WithinOn(w, boxed, tys[p[0]], tys[p[n]], tys[p[n + 1]]);
    }
  }

  /** Definitions of types that do not contain themselves form no circle. */
  lemma SoundIsAcyclic(w: World, boxed: set<Slot>, tys: seq<Ty>, name: Ty -> string)
    requires Distinct(name) && Sound(w, boxed)
    ensures Acyclic(Definitions(w, boxed, tys, name))
  {
    var ds := Definitions(w, boxed, tys, name);
    forall p | Chain(ds, p) && |p| > 1 ensures p[0] != p[|p| - 1] {
      ChainIsWithin(w, boxed, tys, name, p);
      if p[0] == p[|p| - 1] {
        var q :| |q| > 1 && Way(w, boxed, q) && q[0] == tys[p[0]] && q[|q| - 1] == tys[p[0]];
        assert Circle(w, boxed, q);
      }
    }
  }

  // ------------------------------------------------------------------ and the other way round

  /** Where the definition of `t` is. */
  function At(ds: seq<Tdef>, name: Ty -> string, t: Ty): int {
    Index(ds, name(t))
  }

  lemma AtIsThere(w: World, boxed: set<Slot>, tys: seq<Ty>, name: Ty -> string, t: Ty)
    requires Distinct(name) && t in tys
    ensures var i := At(Definitions(w, boxed, tys, name), name, t); 0 <= i < |tys| && tys[i] == t
  {
    var ds := Definitions(w, boxed, tys, name);
    var j :| 0 <= j < |tys| && tys[j] == t;
    assert ds[j].name == name(t);
    var i := Index(ds, name(t));
    assert ds[i].name == name(tys[i]);
  }

  /** What a type contains, its definition names. */
  lemma ContentsAreHeld(w: World, boxed: set<Slot>, tys: seq<Ty>, name: Ty -> string, a: Ty, b: Ty)
    requires Distinct(name) && a in tys && Base(b) in tys && b in Contents(w, boxed, a)
    ensures var ds := Definitions(w, boxed, tys, name);
      At(ds, name, a) >= 0 && At(ds, name, Base(b)) >= 0 && Holds(ds, At(ds, name, a), At(ds, name, Base(b)))
  {
    var ds := Definitions(w, boxed, tys, name);
    AtIsThere(w, boxed, tys, name, a);
    AtIsThere(w, boxed, tys, name, Base(b));
    var i, c := At(ds, name, a), Contents(w, boxed, a);
    var k :| 0 <= k < |c| && c[k] == b;
    assert ds[i].deps[k] == name(Base(b));
  }

  /** A way through types is a chain of definitions, arrays left out. */
  lemma {:induction false} WayIsChain(w: World, boxed: set<Slot>, tys: seq<Ty>, name: Ty -> string, p: seq<Ty>)
    requires Distinct(name) && Way(w, boxed, p) && forall i :: 0 <= i < |p| ==> Base(p[i]) in tys
    ensures var ds := Definitions(w, boxed, tys, name);
      At(ds, name, Base(p[0])) >= 0 && At(ds, name, Base(p[|p| - 1])) >= 0 &&
      Connected(ds, At(ds, name, Base(p[0])), At(ds, name, Base(p[|p| - 1])))
    decreases |p|
  {
    var ds, n := Definitions(w, boxed, tys, name), |p| - 1;
    AtIsThere(w, boxed, tys, name, Base(p[0]));
    if n == 0 {
      ConnectedSelf(ds, At(ds, name, Base(p[0])));
    } else {
      WayInit(w, boxed, p);
      WayIsChain(w, boxed, tys, name, p[..n]);
      StepIsChain(w, boxed, tys, name, At(ds, name, Base(p[0])), p[n - 1], p[n]);
    }
  }

  lemma StepIsChain(w: World, boxed: set<Slot>, tys: seq<Ty>, name: Ty -> string, from: nat, a: Ty, b: Ty)
    requires Distinct(name) && Base(a) in tys && Base(b) in tys && b in Contents(w, boxed, a)
    requires var ds := Definitions(w, boxed, tys, name); At(ds, name, Base(a)) >= 0 && Connected(ds, from, At(ds, name, Base(a)))
    ensures var ds := Definitions(w, boxed, tys, name); At(ds, name, Base(b)) >= 0 && Connected(ds, from, At(ds, name, Base(b)))
  {
    if a.Array? {
      assert b == a.elem;
    } else {
      ContentsAreHeld(w, boxed, tys, name, a, b);
      LinkOn(Definitions(w, boxed, tys, name), name, from, a, b);
    }
  }

  lemma LinkOn(ds: seq<Tdef>, name: Ty -> string, from: nat, a: Ty, b: Ty)
    requires At(ds, name, a) >= 0 && At(ds, name, Base(b)) >= 0
    requires Connected(ds, from, At(ds, name, a)) && Holds(ds, At(ds, name, a), At(ds, name, Base(b)))
    ensures Connected(ds, from, At(ds, name, Base(b)))
  {
    ConnectedOn(ds, from, At(ds, name, a), At(ds, name, Base(b)));
  }


  function Dims(t: Ty): nat {
    if t.Array? then Dims(t.elem) + 1 else 0
  }

  /** A way through arrays alone takes one dimension away at each step. */
  lemma {:induction false} ArraysEnd(w: World, boxed: set<Slot>, p: seq<Ty>)
    requires Way(w, boxed, p) && forall i :: 0 <= i < |p| - 1 ==> p[i].Array?
    ensures Dims(p[0]) == Dims(p[|p| - 1]) + (|p| - 1)
    decreases |p|
  {
    var n := |p| - 1;
    if n > 0 {
      WayInit(w, boxed, p);
      ArraysEnd(w, boxed, p[..n]);
    }
  }

  function Bases(p: seq<Ty>): (r: seq<Ty>)
    ensures |r| == |p| && forall i :: 0 <= i < |p| ==> r[i] == Base(p[i])
  {
    if p == [] then [] else [Base(p[0])] + Bases(p[1..])
  }

  /** A type that contains itself gives definitions in a circle. */
  lemma CircleIsCyclic(w: World, boxed: set<Slot>, name: Ty -> string, p: seq<Ty>)
    requires Distinct(name) && Circle(w, boxed, p)
    ensures !Acyclic(Definitions(w, boxed, Bases(p), name))
  {
    if forall i :: 0 <= i < |p| - 1 ==> p[i].Array? {
      ArraysEnd(w, boxed, p);
      assert false;
    }
    var i :| 0 <= i < |p| - 1 && !p[i].Array?;
    RoundIsChain(w, boxed, name, p, i);
    assert p[i + 1] in Contents(w, boxed, p[i]) && Bases(p)[i] == p[i] && Bases(p)[i + 1] == Base(p[i + 1]);
    ContentsAreHeld(w, boxed, Bases(p), name, p[i], p[i + 1]);
    var ds := Definitions(w, boxed, Bases(p), name);
    var c := Closing(ds, At(ds, name, p[i]), At(ds, name, Base(p[i + 1])));
  }

  lemma RoundIsChain(w: World, boxed: set<Slot>, name: Ty -> string, p: seq<Ty>, i: nat)
    requires Distinct(name) && Circle(w, boxed, p) && i < |p| - 1
    ensures var ds := Definitions(w, boxed, Bases(p), name);
      At(ds, name, Base(p[i + 1])) >= 0 && At(ds, name, Base(p[i])) >= 0 &&
      Connected(ds, At(ds, name, Base(p[i + 1])), At(ds, name, Base(p[i])))
  {
    TurnedIsWay(w, boxed, p, i);
    var q := Turned(p, i);
    forall j | 0 <= j < |q| ensures Base(q[j]) in Bases(p) {
      var k :| 0 <= k < |p| && p[k] == q[j];
      assert Bases(p)[k] == Base(q[j]);
    }
    WayIsChain(w, boxed, Bases(p), name, q);
  }

  /**
   * Boxing and then ordering, from the program alone: the definitions made for any of its types form
   * no circle, so that `OrderedTdefs` puts every one after all it holds by value, exactly when there
   * is no circle of direct fields and none with an array on it that goes through no field closing a
   * circle first.
   */
  lemma LayoutCanBeEmitted(w: World, order: seq<string>, name: Ty -> string)
    requires OneFieldAName(w) && (forall n :: n in w.structs ==> n in order) && Distinct(name)
    ensures (forall tys :: Acyclic(Definitions(w, Boxing(w, AllPlaces(w, order), {}), tys, name))) <==>
      NoHardCircle(w) && NoArrayCircle(w, Firsts(w, AllPlaces(w, order)))
  {
    var end := Boxing(w, AllPlaces(w, order), {});
    LayoutSoundIff(w, order);
    if Sound(w, end) {
      forall tys ensures Acyclic(Definitions(w, end, tys, name)) { SoundIsAcyclic(w, end, tys, name); }
    } else {
      var p :| Circle(w, end, p);
      CircleIsCyclic(w, end, name, p);
    }
  }
}
