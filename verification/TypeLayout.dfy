/**
 * By-value layout of types in the C generator (micai/src/cgen.rs): which `?T` and `!T` fields of a
 * struct are put in a box on the heap so that no struct contains itself.
 */
module TypeLayout {

  /** `Plain` is everything that holds no struct or enum by value: numbers, strings, lists, pointers. */
  datatype Ty =
    | Plain
    | Struct(name: string)
    | Enum(name: string)
    | Optional(inner: Ty)
    | Fallible(inner: Ty, err: Ty)
    | Tuple(parts: seq<Ty>)
    | Array(elem: Ty)  // of any number of dimensions

  datatype Field = Field(name: string, ty: Ty)

  datatype StructDecl = StructDecl(generic: bool, fields: seq<Field>)

  /** An enum is the list of the fields of all its variants. */
  datatype World = World(structs: map<string, StructDecl>, enums: map<string, seq<Ty>>)

  /** A struct's name and a field's name. */
  type Slot = (string, string)

  predicate Boxable(t: Ty) {
    t.Optional? || t.Fallible?
  }

  // ------------------------------------------------------------------ what a type holds by value

  function Kept(n: string, fs: seq<Field>, boxed: set<Slot>): seq<Ty> {
    if fs == [] then []
    else (if (n, fs[0].name) in boxed then [] else [fs[0].ty]) + Kept(n, fs[1..], boxed)
  }

  /** A field of an enum that is an enum itself is stored as a pointer. */
  function ByValue(ts: seq<Ty>): seq<Ty> {
    if ts == [] then [] else (if ts[0].Enum? then [] else [ts[0]]) + ByValue(ts[1..])
  }

  function Contents(w: World, boxed: set<Slot>, t: Ty): seq<Ty> {
    match t
    case Plain => []
    case Struct(n) =>
      if n in w.structs && !w.structs[n].generic then Kept(n, w.structs[n].fields, boxed) else []
    case Enum(n) => if n in w.enums then ByValue(w.enums[n]) else []
    case Optional(i) => [i]
    case Fallible(i, e) => [i, e]
    case Tuple(ts) => ts
    case Array(e) => [e]
  }

  /** Each type on the way holds the next one by value. */
  ghost predicate Way(w: World, boxed: set<Slot>, p: seq<Ty>) {
    p != [] && forall i :: 0 <= i < |p| - 1 ==> p[i + 1] in Contents(w, boxed, p[i])
  }

  /** `reaches_by_value` does not look into arrays. */
  ghost predicate Seen(p: seq<Ty>) {
    forall i :: 0 <= i < |p| - 1 ==> !p[i].Array?
  }

  ghost predicate Leads(w: World, boxed: set<Slot>, t: Ty, target: string) {
    exists p :: Way(w, boxed, p) && Seen(p) && p[0] == t && p[|p| - 1] == Struct(target)
  }

  // ------------------------------------------------------------------ the search

  function Universe(w: World): set<Ty> {
    (set n | n in w.structs :: Struct(n)) + (set n | n in w.enums :: Enum(n))
  }

  /** Whether `t` can contain the struct `target`, and the structs and enums looked into by then. */
  function Reaches(w: World, boxed: set<Slot>, t: Ty, target: string, seen: set<Ty>): (r: (bool, set<Ty>))
    ensures seen <= r.1
    decreases |Universe(w) - seen|, t, 0
  {
    match t
    case Plain => (false, seen)
    case Struct(n) =>
      if n == target then (true, seen)
      else if t in seen then (false, seen)
      else if n !in w.structs || w.structs[n].generic then (false, seen + {t})
      else
        Fewer(w, t, seen);
        AnyReaches(w, boxed, Kept(n, w.structs[n].fields, boxed), target, seen + {t})
    case Enum(n) =>
      if t in seen then (false, seen)
      else if n !in w.enums then (false, seen + {t})
      else
        Fewer(w, t, seen);
        AnyReaches(w, boxed, ByValue(w.enums[n]), target, seen + {t})
    case Optional(i) => Reaches(w, boxed, i, target, seen)
    case Fallible(i, e) =>
      var r := Reaches(w, boxed, i, target, seen);
      if r.0 then r
      else
        NoMore(w, seen, r.1);
        Reaches(w, boxed, e, target, r.1)
    case Tuple(ts) => AnyReaches(w, boxed, ts, target, seen)
    case Array(_) => (false, seen)
  }

  function AnyReaches(w: World, boxed: set<Slot>, ts: seq<Ty>, target: string, seen: set<Ty>): (r: (bool, set<Ty>))
    ensures seen <= r.1
    decreases |Universe(w) - seen|, ts, 1
  {
    if ts == [] then (false, seen)
    else
      var r := Reaches(w, boxed, ts[0], target, seen);
      if r.0 then r
      else
        NoMore(w, seen, r.1);
        AnyReaches(w, boxed, ts[1..], target, r.1)
  }

  lemma Fewer(w: World, t: Ty, seen: set<Ty>)
    requires t in Universe(w) && t !in seen
    ensures |Universe(w) - (seen + {t})| < |Universe(w) - seen|
  {
    assert Universe(w) - seen == (Universe(w) - (seen + {t})) + {t};
  }

  lemma NoMore(w: World, seen: set<Ty>, later: set<Ty>)
    requires seen <= later
    ensures |Universe(w) - later| <= |Universe(w) - seen|
  {
    var a, b := Universe(w) - later, Universe(w) - seen;
    assert a <= b && b == a + (b - a);
  }

  // ------------------------------------------------------------------ the search is right

  lemma WayBehind(w: World, boxed: set<Slot>, t: Ty, p: seq<Ty>)
    requires Way(w, boxed, p) && p[0] in Contents(w, boxed, t)
    ensures Way(w, boxed, [t] + p)
    ensures Seen(p) && !t.Array? ==> Seen([t] + p)
  {
    var q := [t] + p;
    forall i | 0 <= i < |q| - 1 ensures q[i + 1] in Contents(w, boxed, q[i]) {
      if i > 0 { assert q[i] == p[i - 1] && q[i + 1] == p[i]; }
    }
  }

  lemma LeadsBehind(w: World, boxed: set<Slot>, t: Ty, c: Ty, target: string)
    requires c in Contents(w, boxed, t) && !t.Array? && Leads(w, boxed, c, target)
    ensures Leads(w, boxed, t, target)
  {
    var p :| Way(w, boxed, p) && Seen(p) && p[0] == c && p[|p| - 1] == Struct(target);
    WayBehind(w, boxed, t, p);
    var q := [t] + p;
    assert q[0] == t && q[|q| - 1] == Struct(target);
  }

  lemma {:induction false} ReachesIsReal(w: World, boxed: set<Slot>, t: Ty, target: string, seen: set<Ty>)
    requires Reaches(w, boxed, t, target, seen).0
    ensures Leads(w, boxed, t, target)
    decreases |Universe(w) - seen|, t, 0
  {
    match t
    case Struct(n) =>
      if n == target {
        var p := [t];
        assert Way(w, boxed, p) && Seen(p) && p[0] == t && p[|p| - 1] == Struct(target);
      } else {
        Fewer(w, t, seen);
        AnyReachesIsReal(w, boxed, t, Kept(n, w.structs[n].fields, boxed), target, seen + {t});
      }
    case Enum(n) =>
      Fewer(w, t, seen);
      AnyReachesIsReal(w, boxed, t, ByValue(w.enums[n]), target, seen + {t});
    case Optional(i) =>
      ReachesIsReal(w, boxed, i, target, seen);
      LeadsBehind(w, boxed, t, i, target);
    case Fallible(i, e) =>
      var r := Reaches(w, boxed, i, target, seen);
      if r.0 {
        ReachesIsReal(w, boxed, i, target, seen);
        LeadsBehind(w, boxed, t, i, target);
      } else {
        NoMore(w, seen, r.1);
        ReachesIsReal(w, boxed, e, target, r.1);
        LeadsBehind(w, boxed, t, e, target);
      }
    case Tuple(ts) => AnyReachesIsReal(w, boxed, t, ts, target, seen);
  }

  lemma {:induction false} AnyReachesIsReal(w: World, boxed: set<Slot>, t: Ty, ts: seq<Ty>, target: string, seen: set<Ty>)
    requires AnyReaches(w, boxed, ts, target, seen).0
    requires !t.Array? && forall c :: c in ts ==> c in Contents(w, boxed, t)
    ensures Leads(w, boxed, t, target)
    decreases |Universe(w) - seen|, ts, 1
  {
    var r := Reaches(w, boxed, ts[0], target, seen);
    if r.0 {
      ReachesIsReal(w, boxed, ts[0], target, seen);
      LeadsBehind(w, boxed, t, ts[0], target);
    } else {
      NoMore(w, seen, r.1);
      AnyReachesIsReal(w, boxed, t, ts[1..], target, r.1);
    }
  }

  /** Every struct and enum in `t`, as far as the search looks, is in `done`, and none is the target. */
  ghost predicate Covered(t: Ty, target: string, done: set<Ty>)
    decreases t
  {
    match t
    case Plain => true
    case Struct(n) => n != target && t in done
    case Enum(_) => t in done
    case Optional(i) => Covered(i, target, done)
    case Fallible(i, e) => Covered(i, target, done) && Covered(e, target, done)
    case Tuple(ts) => forall i :: 0 <= i < |ts| ==> Covered(ts[i], target, done)
    case Array(_) => true
  }

  ghost predicate AllCovered(ts: seq<Ty>, target: string, done: set<Ty>) {
    forall i :: 0 <= i < |ts| ==> Covered(ts[i], target, done)
  }

  lemma {:induction false} CoveredStill(t: Ty, target: string, done: set<Ty>, more: set<Ty>)
    requires Covered(t, target, done) && done <= more
    ensures Covered(t, target, more)
    decreases t
  {
    match t
    case Plain =>
    case Struct(_) =>
    case Enum(_) =>
    case Optional(i) => CoveredStill(i, target, done, more);
    case Fallible(i, e) =>
      CoveredStill(i, target, done, more);
      CoveredStill(e, target, done, more);
    case Tuple(ts) =>
      forall i | 0 <= i < |ts| ensures Covered(ts[i], target, more) { CoveredStill(ts[i], target, done, more); }
    case Array(_) =>
  }

  /** What has been looked into between `seen` and `done` holds nothing that was not looked into. */
  ghost predicate Closed(w: World, boxed: set<Slot>, target: string, seen: set<Ty>, done: set<Ty>) {
    forall x :: x in done && x !in seen ==> (x.Struct? || x.Enum?) && AllCovered(Contents(w, boxed, x), target, done)
  }

  lemma ClosedJoin(w: World, boxed: set<Slot>, target: string, a: set<Ty>, b: set<Ty>, c: set<Ty>)
    requires a <= b <= c && Closed(w, boxed, target, a, b) && Closed(w, boxed, target, b, c)
    ensures Closed(w, boxed, target, a, c)
  {
    forall x | x in c && x !in a ensures (x.Struct? || x.Enum?) && AllCovered(Contents(w, boxed, x), target, c) {
      if x in b {
        var ts := Contents(w, boxed, x);
        forall i | 0 <= i < |ts| ensures Covered(ts[i], target, c) { CoveredStill(ts[i], target, b, c); }
      }
    }
  }

  lemma {:induction false} NotReaching(w: World, boxed: set<Slot>, t: Ty, target: string, seen: set<Ty>)
    requires !Reaches(w, boxed, t, target, seen).0
    ensures var done := Reaches(w, boxed, t, target, seen).1;
      Covered(t, target, done) && Closed(w, boxed, target, seen, done)
    decreases |Universe(w) - seen|, t, 3
  {
    match t
    case Plain =>
    case Struct(n) =>
      if t !in seen && n in w.structs && !w.structs[n].generic {
        Fewer(w, t, seen);
        LookInto(w, boxed, t, target, seen, Kept(n, w.structs[n].fields, boxed));
      }
    case Enum(n) =>
      if t !in seen && n in w.enums {
        Fewer(w, t, seen);
        LookInto(w, boxed, t, target, seen, ByValue(w.enums[n]));
      }
    case Optional(i) => NotReaching(w, boxed, i, target, seen);
    case Fallible(i, e) => NeitherReaching(w, boxed, i, e, target, seen);
    case Tuple(ts) => NoneReaching(w, boxed, ts, target, seen);
    case Array(_) =>
  }

  lemma {:induction false} NeitherReaching(w: World, boxed: set<Slot>, a: Ty, b: Ty, target: string, seen: set<Ty>)
    requires !Reaches(w, boxed, Fallible(a, b), target, seen).0
    ensures var done := Reaches(w, boxed, Fallible(a, b), target, seen).1;
      Covered(a, target, done) && Covered(b, target, done) && Closed(w, boxed, target, seen, done)
    decreases |Universe(w) - seen|, Fallible(a, b), 2
  {
    var r := Reaches(w, boxed, a, target, seen);
    NotReaching(w, boxed, a, target, seen);
    NoMore(w, seen, r.1);
    NotReaching(w, boxed, b, target, r.1);
    var done := Reaches(w, boxed, b, target, r.1).1;
    CoveredStill(a, target, r.1, done);
    ClosedJoin(w, boxed, target, seen, r.1, done);
  }

  lemma {:induction false} LookInto(w: World, boxed: set<Slot>, t: Ty, target: string, seen: set<Ty>, ts: seq<Ty>)
    requires (t.Struct? || t.Enum?) && t !in seen && ts == Contents(w, boxed, t) && t in Universe(w)
    requires !AnyReaches(w, boxed, ts, target, seen + {t}).0
    ensures Closed(w, boxed, target, seen, AnyReaches(w, boxed, ts, target, seen + {t}).1)
    decreases |Universe(w) - (seen + {t})|, ts, 2
  {
    NoneReaching(w, boxed, ts, target, seen + {t});
  }

  lemma {:induction false} NoneReaching(w: World, boxed: set<Slot>, ts: seq<Ty>, target: string, seen: set<Ty>)
    requires !AnyReaches(w, boxed, ts, target, seen).0
    ensures var done := AnyReaches(w, boxed, ts, target, seen).1;
      AllCovered(ts, target, done) && Closed(w, boxed, target, seen, done)
    decreases |Universe(w) - seen|, ts, 1
  {
    if ts != [] {
      var r := Reaches(w, boxed, ts[0], target, seen);
      NotReaching(w, boxed, ts[0], target, seen);
      NoMore(w, seen, r.1);
      NoneReaching(w, boxed, ts[1..], target, r.1);
      var done := AnyReaches(w, boxed, ts[1..], target, r.1).1;
      CoveredStill(ts[0], target, r.1, done);
      ClosedJoin(w, boxed, target, seen, r.1, done);
      forall i | 0 <= i < |ts| ensures Covered(ts[i], target, done) {
        if i > 0 { assert ts[i] == ts[1..][i - 1]; }
      }
    }
  }

  /** From something covered, no way that avoids arrays comes to the target. */
  lemma {:induction false} CoveredNeverArrives(w: World, boxed: set<Slot>, target: string, done: set<Ty>, p: seq<Ty>)
    requires Closed(w, boxed, target, {}, done)
    requires Way(w, boxed, p) && Seen(p) && Covered(p[0], target, done)
    ensures p[|p| - 1] != Struct(target)
    decreases |p|
  {
    if |p| > 1 {
      var q := p[1..];
      assert p[1] in Contents(w, boxed, p[0]);
      ContentsCovered(w, boxed, target, done, p[0]);
      forall i | 0 <= i < |q| - 1 ensures q[i + 1] in Contents(w, boxed, q[i]) {
        assert p[i + 2] in Contents(w, boxed, p[i + 1]);
      }
      assert Seen(q) by { assert forall i :: 0 <= i < |q| - 1 ==> q[i] == p[i + 1]; }
      CoveredNeverArrives(w, boxed, target, done, q);
    }
  }

  lemma ContentsCovered(w: World, boxed: set<Slot>, target: string, done: set<Ty>, t: Ty)
    requires Closed(w, boxed, target, {}, done) && Covered(t, target, done) && !t.Array?
    ensures forall c :: c in Contents(w, boxed, t) ==> Covered(c, target, done)
  {
  }

  /** The search finds the target exactly when some way that avoids arrays leads there. */
  lemma ReachesIffLeads(w: World, boxed: set<Slot>, t: Ty, target: string)
    ensures Reaches(w, boxed, t, target, {}).0 <==> Leads(w, boxed, t, target)
  {
    var r := Reaches(w, boxed, t, target, {});
    if r.0 {
      ReachesIsReal(w, boxed, t, target, {});
    } else {
      NotReaching(w, boxed, t, target, {});
      if Leads(w, boxed, t, target) {
        var p :| Way(w, boxed, p) && Seen(p) && p[0] == t && p[|p| - 1] == Struct(target);
        CoveredNeverArrives(w, boxed, target, r.1, p);
        assert false;
      }
    }
  }

  // ------------------------------------------------------------------ the boxing pass

  /** A field looked at by the pass, with the struct it is in. */
  datatype Place = Place(owner: string, field: Field)

  function Places(n: string, fs: seq<Field>): seq<Place> {
    if fs == [] then [] else [Place(n, fs[0])] + Places(n, fs[1..])
  }

  /** Every field of the structs named, in the order of the program. Generic structs are skipped. */
  function AllPlaces(w: World, order: seq<string>): seq<Place> {
    if order == [] then []
    else
      (if order[0] in w.structs && !w.structs[order[0]].generic then Places(order[0], w.structs[order[0]].fields) else []) +
      AllPlaces(w, order[1..])
  }

  function SlotOf(x: Place): Slot {
    (x.owner, x.field.name)
  }

  /** One field looked at, when `boxed` has been put in boxes so far. */
  function Boxed1(w: World, x: Place, boxed: set<Slot>): set<Slot> {
    if Boxable(x.field.ty) && Reaches(w, boxed, x.field.ty, x.owner, {}).0 then boxed + {SlotOf(x)} else boxed
  }

  function Boxing(w: World, xs: seq<Place>, boxed: set<Slot>): (r: set<Slot>)
    ensures boxed <= r
  {
    if xs == [] then boxed else Boxing(w, xs[1..], Boxed1(w, xs[0], boxed))
  }

  lemma {:induction false} BoxingJoin(w: World, xs: seq<Place>, ys: seq<Place>, boxed: set<Slot>)
    ensures Boxing(w, xs + ys, boxed) == Boxing(w, ys, Boxing(w, xs, boxed))
    decreases |xs|
  {
    if xs == [] {
      assert xs + ys == ys;
    } else {
      assert (xs + ys)[1..] == xs[1..] + ys;
      BoxingJoin(w, xs[1..], ys, Boxed1(w, xs[0], boxed));
    }
  }

  lemma PlacesFrom(n: string, fs: seq<Field>, k: nat)
    requires k < |fs|
    ensures Places(n, fs[k..]) == [Place(n, fs[k])] + Places(n, fs[k + 1..])
  {
    assert fs[k..][1..] == fs[k + 1..];
  }

  method BoxFieldsOf(w: World, n: string, fs: seq<Field>, before: set<Slot>) returns (boxed: set<Slot>)
    ensures boxed == Boxing(w, Places(n, fs), before)
  {
    boxed := before;
    for k := 0 to |fs|
      invariant Boxing(w, Places(n, fs[k..]), boxed) == Boxing(w, Places(n, fs), before)
    {
      PlacesFrom(n, fs, k);
      if Boxable(fs[k].ty) {
        var r := Reaches(w, boxed, fs[k].ty, n, {});
        if r.0 {
          boxed := boxed + {(n, fs[k].name)};
        }
      }
    }
  }

  /** The single pass over the structs of the program, in order. */
  method BoxFields(w: World, order: seq<string>) returns (boxed: set<Slot>)
    ensures boxed == Boxing(w, AllPlaces(w, order), {})
  {
    boxed := {};
    for k := 0 to |order|
      invariant Boxing(w, AllPlaces(w, order[k..]), boxed) == Boxing(w, AllPlaces(w, order), {})
    {
      var n := order[k];
      assert order[k..][1..] == order[k + 1..];
      if n in w.structs && !w.structs[n].generic {
        BoxingJoin(w, Places(n, w.structs[n].fields), AllPlaces(w, order[k + 1..]), boxed);
        boxed := BoxFieldsOf(w, n, w.structs[n].fields, boxed);
      } else {
        assert AllPlaces(w, order[k..]) == AllPlaces(w, order[k + 1..]);
      }
    }
  }

  // ------------------------------------------------------------------ what the pass leaves

  lemma {:induction false} KeptLess(n: string, fs: seq<Field>, boxed: set<Slot>, more: set<Slot>)
    requires boxed <= more
    ensures forall t :: t in Kept(n, fs, more) ==> t in Kept(n, fs, boxed)
  {
    if fs != [] {
      KeptLess(n, fs[1..], boxed, more);
    }
  }

  /** More boxes leave fewer ways. */
  lemma WaysLess(w: World, boxed: set<Slot>, more: set<Slot>, p: seq<Ty>)
    requires boxed <= more && Way(w, more, p)
    ensures Way(w, boxed, p)
  {
    forall i | 0 <= i < |p| - 1 ensures p[i + 1] in Contents(w, boxed, p[i]) {
      var t := p[i];
      if t.Struct? && t.name in w.structs { KeptLess(t.name, w.structs[t.name].fields, boxed, more); }
    }
  }

  lemma LeadsLess(w: World, boxed: set<Slot>, more: set<Slot>, t: Ty, target: string)
    requires boxed <= more && Leads(w, more, t, target)
    ensures Leads(w, boxed, t, target)
  {
    var p :| Way(w, more, p) && Seen(p) && p[0] == t && p[|p| - 1] == Struct(target);
    WaysLess(w, boxed, more, p);
  }

  /** One pass is enough: a box added later never makes an earlier field need one. */
  lemma {:induction false} PassIsEnough(w: World, xs: seq<Place>, boxed: set<Slot>)
    ensures var end := Boxing(w, xs, boxed);
      forall x :: x in xs && Boxable(x.field.ty) ==> SlotOf(x) in end || !Leads(w, end, x.field.ty, x.owner)
    decreases |xs|
  {
    if xs != [] {
      var x, end := xs[0], Boxing(w, xs, boxed);
      PassIsEnough(w, xs[1..], Boxed1(w, x, boxed));
      if Boxable(x.field.ty) && SlotOf(x) !in end && Leads(w, end, x.field.ty, x.owner) {
        LeadsLess(w, boxed, end, x.field.ty, x.owner);
        ReachesIffLeads(w, boxed, x.field.ty, x.owner);
        assert false;
      }
    }
  }

  /** Only fields that close a circle get a box. */
  lemma {:induction false} BoxesAreNeeded(w: World, xs: seq<Place>, boxed: set<Slot>, b: Slot)
    requires b in Boxing(w, xs, boxed) && b !in boxed
    ensures exists x :: x in xs && SlotOf(x) == b && Boxable(x.field.ty) && Leads(w, {}, x.field.ty, x.owner)
    decreases |xs|
  {
    var x := xs[0];
    if b in Boxed1(w, x, boxed) {
      ReachesIffLeads(w, boxed, x.field.ty, x.owner);
      LeadsLess(w, {}, boxed, x.field.ty, x.owner);
    } else {
      BoxesAreNeeded(w, xs[1..], Boxed1(w, x, boxed), b);
    }
  }
}
