/** No type that contains itself by value is left after the boxing pass (micai/src/cgen.rs). */
module TypeCycles {
  import opened TypeLayout

  /** A way that comes back to where it began. */
  ghost predicate Circle(w: World, boxed: set<Slot>, p: seq<Ty>) {
    |p| > 1 && Way(w, boxed, p) && p[0] == p[|p| - 1]
  }

  /** A step from a struct to one of its `?T` or `!T` fields. */
  predicate SoftStep(a: Ty, b: Ty) {
    a.Struct? && (b.Optional? || b.Fallible?)
  }

  /** No step of the way goes through a `?T` or `!T` field of a struct. */
  ghost predicate Hard(p: seq<Ty>) {
    forall i :: 0 <= i < |p| - 1 ==> !SoftStep(p[i], p[i + 1])
  }

  ghost predicate ThroughArray(p: seq<Ty>) {
    exists i :: 0 <= i < |p| && p[i].Array?
  }

  /** No type contains itself by value. */
  ghost predicate Sound(w: World, boxed: set<Slot>) {
    forall p :: !Circle(w, boxed, p)
  }

  /** No circle that boxes on `?T` and `!T` fields could not break: there the program itself is at fault. */
  ghost predicate NoHardCircle(w: World) {
    forall p :: Circle(w, {}, p) ==> !Hard(p)
  }

  /** No circle with an array on it. */
  ghost predicate NoArrayCircle(w: World, boxed: set<Slot>) {
    forall p :: Circle(w, boxed, p) ==> !ThroughArray(p)
  }

  // ------------------------------------------------------------------ fields and contents

  /** What a type holds by value, kind by kind. */
  ghost predicate HoldsDirectly(w: World, boxed: set<Slot>, a: Ty, b: Ty) {
    match a
    case Plain => false
    case Struct(n) =>
      n in w.structs && !w.structs[n].generic &&
      exists f :: f in w.structs[n].fields && f.ty == b && (n, f.name) !in boxed
    case Enum(n) => n in w.enums && b in w.enums[n] && !b.Enum?
    case Optional(i) => b == i
    case Fallible(i, e) => b == i || b == e
    case Tuple(ts) => b in ts
    case Array(e) => b == e
  }

  /** A struct holds its fields that are in no box, an enum what is no enum itself, and the rest their parts. */
  lemma ContentsAre(w: World, boxed: set<Slot>, a: Ty, b: Ty)
    ensures b in Contents(w, boxed, a) <==> HoldsDirectly(w, boxed, a, b)
  {
    if a.Struct? && a.name in w.structs {
      HeldIff(w, boxed, a.name, b);
    } else if a.Enum? && a.name in w.enums {
      ByValueIff(w.enums[a.name], b);
    }
  }

  lemma {:induction false} ByValueIff(ts: seq<Ty>, t: Ty)
    ensures t in ByValue(ts) <==> t in ts && !t.Enum?
  {
    if ts != [] {
      ByValueIff(ts[1..], t);
      assert ts == [ts[0]] + ts[1..];
    }
  }

  lemma {:induction false} KeptIsField(n: string, fs: seq<Field>, boxed: set<Slot>, t: Ty) returns (f: Field)
    requires t in Kept(n, fs, boxed)
    ensures f in fs && f.ty == t && (n, f.name) !in boxed
    decreases |fs|
  {
    if (n, fs[0].name) !in boxed && fs[0].ty == t {
      f := fs[0];
    } else {
      f := KeptIsField(n, fs[1..], boxed, t);
    }
  }

  lemma {:induction false} FieldIsKept(n: string, fs: seq<Field>, boxed: set<Slot>, f: Field)
    requires f in fs && (n, f.name) !in boxed
    ensures f.ty in Kept(n, fs, boxed)
    decreases |fs|
  {
    if fs[0] != f { FieldIsKept(n, fs[1..], boxed, f); }
  }

  // ------------------------------------------------------------------ turning a circle

  /** The circle, begun one step after `i` and stopped at `i`. */
  ghost function Turned(p: seq<Ty>, i: nat): seq<Ty>
    requires i < |p| - 1
  {
    p[i + 1..] + p[1..i + 1]
  }

  lemma TurnedIsWay(w: World, boxed: set<Slot>, p: seq<Ty>, i: nat)
    requires Circle(w, boxed, p) && i < |p| - 1
    ensures Way(w, boxed, Turned(p, i))
    ensures Turned(p, i)[0] == p[i + 1] && Turned(p, i)[|Turned(p, i)| - 1] == p[i]
    ensures forall j :: 0 <= j < |Turned(p, i)| ==> Turned(p, i)[j] in p
  {
    var q := Turned(p, i);
    var cut := |p| - (i + 1);
    TurnedAt(p, i);
    forall j | 0 <= j < |q| - 1 ensures q[j + 1] in Contents(w, boxed, q[j]) {
      var k := if j + 1 < cut then i + 1 + j else j + 1 - cut;
      assert q[j] == p[k];
      assert p[k + 1] in Contents(w, boxed, p[k]);
    }
  }

  lemma TurnedAt(p: seq<Ty>, i: nat)
    requires i < |p| - 1 && p[0] == p[|p| - 1]
    ensures var q := Turned(p, i); var cut := |p| - (i + 1);
      |q| == |p| - 1 &&
      (forall j :: 0 <= j < cut ==> q[j] == p[i + 1 + j]) &&
      (forall j :: cut <= j < |q| ==> q[j] == p[j - cut + 1]) && q[cut - 1] == p[0] && q[|q| - 1] == p[i]
  {
  }

  lemma WayInit(w: World, boxed: set<Slot>, p: seq<Ty>)
    requires Way(w, boxed, p) && |p| > 1
    ensures Way(w, boxed, p[..|p| - 1]) && p[|p| - 1] in Contents(w, boxed, p[|p| - 2])
  {
    var q := p[..|p| - 1];
    forall i | 0 <= i < |q| - 1 ensures q[i + 1] in Contents(w, boxed, q[i]) {
      assert p[i + 1] in Contents(w, boxed, p[i]);
    }
    assert p[|p| - 2 + 1] in Contents(w, boxed, p[|p| - 2]);
  }

  // ------------------------------------------------------------------ the theorems

  lemma {:induction false} PlaceOf(n: string, fs: seq<Field>, f: Field)
    requires f in fs
    ensures Place(n, f) in Places(n, fs)
  {
    if fs[0] != f { PlaceOf(n, fs[1..], f); }
  }

  lemma {:induction false} PlaceInAll(w: World, order: seq<string>, n: string, f: Field)
    requires n in order && n in w.structs && !w.structs[n].generic && f in w.structs[n].fields
    ensures Place(n, f) in AllPlaces(w, order)
  {
    if order[0] == n { PlaceOf(n, w.structs[n].fields, f); } else { PlaceInAll(w, order[1..], n, f); }
  }

  /**
   * After the pass, a circle without arrays on it goes through no `?T` or `!T` field of a struct:
   * whatever the program, only hard circles and circles with an array on them are left.
   */
  lemma NoSoftCircle(w: World, order: seq<string>, p: seq<Ty>)
    requires forall n :: n in w.structs ==> n in order
    requires Circle(w, Boxing(w, AllPlaces(w, order), {}), p)
    ensures Hard(p) || ThroughArray(p)
  {
    var xs := AllPlaces(w, order);
    var end := Boxing(w, xs, {});
    if !ThroughArray(p) {
      forall i | 0 <= i < |p| - 1 ensures !SoftStep(p[i], p[i + 1]) {
        if SoftStep(p[i], p[i + 1]) {
          assert p[i + 1] in Contents(w, end, p[i]);
          var n := p[i].name;
          var f := KeptIsField(n, w.structs[n].fields, end, p[i + 1]);
          PlaceInAll(w, order, n, f);
          PassIsEnough(w, xs, {});
          assert Place(n, f) in xs && SlotOf(Place(n, f)) == (n, f.name);
          TurnedLeads(w, end, p, i, n);
          assert false;
        }
      }
    }
  }

  /** Round a circle without arrays the search comes from a field back to its struct. */
  lemma TurnedLeads(w: World, boxed: set<Slot>, p: seq<Ty>, i: nat, n: string)
    requires Circle(w, boxed, p) && !ThroughArray(p) && i < |p| - 1 && p[i] == Struct(n)
    ensures Leads(w, boxed, p[i + 1], n)
  {
    TurnedIsWay(w, boxed, p, i);
    var q := Turned(p, i);
    forall j | 0 <= j < |q| - 1 ensures !q[j].Array? {
      assert q[j] in p;
    }
    assert Seen(q);
  }

  predicate IsPlace(w: World, x: Place) {
    x.owner in w.structs && !w.structs[x.owner].generic && x.field in w.structs[x.owner].fields
  }

  lemma {:induction false} PlacesAre(n: string, fs: seq<Field>, x: Place)
    requires x in Places(n, fs)
    ensures x.owner == n && x.field in fs
    decreases |fs|
  {
    if x != Place(n, fs[0]) { PlacesAre(n, fs[1..], x); }
  }

  lemma {:induction false} AllPlacesAre(w: World, order: seq<string>, x: Place)
    requires x in AllPlaces(w, order)
    ensures IsPlace(w, x)
    decreases |order|
  {
    if x in AllPlaces(w, order[1..]) {
      AllPlacesAre(w, order[1..], x);
    } else {
      PlacesAre(order[0], w.structs[order[0]].fields, x);
    }
  }

  ghost predicate OneFieldAName(w: World) {
    forall n, f, g :: n in w.structs && f in w.structs[n].fields && g in w.structs[n].fields && f.name == g.name ==> f == g
  }

  /** A circle that no box can break is there after the pass as it was before. */
  lemma HardWayStays(w: World, order: seq<string>, p: seq<Ty>)
    requires OneFieldAName(w) && Way(w, {}, p) && Hard(p)
    ensures Way(w, Boxing(w, AllPlaces(w, order), {}), p)
  {
    var xs := AllPlaces(w, order);
    var end := Boxing(w, xs, {});
    forall i | 0 <= i < |p| - 1 ensures p[i + 1] in Contents(w, end, p[i]) {
      assert p[i + 1] in Contents(w, {}, p[i]) && !SoftStep(p[i], p[i + 1]);
      if p[i].Struct? {
        var n := p[i].name;
        var fs := w.structs[n].fields;
        var f := KeptIsField(n, fs, {}, p[i + 1]);
        if (n, f.name) in end {
          BoxesAreNeeded(w, xs, {}, (n, f.name));
          var x :| x in xs && SlotOf(x) == (n, f.name) && Boxable(x.field.ty) && Leads(w, {}, x.field.ty, x.owner);
          AllPlacesAre(w, order, x);
          assert false;
        }
        FieldIsKept(n, fs, end, f);
      }
    }
  }

  // ------------------------------------------------------------------ which fields get a box

  /** The `?T` and `!T` fields before the `k`-th field. */
  function SoftSlots(xs: seq<Place>, k: nat): set<Slot>
    requires k <= |xs|
  {
    set j | 0 <= j < k && (xs[j].field.ty.Optional? || xs[j].field.ty.Fallible?) :: SlotOf(xs[j])
  }

  /** The field closes a circle of the program without arrays that goes through no earlier `?T` or `!T` field. */
  ghost predicate ClosesFirst(w: World, xs: seq<Place>, k: nat)
    requires k < |xs|
  {
    (xs[k].field.ty.Optional? || xs[k].field.ty.Fallible?) && Leads(w, SoftSlots(xs, k), xs[k].field.ty, xs[k].owner)
  }

  ghost function FirstsUpto(w: World, xs: seq<Place>, n: nat): set<Slot>
    requires n <= |xs|
  {
    set k | 0 <= k < n && ClosesFirst(w, xs, k) :: SlotOf(xs[k])
  }

  ghost function Firsts(w: World, xs: seq<Place>): set<Slot> {
    FirstsUpto(w, xs, |xs|)
  }

  lemma BoxesAreSoft(w: World, xs: seq<Place>, k: nat)
    requires k <= |xs|
    ensures Boxing(w, xs[..k], {}) <= SoftSlots(xs, k)
  {
    forall b | b in Boxing(w, xs[..k], {}) ensures b in SoftSlots(xs, k) {
      BoxesAreNeeded(w, xs[..k], {}, b);
      var x :| x in xs[..k] && SlotOf(x) == b && Boxable(x.field.ty) && Leads(w, {}, x.field.ty, x.owner);
      var j :| 0 <= j < k && xs[..k][j] == x;
      assert xs[j] == x;
    }
  }

  /** A `?T` or `!T` field that was looked at and got no box closes no circle of what is left. */
  lemma PassedOver(w: World, xs: seq<Place>, k: nat, n: string, f: Field)
    requires OneFieldAName(w) && (forall x :: x in xs ==> IsPlace(w, x)) && k <= |xs|
    requires n in w.structs && f in w.structs[n].fields
    requires (n, f.name) in SoftSlots(xs, k) && (n, f.name) !in Boxing(w, xs[..k], {})
    ensures !Leads(w, Boxing(w, xs[..k], {}), f.ty, n)
  {
    var j :| 0 <= j < k && (xs[j].field.ty.Optional? || xs[j].field.ty.Fallible?) && SlotOf(xs[j]) == (n, f.name);
    assert xs[j] in xs && IsPlace(w, xs[j]);
    assert SlotOf(xs[j]) == (xs[j].owner, xs[j].field.name);
    assert xs[j].field == f;
    assert xs[..k][j] == xs[j];
    PassIsEnough(w, xs[..k], {});
  }

  /** A way from a kept field back to its struct passes by every field on it, going round. */
  lemma RoundFrom(w: World, boxed: set<Slot>, x: Place, p: seq<Ty>, i: nat)
    requires IsPlace(w, x) && SlotOf(x) !in boxed
    requires Way(w, boxed, p) && Seen(p) && p[0] == x.field.ty && p[|p| - 1] == Struct(x.owner)
    requires i < |p| - 1 && p[i].Struct?
    ensures Leads(w, boxed, p[i + 1], p[i].name)
  {
    FieldIsKept(x.owner, w.structs[x.owner].fields, boxed, x.field);
    WayBehind(w, boxed, Struct(x.owner), p);
    var c := [Struct(x.owner)] + p;
    assert c[i + 1] == p[i] && c[i + 2] == p[i + 1];
    TurnedLeads(w, boxed, c, i + 1, p[i].name);
  }

  /** For a field without a box, the boxes so far hide no more than all the `?T` and `!T` fields so far. */
  lemma LeadsAlike(w: World, xs: seq<Place>, k: nat)
    requires OneFieldAName(w) && (forall x :: x in xs ==> IsPlace(w, x)) && k < |xs|
    requires SlotOf(xs[k]) !in Boxing(w, xs[..k], {})
    ensures Leads(w, Boxing(w, xs[..k], {}), xs[k].field.ty, xs[k].owner) <==> Leads(w, SoftSlots(xs, k), xs[k].field.ty, xs[k].owner)
  {
    var E, soft, x := Boxing(w, xs[..k], {}), SoftSlots(xs, k), xs[k];
    BoxesAreSoft(w, xs, k);
    if Leads(w, soft, x.field.ty, x.owner) {
      LeadsLess(w, E, soft, x.field.ty, x.owner);
    }
    if Leads(w, E, x.field.ty, x.owner) {
      var p: seq<Ty> :| Way(w, E, p) && Seen(p) && p[0] == x.field.ty && p[|p| - 1] == Struct(x.owner);
      forall i | 0 <= i < |p| - 1 ensures p[i + 1] in Contents(w, soft, p[i]) {
        assert p[i + 1] in Contents(w, E, p[i]);
        if p[i].Struct? {
          var n := p[i].name;
          var f := KeptIsField(n, w.structs[n].fields, E, p[i + 1]);
          RoundFrom(w, E, x, p, i);
          if (n, f.name) in soft { PassedOver(w, xs, k, n, f); }
          FieldIsKept(n, w.structs[n].fields, soft, f);
        }
      }
      assert Way(w, soft, p);
    }
  }

  lemma {:induction false} BoxedUpto(w: World, xs: seq<Place>, n: nat)
    requires OneFieldAName(w) && (forall x :: x in xs ==> IsPlace(w, x)) && n <= |xs|
    ensures Boxing(w, xs[..n], {}) == FirstsUpto(w, xs, n)
    decreases n
  {
    if n > 0 {
      var k := n - 1;
      var x, E := xs[k], Boxing(w, xs[..k], {});
      BoxedUpto(w, xs, k);
      assert xs[..n] == xs[..k] + [x];
      BoxingJoin(w, xs[..k], [x], {});
      assert [x][1..] == [] && Boxing(w, [x], E) == Boxed1(w, x, E);
      ReachesIffLeads(w, E, x.field.ty, x.owner);
      if SlotOf(x) !in E { LeadsAlike(w, xs, k); }
      FirstsMore(w, xs, k);
    }
  }

  lemma FirstsMore(w: World, xs: seq<Place>, k: nat)
    requires k < |xs|
    ensures FirstsUpto(w, xs, k + 1) == FirstsUpto(w, xs, k) + if ClosesFirst(w, xs, k) then {SlotOf(xs[k])} else {}
  {
  }

  /**
   * Which fields get a box, from the program alone: those that close a circle without arrays that
   * goes through none of the `?T` and `!T` fields before them.
   */
  lemma BoxedIff(w: World, order: seq<string>)
    requires OneFieldAName(w)
    ensures Boxing(w, AllPlaces(w, order), {}) == Firsts(w, AllPlaces(w, order))
  {
    var xs := AllPlaces(w, order);
    forall x | x in xs ensures IsPlace(w, x) { AllPlacesAre(w, order, x); }
    BoxedUpto(w, xs, |xs|);
    assert xs[..|xs|] == xs;
  }

  /** Whether the step can be made through a field that gets no box. */
  ghost predicate Held(w: World, boxed: set<Slot>, n: string, t: Ty)
    requires n in w.structs
  {
    exists f :: f in w.structs[n].fields && f.ty == t && (n, f.name) !in boxed
  }

  /**
   * Kind by kind: after the pass a `?T` or `!T` field is in a box or leads nowhere near its own struct,
   * and no field of another kind is in a box.
   */
  lemma BoxedByKind(w: World, order: seq<string>, n: string, f: Field)
    requires OneFieldAName(w) && n in order && n in w.structs && !w.structs[n].generic && f in w.structs[n].fields
    ensures var end := Boxing(w, AllPlaces(w, order), {});
      ((f.ty.Optional? || f.ty.Fallible?) && (n, f.name) !in end ==> !Leads(w, end, f.ty, n)) &&
      ((n, f.name) in end ==> f.ty.Optional? || f.ty.Fallible?)
  {
    var xs := AllPlaces(w, order);
    var end := Boxing(w, xs, {});
    PlaceInAll(w, order, n, f);
    PassIsEnough(w, xs, {});
    assert SlotOf(Place(n, f)) == (n, f.name);
    if (n, f.name) in end {
      BoxesAreNeeded(w, xs, {}, (n, f.name));
      var x :| x in xs && SlotOf(x) == (n, f.name) && Boxable(x.field.ty) && Leads(w, {}, x.field.ty, x.owner);
      AllPlacesAre(w, order, x);
    }
  }

  /** A step of the way can only be made through fields that get a box. */
  ghost predicate Broken(w: World, xs: seq<Place>, p: seq<Ty>) {
    exists i :: 0 <= i < |p| - 1 && p[i].Struct? && p[i].name in w.structs && !Held(w, Firsts(w, xs), p[i].name, p[i + 1])
  }

  /**
   * Exactly when the pass leaves no type that contains itself by value, from the program alone: it
   * has no circle of direct fields, and each of its circles with an array on it has a step that can
   * only be made through fields that close a circle without arrays first.
   */
  lemma PassMakesLayoutSound(w: World, order: seq<string>)
    requires OneFieldAName(w) && (forall n :: n in w.structs ==> n in order)
    ensures Sound(w, Boxing(w, AllPlaces(w, order), {})) <==>
      NoHardCircle(w) && forall p :: Circle(w, {}, p) && ThroughArray(p) ==> Broken(w, AllPlaces(w, order), p)
  {
    var xs := AllPlaces(w, order);
    LayoutSoundIff(w, order);
    forall p | Circle(w, {}, p) ensures Circle(w, Firsts(w, xs), p) <==> !Broken(w, xs, p) { BrokenIff(w, xs, p); }
    forall p | Circle(w, Firsts(w, xs), p) ensures Circle(w, {}, p) { WaysLess(w, {}, Firsts(w, xs), p); }
  }

  lemma BrokenIff(w: World, xs: seq<Place>, p: seq<Ty>)
    requires Way(w, {}, p)
    ensures Way(w, Firsts(w, xs), p) <==> !Broken(w, xs, p)
  {
    var end := Firsts(w, xs);
    forall i | 0 <= i < |p| - 1 && p[i].Struct? && p[i].name in w.structs
      ensures p[i + 1] in Contents(w, end, p[i]) <==> Held(w, end, p[i].name, p[i + 1])
    {
      assert p[i + 1] in Contents(w, {}, p[i]);
      HeldIff(w, end, p[i].name, p[i + 1]);
    }
  }

  lemma HeldIff(w: World, boxed: set<Slot>, n: string, t: Ty)
    requires n in w.structs
    ensures t in Kept(n, w.structs[n].fields, boxed) <==> Held(w, boxed, n, t)
  {
    var fs := w.structs[n].fields;
    if t in Kept(n, fs, boxed) {
      var f := KeptIsField(n, fs, boxed, t);
    }
    if Held(w, boxed, n, t) {
      var f :| f in fs && f.ty == t && (n, f.name) !in boxed;
      FieldIsKept(n, fs, boxed, f);
    }
  }

  /** The same, in terms of what is left once just those fields are in boxes. */
  lemma LayoutSoundIff(w: World, order: seq<string>)
    requires OneFieldAName(w) && (forall n :: n in w.structs ==> n in order)
    ensures Sound(w, Boxing(w, AllPlaces(w, order), {})) <==> NoHardCircle(w) && NoArrayCircle(w, Firsts(w, AllPlaces(w, order)))
  {
    var end := Boxing(w, AllPlaces(w, order), {});
    BoxedIff(w, order);
    if NoHardCircle(w) && NoArrayCircle(w, end) {
      forall p ensures !Circle(w, end, p) {
        if Circle(w, end, p) {
          WaysLess(w, {}, end, p);
          assert Circle(w, {}, p);
          NoSoftCircle(w, order, p);
        }
      }
    }
    if !NoHardCircle(w) {
      var p :| Circle(w, {}, p) && Hard(p);
      HardWayStays(w, order, p);
      assert Circle(w, end, p);
    }
  }

  // ------------------------------------------------------------------ arrays of structs

  /** struct Node has xs: [Box; 2]; struct Box has next: ?Node. */
  function Ring(): World {
    World(map["Node" := StructDecl(false, [Field("xs", Array(Struct("Box")))]),
              "Box" := StructDecl(false, [Field("next", Optional(Struct("Node")))])], map[])
  }

  /**
   * The search does not look into arrays, so a circle that runs through an array of structs keeps
   * its `?T` field unboxed, and the struct contains itself.
   */
  lemma ArraysHideCircles()
    ensures var end := Boxing(Ring(), AllPlaces(Ring(), ["Node", "Box"]), {});
      end == {} &&
      Circle(Ring(), end, [Struct("Box"), Optional(Struct("Node")), Struct("Node"), Array(Struct("Box")), Struct("Box")])
  {
    var w := Ring();
    var next, xs := Field("next", Optional(Struct("Node"))), Field("xs", Array(Struct("Box")));
    RingIsNotSeen();
    assert Places("Node", [xs]) == [Place("Node", xs)] by { assert [xs][1..] == []; }
    assert Places("Box", [next]) == [Place("Box", next)] by { assert [next][1..] == []; }
    assert AllPlaces(w, ["Box"]) == [Place("Box", next)] by { assert ["Box"][1..] == []; }
    assert ["Node", "Box"][1..] == ["Box"];
    assert AllPlaces(w, ["Node", "Box"]) == [Place("Node", xs), Place("Box", next)];
    assert [Place("Node", xs), Place("Box", next)][1..] == [Place("Box", next)];
    assert [Place("Box", next)][1..] == [];
    assert Boxing(w, [Place("Box", next)], {}) == {};
    RingTurns(w);
  }

  lemma RingIsNotSeen()
    ensures !Reaches(Ring(), {}, Optional(Struct("Node")), "Box", {}).0
  {
    var w := Ring();
    var t: Ty := Array(Struct("Box"));
    assert Kept("Node", w.structs["Node"].fields, {}) == [t] by { assert w.structs["Node"].fields[1..] == []; }
    assert [t][1..] == [];
    var s := {Struct("Node")};
    assert !Reaches(w, {}, t, "Box", s).0;
    assert !AnyReaches(w, {}, [t], "Box", s).0;
    assert {} + {Struct("Node")} == s;
    assert !Reaches(w, {}, Struct("Node"), "Box", {}).0;
  }

  lemma RingTurns(w: World)
    requires w == Ring()
    ensures Circle(w, {}, [Struct("Box"), Optional(Struct("Node")), Struct("Node"), Array(Struct("Box")), Struct("Box")])
  {
    var p := [Struct("Box"), Optional(Struct("Node")), Struct("Node"), Array(Struct("Box")), Struct("Box")];
    FieldIsKept("Box", w.structs["Box"].fields, {}, Field("next", Optional(Struct("Node"))));
    FieldIsKept("Node", w.structs["Node"].fields, {}, Field("xs", Array(Struct("Box"))));
    assert p[1] in Contents(w, {}, p[0]) && p[2] in Contents(w, {}, p[1]);
    assert p[3] in Contents(w, {}, p[2]) && p[4] in Contents(w, {}, p[3]);
  }

  // ------------------------------------------------------------------ the order of structs

  /** struct A has f: ?B; struct B has g: ?A and arr: [A; 2]. */
  function Twins(): World {
    World(map["A" := StructDecl(false, [F()]), "B" := StructDecl(false, [G(), Arr()])], map[])
  }

  function F(): Field { Field("f", Optional(Struct("B"))) }
  function G(): Field { Field("g", Optional(Struct("A"))) }
  function Arr(): Field { Field("arr", Array(Struct("A"))) }

  lemma TwinPlaces()
    ensures AllPlaces(Twins(), ["A", "B"]) == [Place("A", F()), Place("B", G()), Place("B", Arr())]
    ensures AllPlaces(Twins(), ["B", "A"]) == [Place("B", G()), Place("B", Arr()), Place("A", F())]
  {
    var w := Twins();
    assert Places("A", [F()]) == [Place("A", F())] by { assert [F()][1..] == []; }
    assert Places("B", [G(), Arr()]) == [Place("B", G()), Place("B", Arr())] by {
      assert [G(), Arr()][1..] == [Arr()] && [Arr()][1..] == [];
    }
    assert ["A"][1..] == [] && ["B"][1..] == [];
    assert ["A", "B"][1..] == ["B"] && ["B", "A"][1..] == ["A"];
    assert AllPlaces(w, []) == [];
    assert AllPlaces(w, ["A"]) == [Place("A", F())] && AllPlaces(w, ["B"]) == [Place("B", G()), Place("B", Arr())];
  }

  lemma TwinContents()
    ensures Kept("A", [F()], {}) == [F().ty] && Kept("A", [F()], {("A", "f")}) == [] && Kept("A", [F()], {("B", "g")}) == [F().ty]
    ensures Kept("B", [G(), Arr()], {}) == [G().ty, Arr().ty] && Kept("B", [G(), Arr()], {("A", "f")}) == [G().ty, Arr().ty]
    ensures Kept("B", [G(), Arr()], {("B", "g")}) == [Arr().ty]
  {
    assert [F()][1..] == [] && [G(), Arr()][1..] == [Arr()] && [Arr()][1..] == [];
  }

  /** With nothing in boxes each of the two fields closes a circle. */
  lemma TwinsReach()
    ensures Reaches(Twins(), {}, F().ty, "A", {}).0 && Reaches(Twins(), {}, G().ty, "B", {}).0
  {
    var w := Twins();
    TwinContents();
    assert Reaches(w, {}, G().ty, "A", {Struct("B")}).0;
    assert AnyReaches(w, {}, [G().ty, Arr().ty], "A", {Struct("B")}).0;
    assert {} + {Struct("B")} == {Struct("B")} && {} + {Struct("A")} == {Struct("A")};
    assert Reaches(w, {}, Struct("B"), "A", {}).0;
    assert Reaches(w, {}, F().ty, "B", {Struct("A")}).0;
    assert AnyReaches(w, {}, [F().ty], "B", {Struct("A")}).0;
    assert Reaches(w, {}, Struct("A"), "B", {}).0;
  }

  /** Once one of them is in a box, the other closes none that the search sees. */
  lemma TwinsPart()
    ensures !Reaches(Twins(), {("A", "f")}, G().ty, "B", {}).0 && !Reaches(Twins(), {("B", "g")}, F().ty, "A", {}).0
  {
    var w := Twins();
    TwinContents();
    assert {} + {Struct("B")} == {Struct("B")};
    assert !Reaches(w, {("A", "f")}, Struct("A"), "B", {}).0;
    assert !Reaches(w, {("B", "g")}, Arr().ty, "A", {Struct("B")}).0;
    assert [Arr().ty][1..] == [];
    assert !AnyReaches(w, {("B", "g")}, [Arr().ty], "A", {Struct("B")}).0;
    assert !Reaches(w, {("B", "g")}, Struct("B"), "A", {}).0;
  }

  lemma TwinBoxes()
    ensures Boxing(Twins(), AllPlaces(Twins(), ["A", "B"]), {}) == {("A", "f")}
    ensures Boxing(Twins(), AllPlaces(Twins(), ["B", "A"]), {}) == {("B", "g")}
  {
    var w := Twins();
    TwinPlaces();
    TwinsReach();
    TwinsPart();
    var a, g, r := Place("A", F()), Place("B", G()), Place("B", Arr());
    assert [a, g, r][1..] == [g, r] && [g, r, a][1..] == [r, a];
    assert [g, r][1..] == [r] && [r, a][1..] == [a] && [r][1..] == [] && [a][1..] == [];
    assert {} + {("A", "f")} == {("A", "f")} && {} + {("B", "g")} == {("B", "g")};
    assert Boxing(w, [r], {("A", "f")}) == {("A", "f")};
    assert Boxing(w, [g, r], {("A", "f")}) == {("A", "f")};
    assert Boxing(w, [a], {("B", "g")}) == {("B", "g")};
    assert Boxing(w, [r, a], {("B", "g")}) == {("B", "g")};
  }

  /** How deep a type goes by value when `A.f` is in a box. */
  function Depth(t: Ty): nat {
    match t
    case Plain => 0
    case Struct(n) => if n == "B" then 3 else 0
    case Enum(_) => 0
    case Optional(i) => Depth(i) + 1
    case Fallible(i, e) => Depth(i) + Depth(e) + 1
    case Tuple(ts) => DepthOfAll(ts) + 1
    case Array(e) => Depth(e) + 1
  }

  function DepthOfAll(ts: seq<Ty>): nat {
    if ts == [] then 0 else Depth(ts[0]) + DepthOfAll(ts[1..])
  }

  lemma {:induction false} PartIsLess(ts: seq<Ty>, t: Ty)
    requires t in ts
    ensures Depth(t) <= DepthOfAll(ts)
  {
    if ts[0] != t { PartIsLess(ts[1..], t); }
  }

  lemma DepthStep(a: Ty, b: Ty)
    requires b in Contents(Twins(), {("A", "f")}, a)
    ensures Depth(b) < Depth(a)
  {
    TwinContents();
    if a.Tuple? { PartIsLess(a.parts, b); }
  }

  /** Where each type is deeper than what it holds, none contains itself. */
  lemma {:induction false} DepthFalls(w: World, boxed: set<Slot>, p: seq<Ty>)
    requires Way(w, boxed, p) && forall a, b :: b in Contents(w, boxed, a) ==> Depth(b) < Depth(a)
    ensures Depth(p[|p| - 1]) + |p| - 1 <= Depth(p[0])
    decreases |p|
  {
    if |p| > 1 {
      WayInit(w, boxed, p);
      DepthFalls(w, boxed, p[..|p| - 1]);
    }
  }

  /**
   * One program, two orders of its structs: with `A` before `B` the layout is sound, with `B` before
   * `A` it is not.
   */
  lemma OrderMatters()
    ensures Sound(Twins(), Boxing(Twins(), AllPlaces(Twins(), ["A", "B"]), {}))
    ensures !Sound(Twins(), Boxing(Twins(), AllPlaces(Twins(), ["B", "A"]), {}))
  {
    TwinBoxes();
    forall a, b | b in Contents(Twins(), {("A", "f")}, a) ensures Depth(b) < Depth(a) { DepthStep(a, b); }
    forall p ensures !Circle(Twins(), {("A", "f")}, p) {
      if Circle(Twins(), {("A", "f")}, p) { DepthFalls(Twins(), {("A", "f")}, p); }
    }
    TwinsTurn();
  }

  lemma TwinsTurn()
    ensures Circle(Twins(), {("B", "g")}, [Struct("A"), F().ty, Struct("B"), Arr().ty, Struct("A")])
  {
    TwinContents();
  }

  // ------------------------------------------------------------------ a struct that holds itself

  /** struct Node has next: `t`. */
  function Linked(t: Ty): World {
    World(map["Node" := StructDecl(false, [Field("next", t)])], map[])
  }

  lemma LinkedBoxes(t: Ty)
    requires t == Optional(Struct("Node")) || t == Fallible(Struct("Node"), Plain)
    ensures Boxing(Linked(t), AllPlaces(Linked(t), ["Node"]), {}) == {("Node", "next")}
  {
    var w, x := Linked(t), Place("Node", Field("next", t));
    assert Places("Node", [x.field]) == [x] by { assert [x.field][1..] == []; }
    assert ["Node"][1..] == [] && AllPlaces(w, []) == [];
    assert AllPlaces(w, ["Node"]) == [x];
    assert Reaches(w, {}, Struct("Node"), "Node", {}).0;
    assert Reaches(w, {}, t, "Node", {}).0;
    assert [x][1..] == [] && {} + {("Node", "next")} == {("Node", "next")};
    assert Boxed1(w, x, {}) == {("Node", "next")};
  }

  lemma LinkedStep(t: Ty, a: Ty, b: Ty)
    requires b in Contents(Linked(t), {("Node", "next")}, a)
    ensures Depth(b) < Depth(a)
  {
    assert Kept("Node", [Field("next", t)], {("Node", "next")}) == [] by { assert [Field("next", t)][1..] == []; }
    if a.Tuple? { PartIsLess(a.parts, b); }
  }

  lemma LinkedTurns(t: Ty)
    requires t == Optional(Struct("Node")) || t == Fallible(Struct("Node"), Plain)
    ensures Circle(Linked(t), {}, [Struct("Node"), t, Struct("Node")])
  {
    FieldIsKept("Node", [Field("next", t)], {}, Field("next", t));
  }

  /** A struct with a `?Node` or a `!Node` of itself contains itself before the pass, and not after it. */
  lemma SelfIsBoxed(t: Ty)
    requires t == Optional(Struct("Node")) || t == Fallible(Struct("Node"), Plain)
    ensures !Sound(Linked(t), {}) && Sound(Linked(t), Boxing(Linked(t), AllPlaces(Linked(t), ["Node"]), {}))
  {
    var end := {("Node", "next")};
    LinkedBoxes(t);
    LinkedTurns(t);
    forall a, b | b in Contents(Linked(t), end, a) ensures Depth(b) < Depth(a) { LinkedStep(t, a, b); }
    forall p ensures !Circle(Linked(t), end, p) {
      if Circle(Linked(t), end, p) { DepthFalls(Linked(t), end, p); }
    }
  }
}
