// What the evaluator does, said without it: operators by arithmetic, text and structure, names by
// the innermost scope that has them, calls by the places of their arguments, and loops by what
// programs with them compute (micai/src/interp.rs).

module ClosureLaws {
  import opened ClosureSyntax
  import opened ClosureRun

  // ------------------------------------------------------------------ operators

  // `r` is the one integer of 64 bits that is `n`, give or take multiples of 2^64.
  ghost predicate Wraps(n: int, r: int) {
    -0x8000_0000_0000_0000 <= r < 0x8000_0000_0000_0000 && (n - r) % 0x1_0000_0000_0000_0000 == 0
  }

  ghost predicate IsInt(r: Outcome<Value>, n: int) {
    r.Got? && r.v.Int? && Wraps(n, r.v.n)
  }

  // `s` is a proper beginning of `t`, or has the smaller character where they first differ.
  ghost predicate Precedes(s: string, t: string) {
    exists k :: 0 <= k <= |s| && k < |t| && s[..k] == t[..k] && (k < |s| ==> s[k] < t[k])
  }

  lemma WrapsAround(n: int)
    ensures Wraps(n, Wrap64(n))
  {
    var m := n + 0x8000_0000_0000_0000;
    assert n - Wrap64(n) == m - m % 0x1_0000_0000_0000_0000;
    assert m == (m / 0x1_0000_0000_0000_0000) * 0x1_0000_0000_0000_0000 + m % 0x1_0000_0000_0000_0000;
  }

  // Both sides are worked out before an operator is applied.
  lemma BothSides(w: World, op: BinOp, a: Expr, b: Expr, x: Value, y: Value, fr: Frame, depth: nat, fuel: nat)
    requires Eval(w, a, fr, depth, fuel) == Got(x) && Eval(w, b, fr, depth, fuel) == Got(y) && op != And && op != Or
    ensures Eval(w, Binary(op, a, b), fr, depth, fuel + 1) == Apply(op, x, y)
  {
    assert EvalBinary(w, op, a, b, fr, depth, fuel) == Apply(op, x, y);
  }

  lemma Applied(op: BinOp, m: int, n: int, p: int)
    requires (op == Add && p == m + n) || (op == Sub && p == m - n) || (op == Mul && p == m * n)
    ensures IsInt(Apply(op, Int(m), Int(n)), p)
  {
    WrapsAround(p);
    assert Apply(op, Int(m), Int(n)) == Got(Int(Wrap64(p)));
  }

  // Sums, differences and products wrap around.
  lemma IntegerArithmetic(w: World, op: BinOp, a: Expr, b: Expr, m: int, n: int, p: int, fr: Frame, depth: nat, fuel: nat)
    requires Eval(w, a, fr, depth, fuel) == Got(Int(m)) && Eval(w, b, fr, depth, fuel) == Got(Int(n))
    requires (op == Add && p == m + n) || (op == Sub && p == m - n) || (op == Mul && p == m * n)
    ensures IsInt(Eval(w, Binary(op, a, b), fr, depth, fuel + 1), p)
  {
    Applied(op, m, n, p);
    BothSides(w, op, a, b, Int(m), Int(n), fr, depth, fuel);
  }

  lemma IntegerNegated(w: World, a: Expr, m: int, fr: Frame, depth: nat, fuel: nat)
    requires Eval(w, a, fr, depth, fuel) == Got(Int(m))
    ensures IsInt(Eval(w, Unary(Neg, a), fr, depth, fuel + 1), 0 - m)
  {
    WrapsAround(0 - m);
    assert Eval(w, Unary(Neg, a), fr, depth, fuel + 1) == ApplyUnary(Neg, Int(m));
  }

  lemma IntegerOrder(w: World, a: Expr, b: Expr, m: int, n: int, fr: Frame, depth: nat, fuel: nat)
    requires Eval(w, a, fr, depth, fuel) == Got(Int(m)) && Eval(w, b, fr, depth, fuel) == Got(Int(n))
    ensures Eval(w, Binary(Lt, a, b), fr, depth, fuel + 1) == Got(Bool(m < n))
    ensures Eval(w, Binary(Le, a, b), fr, depth, fuel + 1) == Got(Bool(m <= n))
    ensures Eval(w, Binary(Eq, a, b), fr, depth, fuel + 1) == Got(Bool(m == n))
    ensures Eval(w, Binary(Ne, a, b), fr, depth, fuel + 1) == Got(Bool(m != n))
  {
    BothSides(w, Lt, a, b, Int(m), Int(n), fr, depth, fuel);
    BothSides(w, Le, a, b, Int(m), Int(n), fr, depth, fuel);
    BothSides(w, Eq, a, b, Int(m), Int(n), fr, depth, fuel);
    BothSides(w, Ne, a, b, Int(m), Int(n), fr, depth, fuel);
  }

  lemma TextOps(w: World, a: Expr, b: Expr, s: string, t: string, fr: Frame, depth: nat, fuel: nat)
    requires Eval(w, a, fr, depth, fuel) == Got(Str(s)) && Eval(w, b, fr, depth, fuel) == Got(Str(t))
    ensures Eval(w, Binary(Add, a, b), fr, depth, fuel + 1) == Got(Str(s + t))
    ensures Eval(w, Binary(Lt, a, b), fr, depth, fuel + 1) == Got(Bool(Precedes(s, t)))
    ensures Eval(w, Binary(Le, a, b), fr, depth, fuel + 1) == Got(Bool(s == t || Precedes(s, t)))
    ensures Eval(w, Binary(Sub, a, b), fr, depth, fuel + 1) == Stop(Failed(BadOperand))
    ensures Eval(w, Binary(Mul, a, b), fr, depth, fuel + 1) == Stop(Failed(BadOperand))
  {
    BeforeIff(s, t);
    BeforeIff(t, s);
    OneBefore(s, t);
  }

  lemma {:induction false} BeforeIff(s: string, t: string)
    ensures TextBefore(s, t) <==> Precedes(s, t)
  {
    if s != [] && t != [] {
      BeforeIff(s[1..], t[1..]);
      if s[0] == t[0] && Precedes(s[1..], t[1..]) {
        var k :| 0 <= k <= |s[1..]| && k < |t[1..]| && s[1..][..k] == t[1..][..k] && (k < |s[1..]| ==> s[1..][k] < t[1..][k]);
        assert s[..k + 1] == [s[0]] + s[1..][..k] && t[..k + 1] == [t[0]] + t[1..][..k];
      }
      if s[0] < t[0] { assert s[..0] == t[..0]; }
      if k :| 0 <= k <= |s| && k < |t| && s[..k] == t[..k] && (k < |s| ==> s[k] < t[k]) {
        if k > 0 {
          assert s[..k][0] == t[..k][0];
          assert s[1..][..k - 1] == s[..k][1..] && t[1..][..k - 1] == t[..k][1..];
        }
      }
    } else if t != [] {
      assert s[..0] == t[..0];
    }
  }

  lemma {:induction false} OneBefore(s: string, t: string)
    ensures TextBefore(t, s) <==> !(s == t || TextBefore(s, t))
  {
    if s != [] && t != [] {
      OneBefore(s[1..], t[1..]);
      assert s == [s[0]] + s[1..] && t == [t[0]] + t[1..];
    }
  }

  lemma ListsJoin(w: World, a: Expr, b: Expr, xs: seq<Value>, ys: seq<Value>, fr: Frame, depth: nat, fuel: nat)
    requires Eval(w, a, fr, depth, fuel) == Got(Data(KList, xs)) && Eval(w, b, fr, depth, fuel) == Got(Data(KList, ys))
    ensures Eval(w, Binary(Add, a, b), fr, depth, fuel + 1) == Got(Data(KList, xs + ys))
  {
  }

  // Nothing else can be added, subtracted, multiplied or put in order.
  lemma OthersAreRefused(w: World, op: BinOp, a: Expr, b: Expr, x: Value, y: Value, fr: Frame, depth: nat, fuel: nat)
    requires Eval(w, a, fr, depth, fuel) == Got(x) && Eval(w, b, fr, depth, fuel) == Got(y)
    requires op in {Add, Sub, Mul, Lt, Le} && !(x.Int? && y.Int?) && !(x.Str? && y.Str?)
    requires op == Add ==> !(x.Data? && y.Data? && x.kind.KList? && y.kind.KList?)
    ensures Eval(w, Binary(op, a, b), fr, depth, fuel + 1) == Stop(Failed(BadOperand))
  {
  }

  lemma LeftSide(w: World, op: BinOp, a: Expr, b: Expr, fr: Frame, depth: nat, fuel: nat)
    ensures var x := Eval(w, a, fr, depth, fuel);
      x.Stop? || (op == And && x == Got(Bool(false))) || (op == Or && x == Got(Bool(true))) ==>
        Eval(w, Binary(op, a, b), fr, depth, fuel + 1) == x
  {
    var x := Eval(w, a, fr, depth, fuel);
    TruthIs(w, a, fr, depth, fuel);
    assert Eval(w, Binary(op, a, b), fr, depth, fuel + 1) == EvalBinary(w, op, a, b, fr, depth, fuel);
  }

  lemma TruthIs(w: World, a: Expr, fr: Frame, depth: nat, fuel: nat)
    ensures var x := Eval(w, a, fr, depth, fuel);
      Truth(w, a, fr, depth, fuel) == if x.Stop? then Stop(x.flow) else if x.v.Bool? then Got(x.v.b) else Stop(Failed(NotBool))
  {
  }

  // The left side comes first, and what stops it stops the whole.
  lemma LeftFirst(w: World, op: BinOp, a: Expr, b: Expr, fr: Frame, depth: nat, fuel: nat)
    ensures var x := Eval(w, a, fr, depth, fuel);
      (x.Stop? ==> Eval(w, Binary(op, a, b), fr, depth, fuel + 1) == x) &&
      (x == Got(Bool(false)) ==> Eval(w, Binary(And, a, b), fr, depth, fuel + 1) == x) &&
      (x == Got(Bool(true)) ==> Eval(w, Binary(Or, a, b), fr, depth, fuel + 1) == x)
  {
    LeftSide(w, op, a, b, fr, depth, fuel);
    LeftSide(w, And, a, b, fr, depth, fuel);
    LeftSide(w, Or, a, b, fr, depth, fuel);
  }

  // When the left side does not decide, the truth of the right one does.
  lemma RightDecides(w: World, a: Expr, b: Expr, c: bool, fr: Frame, depth: nat, fuel: nat)
    requires Eval(w, b, fr, depth, fuel) == Got(Bool(c))
    ensures var x := Eval(w, a, fr, depth, fuel);
      (x == Got(Bool(true)) ==> Eval(w, Binary(And, a, b), fr, depth, fuel + 1) == Got(Bool(c))) &&
      (x == Got(Bool(false)) ==> Eval(w, Binary(Or, a, b), fr, depth, fuel + 1) == Got(Bool(c)))
  {
    TruthIs(w, a, fr, depth, fuel);
    TruthIs(w, b, fr, depth, fuel);
    assert forall op :: Eval(w, Binary(op, a, b), fr, depth, fuel + 1) == EvalBinary(w, op, a, b, fr, depth, fuel);
  }

  // ------------------------------------------------------------------ equality

  // Nothing in it is compared by anything but its contents and their order.
  ghost predicate Solid(v: Value)
    decreases v
  {
    v.None_? || v.Int? || v.Bool? || v.Str? ||
    (v.Data? && (v.kind.KList? || v.kind.KTuple? || v.kind.KVariant? || v.kind.KError?) &&
     forall i :: 0 <= i < |v.items| ==> Solid(v.items[i]))
  }

  // Such values are equal just when they are the same.
  lemma {:induction false} EqualIff(a: Value, b: Value)
    requires Solid(a)
    ensures EqValue(a, b) <==> a == b
    decreases a
  {
    if a.Data? && b.Data? && a.kind == b.kind && |a.items| == |b.items| {
      forall i | 0 <= i < |a.items| ensures EqValue(a.items[i], b.items[i]) <==> a.items[i] == b.items[i] {
        EqualIff(a.items[i], b.items[i]);
      }
      if EqValue(a, b) { assert a.items == b.items; }
    }
  }

  // Functions, tasks and arenas are equal to nothing, themselves included.
  lemma NeverEqual(a: Value, b: Value)
    requires a.Func? || a.Closure? || a.Maker? || a.MakesError? || (a.Data? && (a.kind.KTask? || a.kind.KArena?))
    ensures !EqValue(a, b) && !EqValue(b, a)
  {
  }

  ghost predicate SamePair(xs: seq<Value>, i: nat, ys: seq<Value>, j: nat)
    requires 2 * i + 1 < |xs| && 2 * j + 1 < |ys|
  {
    EqValue(xs[2 * i], ys[2 * j]) && EqValue(xs[2 * i + 1], ys[2 * j + 1])
  }

  ghost predicate HasPair(xs: seq<Value>, i: nat, ys: seq<Value>, from: nat)
    requires 2 * i + 1 < |xs|
  {
    exists j: nat :: from <= j && 2 * j + 1 < |ys| && SamePair(xs, i, ys, j)
  }

  // Dictionaries are equal when they have as many pairs, and each of the one is in the other.
  lemma DictsEqualIff(xs: seq<Value>, ys: seq<Value>)
    ensures EqValue(Data(KDict, xs), Data(KDict, ys)) <==>
      |xs| == |ys| && forall i: nat :: 2 * i + 1 < |xs| ==> HasPair(xs, i, ys, 0)
  {
    PairsAreThere(xs, ys, 0);
  }

  lemma {:induction false} PairsAreThere(xs: seq<Value>, ys: seq<Value>, j: nat)
    ensures EqPairs(xs, ys, 2 * j) <==>
      (1 < |xs| ==> HasPair(xs, 0, ys, j)) && forall i: nat :: 0 < i && 2 * i + 1 < |xs| ==> HasPair(xs, i, ys, 0)
    decreases xs, |ys| - 2 * j
  {
    if |xs| >= 2 && 2 * j + 1 < |ys| {
      PairsAreThere(xs, ys, j + 1);
      PairsAreThere(xs[2..], ys, 0);
      assert HasPair(xs, 0, ys, j) <==> SamePair(xs, 0, ys, j) || HasPair(xs, 0, ys, j + 1);
      forall i: nat | 0 < i && 2 * i + 1 < |xs| ensures HasPair(xs, i, ys, 0) <==> HasPair(xs[2..], i - 1, ys, 0) {
        PairLater(xs, i, ys);
      }
      assert forall i: nat :: 2 * i + 1 < |xs[2..]| ==> HasPair(xs[2..], i, ys, 0) == HasPair(xs, i + 1, ys, 0);
    }
  }

  lemma PairLater(xs: seq<Value>, i: nat, ys: seq<Value>)
    requires 0 < i && 2 * i + 1 < |xs|
    ensures HasPair(xs, i, ys, 0) <==> HasPair(xs[2..], i - 1, ys, 0)
  {
    var t := xs[2..];
    assert t[2 * (i - 1)] == xs[2 * i] && t[2 * (i - 1) + 1] == xs[2 * i + 1];
    if j: nat :| 2 * j + 1 < |ys| && SamePair(xs, i, ys, j) {
      assert SamePair(t, i - 1, ys, j);
    }
    if j: nat :| 2 * j + 1 < |ys| && SamePair(t, i - 1, ys, j) {
      assert SamePair(xs, i, ys, j);
    }
  }

  // An index into a dictionary gives the value of the first equal key, or `none`.
  lemma {:induction false} FirstKeyCounts(items: seq<Value>, key: Value, k: nat)
    requires forall i: nat :: i < k && 2 * i + 1 < |items| ==> !EqValue(items[2 * i], key)
    requires 2 * k + 1 < |items| ==> EqValue(items[2 * k], key)
    ensures At(Data(KDict, items), key) == Got(if 2 * k + 1 < |items| then items[2 * k + 1] else None_)
    decreases k
  {
    if k > 0 && 1 < |items| {
      var i: nat := 0;
      assert !EqValue(items[2 * i], key);
      forall i: nat | i < k - 1 && 2 * i + 1 < |items[2..]| ensures !EqValue(items[2..][2 * i], key) {
        assert items[2..][2 * i] == items[2 * (i + 1)];
      }
      FirstKeyCounts(items[2..], key, k - 1);
    }
  }

  lemma Indexing(w: World, a: Expr, b: Expr, o: Value, n: int, fr: Frame, depth: nat, fuel: nat)
    requires Eval(w, a, fr, depth, fuel) == Got(o) && Eval(w, b, fr, depth, fuel) == Got(Int(n))
    ensures var r := Eval(w, Index(a, b), fr, depth, fuel + 1);
      (o.Str? ==> r == if 0 <= n < |o.s| then Got(Str([o.s[n]])) else Stop(Failed(BadIndex))) &&
      (o.Data? && o.kind.KList? ==> r == if 0 <= n < |o.items| then Got(o.items[n]) else Stop(Failed(BadIndex))) &&
      (!o.Str? && !(o.Data? && (o.kind.KList? || o.kind.KDict?)) ==> r == Stop(Failed(BadOperand)))
  {
  }

  // ------------------------------------------------------------------ numbers as text

  predicate IsNumeral(s: string) {
    s != "" && (forall i :: 0 <= i < |s| ==> '0' <= s[i] <= '9') && (|s| > 1 ==> s[0] != '0')
  }

  function NumeralValue(s: string): int {
    if s == "" then 0 else 10 * NumeralValue(s[..|s| - 1]) + (s[|s| - 1] as int - '0' as int)
  }

  // An integer is shown in decimal without leading zeros, with a sign when it is below zero.
  lemma ShownInDecimal(n: int)
    ensures var s := Repr(Int(n));
      if n < 0 then s != "" && s[0] == '-' && IsNumeral(s[1..]) && NumeralValue(s[1..]) == -n
      else IsNumeral(s) && NumeralValue(s) == n
  {
    DigitsShow(if n < 0 then -n else n);
  }

  lemma {:induction false} DigitsShow(n: nat)
    ensures var s := Digits(n); IsNumeral(s) && NumeralValue(s) == n && (n > 0 ==> s[0] != '0')
  {
    if n >= 10 {
      DigitsShow(n / 10);
      var s := Digits(n);
      assert s[..|s| - 1] == Digits(n / 10);
    } else {
      assert NumeralValue([]) == 0 && Digits(n)[..0] == [];
    }
  }

  // ------------------------------------------------------------------ names

  ghost predicate Hides(scopes: seq<Scope>, n: Name, k: int) {
    exists j :: 0 <= j < |scopes| && k <= j && n in scopes[j]
  }

  // `v` is what `n` means: its value in the innermost scope that has it, or else what was captured.
  ghost predicate Means(fr: Frame, n: Name, v: Value) {
    (exists k: nat :: k < |fr.scopes| && n in fr.scopes[k] && fr.scopes[k][n] == v && !Hides(fr.scopes, n, k + 1)) ||
    (n in fr.env && fr.env[n] == v && !Hides(fr.scopes, n, 0))
  }

  lemma {:induction false} InnermostIn(scopes: seq<Scope>, n: Name)
    ensures LookupIn(scopes, n).None? <==> !Hides(scopes, n, 0)
    ensures LookupIn(scopes, n).Some? ==>
      exists k: nat :: k < |scopes| && n in scopes[k] && scopes[k][n] == LookupIn(scopes, n).value && !Hides(scopes, n, k + 1)
    decreases |scopes|
  {
    if scopes != [] {
      var k: nat := |scopes| - 1;
      var init := scopes[..k];
      if n in scopes[k] {
        assert !Hides(scopes, n, k + 1);
      } else {
        InnermostIn(init, n);
        assert forall j :: Hides(init, n, j) <==> Hides(scopes, n, j) by {
          assert forall i :: 0 <= i < k ==> init[i] == scopes[i];
        }
      }
    }
  }

  lemma InnermostWins(fr: Frame, n: Name, v: Value)
    ensures Lookup(fr, n) == Some(v) <==> Means(fr, n, v)
  {
    InnermostIn(fr.scopes, n);
    if Means(fr, n, v) && Hides(fr.scopes, n, 0) {
      var k: nat :| k < |fr.scopes| && n in fr.scopes[k] && fr.scopes[k][n] == v && !Hides(fr.scopes, n, k + 1);
      var l: nat :| l < |fr.scopes| && n in fr.scopes[l] && fr.scopes[l][n] == LookupIn(fr.scopes, n).value && !Hides(fr.scopes, n, l + 1);
      assert k < l ==> Hides(fr.scopes, n, k + 1);
      assert l < k ==> Hides(fr.scopes, n, l + 1);
    }
  }

  // `g` is `f` but that `n` means `v`.
  ghost predicate Differs(f: Frame, g: Frame, n: Name, v: Value) {
    |g.scopes| == |f.scopes| && Lookup(g, n) == Some(v) && forall m :: m != n ==> Lookup(g, m) == Lookup(f, m)
  }

  lemma {:induction false} AssignedIn(scopes: seq<Scope>, n: Name, v: Value)
    ensures AssignIn(scopes, n, v).Some? <==> LookupIn(scopes, n).Some?
    ensures AssignIn(scopes, n, v).Some? ==>
      var r := AssignIn(scopes, n, v).value;
      |r| == |scopes| && LookupIn(r, n) == Some(v) && forall m :: m != n ==> LookupIn(r, m) == LookupIn(scopes, m)
    decreases |scopes|
  {
    if scopes != [] {
      var k := |scopes| - 1;
      AssignedIn(scopes[..k], n, v);
      if AssignIn(scopes, n, v).Some? {
        var r := AssignIn(scopes, n, v).value;
        assert n in scopes[k] ==> r[..k] == scopes[..k];
        assert n !in scopes[k] ==> r[..k] == AssignIn(scopes[..k], n, v).value;
      }
    }
  }

  // Assigning changes what the name means, if it means anything, and no other name.
  lemma AssignChangesOne(fr: Frame, n: Name, v: Value)
    ensures AssignTo(fr, n, v).Some? <==> Lookup(fr, n).Some?
    ensures AssignTo(fr, n, v).Some? ==> Differs(fr, AssignTo(fr, n, v).value, n, v)
  {
    AssignedIn(fr.scopes, n, v);
  }

  lemma DeclareAddsOne(fr: Frame, n: Name, v: Value)
    requires fr.scopes != []
    ensures Differs(fr, Declare(fr, n, v), n, v)
  {
    var k := |fr.scopes| - 1;
    assert Declare(fr, n, v).scopes[..k] == fr.scopes[..k];
  }

  // ------------------------------------------------------------------ calls

  // Each parameter has the argument at its place; of one named twice, the last counts.
  lemma {:induction false} ArgumentsByPlace(params: seq<Name>, args: seq<Value>, i: nat)
    requires |params| == |args| && i < |params| && forall j :: i < j < |params| ==> params[j] != params[i]
    ensures params[i] in Arguments(params, args) && Arguments(params, args)[params[i]] == args[i]
    decreases |params|
  {
    var k := |params| - 1;
    if i < k { ArgumentsByPlace(params[..k], args[..k], i); }
  }

  // How many arguments a call takes, and how deep calls may go.
  lemma CallsAreGuarded(w: World, f: Value, args: seq<Value>, depth: nat, fuel: nat)
    requires f.Func? || f.Closure?
    ensures var d := if f.Func? then f.f else f.decl;
      var r := CallValue(w, f, args, depth, fuel);
      (depth >= w.limit ==> r == Stop(Failed(TooDeep))) &&
      (depth < w.limit && |args| < |d.params| ==> r == Stop(Failed(MissingArg))) &&
      (depth < w.limit && |args| > |d.params| ==> r == Stop(Failed(ExtraArg)))
  {
  }

  // `fn d(p0, p1, ...): return pi` gives its argument number `i`, whatever was captured.
  lemma ParameterIsArgument(w: World, f: Value, args: seq<Value>, i: nat, depth: nat, fuel: nat)
    requires (f.Func? || f.Closure?) && depth < w.limit && fuel > 1
    requires var d := Code(f);
      |args| == |d.params| && i < |args| && (forall j :: i < j < |args| ==> d.params[j] != d.params[i]) &&
      d.pre == [] && d.post == [] && d.body == [Return(Some(Ident(d.params[i])))]
    ensures CallValue(w, f, args, depth, fuel) == Got(args[i])
  {
    var d := Code(f);
    var fr := Frame(Captured(f), [Arguments(d.params, args)]);
    ArgumentsByPlace(d.params, args, i);
    assert Lookup(fr, d.params[i]) == Some(args[i]);
    assert Eval(w, Ident(d.params[i]), fr, depth + 1, fuel - 1) == Got(args[i]);
    assert Step(w, d.body[0], fr, depth + 1, fuel) == Ran(fr, Some(Returned(args[i])));
    assert RunBody(w, d, fr, depth + 1, fuel) == Got(args[i]);
  }

  // A precondition that is false keeps the body from running.
  lemma PreconditionGuards(w: World, d: FnDecl, c: Expr, fr: Frame, depth: nat, fuel: nat)
    requires d.pre == [c] && Eval(w, c, fr, depth, fuel) == Got(Bool(false))
    ensures RunBody(w, d, fr, depth, fuel) == Stop(Failed(PreBroken))
  {
    assert Contract(w, d.pre, PreBroken, fr, depth, fuel) == Some(Failed(PreBroken));
  }

  // A postcondition judges the result by the locals as the body leaves them.
  lemma PostconditionJudges(w: World, d: FnDecl, m: Name, k: int, v: Value, fr: Frame, g: Frame, depth: nat, fuel: nat)
    requires fuel > 1 && d.pre == [] && d.post == [Binary(Eq, Ident("result"), Ident(m))] && m != "result"
    requires Exec(w, d.body, fr, depth, fuel) == Ran(g, Some(Returned(v))) && Lookup(g, m) == Some(Int(k))
    ensures RunBody(w, d, fr, depth, fuel) == if v == Int(k) then Got(v) else Stop(Failed(PostBroken))
  {
    var inside := Push(g, map["result" := v]);
    var post := Binary(Eq, Ident("result"), Ident(m));
    assert Lookup(inside, "result") == Some(v);
    assert Lookup(inside, m) == Some(Int(k)) by { assert inside.scopes[..|inside.scopes| - 1] == g.scopes; }
    BothSides(w, Eq, Ident("result"), Ident(m), v, Int(k), inside, depth, fuel - 1);
    assert EqValue(v, Int(k)) <==> v == Int(k);
    assert Contract(w, [post], PostBroken, inside, depth, fuel) == if v == Int(k) then None else Some(Failed(PostBroken));
  }

  // ------------------------------------------------------------------ what programs compute

  // `t += e` in a scope of its own.
  function Adds(t: Name, e: Expr): seq<Stmt> {
    [Assign(Ident(t), Some(Add), e, None)]
  }

  lemma AddsOnce(w: World, t: Name, e: Expr, s: Scope, a: Value, x: Value, fr: Frame, depth: nat, fuel: nat)
    requires fuel > 1 && t !in s && Lookup(fr, t) == Some(a) && !IsError(x)
    requires Eval(w, e, Push(fr, s), depth, fuel - 1) == Got(x) && Apply(Add, a, x).Got?
    ensures var r := Block(w, Adds(t, e), s, fr, depth, fuel);
      r.flow == None && Differs(fr, r.frame, t, Apply(Add, a, x).v)
  {
    var inside := Push(fr, s);
    var b := Adds(t, e);
    var u := Apply(Add, a, x).v;
    assert inside.scopes[..|inside.scopes| - 1] == fr.scopes;
    assert Lookup(inside, t) == Some(a);
    AssignChangesOne(fr, t, u);
    var g := AssignTo(fr, t, u).value;
    assert AssignTo(inside, t, u) == Some(Push(g, s));
    assert EvalHandled(w, e, None, true, inside, depth, fuel - 1) == Handling(inside, Got(Some(x)));
    assert Step(w, b[0], inside, depth, fuel) == Ran(Push(g, s), None);
    assert Exec(w, b, inside, depth, fuel) == Ran(Push(g, s), None) by { assert b[1..] == []; }
    assert Pop(Push(g, s)) == g;
  }

  lemma DiffersThen(f: Frame, g: Frame, h: Frame, n: Name, u: Value, v: Value)
    requires Differs(f, g, n, u) && Differs(g, h, n, v)
    ensures Differs(f, h, n, v)
  {
  }

  // One round of a loop, and the rounds after it.
  lemma RoundAdds(w: World, t: Name, e: Expr, first: Scope, rest: seq<Scope>, a: Value, x: Value, u: Value, fr: Frame, depth: nat, fuel: nat)
    returns (g: Frame)
    requires fuel > 1 && t !in first && Lookup(fr, t) == Some(a) && !IsError(x)
    requires Eval(w, e, Push(fr, first), depth, fuel - 1) == Got(x) && Apply(Add, a, x) == Got(u)
    ensures Differs(fr, g, t, u)
    ensures ForEach(w, [first] + rest, Adds(t, e), fr, depth, fuel) == ForEach(w, rest, Adds(t, e), g, depth, fuel)
  {
    AddsOnce(w, t, e, first, a, x, fr, depth, fuel);
    g := Block(w, Adds(t, e), first, fr, depth, fuel).frame;
    assert ([first] + rest)[1..] == rest;
  }

  lemma JoinOn<T>(a: seq<T>, xs: seq<T>, k: nat)
    requires k <= |xs|
    ensures a + xs[..k] + xs[k..] == a + xs
  {
  }

  lemma TextsAdd(s: string, t: string)
    ensures Apply(Add, Str(s), Str(t)) == Got(Str(s + t))
  {
  }

  lemma ListsAdd(xs: seq<Value>, ys: seq<Value>)
    ensures Apply(Add, Data(KList, xs), Data(KList, ys)) == Got(Data(KList, xs + ys))
  {
  }

  lemma NameGives(w: World, n: Name, s: Scope, fr: Frame, depth: nat, fuel: nat)
    requires fuel > 0 && n in s
    ensures Eval(w, Ident(n), Push(fr, s), depth, fuel) == Got(s[n])
  {
    assert Lookup(Push(fr, s), n) == Some(s[n]);
  }

  // `for c in s: t += c` appends the text, character by character and in order.
  lemma {:induction false} LoopCopiesText(w: World, t: Name, c: Name, s: string, a: string, fr: Frame, depth: nat, fuel: nat)
    requires fuel > 2 && t != c && Lookup(fr, t) == Some(Str(a))
    ensures var r := ForEach(w, CharScopes(c, s), Adds(t, Ident(c)), fr, depth, fuel);
      r.flow == None && Differs(fr, r.frame, t, Str(a + s))
    decreases |s|
  {
    if s == "" {
      assert a + s == a;
    } else {
      var first, rest, u := map[c := Str([s[0]])], CharScopes(c, s[1..]), a + s[..1];
      assert CharScopes(c, s) == [first] + rest;
      NameGives(w, c, first, fr, depth, fuel - 1);
      assert s[..1] == [s[0]];
      TextsAdd(a, s[..1]);
      var g := RoundAdds(w, t, Ident(c), first, rest, Str(a), Str(s[..1]), Str(u), fr, depth, fuel);
      LoopCopiesText(w, t, c, s[1..], u, g, depth, fuel);
      JoinOn(a, s, 1);
      DiffersThen(fr, g, ForEach(w, rest, Adds(t, Ident(c)), g, depth, fuel).frame, t, Str(u), Str(a + s));
    }
  }

  // `for x in xs: t += [x]` appends the items in order.
  lemma {:induction false} LoopCopiesItems(w: World, t: Name, c: Name, xs: seq<Value>, a: seq<Value>, fr: Frame, depth: nat, fuel: nat)
    requires fuel > 3 && t != c && Lookup(fr, t) == Some(Data(KList, a))
    ensures var r := ForEach(w, ItemScopes(c, xs), Adds(t, Parts(AList, [Ident(c)])), fr, depth, fuel);
      r.flow == None && Differs(fr, r.frame, t, Data(KList, a + xs))
    decreases |xs|
  {
    if xs == [] {
      assert a + xs == a;
    } else {
      var first, rest, e, u := map[c := xs[0]], ItemScopes(c, xs[1..]), Parts(AList, [Ident(c)]), a + xs[..1];
      assert ItemScopes(c, xs) == [first] + rest;
      assert Idents([c]) == [Ident(c)];
      ListOfNames(w, [c], xs[..1], Push(fr, first), depth, fuel);
      ListsAdd(a, xs[..1]);
      var g := RoundAdds(w, t, e, first, rest, Data(KList, a), Data(KList, xs[..1]), Data(KList, u), fr, depth, fuel);
      LoopCopiesItems(w, t, c, xs[1..], u, g, depth, fuel);
      JoinOn(a, xs, 1);
      DiffersThen(fr, g, ForEach(w, rest, Adds(t, e), g, depth, fuel).frame, t, Data(KList, u), Data(KList, a + xs));
    }
  }

  // `[p, q, ...]` is the list of what the names mean.
  lemma ListOfNames(w: World, ns: seq<Name>, vs: seq<Value>, fr: Frame, depth: nat, fuel: nat)
    requires fuel > 2 && |ns| == |vs| && forall i :: 0 <= i < |ns| ==> Lookup(fr, ns[i]) == Some(vs[i])
    ensures Eval(w, Parts(AList, Idents(ns)), fr, depth, fuel - 1) == Got(Data(KList, vs))
  {
    NamesInOrder(w, ns, vs, fr, depth, fuel - 2);
  }

  function Idents(ns: seq<Name>): seq<Expr> {
    if ns == [] then [] else [Ident(ns[0])] + Idents(ns[1..])
  }

  lemma {:induction false} NamesInOrder(w: World, ns: seq<Name>, vs: seq<Value>, fr: Frame, depth: nat, fuel: nat)
    requires fuel > 0 && |ns| == |vs| && forall i :: 0 <= i < |ns| ==> Lookup(fr, ns[i]) == Some(vs[i])
    ensures EvalAll(w, Idents(ns), fr, depth, fuel) == Got(vs)
    decreases |ns|
  {
    if ns != [] {
      NamesInOrder(w, ns[1..], vs[1..], fr, depth, fuel);
      assert Idents(ns)[1..] == Idents(ns[1..]);
      assert vs == [vs[0]] + vs[1..];
    }
  }

  // `for k, v in d: t += [k, v]` appends the keys and values in order.
  lemma {:induction false} LoopCopiesPairs(w: World, t: Name, k: Name, v: Name, d: seq<Value>, a: seq<Value>, fr: Frame, depth: nat, fuel: nat)
    requires fuel > 3 && t != k && t != v && k != v && Lookup(fr, t) == Some(Data(KList, a)) && |d| % 2 == 0
    ensures var r := ForEach(w, PairScopes(k, v, d), Adds(t, Parts(AList, Idents([k, v]))), fr, depth, fuel);
      r.flow == None && Differs(fr, r.frame, t, Data(KList, a + d))
    decreases |d|
  {
    if d == [] {
      assert a + d == a;
    } else {
      var first, rest, e, u := map[k := d[0]][v := d[1]], PairScopes(k, v, d[2..]), Parts(AList, Idents([k, v])), a + d[..2];
      assert PairScopes(k, v, d) == [first] + rest;
      ListOfNames(w, [k, v], d[..2], Push(fr, first), depth, fuel);
      ListsAdd(a, d[..2]);
      var g := RoundAdds(w, t, e, first, rest, Data(KList, a), Data(KList, d[..2]), Data(KList, u), fr, depth, fuel);
      LoopCopiesPairs(w, t, k, v, d[2..], u, g, depth, fuel);
      JoinOn(a, d, 2);
      DiffersThen(fr, g, ForEach(w, rest, Adds(t, e), g, depth, fuel).frame, t, Data(KList, u), Data(KList, a + d));
    }
  }

  // `for` over a text, a list or a dictionary, as statements.
  lemma ForText(w: World, t: Name, k: Name, e: Expr, s: string, a: string, fr: Frame, depth: nat, fuel: nat)
    requires fuel > 4 && t != k && Lookup(fr, t) == Some(Str(a)) && Eval(w, e, fr, depth, fuel - 1) == Got(Str(s))
    ensures var r := Step(w, For(k, None, e, Adds(t, Ident(k))), fr, depth, fuel);
      r.flow == None && Differs(fr, r.frame, t, Str(a + s))
  {
    LoopCopiesText(w, t, k, s, a, fr, depth, fuel - 1);
  }

  lemma ForItems(w: World, t: Name, k: Name, e: Expr, xs: seq<Value>, a: seq<Value>, fr: Frame, depth: nat, fuel: nat)
    requires fuel > 4 && t != k && Lookup(fr, t) == Some(Data(KList, a)) && Eval(w, e, fr, depth, fuel - 1) == Got(Data(KList, xs))
    ensures var r := Step(w, For(k, None, e, Adds(t, Parts(AList, [Ident(k)]))), fr, depth, fuel);
      r.flow == None && Differs(fr, r.frame, t, Data(KList, a + xs))
  {
    LoopCopiesItems(w, t, k, xs, a, fr, depth, fuel - 1);
  }

  lemma ForPairs(w: World, t: Name, k: Name, v: Name, e: Expr, d: seq<Value>, a: seq<Value>, fr: Frame, depth: nat, fuel: nat)
    requires fuel > 4 && t != k && t != v && k != v && Lookup(fr, t) == Some(Data(KList, a))
    requires Eval(w, e, fr, depth, fuel - 1) == Got(Data(KDict, d)) && |d| % 2 == 0
    ensures var r := Step(w, For(k, Some(v), e, Adds(t, Parts(AList, Idents([k, v])))), fr, depth, fuel);
      r.flow == None && Differs(fr, r.frame, t, Data(KList, a + d))
  {
    LoopCopiesPairs(w, t, k, v, d, a, fr, depth, fuel - 1);
  }

  // Only texts and lists have items to go over, and only dictionaries have pairs.
  lemma NothingToGoOver(w: World, k: Name, v: Option<Name>, e: Expr, o: Value, body: seq<Stmt>, fr: Frame, depth: nat, fuel: nat)
    requires fuel > 0 && Eval(w, e, fr, depth, fuel - 1) == Got(o)
    requires if v.Some? then !(o.Data? && o.kind.KDict?) else !o.Str? && !(o.Data? && o.kind.KList?)
    ensures Step(w, For(k, v, e, body), fr, depth, fuel) == Ran(fr, Some(Failed(NotIterable)))
  {
  }

  lemma OneMore(m: int)
    requires -0x8000_0000_0000_0000 <= m < 0x7fff_ffff_ffff_ffff
    ensures Apply(Add, Int(m), Int(1)) == Got(Int(m + 1))
  {
  }

  // `while i < n: i += 1` ends with `i` at `n`.
  lemma {:induction false} LoopCounts(w: World, i: Name, m: int, n: int, fr: Frame, depth: nat, fuel: nat)
    requires Lookup(fr, i) == Some(Int(m)) && -0x8000_0000_0000_0000 <= m <= n < 0x8000_0000_0000_0000 && fuel > n - m + 3
    ensures var r := Step(w, While(Binary(Lt, Ident(i), IntLit(n)), Adds(i, IntLit(1))), fr, depth, fuel);
      r.flow == None && Differs(fr, r.frame, i, Int(n))
    decreases n - m
  {
    var c := Binary(Lt, Ident(i), IntLit(n));
    var s := While(c, Adds(i, IntLit(1)));
    IntegerOrder(w, Ident(i), IntLit(n), m, n, fr, depth, fuel - 2);
    assert Truth(w, c, fr, depth, fuel - 1) == Got(m < n);
    if m < n {
      OneMore(m);
      AddsOnce(w, i, IntLit(1), map[], Int(m), Int(1), fr, depth, fuel - 1);
      var r := Block(w, Adds(i, IntLit(1)), map[], fr, depth, fuel - 1);
      LoopCounts(w, i, m + 1, n, r.frame, depth, fuel - 1);
      assert Step(w, s, fr, depth, fuel) == Again(w, s, r, depth, fuel - 1);
    } else {
      assert Step(w, s, fr, depth, fuel) == Ran(fr, None);
    }
  }

  // ------------------------------------------------------------------ choosing

  // The first condition that is true chooses the block; when none is, the last one runs.
  lemma {:induction false} FirstTrueArm(w: World, arms: seq<Arm>, els: seq<Stmt>, k: nat, fr: Frame, depth: nat, fuel: nat)
    requires fuel > 0 && k <= |arms|
    requires forall i :: 0 <= i < k ==> Eval(w, arms[i].cond, fr, depth, fuel - 1) == Got(Bool(false))
    requires k < |arms| ==> Eval(w, arms[k].cond, fr, depth, fuel - 1) == Got(Bool(true))
    ensures Step(w, If(arms, els), fr, depth, fuel) ==
      Block(w, if k < |arms| then arms[k].body else els, map[], fr, depth, fuel - 1)
  {
    FirstTrue(w, arms, els, k, fr, depth, fuel - 1);
  }

  lemma {:induction false} FirstTrue(w: World, arms: seq<Arm>, els: seq<Stmt>, k: nat, fr: Frame, depth: nat, fuel: nat)
    requires k <= |arms|
    requires forall i :: 0 <= i < k ==> Eval(w, arms[i].cond, fr, depth, fuel) == Got(Bool(false))
    requires k < |arms| ==> Eval(w, arms[k].cond, fr, depth, fuel) == Got(Bool(true))
    ensures StepIf(w, arms, els, fr, depth, fuel) ==
      Block(w, if k < |arms| then arms[k].body else els, map[], fr, depth, fuel)
    decreases k
  {
    if k > 0 {
      assert Truth(w, arms[0].cond, fr, depth, fuel) == Got(false);
      FirstTrue(w, arms[1..], els, k - 1, fr, depth, fuel);
    } else if arms != [] {
      assert Truth(w, arms[0].cond, fr, depth, fuel) == Got(true);
    }
  }

  // The pattern fits `v`, and these are the values of its names.
  ghost predicate PatternFits(p: Pattern, v: Value, s: Scope) {
    match p
    case Wildcard => s == map[]
    case Bind(n) => s.Keys == {n} && s[n] == v
    case Literal(e) => e.IntLit? && v == Int(e.n) && s == map[]
    case Variant(t, ns) =>
      v.Data? && v.kind == KVariant(t) &&
      if ns == [] then s == map[]
      else
        |ns| == |v.items| && s.Keys == SetOf(ns) &&
        forall i :: 0 <= i < |ns| && (forall j :: i < j < |ns| ==> ns[j] != ns[i]) ==> s[ns[i]] == v.items[i]
  }

  // An integer or a variant that is not this one.
  ghost predicate PatternMisses(p: Pattern, v: Value) {
    (p.Literal? && p.e.IntLit? && v != Int(p.e.n)) || (p.Variant? && !(v.Data? && v.kind == KVariant(p.tag)))
  }

  lemma FitsIff(w: World, p: Pattern, v: Value, s: Scope, fr: Frame, depth: nat, fuel: nat)
    requires fuel > 0 && PatternFits(p, v, s)
    ensures Fits(w, p, v, fr, depth, fuel) == Got(Some(s))
  {
    if p.Variant? && p.binds != [] {
      VariantFits(p.binds, v.items, s);
    } else if p.Bind? {
      assert s == map[p.name := v];
    } else if p.Literal? {
      assert Eval(w, p.e, fr, depth, fuel) == Got(v);
      assert EqValue(v, v);
    }
  }

  lemma VariantFits(ns: seq<Name>, vs: seq<Value>, s: Scope)
    requires |ns| == |vs| && s.Keys == SetOf(ns)
    requires forall i :: 0 <= i < |ns| && (forall j :: i < j < |ns| ==> ns[j] != ns[i]) ==> s[ns[i]] == vs[i]
    ensures s == Arguments(ns, vs)
  {
    var t := Arguments(ns, vs);
    ArgumentsAreNamed(ns, vs);
    forall n | n in t ensures s[n] == t[n] {
      var i := LastPlace(ns, n);
      ArgumentsByPlace(ns, vs, i);
    }
  }

  function LastPlace(ns: seq<Name>, n: Name): (i: nat)
    requires n in ns
    ensures i < |ns| && ns[i] == n && forall j :: i < j < |ns| ==> ns[j] != n
  {
    if ns[|ns| - 1] == n then |ns| - 1 else LastPlace(ns[..|ns| - 1], n)
  }

  lemma {:induction false} ArgumentsAreNamed(params: seq<Name>, args: seq<Value>)
    requires |params| == |args|
    ensures Arguments(params, args).Keys == SetOf(params)
    decreases |params|
  {
    if params != [] {
      var k := |params| - 1;
      ArgumentsAreNamed(params[..k], args[..k]);
      assert params == params[..k] + [params[k]];
    }
  }

  // `match` runs the first case whose pattern fits, with its names, or fails when none does.
  lemma FirstFittingCase(w: World, e: Expr, v: Value, cases: seq<Case>, k: nat, s: Scope, fr: Frame, depth: nat, fuel: nat)
    requires fuel > 1 && k <= |cases| && Eval(w, e, fr, depth, fuel - 1) == Got(v)
    requires forall i :: 0 <= i < k ==> PatternMisses(cases[i].pattern, v)
    requires k < |cases| ==> PatternFits(cases[k].pattern, v, s)
    ensures Step(w, Match(e, cases), fr, depth, fuel) ==
      if k < |cases| then Block(w, cases[k].body, s, fr, depth, fuel - 1) else Ran(fr, Some(Failed(Unmatched)))
  {
    FirstFitting(w, v, cases, k, s, fr, depth, fuel - 1);
  }

  lemma {:induction false} FirstFitting(w: World, v: Value, cases: seq<Case>, k: nat, s: Scope, fr: Frame, depth: nat, fuel: nat)
    requires fuel > 0 && k <= |cases|
    requires forall i :: 0 <= i < k ==> PatternMisses(cases[i].pattern, v)
    requires k < |cases| ==> PatternFits(cases[k].pattern, v, s)
    ensures StepMatch(w, v, cases, fr, depth, fuel) ==
      if k < |cases| then Block(w, cases[k].body, s, fr, depth, fuel) else Ran(fr, Some(Failed(Unmatched)))
    decreases k
  {
    if k > 0 {
      Misses(w, cases[0].pattern, v, fr, depth, fuel);
      FirstFitting(w, v, cases[1..], k - 1, s, fr, depth, fuel);
    } else if cases != [] {
      FitsIff(w, cases[0].pattern, v, s, fr, depth, fuel);
    }
  }

  lemma Misses(w: World, p: Pattern, v: Value, fr: Frame, depth: nat, fuel: nat)
    requires fuel > 0 && PatternMisses(p, v)
    ensures Fits(w, p, v, fr, depth, fuel) == Got(None)
  {
    if p.Literal? {
      assert Eval(w, p.e, fr, depth, fuel) == Got(Int(p.e.n));
      assert EqValue(Int(p.e.n), v) <==> v == Int(p.e.n);
    }
  }

  // ------------------------------------------------------------------ errors

  ghost predicate Carries(v: Value, x: Value) {
    v == Data(KError, [x])
  }

  // `try e` hands an error to whoever called the function, at once, and is `e` otherwise.
  lemma TryLeaves(w: World, e: Expr, v: Value, rest: seq<Stmt>, fr: Frame, depth: nat, fuel: nat)
    requires fuel > 2 && Eval(w, e, fr, depth, fuel - 2) == Got(v)
    ensures (exists x :: Carries(v, x)) ==>
      Exec(w, [Do(Unary(Try, e), None)] + rest, fr, depth, fuel) == Ran(fr, Some(Returned(v)))
    ensures !(exists x :: Carries(v, x)) ==> Eval(w, Unary(Try, e), fr, depth, fuel - 1) == Got(v)
  {
    var b := [Do(Unary(Try, e), None)] + rest;
    assert b[0] == Do(Unary(Try, e), None) && b[1..] == rest;
    if x :| Carries(v, x) {
      assert Eval(w, Unary(Try, e), fr, depth, fuel - 1) == Stop(Returned(v));
      assert Step(w, b[0], fr, depth, fuel) == Ran(fr, Some(Returned(v)));
    } else if IsError(v) {
      assert v.items == [v.items[0]];
      assert Carries(v, v.items[0]);
    }
  }

  // `let n = e catch c: c` gives what an error carries, and any other value as it is.
  lemma CatchGivesTheCarried(w: World, n: Name, e: Expr, c: Name, v: Value, x: Value, fr: Frame, depth: nat, fuel: nat)
    requires fuel > 1 && Eval(w, e, fr, depth, fuel - 1) == Got(v) && fr.scopes != [] && n !in fr.scopes[|fr.scopes| - 1]
    requires Carries(v, x) || (!IsError(v) && x == v)
    ensures var r := Step(w, Let(n, e, Some(Catch(c, [Do(Ident(c), None)]))), fr, depth, fuel);
      r.flow == None && Differs(fr, r.frame, n, x)
  {
    var k := Catch(c, [Do(Ident(c), None)]);
    DeclareAddsOne(fr, n, x);
    if IsError(v) {
      var inside := Push(fr, map[c := x]);
      assert Lookup(inside, c) == Some(x);
      assert !Leaves(k.body) by { assert !StmtLeaves(k.body[0]); }
      assert FallbackOf(k) == Some(Ident(c));
      assert k.body[..|k.body| - 1] == [];
      assert Pop(inside) == fr;
      assert Handle(w, k, x, true, fr, depth, fuel - 1) == Handling(fr, Got(Some(x)));
    }
  }

  // ------------------------------------------------------------------ values as text

  // Plain words, and text in quotes with a backslash before quotes and backslashes only.
  lemma ShownPlainly(s: string)
    requires forall i :: 0 <= i < |s| ==> s[i] != '"' && s[i] != '\\'
    ensures Repr(None_) == "none" && Repr(Bool(true)) == "true" && Repr(Bool(false)) == "false"
    ensures Repr(Str(s)) == "\"" + s + "\"" && Display(Str(s)) == s
    ensures Escaped("\"") == "\\\"" && Escaped("\\") == "\\\\"
  {
    NothingEscaped(s);
    assert "\""[1..] == "" && "\\"[1..] == "" && Escaped("") == "";
  }

  lemma {:induction false} NothingEscaped(s: string)
    requires forall i :: 0 <= i < |s| ==> s[i] != '"' && s[i] != '\\'
    ensures Escaped(s) == s
  {
    if s != "" { NothingEscaped(s[1..]); }
  }

  lemma Regroup(a: string, b: string, c: string)
    ensures a + b + c == a + (b + c)
  {
  }

  lemma EscapedFirst(c: char, s: string)
    ensures Escaped([c] + s) == Escaped([c]) + Escaped(s)
  {
    assert ([c] + s)[1..] == s && [c][1..] == "";
  }

  lemma {:induction false} EscapedJoin(s: string, t: string)
    ensures Escaped(s + t) == Escaped(s) + Escaped(t)
    decreases |s|
  {
    if s == "" {
      assert s + t == t;
    } else {
      var c, r := s[0], s[1..];
      EscapedJoin(r, t);
      assert s == [c] + r;
      Regroup([c], r, t);
      EscapedFirst(c, r);
      EscapedFirst(c, r + t);
      Regroup(Escaped([c]), Escaped(r), Escaped(t));
    }
  }

  ghost predicate ShownAs(v: Value, open: string, inner: string, close: string) {
    Repr(v) == open + inner + close
  }

  // Items are shown in order with commas between them, and the brackets say what holds them.
  lemma OneMoreShown(xs: seq<Value>, y: Value)
    requires xs != []
    ensures Repr(Data(KList, [])) == "[]" && Repr(Data(KTuple, [])) == "()" && Repr(Data(KDict, [])) == "{}"
    ensures Repr(Data(KList, [y])) == "[" + Repr(y) + "]" && Repr(Data(KTuple, [y])) == "(" + Repr(y) + ")"
    ensures exists t ::
      ShownAs(Data(KList, xs), "[", t, "]") && ShownAs(Data(KList, xs + [y]), "[", t + ", " + Repr(y), "]") &&
      ShownAs(Data(KTuple, xs), "(", t, ")") && ShownAs(Data(KTuple, xs + [y]), "(", t + ", " + Repr(y), ")")
  {
    EachShown(xs, y);
    OneEach(y);
    CommasMore(ReprEach(xs), Repr(y));
    var t := Commas(ReprEach(xs));
    Regroup(t, ", ", Repr(y));
    assert ShownAs(Data(KList, xs), "[", t, "]");
  }

  // Variants, errors, dictionaries and functions.
  lemma ShownKinds(t: Name, s: string, k: Value, v: Value, f: FnDecl, env: Scope)
    ensures Repr(Data(KVariant(t), [])) == t && Repr(Data(KVariant(t), [v])) == t + "(" + Repr(v) + ")"
    ensures Repr(Data(KError, [Str(s)])) == "error(\"" + s + "\")"
    ensures v.Data? && v.kind.KVariant? ==> Repr(Data(KError, [v])) == "error(" + Repr(v) + ")"
    ensures Repr(Data(KDict, [k, v])) == "{" + Repr(k) + ": " + Repr(v) + "}"
    ensures Repr(Func(f)) == "<fn " + f.name + ">"
    ensures Repr(Closure(f, env)) == if f.name != "" && f.name[0] == '\U{03BB}' then "<fn anonymous function>" else "<fn " + f.name + ">"
  {
    OneEach(v);
    assert [k, v][2..] == [] && ReprPairs([]) == [];
    assert ReprPairs([k, v]) == [Repr(k) + ": " + Repr(v)];
  }

  lemma OneEach(y: Value)
    ensures Commas(ReprEach([y])) == Repr(y) && Commas(ReprEach([])) == "" && Commas(ReprPairs([])) == ""
  {
    assert [y][1..] == [] && ReprEach([]) == [] && ReprPairs([]) == [];
    assert ReprEach([y]) == [Repr(y)];
  }

  lemma {:induction false} EachShown(xs: seq<Value>, y: Value)
    ensures ReprEach(xs + [y]) == ReprEach(xs) + [Repr(y)] && |ReprEach(xs)| == |xs|
    decreases |xs|
  {
    if xs == [] {
      assert xs + [y] == [y] && [y][1..] == [];
      assert ReprEach([]) == [];
    } else {
      EachShown(xs[1..], y);
      assert (xs + [y])[1..] == xs[1..] + [y];
    }
  }

  lemma {:induction false} CommasMore(xs: seq<string>, y: string)
    ensures Commas(xs + [y]) == if xs == [] then y else Commas(xs) + (", " + y)
    decreases |xs|
  {
    var all := xs + [y];
    if |xs| > 1 {
      assert all[1..] == xs[1..] + [y] && all[0] == xs[0];
      CommasMore(xs[1..], y);
      Regroup(xs[0] + ", ", Commas(xs[1..]), ", " + y);
    } else if |xs| == 1 {
      assert all[1..] == [y] && all[0] == xs[0];
      assert Commas([y]) == y;
      Regroup(xs[0], ", ", y);
    }
  }

  // An f-string puts texts as they are, and other values as they are shown, one after the other.
  lemma TextOfParts(w: World, a: Name, b: Name, s: string, v: Value, fr: Frame, depth: nat, fuel: nat)
    requires fuel > 2 && Lookup(fr, a) == Some(Str(s)) && Lookup(fr, b) == Some(v) && !v.Str?
    ensures Eval(w, Parts(AText, Idents([a, b])), fr, depth, fuel - 1) == Got(Str(s + Repr(v)))
  {
    NamesInOrder(w, [a, b], [Str(s), v], fr, depth, fuel - 2);
    assert DisplayAll([]) == "" && [v][1..] == [] && [Str(s), v][1..] == [v];
    assert DisplayAll([v]) == Repr(v);
    assert DisplayAll([Str(s), v]) == s + Repr(v);
  }

  // ------------------------------------------------------------------ what names and literals make

  // The parts of a tuple are by number, and a dictionary has what was put in.
  lemma LiteralsHold(w: World, ns: seq<Name>, vs: seq<Value>, k: nat, fr: Frame, depth: nat, fuel: nat)
    requires fuel > 3 && |ns| == |vs| && forall i :: 0 <= i < |ns| ==> Lookup(fr, ns[i]) == Some(vs[i])
    ensures Eval(w, Field(Parts(ATuple, Idents(ns)), k), fr, depth, fuel) == if k < |vs| then Got(vs[k]) else Stop(Failed(BadField))
    ensures |ns| == 2 && Solid(vs[0]) ==> Eval(w, Index(Parts(ADict, Idents(ns)), Ident(ns[0])), fr, depth, fuel) == Got(vs[1])
  {
    NamesInOrder(w, ns, vs, fr, depth, fuel - 2);
    assert Eval(w, Parts(ATuple, Idents(ns)), fr, depth, fuel - 1) == Got(Data(KTuple, vs));
    if |ns| == 2 && Solid(vs[0]) {
      var d := Parts(ADict, Idents(ns));
      assert Eval(w, d, fr, depth, fuel - 1) == Got(Data(KDict, vs));
      assert Eval(w, Ident(ns[0]), fr, depth, fuel - 1) == Got(vs[0]);
      EqualIff(vs[0], vs[0]);
      FirstKeyCounts(vs, vs[0], 0);
    }
  }

  // A name that means nothing here stands for a function, for `error`, or for a variant: on its
  // own, only for one that carries nothing.
  lemma OtherNames(w: World, n: Name, fr: Frame, depth: nat, fuel: nat)
    requires fuel > 0 && Lookup(fr, n).None? && n != "error"
    ensures var r := Eval(w, Ident(n), fr, depth, fuel);
      (n in w.fns ==> r == Got(Func(w.fns[n]))) &&
      (n !in w.fns && n in w.variants && w.variants[n] == 0 ==> r == Got(Data(KVariant(n), []))) &&
      (n !in w.fns && (n !in w.variants || w.variants[n] > 0) ==> r == Stop(Failed(NoSuchName)))
  {
  }

  // A call by name: a local function is called, and any other local hides nothing.
  lemma CallByName(w: World, n: Name, es: seq<Expr>, vs: seq<Value>, fr: Frame, depth: nat, fuel: nat)
    requires fuel > 0 && EvalAll(w, es, fr, depth, fuel - 1) == Got(vs)
    ensures var r := Eval(w, Call(Ident(n), es), fr, depth, fuel);
      var local := Lookup(fr, n);
      if local.Some? && (local.value.Func? || local.value.Closure?) then r == CallValue(w, local.value, vs, depth, fuel - 1)
      else if n in w.fns then r == CallValue(w, Func(w.fns[n]), vs, depth, fuel - 1)
      else if n in w.variants then
        r == if |vs| == w.variants[n] then Got(Data(KVariant(n), vs)) else Stop(Failed(if |vs| < w.variants[n] then MissingArg else ExtraArg))
      else n != "error" && local != Some(MakesError) ==> r == Stop(Failed(NoSuchName))
  {
    var f := Callee(w, Ident(n), fr, depth, fuel - 1);
    assert Eval(w, Call(Ident(n), es), fr, depth, fuel) == if f.Stop? then f else CallValue(w, f.v, vs, depth, fuel - 1);
  }

  // `error(x)` is an error that carries a text as it is, a variant as it is, and nothing as "".
  lemma ErrorCarries(w: World, v: Value, depth: nat, fuel: nat)
    ensures v.Str? || (v.Data? && v.kind.KVariant?) ==> CallValue(w, MakesError, [v], depth, fuel) == Got(Data(KError, [v]))
    ensures !v.Str? && !(v.Data? && v.kind.KVariant?) ==> CallValue(w, MakesError, [v], depth, fuel) == Got(Data(KError, [Str(Repr(v))]))
    ensures CallValue(w, MakesError, [], depth, fuel) == Got(Data(KError, [Str("")]))
  {
  }

  lemma ConditionChooses(w: World, c: Expr, a: Expr, b: Expr, fr: Frame, depth: nat, fuel: nat)
    requires fuel > 0
    ensures var t := Eval(w, c, fr, depth, fuel - 1);
      var r := Eval(w, IfExpr(c, a, b), fr, depth, fuel);
      (t == Got(Bool(true)) ==> r == Eval(w, a, fr, depth, fuel - 1)) &&
      (t == Got(Bool(false)) ==> r == Eval(w, b, fr, depth, fuel - 1)) &&
      (t.Got? && !t.v.Bool? ==> r == Stop(Failed(NotBool))) && (t.Stop? ==> r == Stop(t.flow))
  {
    var t := Eval(w, c, fr, depth, fuel - 1);
    assert Truth(w, c, fr, depth, fuel - 1) == if t.Stop? then Stop(t.flow) else if t.v.Bool? then Got(t.v.b) else Stop(Failed(NotBool));
  }

  // `a else b` is `b` only where `a` is none; `not` turns a truth round.
  lemma ElseAndNot(w: World, a: Expr, b: Expr, x: Value, fr: Frame, depth: nat, fuel: nat)
    requires fuel > 0 && Eval(w, a, fr, depth, fuel - 1) == Got(x)
    ensures Eval(w, OrElse(a, b), fr, depth, fuel) == if x == None_ then Eval(w, b, fr, depth, fuel - 1) else Got(x)
    ensures Eval(w, Unary(Not, a), fr, depth, fuel) ==
      if x == Bool(true) then Got(Bool(false)) else if x == Bool(false) then Got(Bool(true)) else Stop(Failed(NotBool))
    ensures !x.Int? ==> Eval(w, Unary(Neg, a), fr, depth, fuel) == Stop(Failed(BadOperand))
  {
  }

  // ------------------------------------------------------------------ leaving loops, and declaring

  // `continue` goes on with the next round, `break` ends the loop, and `return` leaves it too.
  lemma {:induction false} LeavingLoops(w: World, rounds: seq<Scope>, rest: seq<Stmt>, fr: Frame, depth: nat, fuel: nat)
    requires fuel > 0
    ensures ForEach(w, rounds, [Continue] + rest, fr, depth, fuel) == Ran(fr, None)
    ensures ForEach(w, rounds, [Break] + rest, fr, depth, fuel) == Ran(fr, None)
    ensures ForEach(w, rounds, [Return(None)] + rest, fr, depth, fuel) ==
      Ran(fr, if rounds == [] then None else Some(Returned(None_)))
    decreases |rounds|
  {
    if rounds != [] {
      forall s: Stmt | s == Continue || s == Break || s == Return(None)
        ensures Block(w, [s] + rest, rounds[0], fr, depth, fuel) ==
          Ran(fr, Some(if s == Continue then Continued else if s == Break then Broke else Returned(None_)))
      {
        AtOnce(w, s, rest, rounds[0], fr, depth, fuel);
      }
      LeavingLoops(w, rounds[1..], rest, fr, depth, fuel);
    }
  }

  lemma AtOnce(w: World, s: Stmt, rest: seq<Stmt>, inner: Scope, fr: Frame, depth: nat, fuel: nat)
    requires fuel > 0 && (s == Continue || s == Break || s == Return(None))
    ensures Block(w, [s] + rest, inner, fr, depth, fuel) ==
      Ran(fr, Some(if s == Continue then Continued else if s == Break then Broke else Returned(None_)))
  {
    var b := [s] + rest;
    var inside := Push(fr, inner);
    var why := if s == Continue then Continued else if s == Break then Broke else Returned(None_);
    assert Step(w, s, inside, depth, fuel) == Ran(inside, Some(why));
    assert Exec(w, b, inside, depth, fuel) == Ran(inside, Some(why)) by { assert b[0] == s; }
    assert Pop(inside) == fr;
  }

  // `while true: break` ends at once, and `while true: continue` goes round again.
  lemma WhileLeaves(w: World, fr: Frame, depth: nat, fuel: nat)
    requires fuel > 3
    ensures Step(w, While(BoolLit(true), [Break]), fr, depth, fuel) == Ran(fr, None)
    ensures Step(w, While(BoolLit(true), [Continue]), fr, depth, fuel) == Step(w, While(BoolLit(true), [Continue]), fr, depth, fuel - 1)
  {
    assert Truth(w, BoolLit(true), fr, depth, fuel - 1) == Got(true);
    AtOnce(w, Break, [], map[], fr, depth, fuel - 1);
    AtOnce(w, Continue, [], map[], fr, depth, fuel - 1);
    assert [Break] + [] == [Break] && [Continue] + [] == [Continue];
    var s := While(BoolLit(true), [Continue]);
    assert Step(w, s, fr, depth, fuel) == Step(w, s, fr, depth, fuel - 1);
  }

  // `let n = e` adds the name unless its block has it already, and what a block declares is gone after it.
  lemma LetDeclares(w: World, n: Name, e: Expr, v: Value, fr: Frame, depth: nat, fuel: nat)
    requires fuel > 1 && Eval(w, e, fr, depth, fuel - 1) == Got(v) && fr.scopes != []
    ensures var r := Step(w, Let(n, e, None), fr, depth, fuel);
      if n in fr.scopes[|fr.scopes| - 1] then r == Ran(fr, Some(Failed(Redeclared)))
      else r.flow == None && Differs(fr, r.frame, n, v)
  {
    DeclareAddsOne(fr, n, v);
  }

  // `n = e` changes a name that means something, and is refused for one that does not.
  lemma AssignStores(w: World, n: Name, e: Expr, v: Value, fr: Frame, depth: nat, fuel: nat)
    requires fuel > 1 && Eval(w, e, fr, depth, fuel - 1) == Got(v)
    ensures var r := Step(w, Assign(Ident(n), None, e, None), fr, depth, fuel);
      if Lookup(fr, n).None? then r == Ran(fr, Some(Failed(Undeclared)))
      else r.flow == None && Differs(fr, r.frame, n, v)
  {
    AssignChangesOne(fr, n, v);
    assert EvalHandled(w, e, None, true, fr, depth, fuel - 1) == Handling(fr, Got(Some(v)));
  }

  // `let (a, b) = e` takes a tuple apart in order, and refuses anything else.
  lemma PairTakenApart(w: World, a: Name, b: Name, e: Expr, v: Value, fr: Frame, depth: nat, fuel: nat)
    requires fuel > 1 && Eval(w, e, fr, depth, fuel - 1) == Got(v) && fr.scopes != [] && a != b
    requires a !in fr.scopes[|fr.scopes| - 1] && b !in fr.scopes[|fr.scopes| - 1]
    ensures var r := Step(w, LetTuple([a, b], e), fr, depth, fuel);
      if v.Data? && v.kind.KTuple? && |v.items| == 2 then
        r.flow == None && Lookup(r.frame, a) == Some(v.items[0]) && Lookup(r.frame, b) == Some(v.items[1]) &&
        forall m :: m != a && m != b ==> Lookup(r.frame, m) == Lookup(fr, m)
      else r == Ran(fr, Some(Failed(NotTuple)))
  {
    if v.Data? && v.kind.KTuple? && |v.items| == 2 {
      var x, y := v.items[0], v.items[1];
      var g := Declare(fr, a, x);
      DeclareAddsOne(fr, a, x);
      DeclareAddsOne(g, b, y);
      assert DeclareAll(fr, [a, b], v.items) == Ran(Declare(g, b, y), None) by {
        assert [a, b][1..] == [b] && [b][1..] == [] && v.items[1..] == [y];
        assert DeclareAll(g, [b], [y]) == Ran(Declare(g, b, y), None);
      }
    }
  }

  // A closure's own name means the closure inside it, whatever the closure holds of that name.
  lemma OwnNameComesFirst(d: FnDecl, env: Scope, args: seq<Value>)
    requires |args| == |d.params| && d.name !in d.params && (d.name == "" || d.name[0] != '\U{03BB}')
    ensures Lookup(Frame(Captured(Closure(d, env)), [Arguments(d.params, args)]), d.name) == Some(Closure(d, env))
  {
    ArgumentsAreNamed(d.params, args);
    var fr := Frame(Captured(Closure(d, env)), [Arguments(d.params, args)]);
    assert fr.scopes[..0] == [];
    assert LookupIn([], d.name) == None;
  }
}
