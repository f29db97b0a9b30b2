/**
 * The grammar from the other side (micai/src/regex.rs): how a tree is written as a pattern with as
 * few parentheses as precedence allows, and that reading such a pattern gives the tree back.
 */
module RegexPrinting {
  import opened RegexSyntax
  import opened RegexMeaning
  import opened RegexSpelling
  import opened RegexGrammar
  import opened Texts

  // ------------------------------------------------------------------ writing

  predicate IsSpecial(c: char) {
    c == '(' || c == ')' || c == '[' || c == '.' || c == '^' || c == '$' || c == '\\' ||
    c == '*' || c == '+' || c == '?' || c == '|'
  }

  /** A letter that means something else after a backslash. */
  predicate IsTaken(c: char) {
    EscClass(c).Some? || EscChar(c) != c
  }

  /** One range inside brackets. A single character is escaped unless that would change it. */
  function MemberOf(r: Range): Member {
    if r.lo != r.hi then Span(r.lo, r.hi) else if IsTaken(r.lo) then Single(r.lo) else Escaped(r.lo)
  }

  /** Ranges that can be written: a proper range begins with no character that brackets read otherwise. */
  predicate RangeOk(r: Range) {
    r.lo == r.hi || (r.lo != '\\' && r.lo != ']' && r.lo != '^' && r.lo != '-' && r.hi != ']')
  }

  function MembersOf(rs: seq<Range>): seq<Member> {
    if rs == [] then [] else [MemberOf(rs[0])] + MembersOf(rs[1..])
  }

  function SpellingOf(x: Leaf): Spelling {
    match x
    case Lit(c) => if IsSpecial(c) then Escape(c) else Plain(c)
    case Dot => Plain('.')
    case Bol => Plain('^')
    case Eol => Plain('$')
    case Set(cls) => Bracket(cls.neg, MembersOf(cls.ranges))
  }

  function ShowLeaf(x: Leaf): string {
    SpellText(SpellingOf(x))
  }

  predicate LeafOk(x: Leaf) {
    x.Set? ==> x.cls.ranges != [] && forall k :: 0 <= k < |x.cls.ranges| ==> RangeOk(x.cls.ranges[k])
  }

  predicate Writable(t: Re) {
    match t
    case Empty => true
    case One(x) => LeafOk(x)
    case Cat(l, r) => Writable(l) && Writable(r)
    case Alt(l, r) => Writable(l) && Writable(r)
    case Rep(_, b, _) => Writable(b)
    case Group(_, b) => Writable(b)
  }

  /** How many of the four levels a tree of this kind passes through before it is taken apart. */
  function Turn(level: nat, t: Re): int {
    if t.Alt? then (if level == 0 then 0 else 4 - level)
    else if t.Cat? || t.Empty? then (if level >= 2 then 5 - level else 1 - level)
    else if t.Rep? then (if level == 3 then 3 else 2 - level)
    else 3 - level
  }

  /** An alternation. */
  function ShowAlt(t: Re): string
    decreases t, Turn(0, t)
  {
    if t.Alt? then ShowAlt(t.left) + "|" + ShowCat(t.right) else ShowCat(t)
  }

  /** A sequence. */
  function ShowCat(t: Re): string
    decreases t, Turn(1, t)
  {
    if t.Cat? then ShowCat(t.left) + ShowRep(t.right) else if t.Empty? then "" else ShowRep(t)
  }

  /** A repetition. */
  function ShowRep(t: Re): string
    decreases t, Turn(2, t)
  {
    if t.Rep? then ShowAtom(t.body) + [OpChar(t.op)] + (if t.lazy then "?" else "") else ShowAtom(t)
  }

  /** An atom. What is not one goes in a group that captures nothing. */
  function ShowAtom(t: Re): string
    decreases t, Turn(3, t)
  {
    if t.One? then ShowLeaf(t.leaf)
    else if t.Group? then "(" + ShowAlt(t.body) + ")"
    else "(?:" + ShowAlt(t) + ")"
  }

  // ------------------------------------------------------------------ the tree that reading gives

  /** The reader starts every sequence with nothing and adds to it. */
  function Read0(t: Re): Re
    decreases t, Turn(0, t)
  {
    if t.Alt? then Alt(Read0(t.left), Read1(Empty, t.right)) else Read1(Empty, t)
  }

  function Read1(acc: Re, t: Re): Re
    decreases t, Turn(1, t)
  {
    if t.Cat? then Cat(Read1(acc, t.left), Read2(t.right)) else if t.Empty? then acc else Cat(acc, Read2(t))
  }

  function Read2(t: Re): Re
    decreases t, Turn(2, t)
  {
    if t.Rep? then Rep(t.op, Read3(t.body), t.lazy) else Read3(t)
  }

  function Read3(t: Re): Re
    decreases t, Turn(3, t)
  {
    if t.One? then t else if t.Group? then Group(t.index, Read0(t.body)) else Read0(t)
  }

  // ------------------------------------------------------------------ a derivation inside a longer text

  function Moved(d: Part, n: nat): (r: Part)
    ensures r.t == d.t && Covers(r, d.from + n, d.to + n, d.g, d.k)
    ensures IsSeq(r) == IsSeq(d) && IsSide(r) == IsSide(d) && IsAtom(r) == IsAtom(d) && IsItem(r) == IsItem(d)
    decreases d
  {
    Part(d.from + n, d.to + n, d.g, d.k, d.t,
      match d.how
      case Nothing => Nothing
      case Piece(x) => Piece(x)
      case Pair(a, b) => Pair(Moved(a, n), Moved(b, n))
      case Bar(a, b) => Bar(Moved(a, n), Moved(b, n))
      case Round(b) => Round(Moved(b, n))
      case Capture(b) => Capture(Moved(b, n))
      case Wrap(b) => Wrap(Moved(b, n)))
  }

  /** `x` lies in `s` at `n`. */
  ghost predicate Within(s: string, n: nat, x: string) {
    n + |x| <= |s| && forall i :: 0 <= i < |x| ==> s[n + i] == x[i]
  }

  lemma CharMoves(s: string, n: nat, x: string, i: nat, c: char)
    requires Within(s, n, x) && CharAt(x, i, c)
    ensures CharAt(s, n + i, c)
  {
  }

  lemma TextMoves(s: string, n: nat, x: string, i: nat, y: string)
    requires Within(s, n, x) && Has(x, i, y)
    ensures Has(s, n + i, y)
  {
    HasIsSlice(x, i, y);
    HasIsSlice(s, n + i, y);
    forall k | 0 <= k < |y| ensures s[n + i..n + i + |y|][k] == y[k] {
      assert x[i..i + |y|][k] == y[k];
      assert s[n + (i + k)] == x[i + k];
    }
  }

  lemma {:induction false} Moves(s: string, n: nat, x: string, d: Part)
    requires Within(s, n, x) && Derives(x, d)
    ensures Derives(s, Moved(d, n))
    decreases d
  {
    if d.how.Piece? {
      TextMoves(s, n, x, d.from, SpellText(d.how.x));
    } else if d.how.Pair? {
      PairMoves(s, n, x, d);
    } else if d.how.Bar? {
      BarMoves(s, n, x, d);
    } else if d.how.Round? {
      RoundMoves(s, n, x, d);
    } else if d.how.Capture? {
      CaptureMoves(s, n, x, d);
    } else if d.how.Wrap? {
      WrapMoves(s, n, x, d);
    }
  }

  lemma {:induction false} PairMoves(s: string, n: nat, x: string, d: Part)
    requires Within(s, n, x) && Derives(x, d) && d.how.Pair?
    ensures Derives(s, Moved(d, n))
    decreases d, 0
  {
    var a, b := d.how.init, d.how.item;
    Moves(s, n, x, a);
    Moves(s, n, x, b);
    if a.how.Pair? { CharMoves(s, n, x, b.from, x[b.from]); }
  }

  lemma {:induction false} BarMoves(s: string, n: nat, x: string, d: Part)
    requires Within(s, n, x) && Derives(x, d) && d.how.Bar?
    ensures Derives(s, Moved(d, n))
    decreases d, 0
  {
    Moves(s, n, x, d.how.left);
    Moves(s, n, x, d.how.right);
    CharMoves(s, n, x, d.how.left.to, '|');
  }

  lemma {:induction false} RoundMoves(s: string, n: nat, x: string, d: Part)
    requires Within(s, n, x) && Derives(x, d) && d.how.Round?
    ensures Derives(s, Moved(d, n))
    decreases d, 0
  {
    var b := d.how.body;
    Moves(s, n, x, b);
    CharMoves(s, n, x, b.to, OpChar(d.t.op));
    if d.t.lazy { CharMoves(s, n, x, b.to + 1, '?'); }
  }

  lemma {:induction false} CaptureMoves(s: string, n: nat, x: string, d: Part)
    requires Within(s, n, x) && Derives(x, d) && d.how.Capture?
    ensures Derives(s, Moved(d, n))
    decreases d, 0
  {
    var b := d.how.body;
    Moves(s, n, x, b);
    CharMoves(s, n, x, d.from, '(');
    CharMoves(s, n, x, b.to, ')');
    CharMoves(s, n, x, b.from, x[b.from]);
    if b.from < b.to { CharMoves(s, n, x, b.from + 1, x[b.from + 1]); }
  }

  lemma {:induction false} WrapMoves(s: string, n: nat, x: string, d: Part)
    requires Within(s, n, x) && Derives(x, d) && d.how.Wrap?
    ensures Derives(s, Moved(d, n))
    decreases d, 0
  {
    Moves(s, n, x, d.how.body);
    CharMoves(s, n, x, d.from, '(');
    CharMoves(s, n, x, d.from + 1, '?');
    CharMoves(s, n, x, d.from + 2, ':');
    CharMoves(s, n, x, d.how.body.to, ')');
  }

  // ------------------------------------------------------------------ derivations put together

  lemma PairWhole(x: string, y: string, a: Part, b: Part) returns (d: Part)
    requires Whole(x, a) && Whole(y, b) && IsSeq(a) && IsItem(b) && a.k == b.g && y != "" && !IsSuffixChar(y[0])
    ensures Whole(x + y, d) && IsSeq(d) && d.g == a.g && d.k == b.k && d.t == Cat(a.t, b.t)
  {
    var s, b' := x + y, Moved(b, |x|);
    Moves(s, 0, x, a);
    Moves(s, |x|, y, b);
    d := Part(0, |s|, a.g, b.k, Cat(a.t, b.t), Pair(Moved(a, 0), b'));
  }

  lemma BarWhole(x: string, y: string, a: Part, b: Part) returns (d: Part)
    requires Whole(x, a) && Whole(y, b) && IsSide(a) && IsSeq(b) && a.k == b.g
    ensures Whole(x + "|" + y, d) && IsSide(d) && d.g == a.g && d.k == b.k && d.t == Alt(a.t, b.t)
  {
    var s := x + "|" + y;
    Moves(s, 0, x, a);
    Moves(s, |x| + 1, y, b);
    d := Part(0, |s|, a.g, b.k, Alt(a.t, b.t), Bar(Moved(a, 0), Moved(b, |x| + 1)));
  }

  lemma RoundWhole(x: string, op: Op, lazy: bool, b: Part) returns (d: Part)
    requires Whole(x, b) && IsAtom(b)
    ensures Whole(x + [OpChar(op)] + (if lazy then "?" else ""), d) && IsItem(d) && d.g == b.g && d.k == b.k && d.t == Rep(op, b.t, lazy)
  {
    var s := x + [OpChar(op)] + if lazy then "?" else "";
    Moves(s, 0, x, b);
    d := Part(0, |s|, b.g, b.k, Rep(op, b.t, lazy), Round(Moved(b, 0)));
  }

  lemma CaptureWhole(x: string, b: Part) returns (d: Part)
    requires Whole(x, b) && IsSide(b) && b.g > 0 && StartsPlain(x)
    ensures Whole("(" + x + ")", d) && IsAtom(d) && d.g == b.g - 1 && d.k == b.k && d.t == Group(b.g, b.t)
  {
    var s := "(" + x + ")";
    Moves(s, 1, x, b);
    d := Part(0, |s|, b.g - 1, b.k, Group(b.g, b.t), Capture(Moved(b, 1)));
  }

  lemma WrapWhole(x: string, b: Part) returns (d: Part)
    requires Whole(x, b) && IsSide(b)
    ensures Whole("(?:" + x + ")", d) && IsAtom(d) && d.g == b.g && d.k == b.k && d.t == b.t
  {
    var s := "(?:" + x + ")";
    Moves(s, 3, x, b);
    d := Part(0, |s|, b.g, b.k, b.t, Wrap(Moved(b, 3)));
  }

  // ------------------------------------------------------------------ what is written has a derivation

  // ---- no text begins with a sign

  ghost predicate StartsPlain(x: string) {
    x != "" ==> !IsSuffixChar(x[0])
  }

  lemma ShowStarts(t: Re)
    ensures ShowRep(t) != "" && !IsSuffixChar(ShowRep(t)[0])
  {
    var a := if t.Rep? then t.body else t;
    assert ShowAtom(a) != "" && !IsSuffixChar(ShowAtom(a)[0]);
  }

  lemma {:induction false} SideShown(t: Re)
    ensures StartsPlain(ShowAlt(t))
    decreases t
  {
    if t.Alt? {
      SideShown(t.left);
    } else {
      SeqShown(t);
    }
  }

  lemma {:induction false} SeqShown(t: Re)
    ensures StartsPlain(ShowCat(t))
    decreases t
  {
    if t.Cat? {
      SeqShown(t.left);
      ShowStarts(t.right);
    } else if !t.Empty? {
      ShowStarts(t);
    }
  }

  // ---- leaves are spelled

  lemma {:induction false} MembersSpelled(rs: seq<Range>, first: bool)
    requires forall k :: 0 <= k < |rs| ==> RangeOk(rs[k])
    ensures MembersOk(MembersOf(rs), first) && MembersRanges(MembersOf(rs)) == rs
    ensures !CharAt(MembersText(MembersOf(rs)), 0, '-') && !CharAt(MembersText(MembersOf(rs)), 0, '^')
    decreases |rs|
  {
    if rs != [] {
      var m, rest := MemberOf(rs[0]), MembersOf(rs[1..]);
      MembersSpelled(rs[1..], false);
      assert MembersOf(rs)[1..] == rest;
      assert MemberRanges(m) == [rs[0]];
      assert rs == [rs[0]] + rs[1..];
      assert MemberOk(m, first, MembersText(rest));
    }
  }

  lemma LeafSpelled(x: Leaf)
    requires LeafOk(x)
    ensures SpellOk(SpellingOf(x)) && SpellLeaf(SpellingOf(x)) == x
  {
    if x.Set? { MembersSpelled(x.cls.ranges, true); }
  }

  /** A tree to be written with its groups numbered after `g`. */
  predicate CanBeWritten(t: Re, g: nat) {
    Writable(t) && Numbered(t, g) && g + Count(t) < MAX_GROUPS
  }

  /** `d` derives `x` as the tree `r`, with the groups of `t` after `g`. */
  ghost predicate For(d: Part, x: string, t: Re, g: nat, r: Re) {
    Whole(x, d) && d.g == g && d.k == g + Count(t) && d.t == r
  }

  lemma {:induction false} AltWritten(t: Re, g: nat) returns (d: Part)
    requires CanBeWritten(t, g)
    ensures For(d, ShowAlt(t), t, g, Read0(t)) && IsSide(d)
    decreases t, Turn(0, t), 0
  {
    if t.Alt? {
      var a := AltWritten(t.left, g);
      var b := CatWritten(t.right, g + Count(t.left));
      d := BarWhole(ShowAlt(t.left), ShowCat(t.right), a, b);
    } else {
      d := CatWritten(t, g);
    }
  }

  lemma {:induction false} CatWritten(t: Re, g: nat) returns (d: Part)
    requires CanBeWritten(t, g)
    ensures For(d, ShowCat(t), t, g, Read1(Empty, t)) && IsSeq(d)
    decreases t, Turn(1, t), 1
  {
    var none := Part(0, 0, g, g, Empty, Nothing);
    if t.Cat? {
      var a := CatWritten(t.left, g);
      var b := RepWritten(t.right, g + Count(t.left));
      ShowStarts(t.right);
      d := PairWhole(ShowCat(t.left), ShowRep(t.right), a, b);
    } else if t.Empty? {
      d := none;
    } else {
      var b := RepWritten(t, g);
      ShowStarts(t);
      d := PairWhole("", ShowRep(t), none, b);
      assert "" + ShowRep(t) == ShowRep(t);
    }
  }

  lemma {:induction false} RepWritten(t: Re, g: nat) returns (d: Part)
    requires CanBeWritten(t, g)
    ensures For(d, ShowRep(t), t, g, Read2(t)) && IsItem(d)
    decreases t, Turn(2, t), 1
  {
    if t.Rep? {
      var b := AtomWritten(t.body, g);
      d := RoundWhole(ShowAtom(t.body), t.op, t.lazy, b);
    } else {
      d := AtomWritten(t, g);
    }
  }

  lemma {:induction false} AtomWritten(t: Re, g: nat) returns (d: Part)
    requires CanBeWritten(t, g)
    ensures For(d, ShowAtom(t), t, g, Read3(t)) && IsAtom(d)
    decreases t, Turn(3, t), 0
  {
    if t.One? {
      HasItself(ShowLeaf(t.leaf));
      LeafSpelled(t.leaf);
      d := Part(0, |ShowLeaf(t.leaf)|, g, g, t, Piece(SpellingOf(t.leaf)));
    } else if t.Group? {
      var b := AltWritten(t.body, g + 1);
      SideShown(t.body);
      d := CaptureWhole(ShowAlt(t.body), b);
    } else {
      var b := AltWritten(t, g);
      d := WrapWhole(ShowAlt(t), b);
    }
  }

  lemma HasItself(src: string)
    ensures Has(src, 0, src)
  {
    HasIsSlice(src, 0, src);
    assert src[0..0 + |src|] == src;
  }

  // ------------------------------------------------------------------ the tree means the same

  lemma {:induction false} Slots0(t: Re)
    requires SlotsOk(t)
    ensures SlotsOk(Read0(t))
    decreases t, Turn(0, t)
  {
    if t.Alt? {
      Slots0(t.left);
      Slots1(Empty, t.right);
    } else {
      Slots1(Empty, t);
    }
  }

  lemma {:induction false} Slots1(acc: Re, t: Re)
    requires SlotsOk(acc) && SlotsOk(t)
    ensures SlotsOk(Read1(acc, t))
    decreases t, Turn(1, t)
  {
    if t.Cat? {
      Slots1(acc, t.left);
      Slots2(t.right);
    } else if !t.Empty? {
      Slots2(t);
    }
  }

  lemma {:induction false} Slots2(t: Re)
    requires SlotsOk(t)
    ensures SlotsOk(Read2(t))
    decreases t, Turn(2, t)
  {
    Slots3(if t.Rep? then t.body else t);
  }

  lemma {:induction false} Slots3(t: Re)
    requires SlotsOk(t)
    ensures SlotsOk(Read3(t))
    decreases t, Turn(3, t)
  {
    if t.Group? {
      Slots0(t.body);
    } else if !t.One? {
      Slots0(t);
    }
  }

  lemma {:induction false} Walk0(t: Re, inp: string, i: nat, s: Saves, w: seq<bool>)
    requires SlotsOk(t)
    ensures SlotsOk(Read0(t)) && Walk(Read0(t), inp, i, s, w) == Walk(t, inp, i, s, w)
    decreases |w|, t, Turn(0, t)
  {
    Slots0(t);
    if t.Alt? {
      if w != [] {
        if w[0] {
          Walk1(Empty, t.right, inp, i, s, w[1..]);
        } else {
          Walk0(t.left, inp, i, s, w[1..]);
        }
      }
    } else {
      Walk1(Empty, t, inp, i, s, w);
    }
  }

  /** Adding a sequence to what was read before walks that first, then the sequence. */
  lemma {:induction false} Walk1(acc: Re, t: Re, inp: string, i: nat, s: Saves, w: seq<bool>)
    requires SlotsOk(acc) && SlotsOk(t)
    ensures SlotsOk(Read1(acc, t)) && Walk(Read1(acc, t), inp, i, s, w) == Walk(Cat(acc, t), inp, i, s, w)
    decreases |w|, t, Turn(1, t)
  {
    Slots1(acc, t);
    if t.Cat? {
      Walk1(acc, t.left, inp, i, s, w);
      var a := Walk(Cat(acc, t.left), inp, i, s, w);
      if a.Went? { Walk2(t.right, inp, a.at, a.saves, a.rest); }
    } else if !t.Empty? {
      var a := Walk(acc, inp, i, s, w);
      if a.Went? { Walk2(t, inp, a.at, a.saves, a.rest); }
    }
  }

  lemma {:induction false} Walk2(t: Re, inp: string, i: nat, s: Saves, w: seq<bool>)
    requires SlotsOk(t)
    ensures SlotsOk(Read2(t)) && Walk(Read2(t), inp, i, s, w) == Walk(t, inp, i, s, w)
    decreases |w|, t, Turn(2, t)
  {
    Slots2(t);
    if !t.Rep? {
      Walk3(t, inp, i, s, w);
    } else if t.op.Plus? {
      Walk3(t.body, inp, i, s, w);
      var a := Walk(t.body, inp, i, s, w);
      if a.Went? && a.rest != [] && Again(a.rest[0], t.lazy) { Walk2(t, inp, a.at, a.saves, a.rest[1..]); }
    } else if w != [] && Again(w[0], t.lazy) {
      Walk3(t.body, inp, i, s, w[1..]);
      var a := Walk(t.body, inp, i, s, w[1..]);
      if a.Went? && t.op.Star? { Walk2(t, inp, a.at, a.saves, a.rest); }
    }
  }

  lemma {:induction false} Walk3(t: Re, inp: string, i: nat, s: Saves, w: seq<bool>)
    requires SlotsOk(t)
    ensures SlotsOk(Read3(t)) && Walk(Read3(t), inp, i, s, w) == Walk(t, inp, i, s, w)
    decreases |w|, t, Turn(3, t)
  {
    Slots3(t);
    if t.Group? {
      Walk0(t.body, inp, i, s[2 * t.index := i], w);
    } else if !t.One? {
      Walk0(t, inp, i, s, w);
    }
  }

  // ------------------------------------------------------------------ the theorem

  /**
   * Every tree with its groups numbered in order, at most nine of them, can be written as a
   * pattern, and reading the pattern gives a tree that walks the same way on every input: it
   * matches the same, prefers the same, and captures the same.
   */
  lemma WrittenPatternIsRead(t: Re)
    requires Writable(t) && Numbered(t, 0) && Count(t) < MAX_GROUPS
    ensures ParsePattern(ShowAlt(t)) == Ok(Read0(t), |ShowAlt(t)|, Count(t))
    ensures SlotsOk(t) && SlotsOk(Read0(t))
    ensures forall inp, i, s, w :: Walk(Read0(t), inp, i, s, w) == Walk(t, inp, i, s, w)
  {
    var d := AltWritten(t, 0);
    DerivedIsRead(ShowAlt(t), d);
    NumbersFit(t, 0);
    Slots0(t);
    forall inp, i, s, w ensures Walk(Read0(t), inp, i, s, w) == Walk(t, inp, i, s, w) {
      Walk0(t, inp, i, s, w);
    }
  }
}
