/**
 * The grammar of patterns apart from any reader (micai/src/regex.rs): which texts spell which trees.
 * A text is accepted exactly when it has a derivation, and then as the tree of the derivation.
 */
module RegexGrammar {
  import opened RegexSyntax
  import opened RegexSpelling
  import opened Texts

  // ------------------------------------------------------------------ derivations

  /**
   * How a stretch of a text is read: where it begins and ends, the groups opened before it and by
   * its end, the tree it stands for, and the parts it has.
   */
  datatype Part = Part(from: nat, to: nat, g: nat, k: nat, t: Re, how: How)

  /** A sequence begins with nothing and goes on item by item; an item is an atom with signs after it. */
  datatype How =
    | Nothing
    | Piece(x: Spelling)
    | Pair(init: Part, item: Part)
    | Bar(left: Part, right: Part)
    | Round(body: Part)
    | Capture(body: Part)
    | Wrap(body: Part)

  predicate IsSeq(d: Part) {
    d.how.Nothing? || d.how.Pair?
  }

  predicate IsSide(d: Part) {
    d.how.Bar? || IsSeq(d)
  }

  predicate IsAtom(d: Part) {
    d.how.Piece? || d.how.Capture? || d.how.Wrap?
  }

  predicate IsItem(d: Part) {
    d.how.Round? || IsAtom(d)
  }

  function OpChar(op: Op): char {
    match op
    case Star => '*'
    case Plus => '+'
    case Opt => '?'
  }

  predicate IsSuffixChar(c: char) {
    c == '*' || c == '+' || c == '?'
  }

  ghost predicate Opens(src: string, i: nat) {
    CharAt(src, i, '(') && CharAt(src, i + 1, '?') && CharAt(src, i + 2, ':')
  }

  /** A sign that a `?` after it would make lazy. */
  predicate IsEager(d: Part) {
    d.how.Round? && d.t.Rep? && !d.t.lazy
  }

  /** `b` begins where `a` ends, and would not be a sign that repeats the last item of `a`. */
  ghost predicate Follows(src: string, a: Part, b: Part) {
    a.to == b.from && a.k == b.g && (a.how.Pair? ==> b.from < |src| && !IsSuffixChar(src[b.from]))
  }

  predicate Covers(d: Part, from: nat, to: nat, g: nat, k: nat) {
    d.from == from && d.to == to && d.g == g && d.k == k
  }

  /** Every part is of the kind that may stand in its place, and lies in the text where it says. */
  ghost predicate Derives(src: string, d: Part)
    decreases d
  {
    d.from <= d.to <= |src| && d.g <= d.k < MAX_GROUPS &&
    match d.how
    case Nothing => d.to == d.from && d.k == d.g && d.t == Empty
    case Piece(x) =>
      SpellOk(x) && d.t == One(SpellLeaf(x)) && Has(src, d.from, SpellText(x)) && d.to == d.from + |SpellText(x)| && d.k == d.g
    case Pair(a, b) =>
      IsSeq(a) && IsItem(b) && Derives(src, a) && Derives(src, b) && d.t == Cat(a.t, b.t) && Follows(src, a, b) &&
      a.from == d.from && a.g == d.g && b.to == d.to && b.k == d.k
    case Bar(a, b) =>
      IsSide(a) && IsSeq(b) && Derives(src, a) && Derives(src, b) && d.t == Alt(a.t, b.t) &&
      CharAt(src, a.to, '|') && b.from == a.to + 1 && b.g == a.k &&
      a.from == d.from && a.g == d.g && b.to == d.to && b.k == d.k
    case Round(b) =>
      IsItem(b) && Derives(src, b) && d.t.Rep? && d.t.body == b.t && CharAt(src, b.to, OpChar(d.t.op)) &&
      (IsEager(b) ==> !d.t.op.Opt?) && (d.t.lazy ==> CharAt(src, b.to + 1, '?')) &&
      Covers(b, d.from, b.to, d.g, d.k) && d.to == b.to + if d.t.lazy then 2 else 1
    case Capture(b) =>
      IsSide(b) && Derives(src, b) && d.t == Group(d.g + 1, b.t) && CharAt(src, d.from, '(') && CharAt(src, b.to, ')') &&
      !IsNonCapture(src, b.from) && Covers(b, d.from + 1, b.to, d.g + 1, d.k) && d.to == b.to + 1
    case Wrap(b) =>
      IsSide(b) && Derives(src, b) && d.t == b.t && Opens(src, d.from) && CharAt(src, b.to, ')') &&
      Covers(b, d.from + 3, b.to, d.g, d.k) && d.to == b.to + 1
  }

  /** A derivation of the whole of `x`. */
  ghost predicate Whole(x: string, d: Part) {
    Derives(x, d) && d.from == 0 && d.to == |x|
  }

  // ------------------------------------------------------------------ one step of the reader each

  /** What may come after: nothing that would repeat the last piece. */
  ghost predicate NoSuffix(src: string, j: nat) {
    j >= |src| || !IsSuffixChar(src[j])
  }

  /** The end of an alternation. */
  ghost predicate Closes(src: string, j: nat) {
    j == |src| || CharAt(src, j, ')')
  }

  lemma AtomStarts(src: string, d: Part)
    requires IsAtom(d) && Derives(src, d)
    ensures d.from < |src| && src[d.from] != '|' && src[d.from] != ')'
  {
    if d.how.Piece? { HasChar(src, d.from, SpellText(d.how.x), 0); }
  }

  lemma {:induction false} ItemStarts(src: string, d: Part)
    requires IsItem(d) && Derives(src, d)
    ensures d.from < |src| && src[d.from] != '|' && src[d.from] != ')'
    decreases d
  {
    if d.how.Round? { ItemStarts(src, d.how.body); } else { AtomStarts(src, d); }
  }

  lemma ItemStep(src: string, i: nat, g: nat, acc: Re, t: Re, p: nat, k: nat)
    requires i < |src| && src[i] != '|' && src[i] != ')' && ParseRepeat(src, i, g) == Ok(t, p, k)
    ensures p <= |src| && ParseConcatRest(src, i, g, acc) == ParseConcatRest(src, p, k, Cat(acc, t))
  {
  }

  lemma SideStep(src: string, i: nat, g: nat, m: nat, k: nat, t: Re)
    requires i <= |src| && m <= |src| && (Closes(src, m) || CharAt(src, m, '|'))
    requires ParseConcat(src, i, g) == ParseConcatRest(src, m, k, t)
    ensures ParseConcat(src, i, g) == Ok(t, m, k) && ParseAlt(src, i, g) == ParseAltRest(src, m, k, t)
  {
  }

  lemma BarStep(src: string, m: nat, k: nat, acc: Re, t: Re, e: nat, n: nat)
    requires CharAt(src, m, '|') && ParseConcat(src, m + 1, k) == Ok(t, e, n)
    ensures e <= |src| && ParseAltRest(src, m, k, acc) == ParseAltRest(src, e, n, Alt(acc, t))
  {
  }

  lemma CloseStep(src: string, m: nat, k: nat, t: Re)
    requires m <= |src| && Closes(src, m)
    ensures ParseAltRest(src, m, k, t) == Ok(t, m, k)
  {
  }

  lemma RepeatStep(src: string, i: nat, g: nat, t: Re, p: nat, k: nat)
    requires i <= |src| && ParseAtom(src, i, g) == Ok(t, p, k)
    ensures p <= |src| && ParseRepeat(src, i, g) == ParseSuffixes(src, p, k, t)
  {
  }

  lemma SignStep(src: string, m: nat, k: nat, t: Re, op: Op, lazy: bool)
    requires CharAt(src, m, OpChar(op)) && lazy == CharAt(src, m + 1, '?')
    ensures m + (if lazy then 2 else 1) <= |src|
    ensures ParseSuffixes(src, m, k, t) == ParseSuffixes(src, m + if lazy then 2 else 1, k, Rep(op, t, lazy))
  {
    assert OpOf(OpChar(op)) == op;
  }

  lemma NoSuffixReads(src: string, p: nat, k: nat, t: Re)
    requires p <= |src| && NoSuffix(src, p)
    ensures ParseSuffixes(src, p, k, t) == Ok(t, p, k)
  {
  }

  lemma GroupStep(src: string, i: nat, g: nat, t: Re, p: nat, k: nat)
    requires CharAt(src, i, '(') && !IsNonCapture(src, i + 1) && g + 1 < MAX_GROUPS
    requires ParseAlt(src, i + 1, g + 1) == Ok(t, p, k) && CharAt(src, p, ')')
    ensures ParseAtom(src, i, g) == Ok(Group(g + 1, t), p + 1, k)
  {
  }

  lemma WrapStep(src: string, i: nat, g: nat, t: Re, p: nat, k: nat)
    requires Opens(src, i) && ParseAlt(src, i + 3, g) == Ok(t, p, k) && CharAt(src, p, ')')
    ensures ParseAtom(src, i, g) == Ok(t, p + 1, k)
  {
    assert IsNonCapture(src, i + 1);
  }

  // ------------------------------------------------------------------ what has a derivation is read by it

  lemma {:induction false} SideReads(src: string, d: Part)
    requires IsSide(d) && Derives(src, d) && (Closes(src, d.to) || CharAt(src, d.to, '|'))
    ensures ParseAlt(src, d.from, d.g) == ParseAltRest(src, d.to, d.k, d.t)
    decreases d, 2
  {
    if d.how.Bar? {
      BarReads(src, d, d.how.left, d.how.right);
    } else {
      SeqReads(src, d);
      SideStep(src, d.from, d.g, d.to, d.k, d.t);
    }
  }

  lemma {:induction false} BarReads(src: string, d: Part, a: Part, b: Part)
    requires d.how == Bar(a, b) && Derives(src, d) && (Closes(src, d.to) || CharAt(src, d.to, '|'))
    ensures ParseAlt(src, d.from, d.g) == ParseAltRest(src, d.to, d.k, d.t)
    decreases d, 0
  {
    SideReads(src, a);
    SeqReads(src, b);
    SideStep(src, b.from, b.g, b.to, b.k, b.t);
    BarStep(src, a.to, a.k, a.t, b.t, b.to, b.k);
  }

  /** A sequence is read item by item. */
  lemma {:induction false} SeqReads(src: string, d: Part)
    requires IsSeq(d) && Derives(src, d) && (d.how.Pair? ==> NoSuffix(src, d.to))
    ensures ParseConcat(src, d.from, d.g) == ParseConcatRest(src, d.to, d.k, d.t)
    decreases d, 1
  {
    if d.how.Pair? { PairReads(src, d, d.how.init, d.how.item); }
  }

  lemma {:induction false} PairReads(src: string, d: Part, a: Part, b: Part)
    requires d.how == Pair(a, b) && Derives(src, d) && NoSuffix(src, d.to)
    ensures ParseConcat(src, d.from, d.g) == ParseConcatRest(src, d.to, d.k, d.t)
    decreases d, 0
  {
    ItemStarts(src, b);
    SeqReads(src, a);
    ItemReads(src, b);
    ItemStep(src, b.from, b.g, a.t, b.t, b.to, b.k);
  }

  lemma {:induction false} ItemReads(src: string, d: Part)
    requires IsItem(d) && Derives(src, d) && NoSuffix(src, d.to)
    ensures ParseRepeat(src, d.from, d.g) == Ok(d.t, d.to, d.k)
    decreases d, 3
  {
    SignsRead(src, d);
    NoSuffixReads(src, d.to, d.k, d.t);
  }

  /** Each sign wraps what is before it; the reader goes on with the signs that follow. */
  lemma {:induction false} SignsRead(src: string, d: Part)
    requires IsItem(d) && Derives(src, d) && (IsEager(d) ==> !CharAt(src, d.to, '?'))
    ensures ParseRepeat(src, d.from, d.g) == ParseSuffixes(src, d.to, d.k, d.t)
    decreases d, 2
  {
    if d.how.Round? {
      var b := d.how.body;
      SignsRead(src, b);
      SignStep(src, b.to, b.k, b.t, d.t.op, d.t.lazy);
    } else {
      AtomReads(src, d);
      RepeatStep(src, d.from, d.g, d.t, d.to, d.k);
    }
  }

  lemma {:induction false} AtomReads(src: string, d: Part)
    requires IsAtom(d) && Derives(src, d)
    ensures ParseAtom(src, d.from, d.g) == Ok(d.t, d.to, d.k)
    decreases d, 0
  {
    if d.how.Piece? {
      SpellReads(src, d.from, d.how.x, d.g);
    } else {
      var b := d.how.body;
      InsideReads(src, b);
      if d.how.Capture? {
        GroupStep(src, d.from, d.g, b.t, b.to, b.k);
      } else {
        WrapStep(src, d.from, d.g, b.t, b.to, b.k);
      }
    }
  }

  /** What is between parentheses, or is the whole pattern. */
  lemma {:induction false} InsideReads(src: string, d: Part)
    requires IsSide(d) && Derives(src, d) && Closes(src, d.to)
    ensures ParseAlt(src, d.from, d.g) == Ok(d.t, d.to, d.k)
    decreases d, 3
  {
    SideReads(src, d);
    CloseStep(src, d.to, d.k, d.t);
  }

  /** A text with a derivation is read as the tree of the derivation. */
  lemma DerivedIsRead(src: string, d: Part)
    requires IsSide(d) && Whole(src, d) && d.g == 0
    ensures ParsePattern(src) == Ok(d.t, |src|, d.k)
  {
    InsideReads(src, d);
  }

  // ------------------------------------------------------------------ and what is read has one

  /** `d` derives what the reader took from `pos` on. */
  ghost predicate Gives(src: string, pos: nat, g: nat, d: Part, r: Parsed) {
    Derives(src, d) && d.from == pos && d.g == g && r == Ok(d.t, d.to, d.k)
  }

  lemma {:induction false} AltFound(src: string, pos: nat, g: nat) returns (d: Part)
    requires pos <= |src| && g < MAX_GROUPS && ParseAlt(src, pos, g).Ok?
    ensures IsSide(d) && Gives(src, pos, g, d, ParseAlt(src, pos, g))
    decreases |src| - pos, 6
  {
    var a := ConcatRestFound(src, pos, g, Part(pos, pos, g, g, Empty, Nothing));
    d := AltRestFound(src, a);
  }

  lemma {:induction false} AltRestFound(src: string, a: Part) returns (d: Part)
    requires IsSide(a) && Derives(src, a) && ParseAltRest(src, a.to, a.k, a.t).Ok?
    ensures IsSide(d) && Gives(src, a.from, a.g, d, ParseAltRest(src, a.to, a.k, a.t))
    decreases |src| - a.to, 5
  {
    if Is(src, a.to, '|') {
      var m := a.to + 1;
      var b := ConcatRestFound(src, m, a.k, Part(m, m, a.k, a.k, Empty, Nothing));
      d := AltRestFound(src, Part(a.from, b.to, a.g, b.k, Alt(a.t, b.t), Bar(a, b)));
    } else {
      d := a;
    }
  }

  lemma {:induction false} ConcatRestFound(src: string, pos: nat, g: nat, a: Part) returns (d: Part)
    requires IsSeq(a) && Derives(src, a) && a.to == pos && a.k == g && (a.how.Pair? ==> NoSuffix(src, pos))
    requires ParseConcatRest(src, pos, g, a.t).Ok?
    ensures IsSeq(d) && Gives(src, a.from, a.g, d, ParseConcatRest(src, pos, g, a.t))
    decreases |src| - pos, 3
  {
    if pos == |src| || src[pos] == '|' || src[pos] == ')' {
      d := a;
    } else {
      var b := RepeatFound(src, pos, g);
      ItemStep(src, pos, g, a.t, b.t, b.to, b.k);
      d := ConcatRestFound(src, b.to, b.k, Part(a.from, b.to, a.g, b.k, Cat(a.t, b.t), Pair(a, b)));
    }
  }

  lemma {:induction false} RepeatFound(src: string, pos: nat, g: nat) returns (d: Part)
    requires pos < |src| && src[pos] != '|' && g < MAX_GROUPS && ParseRepeat(src, pos, g).Ok?
    ensures IsItem(d) && Gives(src, pos, g, d, ParseRepeat(src, pos, g)) && NoSuffix(src, d.to)
    ensures d.to > pos
    decreases |src| - pos, 2
  {
    var a := AtomFound(src, pos, g);
    RepeatStep(src, pos, g, a.t, a.to, a.k);
    d := SuffixesFound(src, a);
  }

  lemma {:induction false} SuffixesFound(src: string, b: Part) returns (d: Part)
    requires IsItem(b) && Derives(src, b) && (IsEager(b) ==> !CharAt(src, b.to, '?'))
    ensures IsItem(d) && Gives(src, b.from, b.g, d, ParseSuffixes(src, b.to, b.k, b.t)) && NoSuffix(src, d.to)
    decreases |src| - b.to
  {
    if IsSuffix(src, b.to) {
      var op, lazy := OpOf(src[b.to]), Is(src, b.to + 1, '?');
      SignStep(src, b.to, b.k, b.t, op, lazy);
      d := SuffixesFound(src, Part(b.from, b.to + if lazy then 2 else 1, b.g, b.k, Rep(op, b.t, lazy), Round(b)));
    } else {
      NoSuffixReads(src, b.to, b.k, b.t);
      d := b;
    }
  }

  lemma {:induction false} AtomFound(src: string, pos: nat, g: nat) returns (d: Part)
    requires pos < |src| && src[pos] != '|' && g < MAX_GROUPS && ParseAtom(src, pos, g).Ok?
    ensures IsAtom(d) && Gives(src, pos, g, d, ParseAtom(src, pos, g))
    decreases |src| - pos, 1
  {
    if src[pos] != '(' {
      var x := SpellFound(src, pos, g);
      d := Part(pos, pos + |SpellText(x)|, g, g, One(SpellLeaf(x)), Piece(x));
    } else if IsNonCapture(src, pos + 1) {
      var b := AltFound(src, pos + 3, g);
      d := Part(pos, b.to + 1, g, b.k, b.t, Wrap(b));
    } else {
      var b := AltFound(src, pos + 1, g + 1);
      d := Part(pos, b.to + 1, g, b.k, Group(g + 1, b.t), Capture(b));
    }
  }

  /**
   * The reader accepts exactly the texts that have a derivation, as the tree of the derivation: so no
   * text has two derivations of different trees.
   */
  lemma ReadIffDerived(src: string, t: Re, k: nat)
    ensures ParsePattern(src) == Ok(t, |src|, k) <==> exists d :: IsSide(d) && Whole(src, d) && d.g == 0 && d.t == t && d.k == k
  {
    if ParsePattern(src) == Ok(t, |src|, k) {
      var d := AltFound(src, 0, 0);
    }
    if exists d :: IsSide(d) && Whole(src, d) && d.g == 0 && d.t == t && d.k == k {
      var d :| IsSide(d) && Whole(src, d) && d.g == 0 && d.t == t && d.k == k;
      DerivedIsRead(src, d);
    }
  }
}
