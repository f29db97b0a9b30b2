/** How single pieces of a pattern are spelled (micai/src/regex.rs): characters, escapes and bracketed classes. */
module RegexSpelling {
  import opened RegexSyntax
  import opened Texts

  // ------------------------------------------------------------------ members of a class

  datatype Member = Escaped(e: char) | Span(lo: char, hi: char) | Single(c: char)

  function MemberText(m: Member): string {
    match m
    case Escaped(e) => ['\\', e]
    case Span(lo, hi) => [lo, '-', hi]
    case Single(c) => [c]
  }

  function MembersText(ms: seq<Member>): string {
    if ms == [] then "" else MemberText(ms[0]) + MembersText(ms[1..])
  }

  /** A class inside a class gives its ranges and loses its negation. */
  function MemberRanges(m: Member): seq<Range> {
    match m
    case Escaped(e) => if EscClass(e).Some? then EscClass(e).value.ranges else [Range(EscChar(e), EscChar(e))]
    case Span(lo, hi) => [Range(lo, hi)]
    case Single(c) => [Range(c, c)]
  }

  function MembersRanges(ms: seq<Member>): seq<Range> {
    if ms == [] then [] else MemberRanges(ms[0]) + MembersRanges(ms[1..])
  }

  /** A `-` makes no range of what is before it when the closing bracket comes next. */
  predicate NoDash(after: string) {
    after != "" && after[0] == '-' ==> (after + "]")[1] == ']'
  }

  /** A closing bracket stands for itself only in the first place. */
  predicate MemberOk(m: Member, first: bool, after: string) {
    match m
    case Escaped(_) => true
    case Span(lo, hi) => lo != '\\' && (lo == ']' ==> first) && hi != ']'
    case Single(c) => c != '\\' && (c == ']' ==> first) && NoDash(after)
  }

  predicate MembersOk(ms: seq<Member>, first: bool) {
    ms == [] || (MemberOk(ms[0], first, MembersText(ms[1..])) && MembersOk(ms[1..], false))
  }

  /** What lies in the text from `pos` on: a member, what comes after it, and the closing bracket. */
  predicate Inside(src: string, pos: nat, x: string, after: string) {
    Has(src, pos, x) && Has(src, pos + |x|, after) && CharAt(src, pos + |x| + |after|, ']')
  }

  lemma MemberReads(src: string, pos: nat, m: Member, after: string, first: bool, neg: bool, acc: seq<Range>)
    requires MemberOk(m, first, after) && Inside(src, pos, MemberText(m), after)
    ensures ParseClassItems(src, pos, first, neg, acc) ==
      ParseClassItems(src, pos + |MemberText(m)|, false, neg, acc + MemberRanges(m))
  {
    var x := MemberText(m);
    HasChar(src, pos, x, 0);
    if |x| > 1 { HasChar(src, pos, x, 1); }
    if |x| > 2 { HasChar(src, pos, x, 2); }
    if m.Single? { SingleStands(src, pos, after); }
  }

  lemma SingleStands(src: string, pos: nat, after: string)
    requires Has(src, pos + 1, after) && CharAt(src, pos + 1 + |after|, ']') && NoDash(after)
    ensures !(Is(src, pos + 1, '-') && pos + 2 < |src| && src[pos + 2] != ']')
  {
    if after != "" {
      HasChar(src, pos + 1, after, 0);
      if |after| > 1 { HasChar(src, pos + 1, after, 1); }
    }
  }

  lemma RangesOn(acc: seq<Range>, ms: seq<Member>)
    requires ms != []
    ensures (acc + MemberRanges(ms[0])) + MembersRanges(ms[1..]) == acc + MembersRanges(ms)
  {
  }

  lemma {:induction false} MembersRead(src: string, pos: nat, ms: seq<Member>, first: bool, neg: bool, acc: seq<Range>)
    requires MembersOk(ms, first) && Has(src, pos, MembersText(ms)) && CharAt(src, pos + |MembersText(ms)|, ']')
    requires ms == [] ==> !first
    ensures ParseClassItems(src, pos, first, neg, acc) ==
      OkClass(Class(neg, acc + MembersRanges(ms)), pos + |MembersText(ms)| + 1)
    decreases |ms|
  {
    if ms == [] {
      assert acc + MembersRanges(ms) == acc;
    } else {
      var x, rest := MemberText(ms[0]), MembersText(ms[1..]);
      HasParts(src, pos, x, rest);
      MemberReads(src, pos, ms[0], rest, first, neg, acc);
      MembersRead(src, pos + |x|, ms[1..], false, neg, acc + MemberRanges(ms[0]));
      RangesOn(acc, ms);
    }
  }

  // ------------------------------------------------------------------ and back

  lemma HasTwo(src: string, i: nat, a: string, b: string)
    requires Has(src, i, a) && Has(src, i + |a|, b)
    ensures Has(src, i, a + b)
  {
    HasIsSlice(src, i, a);
    HasIsSlice(src, i + |a|, b);
    HasIsSlice(src, i, a + b);
    assert src[i..i + |a + b|] == src[i..i + |a|] + src[i + |a|..i + |a| + |b|];
  }

  lemma HasIt(src: string, i: nat, x: string)
    requires i + |x| <= |src| && forall k :: 0 <= k < |x| ==> src[i + k] == x[k]
    ensures Has(src, i, x)
  {
    HasIsSlice(src, i, x);
    assert src[i..i + |x|] == x;
  }

  /** The member that the reader takes at `pos`. */
  function Taken(src: string, pos: nat): Member
    requires pos < |src|
  {
    if src[pos] == '\\' && pos + 1 < |src| then Escaped(src[pos + 1])
    else if Is(src, pos + 1, '-') && pos + 2 < |src| && src[pos + 2] != ']' then Span(src[pos], src[pos + 2])
    else Single(src[pos])
  }

  lemma TakenStep(src: string, pos: nat, first: bool, neg: bool, acc: seq<Range>)
    requires pos < |src| && (src[pos] != ']' || first) && ParseClassItems(src, pos, first, neg, acc).OkClass?
    ensures var m := Taken(src, pos);
      pos + |MemberText(m)| <= |src| && Has(src, pos, MemberText(m)) &&
      ParseClassItems(src, pos, first, neg, acc) == ParseClassItems(src, pos + |MemberText(m)|, false, neg, acc + MemberRanges(m))
  {
    HasIt(src, pos, MemberText(Taken(src, pos)));
  }

  lemma TakenIsOk(src: string, pos: nat, first: bool, neg: bool, acc: seq<Range>, after: string)
    requires pos < |src| && (src[pos] != ']' || first) && ParseClassItems(src, pos, first, neg, acc).OkClass?
    requires Inside(src, pos, MemberText(Taken(src, pos)), after)
    ensures MemberOk(Taken(src, pos), first, after)
  {
    if Taken(src, pos).Single? && after != "" {
      HasChar(src, pos + 1, after, 0);
      if |after| > 1 { HasChar(src, pos + 1, after, 1); }
    }
  }

  /** What the brackets were read from. */
  lemma {:induction false} MembersFound(src: string, pos: nat, first: bool, neg: bool, acc: seq<Range>) returns (ms: seq<Member>)
    requires ParseClassItems(src, pos, first, neg, acc).OkClass?
    ensures MembersOk(ms, first) && Has(src, pos, MembersText(ms)) && CharAt(src, pos + |MembersText(ms)|, ']')
    ensures ms == [] ==> !first
    ensures ParseClassItems(src, pos, first, neg, acc) ==
      OkClass(Class(neg, acc + MembersRanges(ms)), pos + |MembersText(ms)| + 1)
    decreases |src| - pos
  {
    if src[pos] == ']' && !first {
      ms := [];
      HasIt(src, pos, "");
      assert acc + MembersRanges(ms) == acc;
    } else {
      var m := Taken(src, pos);
      var x := MemberText(m);
      TakenStep(src, pos, first, neg, acc);
      var rest := MembersFound(src, pos + |x|, false, neg, acc + MemberRanges(m));
      ms := [m] + rest;
      assert ms[1..] == rest;
      HasTwo(src, pos, x, MembersText(rest));
      TakenIsOk(src, pos, first, neg, acc, MembersText(rest));
      RangesOn(acc, ms);
    }
  }

  // ------------------------------------------------------------------ pieces

  datatype Spelling = Plain(c: char) | Escape(e: char) | Bracket(neg: bool, ms: seq<Member>)

  function Caret(neg: bool): string {
    if neg then "^" else ""
  }

  function SpellText(x: Spelling): string {
    match x
    case Plain(c) => [c]
    case Escape(e) => ['\\', e]
    case Bracket(neg, ms) => "[" + (Caret(neg) + MembersText(ms)) + "]"
  }

  function SpellLeaf(x: Spelling): Leaf {
    match x
    case Plain(c) => if c == '.' then Dot else if c == '^' then Bol else if c == '$' then Eol else Lit(c)
    case Escape(e) => if EscClass(e).Some? then Set(EscClass(e).value) else Lit(EscChar(e))
    case Bracket(neg, ms) => Set(Class(neg, MembersRanges(ms)))
  }

  /** A character that a piece may not begin with when it stands for itself. */
  predicate Begins(c: char) {
    c == '(' || c == ')' || c == '[' || c == '\\' || c == '*' || c == '+' || c == '|'
  }

  /** A `?` may begin a piece: it stands for itself there. */
  predicate SpellOk(x: Spelling) {
    match x
    case Plain(c) => !Begins(c)
    case Escape(_) => true
    case Bracket(neg, ms) => ms != [] && MembersOk(ms, true) && (neg || !CharAt(MembersText(ms), 0, '^'))
  }

  lemma ClassReads(src: string, i: nat, x: Spelling)
    requires x.Bracket? && SpellOk(x) && Has(src, i, SpellText(x))
    ensures CharAt(src, i, '[') && ParseClass(src, i + 1) == OkClass(SpellLeaf(x).cls, i + |SpellText(x)|)
  {
    var up, ts := Caret(x.neg), MembersText(x.ms);
    HasBetween(src, i, "[", up + ts, "]");
    HasParts(src, i + 1, up, ts);
    MembersRead(src, i + 1 + |up|, x.ms, true, x.neg, []);
    assert [] + MembersRanges(x.ms) == MembersRanges(x.ms);
    assert ts != "";
    HasChar(src, i + 1 + |up|, ts, 0);
    if x.neg { HasChar(src, i + 1, up, 0); }
  }

  /** A spelled piece is read as its leaf. */
  lemma SpellReads(src: string, i: nat, x: Spelling, g: nat)
    requires SpellOk(x) && Has(src, i, SpellText(x))
    ensures i < |src| && ParseAtom(src, i, g) == Ok(One(SpellLeaf(x)), i + |SpellText(x)|, g)
  {
    var t := SpellText(x);
    if x.Bracket? {
      ClassReads(src, i, x);
    } else {
      HasChar(src, i, t, 0);
      if |t| > 1 { HasChar(src, i, t, 1); }
    }
  }

  lemma ClassFound(src: string, i: nat) returns (x: Spelling)
    requires CharAt(src, i, '[') && ParseClass(src, i + 1).OkClass?
    ensures x.Bracket? && SpellOk(x) && Has(src, i, SpellText(x))
  {
    var neg := Is(src, i + 1, '^');
    var ms := MembersFound(src, i + 1 + |Caret(neg)|, true, neg, []);
    BracketHas(src, i, neg, MembersText(ms));
    FirstIsThere(src, i + 1 + |Caret(neg)|, ms);
    x := BracketOf(src, i, neg, ms);
  }

  lemma BracketOf(src: string, i: nat, neg: bool, ms: seq<Member>) returns (x: Spelling)
    requires ms != [] && MembersOk(ms, true) && (neg || !CharAt(MembersText(ms), 0, '^'))
    requires Has(src, i, "[" + (Caret(neg) + MembersText(ms)) + "]")
    ensures x == Bracket(neg, ms) && SpellOk(x) && Has(src, i, SpellText(x))
  {
    x := Bracket(neg, ms);
  }

  lemma BracketHas(src: string, i: nat, neg: bool, ts: string)
    requires CharAt(src, i, '[') && neg == Is(src, i + 1, '^')
    requires Has(src, i + 1 + |Caret(neg)|, ts) && CharAt(src, i + 1 + |Caret(neg)| + |ts|, ']')
    ensures Has(src, i, "[" + (Caret(neg) + ts) + "]")
  {
    HasIt(src, i + 1, Caret(neg));
    HasTwo(src, i + 1, Caret(neg), ts);
    HasIt(src, i, "[");
    HasTwo(src, i, "[", Caret(neg) + ts);
    HasIt(src, i + 1 + |Caret(neg) + ts|, "]");
    HasTwo(src, i, "[" + (Caret(neg) + ts), "]");
  }

  lemma FirstIsThere(src: string, i: nat, ms: seq<Member>)
    requires ms != [] && Has(src, i, MembersText(ms))
    ensures i < |src| && CharAt(MembersText(ms), 0, src[i])
  {
    HasChar(src, i, MembersText(ms), 0);
  }

  /** Whatever single piece is read has a spelling. */
  lemma SpellFound(src: string, i: nat, g: nat) returns (x: Spelling)
    requires i < |src| && src[i] != '(' && src[i] != '|' && ParseAtom(src, i, g).Ok?
    ensures SpellOk(x) && Has(src, i, SpellText(x))
    ensures ParseAtom(src, i, g) == Ok(One(SpellLeaf(x)), i + |SpellText(x)|, g)
  {
    if src[i] == '[' {
      x := ClassFound(src, i);
    } else {
      x := if src[i] == '\\' then Escape(src[i + 1]) else Plain(src[i]);
      HasIt(src, i, SpellText(x));
    }
    SpellReads(src, i, x, g);
  }
}
