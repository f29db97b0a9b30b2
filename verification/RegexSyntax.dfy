/** Patterns as trees, and the reader's view of a pattern text (micai/src/regex.rs). */
module RegexSyntax {

  const MAX_GROUPS: nat := 10

  datatype Range = Range(lo: char, hi: char)

  datatype Class = Class(neg: bool, ranges: seq<Range>) {
    predicate Has(c: char) {
      (exists k :: 0 <= k < |ranges| && ranges[k].lo <= c <= ranges[k].hi) != neg
    }
  }

  datatype Leaf = Lit(c: char) | Dot | Set(cls: Class) | Bol | Eol

  datatype Op = Star | Plus | Opt

  /** A pattern after reading. A non-capturing group is just its body. */
  datatype Re =
    | Empty
    | One(leaf: Leaf)
    | Cat(left: Re, right: Re)
    | Alt(left: Re, right: Re)
    | Rep(op: Op, body: Re, lazy: bool)
    | Group(index: nat, body: Re)

  datatype Error =
    | UnexpectedEnd
    | TooManyGroups
    | MissingParen
    | UnmatchedParen
    | NothingToRepeat
    | NothingAfterBackslash
    | MissingBracket
    | CannotRead(pos: nat)

  datatype Parsed = Bad(error: Error) | Ok(tree: Re, pos: nat, groups: nat)

  datatype ParsedClass = BadClass(error: Error) | OkClass(cls: Class, pos: nat)

  // ---- escapes

  function EscChar(e: char): char {
    match e
    case 'n' => '\n'
    case 't' => '\t'
    case 'r' => '\r'
    case '0' => '\0'
    case _ => e
  }

  const Digits := [Range('0', '9')]
  const Words := [Range('a', 'z'), Range('A', 'Z'), Range('0', '9'), Range('_', '_')]
  const Spaces := [Range(' ', ' '), Range('\t', '\t'), Range('\n', '\n'), Range('\r', '\r')]

  datatype Option<T> = None | Some(value: T)

  function EscClass(e: char): Option<Class> {
    match e
    case 'd' => Some(Class(false, Digits))
    case 'D' => Some(Class(true, Digits))
    case 'w' => Some(Class(false, Words))
    case 'W' => Some(Class(true, Words))
    case 's' => Some(Class(false, Spaces))
    case 'S' => Some(Class(true, Spaces))
    case _ => None
  }

  // ---- the grammar, read left to right

  predicate Is(src: string, pos: nat, c: char) {
    pos < |src| && src[pos] == c
  }

  /** Members of `[...]` from `pos` on. A class inside a class keeps its ranges and loses its negation. */
  function ParseClassItems(src: string, pos: nat, first: bool, neg: bool, acc: seq<Range>): (r: ParsedClass)
    ensures r.OkClass? ==> pos < r.pos <= |src|
    decreases |src| - pos
  {
    if pos >= |src| then BadClass(MissingBracket)
    else if src[pos] == ']' && !first then OkClass(Class(neg, acc), pos + 1)
    else if src[pos] == '\\' then
      if pos + 1 >= |src| then BadClass(NothingAfterBackslash)
      else
        var e := src[pos + 1];
        var more := if EscClass(e).Some? then EscClass(e).value.ranges else [Range(EscChar(e), EscChar(e))];
        ParseClassItems(src, pos + 2, false, neg, acc + more)
    else if Is(src, pos + 1, '-') && pos + 2 < |src| && src[pos + 2] != ']' then
      ParseClassItems(src, pos + 3, false, neg, acc + [Range(src[pos], src[pos + 2])])
    else
      ParseClassItems(src, pos + 1, false, neg, acc + [Range(src[pos], src[pos])])
  }

  function ParseClass(src: string, pos: nat): (r: ParsedClass)
    ensures r.OkClass? ==> pos < r.pos <= |src|
  {
    if Is(src, pos, '^') then ParseClassItems(src, pos + 1, true, true, [])
    else ParseClassItems(src, pos, true, false, [])
  }

  function ParseAlt(src: string, pos: nat, g: nat): (r: Parsed)
    requires pos <= |src|
    ensures r.Ok? ==> pos <= r.pos <= |src|
    decreases |src| - pos, 6
  {
    match ParseConcat(src, pos, g)
    case Bad(e) => Bad(e)
    case Ok(t, p, g1) => ParseAltRest(src, p, g1, t)
  }

  function ParseAltRest(src: string, pos: nat, g: nat, acc: Re): (r: Parsed)
    requires pos <= |src|
    ensures r.Ok? ==> pos <= r.pos <= |src|
    decreases |src| - pos, 5
  {
    if !Is(src, pos, '|') then Ok(acc, pos, g)
    else match ParseConcat(src, pos + 1, g)
      case Bad(e) => Bad(e)
      case Ok(t, p, g1) => ParseAltRest(src, p, g1, Alt(acc, t))
  }

  function ParseConcat(src: string, pos: nat, g: nat): (r: Parsed)
    requires pos <= |src|
    ensures r.Ok? ==> pos <= r.pos <= |src|
    decreases |src| - pos, 4
  {
    ParseConcatRest(src, pos, g, Empty)
  }

  function ParseConcatRest(src: string, pos: nat, g: nat, acc: Re): (r: Parsed)
    requires pos <= |src|
    ensures r.Ok? ==> pos <= r.pos <= |src|
    decreases |src| - pos, 3
  {
    if pos == |src| || src[pos] == '|' || src[pos] == ')' then Ok(acc, pos, g)
    else match ParseRepeat(src, pos, g)
      case Bad(e) => Bad(e)
      case Ok(t, p, g1) => ParseConcatRest(src, p, g1, Cat(acc, t))
  }

  function ParseRepeat(src: string, pos: nat, g: nat): (r: Parsed)
    requires pos <= |src|
    ensures r.Ok? ==> pos < r.pos <= |src|
    decreases |src| - pos, 2
  {
    match ParseAtom(src, pos, g)
    case Bad(e) => Bad(e)
    case Ok(t, p, g1) => ParseSuffixes(src, p, g1, t)
  }

  predicate IsSuffix(src: string, pos: nat) {
    pos < |src| && (src[pos] == '*' || src[pos] == '+' || src[pos] == '?')
  }

  function OpOf(c: char): Op {
    if c == '*' then Star else if c == '+' then Plus else Opt
  }

  function ParseSuffixes(src: string, pos: nat, g: nat, t: Re): (r: Parsed)
    requires pos <= |src|
    ensures r.Ok? && pos <= r.pos <= |src|
    decreases |src| - pos
  {
    if !IsSuffix(src, pos) then Ok(t, pos, g)
    else
      var lazy := Is(src, pos + 1, '?');
      ParseSuffixes(src, if lazy then pos + 2 else pos + 1, g, Rep(OpOf(src[pos]), t, lazy))
  }

  predicate IsNonCapture(src: string, pos: nat) {
    Is(src, pos, '?') && Is(src, pos + 1, ':')
  }

  function ParseAtom(src: string, pos: nat, g: nat): (r: Parsed)
    requires pos <= |src|
    ensures r.Ok? ==> pos < r.pos <= |src|
    decreases |src| - pos, 1
  {
    if pos == |src| then Bad(UnexpectedEnd)
    else match src[pos]
      case '(' =>
        if IsNonCapture(src, pos + 1) then
          match ParseAlt(src, pos + 3, g)
            case Bad(e) => Bad(e)
            case Ok(t, p, g1) => if Is(src, p, ')') then Ok(t, p + 1, g1) else Bad(MissingParen)
        else if g + 1 >= MAX_GROUPS then Bad(TooManyGroups)
        else
          (match ParseAlt(src, pos + 1, g + 1)
           case Bad(e) => Bad(e)
           case Ok(t, p, g1) => if Is(src, p, ')') then Ok(Group(g + 1, t), p + 1, g1) else Bad(MissingParen))
      case '[' =>
        (match ParseClass(src, pos + 1)
         case BadClass(e) => Bad(e)
         case OkClass(cls, p) => Ok(One(Set(cls)), p, g))
      case '.' => Ok(One(Dot), pos + 1, g)
      case '^' => Ok(One(Bol), pos + 1, g)
      case '$' => Ok(One(Eol), pos + 1, g)
      case '\\' =>
        if pos + 1 == |src| then Bad(NothingAfterBackslash)
        else
          var e := src[pos + 1];
          Ok(One(if EscClass(e).Some? then Set(EscClass(e).value) else Lit(EscChar(e))), pos + 2, g)
      case ')' => Bad(UnmatchedParen)
      case c => if c == '*' || c == '+' then Bad(NothingToRepeat) else Ok(One(Lit(c)), pos + 1, g)
  }

  /** What `compile` reads: the whole pattern or an error. */
  function ParsePattern(src: string): Parsed {
    match ParseAlt(src, 0, 0)
    case Bad(e) => Bad(e)
    case Ok(t, p, g) => if p < |src| then Bad(CannotRead(p)) else Ok(t, p, g)
  }

  // ---- group numbers

  function Count(t: Re): nat {
    match t
    case Cat(l, r) => Count(l) + Count(r)
    case Alt(l, r) => Count(l) + Count(r)
    case Rep(_, b, _) => Count(b)
    case Group(_, b) => 1 + Count(b)
    case _ => 0
  }

  /** The groups of `t` are numbered from `g + 1` on, in the order of their opening parentheses. */
  predicate Numbered(t: Re, g: nat) {
    match t
    case Cat(l, r) => Numbered(l, g) && Numbered(r, g + Count(l))
    case Alt(l, r) => Numbered(l, g) && Numbered(r, g + Count(l))
    case Rep(_, b, _) => Numbered(b, g)
    case Group(k, b) => k == g + 1 && Numbered(b, g + 1)
    case _ => true
  }

  ghost predicate WellNumbered(r: Parsed, g: nat) {
    r.Ok? ==> Numbered(r.tree, g) && r.groups == g + Count(r.tree) && (g < MAX_GROUPS ==> r.groups < MAX_GROUPS)
  }

  lemma {:induction false} AltNumbered(src: string, pos: nat, g: nat)
    requires pos <= |src|
    ensures WellNumbered(ParseAlt(src, pos, g), g)
    decreases |src| - pos, 6
  {
    ConcatRestNumbered(src, pos, g, g, Empty);
    var r := ParseConcat(src, pos, g);
    if r.Ok? {
      AltRestNumbered(src, r.pos, g, r.groups, r.tree);
    }
  }

  lemma {:induction false} AltRestNumbered(src: string, pos: nat, g0: nat, g: nat, acc: Re)
    requires pos <= |src|
    requires WellNumbered(Ok(acc, pos, g), g0)
    ensures WellNumbered(ParseAltRest(src, pos, g, acc), g0)
    decreases |src| - pos, 5
  {
    if Is(src, pos, '|') {
      ConcatRestNumbered(src, pos + 1, g, g, Empty);
      var r := ParseConcat(src, pos + 1, g);
      if r.Ok? {
        AltRestNumbered(src, r.pos, g0, r.groups, Alt(acc, r.tree));
      }
    }
  }

  lemma {:induction false} ConcatRestNumbered(src: string, pos: nat, g0: nat, g: nat, acc: Re)
    requires pos <= |src|
    requires WellNumbered(Ok(acc, pos, g), g0)
    ensures WellNumbered(ParseConcatRest(src, pos, g, acc), g0)
    decreases |src| - pos, 3
  {
    if !(pos == |src| || src[pos] == '|' || src[pos] == ')') {
      RepeatNumbered(src, pos, g);
      var r := ParseRepeat(src, pos, g);
      if r.Ok? {
        ConcatRestNumbered(src, r.pos, g0, r.groups, Cat(acc, r.tree));
      }
    }
  }

  lemma {:induction false} RepeatNumbered(src: string, pos: nat, g: nat)
    requires pos <= |src|
    ensures WellNumbered(ParseRepeat(src, pos, g), g)
    decreases |src| - pos, 2
  {
    if pos < |src| && src[pos] == '(' {
      if IsNonCapture(src, pos + 1) {
        AltNumbered(src, pos + 3, g);
      } else if g + 1 < MAX_GROUPS {
        AltNumbered(src, pos + 1, g + 1);
      }
    }
    var r := ParseAtom(src, pos, g);
    if r.Ok? {
      SuffixesNumbered(src, r.pos, g, r.groups, r.tree);
    }
  }

  lemma {:induction false} SuffixesNumbered(src: string, pos: nat, g0: nat, g: nat, t: Re)
    requires pos <= |src|
    requires WellNumbered(Ok(t, pos, g), g0)
    ensures WellNumbered(ParseSuffixes(src, pos, g, t), g0)
    decreases |src| - pos
  {
    if IsSuffix(src, pos) {
      var lazy := Is(src, pos + 1, '?');
      SuffixesNumbered(src, if lazy then pos + 2 else pos + 1, g0, g, Rep(OpOf(src[pos]), t, lazy));
    }
  }

  /** Groups get the numbers 1, 2, ... in the order of their opening parentheses, at most 9 of them. */
  lemma PatternNumbered(src: string)
    requires ParsePattern(src).Ok?
    ensures Numbered(ParsePattern(src).tree, 0)
    ensures ParsePattern(src).groups == Count(ParsePattern(src).tree) <= 9
  {
    AltNumbered(src, 0, 0);
  }
}
