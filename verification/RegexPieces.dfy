/**
 * Which characters a piece of a pattern stands for, said by the characters themselves and apart from
 * the tables of the compiler (micai/src/regex.rs).
 */
module RegexPieces {
  import opened RegexSyntax
  import opened RegexSpelling
  import opened RegexMeaning
  import opened RegexMachine
  import opened RegexCompiler
  import opened RegexCorrect
  import opened RegexTheorems
  import opened RegexGrammar
  import opened Texts

  /** A backslash and a letter. A class letter stands for its own characters, in capitals too. */
  predicate EscapeStandsFor(e: char, c: char) {
    if e == 'd' || e == 'D' then '0' <= c <= '9'
    else if e == 'w' || e == 'W' then 'a' <= c <= 'z' || 'A' <= c <= 'Z' || '0' <= c <= '9' || c == '_'
    else if e == 's' || e == 'S' then c as int == 32 || c as int == 9 || c as int == 10 || c as int == 13
    else if e == 'n' then c as int == 10
    else if e == 't' then c as int == 9
    else if e == 'r' then c as int == 13
    else if e == '0' then c as int == 0
    else c == e
  }

  /** A member of a class. */
  predicate StandsFor(m: Member, c: char) {
    match m
    case Escaped(e) => EscapeStandsFor(e, c)
    case Span(lo, hi) => lo <= c && c <= hi
    case Single(x) => c == x
  }

  ghost predicate SomeStandsFor(ms: seq<Member>, c: char) {
    exists k :: 0 <= k < |ms| && StandsFor(ms[k], c)
  }

  /** A piece that reads a character. Outside brackets a capital class letter stands for all others. */
  ghost predicate Takes(x: Spelling, c: char) {
    match x
    case Plain(d) => d == '.' || c == d
    case Escape(e) => EscapeStandsFor(e, c) != (e == 'D' || e == 'W' || e == 'S')
    case Bracket(neg, ms) => SomeStandsFor(ms, c) != neg
  }

  // ------------------------------------------------------------------ the tables say the same

  ghost predicate Covered(rs: seq<Range>, c: char) {
    exists k :: 0 <= k < |rs| && rs[k].lo <= c && c <= rs[k].hi
  }

  lemma CoveredJoin(a: seq<Range>, b: seq<Range>, c: char)
    ensures Covered(a + b, c) <==> Covered(a, c) || Covered(b, c)
  {
    var r := a + b;
    if Covered(a, c) {
      var k :| 0 <= k < |a| && a[k].lo <= c && c <= a[k].hi;
      assert r[k] == a[k];
    }
    if Covered(b, c) {
      var k :| 0 <= k < |b| && b[k].lo <= c && c <= b[k].hi;
      assert r[|a| + k] == b[k];
    }
  }

  lemma OneCovers(lo: char, hi: char, c: char)
    ensures Covered([Range(lo, hi)], c) <==> lo <= c && c <= hi
  {
    assert [Range(lo, hi)][0] == Range(lo, hi);
  }

  lemma ClassLetters(c: char)
    ensures Covered(Digits, c) <==> EscapeStandsFor('d', c)
    ensures Covered(Words, c) <==> EscapeStandsFor('w', c)
    ensures Covered(Spaces, c) <==> EscapeStandsFor('s', c)
  {
    assert Digits[0] == Range('0', '9');
    assert Words[0] == Range('a', 'z') && Words[1] == Range('A', 'Z') && Words[2] == Range('0', '9') && Words[3] == Range('_', '_');
    assert Spaces[0] == Range(' ', ' ') && Spaces[1] == Range('\t', '\t') && Spaces[2] == Range('\n', '\n') && Spaces[3] == Range('\r', '\r');
  }

  lemma MemberCovers(m: Member, c: char)
    ensures Covered(MemberRanges(m), c) <==> StandsFor(m, c)
  {
    match m
    case Escaped(e) =>
      ClassLetters(c);
      OneCovers(EscChar(e), EscChar(e), c);
    case Span(lo, hi) => OneCovers(lo, hi, c);
    case Single(x) => OneCovers(x, x, c);
  }

  lemma {:induction false} MembersCover(ms: seq<Member>, c: char)
    ensures Covered(MembersRanges(ms), c) <==> SomeStandsFor(ms, c)
    decreases |ms|
  {
    if ms != [] {
      MemberCovers(ms[0], c);
      MembersCover(ms[1..], c);
      CoveredJoin(MemberRanges(ms[0]), MembersRanges(ms[1..]), c);
      if StandsFor(ms[0], c) { assert SomeStandsFor(ms, c); }
      if SomeStandsFor(ms[1..], c) {
        var k :| 0 <= k < |ms| - 1 && StandsFor(ms[1..][k], c);
        assert ms[k + 1] == ms[1..][k];
      }
      if SomeStandsFor(ms, c) && !StandsFor(ms[0], c) {
        var k :| 0 <= k < |ms| && StandsFor(ms[k], c);
        assert ms[1..][k - 1] == ms[k];
      }
    }
  }

  lemma ClassTakes(x: Spelling, c: char)
    requires SpellLeaf(x).Set?
    ensures SpellLeaf(x).cls.Has(c) <==> Takes(x, c)
  {
    if x.Bracket? {
      MembersCover(x.ms, c);
      assert Covered(MembersRanges(x.ms), c) == SomeStandsFor(x.ms, c);
    } else {
      ClassLetters(c);
    }
  }

  // ------------------------------------------------------------------ what a piece matches

  /** `^` and `$` match nothing, in their places; every other piece matches one character that it takes. */
  ghost predicate PieceAt(x: Spelling, inp: string, i: nat, j: nat) {
    if x == Plain('^') then i == 0 && j == i
    else if x == Plain('$') then i == |inp| && j == i
    else i < |inp| && j == i + 1 && Takes(x, inp[i])
  }

  /** Each spelled piece matches just what its characters say. */
  lemma PieceMatches(x: Spelling, inp: string, i: nat, j: nat)
    requires SpellOk(x)
    ensures Matches(One(SpellLeaf(x)), inp, i, j) <==> PieceAt(x, inp, i, j)
  {
    if i < |inp| && SpellLeaf(x).Set? { ClassTakes(x, inp[i]); }
  }

  /** The one derivation of a pattern that is one piece. */
  lemma PieceIsRead(x: Spelling)
    requires SpellOk(x)
    ensures ParsePattern(SpellText(x)) == Ok(Cat(Empty, One(SpellLeaf(x))), |SpellText(x)|, 0)
  {
    var src := SpellText(x);
    HasIt(src, 0, src);
    var none := Part(0, 0, 0, 0, Empty, Nothing);
    var piece := Part(0, |src|, 0, 0, One(SpellLeaf(x)), Piece(x));
    DerivedIsRead(src, Part(0, |src|, 0, 0, Cat(Empty, One(SpellLeaf(x))), Pair(none, piece)));
  }

  /**
   * From the text of the pattern to the answer of the machine: a pattern of one piece is found at a
   * place exactly when the character there is one that the piece takes, and then just that is captured.
   */
  lemma PieceIsFound(x: Spelling, p: Prog, inp: string, start: nat, cap: nat)
    requires SpellOk(x) && Compiles(SpellText(x), Cat(Empty, One(SpellLeaf(x))), p)
    requires cap >= EnoughSteps(Cat(Empty, One(SpellLeaf(x))), inp, 0)
    ensures Runnable(p)
    ensures var r := Matched(p, inp, start, cap);
      (r.Some? <==> exists j: nat :: PieceAt(x, inp, start, j)) &&
      (r.Some? ==> r.value[0] == start && r.value[1] >= 0 && PieceAt(x, inp, start, r.value[1]))
  {
    var src, t := SpellText(x), Cat(Empty, One(SpellLeaf(x)));
    forall j: nat ensures Matches(t, inp, start, j) <==> PieceAt(x, inp, start, j) {
      PieceMatches(x, inp, start, j);
      assert Matches(Empty, inp, start, start);
    }
    SafeMatchAt(src, t, p, inp, start, cap);
    MatchAtIsRight(src, t, p, inp, start, cap);
    if Matched(p, inp, start, cap).Some? {
      var saves := Matched(p, inp, start, cap).value;
      BestIsMatch(src, t, p, inp, start, saves);
      var end: nat := saves[1];
      assert PieceAt(x, inp, start, end);
    } else {
      forall j: nat ensures !PieceAt(x, inp, start, j) { assert !Matches(t, inp, start, j); }
    }
  }
}
