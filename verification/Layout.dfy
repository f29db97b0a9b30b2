/**
 * The layout machine of the lexer (micai/src/lexer.rs): indentation becomes tokens. What a token
 * other than a line end looks like is left to `scan`.
 */
module Layout {

  /** Brackets matter for layout; every other token is a `Word`. */
  datatype Tok = Newline | Indent | Dedent | Eof | Open | Close | Word

  datatype Scanned = Token(tok: Tok, next: nat) | NoToken

  datatype Fault = Tab | NotFour(n: nat) | NoSuchBlock(n: nat) | BadToken

  datatype Result = Ok | Failed(fault: Fault)

  const INDENT_WIDTH: nat := 4

  // ------------------------------------------------------------------ what tokens say

  /** Indents without their dedent. */
  function Level(ts: seq<Tok>): int {
    if ts == [] then 0
    else Level(ts[..|ts| - 1]) + if ts[|ts| - 1].Indent? then 1 else if ts[|ts| - 1].Dedent? then -1 else 0
  }

  /** How many brackets are open after one more token. */
  function Deeper(d: nat, t: Tok): nat {
    if t.Open? then d + 1 else if t.Close? && d > 0 then d - 1 else d
  }

  /** Brackets without their partner. A closing bracket with nothing to close is passed over. */
  function Brackets(ts: seq<Tok>): nat {
    if ts == [] then 0
    else
      Deeper(Brackets(ts[..|ts| - 1]), ts[|ts| - 1])
  }

  ghost predicate NeverBelow(ts: seq<Tok>) {
    forall k :: 0 <= k <= |ts| ==> Level(ts[..k]) >= 0
  }

  /** A line end comes after something, and not after another line end. */
  ghost predicate NewlinesApart(ts: seq<Tok>) {
    forall k :: 0 <= k < |ts| && ts[k].Newline? ==> k > 0 && !ts[k - 1].Newline?
  }

  ghost predicate NewlinesOutside(ts: seq<Tok>) {
    forall k :: 0 <= k < |ts| && ts[k].Newline? ==> Brackets(ts[..k]) == 0
  }

  /** Open blocks: from no indentation on, each deeper than the last, in steps of four. */
  ghost predicate Steps(indents: seq<nat>) {
    indents != [] && indents[0] == 0 &&
    (forall i :: 0 <= i < |indents| ==> indents[i] % INDENT_WIDTH == 0) &&
    (forall i, j :: 0 <= i < j < |indents| ==> indents[i] < indents[j])
  }

  ghost predicate LastIsNewline(ts: seq<Tok>) {
    ts == [] || ts[|ts| - 1].Newline?
  }

  lemma PrefixOfMore(ts: seq<Tok>, t: Tok, k: nat)
    requires k <= |ts|
    ensures (ts + [t])[..k] == ts[..k]
  {
  }

  lemma OneLevel(ts: seq<Tok>, t: Tok)
    ensures Level(ts + [t]) == Level(ts) + if t.Indent? then 1 else if t.Dedent? then -1 else 0
    ensures Brackets(ts + [t]) == Deeper(Brackets(ts), t)
  {
    assert (ts + [t])[..|ts|] == ts;
  }

  lemma OneBelow(ts: seq<Tok>, t: Tok)
    ensures NeverBelow(ts + [t]) <==> NeverBelow(ts) && Level(ts + [t]) >= 0
  {
    var r := ts + [t];
    assert r[..|r|] == r;
    if NeverBelow(r) {
      forall k | 0 <= k <= |ts| ensures Level(ts[..k]) >= 0 { PrefixOfMore(ts, t, k); assert Level(r[..k]) >= 0; }
      assert Level(r[..|r|]) >= 0;
    }
    if NeverBelow(ts) && Level(r) >= 0 {
      forall k | 0 <= k <= |r| ensures Level(r[..k]) >= 0 {
        if k < |r| { PrefixOfMore(ts, t, k); }
      }
    }
  }

  lemma OneOutside(ts: seq<Tok>, t: Tok)
    ensures NewlinesOutside(ts + [t]) <==> NewlinesOutside(ts) && (t.Newline? ==> Brackets(ts) == 0)
  {
    var r := ts + [t];
    PrefixOfMore(ts, t, |ts|);
    assert ts[..|ts|] == ts && r[|ts|] == t;
    if NewlinesOutside(r) {
      forall k | 0 <= k < |ts| && ts[k].Newline? ensures Brackets(ts[..k]) == 0 { PrefixOfMore(ts, t, k); assert r[k] == ts[k]; }
      assert r[|ts|].Newline? ==> Brackets(r[..|ts|]) == 0;
    }
    if NewlinesOutside(ts) && (t.Newline? ==> Brackets(ts) == 0) {
      forall k | 0 <= k < |r| && r[k].Newline? ensures Brackets(r[..k]) == 0 {
        PrefixOfMore(ts, t, k);
        if k < |ts| { assert ts[k] == r[k]; }
      }
    }
  }

  lemma OneApart(ts: seq<Tok>, t: Tok)
    ensures NewlinesApart(ts + [t]) <==> NewlinesApart(ts) && (t.Newline? ==> !LastIsNewline(ts))
  {
    var r := ts + [t];
    assert forall k :: 0 <= k < |ts| ==> r[k] == ts[k];
    assert r[|ts|] == t;
    if NewlinesApart(r) {
      forall k | 0 <= k < |ts| && ts[k].Newline? ensures k > 0 && !ts[k - 1].Newline? {
        assert r[k].Newline?;
        assert r[k - 1] == ts[k - 1];
      }
      if t.Newline? { assert r[|ts|].Newline?; }
    }
    if NewlinesApart(ts) && (t.Newline? ==> !LastIsNewline(ts)) {
      forall k | 0 <= k < |r| && r[k].Newline? ensures k > 0 && !r[k - 1].Newline? {
        if k < |ts| { assert ts[k].Newline?; assert r[k - 1] == ts[k - 1]; }
      }
    }
  }

  lemma OneMore(ts: seq<Tok>, t: Tok)
    ensures Level(ts + [t]) == Level(ts) + if t.Indent? then 1 else if t.Dedent? then -1 else 0
    ensures Brackets(ts + [t]) == Deeper(Brackets(ts), t)
    ensures NeverBelow(ts + [t]) <==> NeverBelow(ts) && Level(ts + [t]) >= 0
    ensures NewlinesOutside(ts + [t]) <==> NewlinesOutside(ts) && (t.Newline? ==> Brackets(ts) == 0)
    ensures NewlinesApart(ts + [t]) <==> NewlinesApart(ts) && (t.Newline? ==> !LastIsNewline(ts))
  {
    OneLevel(ts, t);
    OneBelow(ts, t);
    OneOutside(ts, t);
    OneApart(ts, t);
  }

  function Top(indents: seq<nat>): nat
    requires indents != []
  {
    indents[|indents| - 1]
  }

  /** The blocks that are at most `n` deep. */
  function Upto(indents: seq<nat>, n: nat): seq<nat> {
    if indents != [] && Top(indents) > n then Upto(indents[..|indents| - 1], n) else indents
  }

  lemma StepsPush(indents: seq<nat>, n: nat)
    requires Steps(indents) && n > Top(indents) && n % INDENT_WIDTH == 0
    ensures Steps(indents + [n])
  {
    var r := indents + [n];
    forall i, j | 0 <= i < j < |r| ensures r[i] < r[j] {
      assert r[i] == indents[i];
      if j == |indents| { assert i == |indents| - 1 || indents[i] < Top(indents); } else { assert r[j] == indents[j]; }
    }
  }

  lemma StepsPop(indents: seq<nat>)
    requires Steps(indents) && Top(indents) > 0
    ensures Steps(indents[..|indents| - 1])
  {
  }

  lemma StepsBelowTop(indents: seq<nat>, n: nat)
    requires Steps(indents)
    ensures n in indents ==> n <= Top(indents)
  {
    if n in indents {
      var i :| 0 <= i < |indents| && indents[i] == n;
      assert i == |indents| - 1 || indents[i] < Top(indents);
    }
  }

  lemma {:induction false} StepsUpto(indents: seq<nat>, n: nat)
    requires Steps(indents)
    ensures Upto(indents, n) != [] && Top(Upto(indents, n)) <= n
    ensures Top(Upto(indents, n)) == n <==> n in indents
    decreases |indents|
  {
    StepsBelowTop(indents, n);
    if Top(indents) > n {
      var init := indents[..|indents| - 1];
      StepsPop(indents);
      StepsUpto(init, n);
      assert indents == init + [Top(indents)];
    }
  }

  // ------------------------------------------------------------------ what a text says

  /** `scan` gives brackets and words, each at least one character long and inside the text. */
  ghost predicate Scans(src: string, scan: nat -> Scanned) {
    forall p :: 0 <= p < |src| && scan(p).Token? ==>
      p < scan(p).next <= |src| && (scan(p).tok.Open? || scan(p).tok.Close? || scan(p).tok.Word?)
  }

  /** The end of the line that `p` is in. */
  function Feed(src: string, p: nat): (q: nat)
    requires p <= |src|
    ensures p <= q <= |src| && (q < |src| ==> src[q] == '\n') && forall k :: p <= k < q ==> src[k] != '\n'
    decreases |src| - p
  {
    if p == |src| || src[p] == '\n' then p else Feed(src, p + 1)
  }

  /** The first place from `p` on that is not a space. */
  function Margin(src: string, p: nat): (q: nat)
    requires p <= |src|
    ensures p <= q <= |src| && (q < |src| ==> src[q] != ' ') && forall k :: p <= k < q ==> src[k] == ' '
    decreases |src| - p
  {
    if p == |src| || src[p] != ' ' then p else Margin(src, p + 1)
  }

  /** A character that begins a token, at the start of a line and inside one. */
  predicate IsContent(c: char) {
    c != ' ' && c != '\r' && c != '\n' && c != '#'
  }

  /** A logical line: its indentation, and its tokens up to the first line end outside brackets. */
  datatype Line = Line(indent: nat, toks: seq<Tok>)

  datatype End = Clean | Broken(fault: Fault)

  /** The rest of the line under way, the lines after it, and whether reading stops early. */
  datatype Doc = Doc(rest: seq<Tok>, lines: seq<Line>, end: End)

  /** What lies ahead at `p`: inside a line (`mid`) with `d` open brackets, or where a line starts. */
  ghost function Ahead(src: string, scan: nat -> Scanned, p: nat, mid: bool, d: nat): (a: Doc)
    requires p <= |src| && Scans(src, scan)
    ensures !mid ==> a.rest == []
    decreases |src| - p, if mid then 0 else 1
  {
    if mid then
      if p == |src| then Doc([], [], Clean)
      else if src[p] == ' ' || src[p] == '\r' then Ahead(src, scan, p + 1, true, d)
      else if src[p] == '#' then Ahead(src, scan, Feed(src, p), true, d)
      else if src[p] == '\n' then Ahead(src, scan, p + 1, d > 0, d)
      else if scan(p).NoToken? then Doc([], [], Broken(BadToken))
      else
        var b := Ahead(src, scan, scan(p).next, true, Deeper(d, scan(p).tok));
        Doc([scan(p).tok] + b.rest, b.lines, b.end)
    else
      var q := Margin(src, p);
      if q == |src| then Doc([], [], Clean)
      else if src[q] == '\t' then Doc([], [], Broken(Tab))
      else if !IsContent(src[q]) then
        if Feed(src, q) == |src| then Doc([], [], Clean) else Ahead(src, scan, Feed(src, q) + 1, false, 0)
      else if (q - p) % INDENT_WIDTH != 0 then Doc([], [], Broken(NotFour(q - p)))
      else
        var b := Ahead(src, scan, q, true, 0);
        Doc([], [Line(q - p, b.rest)] + b.lines, b.end)
  }

  // ------------------------------------------------------------------ how lines are laid out

  /** The open blocks once a line with `n` spaces has begun. */
  function Shifted(indents: seq<nat>, n: nat): seq<nat> {
    if indents != [] && n > Top(indents) then indents + [n] else Upto(indents, n)
  }

  predicate Fits(indents: seq<nat>, n: nat) {
    n in indents || (indents != [] && n > Top(indents))
  }

  function Dedents(k: int): (r: seq<Tok>)
    decreases k
  {
    if k <= 0 then [] else Dedents(k - 1) + [Dedent]
  }

  function ShiftToks(indents: seq<nat>, n: nat): seq<Tok> {
    if indents != [] && n > Top(indents) then [Indent] else Dedents(|indents| - |Upto(indents, n)|)
  }

  datatype Outcome = Good(toks: seq<Tok>) | Bad(fault: Fault)

  function Prefixed(ts: seq<Tok>, o: Outcome): Outcome {
    if o.Good? then Good(ts + o.toks) else o
  }

  /** Each line after what its indentation opens or closes; at the end, all blocks are closed. */
  function Lay(lines: seq<Line>, indents: seq<nat>, end: End): Outcome
    decreases |lines|
  {
    if lines == [] then
      if end.Broken? then Bad(end.fault) else Good(Dedents(|indents| - 1) + [Eof])
    else if !Fits(indents, lines[0].indent) then Bad(NoSuchBlock(lines[0].indent))
    else Prefixed(ShiftToks(indents, lines[0].indent) + (lines[0].toks + [Newline]),
                  Lay(lines[1..], Shifted(indents, lines[0].indent), end))
  }

  /** The tokens of a text, or its first fault. */
  ghost function Tokens(src: string, scan: nat -> Scanned): Outcome
    requires Scans(src, scan)
  {
    Lay(Ahead(src, scan, 0, false, 0).lines, [0], Ahead(src, scan, 0, false, 0).end)
  }

  lemma PrefixedTwice(a: seq<Tok>, b: seq<Tok>, o: Outcome)
    ensures Prefixed(a, Prefixed(b, o)) == Prefixed(a + b, o)
  {
    if o.Good? { assert a + (b + o.toks) == (a + b) + o.toks; }
  }

  lemma OneDedent(ts: seq<Tok>, k: nat)
    requires k > 0
    ensures (ts + Dedents(k - 1)) + [Dedent] == ts + Dedents(k)
  {
    assert ts + (Dedents(k - 1) + [Dedent]) == (ts + Dedents(k - 1)) + [Dedent];
  }

  lemma NothingBefore(o: Outcome)
    ensures Prefixed([], o) == o
  {
    if o.Good? { assert [] + o.toks == o.toks; }
  }

  lemma LayLine(l: Line, ls: seq<Line>, indents: seq<nat>, end: End, before: seq<Tok>)
    ensures Prefixed(before, Lay([l] + ls, indents, end)) ==
      if !Fits(indents, l.indent) then Bad(NoSuchBlock(l.indent))
      else Prefixed((before + ShiftToks(indents, l.indent)) + (l.toks + [Newline]), Lay(ls, Shifted(indents, l.indent), end))
  {
    assert ([l] + ls)[0] == l && ([l] + ls)[1..] == ls;
    if Fits(indents, l.indent) {
      var o := Lay(ls, Shifted(indents, l.indent), end);
      var sh := ShiftToks(indents, l.indent);
      PrefixedTwice(before, sh + (l.toks + [Newline]), o);
      assert before + (sh + (l.toks + [Newline])) == (before + sh) + (l.toks + [Newline]);
    }
  }

  // ------------------------------------------------------------------ what every tokenization keeps

  /** How many brackets are open after `ts`, with `d` open before. */
  function Net(d: nat, ts: seq<Tok>): nat
    decreases |ts|
  {
    if ts == [] then d else Net(Deeper(d, ts[0]), ts[1..])
  }

  predicate IsPlain(t: Tok) {
    t.Open? || t.Close? || t.Word?
  }

  ghost predicate AllPlain(ts: seq<Tok>) {
    forall k :: 0 <= k < |ts| ==> IsPlain(ts[k])
  }

  /** Lines as they are read: each has a token, and only the last may leave brackets open. */
  ghost predicate Shaped(lines: seq<Line>, whole: bool) {
    (forall k :: 0 <= k < |lines| ==> AllPlain(lines[k].toks) && lines[k].indent % INDENT_WIDTH == 0) &&
    (whole ==> forall k :: 0 <= k < |lines| ==> lines[k].toks != []) &&
    (forall k :: 0 <= k < |lines| - 1 ==> Net(0, lines[k].toks) == 0)
  }

  lemma ShapedMore(l: Line, ls: seq<Line>, whole: bool)
    requires Shaped(ls, whole) && AllPlain(l.toks) && l.indent % INDENT_WIDTH == 0
    requires (whole ==> l.toks != []) && (ls != [] ==> Net(0, l.toks) == 0)
    ensures Shaped([l] + ls, whole)
  {
    var r := [l] + ls;
    assert forall k :: 1 <= k < |r| ==> r[k] == ls[k - 1];
  }

  lemma ShapedRest(lines: seq<Line>, whole: bool)
    requires Shaped(lines, whole) && lines != []
    ensures Shaped(lines[1..], whole)
  {
    var r := lines[1..];
    assert forall k :: 0 <= k < |r| ==> r[k] == lines[k + 1];
  }

  /** What was read of the line under way and after it, with `d` brackets open at its start. */
  ghost predicate DocOk(a: Doc, mid: bool, d: nat) {
    AllPlain(a.rest) && Shaped(a.lines, a.end.Clean?) && (mid && a.lines != [] ==> Net(d, a.rest) == 0)
  }

  lemma DocOneMore(t: Tok, b: Doc, d: nat)
    requires IsPlain(t) && DocOk(b, true, Deeper(d, t))
    ensures DocOk(Doc([t] + b.rest, b.lines, b.end), true, d)
  {
    assert ([t] + b.rest)[0] == t && ([t] + b.rest)[1..] == b.rest;
  }

  lemma {:induction false} AheadShaped(src: string, scan: nat -> Scanned, p: nat, mid: bool, d: nat)
    requires p <= |src| && Scans(src, scan)
    ensures DocOk(Ahead(src, scan, p, mid, d), mid, d)
    ensures mid && p < |src| && IsContent(src[p]) && Ahead(src, scan, p, mid, d).end.Clean? ==> Ahead(src, scan, p, mid, d).rest != []
    decreases |src| - p, if mid then 0 else 2
  {
    if mid {
      if p == |src| {
      } else if src[p] == ' ' || src[p] == '\r' {
        AheadShaped(src, scan, p + 1, true, d);
      } else if src[p] == '#' {
        AheadShaped(src, scan, Feed(src, p), true, d);
      } else if src[p] == '\n' {
        AheadShaped(src, scan, p + 1, d > 0, d);
      } else if scan(p).Token? {
        var t := scan(p).tok;
        AheadShaped(src, scan, scan(p).next, true, Deeper(d, t));
        DocOneMore(t, Ahead(src, scan, scan(p).next, true, Deeper(d, t)), d);
      }
    } else {
      LineShaped(src, scan, p, d);
    }
  }

  lemma {:induction false} LineShaped(src: string, scan: nat -> Scanned, p: nat, d: nat)
    requires p <= |src| && Scans(src, scan)
    ensures DocOk(Ahead(src, scan, p, false, d), false, d)
    decreases |src| - p, 1
  {
    var q := Margin(src, p);
    if q == |src| || src[q] == '\t' {
    } else if !IsContent(src[q]) {
      if Feed(src, q) < |src| { AheadShaped(src, scan, Feed(src, q) + 1, false, 0); }
    } else if (q - p) % INDENT_WIDTH == 0 {
      AheadShaped(src, scan, q, true, 0);
      var b := Ahead(src, scan, q, true, 0);
      ShapedMore(Line(q - p, b.rest), b.lines, b.end.Clean?);
    }
  }

  /** `r` goes on from `ts` with nothing amiss. */
  ghost predicate GoesOn(ts: seq<Tok>, r: seq<Tok>) {
    (NeverBelow(ts) ==> NeverBelow(r)) && (NewlinesApart(ts) ==> NewlinesApart(r)) &&
    (NewlinesOutside(r) <==> NewlinesOutside(ts)) && (Eof !in ts ==> Eof !in r)
  }

  lemma {:induction false} AddPlain(ts: seq<Tok>, more: seq<Tok>)
    requires AllPlain(more) && Level(ts) >= 0
    ensures GoesOn(ts, ts + more)
    ensures Level(ts + more) == Level(ts) && Brackets(ts + more) == Net(Brackets(ts), more)
    ensures more != [] ==> !LastIsNewline(ts + more)
    decreases |more|
  {
    if more == [] {
      assert ts + more == ts;
    } else {
      assert IsPlain(more[0]);
      OneMore(ts, more[0]);
      AddPlain(ts + [more[0]], more[1..]);
      assert (ts + [more[0]]) + more[1..] == ts + more;
      assert (ts + more)[|ts + more| - 1] == more[|more| - 1];
      assert IsPlain(more[|more| - 1]);
    }
  }

  lemma {:induction false} AddDedents(ts: seq<Tok>, k: nat)
    requires Level(ts) >= k
    ensures GoesOn(ts, ts + Dedents(k))
    ensures Level(ts + Dedents(k)) == Level(ts) - k && Brackets(ts + Dedents(k)) == Brackets(ts)
  {
    if k == 0 {
      assert ts + Dedents(0) == ts;
    } else {
      AddDedents(ts, k - 1);
      OneDedent(ts, k);
      OneMore(ts + Dedents(k - 1), Dedent);
    }
  }

  lemma UptoIsShorter(indents: seq<nat>, n: nat)
    ensures |Upto(indents, n)| <= |indents|
    ensures indents != [] && indents[0] == 0 ==> Upto(indents, n) != []
  {
  }

  lemma {:induction false} ShiftKeepsSteps(indents: seq<nat>, n: nat)
    requires Steps(indents) && n % INDENT_WIDTH == 0
    ensures Steps(Shifted(indents, n))
    decreases |indents|
  {
    if n > Top(indents) {
      StepsPush(indents, n);
    } else if n < Top(indents) {
      StepsPop(indents);
      UptoKeepsSteps(indents[..|indents| - 1], n);
    }
  }

  lemma {:induction false} UptoKeepsSteps(indents: seq<nat>, n: nat)
    requires Steps(indents)
    ensures Steps(Upto(indents, n))
    decreases |indents|
  {
    if Top(indents) > n {
      StepsPop(indents);
      UptoKeepsSteps(indents[..|indents| - 1], n);
    }
  }

  /** What a line's indentation puts out brings the level to the blocks then open. */
  lemma AddShift(ts: seq<Tok>, indents: seq<nat>, n: nat)
    requires Steps(indents) && Level(ts) == |indents| - 1
    ensures var r := ts + ShiftToks(indents, n);
      GoesOn(ts, r) && Level(r) == |Shifted(indents, n)| - 1 && Brackets(r) == Brackets(ts)
  {
    ShiftIs(indents, n);
    if n > Top(indents) {
      OpenOne(ts);
    } else {
      CloseDown(ts, |indents|, |Upto(indents, n)|, indents, n);
    }
  }

  lemma ShiftIs(indents: seq<nat>, n: nat)
    requires indents != []
    ensures if n > Top(indents) then ShiftToks(indents, n) == [Indent] && |Shifted(indents, n)| == |indents| + 1
      else ShiftToks(indents, n) == Dedents(|indents| - |Upto(indents, n)|) && Shifted(indents, n) == Upto(indents, n)
  {
  }

  lemma OpenOne(ts: seq<Tok>)
    requires Level(ts) >= 0
    ensures var r := ts + [Indent]; GoesOn(ts, r) && Level(r) == Level(ts) + 1 && Brackets(r) == Brackets(ts)
  {
    OneMore(ts, Indent);
  }

  lemma CloseDown(ts: seq<Tok>, before: nat, after: nat, indents: seq<nat>, n: nat)
    requires Steps(indents) && Level(ts) == before - 1 && before == |indents| && after == |Upto(indents, n)|
    ensures after <= before
    ensures var r := ts + Dedents(before - after); GoesOn(ts, r) && Level(r) == after - 1 && Brackets(r) == Brackets(ts)
  {
    UptoIsShorter(indents, n);
    AddDedents(ts, before - after);
  }

  lemma SameLine(ts: seq<Tok>, sh: seq<Tok>, toks: seq<Tok>)
    ensures ts + (sh + (toks + [Newline])) == ((ts + sh) + toks) + [Newline]
  {
  }

  /** One line put out after `ts`. */
  lemma AddLine(ts: seq<Tok>, indents: seq<nat>, l: Line)
    requires Steps(indents) && Level(ts) == |indents| - 1 && AllPlain(l.toks) && l.toks != []
    requires NeverBelow(ts) && NewlinesApart(ts) && NewlinesOutside(ts) && Eof !in ts && Brackets(ts) == 0
    ensures var r := ts + (ShiftToks(indents, l.indent) + (l.toks + [Newline]));
      NeverBelow(r) && NewlinesApart(r) && Eof !in r && Level(r) == |Shifted(indents, l.indent)| - 1 &&
      Brackets(r) == Net(0, l.toks) && (NewlinesOutside(r) <==> Net(0, l.toks) == 0)
  {
    var sh := ShiftToks(indents, l.indent);
    UptoIsShorter(indents, l.indent);
    AddShift(ts, indents, l.indent);
    AddPlain(ts + sh, l.toks);
    OneMore((ts + sh) + l.toks, Newline);
    SameLine(ts, sh, l.toks);
  }

  /** Tokens of a whole text: balanced, one end, line ends apart and outside brackets if all are closed. */
  ghost predicate Sound(ts: seq<Tok>) {
    |ts| > 0 && ts[|ts| - 1] == Eof && Eof !in ts[..|ts| - 1] &&
    Level(ts) == 0 && NeverBelow(ts) && NewlinesApart(ts) && (NewlinesOutside(ts) <==> Brackets(ts) == 0)
  }

  /** What has come out when the line under way is done. */
  ghost predicate SoFar(ts: seq<Tok>, indents: seq<nat>) {
    Steps(indents) && Level(ts) == |indents| - 1 && NeverBelow(ts) && NewlinesApart(ts) && Eof !in ts &&
    (NewlinesOutside(ts) <==> Brackets(ts) == 0)
  }

  lemma EndsSound(a: seq<Tok>)
    requires Level(a) == 0 && NeverBelow(a) && NewlinesApart(a) && Eof !in a && (NewlinesOutside(a) <==> Brackets(a) == 0)
    ensures Sound(a + [Eof]) && Brackets(a + [Eof]) == Brackets(a)
  {
    OneMore(a, Eof);
    assert (a + [Eof])[..|a|] == a;
  }

  lemma SameEnd(ts: seq<Tok>, ds: seq<Tok>)
    ensures ts + (ds + [Eof]) == (ts + ds) + [Eof]
  {
  }

  lemma ClosedOff(ts: seq<Tok>, indents: seq<nat>)
    requires SoFar(ts, indents)
    ensures var r := ts + (Dedents(|indents| - 1) + [Eof]); Sound(r) && Brackets(r) == Brackets(ts)
  {
    AddDedents(ts, |indents| - 1);
    EndsSound(ts + Dedents(|indents| - 1));
    SameEnd(ts, Dedents(|indents| - 1));
  }

  lemma OneLineFurther(ts: seq<Tok>, indents: seq<nat>, l: Line)
    requires SoFar(ts, indents) && Brackets(ts) == 0 && AllPlain(l.toks) && l.toks != [] && l.indent % INDENT_WIDTH == 0
    ensures var r := ts + (ShiftToks(indents, l.indent) + (l.toks + [Newline]));
      SoFar(r, Shifted(indents, l.indent)) && Brackets(r) == Net(0, l.toks)
  {
    AddLine(ts, indents, l);
    ShiftKeepsSteps(indents, l.indent);
  }

  /** How many brackets the last line leaves open. */
  function LeftOpen(lines: seq<Line>): nat {
    if lines == [] then 0 else Net(0, lines[|lines| - 1].toks)
  }

  lemma {:induction false} LayIsSound(lines: seq<Line>, indents: seq<nat>, ts: seq<Tok>)
    requires Shaped(lines, true) && SoFar(ts, indents) && (lines != [] ==> Brackets(ts) == 0)
    ensures var o := Prefixed(ts, Lay(lines, indents, Clean));
      o.Good? ==> Sound(o.toks) && Brackets(o.toks) == if lines == [] then Brackets(ts) else LeftOpen(lines)
    decreases |lines|
  {
    if lines == [] {
      ClosedOff(ts, indents);
    } else if Fits(indents, lines[0].indent) {
      var l := lines[0];
      OneLineFurther(ts, indents, l);
      ShapedRest(lines, true);
      var b := ShiftToks(indents, l.indent) + (l.toks + [Newline]);
      PrefixedTwice(ts, b, Lay(lines[1..], Shifted(indents, l.indent), Clean));
      LayIsSound(lines[1..], Shifted(indents, l.indent), ts + b);
    }
  }

  /**
   * The tokens of an accepted text are sound; and no line end in them is inside brackets exactly when
   * the text closes every bracket by the end of its last line.
   */
  lemma TokensAreSound(src: string, scan: nat -> Scanned)
    requires Scans(src, scan)
    ensures var o := Tokens(src, scan);
      o.Good? ==> Sound(o.toks) && (NewlinesOutside(o.toks) <==> LeftOpen(Ahead(src, scan, 0, false, 0).lines) == 0)
  {
    var a := Ahead(src, scan, 0, false, 0);
    AheadShaped(src, scan, 0, false, 0);
    if a.end.Clean? {
      LayIsSound(a.lines, [0], []);
      NothingBefore(Lay(a.lines, [0], Clean));
    } else {
      BrokenIsBad(a.lines, [0], a.end);
    }
  }

  lemma {:induction false} BrokenIsBad(lines: seq<Line>, indents: seq<nat>, end: End)
    requires end.Broken?
    ensures Lay(lines, indents, end).Bad?
    decreases |lines|
  {
    if lines != [] && Fits(indents, lines[0].indent) {
      BrokenIsBad(lines[1..], Shifted(indents, lines[0].indent), end);
    }
  }

  lemma OpenBracketAhead(src: string, scan: nat -> Scanned)
    requires src == ['('] && scan(0) == Token(Open, 1)
    ensures Scans(src, scan) && Ahead(src, scan, 0, false, 0) == Doc([], [Line(0, [Open])], Clean)
  {
    assert Margin(src, 0) == 0;
    assert Ahead(src, scan, 1, true, 1) == Doc([], [], Clean);
    assert [Open] + [] == [Open];
    assert Ahead(src, scan, 0, true, 0) == Doc([Open], [], Clean);
    assert [Line(0, [Open])] + [] == [Line(0, [Open])];
  }

  lemma OpenBracketLaid(l: Line)
    requires l == Line(0, [Open])
    ensures Lay([l], [0], Clean) == Good([Open, Newline, Eof])
  {
    assert [l][1..] == [] && Shifted([0], 0) == [0] && ShiftToks([0], 0) == [];
    assert Lay([], [0], Clean) == Good([Eof]) by { assert Dedents(0) + [Eof] == [Eof]; }
    assert [] + ([Open] + [Newline]) == [Open, Newline];
    assert [Open, Newline] + [Eof] == [Open, Newline, Eof];
  }

  lemma OpenBracketInside(ts: seq<Tok>)
    requires ts == [Open, Newline, Eof]
    ensures !NewlinesOutside(ts)
  {
    OneLevel([], Open);
    assert ts[..1] == [] + [Open];
    assert ts[1].Newline? && Brackets(ts[..1]) == 1;
  }

  /** A bracket that is never closed is no fault, and the last line end then lies inside it. */
  lemma OpenBracketAtEnd(src: string, scan: nat -> Scanned)
    requires src == ['('] && scan(0) == Token(Open, 1)
    ensures Scans(src, scan) && Tokens(src, scan) == Good([Open, Newline, Eof])
    ensures !NewlinesOutside([Open, Newline, Eof])
  {
    OpenBracketAhead(src, scan);
    OpenBracketLaid(Line(0, [Open]));
    OpenBracketInside([Open, Newline, Eof]);
  }

  // ------------------------------------------------------------------ the off-side rule

  /** Before line `k` a block `v` deep is open: a line began it, and no line since was shallower. */
  ghost predicate IsOpen(lines: seq<Line>, k: nat, v: nat)
    requires k <= |lines|
  {
    v == 0 || exists j :: 0 <= j < k && BeganAt(lines, k, j, v)
  }

  ghost predicate BeganAt(lines: seq<Line>, k: nat, j: nat, v: nat)
    requires j < k <= |lines|
  {
    lines[j].indent == v && forall i :: j <= i < k ==> lines[i].indent >= v
  }

  /** The open depths before line `k`, when all lines up to there fitted. */
  function StackAt(lines: seq<Line>, k: nat): (r: seq<nat>)
    requires k <= |lines|
  {
    if k == 0 then [0] else Shifted(StackAt(lines, k - 1), lines[k - 1].indent)
  }

  /** The tokens of the first `k` lines. */
  function Done(lines: seq<Line>, k: nat): seq<Tok>
    requires k <= |lines|
  {
    if k == 0 then []
    else Done(lines, k - 1) + (ShiftToks(StackAt(lines, k - 1), lines[k - 1].indent) + (lines[k - 1].toks + [Newline]))
  }

  /** Line `k` goes on in an open block, or is deeper than all of them. */
  ghost predicate FitsAt(lines: seq<Line>, k: nat)
    requires k < |lines|
  {
    IsOpen(lines, k, lines[k].indent) || forall v: nat :: IsOpen(lines, k, v) ==> v < lines[k].indent
  }

  ghost predicate FitUpto(lines: seq<Line>, k: nat)
    requires k <= |lines|
  {
    forall j :: 0 <= j < k ==> FitsAt(lines, j)
  }

  lemma {:induction false} UptoHas(indents: seq<nat>, n: nat, v: nat)
    requires Steps(indents)
    ensures v in Upto(indents, n) <==> v in indents && v <= n
    decreases |indents|
  {
    var init := indents[..|indents| - 1];
    assert indents == init + [Top(indents)];
    StepsBelowTop(indents, v);
    if Top(indents) > n {
      StepsPop(indents);
      UptoHas(init, n, v);
    }
  }

  lemma ShiftedHas(indents: seq<nat>, n: nat, v: nat)
    requires Steps(indents) && Fits(indents, n)
    ensures v in Shifted(indents, n) <==> v == n || (v in indents && v <= n)
  {
    StepsBelowTop(indents, v);
    UptoHas(indents, n, v);
  }

  lemma OpenAfter(lines: seq<Line>, k: nat, v: nat)
    requires k < |lines|
    ensures IsOpen(lines, k + 1, v) <==> v == lines[k].indent || (IsOpen(lines, k, v) && v <= lines[k].indent)
  {
    if v == lines[k].indent { assert BeganAt(lines, k + 1, k, v); }
    if v <= lines[k].indent && exists j :: 0 <= j < k && BeganAt(lines, k, j, v) {
      var j :| 0 <= j < k && BeganAt(lines, k, j, v);
      assert BeganAt(lines, k + 1, j, v);
    }
    var m := k + 1;
    if exists j :: 0 <= j < m && BeganAt(lines, m, j, v) {
      var j :| 0 <= j < m && BeganAt(lines, m, j, v);
      if j < k { assert BeganAt(lines, k, j, v); }
    }
  }

  /** The stack holds the open depths, in rising order. */
  lemma {:induction false} StackIsOpen(lines: seq<Line>, k: nat)
    requires k <= |lines| && FitUpto(lines, k) && forall j :: 0 <= j < k ==> lines[j].indent % INDENT_WIDTH == 0
    ensures Steps(StackAt(lines, k))
    ensures forall v: nat :: v in StackAt(lines, k) <==> IsOpen(lines, k, v)
  {
    if k > 0 {
      StackIsOpen(lines, k - 1);
      var before, n := StackAt(lines, k - 1), lines[k - 1].indent;
      FitsIsFitsAt(lines, k - 1);
      ShiftKeepsSteps(before, n);
      forall v: nat ensures v in StackAt(lines, k) <==> IsOpen(lines, k, v) {
        ShiftedHas(before, n, v);
        OpenAfter(lines, k - 1, v);
      }
    }
  }

  lemma FitsIsFitsAt(lines: seq<Line>, k: nat)
    requires k < |lines| && Steps(StackAt(lines, k)) && forall v: nat :: v in StackAt(lines, k) <==> IsOpen(lines, k, v)
    ensures Fits(StackAt(lines, k), lines[k].indent) <==> FitsAt(lines, k)
  {
    var st, n := StackAt(lines, k), lines[k].indent;
    assert Top(st) in st;
    if n > Top(st) {
      forall v: nat | IsOpen(lines, k, v) ensures v < n { StepsBelowTop(st, v); }
    }
  }

  lemma {:induction false} LayUpto(lines: seq<Line>, k: nat, end: End)
    requires k <= |lines| && FitUpto(lines, k) && forall j :: 0 <= j < |lines| ==> lines[j].indent % INDENT_WIDTH == 0
    ensures Lay(lines, [0], end) == Prefixed(Done(lines, k), Lay(lines[k..], StackAt(lines, k), end))
  {
    if k == 0 {
      assert lines[0..] == lines;
      NothingBefore(Lay(lines, [0], end));
    } else {
      var l, st := lines[k - 1], StackAt(lines, k - 1);
      LayUpto(lines, k - 1, end);
      StackIsOpen(lines, k - 1);
      FitsIsFitsAt(lines, k - 1);
      assert lines[k - 1..][0] == l && lines[k - 1..][1..] == lines[k..];
      PrefixedTwice(Done(lines, k - 1), ShiftToks(st, l.indent) + (l.toks + [Newline]), Lay(lines[k..], StackAt(lines, k), end));
    }
  }

  lemma LineLevel(ts: seq<Tok>, indents: seq<nat>, l: Line)
    requires Steps(indents) && Level(ts) == |indents| - 1 && AllPlain(l.toks)
    ensures Level(ts + (ShiftToks(indents, l.indent) + (l.toks + [Newline]))) == |Shifted(indents, l.indent)| - 1
  {
    var sh := ShiftToks(indents, l.indent);
    UptoIsShorter(indents, l.indent);
    AddShift(ts, indents, l.indent);
    AddPlain(ts + sh, l.toks);
    OneLevel((ts + sh) + l.toks, Newline);
    SameLine(ts, sh, l.toks);
  }

  lemma {:induction false} DoneLevel(lines: seq<Line>, k: nat)
    requires k <= |lines| && FitUpto(lines, k) && Shaped(lines, false)
    ensures Level(Done(lines, k)) == |StackAt(lines, k)| - 1
  {
    if k > 0 {
      DoneLevel(lines, k - 1);
      StackIsOpen(lines, k - 1);
      LineLevel(Done(lines, k - 1), StackAt(lines, k - 1), lines[k - 1]);
    }
  }

  /** Lines that all fit are laid out one after the other, each as deep as its depths that are open. */
  lemma LinesAreNested(lines: seq<Line>, end: End, k: nat)
    requires Shaped(lines, false) && FitUpto(lines, |lines|) && k < |lines|
    ensures Lay(lines, [0], end) ==
      if end.Broken? then Bad(end.fault) else Good(Done(lines, |lines|) + (Dedents(|StackAt(lines, |lines|)| - 1) + [Eof]))
    ensures var st := StackAt(lines, k + 1);
      Steps(st) && Level(Done(lines, k) + ShiftToks(StackAt(lines, k), lines[k].indent)) == |st| - 1 &&
      forall v: nat :: v in st <==> IsOpen(lines, k + 1, v)
  {
    LayUpto(lines, |lines|, end);
    assert lines[|lines|..] == [];
    StackIsOpen(lines, k);
    StackIsOpen(lines, k + 1);
    DoneLevel(lines, k);
    AddShift(Done(lines, k), StackAt(lines, k), lines[k].indent);
  }

  /** The first line that fits nowhere is the fault that is reported. */
  lemma FirstMisfit(lines: seq<Line>, end: End, k: nat)
    requires Shaped(lines, false) && k < |lines| && FitUpto(lines, k) && !FitsAt(lines, k)
    ensures Lay(lines, [0], end) == Bad(NoSuchBlock(lines[k].indent))
  {
    LayUpto(lines, k, end);
    StackIsOpen(lines, k);
    FitsIsFitsAt(lines, k);
    assert lines[k..][0] == lines[k];
  }

  // ------------------------------------------------------------------ what counts as a line

  ghost predicate IsLineStart(src: string, p: nat) {
    p <= |src| && (p == 0 || src[p - 1] == '\n')
  }

  /** `l` begins in a line of the text with that many spaces and no tab, comment or line end after them. */
  ghost predicate BeginsAt(src: string, scan: nat -> Scanned, l: Line, p: nat) {
    IsLineStart(src, p) &&
    var q := Margin(src, p);
    q < |src| && IsContent(src[q]) && src[q] != '\t' && l.indent == q - p && l.indent % INDENT_WIDTH == 0 &&
    (l.toks != [] ==> scan(q).Token? && l.toks[0] == scan(q).tok)
  }

  // ------------------------------------------------------------------ characters that lay out a text

  /** The spaces from `p` on end at `q`. */
  ghost predicate SpacesEnd(src: string, p: nat, q: nat) {
    p <= q <= |src| && (forall k :: p <= k < q ==> src[k] as int == 32) && (q < |src| ==> src[q] as int != 32)
  }

  /** The line that `p` is in ends at `q`, or the text does. */
  ghost predicate LineEnds(src: string, p: nat, q: nat) {
    p <= q <= |src| && (forall k :: p <= k < q ==> src[k] as int != 10) && (q < |src| ==> src[q] as int == 10)
  }

  lemma {:induction false} SpacesEndAt(src: string, p: nat, q: nat)
    requires SpacesEnd(src, p, q)
    ensures Margin(src, p) == q
    decreases q - p
  {
    if p < q { SpacesEndAt(src, p + 1, q); }
  }

  lemma {:induction false} LineEndsAt(src: string, p: nat, q: nat)
    requires LineEnds(src, p, q)
    ensures Feed(src, p) == q
    decreases q - p
  {
    if p < q { LineEndsAt(src, p + 1, q); }
  }

  /**
   * Where a line starts, character by character: a tab after its spaces is a fault, an empty line or
   * one with a comment only counts for nothing, and else the spaces are its indentation, by fours.
   */
  lemma LineStartIs(src: string, scan: nat -> Scanned, p: nat, q: nat, e: nat)
    requires Scans(src, scan) && SpacesEnd(src, p, q) && LineEnds(src, q, e)
    ensures var a := Ahead(src, scan, p, false, 0);
      if q == |src| then a == Doc([], [], Clean)
      else if src[q] as int == 9 then a == Doc([], [], Broken(Tab))
      else if src[q] as int == 10 || src[q] as int == 13 || src[q] == '#' then
        a == if e == |src| then Doc([], [], Clean) else Ahead(src, scan, e + 1, false, 0)
      else if (q - p) % 4 == 0 then
        var b := Ahead(src, scan, q, true, 0);
        a == Doc([], [Line(q - p, b.rest)] + b.lines, b.end)
      else a == Doc([], [], Broken(NotFour(q - p)))
  {
    SpacesEndAt(src, p, q);
    LineEndsAt(src, q, e);
  }

  /**
   * Inside a line: spaces and carriage returns count for nothing, `#` goes on to the end of the line,
   * and a line end ends the line unless a bracket is open. Anything else is one token.
   */
  lemma LineGoesOn(src: string, scan: nat -> Scanned, p: nat, e: nat, d: nat)
    requires Scans(src, scan) && p < |src| && LineEnds(src, p, e)
    ensures var a := Ahead(src, scan, p, true, d);
      if src[p] as int == 32 || src[p] as int == 13 then a == Ahead(src, scan, p + 1, true, d)
      else if src[p] == '#' then a == Ahead(src, scan, e, true, d)
      else if src[p] as int == 10 then a == (if d > 0 then Ahead(src, scan, p + 1, true, d) else Ahead(src, scan, p + 1, false, d))
      else if scan(p).NoToken? then a == Doc([], [], Broken(BadToken))
      else
        var open := if scan(p).tok.Open? then d + 1 else if scan(p).tok.Close? && d > 0 then d - 1 else d;
        var b := Ahead(src, scan, scan(p).next, true, open);
        a == Doc([scan(p).tok] + b.rest, b.lines, b.end)
  {
    LineEndsAt(src, p, e);
  }

  lemma {:induction false} LinesAreMeasured(src: string, scan: nat -> Scanned, p: nat, mid: bool, d: nat, k: nat)
    requires p <= |src| && Scans(src, scan) && (mid || IsLineStart(src, p))
    requires k < |Ahead(src, scan, p, mid, d).lines|
    ensures exists q :: q >= p && BeginsAt(src, scan, Ahead(src, scan, p, mid, d).lines[k], q)
    decreases |src| - p, if mid then 0 else 1
  {
    if mid {
      if src[p] == ' ' || src[p] == '\r' {
        LinesAreMeasured(src, scan, p + 1, true, d, k);
      } else if src[p] == '#' {
        LinesAreMeasured(src, scan, Feed(src, p), true, d, k);
      } else if src[p] == '\n' {
        LinesAreMeasured(src, scan, p + 1, d > 0, d, k);
      } else {
        LinesAreMeasured(src, scan, scan(p).next, true, Deeper(d, scan(p).tok), k);
      }
    } else {
      var q := Margin(src, p);
      if !IsContent(src[q]) {
        LinesAreMeasured(src, scan, Feed(src, q) + 1, false, 0, k);
      } else if k == 0 {
        assert BeginsAt(src, scan, Ahead(src, scan, p, false, d).lines[0], p);
      } else {
        LinesAreMeasured(src, scan, q, true, 0, k - 1);
        var b := Ahead(src, scan, q, true, 0);
        assert Ahead(src, scan, p, false, d).lines[k] == b.lines[k - 1];
      }
    }
  }

  /** What comes out in the end, when `out` has come out before `p`. */
  ghost function Sight(src: string, scan: nat -> Scanned, p: nat, start: bool, d: nat, indents: seq<nat>, out: seq<Tok>): Outcome
    requires p <= |src| && Scans(src, scan)
  {
    var a := Ahead(src, scan, p, !start, d);
    Prefixed(if start then out else out + (a.rest + [Newline]), Lay(a.lines, indents, a.end))
  }

  ghost function LastSight(indents: seq<nat>, out: seq<Tok>): Outcome {
    Prefixed(if LastIsNewline(out) then out else out + [Newline], Lay([], indents, Clean))
  }

  lemma SightAtStart(src: string, scan: nat -> Scanned, p: nat, indents: seq<nat>, out: seq<Tok>)
    requires p <= |src| && Scans(src, scan) && LastIsNewline(out)
    ensures var g, q := Sight(src, scan, p, true, 0, indents, out), Margin(src, p);
      if q == |src| then g == LastSight(indents, out)
      else if src[q] == '\t' then g == Bad(Tab)
      else if !IsContent(src[q]) then
        g == if Feed(src, q) == |src| then LastSight(indents, out) else Sight(src, scan, Feed(src, q) + 1, true, 0, indents, out)
      else if (q - p) % INDENT_WIDTH != 0 then g == Bad(NotFour(q - p))
      else
        var a := Ahead(src, scan, q, true, 0);
        g == Prefixed(out, Lay([Line(q - p, a.rest)] + a.lines, indents, a.end))
  {
  }

  lemma SightBlankLine(src: string, scan: nat -> Scanned, p: nat, indents: seq<nat>, out: seq<Tok>)
    requires p <= |src| && Scans(src, scan) && LastIsNewline(out)
    requires var q := Margin(src, p); q < |src| && src[q] != '\t' && !IsContent(src[q])
    ensures var feed := Feed(src, Margin(src, p));
      Sight(src, scan, p, true, 0, indents, out) ==
        if feed == |src| then LastSight(indents, out) else Sight(src, scan, feed + 1, true, 0, indents, out)
  {
    SightAtStart(src, scan, p, indents, out);
  }

  lemma SightLine(src: string, scan: nat -> Scanned, p: nat, indents: seq<nat>, out: seq<Tok>)
    requires p <= |src| && Scans(src, scan) && LastIsNewline(out)
    requires var q := Margin(src, p); q < |src| && src[q] != '\t' && IsContent(src[q]) && (q - p) % INDENT_WIDTH == 0
    ensures var q := Margin(src, p);
      var a := Ahead(src, scan, q, true, 0);
      Sight(src, scan, p, true, 0, indents, out) == Prefixed(out, Lay([Line(q - p, a.rest)] + a.lines, indents, a.end))
  {
    SightAtStart(src, scan, p, indents, out);
  }

  lemma SightBlank(src: string, scan: nat -> Scanned, p: nat, d: nat, indents: seq<nat>, out: seq<Tok>)
    requires p < |src| && Scans(src, scan) && (src[p] == ' ' || src[p] == '\r')
    ensures Sight(src, scan, p, false, d, indents, out) == Sight(src, scan, p + 1, false, d, indents, out)
  {
  }

  lemma SightComment(src: string, scan: nat -> Scanned, p: nat, d: nat, indents: seq<nat>, out: seq<Tok>)
    requires p < |src| && Scans(src, scan) && src[p] == '#'
    ensures Sight(src, scan, p, false, d, indents, out) == Sight(src, scan, Feed(src, p), false, d, indents, out)
  {
  }

  lemma SightLineEnd(src: string, scan: nat -> Scanned, p: nat, d: nat, indents: seq<nat>, out: seq<Tok>)
    requires p < |src| && Scans(src, scan) && src[p] == '\n'
    ensures Sight(src, scan, p, false, d, indents, out) ==
      if d > 0 then Sight(src, scan, p + 1, false, d, indents, out) else Sight(src, scan, p + 1, true, 0, indents, out + [Newline])
  {
    assert [] + [Newline] == [Newline];
  }

  lemma SightEnd(src: string, scan: nat -> Scanned, p: nat, d: nat, indents: seq<nat>, out: seq<Tok>)
    requires p == |src| && Scans(src, scan) && !LastIsNewline(out)
    ensures Sight(src, scan, p, false, d, indents, out) == LastSight(indents, out)
  {
    assert [] + [Newline] == [Newline];
  }

  lemma SightToken(src: string, scan: nat -> Scanned, p: nat, d: nat, indents: seq<nat>, out: seq<Tok>)
    requires p < |src| && Scans(src, scan) && IsContent(src[p])
    ensures Sight(src, scan, p, false, d, indents, out) ==
      if scan(p).NoToken? then Bad(BadToken)
      else Sight(src, scan, scan(p).next, false, Deeper(d, scan(p).tok), indents, out + [scan(p).tok])
  {
    if scan(p).Token? {
      var t := scan(p).tok;
      var a := Ahead(src, scan, scan(p).next, true, Deeper(d, t));
      assert out + (([t] + a.rest) + [Newline]) == (out + [t]) + (a.rest + [Newline]);
    }
  }

  // ------------------------------------------------------------------ the machine

  class Lexer {
    const src: string
    const scan: nat -> Scanned
    var pos: nat
    var indents: seq<nat>
    var depth: nat
    var atLineStart: bool
    var out: seq<Tok>

    ghost predicate Valid()
      reads this
    {
      Scans(src, scan) && pos <= |src| && Steps(indents)
    }

    /** Between two turns: a line that has begun without a token yet is about to get one. */
    ghost predicate Ready()
      reads this
    {
      Valid() && (atLineStart ==> depth == 0 && LastIsNewline(out)) &&
      (!atLineStart && LastIsNewline(out) ==> pos < |src| && IsContent(src[pos]))
    }

    /** What will have come out in the end, as things stand. */
    ghost function Goal(): Outcome
      reads this
      requires Scans(src, scan) && pos <= |src|
    {
      Sight(src, scan, pos, atLineStart, depth, indents, out)
    }

    /** The same when the text has ended. */
    ghost function LastGoal(): Outcome
      reads this
    {
      LastSight(indents, out)
    }

    constructor (text: string, next: nat -> Scanned)
      requires Scans(text, next)
      ensures Ready() && atLineStart && out == [] && src == text && scan == next && pos == 0 && indents == [0] && depth == 0
    {
      src, scan := text, next;
      pos, indents, depth, atLineStart, out := 0, [0], 0, true, [];
    }

    method Emit(t: Tok)
      modifies this`out
      ensures out == old(out) + [t]
    {
      out := out + [t];
    }

    /** Counts the spaces a line begins with. */
    method Spaces() returns (n: nat, tab: bool)
      requires Valid()
      modifies this`pos
      ensures Valid() && pos == Margin(src, old(pos)) && n == pos - old(pos)
      ensures tab <==> pos < |src| && src[pos] == '\t'
    {
      n, tab := 0, false;
      while pos < |src| && src[pos] == ' '
        invariant Valid() && old(pos) <= pos && n == pos - old(pos) && Margin(src, pos) == Margin(src, old(pos))
        decreases |src| - pos
      {
        n := n + 1;
        pos := pos + 1;
      }
      tab := pos < |src| && src[pos] == '\t';
    }

    method SkipLine()
      requires Valid()
      modifies this`pos
      ensures Valid() && pos == Feed(src, old(pos))
    {
      while pos < |src| && src[pos] != '\n'
        invariant Valid() && Feed(src, pos) == Feed(src, old(pos))
        decreases |src| - pos
      {
        pos := pos + 1;
      }
    }

    /** Indentation at the start of a line; `more` is false at the end of the text. */
    method LineStart() returns (r: Result, more: bool)
      requires Ready() && atLineStart
      modifies this`pos, this`indents, this`atLineStart, this`out
      ensures r.Ok? && more ==> Ready() && Goal() == old(Goal()) && old(pos) <= pos && (atLineStart ==> pos > old(pos))
      ensures r.Ok? && !more ==> Valid() && LastGoal() == old(Goal())
      ensures r.Failed? ==> old(Goal()) == Bad(r.fault)
    {
      SightAtStart(src, scan, pos, indents, out);
      atLineStart := false;
      var n, tab := Spaces();
      if tab {
        return Failed(Tab), false;
      }
      r, more := Margined(n, old(pos));
    }

    /** What follows the spaces at the start of a line, which began at `start`. */
    method Margined(n: nat, ghost start: nat) returns (r: Result, more: bool)
      requires Valid() && depth == 0 && !atLineStart && LastIsNewline(out)
      requires start <= |src| && pos == Margin(src, start) && n == pos - start && !(pos < |src| && src[pos] == '\t')
      modifies this`pos, this`indents, this`atLineStart, this`out
      ensures var goal := Sight(src, scan, start, true, 0, old(indents), old(out));
        if r.Failed? then goal == Bad(r.fault)
        else if more then Ready() && Goal() == goal && old(pos) <= pos && (atLineStart ==> pos > old(pos))
        else Valid() && LastGoal() == goal
    {
      if pos == |src| {
        SightAtStart(src, scan, start, indents, out);
        return Ok, false;
      }
      if src[pos] == '\n' || src[pos] == '\r' || src[pos] == '#' {
        more := SkipBlankLine(start);
        return Ok, more;
      }
      if n % INDENT_WIDTH != 0 {
        SightAtStart(src, scan, start, indents, out);
        return Failed(NotFour(n)), false;
      }
      r := BeginLineFrom(n, start);
      more := r.Ok?;
    }

    method SkipBlankLine(ghost start: nat) returns (more: bool)
      requires Valid() && depth == 0 && LastIsNewline(out)
      requires start <= |src| && pos == Margin(src, start) && pos < |src| && src[pos] != '\t' && !IsContent(src[pos])
      modifies this`pos, this`atLineStart
      ensures Valid()
      ensures var goal := Sight(src, scan, start, true, 0, indents, out);
        if more then atLineStart && pos > old(pos) && Goal() == goal else LastGoal() == goal
    {
      SightBlankLine(src, scan, start, indents, out);
      more := SkipBlank();
    }

    method BeginLineFrom(n: nat, ghost start: nat) returns (r: Result)
      requires Valid() && depth == 0 && !atLineStart && LastIsNewline(out)
      requires start <= |src| && pos == Margin(src, start) && n == pos - start && n % INDENT_WIDTH == 0
      requires pos < |src| && src[pos] != '\t' && IsContent(src[pos])
      modifies this`indents, this`out
      ensures var goal := Sight(src, scan, start, true, 0, old(indents), old(out));
        if r.Ok? then Valid() && Goal() == goal else goal == Bad(r.fault)
    {
      SightLine(src, scan, start, indents, out);
      ghost var a := Ahead(src, scan, pos, true, 0);
      assert Margin(src, start) - start == n;
      assert Sight(src, scan, start, true, 0, indents, out) == Prefixed(out, Lay([Line(n, a.rest)] + a.lines, indents, a.end));
      r := BeginLine(n);
    }

    method SkipBlank() returns (more: bool)
      requires Valid() && pos < |src|
      modifies this`pos, this`atLineStart
      ensures Valid() && more == (Feed(src, old(pos)) < |src|)
      ensures more ==> pos == Feed(src, old(pos)) + 1 && atLineStart
    {
      SkipLine();
      if pos == |src| {
        return false;
      }
      pos := pos + 1;
      atLineStart := true;
      return true;
    }

    method BeginLine(n: nat) returns (r: Result)
      requires Valid() && depth == 0 && !atLineStart && pos < |src| && IsContent(src[pos]) && n % INDENT_WIDTH == 0
      modifies this`indents, this`out
      ensures var a := Ahead(src, scan, pos, true, 0);
        var goal := Prefixed(old(out), Lay([Line(n, a.rest)] + a.lines, old(indents), a.end));
        if r.Ok? then Valid() && goal == Goal() else goal == Bad(r.fault)
    {
      ghost var a := Ahead(src, scan, pos, true, 0);
      LayLine(Line(n, a.rest), a.lines, indents, a.end, out);
      var ok := Reindent(n);
      if !ok {
        return Failed(NoSuchBlock(n));
      }
      return Ok;
    }

    /** Opens a block, or closes blocks down to one that is `n` deep. */
    method Reindent(n: nat) returns (ok: bool)
      requires Valid() && depth == 0 && n % INDENT_WIDTH == 0
      modifies this`indents, this`out
      ensures ok ==> Valid()
      ensures ok <==> Fits(old(indents), n)
      ensures ok ==> indents == if n in old(indents) then Upto(old(indents), n) else old(indents) + [n]
      ensures ok ==> indents == Shifted(old(indents), n) && out == old(out) + ShiftToks(old(indents), n)
    {
      StepsBelowTop(indents, n);
      if n > Top(indents) {
        Emit(Indent);
        StepsPush(indents, n);
        indents := indents + [n];
        return true;
      }
      CloseTo(n);
      ok := Top(indents) == n;
    }

    method CloseTo(n: nat)
      requires Valid() && depth == 0
      modifies this`indents, this`out
      ensures Valid() && indents == Upto(old(indents), n) && out == old(out) + Dedents(|old(indents)| - |indents|)
      ensures Top(indents) == n <==> n in old(indents)
    {
      StepsUpto(indents, n);
      assert out == out + Dedents(0);
      while Top(indents) > n
        invariant Valid() && depth == 0 && Upto(indents, n) == Upto(old(indents), n) && |indents| <= |old(indents)|
        invariant out == old(out) + Dedents(|old(indents)| - |indents|)
        decreases |indents|
      {
        Emit(Dedent);
        StepsPop(indents);
        indents := indents[..|indents| - 1];
        OneDedent(old(out), |old(indents)| - |indents|);
      }
    }

    method LexToken() returns (r: Result)
      requires Ready() && !atLineStart && pos < |src| && IsContent(src[pos])
      modifies this`pos, this`depth, this`out
      ensures r.Ok? ==> Ready() && pos > old(pos) && Goal() == old(Goal())
      ensures r.Failed? ==> old(Goal()) == Bad(r.fault)
    {
      SightToken(src, scan, pos, depth, indents, out);
      var t := scan(pos);
      if t.NoToken? {
        return Failed(BadToken);
      }
      Emit(t.tok);
      pos := t.next;
      if t.tok.Open? {
        depth := depth + 1;
      } else if t.tok.Close? && depth > 0 {
        depth := depth - 1;
      }
      r := Ok;
    }

    method SkipSpaces()
      requires Valid()
      modifies this`pos
      ensures Valid() && old(pos) <= pos && (pos < |src| ==> src[pos] != ' ' && src[pos] != '\r')
      ensures old(pos) < |src| && src[old(pos)] != ' ' && src[old(pos)] != '\r' ==> pos == old(pos)
      ensures Sight(src, scan, pos, false, depth, indents, out) == old(Sight(src, scan, pos, false, depth, indents, out))
    {
      while pos < |src| && (src[pos] == ' ' || src[pos] == '\r')
        invariant Valid() && old(pos) <= pos
        invariant old(pos) < |src| && src[old(pos)] != ' ' && src[old(pos)] != '\r' ==> pos == old(pos)
        invariant Sight(src, scan, pos, false, depth, indents, out) == old(Sight(src, scan, pos, false, depth, indents, out))
        decreases |src| - pos
      {
        SightBlank(src, scan, pos, depth, indents, out);
        pos := pos + 1;
      }
    }

    /** One turn of the main loop; `more` is false at the end of the text. */
    method Turn() returns (r: Result, more: bool)
      requires Ready()
      modifies this
      ensures r.Ok? && more ==> Ready() && Goal() == old(Goal()) && old(pos) <= pos
      ensures r.Ok? && more ==> pos > old(pos) || (old(atLineStart) && !atLineStart)
      ensures r.Ok? && !more ==> Valid() && LastGoal() == old(Goal())
      ensures r.Failed? ==> old(Goal()) == Bad(r.fault)
    {
      if atLineStart && depth == 0 {
        r, more := LineStart();
        return;
      }
      SkipSpaces();
      if pos == |src| {
        SightEnd(src, scan, pos, depth, indents, out);
        return Ok, false;
      }
      var c := src[pos];
      if c == '#' {
        SightComment(src, scan, pos, depth, indents, out);
        SkipLine();
        return Ok, true;
      }
      if c == '\n' {
        SightLineEnd(src, scan, pos, depth, indents, out);
        pos := pos + 1;
        LineEnd();
        return Ok, true;
      }
      r := LexToken();
      more := true;
    }

    method LineEnd()
      requires Valid() && !LastIsNewline(out)
      modifies this`out, this`atLineStart
      ensures Valid() && if depth == 0 then out == old(out) + [Newline] && atLineStart else out == old(out) && atLineStart == old(atLineStart)
    {
      if depth > 0 {
        return;
      }
      if !(out == [] || out[|out| - 1] == Newline) {
        Emit(Newline);
      }
      atLineStart := true;
    }

    /** The main loop, up to the end of the text. */
    method Lines() returns (r: Result)
      requires Ready()
      modifies this
      ensures r.Ok? ==> Valid() && LastGoal() == old(Goal())
      ensures r.Failed? ==> old(Goal()) == Bad(r.fault)
    {
      var more := true;
      r := Ok;
      while more
        invariant r.Ok? && Valid() && if more then Ready() && Goal() == old(Goal()) else LastGoal() == old(Goal())
        decreases more, |src| - pos, atLineStart
      {
        r, more := Turn();
        if r.Failed? {
          return;
        }
      }
    }

    /** A whole text: its tokens, or its first fault. */
    method Run() returns (r: Result)
      requires Ready() && atLineStart && out == [] && pos == 0 && indents == [0]
      modifies this
      ensures Tokens(src, scan) == if r.Ok? then Good(out) else Bad(r.fault)
    {
      assert Goal() == Tokens(src, scan) by { NothingBefore(Tokens(src, scan)); }
      r := Lines();
      if r.Failed? {
        return;
      }
      if !(out == [] || out[|out| - 1] == Newline) {
        Emit(Newline);
      }
      assert out + (Dedents(|indents| - 1) + [Eof]) == (out + Dedents(|indents| - 1)) + [Eof];
      CloseBlocks();
      Emit(Eof);
    }

    method CloseBlocks()
      requires indents != []
      modifies this`indents, this`out
      ensures out == old(out) + Dedents(|old(indents)| - 1)
    {
      assert out == out + Dedents(0);
      while |indents| > 1
        invariant 0 < |indents| <= |old(indents)| && out == old(out) + Dedents(|old(indents)| - |indents|)
        decreases |indents|
      {
        indents := indents[..|indents| - 1];
        Emit(Dedent);
        OneDedent(old(out), |old(indents)| - |indents|);
      }
    }
  }
}
