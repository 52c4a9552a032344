/** Markdown "smart select": the expand-selection ranges offered for a cursor
    line, built from the parser's block tokens and the heading outline.
    The parser, the outline builder and the document are replaced by their
    outputs: a token sequence, an outline sequence and the document's lines. */
module SmartSelect {
  import opened Wrappers
  import opened Seqs
  import opened Ranges

  /** A token's `map`: its first and last line, both included. */
  datatype LineMap = LineMap(startLine: nat, endLine: nat)

  /** A block token of the parser; tokens without a line extent have no map. */
  datatype Token = Token(kind: string, lineMap: Option<LineMap>)

  /** An outline entry: the heading's own line and the range of its whole
      section. The entry's level is not read by this code and is left out. */
  datatype TocEntry = TocEntry(line: nat, range: Range)

  /** The exceptions the computation can raise. */
  datatype Error =
    | UndefinedPosition        // `.line` read from the first cursor of an empty cursor list
    | NegativeLine(line: int)  // a position built on a line below zero
    | LineOutOfRange(line: int) // a document line looked up past the last line

  const HeadingOpen: string := "heading_open"
  const BulletListOpen: string := "bullet_list_open"

  /** The first cursor line, or `None` when there is no cursor at all. */
  function CursorLine(positions: seq<Position>): Option<nat> {
    if |positions| == 0 then None else Some(positions[0].line)
  }

  // ---------------------------------------------------------------------
  // Block ranges
  // ---------------------------------------------------------------------

  /** A token the block builder considers at all: not a heading, with a map. */
  predicate IsBlock(t: Token) {
    t.kind != HeadingOpen && t.lineMap.Some?
  }

  /** A block token whose line span contains `line`, both ends included. */
  predicate IsNearby(t: Token, line: nat) {
    IsBlock(t) && t.lineMap.value.startLine <= line <= t.lineMap.value.endLine
  }

  /** A token with a map whose first line does not come after its last. */
  predicate IsSpanned(t: Token) {
    t.lineMap.Some? && t.lineMap.value.startLine <= t.lineMap.value.endLine
  }

  /** The nearby test as a filter callback. */
  function NearbyTest(line: nat): Token -> bool {
    t => IsNearby(t, line)
  }

  /** The tokens whose span contains `line`, in document order. */
  function Nearby(tokens: seq<Token>, line: nat): (r: seq<Token>)
    ensures forall i :: 0 <= i < |r| ==> IsNearby(r[i], line) && IsSpanned(r[i])
  {
    Filter(tokens, NearbyTest(line))
  }

  /** The end line a candidate token asks for: one line less for a bullet
      list, whose map reaches one line past its last item. */
  function CandidateEndLine(t: Token): int
    requires t.lineMap.Some?
  {
    if t.kind == BulletListOpen then t.lineMap.value.endLine - 1 else t.lineMap.value.endLine
  }

  /** The focus range: the innermost block's lines, at character 0, with no parent. */
  function Focus(m: LineMap): (r: SelectionRange)
    requires m.startLine <= m.endLine
    ensures r.parent.None? && OnLineStarts(r.range) && WellOrdered(r.range)
    ensures r.range.start.line == m.startLine && r.range.end.line == m.endLine
  {
    SelectionRange(MakeRange(Position(m.startLine, 0), Position(m.endLine, 0)), None)
  }

  /** The selection range built for one remaining nearby token, given the
      focus token's map. It fails when a bullet list's end line would be
      negative; otherwise its lines are the token's, a bullet list losing
      its last line (the range constructor reorders the ends when that line
      falls before the first), and it has the focus range as its parent
      exactly when the focus lines include its lines. */
  function Candidate(t: Token, focus: LineMap): (r: Result<SelectionRange, Error>)
    requires IsSpanned(t) && focus.startLine <= focus.endLine
    ensures r.Failure? <==> t.kind == BulletListOpen && t.lineMap.value.endLine == 0
    ensures r.Failure? ==> r.error == NegativeLine(-1)
    ensures r.Success? ==> OnLineStarts(r.value.range) && WellOrdered(r.value.range)
    ensures r.Success? && t.kind != BulletListOpen ==>
      r.value.range.start.line == t.lineMap.value.startLine &&
      r.value.range.end.line == t.lineMap.value.endLine
    ensures r.Success? && t.kind == BulletListOpen && t.lineMap.value.startLine < t.lineMap.value.endLine ==>
      r.value.range.start.line == t.lineMap.value.startLine &&
      r.value.range.end.line == t.lineMap.value.endLine - 1
    ensures r.Success? && t.kind == BulletListOpen && t.lineMap.value.startLine == t.lineMap.value.endLine ==>
      r.value.range.start.line == t.lineMap.value.startLine - 1 &&
      r.value.range.end.line == t.lineMap.value.startLine
    ensures r.Success? ==>
      (r.value.parent == Some(Focus(focus)) <==>
        focus.startLine <= r.value.range.start.line && r.value.range.end.line <= focus.endLine)
    ensures r.Success? ==> r.value.parent.None? || r.value.parent == Some(Focus(focus))
  {
    var start := t.lineMap.value.startLine;
    var end := CandidateEndLine(t);
    if end < 0 then Failure(NegativeLine(end))
    else
      var parent := Focus(focus);
      var range := MakeRange(Position(start, 0), Position(end, 0));
      ContainsByLines(parent.range, range);
      if Contains(parent.range, range) then Success(SelectionRange(range, Some(parent)))
      else Success(SelectionRange(range, None))
  }

  /** A bullet list whose map ends on line 0: its candidate end line is -1. */
  predicate IsLineZeroBullet(t: Token) {
    t.kind == BulletListOpen && t.lineMap.Some? && t.lineMap.value.endLine == 0
  }

  /** Builds the candidate of every remaining token, in order, and keeps the
      first, or `None` when there is none; building fails, whichever
      candidate it is, when a bullet list ends on line 0. */
  function FirstCandidate(candidates: seq<Token>, focus: LineMap): (r: Result<Option<SelectionRange>, Error>)
    requires forall i :: 0 <= i < |candidates| ==> IsSpanned(candidates[i])
    requires focus.startLine <= focus.endLine
    ensures r.Failure? <==> exists i :: 0 <= i < |candidates| && IsLineZeroBullet(candidates[i])
    ensures r.Failure? ==> r.error == NegativeLine(-1)
    ensures |candidates| == 0 ==> r == Success(None)
    ensures r.Success? && |candidates| > 0 ==>
      Candidate(candidates[0], focus).Success? && r.value == Some(Candidate(candidates[0], focus).value)
  {
    var built :- MapAll(candidates, t requires IsSpanned(t) => Candidate(t, focus));
    Success(if |built| == 0 then None else Some(built[0]))
  }

  /** The block builder. With no cursor, reading its line fails as soon as
      one block token is looked at. With a cursor, the last nearby token is
      the focus; every other nearby token becomes a candidate, in order; the
      result holds only the first candidate, or `None` when there was none. */
  function BlockSelectionRanges(tokens: seq<Token>, cursor: Option<nat>): (r: Result<seq<Option<SelectionRange>>, Error>)
    ensures r.Success? ==> |r.value| <= 1
    ensures cursor.None? ==>
      (r.Failure? <==> exists i :: 0 <= i < |tokens| && IsBlock(tokens[i]))
    ensures r.Failure? ==> r.error == (if cursor.None? then UndefinedPosition else NegativeLine(-1))
    ensures cursor.None? && r.Success? ==> r.value == []
  {
    match cursor
    case None =>
      if exists i :: 0 <= i < |tokens| && IsBlock(tokens[i]) then Failure(UndefinedPosition)
      else Success([])
    case Some(line) =>
      var nearby := Nearby(tokens, line);
      if |nearby| == 0 then Success([])
      else
        var focus := nearby[|nearby| - 1].lineMap.value;
        var first :- FirstCandidate(nearby[..|nearby| - 1], focus);
        Success([first])
  }

  /** No nearby token, no block range; and the empty result arises only then. */
  lemma {:induction false} BlockNoMatch(tokens: seq<Token>, line: nat)
    ensures BlockSelectionRanges(tokens, Some(line)) == Success([]) <==>
      forall i :: 0 <= i < |tokens| ==> !IsNearby(tokens[i], line)
  {
    FilterEmpty(tokens, NearbyTest(line));
  }

  /** A single nearby token is the focus and leaves no candidate: the result
      is one undefined element, never the focus range itself. */
  lemma {:induction false} BlockSingleMatch(tokens: seq<Token>, line: nat, k: nat)
    requires k < |tokens| && IsNearby(tokens[k], line)
    requires forall j :: 0 <= j < |tokens| && j != k ==> !IsNearby(tokens[j], line)
    ensures BlockSelectionRanges(tokens, Some(line)) == Success([None])
  {
    FilterEnds(tokens, NearbyTest(line), k, k);
  }

  /** With `tokens[k]` the last nearby token, the block builder's outcome
      is that of `FirstCandidate` on the nearby tokens before `tokens[k]`,
      with the focus taken from `tokens[k]`. */
  lemma {:induction false} BlockFocusIsLastMatch(tokens: seq<Token>, line: nat, i: nat, k: nat)
    requires i <= k < |tokens| && IsNearby(tokens[i], line) && IsNearby(tokens[k], line)
    requires forall j :: 0 <= j < i ==> !IsNearby(tokens[j], line)
    requires forall j :: k < j < |tokens| ==> !IsNearby(tokens[j], line)
    ensures var rest := Nearby(tokens[..k], line);
      && (i < k ==> |rest| > 0 && rest[0] == tokens[i])
      && (i == k ==> rest == [])
      && var fc := FirstCandidate(rest, tokens[k].lineMap.value);
         BlockSelectionRanges(tokens, Some(line)) ==
           if fc.Failure? then Failure(fc.error) else Success([fc.value])
  {
    var p := NearbyTest(line);
    FilterEnds(tokens, p, i, k);
    var nearby := Filter(tokens, p);
    var rest := nearby[..|nearby| - 1];
    assert Nearby(tokens, line) == nearby;
    assert Nearby(tokens[..k], line) == rest;
    if i < k {
      assert |nearby| > 1 && rest[0] == nearby[0];
    } else {
      assert |nearby| == 1 && rest == [];
    }
    BlockUnfold(tokens, line);
  }

  /** With some nearby token, the block builder is `FirstCandidate` on all
      nearby tokens but the last, against the last one's map. */
  lemma BlockUnfold(tokens: seq<Token>, line: nat)
    requires |Nearby(tokens, line)| > 0
    ensures var nearby := Nearby(tokens, line);
      var fc := FirstCandidate(nearby[..|nearby| - 1], nearby[|nearby| - 1].lineMap.value);
      BlockSelectionRanges(tokens, Some(line)) == if fc.Failure? then Failure(fc.error) else Success([fc.value])
  {
  }

  /** The nearby bullet lists ending on line 0 that precede `tokens[k]` are
      exactly those of `Nearby(tokens[..k], line)`. */
  lemma {:induction false} LineZeroBulletsBefore(tokens: seq<Token>, line: nat, i: nat, k: nat)
    requires i <= k < |tokens|
    requires forall j :: 0 <= j < i ==> !IsNearby(tokens[j], line)
    ensures var rest := Nearby(tokens[..k], line);
      (exists x :: 0 <= x < |rest| && IsLineZeroBullet(rest[x])) <==>
      (exists j :: i <= j < k && IsNearby(tokens[j], line) && IsLineZeroBullet(tokens[j]))
  {
    var p := NearbyTest(line);
    var q := (t: Token) => IsLineZeroBullet(t);
    var s := tokens[..k];
    var rest := Filter(s, p);
    assert Nearby(tokens[..k], line) == rest;
    FilterExists(s, p, q);
    if x :| 0 <= x < |rest| && IsLineZeroBullet(rest[x]) {
      assert q(rest[x]);
      var j :| 0 <= j < |s| && p(s[j]) && q(s[j]);
      assert s[j] == tokens[j] && i <= j;
    }
    if j :| i <= j < k && IsNearby(tokens[j], line) && IsLineZeroBullet(tokens[j]) {
      assert s[j] == tokens[j];
      assert p(s[j]) && q(s[j]);
      var x :| 0 <= x < |rest| && q(rest[x]);
      assert IsLineZeroBullet(rest[x]);
    }
  }

  /** With `tokens[i]` the first and `tokens[k]` the last of several nearby
      tokens, the focus is built from `tokens[k]` and the result is the
      candidate built from `tokens[i]`, unless some nearby bullet list from
      `tokens[i]` up to before `tokens[k]` ends on line 0, which makes the
      whole call fail even when that list is not the first candidate. */
  lemma {:induction false} BlockFirstCandidate(tokens: seq<Token>, line: nat, i: nat, k: nat)
    requires i < k < |tokens| && IsNearby(tokens[i], line) && IsNearby(tokens[k], line)
    requires forall j :: 0 <= j < i ==> !IsNearby(tokens[j], line)
    requires forall j :: k < j < |tokens| ==> !IsNearby(tokens[j], line)
    ensures var r := BlockSelectionRanges(tokens, Some(line));
      && (r.Failure? <==> exists j :: i <= j < k && IsNearby(tokens[j], line) && IsLineZeroBullet(tokens[j]))
      && (r.Failure? ==> r.error == NegativeLine(-1))
      && (r.Success? ==>
            && Candidate(tokens[i], tokens[k].lineMap.value).Success?
            && r.value == [Some(Candidate(tokens[i], tokens[k].lineMap.value).value)])
  {
    BlockFocusIsLastMatch(tokens, line, i, k);
    LineZeroBulletsBefore(tokens, line, i, k);
  }

  /** A block range's parent, when it has one, is a parentless range that
      contains it: only one level of nesting is offered per call. */
  lemma BlockParentContains(tokens: seq<Token>, line: nat)
    ensures var r := BlockSelectionRanges(tokens, Some(line));
      r.Success? && |r.value| == 1 && r.value[0].Some? && r.value[0].value.parent.Some? ==>
        var s := r.value[0].value;
        s.parent.value.parent.None? && Contains(s.parent.value.range, s.range)
  {
  }

  // ---------------------------------------------------------------------
  // Heading ranges
  // ---------------------------------------------------------------------

  /** White space as the editor's line test counts it: the characters
      matched by `\s` in ECMAScript regular expressions (WhiteSpace and
      LineTerminator, section 22.2.2.9 of ECMA-262). */
  predicate IsWhitespace(c: char) {
    c in {'\t', '\n', '\U{000B}', '\U{000C}', '\r', ' ', '\U{00A0}', '\U{1680}',
          '\U{2000}', '\U{2001}', '\U{2002}', '\U{2003}', '\U{2004}', '\U{2005}',
          '\U{2006}', '\U{2007}', '\U{2008}', '\U{2009}', '\U{200A}',
          '\U{2028}', '\U{2029}', '\U{202F}', '\U{205F}', '\U{3000}', '\U{FEFF}'}
  }

  /** A line that is empty or holds only white space. */
  predicate IsEmptyOrWhitespace(s: string) {
    forall i :: 0 <= i < |s| ==> IsWhitespace(s[i])
  }

  /** The end line of a heading's selection: the section's end line, one
      less when that line is blank and lies below the heading line. Looking
      the line up fails when it is past the document's last line. */
  function TrimmedEndLine(e: TocEntry, lines: seq<string>): (r: Result<nat, Error>)
    ensures r.Failure? <==> e.range.end.line >= |lines|
    ensures r.Failure? ==> r.error == LineOutOfRange(e.range.end.line)
    ensures r.Success? ==> r.value <= e.range.end.line <= r.value + 1
    ensures r.Success? ==>
      (r.value < e.range.end.line <==>
        IsEmptyOrWhitespace(lines[e.range.end.line]) && e.line < e.range.end.line)
    ensures r.Success? && e.line <= e.range.end.line ==> e.line <= r.value
  {
    var endLine := e.range.end.line;
    if endLine >= |lines| then Failure(LineOutOfRange(endLine))
    else if IsEmptyOrWhitespace(lines[endLine]) && endLine >= e.line + 1 then Success(endLine - 1)
    else Success(endLine)
  }

  /** The parentless selection range for one heading: from the section's
      start to the trimmed end line, keeping the section's end character.
      For a section that starts at the beginning of its heading line and
      does not end above it, no reordering of the ends takes place. */
  function HeadingRange(e: TocEntry, lines: seq<string>): (r: Result<SelectionRange, Error>)
    ensures r.Failure? <==> e.range.end.line >= |lines|
    ensures r.Failure? ==> r.error == LineOutOfRange(e.range.end.line)
    ensures r.Success? ==> r.value.parent.None? && WellOrdered(r.value.range)
    ensures r.Success? ==>
      multiset{r.value.range.start, r.value.range.end} ==
      multiset{e.range.start, Position(TrimmedEndLine(e, lines).value, e.range.end.character)}
    ensures r.Success? && e.range.start == Position(e.line, 0) && e.line <= e.range.end.line ==>
      r.value.range.start == e.range.start &&
      r.value.range.end == Position(TrimmedEndLine(e, lines).value, e.range.end.character)
  {
    var endLine :- TrimmedEndLine(e, lines);
    Success(SelectionRange(MakeRange(e.range.start, Position(endLine, e.range.end.character)), None))
  }

  /** The outline entries whose heading sits exactly on `line`, in outline order. */
  function AtLine(toc: seq<TocEntry>, line: nat): (r: seq<TocEntry>)
    ensures forall i :: 0 <= i < |r| ==> r[i].line == line
  {
    Filter(toc, OnLineTest(line))
  }

  /** The exact-line test as a filter callback. */
  function OnLineTest(line: nat): TocEntry -> bool {
    (e: TocEntry) => e.line == line
  }

  /** The heading range callback for the entries of one document. */
  function HeadingOf(lines: seq<string>): TocEntry -> Result<SelectionRange, Error> {
    e => HeadingRange(e, lines)
  }

  /** The heading builder: one parentless range per outline entry on the
      cursor line. With no cursor, reading its line fails as soon as one
      entry is looked at. */
  function HeaderSelectionRanges(toc: seq<TocEntry>, lines: seq<string>, cursor: Option<nat>): (r: Result<seq<SelectionRange>, Error>)
    ensures r.Success? ==> forall i :: 0 <= i < |r.value| ==> r.value[i].parent.None?
    ensures cursor.None? ==> (r.Failure? <==> |toc| > 0)
    ensures cursor.None? && r.Failure? ==> r.error == UndefinedPosition
    ensures cursor.None? && r.Success? ==> r.value == []
    ensures cursor.Some? && r.Success? ==> |r.value| == |AtLine(toc, cursor.value)|
    ensures cursor.Some? && r.Success? ==>
      forall i :: 0 <= i < |r.value| ==> HeadingRange(AtLine(toc, cursor.value)[i], lines) == Success(r.value[i])
  {
    match cursor
    case None => if |toc| == 0 then Success([]) else Failure(UndefinedPosition)
    case Some(line) => MapAll(AtLine(toc, line), HeadingOf(lines))
  }

  /** Which entries yield a heading range: exactly those on the cursor line,
      each through `HeadingRange`; the call fails exactly when one of them
      has a section ending past the document, and then with the error of
      such an entry. */
  lemma {:induction false} HeadingSelection(toc: seq<TocEntry>, lines: seq<string>, line: nat)
    ensures var r := HeaderSelectionRanges(toc, lines, Some(line));
      && (r.Failure? <==> exists j :: 0 <= j < |toc| && toc[j].line == line && toc[j].range.end.line >= |lines|)
      && (r.Failure? ==> exists j :: 0 <= j < |toc| && toc[j].line == line && r.error == LineOutOfRange(toc[j].range.end.line))
      && (r.Success? ==> forall j :: 0 <= j < |toc| && toc[j].line == line ==>
            HeadingRange(toc[j], lines).Success? && HeadingRange(toc[j], lines).value in r.value)
      && (r.Success? ==> forall s :: s in r.value ==>
            exists j :: 0 <= j < |toc| && toc[j].line == line && HeadingRange(toc[j], lines) == Success(s))
  {
    MapFilterFailure(toc, OnLineTest(line), HeadingOf(lines));
    if HeaderSelectionRanges(toc, lines, Some(line)).Success? {
      MapFilterMembers(toc, OnLineTest(line), HeadingOf(lines));
    }
  }

  /** A cursor inside a section but not on its heading line gets no heading
      range, however large the section. */
  lemma {:induction false} HeadingOnlyOnHeadingLine(toc: seq<TocEntry>, lines: seq<string>, line: nat)
    requires forall j :: 0 <= j < |toc| ==> toc[j].line != line
    ensures HeaderSelectionRanges(toc, lines, Some(line)) == Success([])
  {
    FilterEmpty(toc, OnLineTest(line));
  }

  // ---------------------------------------------------------------------
  // Merge
  // ---------------------------------------------------------------------

  /** Heading ranges as elements of the merged list. */
  function Defined(rs: seq<SelectionRange>): seq<Option<SelectionRange>> {
    seq(|rs|, i requires 0 <= i < |rs| => Some(rs[i]))
  }

  /** The provider: the heading ranges, then the block ranges, for the first
      cursor only. The heading builder runs first, so its failure wins. */
  function ProvideSelectionRanges(tokens: seq<Token>, toc: seq<TocEntry>, lines: seq<string>, positions: seq<Position>)
    : (r: Result<seq<Option<SelectionRange>>, Error>)
    ensures HeaderSelectionRanges(toc, lines, CursorLine(positions)).Failure? ==>
      r == Failure(HeaderSelectionRanges(toc, lines, CursorLine(positions)).error)
    ensures r.Success? ==> HeaderSelectionRanges(toc, lines, CursorLine(positions)).Success?
    ensures r.Success? ==> forall i :: 0 <= i < |r.value| - 1 ==> r.value[i].Some? && r.value[i].value.parent.None?
    ensures r.Success? ==>
      var headings := HeaderSelectionRanges(toc, lines, CursorLine(positions)).value;
      |headings| <= |r.value| && forall i :: 0 <= i < |headings| ==> r.value[i] == Some(headings[i])
  {
    var cursor := CursorLine(positions);
    var headings :- HeaderSelectionRanges(toc, lines, cursor);
    var blocks :- BlockSelectionRanges(tokens, cursor);
    Success(Defined(headings) + blocks)
  }

  /** The merged list is every heading range, in order, followed by at most
      one block element. */
  lemma MergeOrder(tokens: seq<Token>, toc: seq<TocEntry>, lines: seq<string>, positions: seq<Position>)
    ensures var r := ProvideSelectionRanges(tokens, toc, lines, positions);
      var h := HeaderSelectionRanges(toc, lines, CursorLine(positions));
      var b := BlockSelectionRanges(tokens, CursorLine(positions));
      && (r.Success? <==> h.Success? && b.Success?)
      && (h.Success? && b.Failure? ==> r == Failure(b.error))
      && (r.Success? ==>
            && |h.value| <= |r.value| <= |h.value| + 1
            && (forall i :: 0 <= i < |h.value| ==> r.value[i] == Some(h.value[i]))
            && r.value[|h.value|..] == b.value)
  {
  }

  /** Only the line of the first cursor matters: further cursors, and the
      first cursor's character, change nothing. */
  lemma FirstCursorOnly(tokens: seq<Token>, toc: seq<TocEntry>, lines: seq<string>, ps: seq<Position>, qs: seq<Position>)
    requires |ps| > 0 && |qs| > 0 && ps[0].line == qs[0].line
    ensures ProvideSelectionRanges(tokens, toc, lines, ps) == ProvideSelectionRanges(tokens, toc, lines, qs)
  {
  }

  /** A cursor line with no nearby block token and no heading gets no range at all. */
  lemma {:induction false} NothingAtCursor(tokens: seq<Token>, toc: seq<TocEntry>, lines: seq<string>, positions: seq<Position>)
    requires |positions| > 0
    requires forall i :: 0 <= i < |tokens| ==> !IsNearby(tokens[i], positions[0].line)
    requires forall j :: 0 <= j < |toc| ==> toc[j].line != positions[0].line
    ensures ProvideSelectionRanges(tokens, toc, lines, positions) == Success([])
  {
    BlockNoMatch(tokens, positions[0].line);
    HeadingOnlyOnHeadingLine(toc, lines, positions[0].line);
    var c := CursorLine(positions);
    assert c == Some(positions[0].line);
    assert HeaderSelectionRanges(toc, lines, c) == Success([]);
    assert BlockSelectionRanges(tokens, c) == Success([]);
    var none: seq<Option<SelectionRange>> := [];
    assert Defined([]) + none == none;
    assert ProvideSelectionRanges(tokens, toc, lines, positions) == Success(none);
  }
}
