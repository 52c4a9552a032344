/** Concrete documents and the results the model gives them. */
module WorkedCases {
  import opened Wrappers
  import opened Ranges
  import opened SmartSelect

  /** A paragraph on lines 0-2, then a bullet list whose map is 3-6 with an
      item on 4-5; cursor on line 4. The item is the focus (lines 4-5); the
      list is the only candidate, trimmed to lines 3-5, which the focus does
      not contain, so it comes back without a parent. The paragraph is not
      nearby. */
  lemma ListItemCursor()
    ensures BlockSelectionRanges(
              [Token("paragraph_open", Some(LineMap(0, 2))),
               Token(BulletListOpen, Some(LineMap(3, 6))),
               Token("list_item_open", Some(LineMap(4, 5)))],
              Some(4))
            == Success([Some(SelectionRange(Range(Position(3, 0), Position(5, 0)), None))])
  {
    var tokens := [Token("paragraph_open", Some(LineMap(0, 2))),
                   Token(BulletListOpen, Some(LineMap(3, 6))),
                   Token("list_item_open", Some(LineMap(4, 5)))];
    BlockFirstCandidate(tokens, 4, 1, 2);
  }

  /** A paragraph on lines 2-3 inside a block quote on lines 1-5, cursor on
      line 2: the quote is the candidate, the paragraph the focus; the focus
      does not contain the quote, so no parent. A heading token on the
      cursor line is ignored. */
  lemma HeadingTokenIgnored()
    ensures BlockSelectionRanges(
              [Token(HeadingOpen, Some(LineMap(2, 2))),
               Token("blockquote_open", Some(LineMap(1, 5))),
               Token("paragraph_open", Some(LineMap(2, 3)))],
              Some(2))
            == Success([Some(SelectionRange(Range(Position(1, 0), Position(5, 0)), None))])
  {
    var tokens := [Token(HeadingOpen, Some(LineMap(2, 2))),
                   Token("blockquote_open", Some(LineMap(1, 5))),
                   Token("paragraph_open", Some(LineMap(2, 3)))];
    BlockFirstCandidate(tokens, 2, 1, 2);
  }

  /** A section on lines 2-5 whose last line is blank: the heading range
      stops at line 4. */
  lemma TrailingBlankLineTrimmed()
    ensures HeaderSelectionRanges(
              [TocEntry(2, Range(Position(2, 0), Position(5, 0)))],
              ["", "", "# Title", "text", "more", "  "],
              Some(2))
            == Success([SelectionRange(Range(Position(2, 0), Position(4, 0)), None)])
  {
    var toc := [TocEntry(2, Range(Position(2, 0), Position(5, 0)))];
    var lines := ["", "", "# Title", "text", "more", "  "];
    assert IsEmptyOrWhitespace(lines[5]);
    assert toc[1..] == [];
    assert AtLine(toc, 2) == toc;
    assert TrimmedEndLine(toc[0], lines) == Success(4);
    var expected := SelectionRange(Range(Position(2, 0), Position(4, 0)), None);
    assert HeadingRange(toc[0], lines) == Success(expected);
    var r := HeaderSelectionRanges(toc, lines, Some(2));
    assert r.Success? && |r.value| == 1 && r.value[0] == expected;
    assert r.value == [expected];
  }

  /** A bullet list whose map is the single line 0, before a paragraph on
      line 0: its end line would be -1, and the whole call fails. */
  lemma LineZeroBulletFails()
    ensures BlockSelectionRanges(
              [Token(BulletListOpen, Some(LineMap(0, 0))),
               Token("paragraph_open", Some(LineMap(0, 0)))],
              Some(0))
            == Failure(NegativeLine(-1))
  {
    BlockFirstCandidate([Token(BulletListOpen, Some(LineMap(0, 0))),
                         Token("paragraph_open", Some(LineMap(0, 0)))], 0, 0, 1);
  }
}
