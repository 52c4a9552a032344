/** The editor's position and range values, reduced to what the smart-select
    code depends on: positions ordered by line then character, a range
    constructor that puts its two ends in document order, inclusive
    containment, and a selection range with an optional enclosing parent. */
module Ranges {
  import opened Wrappers

  /** A zero-based line and character; the editor refuses negative values,
      so both are natural numbers here. */
  datatype Position = Position(line: nat, character: nat)

  /** Strict document order on positions. */
  predicate IsBefore(a: Position, b: Position) {
    a.line < b.line || (a.line == b.line && a.character < b.character)
  }

  /** Two positions; `WellOrdered` says the start does not come after the end. */
  datatype Range = Range(start: Position, end: Position)

  predicate WellOrdered(r: Range) {
    !IsBefore(r.end, r.start)
  }

  /** The range constructor: it swaps its arguments when `start` comes
      after `end`, so the result always spans exactly the two given
      positions, in document order. */
  function MakeRange(start: Position, end: Position): (r: Range)
    ensures WellOrdered(r)
    ensures multiset{r.start, r.end} == multiset{start, end}
  {
    if IsBefore(end, start) then Range(end, start) else Range(start, end)
  }

  /** A position lies inside a range, both ends included. */
  predicate ContainsPosition(r: Range, p: Position) {
    !IsBefore(p, r.start) && !IsBefore(r.end, p)
  }

  /** A range lies inside another, both ends included. */
  predicate Contains(outer: Range, inner: Range) {
    ContainsPosition(outer, inner.start) && ContainsPosition(outer, inner.end)
  }

  /** A range whose two ends sit at character 0 covers whole lines. */
  predicate OnLineStarts(r: Range) {
    r.start.character == 0 && r.end.character == 0
  }

  /** For ranges on line starts, containment is inclusion of the line intervals. */
  lemma ContainsByLines(outer: Range, inner: Range)
    requires OnLineStarts(outer) && OnLineStarts(inner) && WellOrdered(inner)
    ensures Contains(outer, inner) <==>
      outer.start.line <= inner.start.line && inner.end.line <= outer.end.line
  {
  }

  /** A range together with the range to expand to next, if any. */
  datatype SelectionRange = SelectionRange(range: Range, parent: Option<SelectionRange>)
}
