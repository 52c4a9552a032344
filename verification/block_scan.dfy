/** A single left-to-right pass that computes the block builder's result
    without building the filtered token list: it remembers only the first
    and the last nearby token and whether a bullet list ending on line 0
    came before the last one. It is proved to agree with `BlockSelectionRanges`. */
module BlockScan {
  import opened Wrappers
  import opened Ranges
  import opened SmartSelect

  method ScanBlockSelection(tokens: seq<Token>, line: nat) returns (r: Result<seq<Option<SelectionRange>>, Error>)
    ensures r == BlockSelectionRanges(tokens, Some(line))
  {
    var found := false;           // some nearby token has been seen
    var first, last := 0, 0;      // the first and the last nearby token seen
    var lineZeroBullet := false;  // a nearby token before `last` would yield a negative line
    var n := 0;
    while n < |tokens|
      invariant 0 <= n <= |tokens|
      invariant !found ==> forall j :: 0 <= j < n ==> !IsNearby(tokens[j], line)
      invariant found ==> first <= last < n && IsNearby(tokens[first], line) && IsNearby(tokens[last], line)
      invariant found ==> forall j :: 0 <= j < first ==> !IsNearby(tokens[j], line)
      invariant found ==> forall j :: last < j < n ==> !IsNearby(tokens[j], line)
      invariant lineZeroBullet <==>
        found && exists j :: first <= j < last && IsNearby(tokens[j], line) && IsLineZeroBullet(tokens[j])
    {
      if IsNearby(tokens[n], line) {
        if !found {
          first := n;
        } else if IsLineZeroBullet(tokens[last]) {
          lineZeroBullet := true;
        }
        last := n;
        found := true;
      }
      n := n + 1;
    }
    if !found {
      BlockNoMatch(tokens, line);
      r := Success([]);
    } else if first == last {
      BlockSingleMatch(tokens, line, last);
      r := Success([None]);
    } else {
      BlockFirstCandidate(tokens, line, first, last);
      if lineZeroBullet {
        r := Failure(NegativeLine(-1));
      } else {
        r := Success([Some(Candidate(tokens[first], tokens[last].lineMap.value).value)]);
      }
    }
  }
}
