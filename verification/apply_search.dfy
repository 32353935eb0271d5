/** The search predicate (`domain/apply_search.rs`): does the query match any field of a line? */
module ApplySearch {
  import opened Wrappers
  import opened Regex
  import opened LogLines
  import Seqs

  /** `iter.any(|s| search.is_match(s))` */
  function AnyMatch(engine: RegexEngine, re: Regex, texts: seq<string>): (r: bool)
    ensures r <==> exists i :: 0 <= i < |texts| && IsMatch(engine, re, texts[i])
  {
    if |texts| == 0 then false
    else if IsMatch(engine, re, texts[0]) then true
    else
      var r := AnyMatch(engine, re, texts[1..]);
      assert forall i :: 1 <= i < |texts| ==> texts[i] == texts[1..][i - 1];
      r
  }

  /**
   * `apply_search(search, line)`: the six fields, last to first, are tried in
   * turn. The line is borrowed, so it is never modified.
   */
  function ApplySearch(engine: RegexEngine, re: Regex, line: LogLine): (r: bool)
    ensures r <==> exists i :: 0 <= i < |Fields(line)| && IsMatch(engine, re, Fields(line)[i])
  {
    var rev := Seqs.Reverse(Fields(line));
    var r := AnyMatch(engine, re, rev);
    assert forall i :: 0 <= i < |rev| ==> rev[i] == Fields(line)[|rev| - 1 - i];
    assert forall i :: 0 <= i < |rev| ==> Fields(line)[i] == rev[|rev| - 1 - i];
    r
  }

  /** Iterating in reverse does not change the outcome: it equals the forward search. */
  lemma ReversalIrrelevant(engine: RegexEngine, re: Regex, line: LogLine)
    ensures ApplySearch(engine, re, line) == AnyMatch(engine, re, Fields(line))
  {
  }

  /** Only the six text fields are consulted: colour, raw log text and index never are. */
  lemma SearchIgnoresColorLogAndIndex(engine: RegexEngine, re: Regex, line: LogLine, c: Option<Rgb>, log: string, index: string)
    ensures ApplySearch(engine, re, line.(color := c, log := log, index := index)) == ApplySearch(engine, re, line)
  {
    assert Fields(line.(color := c, log := log, index := index)) == Fields(line);
  }
}
