/**
 * What `App::read_input` appends to `raw_buffer` (src/app.rs:132-146). Each `read_line`
 * result is given as a string: the line with its terminator, or the empty string for the
 * zero-byte read that signals end of input.
 */
module LineBuffer {

  /** The lines read before end of input: the results up to the first empty one (or all of
      them if the sequence runs out first), in arrival order. */
  function LinesRead(results: seq<string>): (lines: seq<string>)
    ensures lines <= results
    ensures forall j :: 0 <= j < |lines| ==> lines[j] != []
    ensures |lines| < |results| ==> results[|lines|] == []
  {
    if results == [] || results[0] == [] then []
    else [results[0]] + LinesRead(results[1..])
  }

  /** Reading is incremental: what a prefix of the results yields is a prefix of what the whole
      yields, so appending in arrival order never undoes an earlier line. */
  lemma {:induction false} LinesReadMonotone(results: seq<string>, n: nat)
    requires n <= |results|
    ensures LinesRead(results[..n]) <= LinesRead(results)
    decreases n
  {
    if n > 0 && results[0] != [] {
      assert results[..n][1..] == results[1..][..n - 1];
      LinesReadMonotone(results[1..], n - 1);
    }
  }
}
