/**
 * The arithmetic of `App::footer` (src/app.rs:107-122): the footer is the query, then
 * padding spaces, then the mode name. The padding length is an unchecked `usize`
 * subtraction, which panics instead of clamping when the terminal is too narrow.
 */
module StatusLine {
  import opened Wrappers
  import opened Keys

  /**
   * `width - query_len - mode_len - 1` on `usize`, evaluated left to right as Rust does;
   * `None` is the overflow panic of one of the three subtractions (src/app.rs:114).
   */
  function PaddingWidth(width: nat, queryLen: nat, modeLen: nat): (r: Option<nat>)
    ensures r.None? <==> width < queryLen + modeLen + 1
    ensures r.Some? ==> queryLen + r.value + modeLen + 1 == width
  {
    if width < queryLen then None
    else if width - queryLen < modeLen then None
    else if width - queryLen - modeLen < 1 then None
    else Some(width - queryLen - modeLen - 1)
  }

  /** `vec![' '; n]`. */
  function Spaces(n: nat): (s: string)
    ensures |s| == n
    ensures forall j :: 0 <= j < n ==> s[j] == ' '
  {
    seq(n, _ => ' ')
  }

  /** A footer of the query "err" in Normal mode on a 20-column terminal gets 10 spaces of
      padding, so it is 19 characters wide. */
  lemma TightFooterFits()
    ensures PaddingWidth(20, 3, 6) == Some(10)
    ensures |"err" + Spaces(10) + ModeName(Normal)| == 20 - 1
  {
  }

  /** A 10-character query on a 5-column terminal makes the first subtraction underflow. */
  lemma NarrowFooterPanics()
    ensures PaddingWidth(5, 10, 6) == None
  {
  }
}
