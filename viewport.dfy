/**
 * The row-placement loop of `App::redraw` (src/app.rs:161-189). The buffer is walked newest
 * to oldest; the line of reverse rank `i` goes to row `height - i as u16`. The regular
 * expression built from the query is replaced by an arbitrary predicate `matches`.
 */
module Viewport {
  import opened Wrappers

  /** Terminal geometry is a pair of `u16`. */
  const U16_LIMIT := 0x1_0000

  /** A `cursor::Goto(1, row)` followed by the line written there. */
  datatype Placement = Placement(row: nat, line: string)

  /** The body of a redraw: the placements in the order they are written, or the placements
      written before the row computation for line `rank` overflowed and panicked. */
  datatype Body = Drawn(placed: seq<Placement>) | RowUnderflow(placed: seq<Placement>, rank: nat)

  /** The line of reverse rank `rank`: the `rank`-th item of `raw_buffer.iter().rev()`. */
  function LineAt(buffer: seq<string>, rank: nat): string
    requires rank < |buffer|
  {
    buffer[|buffer| - 1 - rank]
  }

  /** `height - i as u16`: the cast keeps `i` modulo 2^16, and the `u16` subtraction panics
      when that exceeds `height` (`None`). */
  function Row(height: nat, rank: nat): (r: Option<nat>)
    requires height < U16_LIMIT
    ensures r.None? <==> rank % U16_LIMIT > height
    ensures r.Some? ==> r.value + rank % U16_LIMIT == height
    ensures rank <= height ==> r == Some(height - rank)
    ensures height < rank < U16_LIMIT ==> r.None?
  {
    var truncated := rank % U16_LIMIT;
    if truncated > height then None else Some(height - truncated)
  }

  /** The loop from rank `i` on, `placed` holding what ranks below `i` wrote. As in the source,
      the cut-off `i >= height` applies only to a matching line. */
  function LayoutFrom(buffer: seq<string>, height: nat, matches: string -> bool, i: nat, placed: seq<Placement>): Body
    requires height < U16_LIMIT && i <= |buffer|
    decreases |buffer| - i
  {
    if i == |buffer| then Drawn(placed)
    else
      var line := LineAt(buffer, i);
      if matches(line) then
        if i >= height then Drawn(placed)
        else LayoutFrom(buffer, height, matches, i + 1, placed + [Placement(height - i, line)])
      else
        match Row(height, i)
        case None => RowUnderflow(placed, i)
        case Some(row) => LayoutFrom(buffer, height, matches, i + 1, placed + [Placement(row, line)])
  }

  /** The whole body of one redraw, as written. */
  function Layout(buffer: seq<string>, height: nat, matches: string -> bool): Body
    requires height < U16_LIMIT
  {
    LayoutFrom(buffer, height, matches, 0, [])
  }

  /** Placement `k` writes the line of reverse rank `k` at row `height - k` (rank taken modulo
      2^16), and a matching line is written only inside the cut-off. */
  predicate ByRank(buffer: seq<string>, height: nat, matches: string -> bool, placed: seq<Placement>)
  {
    |placed| <= |buffer| &&
    forall k :: 0 <= k < |placed| ==>
      placed[k].line == buffer[|buffer| - 1 - k] &&
      placed[k].row + k % U16_LIMIT == height &&
      (matches(placed[k].line) ==> k < height)
  }

  /** Why the walk stopped: the buffer ran out, or the next line matched at or past the
      cut-off (`break`), or the next line did not match and its row underflowed. */
  predicate StopsAsWritten(buffer: seq<string>, height: nat, matches: string -> bool, b: Body)
  {
    match b
    case Drawn(p) =>
      |p| < |buffer| ==> matches(buffer[|buffer| - 1 - |p|]) && |p| >= height
    case RowUnderflow(p, rank) =>
      rank == |p| < |buffer| && !matches(buffer[|buffer| - 1 - rank]) && rank % U16_LIMIT > height
  }

  lemma {:induction false} LayoutFromByRank(buffer: seq<string>, height: nat, matches: string -> bool, i: nat, placed: seq<Placement>)
    requires height < U16_LIMIT && i <= |buffer|
    requires |placed| == i && ByRank(buffer, height, matches, placed)
    ensures placed <= LayoutFrom(buffer, height, matches, i, placed).placed
    ensures ByRank(buffer, height, matches, LayoutFrom(buffer, height, matches, i, placed).placed)
    ensures StopsAsWritten(buffer, height, matches, LayoutFrom(buffer, height, matches, i, placed))
    decreases |buffer| - i
  {
    if i < |buffer| {
      var line := LineAt(buffer, i);
      if matches(line) {
        if i < height {
          var next := placed + [Placement(height - i, line)];
          assert i % U16_LIMIT == i;
          assert ByRank(buffer, height, matches, next);
          LayoutFromByRank(buffer, height, matches, i + 1, next);
        }
      } else if Row(height, i).Some? {
        var next := placed + [Placement(Row(height, i).value, line)];
        assert ByRank(buffer, height, matches, next);
        LayoutFromByRank(buffer, height, matches, i + 1, next);
      }
    }
  }

  /** Every redraw writes lines newest first, each at the row of its reverse rank, and stops
      only for one of the three reasons of `StopsAsWritten`. */
  lemma LayoutByRank(buffer: seq<string>, height: nat, matches: string -> bool)
    requires height < U16_LIMIT
    ensures ByRank(buffer, height, matches, Layout(buffer, height, matches).placed)
    ensures StopsAsWritten(buffer, height, matches, Layout(buffer, height, matches))
  {
    LayoutFromByRank(buffer, height, matches, 0, []);
  }

  /** The newest line is written at the bottom row `height`, unless it matches and the
      terminal has no rows at all. */
  lemma NewestAtBottom(buffer: seq<string>, height: nat, matches: string -> bool)
    requires height < U16_LIMIT
    requires |buffer| > 0 && (height > 0 || !matches(LineAt(buffer, 0)))
    ensures |Layout(buffer, height, matches).placed| > 0
    ensures Layout(buffer, height, matches).placed[0] == Placement(height, LineAt(buffer, 0))
  {
    LayoutByRank(buffer, height, matches);
  }

  /** As written: once the buffer holds more than `height + 1` lines of which none matches
      (a Search query that occurs nowhere), the line of rank `height` is written at row 0 and
      the row of the line of rank `height + 1` underflows. */
  lemma {:induction false} UnmatchedFromUnderflows(buffer: seq<string>, height: nat, matches: string -> bool, i: nat, placed: seq<Placement>)
    requires height + 1 < U16_LIMIT && height + 2 <= |buffer| && i <= height + 1
    requires forall k :: 0 <= k < |buffer| ==> !matches(buffer[k])
    ensures LayoutFrom(buffer, height, matches, i, placed).RowUnderflow?
    ensures LayoutFrom(buffer, height, matches, i, placed).rank == height + 1
    decreases height + 1 - i
  {
    assert !matches(LineAt(buffer, i));
    if i <= height {
      var next := placed + [Placement(height - i, LineAt(buffer, i))];
      UnmatchedFromUnderflows(buffer, height, matches, i + 1, next);
    }
  }

  lemma UnmatchedLinesUnderflow(buffer: seq<string>, height: nat, matches: string -> bool)
    requires height + 1 < U16_LIMIT && height + 2 <= |buffer|
    requires forall k :: 0 <= k < |buffer| ==> !matches(buffer[k])
    ensures Layout(buffer, height, matches).RowUnderflow?
    ensures Layout(buffer, height, matches).rank == height + 1
    ensures |Layout(buffer, height, matches).placed| == height + 1
    ensures Layout(buffer, height, matches).placed[height].row == 0
  {
    UnmatchedFromUnderflows(buffer, height, matches, 0, []);
    LayoutByRank(buffer, height, matches);
  }

  /** The smallest instance: one row, three lines, a query matching none of them. */
  lemma OneRowThreeLinesPanics()
    ensures Layout(["a\n", "b\n", "c\n"], 1, _ => false)
         == RowUnderflow([Placement(1, "c\n"), Placement(0, "b\n")], 2)
  {
  }

  /** The evidently intended walk: the cut-off `i >= height` ends it whether or not the line
      matches, so no row computation can underflow. */
  function IntendedLayoutFrom(buffer: seq<string>, height: nat, i: nat, placed: seq<Placement>): seq<Placement>
    requires i <= |buffer|
    decreases |buffer| - i
  {
    if i == |buffer| || i >= height then placed
    else IntendedLayoutFrom(buffer, height, i + 1, placed + [Placement(height - i, LineAt(buffer, i))])
  }

  function IntendedLayout(buffer: seq<string>, height: nat): seq<Placement>
  {
    IntendedLayoutFrom(buffer, height, 0, [])
  }

  lemma {:induction false} IntendedLayoutFromFits(buffer: seq<string>, height: nat, i: nat, placed: seq<Placement>)
    requires i <= |buffer| && |placed| == i && i <= height
    requires forall k :: 0 <= k < i ==> placed[k] == Placement(height - k, buffer[|buffer| - 1 - k])
    ensures var r := IntendedLayoutFrom(buffer, height, i, placed);
      |r| == if |buffer| < height then |buffer| else height
    ensures var r := IntendedLayoutFrom(buffer, height, i, placed);
      forall k :: 0 <= k < |r| ==> r[k] == Placement(height - k, buffer[|buffer| - 1 - k])
    decreases |buffer| - i
  {
    if i < |buffer| && i < height {
      IntendedLayoutFromFits(buffer, height, i + 1, placed + [Placement(height - i, LineAt(buffer, i))]);
    }
  }

  /** The intended body shows exactly the `min(height, |buffer|)` newest lines, newest at the
      bottom row `height`, every row between 1 and `height`. */
  lemma IntendedLayoutFits(buffer: seq<string>, height: nat)
    ensures |IntendedLayout(buffer, height)| == if |buffer| < height then |buffer| else height
    ensures forall k :: 0 <= k < |IntendedLayout(buffer, height)| ==>
      IntendedLayout(buffer, height)[k] == Placement(height - k, LineAt(buffer, k)) &&
      1 <= IntendedLayout(buffer, height)[k].row <= height
  {
    IntendedLayoutFromFits(buffer, height, 0, []);
  }

  lemma {:induction false} LayoutFromAgrees(buffer: seq<string>, height: nat, matches: string -> bool, i: nat, placed: seq<Placement>)
    requires height < U16_LIMIT && i <= |buffer| && i <= height
    requires |buffer| <= height || matches(LineAt(buffer, height))
    ensures LayoutFrom(buffer, height, matches, i, placed) == Drawn(IntendedLayoutFrom(buffer, height, i, placed))
    decreases |buffer| - i
  {
    if i < |buffer| && i < height {
      assert i % U16_LIMIT == i;
      LayoutFromAgrees(buffer, height, matches, i + 1, placed + [Placement(height - i, LineAt(buffer, i))]);
    }
  }

  /** The body as written equals the intended one exactly when the buffer fits the terminal or
      the first line past the cut-off matches the query, so that the `break` is reached. */
  lemma LayoutAgreesIff(buffer: seq<string>, height: nat, matches: string -> bool)
    requires height < U16_LIMIT
    ensures Layout(buffer, height, matches) == Drawn(IntendedLayout(buffer, height))
        <==> |buffer| <= height || matches(LineAt(buffer, height))
  {
    if |buffer| <= height || matches(LineAt(buffer, height)) {
      LayoutFromAgrees(buffer, height, matches, 0, []);
    } else {
      LayoutByRank(buffer, height, matches);
      IntendedLayoutFits(buffer, height);
    }
  }
}
