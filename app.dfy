/**
 * `App` (src/app.rs:27-205): its line buffer, query and mode, updated in place by the key
 * loop and by ingestion, and read by the footer and the body of a redraw.
 */
module Kurzhozen {
  import opened Wrappers
  import opened Keys
  import StatusLine
  import LineBuffer
  import Viewport

  /** Why a redraw panics: the row of the line of rank `rank` underflowed, or the footer's
      padding did. */
  datatype Panic = BodyUnderflow(rank: nat) | FooterUnderflow

  /** What one redraw puts on the screen: the body, then the footer at row `footerRow`. */
  datatype Frame = Frame(body: seq<Viewport.Placement>, footerRow: nat, footer: string)

  class App {
    var rawBuffer: seq<string>
    var query: seq<char>
    var mode: Mode

    function State(): Keys.State
      reads this
    {
      Keys.State(mode, query)
    }

    predicate Valid()
      reads this
    {
      Consistent(State())
    }

    /** `App::new` (src/app.rs:42-51); the input, output and key channel are not modelled. */
    constructor ()
      ensures rawBuffer == [] && State() == Initial && Valid()
    {
      rawBuffer := [];
      query := [];
      mode := Normal;
    }

    /** One arm of the dispatch of `iterate_over_keys` (src/app.rs:60-91) on a key that has
        arrived: the new state is `Step`'s, and so are the exit and redraw outcomes. */
    method HandleKey(k: Key) returns (exit: bool, redraw: bool)
      modifies this`mode, this`query
      ensures Step(old(State()), k) == Transition(State(), exit, redraw)
      ensures old(Valid()) ==> Valid()
    {
      exit, redraw := false, false;
      match (mode, k)
      case (_, CtrlC) =>
        exit := true;
      case (Normal, Char('/')) =>
        mode := Search;
      case (Search, Char('\n')) =>
      case (Search, Backspace) =>
        if query != [] {
          query := query[..|query| - 1];
        }
        redraw := true;
      case (Search, Char(n)) =>
        query := query + [n];
        redraw := true;
      case (Search, Esc) =>
        mode := Normal;
        query := [];
        redraw := true;
      case (_, _) =>
    }

    /** The `loop` of `iterate_over_keys` (src/app.rs:54-100) over the keys the channel
        delivers before it closes; `redrawn` lists the state of each `redraw` call. */
    method IterateOverKeys(keys: seq<Key>) returns (ending: Ending, consumed: nat, redrawn: seq<Keys.State>)
      modifies this`mode, this`query
      ensures Run(old(State()), keys) == RunResult(State(), ending, consumed, redrawn)
      ensures old(Valid()) ==> Valid()
    {
      ghost var start := State();
      consumed, redrawn := 0, [];
      while consumed < |keys|
        invariant consumed <= |keys|
        invariant Run(start, keys) == After(consumed, redrawn, Run(State(), keys[consumed..]))
      {
        ghost var before, rest, shown := State(), keys[consumed..], redrawn;
        var exit, redraw := HandleKey(keys[consumed]);
        RunUnfold(before, rest, Transition(State(), exit, redraw));
        if exit {
          assert After(consumed, redrawn, Run(before, rest)) == RunResult(State(), Interrupted, consumed + 1, redrawn);
          ending, consumed := Interrupted, consumed + 1;
          RunProperties(start, keys);
          return;
        }
        ghost var seen := if redraw then [State()] else [];
        assert rest[1..] == keys[consumed + 1..];
        AfterAfter(consumed, redrawn, seen, Run(State(), keys[consumed + 1..]));
        consumed := consumed + 1;
        if redraw {
          redrawn := redrawn + [State()];
        }
        assert redrawn == shown + seen;
      }
      ending := InputError;
      RunProperties(start, keys);
    }

    /** `App::footer` (src/app.rs:107-122): the query, spaces, then the mode name, on a line
        one column narrower than the terminal. The source panics on a narrower terminal. */
    method Footer(width: nat) returns (footer: string)
      requires width >= |query| + |ModeName(mode)| + 1
      ensures |footer| == width - 1
      ensures footer[..|query|] == query
      ensures footer[|footer| - |ModeName(mode)|..] == ModeName(mode)
      ensures forall j :: |query| <= j < |footer| - |ModeName(mode)| ==> footer[j] == ' '
      ensures footer == query + StatusLine.Spaces(width - |query| - |ModeName(mode)| - 1) + ModeName(mode)
    {
      footer := [];
      var name := ModeName(mode);
      var i := 0;
      while i < |query|
        invariant 0 <= i <= |query| && footer == query[..i]
      {
        footer := footer + [query[i]];
        i := i + 1;
      }
      var padding := StatusLine.PaddingWidth(width, |query|, |name|);
      var n := padding.value;
      var j := 0;
      while j < n
        invariant 0 <= j <= n && footer == query + StatusLine.Spaces(j)
      {
        footer := footer + [' '];
        j := j + 1;
      }
      footer := footer + name;
      assert footer == query + StatusLine.Spaces(n) + name;
    }

    /** The placement loop of `redraw` (src/app.rs:161-189), with `matches` in place of the
        regular expression compiled from the query. */
    method Layout(height: nat, matches: string -> bool) returns (body: Viewport.Body)
      requires height < Viewport.U16_LIMIT
      ensures body == Viewport.Layout(rawBuffer, height, matches)
      ensures Viewport.ByRank(rawBuffer, height, matches, body.placed)
      ensures Viewport.StopsAsWritten(rawBuffer, height, matches, body)
    {
      var placed: seq<Viewport.Placement> := [];
      var i := 0;
      while i < |rawBuffer|
        invariant 0 <= i <= |rawBuffer|
        invariant Viewport.LayoutFrom(rawBuffer, height, matches, i, placed) == Viewport.Layout(rawBuffer, height, matches)
      {
        var line := rawBuffer[|rawBuffer| - 1 - i];
        if matches(line) {
          if i >= height {
            break;
          }
          placed := placed + [Viewport.Placement(height - i, line)];
        } else {
          var row := Viewport.Row(height, i);
          if row.None? {
            Viewport.LayoutByRank(rawBuffer, height, matches);
            return Viewport.RowUnderflow(placed, i);
          }
          placed := placed + [Viewport.Placement(row.value, line)];
        }
        i := i + 1;
      }
      body := Viewport.Drawn(placed);
      Viewport.LayoutByRank(rawBuffer, height, matches);
    }

    /** A redraw on a `width` by `height` terminal (src/app.rs:148-204): the body, then the
        footer at the bottom row, over the row of the newest line. Writing, flushing and the
        colour escapes are not modelled. */
    method Redraw(width: nat, height: nat, matches: string -> bool) returns (r: Result<Frame, Panic>)
      requires width < Viewport.U16_LIMIT && height < Viewport.U16_LIMIT
      ensures Viewport.Layout(rawBuffer, height, matches).RowUnderflow? ==>
        r == Err(BodyUnderflow(Viewport.Layout(rawBuffer, height, matches).rank))
      ensures Viewport.Layout(rawBuffer, height, matches).Drawn? ==>
        (r == Err(FooterUnderflow) <==> width < |query| + |ModeName(mode)| + 1)
      ensures Viewport.Layout(rawBuffer, height, matches).Drawn? && width >= |query| + |ModeName(mode)| + 1 ==>
        r.Ok?
      ensures r.Ok? ==> r.value.body == Viewport.Layout(rawBuffer, height, matches).placed
      ensures r.Ok? ==> r.value.footerRow == height && |r.value.footer| == width - 1
      ensures r.Ok? ==>
        r.value.footer == query + StatusLine.Spaces(width - |query| - |ModeName(mode)| - 1) + ModeName(mode)
      ensures r.Ok? && r.value.body != [] ==> r.value.body[0].row == r.value.footerRow
    {
      var body := Layout(height, matches);
      if body.RowUnderflow? {
        return Err(BodyUnderflow(body.rank));
      }
      if StatusLine.PaddingWidth(width, |query|, |ModeName(mode)|).None? {
        return Err(FooterUnderflow);
      }
      var footer := Footer(width);
      r := Ok(Frame(body.placed, height, footer));
    }

    /** `App::read_input` (src/app.rs:132-146): `results` are the strings `read_line` fills,
        the empty one meaning end of input. Each line is appended in arrival order. */
    method ReadInput(results: seq<string>)
      modifies this`rawBuffer
      ensures rawBuffer == old(rawBuffer) + LineBuffer.LinesRead(results)
      ensures old(rawBuffer) <= rawBuffer
    {
      ghost var lines := LineBuffer.LinesRead(results);
      ghost var before := rawBuffer;
      var i := 0;
      while i < |results| && |results[i]| > 0
        invariant i <= |lines| && rawBuffer == before + lines[..i]
      {
        assert lines[..i + 1] == lines[..i] + [results[i]];
        rawBuffer := rawBuffer + [results[i]];
        i := i + 1;
      }
      assert lines[..i] == lines;
    }

    /** `App::start` (src/app.rs:124-130): ingest the whole input, then run the key loop. */
    method Start(results: seq<string>, keys: seq<Key>) returns (ending: Ending)
      modifies this
      ensures rawBuffer == old(rawBuffer) + LineBuffer.LinesRead(results)
      ensures ending == Run(old(State()), keys).ending
      ensures State() == Run(old(State()), keys).final
      ensures old(Valid()) ==> Valid()
    {
      ReadInput(results);
      var consumed, redrawn;
      ending, consumed, redrawn := IterateOverKeys(keys);
    }
  }
}
