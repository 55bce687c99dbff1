/**
 * The interaction modes and the key-dispatch state machine of `App::iterate_over_keys`
 * (src/app.rs:54-100), stated as pure transition functions over the pair (mode, query).
 * The class `Kurzhozen.App` runs these transitions in place on its fields.
 */
module Keys {

  /** `Mode` (src/app.rs:15-19). */
  datatype Mode = Normal | Search

  /** The `Display` of a mode: its `Debug` name, the variant's own name (src/app.rs:21-25). */
  function ModeName(m: Mode): (name: string)
    ensures |name| == 6
    ensures name[0] == if m == Normal then 'N' else 'S'
  {
    match m
    case Normal => "Normal"
    case Search => "Search"
  }

  lemma ModeNameInjective(a: Mode, b: Mode)
    ensures ModeName(a) == ModeName(b) <==> a == b
  {
  }

  /**
   * The decoded keys the dispatch tells apart. `Char('\n')` is Enter; every other key of the
   * terminal library (including `Ctrl` with a letter other than `c`) is `Other`.
   */
  datatype Key = Char(c: char) | CtrlC | Backspace | Esc | Other

  /** The part of `App` that the dispatch reads and writes. */
  datatype State = State(mode: Mode, query: seq<char>)

  /** `App::new` starts in Normal mode with an empty query (src/app.rs:48-49). */
  const Initial := State(Normal, [])

  /** The invariant the dispatch keeps: outside Search mode the query is empty. */
  predicate Consistent(s: State)
  {
    s.mode == Normal ==> s.query == []
  }

  /** The outcome of one key: the next state, whether the loop returns `Ok(())`, and whether
      `redraw` is called. */
  datatype Transition = Transition(next: State, exit: bool, redraw: bool)

  /** `Vec::pop` with its result dropped: removes the last character, if any. */
  function Pop(q: seq<char>): (r: seq<char>)
    ensures q == [] ==> r == []
    ensures q != [] ==> r + [q[|q| - 1]] == q
  {
    if q == [] then q else q[..|q| - 1]
  }

  /** The query changes only by one push, one pop, or being reset to empty. */
  predicate QueryEdit(q: seq<char>, q': seq<char>)
  {
    q' == q || q' == [] || q' == Pop(q) || (|q'| == |q| + 1 && q'[..|q|] == q)
  }

  /** One arm of the `match (self.mode, key)` of src/app.rs:60-91, arms tried in source order. */
  function Step(s: State, k: Key): (t: Transition)
    ensures t.exit <==> k == CtrlC
    ensures t.exit ==> t.next == s && !t.redraw
    ensures Consistent(s) ==> Consistent(t.next)
    ensures s.mode == Search && t.next.mode == Normal ==> t.next.query == []
    ensures t.next.mode != s.mode ==> !t.exit && (k == Char('/') || k == Esc)
    ensures QueryEdit(s.query, t.next.query)
    ensures t.redraw ==> s.mode == Search
  {
    match (s.mode, k)
    case (_, CtrlC) => Transition(s, true, false)
    case (Normal, Char('/')) => Transition(State(Search, s.query), false, false)
    case (Search, Char('\n')) => Transition(s, false, false)
    case (Search, Backspace) => Transition(State(Search, Pop(s.query)), false, true)
    case (Search, Char(n)) => Transition(State(Search, s.query + [n]), false, true)
    case (Search, Esc) => Transition(State(Normal, []), false, true)
    case (_, _) => Transition(s, false, false)
  }

  /** How the key loop ends: `Ok(())` on Ctrl-C, or `InputError` once the channel yields no key. */
  datatype Ending = Interrupted | InputError

  /** The key loop over a finite run of keys: final state, ending, keys consumed, and the
      state each `redraw` call saw, in order. */
  datatype RunResult = RunResult(final: State, ending: Ending, consumed: nat, redrawn: seq<State>)

  /** The `loop` of `iterate_over_keys` fed with `keys`; after the last key the channel is
      closed, so the receive fails. */
  function Run(s: State, keys: seq<Key>): RunResult
    decreases |keys|
  {
    if keys == [] then RunResult(s, InputError, 0, [])
    else
      var t := Step(s, keys[0]);
      if t.exit then RunResult(t.next, Interrupted, 1, [])
      else
        var rest := Run(t.next, keys[1..]);
        RunResult(rest.final, rest.ending, rest.consumed + 1,
                  (if t.redraw then [t.next] else []) + rest.redrawn)
  }

  /** The loop ends with success exactly at the first Ctrl-C, and otherwise with the input
      error after the last key; every state it passes through, and every state it redraws,
      keeps the invariant. */
  lemma {:induction false} RunProperties(s: State, keys: seq<Key>)
    decreases |keys|
    ensures var r := Run(s, keys);
      r.consumed <= |keys| && (r.ending == Interrupted <==> CtrlC in keys)
    ensures var r := Run(s, keys);
      r.ending == Interrupted ==>
        0 < r.consumed && keys[r.consumed - 1] == CtrlC && CtrlC !in keys[..r.consumed - 1]
    ensures var r := Run(s, keys); r.ending == InputError ==> r.consumed == |keys|
    ensures var r := Run(s, keys); |r.redrawn| <= r.consumed
    ensures Consistent(s) ==> Consistent(Run(s, keys).final)
    ensures Consistent(s) ==> forall j :: 0 <= j < |Run(s, keys).redrawn| ==> Consistent(Run(s, keys).redrawn[j])
  {
    if keys != [] {
      var t := Step(s, keys[0]);
      if !t.exit {
        RunProperties(t.next, keys[1..]);
        var rest := Run(t.next, keys[1..]);
        assert keys == [keys[0]] + keys[1..];
        assert rest.ending == Interrupted ==> keys[1..][..rest.consumed - 1] == keys[1..rest.consumed];
      }
    }
  }

  /** `r` seen from a point `skipped` keys into the run, after `redrawn` redraws. */
  function After(skipped: nat, redrawn: seq<State>, r: RunResult): RunResult
  {
    RunResult(r.final, r.ending, r.consumed + skipped, redrawn + r.redrawn)
  }

  lemma AfterAfter(skipped: nat, redrawn: seq<State>, seen: seq<State>, r: RunResult)
    ensures After(skipped, redrawn, After(1, seen, r)) == After(skipped + 1, redrawn + seen, r)
  {
  }

  /** One turn of the loop: the first key moved the state from `s` to `t.next`. */
  lemma RunUnfold(s: State, keys: seq<Key>, t: Transition)
    requires keys != [] && t == Step(s, keys[0])
    ensures Run(s, keys) == if t.exit then RunResult(s, Interrupted, 1, [])
                            else After(1, if t.redraw then [t.next] else [], Run(t.next, keys[1..]))
  {
  }

  /** Keys as typed: each character of `cs` as a `Char` key. */
  function Typed(cs: seq<char>): (keys: seq<Key>)
    ensures |keys| == |cs|
    ensures forall j :: 0 <= j < |cs| ==> keys[j] == Char(cs[j])
  {
    if cs == [] then [] else [Char(cs[0])] + Typed(cs[1..])
  }

  /** In Search mode, typing any text without a newline appends it to the query, with one
      redraw per character, and the loop then waits for more keys. */
  lemma {:induction false} TypingExtendsQuery(q: seq<char>, cs: seq<char>)
    requires '\n' !in cs
    ensures Run(State(Search, q), Typed(cs)).final == State(Search, q + cs)
    ensures |Run(State(Search, q), Typed(cs)).redrawn| == |cs|
    ensures Run(State(Search, q), Typed(cs)).ending == InputError
    decreases |cs|
  {
    if cs != [] {
      assert Typed(cs)[1..] == Typed(cs[1..]);
      assert Typed(cs)[0] == Char(cs[0]);
      TypingExtendsQuery(q + [cs[0]], cs[1..]);
      assert q + [cs[0]] + cs[1..] == q + cs;
    }
  }

  /** Backspace undoes the character just typed in Search mode. */
  lemma BackspaceUndoesChar(q: seq<char>, c: char)
    requires c != '\n'
    ensures Step(Step(State(Search, q), Char(c)).next, Backspace).next == State(Search, q)
  {
  }

  /** Backspace in Search mode never fails: on an empty query it changes nothing, yet redraws. */
  lemma BackspaceOnEmpty()
    ensures Step(State(Search, []), Backspace) == Transition(State(Search, []), false, true)
  {
  }

  /** Esc in Search mode returns to the initial state whatever the query held, and redraws. */
  lemma EscapeResets(q: seq<char>)
    ensures Step(State(Search, q), Esc) == Transition(Initial, false, true)
  {
  }

  /** `/` in Normal mode enters Search without touching the query and without a redraw;
      `/` in Search mode is an ordinary character. */
  lemma SlashEntersSearch(q: seq<char>)
    ensures Step(State(Normal, q), Char('/')) == Transition(State(Search, q), false, false)
    ensures Step(State(Search, q), Char('/')) == Transition(State(Search, q + ['/']), false, true)
  {
  }

  /** Enter is ignored in Search mode: no edit, no redraw. */
  lemma EnterIgnoredInSearch(q: seq<char>)
    ensures Step(State(Search, q), Char('\n')) == Transition(State(Search, q), false, false)
  {
  }

  /** In Normal mode every key but Ctrl-C and `/` is a no-op. */
  lemma NormalIgnoresOtherKeys(s: State, k: Key)
    requires s.mode == Normal && k != CtrlC && k != Char('/')
    ensures Step(s, k) == Transition(s, false, false)
  {
  }
}
