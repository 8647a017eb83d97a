/**
 * code/chapter-10/svg.py: `convert` turns the path data of an SVG `<path>`
 * (SVG 1.1 section 8.3) into matplotlib-style vertices and codes, and
 * `tesselate` replaces quadratic and cubic Bézier runs by line segments.
 *
 * The path string arrives already split into command letters and numbers;
 * the `bezier.quadratic` and `bezier.cubic` samplers are function
 * parameters.
 */
module SvgPath {

  import opened Wrappers

  /** The path codes (matplotlib's Path constants). */
  const MOVETO: int := 1
  const LINETO: int := 2
  const CURVE4: int := 3
  const CURVE3: int := 4
  const CLOSE: int := 5

  datatype Token = Cmd(letter: char) | Num(value: real)

  datatype Point = Point(x: real, y: real)

  /** Parallel vertex and code lists. */
  datatype Path = Path(verts: seq<Point>, codes: seq<int>)

  /**
   * Why `convert` stops: a letter missing from the command table (KeyError),
   * a number before any command (the command is unbound), a coordinate group
   * cut short or holding a letter, or a number right after Z/z, which no
   * iteration consumes, so the loop never ends.
   */
  datatype ConvertError = UnknownCommand(letter: char) | NoCommand | Malformed | Diverges

  /** The command table: code and count of numbers per group. H, V, S, T and A are absent. */
  function Lookup(c: char): (r: Option<(int, nat)>)
    ensures r.Some? <==> c in "MmLlCcQqZz"
    ensures r.Some? ==> r.value.1 % 2 == 0 && (r.value.1 == 0 <==> c in "Zz")
  {
    if c == 'M' || c == 'm' then Some((MOVETO, 2))
    else if c == 'L' || c == 'l' then Some((LINETO, 2))
    else if c == 'C' || c == 'c' then Some((CURVE4, 6))
    else if c == 'Q' || c == 'q' then Some((CURVE3, 4))
    else if c == 'Z' || c == 'z' then Some((CLOSE, 0))
    else None
  }

  predicate IsLower(c: char)
  {
    'a' <= c <= 'z'
  }

  function Value(t: Token): real
  {
    if t.Num? then t.value else 0.0
  }

  /** `n` numbers follow position `idx`. */
  predicate WellFormedGroup(tokens: seq<Token>, idx: nat, n: nat)
  {
    idx + n <= |tokens| && forall k :: idx <= k < idx + n ==> tokens[k].Num?
  }

  /** The numbers read as `n/2` points, each offset by `offset`. */
  function Group(tokens: seq<Token>, idx: nat, n: nat, offset: Point): (g: seq<Point>)
    requires idx + n <= |tokens|
    ensures |g| == n / 2
    ensures forall k :: 0 <= k < n / 2 ==>
      g[k] == Point(Value(tokens[idx + 2 * k]) + offset.x, Value(tokens[idx + 2 * k + 1]) + offset.y)
  {
    seq(n / 2, k requires 0 <= k < n / 2 =>
      Point(Value(tokens[idx + 2 * k]) + offset.x, Value(tokens[idx + 2 * k + 1]) + offset.y))
  }

  function Repeat(code: int, count: nat): (s: seq<int>)
    ensures |s| == count && forall k :: 0 <= k < count ==> s[k] == code
  {
    seq(count, _ => code)
  }

  /**
   * The loop variables of `convert`: the position, the last command with its
   * code and group size, the current point (`last_vertice`), the subpath's
   * initial point, and the output built so far.
   */
  datatype State = State(index: nat, command: Option<char>, code: int, n: nat,
                         cur: Point, start: Point, path: Path)

  const Init := State(0, None, 0, 0, Point(0.0, 0.0), Point(0.0, 0.0), Path([], []))

  /** After a moveto group further pairs are linetos of the same case. */
  function Rewrite(st: State): (r: State)
    ensures r.index == st.index && r.cur == st.cur && r.start == st.start && r.path == st.path && r.n == st.n
    ensures st.command == Some('m') ==> r.command == Some('l') && r.code == LINETO
    ensures st.command == Some('M') ==> r.command == Some('L') && r.code == LINETO
    ensures st.command != Some('m') && st.command != Some('M') ==> r == st
  {
    if st.command == Some('m') then st.(command := Some('l'), code := LINETO)
    else if st.command == Some('M') then st.(command := Some('L'), code := LINETO)
    else st
  }

  predicate Coded(c: int)
  {
    MOVETO <= c <= CLOSE
  }

  /** The command an iteration applies: its letter, code, group size and where its numbers start. */
  datatype Pending = Pending(command: char, code: int, n: nat, idx: nat)

  /**
   * The head of an iteration: a letter is looked up in the table and
   * consumed; a number reuses the last command.
   */
  function Dispatch(tokens: seq<Token>, st: State): (r: Result<Pending, ConvertError>)
    requires st.index < |tokens|
    ensures r.Ok? && tokens[st.index].Cmd? ==> (Lookup(tokens[st.index].letter).Some? &&
      r.value == Pending(tokens[st.index].letter, Lookup(tokens[st.index].letter).value.0,
                         Lookup(tokens[st.index].letter).value.1, st.index + 1))
    ensures r.Ok? && tokens[st.index].Num? ==>
      st.command.Some? && r.value == Pending(st.command.value, st.code, st.n, st.index)
    ensures r.Err? ==> (tokens[st.index].Cmd? && r.error == UnknownCommand(tokens[st.index].letter) &&
                        Lookup(tokens[st.index].letter).None?) ||
                       (tokens[st.index].Num? && r.error == NoCommand && st.command.None?)
  {
    var t := tokens[st.index];
    if t.Cmd? then
      if Lookup(t.letter).None? then Err(UnknownCommand(t.letter))
      else Ok(Pending(t.letter, Lookup(t.letter).value.0, Lookup(t.letter).value.1, st.index + 1))
    else if st.command.None? then Err(NoCommand)
    else Ok(Pending(st.command.value, st.code, st.n, st.index))
  }

  /**
   * The body of an iteration. With `closeResets` false this is the code as
   * written: Z/z leaves the current point where it is. With `closeResets`
   * true a moveto records the subpath's initial point and Z/z returns to it,
   * as section 8.3.3 of SVG 1.1 prescribes.
   */
  function Emit(tokens: seq<Token>, st: State, p: Pending, closeResets: bool): (r: Result<State, ConvertError>)
    requires st.index <= p.idx <= |tokens|
    ensures r.Ok? ==> st.index < r.value.index <= |tokens| && r.value.command.Some?
    ensures r.Ok? ==> |r.value.path.verts| - |st.path.verts| == |r.value.path.codes| - |st.path.codes|
  {
    if p.n > 0 then
      if !WellFormedGroup(tokens, p.idx, p.n) || p.n % 2 != 0 then Err(Malformed)
      else
        var offset := if IsLower(p.command) then st.cur else Point(0.0, 0.0);
        var g := Group(tokens, p.idx, p.n, offset);
        var start := if closeResets && (p.command == 'M' || p.command == 'm') then g[0] else st.start;
        Ok(Rewrite(State(p.idx + p.n, Some(p.command), p.code, p.n, g[|g| - 1], start,
                         Path(st.path.verts + g, st.path.codes + Repeat(p.code, p.n / 2)))))
    else if p.idx == st.index then Err(Diverges)
    else
      var cur := if closeResets then st.start else st.cur;
      Ok(Rewrite(State(p.idx, Some(p.command), p.code, p.n, cur, st.start,
                       Path(st.path.verts + [st.cur], st.path.codes + [p.code]))))
  }

  /** One iteration of the loop. */
  function Step(tokens: seq<Token>, st: State, closeResets: bool): (r: Result<State, ConvertError>)
    requires st.index < |tokens|
    ensures r.Ok? ==> st.index < r.value.index <= |tokens| && r.value.command.Some?
    ensures r.Ok? ==> |r.value.path.verts| - |st.path.verts| == |r.value.path.codes| - |st.path.codes|
  {
    var d := Dispatch(tokens, st);
    if d.Err? then Err(d.error) else Emit(tokens, st, d.value, closeResets)
  }

  /** The loop from state `st` to the end of the tokens. */
  function RunFrom(tokens: seq<Token>, st: State, closeResets: bool): (r: Result<Path, ConvertError>)
    requires st.index <= |tokens|
    ensures r.Ok? && |st.path.verts| == |st.path.codes| ==> |r.value.verts| == |r.value.codes|
    decreases |tokens| - st.index
  {
    if st.index == |tokens| then Ok(st.path)
    else
      var s := Step(tokens, st, closeResets);
      if s.Err? then Err(s.error) else RunFrom(tokens, s.value, closeResets)
  }

  /** `convert(path)` as written. */
  function Convert(tokens: seq<Token>): (r: Result<Path, ConvertError>)
    ensures r.Ok? ==> |r.value.verts| == |r.value.codes|
  {
    RunFrom(tokens, Init, false)
  }

  /** `convert(path)` with Z/z returning to the subpath's initial point. */
  function ConvertSvg(tokens: seq<Token>): (r: Result<Path, ConvertError>)
    ensures r.Ok? ==> |r.value.verts| == |r.value.codes|
  {
    RunFrom(tokens, Init, true)
  }

  /** Every code `convert` emits is one of the five path codes. */
  lemma {:induction false} RunCodes(tokens: seq<Token>, st: State, closeResets: bool)
    requires st.index <= |tokens|
    requires st.command.Some? ==> Coded(st.code)
    requires forall k :: 0 <= k < |st.path.codes| ==> Coded(st.path.codes[k])
    requires RunFrom(tokens, st, closeResets).Ok?
    ensures forall k :: 0 <= k < |RunFrom(tokens, st, closeResets).value.codes| ==>
      Coded(RunFrom(tokens, st, closeResets).value.codes[k])
    decreases |tokens| - st.index
  {
    if st.index < |tokens| {
      var p := Dispatch(tokens, st).value;
      assert Coded(p.code);
      var s := Emit(tokens, st, p, closeResets).value;
      assert RunFrom(tokens, st, closeResets) == RunFrom(tokens, s, closeResets);
      forall k | 0 <= k < |s.path.codes| ensures Coded(s.path.codes[k]) {
        EmitCodes(tokens, st, p, closeResets);
        if k < |st.path.codes| {
          assert s.path.codes[k] == s.path.codes[..|st.path.codes|][k];
        }
      }
      assert Coded(s.code) by { EmitCodes(tokens, st, p, closeResets); }
      RunCodes(tokens, s, closeResets);
    }
  }

  /** An iteration keeps the codes so far and appends only the pending command's code. */
  lemma EmitCodes(tokens: seq<Token>, st: State, p: Pending, closeResets: bool)
    requires st.index <= p.idx <= |tokens| && Emit(tokens, st, p, closeResets).Ok?
    ensures var s := Emit(tokens, st, p, closeResets).value;
      |s.path.codes| > |st.path.codes| && s.path.codes[..|st.path.codes|] == st.path.codes &&
      (forall k :: |st.path.codes| <= k < |s.path.codes| ==> s.path.codes[k] == p.code) &&
      (s.code == p.code || s.code == LINETO)
  {
  }

  lemma ConvertCodes(tokens: seq<Token>)
    requires Convert(tokens).Ok?
    ensures forall k :: 0 <= k < |Convert(tokens).value.codes| ==> Coded(Convert(tokens).value.codes[k])
  {
    RunCodes(tokens, Init, false);
  }

  /**
   * A coordinate group: n numbers give n/2 vertices, all tagged with the
   * command's code; a lowercase command offsets every vertex by the current
   * point, and the last vertex becomes the current point.
   */
  lemma GroupStep(tokens: seq<Token>, st: State, closeResets: bool, command: char, code: int, n: nat, idx: nat)
    requires st.index < |tokens|
    requires tokens[st.index].Cmd? ==>
      (command == tokens[st.index].letter && Lookup(command) == Some((code, n)) && idx == st.index + 1)
    requires tokens[st.index].Num? ==>
      (st.command == Some(command) && code == st.code && n == st.n && idx == st.index && n % 2 == 0)
    requires n > 0 && WellFormedGroup(tokens, idx, n)
    ensures Step(tokens, st, closeResets).Ok?
    ensures var s := Step(tokens, st, closeResets).value;
      var off := if IsLower(command) then st.cur else Point(0.0, 0.0);
      s.index == idx + n &&
      s.path.verts[|st.path.verts|..] == Group(tokens, idx, n, off) &&
      s.path.codes[|st.path.codes|..] == Repeat(code, n / 2) &&
      s.cur == s.path.verts[|s.path.verts| - 1]
  {
  }

  /** A group without a command letter repeats the last command, with its code. */
  lemma ReuseCommand(tokens: seq<Token>, st: State, closeResets: bool)
    requires st.index < |tokens| && tokens[st.index].Num? && st.command.Some?
    requires Step(tokens, st, closeResets).Ok?
    ensures var s := Step(tokens, st, closeResets).value;
      s.path.codes[|st.path.codes|] == st.code &&
      (st.command.value !in "Mm" ==> s.command == st.command && s.code == st.code)
  {
  }

  /** After a moveto the pending command is a lineto of the same case. */
  lemma MovetoThenLineto(tokens: seq<Token>, st: State, closeResets: bool)
    requires st.index < |tokens| && (tokens[st.index] == Cmd('M') || tokens[st.index] == Cmd('m'))
    requires Step(tokens, st, closeResets).Ok?
    ensures var s := Step(tokens, st, closeResets).value;
      s.code == LINETO && s.path.codes[|st.path.codes|] == MOVETO &&
      (tokens[st.index] == Cmd('M') ==> s.command == Some('L')) &&
      (tokens[st.index] == Cmd('m') ==> s.command == Some('l'))
  {
  }

  /**
   * Z/z emits exactly one CLOSE entry carrying the current point. As written
   * the current point then stays; the conforming variant returns to the
   * subpath's initial point.
   */
  lemma CloseStep(tokens: seq<Token>, st: State, closeResets: bool)
    requires st.index < |tokens| && tokens[st.index].Cmd? && tokens[st.index].letter in "Zz"
    ensures Step(tokens, st, closeResets).Ok?
    ensures var s := Step(tokens, st, closeResets).value;
      s.path == Path(st.path.verts + [st.cur], st.path.codes + [CLOSE]) &&
      s.index == st.index + 1 && s.start == st.start &&
      (if closeResets then s.cur == st.start else s.cur == st.cur)
  {
  }

  /** H, V, S, T and A are lexed but missing from the table. */
  lemma UnsupportedLetters(tokens: seq<Token>, st: State, closeResets: bool)
    requires st.index < |tokens| && tokens[st.index].Cmd? && tokens[st.index].letter in "HhVvSsTtAa"
    ensures Step(tokens, st, closeResets) == Err(UnknownCommand(tokens[st.index].letter))
  {
  }

  /** A path starting with a number, or with Z/z followed by a number, is rejected. */
  lemma ConvertErrors(x: real, rest: seq<Token>, z: char)
    requires z in "Zz"
    ensures Convert([Num(x)] + rest) == Err(NoCommand)
    ensures Convert([Cmd(z), Num(x)] + rest) == Err(Diverges)
  {
    var t := [Cmd(z), Num(x)] + rest;
    assert t[0] == Cmd(z) && t[1] == Num(x);
    var s := Step(t, Init, false);
    assert s.Ok? && s.value.index == 1 && s.value.command == Some(z) && s.value.n == 0;
    assert Step(t, s.value, false) == Err(Diverges);
    assert Convert(t) == RunFrom(t, s.value, false);
  }

  /** `M x1 y1 x2 y2`: the second pair is an implicit lineto. */
  lemma ImplicitLineto(x1: real, y1: real, x2: real, y2: real)
    ensures Convert([Cmd('M'), Num(x1), Num(y1), Num(x2), Num(y2)]) ==
      Ok(Path([Point(x1, y1), Point(x2, y2)], [MOVETO, LINETO]))
  {
    var t := [Cmd('M'), Num(x1), Num(y1), Num(x2), Num(y2)];
    PairStep(t, Init, false, Pending('M', MOVETO, 2, 1), x1, y1);
    assert [] + [Point(x1, y1)] == [Point(x1, y1)] && [] + [MOVETO] == [MOVETO];
    var s1 := State(3, Some('L'), LINETO, 2, Point(x1, y1), Point(0.0, 0.0), Path([Point(x1, y1)], [MOVETO]));
    PairStep(t, s1, false, Pending('L', LINETO, 2, 3), x2, y2);
    assert [Point(x1, y1)] + [Point(x2, y2)] == [Point(x1, y1), Point(x2, y2)] && [MOVETO] + [LINETO] == [MOVETO, LINETO];
    var s2 := State(5, Some('L'), LINETO, 2, Point(x2, y2), Point(0.0, 0.0), Path([Point(x1, y1), Point(x2, y2)], [MOVETO, LINETO]));
    assert RunFrom(t, s1, false) == RunFrom(t, s2, false);
  }

  /** The tokens of `M x0 y0 L x1 y1 z m dx dy`. */
  function CloseThenRelativeMove(x0: real, y0: real, x1: real, y1: real, dx: real, dy: real): (t: seq<Token>)
    ensures |t| == 10
  {
    [Cmd('M'), Num(x0), Num(y0), Cmd('L'), Num(x1), Num(y1), Cmd('z'), Cmd('m'), Num(dx), Num(dy)]
  }

  /** An absolute moveto or lineto with one coordinate pair, from a state with no pending offset. */
  lemma PairStep(t: seq<Token>, st: State, closeResets: bool, p: Pending, x: real, y: real)
    requires st.index < |t| && Dispatch(t, st) == Ok(p)
    requires p.n == 2 && (p.command == 'M' || p.command == 'L') && p.code == Lookup(p.command).value.0
    requires p.idx + 2 <= |t| && t[p.idx] == Num(x) && t[p.idx + 1] == Num(y)
    ensures var start := if closeResets && p.command == 'M' then Point(x, y) else st.start;
      Step(t, st, closeResets) ==
      Ok(State(p.idx + 2, Some('L'), LINETO, 2, Point(x, y), start,
               Path(st.path.verts + [Point(x, y)], st.path.codes + [p.code])))
  {
    assert Group(t, p.idx, 2, Point(0.0, 0.0)) == [Point(x, y)];
    assert Repeat(p.code, 1) == [p.code];
  }

  /** The state after `M x0 y0 L x1 y1` (both variants agree so far). */
  lemma AfterLine(x0: real, y0: real, x1: real, y1: real, dx: real, dy: real, closeResets: bool)
    ensures var t := CloseThenRelativeMove(x0, y0, x1, y1, dx, dy);
      var o := Point(0.0, 0.0);
      var start := if closeResets then Point(x0, y0) else o;
      RunFrom(t, Init, closeResets) ==
      RunFrom(t, State(6, Some('L'), LINETO, 2, Point(x1, y1), start,
                       Path([Point(x0, y0), Point(x1, y1)], [MOVETO, LINETO])), closeResets)
  {
    var t := CloseThenRelativeMove(x0, y0, x1, y1, dx, dy);
    var o := Point(0.0, 0.0);
    var start := if closeResets then Point(x0, y0) else o;
    PairStep(t, Init, closeResets, Pending('M', MOVETO, 2, 1), x0, y0);
    assert [] + [Point(x0, y0)] == [Point(x0, y0)] && [] + [MOVETO] == [MOVETO];
    var s1 := State(3, Some('L'), LINETO, 2, Point(x0, y0), start, Path([Point(x0, y0)], [MOVETO]));
    PairStep(t, s1, closeResets, Pending('L', LINETO, 2, 4), x1, y1);
    assert [Point(x0, y0)] + [Point(x1, y1)] == [Point(x0, y0), Point(x1, y1)] && [MOVETO] + [LINETO] == [MOVETO, LINETO];
  }

  /** The output of `z m dx dy` from the current point `cur` and the subpath start `start`. */
  lemma CloseThenMove(t: seq<Token>, st: State, closeResets: bool, dx: real, dy: real)
    requires st.index == 6 && |t| == 10 && t[6] == Cmd('z') && t[7] == Cmd('m') && t[8] == Num(dx) && t[9] == Num(dy)
    requires |st.path.verts| == |st.path.codes| == 2
    ensures RunFrom(t, st, closeResets).Ok?
    ensures var back := if closeResets then st.start else st.cur;
      RunFrom(t, st, closeResets).value.verts == st.path.verts + [st.cur, Point(back.x + dx, back.y + dy)]
  {
    var back := if closeResets then st.start else st.cur;
    var s3 := State(7, Some('z'), CLOSE, 0, back, st.start, Path(st.path.verts + [st.cur], st.path.codes + [CLOSE]));
    assert Step(t, st, closeResets) == Ok(s3);
    var g := Group(t, 8, 2, back);
    assert g == [Point(dx + back.x, dy + back.y)];
    var s4 := Step(t, s3, closeResets).value;
    assert s4.index == 10 && s4.path.verts == s3.path.verts + g;
    assert RunFrom(t, s4, closeResets) == Ok(s4.path);
  }

  /**
   * As written, the relative moveto after `z` is taken from (x1, y1), the
   * last vertex, instead of the initial point (x0, y0) of the closed
   * subpath: for `M 0 0 L 10 0 z m 1 1` it lands at (11, 1), not (1, 1).
   */
  lemma CloseKeepsLastVertex(x0: real, y0: real, x1: real, y1: real, dx: real, dy: real)
    ensures Convert(CloseThenRelativeMove(x0, y0, x1, y1, dx, dy)).Ok?
    ensures |Convert(CloseThenRelativeMove(x0, y0, x1, y1, dx, dy)).value.verts| == 4
    ensures Convert(CloseThenRelativeMove(x0, y0, x1, y1, dx, dy)).value.verts[3] == Point(x1 + dx, y1 + dy)
  {
    var t := CloseThenRelativeMove(x0, y0, x1, y1, dx, dy);
    AfterLine(x0, y0, x1, y1, dx, dy, false);
    CloseThenMove(t, State(6, Some('L'), LINETO, 2, Point(x1, y1), Point(0.0, 0.0),
                           Path([Point(x0, y0), Point(x1, y1)], [MOVETO, LINETO])), false, dx, dy);
  }

  /** With close returning to the subpath start the same tokens give (x0 + dx, y0 + dy). */
  lemma CloseReturnsToSubpathStart(x0: real, y0: real, x1: real, y1: real, dx: real, dy: real)
    ensures ConvertSvg(CloseThenRelativeMove(x0, y0, x1, y1, dx, dy)).Ok?
    ensures |ConvertSvg(CloseThenRelativeMove(x0, y0, x1, y1, dx, dy)).value.verts| == 4
    ensures ConvertSvg(CloseThenRelativeMove(x0, y0, x1, y1, dx, dy)).value.verts[3] == Point(x0 + dx, y0 + dy)
  {
    var t := CloseThenRelativeMove(x0, y0, x1, y1, dx, dy);
    AfterLine(x0, y0, x1, y1, dx, dy, true);
    CloseThenMove(t, State(6, Some('L'), LINETO, 2, Point(x1, y1), Point(x0, y0),
                           Path([Point(x0, y0), Point(x1, y1)], [MOVETO, LINETO])), true, dx, dy);
  }

  /**
   * In the conforming variant a moveto letter records the first vertex of
   * its group as the subpath's initial point, which a later close returns to
   * (`CloseStep`).
   */
  lemma MovetoSetsStart(tokens: seq<Token>, st: State)
    requires st.index < |tokens| && (tokens[st.index] == Cmd('M') || tokens[st.index] == Cmd('m'))
    requires Step(tokens, st, true).Ok?
    ensures Step(tokens, st, true).value.start == Step(tokens, st, true).value.path.verts[|st.path.verts|]
  {
  }

  /** `convert` as a loop over the tokens, updating its variables in place. */
  method ConvertLoop(tokens: seq<Token>) returns (r: Result<Path, ConvertError>)
    ensures r == Convert(tokens)
  {
    var index := 0;
    var command: Option<char> := None;
    var code := 0;
    var n := 0;
    var cur := Point(0.0, 0.0);
    var verts: seq<Point> := [];
    var codes: seq<int> := [];
    while index < |tokens|
      invariant index <= |tokens|
      invariant Convert(tokens) == RunFrom(tokens, State(index, command, code, n, cur, Point(0.0, 0.0), Path(verts, codes)), false)
      decreases |tokens| - index
    {
      var next := Iteration(tokens, State(index, command, code, n, cur, Point(0.0, 0.0), Path(verts, codes)));
      if next.Err? {
        return Err(next.error);
      }
      index, command, code, n, cur := next.value.index, next.value.command, next.value.code, next.value.n, next.value.cur;
      verts, codes := next.value.path.verts, next.value.path.codes;
    }
    r := Ok(Path(verts, codes));
  }

  /** The body of the `convert` loop on the loop's variables, as written. */
  method Iteration(tokens: seq<Token>, st: State) returns (r: Result<State, ConvertError>)
    requires st.index < |tokens|
    ensures r == Step(tokens, st, false)
  {
    var index, command, code, n, cur := st.index, st.command, st.code, st.n, st.cur;
    var verts, codes := st.path.verts, st.path.codes;
    ghost var p: Pending;
    var start := index;
    var t := tokens[index];
    if t.Cmd? {
      var entry := Lookup(t.letter);
      if entry.None? {
        return Err(UnknownCommand(t.letter));
      }
      command := Some(t.letter);
      code, n := entry.value.0, entry.value.1;
      index := index + 1;
      p := Pending(t.letter, code, n, index);
    } else if command.None? {
      return Err(NoCommand);
    } else {
      p := Pending(command.value, code, n, index);
    }
    assert Dispatch(tokens, st) == Ok(p);
    if n > 0 {
      if !WellFormedGroup(tokens, index, n) || n % 2 != 0 {
        return Err(Malformed);
      }
      var offset := if IsLower(command.value) then cur else Point(0.0, 0.0);
      var g := Group(tokens, index, n, offset);
      cur := g[|g| - 1];
      codes := codes + Repeat(code, n / 2);
      verts := verts + g;
      index := index + n;
    } else {
      if index == start {
        return Err(Diverges);
      }
      codes := codes + [code];
      verts := verts + [cur];
    }
    if command == Some('m') {
      command, code := Some('l'), LINETO;
    } else if command == Some('M') {
      command, code := Some('L'), LINETO;
    }
    r := Ok(State(index, command, code, n, cur, st.start, Path(verts, codes)));
  }

  // ----------------------------------------------------------------------
  // tesselate
  // ----------------------------------------------------------------------

  /** `tesselate` fails only where a curve's control points cannot be unpacked. */
  datatype TesselateError = Unpack(index: nat)

  function Lines(count: nat): (s: seq<int>)
    ensures |s| == count && forall k :: 0 <= k < count ==> s[k] == LINETO
  {
    seq(count, _ => LINETO)
  }

  /** The output of one curve run: the sampled points but the first, all LINETO. */
  function CurveRun(samples: seq<Point>): (p: Path)
    ensures |p.verts| == |p.codes| && forall k :: 0 <= k < |p.codes| ==> p.codes[k] == LINETO
  {
    if samples == [] then Path([], []) else Path(samples[1..], Lines(|samples| - 1))
  }

  function Then(acc: Path, r: Result<Path, TesselateError>): Result<Path, TesselateError>
  {
    if r.Err? then r else Ok(Path(acc.verts + r.value.verts, acc.codes + r.value.codes))
  }

  lemma ThenAssoc(acc: Path, x: Path, r: Result<Path, TesselateError>)
    ensures Then(acc, Then(x, r)) == Then(Path(acc.verts + x.verts, acc.codes + x.codes), r)
  {
    if r.Ok? {
      assert acc.verts + (x.verts + r.value.verts) == (acc.verts + x.verts) + r.value.verts;
      assert acc.codes + (x.codes + r.value.codes) == (acc.codes + x.codes) + r.value.codes;
    }
  }

  lemma ThenEmpty(r: Result<Path, TesselateError>)
    ensures Then(Path([], []), r) == r
  {
    if r.Ok? {
      assert [] + r.value.verts == r.value.verts && [] + r.value.codes == r.value.codes;
    }
  }

  /**
   * The loop of `tesselate` from `index` on. A CURVE3 entry takes the
   * previous vertex and the next two and skips 2 entries; CURVE4 takes one
   * more and skips 3; CLOSE and unknown codes are dropped.
   */
  function TesselateFrom(verts: seq<Point>, codes: seq<int>, index: nat,
                         quadratic: (Point, Point, Point) -> seq<Point>,
                         cubic: (Point, Point, Point, Point) -> seq<Point>): (r: Result<Path, TesselateError>)
    requires |verts| == |codes|
    ensures r.Ok? ==> |r.value.verts| == |r.value.codes|
    ensures r.Ok? ==> forall k :: 0 <= k < |r.value.codes| ==> r.value.codes[k] in {MOVETO, LINETO}
    decreases |codes| - index
  {
    if index >= |codes| then Ok(Path([], []))
    else if codes[index] == MOVETO || codes[index] == LINETO then
      Then(Path([verts[index]], [codes[index]]), TesselateFrom(verts, codes, index + 1, quadratic, cubic))
    else if codes[index] == CURVE3 then
      if index < 1 || index + 2 > |codes| then Err(Unpack(index))
      else
        Then(CurveRun(quadratic(verts[index - 1], verts[index], verts[index + 1])),
             TesselateFrom(verts, codes, index + 2, quadratic, cubic))
    else if codes[index] == CURVE4 then
      if index < 1 || index + 3 > |codes| then Err(Unpack(index))
      else
        Then(CurveRun(cubic(verts[index - 1], verts[index], verts[index + 1], verts[index + 2])),
             TesselateFrom(verts, codes, index + 3, quadratic, cubic))
    else TesselateFrom(verts, codes, index + 1, quadratic, cubic)
  }

  function Tesselate(verts: seq<Point>, codes: seq<int>,
                     quadratic: (Point, Point, Point) -> seq<Point>,
                     cubic: (Point, Point, Point, Point) -> seq<Point>): (r: Result<Path, TesselateError>)
    requires |verts| == |codes|
    ensures r.Ok? ==> |r.value.verts| == |r.value.codes|
    ensures r.Ok? ==> forall k :: 0 <= k < |r.value.codes| ==> r.value.codes[k] in {MOVETO, LINETO}
  {
    TesselateFrom(verts, codes, 0, quadratic, cubic)
  }

  /** The MOVETO and LINETO entries from `index` on, in order. */
  function Straight(verts: seq<Point>, codes: seq<int>, index: nat): (p: Path)
    requires |verts| == |codes|
    decreases |codes| - index
  {
    if index >= |codes| then Path([], [])
    else
      var rest := Straight(verts, codes, index + 1);
      if codes[index] == MOVETO || codes[index] == LINETO
      then Path([verts[index]] + rest.verts, [codes[index]] + rest.codes)
      else rest
  }

  /**
   * Without curves `tesselate` keeps exactly the MOVETO and LINETO entries,
   * unchanged and in order, and drops CLOSE and unknown codes.
   */
  lemma {:induction false} NoCurvesKeepsStraight(verts: seq<Point>, codes: seq<int>, index: nat,
                                                 quadratic: (Point, Point, Point) -> seq<Point>,
                                                 cubic: (Point, Point, Point, Point) -> seq<Point>)
    requires |verts| == |codes|
    requires forall k :: index <= k < |codes| ==> codes[k] != CURVE3 && codes[k] != CURVE4
    ensures TesselateFrom(verts, codes, index, quadratic, cubic) == Ok(Straight(verts, codes, index))
    decreases |codes| - index
  {
    if index < |codes| {
      NoCurvesKeepsStraight(verts, codes, index + 1, quadratic, cubic);
    }
  }

  /** A curve entry first in the list has no previous vertex to start from. */
  lemma CurveAtStart(verts: seq<Point>, codes: seq<int>,
                     quadratic: (Point, Point, Point) -> seq<Point>,
                     cubic: (Point, Point, Point, Point) -> seq<Point>)
    requires |verts| == |codes| && |codes| > 0 && (codes[0] == CURVE3 || codes[0] == CURVE4)
    ensures Tesselate(verts, codes, quadratic, cubic) == Err(Unpack(0))
  {
  }

  /** A curve run contributes the sampled points after the first, as line segments. */
  lemma CurveStep(verts: seq<Point>, codes: seq<int>, index: nat,
                  quadratic: (Point, Point, Point) -> seq<Point>,
                  cubic: (Point, Point, Point, Point) -> seq<Point>)
    requires |verts| == |codes| && 1 <= index
    ensures index + 2 <= |codes| && codes[index] == CURVE3 ==>
      TesselateFrom(verts, codes, index, quadratic, cubic) ==
      Then(CurveRun(quadratic(verts[index - 1], verts[index], verts[index + 1])),
           TesselateFrom(verts, codes, index + 2, quadratic, cubic))
    ensures index + 3 <= |codes| && codes[index] == CURVE4 ==>
      TesselateFrom(verts, codes, index, quadratic, cubic) ==
      Then(CurveRun(cubic(verts[index - 1], verts[index], verts[index + 1], verts[index + 2])),
           TesselateFrom(verts, codes, index + 3, quadratic, cubic))
  {
  }

  /** `tesselate` as a loop advancing `index` by 1, 2 or 3 and extending the output lists. */
  method TesselateLoop(verts: seq<Point>, codes: seq<int>,
                       quadratic: (Point, Point, Point) -> seq<Point>,
                       cubic: (Point, Point, Point, Point) -> seq<Point>)
    returns (r: Result<Path, TesselateError>)
    requires |verts| == |codes|
    ensures r == Tesselate(verts, codes, quadratic, cubic)
  {
    var outVerts: seq<Point> := [];
    var outCodes: seq<int> := [];
    var index := 0;
    ThenEmpty(TesselateFrom(verts, codes, 0, quadratic, cubic));
    while index < |codes|
      invariant Tesselate(verts, codes, quadratic, cubic) ==
        Then(Path(outVerts, outCodes), TesselateFrom(verts, codes, index, quadratic, cubic))
      decreases |codes| - index
    {
      if codes[index] == MOVETO || codes[index] == LINETO {
        ThenAssoc(Path(outVerts, outCodes), Path([verts[index]], [codes[index]]),
                  TesselateFrom(verts, codes, index + 1, quadratic, cubic));
        outCodes := outCodes + [codes[index]];
        outVerts := outVerts + [verts[index]];
        index := index + 1;
      } else if codes[index] == CURVE3 {
        if index < 1 || index + 2 > |codes| {
          return Err(Unpack(index));
        }
        var run := CurveRun(quadratic(verts[index - 1], verts[index], verts[index + 1]));
        ThenAssoc(Path(outVerts, outCodes), run, TesselateFrom(verts, codes, index + 2, quadratic, cubic));
        outCodes := outCodes + run.codes;
        outVerts := outVerts + run.verts;
        index := index + 2;
      } else if codes[index] == CURVE4 {
        if index < 1 || index + 3 > |codes| {
          return Err(Unpack(index));
        }
        var run := CurveRun(cubic(verts[index - 1], verts[index], verts[index + 1], verts[index + 2]));
        ThenAssoc(Path(outVerts, outCodes), run, TesselateFrom(verts, codes, index + 3, quadratic, cubic));
        outCodes := outCodes + run.codes;
        outVerts := outVerts + run.verts;
        index := index + 3;
      } else {
        index := index + 1;
      }
    }
    assert Path(outVerts + [], outCodes + []) == Path(outVerts, outCodes);
    r := Ok(Path(outVerts, outCodes));
  }
}
