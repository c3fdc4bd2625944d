/** Execution profiles and their text format: `CompileProfile`. */
module Profile {
  import opened Words
  import opened Ir
  import opened Text

  datatype BlockProfile = BlockProfile(exec_count: u64, edge_counts: map<u64, u64>)

  datatype FunctionProfile = FunctionProfile(name: string, blocks: map<u64, BlockProfile>) {
    /** `block_exec_count(..).unwrap_or(0)` */
    function ExecCount(b: nat): u64 {
      if b in blocks then blocks[b].exec_count else 0
    }

    /** `edge_count(..).unwrap_or(0)` */
    function EdgeCount(b: nat, c: nat): u64 {
      if b in blocks && c in blocks[b].edge_counts then blocks[b].edge_counts[c] else 0
    }
  }

  type Functions = map<string, FunctionProfile>

  datatype ProfileError =
    | OutsideFunction(line: nat)
    | InvalidNumber(line: nat, field: string)
    | Unsupported(line: nat)

  datatype Result<+T, +E> = Ok(value: T) | Err(error: E)

  // ----- what a parsed profile is like -----

  /** Every edge leads to a block of the function. */
  ghost predicate EdgesInside(blocks: map<u64, BlockProfile>) {
    forall b: u64, t: u64 :: b in blocks && t in blocks[b].edge_counts ==> t in blocks
  }

  ghost predicate GoodFunction(f: FunctionProfile) {
    IsWord(f.name) && EdgesInside(f.blocks)
  }

  ghost predicate GoodFunctions(functions: Functions) {
    forall name :: name in functions ==> functions[name].name == name && GoodFunction(functions[name])
  }

  // ----- parsing -----

  datatype ParseState = ParseState(functions: Functions, current: Option<FunctionProfile>)

  function Finished(st: ParseState): Functions {
    match st.current
    case Some(f) => st.functions[f.name := f]
    case None => st.functions
  }

  const NewBlock := BlockProfile(0, map[])

  function OrNew(blocks: map<u64, BlockProfile>, b: u64): BlockProfile {
    if b in blocks then blocks[b] else NewBlock
  }

  function WithBlock(blocks: map<u64, BlockProfile>, b: u64, count: u64): map<u64, BlockProfile> {
    blocks[b := OrNew(blocks, b).(exec_count := count)]
  }

  function WithEdge(blocks: map<u64, BlockProfile>, from: u64, to: u64, count: u64): map<u64, BlockProfile> {
    var block := OrNew(blocks, from);
    var more := blocks[from := block.(edge_counts := block.edge_counts[to := count])];
    more[to := OrNew(more, to)]
  }

  function Parsed(field: string, value: string, line: nat): Result<u64, ProfileError> {
    match ParseU64(value)
    case Some(n) => Ok(n)
    case None => Err(InvalidNumber(line, field))
  }

  function ParseBlock(ws: seq<string>, line: nat, f: FunctionProfile): Result<FunctionProfile, ProfileError>
    requires |ws| == 3
  {
    match Parsed("block id", ws[1], line)
    case Err(e) => Err(e)
    case Ok(b) =>
      match Parsed("exec count", ws[2], line)
      case Err(e) => Err(e)
      case Ok(count) => Ok(f.(blocks := WithBlock(f.blocks, b, count)))
  }

  function ParseEdge(ws: seq<string>, line: nat, f: FunctionProfile): Result<FunctionProfile, ProfileError>
    requires |ws| == 4
  {
    match Parsed("edge source", ws[1], line)
    case Err(e) => Err(e)
    case Ok(from) =>
      match Parsed("edge target", ws[2], line)
      case Err(e) => Err(e)
      case Ok(to) =>
        match Parsed("edge count", ws[3], line)
        case Err(e) => Err(e)
        case Ok(count) => Ok(f.(blocks := WithEdge(f.blocks, from, to, count)))
  }

  /** A record that belongs to the current function. */
  function Inside(st: ParseState, line: nat, ws: seq<string>): Result<ParseState, ProfileError>
    requires |ws| == 3 || |ws| == 4
  {
    match st.current
    case None => Err(OutsideFunction(line))
    case Some(f) =>
      match if |ws| == 3 then ParseBlock(ws, line, f) else ParseEdge(ws, line, f)
      case Err(e) => Err(e)
      case Ok(g) => Ok(st.(current := Some(g)))
  }

  function ParseRecord(ws: seq<string>, line: nat, st: ParseState): Result<ParseState, ProfileError>
    requires ws != []
  {
    if |ws| == 2 && ws[0] == "function" then
      Ok(ParseState(Finished(st), Some(FunctionProfile(ws[1], map[]))))
    else if (|ws| == 3 && ws[0] == "block") || (|ws| == 4 && ws[0] == "edge") then
      Inside(st, line, ws)
    else if |ws| == 1 && ws[0] == "end" then
      if st.current.None? then Err(OutsideFunction(line)) else Ok(ParseState(Finished(st), None))
    else Err(Unsupported(line))
  }

  /** One line: blank lines and comments are skipped. */
  function ParseLine(raw: string, line: nat, st: ParseState): Result<ParseState, ProfileError> {
    var ws := SplitWords(raw);
    if ws == [] then Ok(st)
    else
      assert ws[0] in ws;
      if ws[0][0] == '#' then Ok(st) else ParseRecord(ws, line, st)
  }

  function ParseLines(lines: seq<string>, line: nat, st: ParseState): Result<ParseState, ProfileError> {
    if lines == [] then Ok(st)
    else
      match ParseLine(lines[0], line, st)
      case Err(e) => Err(e)
      case Ok(next) => ParseLines(lines[1..], line + 1, next)
  }

  const Nothing := ParseState(map[], None)

  function ParsedText(text: string): Result<Functions, ProfileError> {
    match ParseLines(SplitLines(text), 1, Nothing)
    case Err(e) => Err(e)
    case Ok(st) => Ok(Finished(st))
  }

  /** `CompileProfile::parse`: line by line, with the first error reported. */
  method Parse(text: string) returns (r: Result<Functions, ProfileError>)
    ensures r == ParsedText(text)
    ensures r.Ok? ==> GoodFunctions(r.value)
  {
    var lines := SplitLines(text);
    var st := Nothing;
    for line_no := 0 to |lines|
      invariant ParseLines(lines[line_no..], line_no + 1, st) == ParseLines(lines, 1, Nothing)
      invariant GoodState(st)
    {
      LineKeepsGood(lines[line_no], line_no + 1, st);
      assert lines[line_no..][1..] == lines[line_no + 1..];
      match ParseLine(lines[line_no], line_no + 1, st) {
        case Err(e) => return Err(e);
        case Ok(next) => st := next;
      }
    }
    return Ok(Finished(st));
  }

  ghost predicate GoodState(st: ParseState) {
    GoodFunctions(st.functions) && (st.current.Some? ==> GoodFunction(st.current.value))
  }

  lemma EdgeKeepsInside(blocks: map<u64, BlockProfile>, from: u64, to: u64, count: u64)
    requires EdgesInside(blocks)
    ensures EdgesInside(WithEdge(blocks, from, to, count)) && EdgesInside(WithBlock(blocks, from, count))
  {}

  lemma InsideKeepsGood(ws: seq<string>, line: nat, st: ParseState)
    requires |ws| == 3 || |ws| == 4
    requires GoodState(st)
    ensures var r := Inside(st, line, ws); r.Ok? ==> GoodState(r.value)
  {
    hide GoodFunction;
    hide GoodFunctions;
    hide ParseBlock;
    hide ParseEdge;
    if st.current.Some? {
      RecordKeepsGood(ws, line, st.current.value);
    }
  }

  lemma RecordKeepsGood(ws: seq<string>, line: nat, f: FunctionProfile)
    requires GoodFunction(f)
    ensures |ws| == 3 ==> var r := ParseBlock(ws, line, f); r.Ok? ==> GoodFunction(r.value)
    ensures |ws| == 4 ==> var r := ParseEdge(ws, line, f); r.Ok? ==> GoodFunction(r.value)
  {
    hide IsWord;
    hide EdgesInside;
    hide WithEdge;
    hide WithBlock;
    if |ws| == 3 && ParseBlock(ws, line, f).Ok? {
      EdgeKeepsInside(f.blocks, ParseU64(ws[1]).value, 0, ParseU64(ws[2]).value);
    }
    if |ws| == 4 && ParseEdge(ws, line, f).Ok? {
      EdgeKeepsInside(f.blocks, ParseU64(ws[1]).value, ParseU64(ws[2]).value, ParseU64(ws[3]).value);
    }
  }

  lemma LineKeepsGood(raw: string, line: nat, st: ParseState)
    requires GoodState(st)
    ensures var r := ParseLine(raw, line, st); r.Ok? ==> GoodState(r.value)
    ensures GoodFunctions(Finished(st))
  {
    var ws := SplitWords(raw);
    assert forall i: nat :: i < |ws| ==> ws[i] in ws;
    hide SplitWords;
    hide IsWord;
    hide Inside;
    if |ws| == 3 || |ws| == 4 {
      InsideKeepsGood(ws, line, st);
    }
  }

  // ----- sorted vectors of keys -----

  /** The elements of a set, each once, in increasing order. */
  ghost predicate SortedIds(r: seq<u64>, s: set<u64>) {
    && (forall x :: x in r <==> x in s)
    && (forall i: nat, j: nat :: i < j < |r| ==> r[i] < r[j])
  }

  predicate FirstOf(x: u64, s: set<u64>) {
    x in s && forall y :: y in s ==> x <= y
  }

  lemma {:induction false} LeastId(s: set<u64>) returns (x: u64)
    requires s != {}
    ensures FirstOf(x, s)
  {
    var first :| first in s;
    var rest := s - {first};
    x := first;
    if rest != {} {
      var y := LeastId(rest);
      x := if y < first then y else first;
    }
    assert forall y :: y in s ==> y == first || y in rest;
  }

  method SortIds(s: set<u64>) returns (r: seq<u64>)
    ensures r == IdsOf(s)
  {
    r := [];
    var rest := s;
    while rest != {}
      invariant forall x :: x in s <==> x in r || x in rest
      invariant forall i: nat, j: nat :: i < j < |r| ==> r[i] < r[j]
      invariant forall i: nat, y :: i < |r| && y in rest ==> r[i] < y
      decreases |rest|
    {
      ghost var least := LeastId(rest);
      var x: u64 :| x in rest && forall y :: y in rest ==> x <= y;
      r := r + [x];
      rest := rest - {x};
    }
    SortedIdsUnique(r, IdsOf(s), s);
  }

  lemma LeastIdExists(s: set<u64>)
    requires s != {}
    ensures exists x :: FirstOf(x, s)
  {
    var x := LeastId(s);
  }

  /** The one sorted vector of a set. */
  ghost function IdsOf(s: set<u64>): (r: seq<u64>)
    ensures SortedIds(r, s)
  {
    if s == {} then []
    else
      LeastIdExists(s);
      var x: u64 :| FirstOf(x, s);
      var rest := IdsOf(s - {x});
      IdsCons(x, rest, s);
      [x] + rest
  }

  lemma IdsCons(x: u64, rest: seq<u64>, s: set<u64>)
    requires FirstOf(x, s) && SortedIds(rest, s - {x})
    ensures SortedIds([x] + rest, s)
  {
    assert forall i: nat :: i < |rest| ==> rest[i] in rest;
  }

  /** The order of strings by their characters. */
  predicate NotAfter(a: string, b: string) {
    a == "" || (b != "" && (a[0] < b[0] || (a[0] == b[0] && NotAfter(a[1..], b[1..]))))
  }

  lemma {:induction false} NotAfterTotal(a: string, b: string)
    ensures NotAfter(a, b) || NotAfter(b, a)
    ensures NotAfter(a, b) && NotAfter(b, a) ==> a == b
  {
    if a != "" && b != "" {
      NotAfterTotal(a[1..], b[1..]);
      assert a == [a[0]] + a[1..] && b == [b[0]] + b[1..];
    }
  }

  lemma {:induction false} NotAfterTransitive(a: string, b: string, c: string)
    requires NotAfter(a, b) && NotAfter(b, c)
    ensures NotAfter(a, c)
  {
    if a != "" && a[0] == b[0] == c[0] {
      NotAfterTransitive(a[1..], b[1..], c[1..]);
    }
  }

  lemma {:induction false} LeastName(s: set<string>) returns (x: string)
    requires s != {}
    ensures x in s && forall y :: y in s ==> NotAfter(x, y)
  {
    hide NotAfter;
    var first :| first in s;
    NotAfterTotal(first, first);
    var rest := s - {first};
    x := first;
    if rest != {} {
      var y := LeastName(rest);
      NotAfterTotal(first, y);
      if NotAfter(first, y) {
        forall z | z in rest
          ensures NotAfter(first, z)
        {
          NotAfterTransitive(first, y, z);
        }
      } else {
        x := y;
      }
    }
    assert forall y :: y in s ==> y == first || y in rest;
  }

  ghost predicate SortedNames(r: seq<string>, s: set<string>) {
    && (forall x :: x in r <==> x in s)
    && (forall i: nat, j: nat :: i < j < |r| ==> NotAfter(r[i], r[j]) && r[i] != r[j])
  }

  lemma LeastNameExists(s: set<string>)
    requires s != {}
    ensures exists x :: x in s && forall y :: y in s ==> NotAfter(x, y)
  {
    var x := LeastName(s);
  }

  ghost function NamesOf(s: set<string>): (r: seq<string>)
    ensures SortedNames(r, s)
  {
    if s == {} then []
    else
      LeastNameExists(s);
      var x :| x in s && forall y :: y in s ==> NotAfter(x, y);
      var rest := NamesOf(s - {x});
      NamesCons(x, rest, s);
      [x] + rest
  }

  lemma NamesCons(x: string, rest: seq<string>, s: set<string>)
    requires x in s && (forall y :: y in s ==> NotAfter(x, y)) && SortedNames(rest, s - {x})
    ensures SortedNames([x] + rest, s)
  {
    hide NotAfter;
    assert forall i: nat :: i < |rest| ==> rest[i] in rest;
  }

  method SortNames(s: set<string>) returns (r: seq<string>)
    ensures r == NamesOf(s)
  {
    hide NotAfter;
    r := [];
    var rest := s;
    while rest != {}
      invariant forall x :: x in s <==> x in r || x in rest
      invariant forall i: nat, j: nat :: i < j < |r| ==> NotAfter(r[i], r[j]) && r[i] != r[j]
      invariant forall i: nat, y :: i < |r| && y in rest ==> NotAfter(r[i], y) && r[i] != y
      decreases |rest|
    {
      ghost var least := LeastName(rest);
      var x: string :| x in rest && forall y :: y in rest ==> NotAfter(x, y);
      r := r + [x];
      rest := rest - {x};
    }
    SortedNamesUnique(r, NamesOf(s), s);
  }

  /** There is only one sorted vector of a set, so rendering does not depend on the order of the maps. */
  lemma {:induction false} SortedIdsUnique(a: seq<u64>, b: seq<u64>, s: set<u64>)
    requires SortedIds(a, s) && SortedIds(b, s)
    ensures a == b
  {
    if a != [] || b != [] {
      assert a != [] ==> a[0] in b;
      assert b != [] ==> b[0] in a;
      IdsTail(a, s);
      IdsTail(b, s);
      SortedIdsUnique(a[1..], b[1..], s - {a[0]});
    }
  }

  lemma IdsTail(a: seq<u64>, s: set<u64>)
    requires SortedIds(a, s) && a != []
    ensures SortedIds(a[1..], s - {a[0]})
    ensures forall x :: x in a ==> a[0] <= x
  {
    assert a == [a[0]] + a[1..];
  }

  lemma {:induction false} SortedNamesUnique(a: seq<string>, b: seq<string>, s: set<string>)
    requires SortedNames(a, s) && SortedNames(b, s)
    ensures a == b
  {
    hide NotAfter;
    if a != [] || b != [] {
      assert a != [] ==> a[0] in b;
      assert b != [] ==> b[0] in a;
      NamesTail(a, s);
      NamesTail(b, s);
      NotAfterTotal(a[0], b[0]);
      SortedNamesUnique(a[1..], b[1..], s - {a[0]});
    }
  }

  lemma NamesTail(a: seq<string>, s: set<string>)
    requires SortedNames(a, s) && a != []
    ensures SortedNames(a[1..], s - {a[0]})
    ensures forall x :: x in a ==> NotAfter(a[0], x)
  {
    NotAfterTotal(a[0], a[0]);
    hide NotAfter;
    assert a == [a[0]] + a[1..];
  }
}
