/** Rendering a profile, and the round trip through its text. */
module ProfileText {
  import opened Words
  import opened Ir
  import opened Text
  import opened Profile

  // ----- the lines of a profile -----

  function BlockLine(b: u64, count: u64): string {
    "block" + " " + Decimal(b) + " " + Decimal(count)
  }

  function EdgeLine(from: u64, to: u64, count: u64): string {
    "edge" + " " + Decimal(from) + " " + Decimal(to) + " " + Decimal(count)
  }

  function EdgeLines(b: u64, edges: map<u64, u64>, order: seq<u64>): seq<string>
    requires forall t :: t in order ==> t in edges
  {
    if order == [] then [] else [EdgeLine(b, order[0], edges[order[0]])] + EdgeLines(b, edges, order[1..])
  }

  ghost function BlockLines(b: u64, block: BlockProfile): seq<string> {
    [BlockLine(b, block.exec_count)] + EdgeLines(b, block.edge_counts, IdsOf(block.edge_counts.Keys))
  }

  ghost function BodyLines(blocks: map<u64, BlockProfile>, order: seq<u64>): seq<string>
    requires forall b :: b in order ==> b in blocks
  {
    if order == [] then [] else BlockLines(order[0], blocks[order[0]]) + BodyLines(blocks, order[1..])
  }

  ghost function FunctionLines(name: string, f: FunctionProfile): seq<string> {
    ["function" + " " + name] + BodyLines(f.blocks, IdsOf(f.blocks.Keys)) + ["end"]
  }

  ghost function AllLines(functions: Functions, order: seq<string>): seq<string>
    requires forall name :: name in order ==> name in functions
  {
    if order == [] then [] else FunctionLines(order[0], functions[order[0]]) + AllLines(functions, order[1..])
  }

  /** The text of a profile: functions, blocks and edges each in increasing order. */
  ghost function Rendered(functions: Functions): string {
    Joined(AllLines(functions, NamesOf(functions.Keys)))
  }

  // ----- reading one line back -----

  lemma ReadBlock(b: u64, count: u64, line: nat, st: ParseState)
    requires st.current.Some?
    ensures var f := st.current.value;
      ParseLine(BlockLine(b, count), line, st) == Ok(st.(current := Some(f.(blocks := WithBlock(f.blocks, b, count)))))
  {
    ThreeWords("block", Decimal(b), Decimal(count));
    PrintThenParse(b);
    PrintThenParse(count);
    hide SplitWords;
    hide WithBlock;
    hide Decimal;
    hide ParseU64;
  }

  lemma ReadEdge(from: u64, to: u64, count: u64, line: nat, st: ParseState)
    requires st.current.Some?
    ensures var f := st.current.value;
      ParseLine(EdgeLine(from, to, count), line, st)
        == Ok(st.(current := Some(f.(blocks := WithEdge(f.blocks, from, to, count)))))
  {
    FourWords("edge", Decimal(from), Decimal(to), Decimal(count));
    PrintThenParse(from);
    PrintThenParse(to);
    PrintThenParse(count);
    hide SplitWords;
    hide WithEdge;
    hide Decimal;
    hide ParseU64;
  }

  lemma ReadHeader(name: string, line: nat, st: ParseState)
    requires IsWord(name)
    ensures ParseLine("function" + " " + name, line, st)
      == Ok(ParseState(Finished(st), Some(FunctionProfile(name, map[]))))
  {
    TwoWords("function", name);
    hide SplitWords;
  }

  lemma ReadEnd(line: nat, st: ParseState)
    requires st.current.Some?
    ensures ParseLine("end", line, st) == Ok(ParseState(Finished(st), None))
  {
    OneWord("end");
    hide SplitWords;
  }

  // ----- reading a function back -----

  /** The blocks in `done` are as in `blocks`; another block may have appeared, as the target of an
      edge, and has no counts yet. */
  ghost predicate Read(sofar: map<u64, BlockProfile>, blocks: map<u64, BlockProfile>, done: set<u64>) {
    && done <= blocks.Keys && done <= sofar.Keys <= blocks.Keys
    && (forall b :: b in done ==> sofar[b] == blocks[b])
    && (forall b :: b in sofar.Keys - done ==> sofar[b] == NewBlock)
  }

  /** Block `b` is being read: of its edges, those to `targets` have been. */
  ghost predicate Reading(sofar: map<u64, BlockProfile>, blocks: map<u64, BlockProfile>, done: set<u64>, b: u64,
      targets: set<u64>)
  {
    && b in blocks && b !in done && b in sofar
    && Read(sofar[b := NewBlock], blocks, done)
    && sofar[b] == BlockProfile(blocks[b].exec_count, Restricted(blocks[b].edge_counts, targets))
  }

  ghost function Restricted(edges: map<u64, u64>, targets: set<u64>): map<u64, u64> {
    map t | t in edges && t in targets :: edges[t]
  }

  lemma BeginBlock(sofar: map<u64, BlockProfile>, blocks: map<u64, BlockProfile>, done: set<u64>, b: u64)
    requires Read(sofar, blocks, done) && b in blocks && b !in done
    ensures Reading(WithBlock(sofar, b, blocks[b].exec_count), blocks, done, b, {})
  {}

  lemma OneEdge(sofar: map<u64, BlockProfile>, blocks: map<u64, BlockProfile>, done: set<u64>, b: u64,
      targets: set<u64>, t: u64)
    requires Reading(sofar, blocks, done, b, targets) && t in blocks[b].edge_counts && t in blocks
    ensures Reading(WithEdge(sofar, b, t, blocks[b].edge_counts[t]), blocks, done, b, targets + {t})
  {
    var after := WithEdge(sofar, b, t, blocks[b].edge_counts[t]);
    assert Restricted(blocks[b].edge_counts, targets)[t := blocks[b].edge_counts[t]]
      == Restricted(blocks[b].edge_counts, targets + {t});
    var before := sofar[b := NewBlock];
    assert after[b := NewBlock] == if t in sofar then before else before[t := NewBlock];
    assert Read(after[b := NewBlock], blocks, done);
  }

  lemma EndBlock(sofar: map<u64, BlockProfile>, blocks: map<u64, BlockProfile>, done: set<u64>, b: u64,
      targets: set<u64>)
    requires Reading(sofar, blocks, done, b, targets) && blocks[b].edge_counts.Keys <= targets
    ensures Read(sofar, blocks, done + {b})
  {
    assert Restricted(blocks[b].edge_counts, targets) == blocks[b].edge_counts;
    forall c | c in done
      ensures sofar[c] == blocks[c]
    {
      assert sofar[b := NewBlock][c] == sofar[c];
    }
    forall c | c in sofar.Keys - done - {b}
      ensures sofar[c] == NewBlock
    {
      assert sofar[b := NewBlock][c] == sofar[c];
    }
  }

  /** Of the keys, those not in `done` are all in `order`. */
  ghost predicate Remaining<T(!new)>(keys: set<T>, done: set<T>, order: seq<T>) {
    && (forall x :: x in order ==> x in keys)
    && (forall x :: x in keys && x !in done ==> x in order)
    && (forall i: nat :: i < |order| ==> order[i] !in done)
    && (forall i: nat, j: nat :: i < j < |order| ==> order[i] != order[j])
  }

  lemma RemainingTail<T(!new)>(keys: set<T>, done: set<T>, order: seq<T>)
    requires Remaining(keys, done, order) && order != []
    ensures Remaining(keys, done + {order[0]}, order[1..]) && order[0] in keys && order[0] !in done
  {
    assert order == [order[0]] + order[1..];
    assert order[0] in order;
  }

  lemma {:induction false} EdgesReadBack(st: ParseState, blocks: map<u64, BlockProfile>, done: set<u64>, b: u64,
      targets: set<u64>, order: seq<u64>, line: nat)
      returns (end: ParseState)
    requires st.current.Some? && EdgesInside(blocks)
    requires b in blocks && Reading(st.current.value.blocks, blocks, done, b, targets)
    requires Remaining(blocks[b].edge_counts.Keys, targets, order)
    ensures ParseLines(EdgeLines(b, blocks[b].edge_counts, order), line, st) == Ok(end)
    ensures end.current.Some? && end == st.(current := Some(st.current.value.(blocks := end.current.value.blocks)))
    ensures Read(end.current.value.blocks, blocks, done + {b})
    decreases |order|
  {
    hide Reading;
    hide Read;
    hide WithEdge;
    hide ParseLine;
    var sofar := st.current.value.blocks;
    if order == [] {
      EndBlock(sofar, blocks, done, b, targets);
      end := st;
    } else {
      var t := order[0];
      RemainingTail(blocks[b].edge_counts.Keys, targets, order);
      ReadEdge(b, t, blocks[b].edge_counts[t], line, st);
      OneEdge(sofar, blocks, done, b, targets, t);
      var next := st.(current := Some(st.current.value.(blocks := WithEdge(sofar, b, t, blocks[b].edge_counts[t]))));
      end := EdgesReadBack(next, blocks, done, b, targets + {t}, order[1..], line + 1);
    }
  }

  lemma {:induction false} ParseAppend(a: seq<string>, b: seq<string>, line: nat, st: ParseState)
    ensures ParseLines(a + b, line, st) ==
      match ParseLines(a, line, st) case Err(e) => Err(e) case Ok(mid) => ParseLines(b, line + |a|, mid)
  {
    hide ParseLine;
    if a == [] {
      assert a + b == b;
    } else {
      assert (a + b)[1..] == a[1..] + b;
      match ParseLine(a[0], line, st)
      case Err(_) =>
      case Ok(next) => ParseAppend(a[1..], b, line + 1, next);
    }
  }

  lemma BlockReadBack(st: ParseState, blocks: map<u64, BlockProfile>, done: set<u64>, b: u64, line: nat)
      returns (end: ParseState)
    requires st.current.Some? && EdgesInside(blocks) && b in blocks && b !in done
    requires Read(st.current.value.blocks, blocks, done)
    ensures ParseLines(BlockLines(b, blocks[b]), line, st) == Ok(end)
    ensures end.current.Some? && end == st.(current := Some(st.current.value.(blocks := end.current.value.blocks)))
    ensures Read(end.current.value.blocks, blocks, done + {b})
  {
    hide Reading;
    hide Read;
    hide WithBlock;
    hide ParseLine;
    var f, block := st.current.value, blocks[b];
    ReadBlock(b, block.exec_count, line, st);
    BeginBlock(f.blocks, blocks, done, b);
    var next := st.(current := Some(f.(blocks := WithBlock(f.blocks, b, block.exec_count))));
    end := EdgesReadBack(next, blocks, done, b, {}, IdsOf(block.edge_counts.Keys), line + 1);
    hide EdgeLines;
    hide BlockLine;
    assert BlockLines(b, block)[1..] == EdgeLines(b, block.edge_counts, IdsOf(block.edge_counts.Keys));
  }

  lemma {:induction false} BodyReadBack(st: ParseState, blocks: map<u64, BlockProfile>, done: set<u64>, order: seq<u64>,
      line: nat) returns (end: ParseState)
    requires st.current.Some? && EdgesInside(blocks) && Remaining(blocks.Keys, done, order)
    requires Read(st.current.value.blocks, blocks, done)
    ensures ParseLines(BodyLines(blocks, order), line, st) == Ok(end)
    ensures end == st.(current := Some(st.current.value.(blocks := blocks)))
    decreases |order|
  {
    hide ParseLine;
    hide BlockLines;
    if order == [] {
      assert st.current.value.blocks == blocks;
      end := st;
    } else {
      hide Read;
      hide EdgesInside;
      RemainingTail(blocks.Keys, done, order);
      var lines := BlockLines(order[0], blocks[order[0]]);
      var mid := BlockReadBack(st, blocks, done, order[0], line);
      end := BodyReadBack(mid, blocks, done + {order[0]}, order[1..], line + |lines|);
      ParseAppend(lines, BodyLines(blocks, order[1..]), line, st);
    }
  }

  lemma FunctionReadBack(st: ParseState, name: string, f: FunctionProfile, line: nat) returns (end: ParseState)
    requires GoodFunction(f) && f.name == name
    ensures ParseLines(FunctionLines(name, f), line, st) == Ok(end)
    ensures end == ParseState(Finished(st)[name := f], None)
  {
    hide ParseLine;
    hide BodyLines;
    hide IsWord;
    var next := ParseState(Finished(st), Some(FunctionProfile(name, map[])));
    var order := IdsOf(f.blocks.Keys);
    var body := BodyLines(f.blocks, order);
    ReadHeader(name, line, st);
    var mid := BodyReadBack(next, f.blocks, {}, order, line + 1);
    end := ParseState(Finished(mid), None);
    ReadEnd(line + 1 + |body|, mid);
    OneLineRead("end", line + 1 + |body|, mid);
    Sandwich("function" + " " + name, body, "end", line, st, next, mid, end);
  }

  lemma OneLineRead(text: string, line: nat, st: ParseState)
    ensures ParseLines([text], line, st) == ParseLine(text, line, st)
  {
    hide ParseLine;
  }

  lemma Sandwich(head: string, body: seq<string>, tail: string, line: nat, st: ParseState, next: ParseState,
      mid: ParseState, end: ParseState)
    requires ParseLine(head, line, st) == Ok(next) && ParseLines(body, line + 1, next) == Ok(mid)
    requires ParseLines([tail], line + 1 + |body|, mid) == Ok(end)
    ensures ParseLines([head] + body + [tail], line, st) == Ok(end)
  {
    hide ParseLine;
    ParseAppend(body, [tail], line + 1, next);
    assert ([head] + body + [tail])[1..] == body + [tail];
  }

  lemma {:induction false} AllReadBack(st: ParseState, functions: Functions, done: set<string>, order: seq<string>,
      line: nat)
    requires GoodFunctions(functions) && Remaining(functions.Keys, done, order)
    requires st.current.None? && st.functions.Keys == done && st.functions == functions - (functions.Keys - done)
    ensures ParseLines(AllLines(functions, order), line, st) == Ok(ParseState(functions, None))
    decreases |order|
  {
    hide ParseLine;
    hide FunctionLines;
    if order == [] {
      assert functions.Keys - done == {};
      assert st.functions == functions;
    } else {
      hide GoodFunction;
      RemainingTail(functions.Keys, done, order);
      var name := order[0];
      var lines := FunctionLines(name, functions[name]);
      var mid := FunctionReadBack(st, name, functions[name], line);
      AllReadBack(mid, functions, done + {name}, order[1..], line + |lines|);
      ParseAppend(lines, AllLines(functions, order[1..]), line, st);
    }
  }

  // ----- no line breaks inside lines -----

  lemma WordsOneLine(a: string, b: string)
    requires OneLine(a) && OneLine(b)
    ensures OneLine(a + " " + b)
  {}

  lemma WordIsOneLine(w: string)
    requires IsWord(w)
    ensures OneLine(w)
  {
    assert IsSpace('\n');
    hide IsSpace;
  }

  lemma {:induction false} EdgeLinesOneLine(b: u64, edges: map<u64, u64>, order: seq<u64>)
    requires forall t :: t in order ==> t in edges
    ensures AllOneLine(EdgeLines(b, edges, order))
  {
    if order != [] {
      var t := order[0];
      WordsOneLine("edge", Decimal(b));
      WordsOneLine("edge" + " " + Decimal(b), Decimal(t));
      WordsOneLine("edge" + " " + Decimal(b) + " " + Decimal(t), Decimal(edges[t]));
      hide OneLine;
      EdgeLinesOneLine(b, edges, order[1..]);
    }
  }

  lemma {:induction false} BodyOneLine(blocks: map<u64, BlockProfile>, order: seq<u64>)
    requires forall b :: b in order ==> b in blocks
    ensures AllOneLine(BodyLines(blocks, order))
  {
    if order != [] {
      var b := order[0];
      var block := blocks[b];
      WordsOneLine("block", Decimal(b));
      WordsOneLine("block" + " " + Decimal(b), Decimal(block.exec_count));
      hide OneLine;
      EdgeLinesOneLine(b, block.edge_counts, IdsOf(block.edge_counts.Keys));
      BodyOneLine(blocks, order[1..]);
    }
  }

  lemma {:induction false} AllLinesOneLine(functions: Functions, order: seq<string>)
    requires GoodFunctions(functions) && forall name :: name in order ==> name in functions
    ensures AllOneLine(AllLines(functions, order))
  {
    hide OneLine;
    hide IsWord;
    hide FunctionLines;
    hide EdgesInside;
    if order != [] {
      assert order[0] in order;
      FunctionOneLine(order[0], functions[order[0]]);
      AllLinesOneLine(functions, order[1..]);
    }
  }

  lemma FunctionOneLine(name: string, f: FunctionProfile)
    requires IsWord(name)
    ensures AllOneLine(FunctionLines(name, f))
  {
    WordIsOneLine(name);
    WordsOneLine("function", name);
    assert OneLine("end");
    hide OneLine;
    BodyOneLine(f.blocks, IdsOf(f.blocks.Keys));
  }

  // ----- the round trip -----

  /** Rendering and parsing gives the profile back exactly when its names are words and every edge leads
      to a block; what `parse` returns is always such a profile. */
  lemma RoundTrip(functions: Functions)
    ensures ParsedText(Rendered(functions)) == Ok(functions) <==> GoodFunctions(functions)
  {
    if GoodFunctions(functions) {
      var order := NamesOf(functions.Keys);
      AllLinesOneLine(functions, order);
      JoinThenSplit(AllLines(functions, order));
      AllReadBack(Nothing, functions, {}, order, 1);
    }
    ParsedIsGood(Rendered(functions));
  }

  lemma ParsedIsGood(text: string)
    ensures ParsedText(text).Ok? ==> GoodFunctions(ParsedText(text).value)
  {
    LinesKeepGood(SplitLines(text), 1, Nothing);
  }

  lemma {:induction false} LinesKeepGood(lines: seq<string>, line: nat, st: ParseState)
    requires GoodState(st)
    ensures var r := ParseLines(lines, line, st); r.Ok? ==> GoodFunctions(Finished(r.value))
  {
    LineKeepsGood(if lines == [] then "" else lines[0], line, st);
    hide GoodState;
    hide GoodFunctions;
    if lines != [] && ParseLine(lines[0], line, st).Ok? {
      LinesKeepGood(lines[1..], line + 1, ParseLine(lines[0], line, st).value);
    }
  }

  /** For every accepted text, parsing the rendered profile gives the same profile. */
  lemma TextRoundTrip(text: string)
    requires ParsedText(text).Ok?
    ensures ParsedText(Rendered(ParsedText(text).value)) == ParsedText(text)
  {
    ParsedIsGood(text);
    RoundTrip(ParsedText(text).value);
  }
}
