/** `CompileProfile` itself: rendering it, and merging the counters of an instrumented run into it. */
module ProfileStore {
  import opened Words
  import opened Ir
  import opened Text
  import opened Profile
  import opened ProfileText

  type u8 = x: int | 0 <= x < 256

  // ----- the raw record -----

  const MAGIC: seq<u8> := [0x41, 0x5A, 0x4B, 0x50, 0x47, 0x4F, 0x31, 0x00]

  function LittleEndian(bytes: seq<u8>): (n: nat)
    ensures n < Pow2(8 * |bytes|)
  {
    if bytes == [] then 0
    else
      EightMore(8 * (|bytes| - 1));
      bytes[0] + 256 * LittleEndian(bytes[1..])
  }

  lemma EightMore(n: nat)
    ensures Pow2(n + 8) == 256 * Pow2(n)
  {
    Pow2Add(8, n);
    assert Pow2(8) == 256;
  }

  function U64At(raw: seq<u8>, start: nat): u64
    requires start + 8 <= |raw|
  {
    Pow2Word();
    LittleEndian(raw[start..start + 8])
  }

  function Bytes(n: nat, count: nat): (r: seq<u8>)
    ensures |r| == count
  {
    if count == 0 then [] else [n % 256] + Bytes(n / 256, count - 1)
  }

  lemma {:induction false} BytesThenNumber(n: nat, count: nat)
    requires n < Pow2(8 * count)
    ensures LittleEndian(Bytes(n, count)) == n
  {
    if count > 0 {
      EightMore(8 * (count - 1));
      BytesThenNumber(n / 256, count - 1);
    }
  }

  // ----- merging -----

  datatype MergeError = NoFunction | SizeOverflow | LengthMismatch | InvalidHeader | BlockCountMismatch

  /** The first check that fails, if any. */
  function MergeProblem(functions: Functions, name: string, raw: seq<u8>): Option<MergeError> {
    if name !in functions then Some(NoFunction)
    else
      var n := |functions[name].blocks|;
      if 16 + Saturated(8 * n) > MaxU64 then Some(SizeOverflow)
      else if |raw| != 16 + Saturated(8 * n) then Some(LengthMismatch)
      else if raw[..8] != MAGIC then Some(InvalidHeader)
      else if U64At(raw, 8) != n then Some(BlockCountMismatch)
      else None
  }

  const MaxU64: nat := 0xFFFF_FFFF_FFFF_FFFF

  function Saturated(n: nat): nat {
    if n > MaxU64 then MaxU64 else n
  }

  function Min(a: u64, b: u64): u64 {
    if a < b then a else b
  }

  function CountOf(blocks: map<u64, BlockProfile>, b: u64): u64 {
    if b in blocks then blocks[b].exec_count else 0
  }

  /** The same blocks and edges; counts come from the record, and each edge gets the smaller of the
      counts of its ends. */
  ghost predicate MergedInto(f: FunctionProfile, after: FunctionProfile, raw: seq<u8>) {
    && |raw| == 16 + 8 * |f.blocks| && |IdsOf(f.blocks.Keys)| == |f.blocks|
    && after.name == f.name && after.blocks.Keys == f.blocks.Keys
    && Counted(after.blocks, IdsOf(f.blocks.Keys), raw, |f.blocks|)
    && (forall b :: b in f.blocks ==> EdgesMerged(f.blocks[b].edge_counts, after.blocks, b))
  }

  /** The counters of the first `n` blocks are in place. */
  ghost predicate Counted(blocks: map<u64, BlockProfile>, ids: seq<u64>, raw: seq<u8>, n: nat) {
    && n <= |ids| && |raw| >= 16 + 8 * |ids|
    && forall i: nat :: i < n ==> ids[i] in blocks && blocks[ids[i]].exec_count == U64At(raw, 16 + 8 * i)
  }

  ghost predicate EdgesMerged(edges: map<u64, u64>, after: map<u64, BlockProfile>, b: u64) {
    && b in after && after[b].edge_counts.Keys == edges.Keys
    && forall t :: t in edges ==> after[b].edge_counts[t] == Min(CountOf(after, b), CountOf(after, t))
  }

  // ----- rendering piece by piece -----

  /** What has been written and what is left make up the whole text. */
  ghost predicate Leaves(out: string, rest: string, whole: string) {
    out + rest == whole
  }

  lemma Emitted(out: string, piece: string, rest: string, whole: string)
    requires Leaves(out, piece + rest, whole)
    ensures Leaves(out + piece, rest, whole)
  {
    assert (out + piece) + rest == out + (piece + rest);
  }

  lemma LineFirst(line: string, rest: seq<string>)
    ensures Joined([line] + rest) == (line + "\n") + Joined(rest)
  {
    assert ([line] + rest)[1..] == rest;
  }

  lemma EdgeFirst(b: u64, edges: map<u64, u64>, order: seq<u64>, i: nat)
    requires (forall t :: t in order ==> t in edges) && i < |order|
    ensures Joined(EdgeLines(b, edges, order[i..]))
      == (EdgeLine(b, order[i], edges[order[i]]) + "\n") + Joined(EdgeLines(b, edges, order[i + 1..]))
  {
    hide Joined;
    hide EdgeLine;
    assert order[i..][1..] == order[i + 1..];
    LineFirst(EdgeLine(b, order[i], edges[order[i]]), EdgeLines(b, edges, order[i + 1..]));
  }

  lemma NoEdges(b: u64, edges: map<u64, u64>, order: seq<u64>)
    requires order == []
    ensures Joined(EdgeLines(b, edges, order)) == ""
  {}

  lemma HeaderFirst(name: string, f: FunctionProfile, order: seq<u64>)
    requires order == IdsOf(f.blocks.Keys)
    ensures Joined(FunctionLines(name, f))
      == ("function" + " " + name + "\n") + Joined(BodyLines(f.blocks, order) + ["end"])
  {
    hide Joined;
    hide BodyLines;
    var head := "function" + " " + name;
    assert FunctionLines(name, f) == [head] + (BodyLines(f.blocks, order) + ["end"]);
    LineFirst(head, BodyLines(f.blocks, order) + ["end"]);
  }

  lemma BlockFirst(blocks: map<u64, BlockProfile>, order: seq<u64>, i: nat)
    requires (forall b :: b in order ==> b in blocks) && i < |order|
    ensures Joined(BodyLines(blocks, order[i..]) + ["end"])
      == Joined(BlockLines(order[i], blocks[order[i]])) + Joined(BodyLines(blocks, order[i + 1..]) + ["end"])
  {
    hide Joined;
    hide BlockLines;
    assert order[i..][1..] == order[i + 1..];
    var first, rest := BlockLines(order[i], blocks[order[i]]), BodyLines(blocks, order[i + 1..]);
    assert BodyLines(blocks, order[i..]) + ["end"] == first + (rest + ["end"]);
    JoinedAppend(first, rest + ["end"]);
  }

  lemma OnlyEnd(blocks: map<u64, BlockProfile>, order: seq<u64>)
    requires order == []
    ensures Joined(BodyLines(blocks, order) + ["end"]) == "end\n"
  {
    LineFirst("end", []);
    assert BodyLines(blocks, order) + ["end"] == ["end"] + [];
  }

  lemma FunctionFirst(functions: Functions, order: seq<string>, i: nat)
    requires (forall name :: name in order ==> name in functions) && i < |order|
    ensures Joined(AllLines(functions, order[i..]))
      == Joined(FunctionLines(order[i], functions[order[i]])) + Joined(AllLines(functions, order[i + 1..]))
  {
    hide Joined;
    hide FunctionLines;
    assert order[i..][1..] == order[i + 1..];
    JoinedAppend(FunctionLines(order[i], functions[order[i]]), AllLines(functions, order[i + 1..]));
  }

  lemma NothingLeft(functions: Functions, order: seq<string>)
    requires order == []
    ensures Joined(AllLines(functions, order)) == ""
  {}

  // ----- the class -----

  class CompileProfile {
    var functions: Functions

    constructor (functions: Functions)
      ensures this.functions == functions
    {
      this.functions := functions;
    }

    /** `render` */
    method Render() returns (out: string)
      ensures out == Rendered(functions)
    {
      hide AllLines;
      hide FunctionLines;
      hide Joined;
      var names := SortNames(functions.Keys);
      out := "";
      ghost var whole := Joined(AllLines(functions, names));
      assert names[0..] == names;
      for i := 0 to |names|
        invariant Leaves(out, Joined(AllLines(functions, names[i..])), whole)
      {
        var name := names[i];
        var body := RenderFunction(name, functions[name]);
        FunctionFirst(functions, names, i);
        Emitted(out, body, Joined(AllLines(functions, names[i + 1..])), whole);
        out := out + body;
      }
      NothingLeft(functions, names[|names|..]);
    }

    method RenderFunction(name: string, f: FunctionProfile) returns (out: string)
      ensures out == Joined(FunctionLines(name, f))
    {
      hide BodyLines;
      hide BlockLines;
      hide Joined;
      var block_ids := SortIds(f.blocks.Keys);
      out := "function" + " " + name + "\n";
      ghost var whole := Joined(FunctionLines(name, f));
      HeaderFirst(name, f, block_ids);
      assert block_ids[0..] == block_ids;
      for i := 0 to |block_ids|
        invariant Leaves(out, Joined(BodyLines(f.blocks, block_ids[i..]) + ["end"]), whole)
      {
        var b := block_ids[i];
        var body := RenderBlock(b, f.blocks[b]);
        BlockFirst(f.blocks, block_ids, i);
        Emitted(out, body, Joined(BodyLines(f.blocks, block_ids[i + 1..]) + ["end"]), whole);
        out := out + body;
      }
      OnlyEnd(f.blocks, block_ids[|block_ids|..]);
      out := out + "end\n";
    }

    method RenderBlock(b: u64, block: BlockProfile) returns (out: string)
      ensures out == Joined(BlockLines(b, block))
    {
      hide EdgeLines;
      hide EdgeLine;
      hide BlockLine;
      hide Joined;
      var edge_targets := SortIds(block.edge_counts.Keys);
      out := BlockLine(b, block.exec_count) + "\n";
      ghost var whole := Joined(BlockLines(b, block));
      LineFirst(BlockLine(b, block.exec_count), EdgeLines(b, block.edge_counts, edge_targets));
      assert edge_targets[0..] == edge_targets;
      for i := 0 to |edge_targets|
        invariant Leaves(out, Joined(EdgeLines(b, block.edge_counts, edge_targets[i..])), whole)
      {
        var t := edge_targets[i];
        var line := EdgeLine(b, t, block.edge_counts[t]) + "\n";
        EdgeFirst(b, block.edge_counts, edge_targets, i);
        Emitted(out, line, Joined(EdgeLines(b, block.edge_counts, edge_targets[i + 1..])), whole);
        out := out + line;
      }
      NoEdges(b, block.edge_counts, edge_targets[|edge_targets|..]);
    }

    /** `merge_instrumentation_raw` */
    method MergeInstrumentationRaw(name: string, raw: seq<u8>) returns (problem: Option<MergeError>)
      modifies this
      ensures problem == MergeProblem(old(functions), name, raw)
      ensures problem.Some? ==> functions == old(functions)
      ensures problem.None? ==>
        functions.Keys == old(functions).Keys && MergedInto(old(functions)[name], functions[name], raw)
      ensures problem.None? ==> functions == old(functions)[name := functions[name]]
    {
      problem := MergeProblem(functions, name, raw);
      if problem.Some? {
        return;
      }
      var f := functions[name];
      var block_ids := SortIds(f.blocks.Keys);
      SortedLength(block_ids, f.blocks.Keys);
      var counted := SetCounts(f.blocks, block_ids, raw);
      var merged := SetEdges(counted);
      MergedRight(f, counted, merged, raw);
      functions := functions[name := f.(blocks := merged)];
    }
  }

  lemma {:induction false} SortedLength(r: seq<u64>, s: set<u64>)
    requires SortedIds(r, s)
    ensures |r| == |s|
  {
    if r != [] {
      IdsTail(r, s);
      assert r[0] in r;
      SortedLength(r[1..], s - {r[0]});
    }
  }

  // ----- the two loops of a merge -----

  ghost predicate SameButCounts(blocks: map<u64, BlockProfile>, after: map<u64, BlockProfile>) {
    && after.Keys == blocks.Keys
    && forall b :: b in blocks ==> after[b].edge_counts == blocks[b].edge_counts
  }

  method SetCounts(blocks: map<u64, BlockProfile>, ids: seq<u64>, raw: seq<u8>) returns (r: map<u64, BlockProfile>)
    requires SortedIds(ids, blocks.Keys) && |raw| == 16 + 8 * |ids|
    ensures SameButCounts(blocks, r) && Counted(r, ids, raw, |ids|)
  {
    r := blocks;
    for i := 0 to |ids|
      invariant SameButCounts(blocks, r) && Counted(r, ids, raw, i)
    {
      hide U64At;
      assert ids[i] in ids;
      var start := 16 + i * 8;
      r := r[ids[i] := r[ids[i]].(exec_count := U64At(raw, start))];
    }
  }

  /** The counts of the blocks are kept, and the edges of the blocks in `done` have been set. */
  ghost predicate EdgesSet(blocks: map<u64, BlockProfile>, after: map<u64, BlockProfile>, done: set<u64>) {
    && after.Keys == blocks.Keys && done <= blocks.Keys
    && (forall b :: b in blocks ==> after[b].exec_count == blocks[b].exec_count)
    && (forall b :: b in blocks.Keys - done ==> after[b].edge_counts == blocks[b].edge_counts)
    && (forall b :: b in done ==> after[b].edge_counts == Weighed(blocks, b))
  }

  function Weighed(blocks: map<u64, BlockProfile>, b: u64): map<u64, u64>
    requires b in blocks
  {
    map t | t in blocks[b].edge_counts :: Min(CountOf(blocks, b), CountOf(blocks, t))
  }

  method SetEdges(blocks: map<u64, BlockProfile>) returns (r: map<u64, BlockProfile>)
    ensures EdgesSet(blocks, r, blocks.Keys)
  {
    r := blocks;
    var rest := blocks.Keys;
    while rest != {}
      invariant rest <= blocks.Keys && EdgesSet(blocks, r, blocks.Keys - rest)
    {
      hide Weighed;
      ghost var least := LeastId(rest);
      var b: u64 :| b in rest && forall y :: y in rest ==> b <= y;
      r := r[b := r[b].(edge_counts := Weighed(blocks, b))];
      rest := rest - {b};
    }
  }

  lemma MergedRight(f: FunctionProfile, counted: map<u64, BlockProfile>, merged: map<u64, BlockProfile>, raw: seq<u8>)
    requires |raw| == 16 + 8 * |f.blocks| && |IdsOf(f.blocks.Keys)| == |f.blocks|
    requires SameButCounts(f.blocks, counted) && Counted(counted, IdsOf(f.blocks.Keys), raw, |f.blocks|)
    requires EdgesSet(counted, merged, counted.Keys)
    ensures MergedInto(f, f.(blocks := merged), raw)
  {
    hide U64At;
    hide IdsOf;
    forall b | b in f.blocks
      ensures EdgesMerged(f.blocks[b].edge_counts, merged, b)
    {
      assert forall t :: CountOf(merged, t) == CountOf(counted, t);
      assert merged[b].edge_counts == Weighed(counted, b);
    }
  }

  // ----- what a merge gives -----

  /** A merged profile still survives the round trip through its text. */
  lemma MergeKeepsGood(functions: Functions, name: string, after: FunctionProfile, raw: seq<u8>)
    requires GoodFunctions(functions) && name in functions && MergedInto(functions[name], after, raw)
    ensures GoodFunctions(functions[name := after])
  {
    hide IsWord;
    hide U64At;
    hide IdsOf;
    var before := functions[name];
    assert GoodFunction(before);
    forall b: u64, t: u64 | b in after.blocks && t in after.blocks[b].edge_counts
      ensures t in after.blocks
    {
      assert EdgesMerged(before.blocks[b].edge_counts, after.blocks, b);
    }
    assert GoodFunction(after);
    hide GoodFunction;
  }

  /** No edge runs more often than the block it leaves or the block it enters. */
  lemma EdgesBounded(f: FunctionProfile, after: FunctionProfile, raw: seq<u8>, b: u64, t: u64)
    requires MergedInto(f, after, raw) && b in after.blocks && t in after.blocks[b].edge_counts
    ensures after.blocks[b].edge_counts[t] <= CountOf(after.blocks, b)
    ensures after.blocks[b].edge_counts[t] <= CountOf(after.blocks, t)
  {
    hide U64At;
    hide IdsOf;
    assert EdgesMerged(f.blocks[b].edge_counts, after.blocks, b);
  }

  /** The record an instrumented run writes: a header, the number of blocks and their counters. */
  function Record(counts: seq<u64>): seq<u8> {
    MAGIC + Bytes(|counts|, 8) + AllBytes(counts)
  }

  function AllBytes(counts: seq<u64>): (r: seq<u8>)
    ensures |r| == 8 * |counts|
  {
    if counts == [] then [] else Bytes(counts[0], 8) + AllBytes(counts[1..])
  }

  lemma {:induction false} BytesAt(counts: seq<u64>, i: nat)
    requires i < |counts|
    ensures AllBytes(counts)[8 * i..8 * i + 8] == Bytes(counts[i], 8)
  {
    if i > 0 {
      BytesAt(counts[1..], i - 1);
      Later(Bytes(counts[0], 8), AllBytes(counts[1..]), 8 * (i - 1));
    }
  }

  lemma Later(a: seq<u8>, b: seq<u8>, start: nat)
    requires start + 8 <= |b|
    ensures (a + b)[|a| + start..|a| + start + 8] == b[start..start + 8]
  {}

  /** A record of as many counters as there are blocks is accepted, and each counter is read back. */
  lemma RecordAccepted(functions: Functions, name: string, counts: seq<u64>)
    requires name in functions && |counts| == |functions[name].blocks| < 0x1000_0000_0000_0000
    ensures MergeProblem(functions, name, Record(counts)) == None
    ensures forall i: nat :: i < |counts| ==> U64At(Record(counts), 16 + 8 * i) == counts[i]
  {
    Pow2Word();
    var head := MAGIC + Bytes(|counts|, 8);
    var raw := Record(counts);
    assert raw[..8] == MAGIC && raw[8..16] == Bytes(|counts|, 8);
    BytesThenNumber(|counts|, 8);
    forall i: nat | i < |counts|
      ensures U64At(raw, 16 + 8 * i) == counts[i]
    {
      BytesAt(counts, i);
      Later(head, AllBytes(counts), 8 * i);
      BytesThenNumber(counts[i], 8);
    }
  }
}
