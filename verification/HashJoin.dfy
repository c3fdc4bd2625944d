/** The join itself: a bloom filter in front of the table, and matches combined in chunks. */
module HashJoin {
  import opened Words
  import opened Ir
  import opened HashTable

  const BLOOM_WORDS: nat := 64
  const COMPACT_CHUNK: nat := 64

  // ----- the bloom filter -----

  /** The bit of the filter for one of the four lanes of a hash. */
  function BloomIndex(hash: u64, lane: nat): (i: nat)
    ensures i < 64 * BLOOM_WORDS
  {
    Down(hash, lane * 13) % 4096
  }

  predicate IsSet(filter: seq<u64>, i: nat)
    requires |filter| == BLOOM_WORDS && i < 64 * BLOOM_WORDS
  {
    Bit(filter[i / 64], i % 64)
  }

  /** A hash may have been added: the bits of its first `n` lanes are set. */
  predicate MaybeAdded(filter: seq<u64>, hash: u64, n: nat)
    requires |filter| == BLOOM_WORDS
  {
    forall lane: nat :: lane < n ==> IsSet(filter, BloomIndex(hash, lane))
  }

  function OneBit(i: nat): u64
    requires i < 64
  {
    Pow2Word();
    Pow2Less(i, 64);
    Pow2(i)
  }

  lemma Pow2Less(m: nat, n: nat)
    requires m < n
    ensures Pow2(m) < Pow2(n)
  {
    Pow2Mono(m, n - 1);
  }

  lemma BitOfOneBit(i: nat, j: nat)
    requires i < 64
    ensures Bit(OneBit(i), j) == (i == j)
  {
    UpMultiplies(1, i);
    BitUp(1, i, j);
    if j >= i {
      BitOfOne(j - i);
    }
  }

  lemma BitOfOne(j: nat)
    ensures Bit(1, j) == (j == 0)
  {
    if j > 0 {
      BitOfZero(j - 1);
    }
  }

  lemma SetBit(word: u64, i: nat, j: nat)
    requires i < 64
    ensures Bit(Or64(word, OneBit(i)), j) == (Bit(word, j) || i == j)
  {
    Words.BitOr(word, OneBit(i), j);
    BitOfOneBit(i, j);
  }

  /** The test of one bit, as a shift and a mask. */
  lemma TestBit(word: u64, i: nat)
    ensures And(Down(word, i), 1) == 0 <==> !Bit(word, i)
  {
    BitDown(word, i, 0);
    AndMask(Down(word, i), 1);
  }

  /** Exactly the bits of the first `n` lanes have been added. */
  ghost predicate Added(before: seq<u64>, after: seq<u64>, hash: u64, n: nat) {
    |before| == |after| == BLOOM_WORDS &&
    forall i: nat :: i < 64 * BLOOM_WORDS ==> (IsSet(after, i) <==> (IsSet(before, i) || HitBy(hash, n, i)))
  }

  predicate HitBy(hash: u64, n: nat, i: nat) {
    exists lane: nat :: lane < n && BloomIndex(hash, lane) == i
  }

  /** `bloom_add` */
  method BloomAdd(filter: array<u64>, hash: u64)
    requires filter.Length == BLOOM_WORDS
    modifies filter
    ensures Added(old(filter[..]), filter[..], hash, 4)
  {
    var lane := 0;
    while lane < 4
      invariant lane <= 4 && Added(old(filter[..]), filter[..], hash, lane)
    {
      var bit_idx := BloomIndex(hash, lane);
      ghost var before := filter[..];
      filter[bit_idx / 64] := Or64(filter[bit_idx / 64], OneBit(bit_idx % 64));
      assert filter[..] == before[bit_idx / 64 := Or64(before[bit_idx / 64], OneBit(bit_idx % 64))];
      AddedOne(old(filter[..]), before, filter[..], hash, lane);
      lane := lane + 1;
    }
  }

  lemma AddedOne(start: seq<u64>, before: seq<u64>, after: seq<u64>, hash: u64, lane: nat)
    requires Added(start, before, hash, lane)
    requires var b := BloomIndex(hash, lane); after == before[b / 64 := Or64(before[b / 64], OneBit(b % 64))]
    ensures Added(start, after, hash, lane + 1)
  {
    var b := BloomIndex(hash, lane);
    forall i: nat | i < 64 * BLOOM_WORDS
      ensures IsSet(after, i) <==> (IsSet(start, i) || HitBy(hash, lane + 1, i))
    {
      SetBit(before[b / 64], b % 64, i % 64);
      assert i == 64 * (i / 64) + i % 64 && b == 64 * (b / 64) + b % 64;
      assert IsSet(after, i) <==> (IsSet(before, i) || i == b);
      assert HitBy(hash, lane + 1, i) <==> (HitBy(hash, lane, i) || i == b) by {
        HitOneMore(hash, lane, i);
      }
    }
  }

  lemma HitOneMore(hash: u64, lane: nat, i: nat)
    ensures HitBy(hash, lane + 1, i) <==> (HitBy(hash, lane, i) || BloomIndex(hash, lane) == i)
  {
    hide BloomIndex;
  }

  /** `bloom_maybe` */
  method BloomMaybe(filter: array<u64>, hash: u64) returns (r: bool)
    requires filter.Length == BLOOM_WORDS
    ensures r <==> MaybeAdded(filter[..], hash, 4)
  {
    var lane := 0;
    while lane < 4
      invariant lane <= 4 && MaybeAdded(filter[..], hash, lane)
    {
      var bit_idx := BloomIndex(hash, lane);
      TestBit(filter[bit_idx / 64], bit_idx % 64);
      hide BloomIndex;
      if And(Down(filter[bit_idx / 64], bit_idx % 64), 1) == 0 {
        assert !IsSet(filter[..], BloomIndex(hash, lane));
        return false;
      }
      lane := lane + 1;
    }
    return true;
  }

  /** Adding a hash makes it found and keeps every other hash found. */
  lemma AddedIsFound(before: seq<u64>, after: seq<u64>, hash: u64, other: u64)
    requires Added(before, after, hash, 4)
    ensures MaybeAdded(after, hash, 4)
    ensures MaybeAdded(before, other, 4) ==> MaybeAdded(after, other, 4)
  {
    hide IsSet;
    forall lane: nat | lane < 4
      ensures IsSet(after, BloomIndex(hash, lane))
    {
      assert HitBy(hash, 4, BloomIndex(hash, lane));
    }
    hide BloomIndex;
    hide HitBy;
  }

  // ----- building -----

  /** Every key of the table passes the filter. */
  ghost predicate Covers(filter: seq<u64>, contents: map<u64, u64>) {
    |filter| == BLOOM_WORDS && forall k :: k in contents ==> MaybeAdded(filter, k, 4)
  }

  /** Inserting the rows one by one, where a new key is dropped if its part of the table is full. */
  ghost function InsertedAll(m: map<u64, u64>, rows: seq<(u64, u64)>, partitioned: bool): map<u64, u64> {
    if rows == [] then m
    else
      var last := rows[|rows| - 1];
      Inserted(InsertedAll(m, rows[..|rows| - 1], partitioned), last.0, last.1, partitioned)
  }

  method Build(table: Table, filter: array<u64>, rows: seq<(u64, u64)>)
    requires table.Valid() && filter.Length == BLOOM_WORDS && Covers(filter[..], table.contents)
    requires filter != table.ctrl && filter != table.keys && filter != table.vals
    modifies table, table.ctrl, table.keys, table.vals, filter
    ensures table.Valid() && Covers(filter[..], table.contents)
    ensures table.contents == InsertedAll(old(table.contents), rows, table.partitioned)
  {
    assert rows[..0] == [];
    for i := 0 to |rows|
      invariant table.Valid() && Covers(filter[..], table.contents)
      invariant table.contents == InsertedAll(old(table.contents), rows[..i], table.partitioned)
    {
      assert rows[..i + 1][..i] == rows[..i];
      var key, val := rows[i].0, rows[i].1;
      ghost var before := filter[..];
      BloomAdd(filter, key);
      forall k | k in table.contents || k == key
        ensures MaybeAdded(filter[..], k, 4)
      {
        AddedIsFound(before, filter[..], key, k);
      }
      ghost var bits := filter[..];
      table.Insert(key, val);
      assert filter[..] == bits;
    }
    assert rows[..|rows|] == rows;
  }

  // ----- joining -----

  function XorAll(values: seq<u64>, sum: u64): u64 {
    if values == [] then sum else XorAll(values[1..], Xor64(sum, values[0]))
  }

  lemma {:induction false} XorAppend(a: seq<u64>, b: seq<u64>, sum: u64)
    ensures XorAll(a + b, sum) == XorAll(b, XorAll(a, sum))
  {
    if a == [] {
      assert a + b == b;
    } else {
      XorAppend(a[1..], b, Xor64(sum, a[0]));
      assert (a + b)[1..] == a[1..] + b;
    }
  }

  /** The values of the probes that match, in order. */
  ghost function Matches(contents: map<u64, u64>, probes: seq<u64>): seq<u64> {
    if probes == [] then []
    else
      var last := probes[|probes| - 1];
      Matches(contents, probes[..|probes| - 1]) + (if last in contents then [contents[last]] else [])
  }

  method XorChunk(compact: array<u64>, len: nat, sum: u64) returns (r: u64)
    requires len <= compact.Length
    ensures r == XorAll(compact[..len], sum)
  {
    r := sum;
    var j := 0;
    while j < len
      invariant j <= len && r == XorAll(compact[..j], sum)
    {
      assert compact[..j + 1] == compact[..j] + [compact[j]];
      XorAppend(compact[..j], [compact[j]], sum);
      assert XorAll([compact[j]], r) == Xor64(r, compact[j]);
      r := Xor64(r, compact[j]);
      j := j + 1;
    }
  }

  /** The values waiting in the buffer and the sum so far make up the XOR of all matches. */
  ghost predicate Summed(waiting: seq<u64>, sum: u64, contents: map<u64, u64>, probes: seq<u64>) {
    XorAll(waiting, sum) == XorAll(Matches(contents, probes), 0)
  }

  lemma ProbeOneMore(waiting: seq<u64>, sum: u64, contents: map<u64, u64>, probes: seq<u64>, i: nat)
    requires i < |probes| && Summed(waiting, sum, contents, probes[..i])
    ensures probes[i] !in contents ==> Summed(waiting, sum, contents, probes[..i + 1])
    ensures probes[i] in contents ==> Summed(waiting + [contents[probes[i]]], sum, contents, probes[..i + 1])
  {
    hide XorAll;
    assert probes[..i + 1][..i] == probes[..i];
    var more := if probes[i] in contents then [contents[probes[i]]] else [];
    var before := Matches(contents, probes[..i]);
    assert Matches(contents, probes[..i + 1]) == before + more;
    assert before + [] == before;
    if probes[i] in contents {
      XorAppend(waiting, [contents[probes[i]]], sum);
      XorAppend(Matches(contents, probes[..i]), [contents[probes[i]]], 0);
    }
  }

  /** Put a match in the buffer; a full buffer is added to the sum and emptied. */
  method Collect(compact: array<u64>, compact_len: nat, sum: u64, value: u64) returns (len: nat, total: u64)
    requires compact_len < compact.Length == COMPACT_CHUNK
    modifies compact
    ensures len < COMPACT_CHUNK && XorAll(compact[..len], total) == XorAll(old(compact[..compact_len]) + [value], sum)
  {
    ghost var waiting := compact[..compact_len];
    compact[compact_len] := value;
    len, total := compact_len + 1, sum;
    assert compact[..len] == waiting + [value];
    if len == COMPACT_CHUNK {
      total := XorChunk(compact, COMPACT_CHUNK, total);
      len := 0;
    }
  }

  /** Collecting matches in chunks gives the XOR of all of them, and the filter never hides a match. */
  method Join(table: Table, filter: array<u64>, probes: seq<u64>) returns (sum: u64)
    requires table.Valid() && Covers(filter[..], table.contents)
    ensures sum == XorAll(Matches(table.contents, probes), 0)
  {
    hide Matches;
    hide XorAll;
    hide MaybeAdded;
    var compact := new u64[COMPACT_CHUNK](_ => 0);
    var compact_len: nat := 0;
    sum := 0;
    ghost var contents := table.contents;
    NothingProbed(contents, compact[..0], probes[..0]);
    for i := 0 to |probes|
      invariant compact_len < COMPACT_CHUNK && table.Valid() && table.contents == contents
        && Covers(filter[..], contents)
      invariant Summed(compact[..compact_len], sum, contents, probes[..i])
    {
      var key := probes[i];
      ghost var waiting := compact[..compact_len];
      ProbeOneMore(waiting, sum, contents, probes, i);
      var maybe := BloomMaybe(filter, key);
      if maybe {
        var found := table.Probe(key);
        if found.Some? {
          ghost var before := sum;
          compact_len, sum := Collect(compact, compact_len, sum, found.value);
          assert XorAll(compact[..compact_len], sum) == XorAll(waiting + [contents[key]], before);
        }
      }
    }
    assert probes[..|probes|] == probes;
    sum := XorChunk(compact, compact_len, sum);
  }

  lemma NothingProbed(contents: map<u64, u64>, waiting: seq<u64>, probes: seq<u64>)
    requires waiting == [] && probes == []
    ensures Summed(waiting, 0, contents, probes)
  {}
}
