/** The grouped-probe hash table of the hash-join benchmark: three parallel arrays, changed in place. */
module HashTable {
  import opened Words
  import opened Ir

  const CAP: nat := 256
  const GROUP: nat := 16

  // ----- where a key may be -----

  /** The fingerprint in the control byte; never 0, which marks an empty slot. */
  function Fp7(key: u64): (fp: u64)
    ensures fp != 0
  {
    (key / Pow2(57)) % 128 + 1
  }

  function Rounds(partitioned: bool): nat {
    if partitioned then 4 else 16
  }

  /** The number of slots a key can use: its partition, or the whole table. */
  function Room(partitioned: bool): nat {
    if partitioned then 64 else CAP
  }

  function Base(key: u64, partitioned: bool): (b: nat)
    ensures b + Room(partitioned) <= CAP
  {
    Pow2Word();
    TopBits(key);
    if partitioned then (key / Pow2(62)) * 64 else 0
  }

  lemma TopBits(key: u64)
    ensures key / Pow2(62) <= 3
  {
    Pow2Word();
    assert Pow2(64) == 4 * Pow2(62);
    DivDivide(key, Pow2(62));
    if key / Pow2(62) >= 4 {
      MulMono(4, key / Pow2(62), Pow2(62));
    }
  }

  lemma BaseMultiple(key: u64, partitioned: bool)
    ensures Base(key, partitioned) % 64 == 0
    ensures !partitioned ==> Base(key, partitioned) == 0
  {
    hide Pow2;
  }

  /** The first slot of the group the key hashes to. */
  function Start(key: u64, partitioned: bool): nat {
    key % Room(partitioned) / GROUP * GROUP
  }

  /** The slot of step `s` of the probe sequence. */
  function Pos(key: u64, partitioned: bool, s: nat): (i: nat)
    ensures i < CAP
  {
    Base(key, partitioned) + (Start(key, partitioned) + s) % Room(partitioned)
  }

  lemma PosInRegion(key: u64, partitioned: bool, s: nat)
    ensures InRegion(key, partitioned, Pos(key, partitioned, s))
  {
    hide Base;
    hide Start;
  }

  lemma SameBase(key: u64, k: u64, partitioned: bool, i: nat)
    requires InRegion(key, partitioned, i) && InRegion(k, partitioned, i)
    ensures Base(k, partitioned) == Base(key, partitioned)
  {
    BaseMultiple(key, partitioned);
    BaseMultiple(k, partitioned);
    hide Base;
    hide Pow2;
  }

  /** Whether slot `i` belongs to the part of the table that `key` can use. */
  predicate InRegion(key: u64, partitioned: bool, i: nat) {
    Base(key, partitioned) <= i < Base(key, partitioned) + Room(partitioned)
  }

  /** The probe sequence visits every slot of the region. */
  lemma PosCovers(key: u64, partitioned: bool, i: nat) returns (s: nat)
    requires InRegion(key, partitioned, i)
    ensures s < Room(partitioned) && Pos(key, partitioned, s) == i
  {
    var n, start, off := Room(partitioned), Start(key, partitioned), i - Base(key, partitioned);
    StartBound(key, partitioned);
    hide Base;
    hide Start;
    s := if off >= start then off - start else off - start + n;
    DivUnique(start + s, n, if off >= start then 0 else 1, off);
  }

  lemma StartBound(key: u64, partitioned: bool)
    ensures 0 < Room(partitioned) && Start(key, partitioned) < Room(partitioned)
  {}

  /** The first slot of group `r`, and the slot of one of its lanes, as the loops compute them. */
  function GroupAt(key: u64, partitioned: bool, r: nat): nat {
    (Start(key, partitioned) + GROUP * r) % Room(partitioned)
  }

  function NextGroup(partitioned: bool, group: nat): nat {
    (group + GROUP) % Room(partitioned)
  }

  function LaneSlot(key: u64, partitioned: bool, group: nat, lane: nat): (i: nat)
    ensures i < CAP
  {
    Base(key, partitioned) + (group + lane) % Room(partitioned)
  }

  /** Advancing group by group and lane by lane follows the probe sequence. */
  lemma PosOfGroup(key: u64, partitioned: bool, r: nat, lane: nat)
    ensures LaneSlot(key, partitioned, GroupAt(key, partitioned, r), lane) == Pos(key, partitioned, GROUP * r + lane)
    ensures NextGroup(partitioned, GroupAt(key, partitioned, r)) == GroupAt(key, partitioned, r + 1)
    ensures GroupAt(key, partitioned, 0) == Start(key, partitioned)
  {
    StartBound(key, partitioned);
    hide Base;
    hide Start;
    hide Room;
    GroupArithmetic(Start(key, partitioned), Room(partitioned), r, lane);
  }

  lemma GroupArithmetic(start: nat, n: nat, r: nat, lane: nat)
    requires start < n
    ensures ((start + GROUP * r) % n + lane) % n == (start + (GROUP * r + lane)) % n
    ensures ((start + GROUP * r) % n + GROUP) % n == (start + GROUP * (r + 1)) % n
    ensures (start + GROUP * 0) % n == start
  {
    WrapStep(start, n, GROUP * r, lane);
    WrapStep(start, n, GROUP * r, GROUP);
    DivUnique(start, n, 0, start);
  }

  lemma WrapStep(start: nat, n: nat, x: nat, y: nat)
    requires n > 0
    ensures ((start + x) % n + y) % n == (start + (x + y)) % n
  {
    ModAdd(start + x, y, n);
    assert start + x + y == start + (x + y);
  }

  lemma ModAdd(a: nat, b: nat, n: nat)
    requires n > 0
    ensures (a % n + b) % n == (a + b) % n
  {
    var q, c := a / n, a % n + b;
    DivDivide(c, n);
    assert a == n * q + a % n;
    Distribute(n, q, c / n);
    DivUnique(a + b, n, q + c / n, c % n);
  }

  // ----- the table as a map -----

  /** The keys of a map that compete with `key` for the same slots. */
  ghost function Rivals(m: map<u64, u64>, key: u64, partitioned: bool): set<u64> {
    set k | k in m && Base(k, partitioned) == Base(key, partitioned)
  }

  /** A bounded map: a new key is dropped when its part of the table is full. */
  ghost function Inserted(m: map<u64, u64>, key: u64, val: u64, partitioned: bool): map<u64, u64> {
    if key in m || |Rivals(m, key, partitioned)| < Room(partitioned) then m[key := val] else m
  }

  /** The keys in the slots that are taken. */
  ghost function KeysAt(ctrl: seq<u64>, keys: seq<u64>): set<u64>
    requires |ctrl| == |keys|
  {
    set i: nat | i < |ctrl| && ctrl[i] != 0 :: keys[i]
  }

  ghost predicate AllDifferent(ctrl: seq<u64>, keys: seq<u64>)
    requires |ctrl| == |keys|
  {
    forall i: nat, j: nat :: i < j < |ctrl| && ctrl[i] != 0 && ctrl[j] != 0 ==> keys[i] != keys[j]
  }

  ghost predicate AllTaken(ctrl: seq<u64>) {
    forall i: nat :: i < |ctrl| ==> ctrl[i] != 0
  }

  lemma {:induction false} CountKeys(ctrl: seq<u64>, keys: seq<u64>)
    requires |ctrl| == |keys| && AllDifferent(ctrl, keys)
    ensures |KeysAt(ctrl, keys)| <= |ctrl|
    ensures |KeysAt(ctrl, keys)| == |ctrl| <==> AllTaken(ctrl)
  {
    if ctrl == [] {
      NoKeys(ctrl, keys);
    } else {
      var n: nat := |ctrl| - 1;
      FewerKeys(ctrl, keys, n);
      CountKeys(ctrl[..n], keys[..n]);
      hide *;
      OneKeyMore(KeysAt(ctrl[..n], keys[..n]), keys[n], ctrl[n] != 0, KeysAt(ctrl, keys), n, AllTaken(ctrl[..n]));
    }
  }

  lemma NoKeys(ctrl: seq<u64>, keys: seq<u64>)
    requires ctrl == [] && keys == []
    ensures KeysAt(ctrl, keys) == {} && AllTaken(ctrl)
  {}

  lemma FewerKeys(ctrl: seq<u64>, keys: seq<u64>, n: nat)
    requires |ctrl| == |keys| == n + 1 && AllDifferent(ctrl, keys)
    ensures AllDifferent(ctrl[..n], keys[..n])
    ensures keys[n] in KeysAt(ctrl[..n], keys[..n]) ==> ctrl[n] == 0
    ensures KeysAt(ctrl, keys) == KeysAt(ctrl[..n], keys[..n]) + if ctrl[n] != 0 then {keys[n]} else {}
    ensures AllTaken(ctrl) <==> AllTaken(ctrl[..n]) && ctrl[n] != 0
  {
    FewerTaken(ctrl, n);
    hide AllTaken;
    KeysOfLast(ctrl, keys, n);
    hide KeysAt;
  }

  lemma FewerTaken(ctrl: seq<u64>, n: nat)
    requires |ctrl| == n + 1
    ensures AllTaken(ctrl) <==> AllTaken(ctrl[..n]) && ctrl[n] != 0
  {}

  lemma KeysOfLast(ctrl: seq<u64>, keys: seq<u64>, n: nat)
    requires |ctrl| == |keys| == n + 1
    ensures KeysAt(ctrl, keys) == KeysAt(ctrl[..n], keys[..n]) + if ctrl[n] != 0 then {keys[n]} else {}
    ensures AllDifferent(ctrl, keys) && keys[n] in KeysAt(ctrl[..n], keys[..n]) ==> ctrl[n] == 0
  {}

  lemma OneKeyMore(before: set<u64>, key: u64, taken: bool, after: set<u64>, n: nat, all: bool)
    requires |before| <= n && (|before| == n <==> all) && (key in before ==> !taken)
    requires after == before + if taken then {key} else {}
    ensures |after| <= n + 1 && (|after| == n + 1 <==> all && taken)
  {}

  // ----- the table -----

  class Table {
    const partitioned: bool
    const ctrl: array<u64>
    const keys: array<u64>
    const vals: array<u64>

    /** What the table maps each key to, and at which step of its probe sequence the key is. */
    ghost var contents: map<u64, u64>
    ghost var step: map<u64, nat>

    ghost predicate Shaped()
    {
      && ctrl.Length == keys.Length == vals.Length == CAP
      && ctrl != keys && ctrl != vals && keys != vals
    }

    ghost predicate Valid()
      reads this, ctrl, keys, vals
    {
      && Shaped()
      && contents.Keys == step.Keys
      && (forall k :: k in contents ==> Holds(k, step[k]))
      && (forall i: nat :: i < CAP && ctrl[i] != 0 ==> Home(i))
    }

    /** Key `k` is at step `s`, and no step before it is free. */
    ghost predicate Holds(k: u64, s: nat)
      reads this, ctrl, keys, vals
      requires Shaped() && k in contents
    {
      && s < Room(partitioned)
      && ctrl[Pos(k, partitioned, s)] != 0 && keys[Pos(k, partitioned, s)] == k
      && vals[Pos(k, partitioned, s)] == contents[k]
      && (forall t: nat :: t < s ==> Taken(k, t))
    }

    ghost predicate Taken(k: u64, t: nat)
      reads this, ctrl, keys
      requires Shaped()
    {
      ctrl[Pos(k, partitioned, t)] != 0 && keys[Pos(k, partitioned, t)] != k
    }

    ghost predicate Home(i: nat)
      reads this, ctrl, keys
      requires Shaped() && i < CAP
    {
      && ctrl[i] == Fp7(keys[i]) && keys[i] in contents && keys[i] in step
      && Pos(keys[i], partitioned, step[keys[i]]) == i
    }

    constructor (partitioned: bool)
      ensures Valid() && contents == map[] && this.partitioned == partitioned
      ensures fresh(ctrl) && fresh(keys) && fresh(vals)
    {
      this.partitioned := partitioned;
      ctrl := new u64[CAP](_ => 0);
      keys := new u64[CAP](_ => 0);
      vals := new u64[CAP](_ => 0);
      contents, step := map[], map[];
    }

    /** Every slot the key can use is taken by another key. */
    ghost predicate NoRoom(key: u64)
      reads this, ctrl, keys
      requires Shaped()
    {
      forall t: nat :: t < Room(partitioned) ==> Taken(key, t)
    }

    lemma HeldOnce(key: u64)
      requires Valid()
      ensures key in contents ==> step[key] < Room(partitioned) && !Taken(key, step[key]) && Searched(key, step[key])
      ensures key in contents ==> ctrl[Pos(key, partitioned, step[key])] != 0
    {
      hide Pos;
      hide Fp7;
      assert key in contents ==> Holds(key, step[key]);
    }

    lemma NotInserted(key: u64, s: nat)
      requires Valid() && Searched(key, s)
      requires s >= Room(partitioned) || !Taken(key, s)
      requires s < Room(partitioned) ==> ctrl[Pos(key, partitioned, s)] == 0
      ensures key !in contents
    {
      HeldOnce(key);
      hide Taken;
      hide Holds;
      hide Pos;
      hide Home;
      hide Fp7;
    }

    /** `grouped_probe`: the value of the key, if it has been inserted. */
    method Probe(key: u64) returns (r: Option<u64>)
      requires Valid()
      ensures r == if key in contents then Some(contents[key]) else None
    {
      hide Fp7;
      hide Pos;
      hide LaneSlot;
      hide GroupAt;
      hide NextGroup;
      hide Start;
      var group := Start(key, partitioned);
      PosOfGroup(key, partitioned, 0, 0);
      var round := 0;
      while round < Rounds(partitioned)
        invariant round <= Rounds(partitioned) && group == GroupAt(key, partitioned, round)
        invariant Searched(key, GROUP * round)
      {
        var lane := 0;
        while lane < GROUP
          invariant lane <= GROUP
          invariant Searched(key, GROUP * round + lane)
        {
          var i := LaneSlot(key, partitioned, group, lane);
          PosOfGroup(key, partitioned, round, lane);
          if ctrl[i] == 0 {
            NotInserted(key, GROUP * round + lane);
            return None;
          }
          assert Home(i);
          if ctrl[i] == Fp7(key) && keys[i] == key {
            assert Holds(key, step[key]);
            return Some(vals[i]);
          }
          lane := lane + 1;
        }
        PosOfGroup(key, partitioned, round, 0);
        group := NextGroup(partitioned, group);
        round := round + 1;
      }
      NotInserted(key, Room(partitioned));
      return None;
    }

    /** The first `s` slots of the key's probe sequence are taken by other keys. */
    ghost predicate Searched(key: u64, s: nat)
      reads this, ctrl, keys
      requires Shaped()
    {
      forall t: nat :: t < s ==> Taken(key, t)
    }

    /** Take a free slot for a key that is not there yet. */
    method StoreNew(key: u64, val: u64, ghost s: nat, i: nat)
      requires Valid() && key !in contents && s < Room(partitioned) && i == Pos(key, partitioned, s)
      requires Searched(key, s) && ctrl[i] == 0
      modifies this, ctrl, keys, vals
      ensures Valid() && contents == old(contents)[key := val]
    {
      hide Pos;
      hide Fp7;
      label before:
      assert forall k :: k in contents ==> Holds(k, step[k]);
      ctrl[i] := Fp7(key);
      keys[i] := key;
      vals[i] := val;
      contents, step := contents[key := val], step[key := s];
      forall k | k in contents
        ensures Holds(k, step[k])
      {
        assert k != key ==> old@before(Holds(k, step[k]));
        forall t: nat | t < step[k]
          ensures Taken(k, t)
        {
          assert old@before(Taken(k, t));
        }
      }
      forall j: nat | j < CAP && ctrl[j] != 0
        ensures Home(j)
      {
        assert j != i ==> old@before(Home(j));
      }
    }

    /** Replace the value of a key that is there. */
    method StoreValue(key: u64, val: u64, i: nat)
      requires Valid() && i < CAP && ctrl[i] != 0 && keys[i] == key
      modifies this, vals
      ensures Valid() && key in old(contents) && contents == old(contents)[key := val]
    {
      hide Pos;
      hide Fp7;
      assert Home(i);
      label before:
      assert forall k :: k in contents ==> Holds(k, step[k]);
      vals[i] := val;
      contents := contents[key := val];
      forall k | k in contents
        ensures Holds(k, step[k])
      {
        assert old@before(Holds(k, step[k]));
        forall t: nat | t < step[k]
          ensures Taken(k, t)
        {
          assert old@before(Taken(k, t));
        }
      }
      forall j: nat | j < CAP && ctrl[j] != 0
        ensures Home(j)
      {
        assert old@before(Home(j));
      }
    }

    /** `grouped_insert`: a new key is dropped only when every slot it could use is taken; the loop after
        the groups then looks at the same slots again and changes nothing. */
    method Insert(key: u64, val: u64)
      requires Valid()
      modifies this, ctrl, keys, vals
      ensures Valid()
      ensures contents == Inserted(old(contents), key, val, partitioned)
    {
      hide Fp7;
      hide Pos;
      hide LaneSlot;
      hide GroupAt;
      hide NextGroup;
      hide Start;
      hide Base;
      hide Rivals;
      RoomLeft(key);
      var group := Start(key, partitioned);
      PosOfGroup(key, partitioned, 0, 0);
      var round := 0;
      while round < Rounds(partitioned)
        invariant round <= Rounds(partitioned) && group == GroupAt(key, partitioned, round)
        invariant unchanged(this, ctrl, keys, vals) && Searched(key, GROUP * round)
      {
        var lane := 0;
        while lane < GROUP
          invariant lane <= GROUP
          invariant unchanged(this, ctrl, keys, vals) && Searched(key, GROUP * round + lane)
        {
          var i := LaneSlot(key, partitioned, group, lane);
          PosOfGroup(key, partitioned, round, lane);
          if ctrl[i] == 0 {
            NotInserted(key, GROUP * round + lane);
            FreeMeansRoom(key, GROUP * round + lane);
            StoreNew(key, val, GROUP * round + lane, i);
            return;
          }
          assert Home(i);
          if ctrl[i] == Fp7(key) && keys[i] == key {
            StoreValue(key, val, i);
            return;
          }
          lane := lane + 1;
        }
        PosOfGroup(key, partitioned, round, 0);
        group := NextGroup(partitioned, group);
        round := round + 1;
      }
      NotInserted(key, Room(partitioned));
      assert NoRoom(key);
      var found := LookAgain(key);
    }

    /** A key that is not there finds no slot exactly when as many rivals as slots are there. */
    lemma RoomLeft(key: u64)
      requires Valid()
      ensures key !in contents ==> (NoRoom(key) <==> |Rivals(contents, key, partitioned)| >= Room(partitioned))
    {
      var b, n := Base(key, partitioned), Room(partitioned);
      hide Base;
      RivalsAreThere(key);
      RegionTaken(key);
      DifferentKeys(b, n);
      CountKeys(ctrl[b..b + n], keys[b..b + n]);
    }

    lemma RivalsAreThere(key: u64)
      requires Valid()
      ensures var b, n := Base(key, partitioned), Room(partitioned);
              Rivals(contents, key, partitioned) == KeysAt(ctrl[b..b + n], keys[b..b + n])
    {
      var b, n := Base(key, partitioned), Room(partitioned);
      hide Base;
      hide Fp7;
      hide Start;
      hide Pos;
      forall k | k in Rivals(contents, key, partitioned)
        ensures k in KeysAt(ctrl[b..b + n], keys[b..b + n])
      {
        assert Holds(k, step[k]);
        PosInRegion(k, partitioned, step[k]);
        var i := Pos(k, partitioned, step[k]);
        assert ctrl[b..b + n][i - b] == ctrl[i] && keys[b..b + n][i - b] == keys[i];
      }
      forall k | k in KeysAt(ctrl[b..b + n], keys[b..b + n])
        ensures k in Rivals(contents, key, partitioned)
      {
        var i: nat :| i < n && ctrl[b..b + n][i] != 0 && keys[b..b + n][i] == k;
        assert Home(b + i);
        PosInRegion(k, partitioned, step[k]);
        SameBase(key, k, partitioned, b + i);
      }
    }

    lemma RegionTaken(key: u64)
      requires Valid()
      ensures var b, n := Base(key, partitioned), Room(partitioned);
              key !in contents ==> (NoRoom(key) <==> AllTaken(ctrl[b..b + n]))
    {
      var b, n := Base(key, partitioned), Room(partitioned);
      hide Base;
      hide Fp7;
      if key !in contents && NoRoom(key) {
        var c := ctrl[b..b + n];
        forall i: nat | i < n
          ensures c[i] != 0
        {
          var s := PosCovers(key, partitioned, b + i);
          assert Taken(key, s);
        }
      }
      if key !in contents && AllTaken(ctrl[b..b + n]) {
        forall s: nat | s < n
          ensures Taken(key, s)
        {
          PosInRegion(key, partitioned, s);
          var i := Pos(key, partitioned, s);
          assert ctrl[b..b + n][i - b] == ctrl[i];
          assert Home(i);
        }
        assert NoRoom(key);
      }
    }

    lemma DifferentKeys(b: nat, n: nat)
      requires Valid() && b + n <= CAP
      ensures AllDifferent(ctrl[b..b + n], keys[b..b + n])
    {
      hide Pos;
      hide Fp7;
      var c, k := ctrl[b..b + n], keys[b..b + n];
      forall i: nat, j: nat | i < j < n && c[i] != 0 && c[j] != 0
        ensures k[i] != k[j]
      {
        assert Home(b + i) && Home(b + j);
      }
    }

    lemma FreeMeansRoom(key: u64, s: nat)
      requires Shaped() && s < Room(partitioned) && ctrl[Pos(key, partitioned, s)] == 0
      ensures !NoRoom(key)
    {
      hide Pos;
      assert !Taken(key, s);
    }

    /** The loop over single slots that follows the groups: it finds no slot to write to. */
    method LookAgain(key: u64) returns (found: bool)
      requires Valid() && NoRoom(key)
      ensures !found
    {
      found := false;
      var i: nat := Base(key, partitioned) + key % Room(partitioned);
      var n := 0;
      while n < Room(partitioned)
        invariant InRegion(key, partitioned, i) && !found
      {
        var s := PosCovers(key, partitioned, i);
        assert Taken(key, s);
        found := ctrl[i] == 0 || (ctrl[i] == Fp7(key) && keys[i] == key);
        i := NextSlot(key, partitioned, i);
        n := n + 1;
      }
    }
  }

  /** The slot after `i`, wrapping around inside the region. */
  function NextSlot(key: u64, partitioned: bool, i: nat): (j: nat)
    requires InRegion(key, partitioned, i)
    ensures InRegion(key, partitioned, j)
  {
    Base(key, partitioned) + (i + 1) % Room(partitioned)
  }
}
