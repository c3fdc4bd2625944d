/** All interleavings of the allocator's steps: conservation of blocks, batching and counting. */
module AllocatorProtocol {
  import opened Words
  import opened Ir
  import opened Allocator

  // ----- steps of the whole system -----

  function Classes(cfg: Config): nat {
    |cfg.size_classes|
  }

  function ShardOf(cfg: Config, k: nat): nat
    requires Classes(cfg) > 0
  {
    k / Classes(cfg)
  }

  function CellIndex(cfg: Config, shard: nat, class_index: nat): nat {
    shard * Classes(cfg) + class_index
  }

  lemma CellOfShard(cfg: Config, shard: nat, class_index: nat)
    requires class_index < Classes(cfg) && shard < cfg.shard_count
    ensures CellIndex(cfg, shard, class_index) < cfg.shard_count * Classes(cfg)
    ensures ShardOf(cfg, CellIndex(cfg, shard, class_index)) == shard
  {
    var n := Classes(cfg);
    MulMono(shard + 1, cfg.shard_count, n);
    assert (shard + 1) * n == shard * n + n;
    assert shard * n == n * shard;
    DivUnique(shard * n + class_index, n, shard, class_index);
  }

  /** The class an allocation of `size` bytes uses; a zero size counts as one byte. */
  predicate FitsClass(cfg: Config, size: nat, class_index: nat) {
    var wanted := if size == 0 then 1 else size;
    && class_index < |cfg.size_classes| && wanted <= cfg.size_classes[class_index]
    && forall i :: 0 <= i < class_index ==> cfg.size_classes[i] < wanted
  }

  ghost predicate BeginsAllocation(cfg: Config, s: State, s': State, t: nat, shard: nat, size: nat, class_index: nat)
    requires ConfigOk(cfg)
  {
    && t < |s.threads| && s.threads[t].Idle? && FitsClass(cfg, size, class_index)
    && s' == s.(threads := s.threads[t := SwapHot(CellIndex(cfg, shard % cfg.shard_count, class_index), false)])
  }

  ghost predicate BeginsDeallocation(cfg: Config, s: State, s': State, t: nat, shard: nat, b: Block)
    requires ConfigOk(cfg)
  {
    && t < |s.threads| && s.threads[t].Idle? && b in s.held
    && var k := s.held[b];
       var th := if shard % cfg.shard_count == ShardOf(cfg, k) then PushHot(k, b) else CountRemoteFree(k, b);
       s' == s.(threads := s.threads[t := th], held := s.held - {b})
  }

  ghost predicate Moves(cfg: Config, s: State, s': State, t: nat, obtained: Block)
    requires ConfigOk(cfg)
  {
    && t < |s.threads| && !s.threads[t].Idle?
    && var th := s.threads[t];
       && th.k < |s.cells| && ShardOf(cfg, th.k) < |s.stats|
       && (th.RawAlloc? ==> obtained !in s.system)
       && var step := Advance(cfg, t, th, s.cells[th.k], s.stats[ShardOf(cfg, th.k)], obtained);
          step.Some? && s' == After(cfg, s, t, th.k, step.value, if th.RawAlloc? then Some(obtained) else None)
  }

  function After(cfg: Config, s: State, t: nat, k: nat, r: Local, born: Option<Block>): State
    requires Classes(cfg) > 0 && t < |s.threads| && k < |s.cells| && ShardOf(cfg, k) < |s.stats|
  {
    State(s.cells[k := r.cell], s.stats[ShardOf(cfg, k) := r.stats], s.threads[t := r.thread],
      if r.given.Some? then s.held[r.given.value := k] else s.held,
      if born.Some? then s.system[born.value := k] else s.system)
  }

  ghost predicate Next(cfg: Config, s: State, s': State)
    requires ConfigOk(cfg)
  {
    || (exists t: nat, shard: nat, size: nat, class_index: nat ::
      BeginsAllocation(cfg, s, s', t, shard, size, class_index))
    || (exists t: nat, shard: nat, b: Block :: BeginsDeallocation(cfg, s, s', t, shard, b))
    || (exists t: nat, obtained: Block :: Moves(cfg, s, s', t, obtained))
  }

  ghost predicate Initial(cfg: Config, s: State) {
    && |s.cells| == cfg.shard_count * Classes(cfg) && |s.stats| == cfg.shard_count
    && (forall k :: 0 <= k < |s.cells| ==> s.cells[k] == Cell(None, [], [], None))
    && (forall i :: 0 <= i < |s.stats| ==> s.stats[i] == ShardStats(0, 0, 0, 0, 0, 0))
    && (forall t :: 0 <= t < |s.threads| ==> s.threads[t].Idle?)
    && s.held == map[] && s.system == map[]
  }

  ghost predicate IsRun(cfg: Config, run: seq<State>)
    requires ConfigOk(cfg)
  {
    |run| > 0 && Initial(cfg, run[0]) && forall i :: 0 <= i < |run| - 1 ==> Next(cfg, run[i], run[i + 1])
  }

  // ----- sums over cells and threads -----

  function InCells(cells: seq<Cell>, b: Block): nat {
    if cells == [] then 0 else InCells(cells[..|cells| - 1], b) + InCell(cells[|cells| - 1], b)
  }

  function InThreads(threads: seq<Thread>, b: Block): nat {
    if threads == [] then 0 else InThreads(threads[..|threads| - 1], b) + InThread(threads[|threads| - 1], b)
  }

  function PendingIn(cfg: Config, c: Cell, k: nat, shard: nat): nat
    requires Classes(cfg) > 0
  {
    if ShardOf(cfg, k) == shard then |c.remote| else 0
  }

  function Pending(cfg: Config, cells: seq<Cell>, shard: nat): nat
    requires Classes(cfg) > 0
  {
    if cells == [] then 0
    else Pending(cfg, cells[..|cells| - 1], shard) + PendingIn(cfg, cells[|cells| - 1], |cells| - 1, shard)
  }

  function DebtOf(cfg: Config, th: Thread, shard: nat): nat
    requires Classes(cfg) > 0
  {
    if !th.Idle? && ShardOf(cfg, th.k) == shard then Uncounted(th) else 0
  }

  function Debt(cfg: Config, threads: seq<Thread>, shard: nat): nat
    requires Classes(cfg) > 0
  {
    if threads == [] then 0 else Debt(cfg, threads[..|threads| - 1], shard) + DebtOf(cfg, threads[|threads| - 1], shard)
  }

  lemma {:induction false} InCellsUpdate(cells: seq<Cell>, k: nat, c: Cell, b: Block)
    requires k < |cells|
    ensures InCells(cells[k := c], b) + InCell(cells[k], b) == InCells(cells, b) + InCell(c, b)
  {
    hide InCell;
    var n := |cells| - 1;
    if k < n {
      InCellsUpdate(cells[..n], k, c, b);
      assert cells[k := c][..n] == cells[..n][k := c];
    } else {
      assert cells[k := c][..n] == cells[..n];
    }
  }

  lemma {:induction false} InThreadsUpdate(threads: seq<Thread>, t: nat, th: Thread, b: Block)
    requires t < |threads|
    ensures InThreads(threads[t := th], b) + InThread(threads[t], b) == InThreads(threads, b) + InThread(th, b)
  {
    hide InThread;
    var n := |threads| - 1;
    if t < n {
      InThreadsUpdate(threads[..n], t, th, b);
      assert threads[t := th][..n] == threads[..n][t := th];
    } else {
      assert threads[t := th][..n] == threads[..n];
    }
  }

  lemma {:induction false} PendingUpdate(cfg: Config, cells: seq<Cell>, k: nat, c: Cell, shard: nat)
    requires Classes(cfg) > 0 && k < |cells|
    ensures Pending(cfg, cells[k := c], shard) + PendingIn(cfg, cells[k], k, shard)
      == Pending(cfg, cells, shard) + PendingIn(cfg, c, k, shard)
  {
    hide PendingIn;
    var n := |cells| - 1;
    if k < n {
      PendingUpdate(cfg, cells[..n], k, c, shard);
      assert cells[k := c][..n] == cells[..n][k := c];
    } else {
      assert cells[k := c][..n] == cells[..n];
    }
  }

  lemma {:induction false} DebtUpdate(cfg: Config, threads: seq<Thread>, t: nat, th: Thread, shard: nat)
    requires Classes(cfg) > 0 && t < |threads|
    ensures Debt(cfg, threads[t := th], shard) + DebtOf(cfg, threads[t], shard)
      == Debt(cfg, threads, shard) + DebtOf(cfg, th, shard)
  {
    hide DebtOf;
    var n := |threads| - 1;
    if t < n {
      DebtUpdate(cfg, threads[..n], t, th, shard);
      assert threads[t := th][..n] == threads[..n][t := th];
    } else {
      assert threads[t := th][..n] == threads[..n];
    }
  }

  // ----- the invariant -----

  /** In how many places a block is: with a client, in a list, or in the hands of a thread. */
  function Places(s: State, b: Block): nat {
    (if b in s.held then 1 else 0) + InCells(s.cells, b) + InThreads(s.threads, b)
  }

  ghost predicate Shaped(cfg: Config, s: State) {
    && |s.cells| == cfg.shard_count * Classes(cfg) && |s.stats| == cfg.shard_count
    && (forall t :: 0 <= t < |s.threads| && !s.threads[t].Idle? ==> s.threads[t].k < |s.cells|)
    && (forall b :: b in s.held ==> s.held[b] < |s.cells|)
  }

  /** Every block the system has given is in exactly one place, and no other block is anywhere. */
  ghost predicate Conserved(s: State) {
    forall b: Block :: Places(s, b) == if b in s.system then 1 else 0
  }

  /** Every block stays with the shard and the class it was obtained for. */
  ghost predicate AtHome(s: State) {
    && (forall b :: b in s.held ==> b in s.system && s.system[b] == s.held[b])
    && (forall k: nat :: k < |s.cells| ==> CellHome(s, k))
    && (forall t: nat :: t < |s.threads| ==> ThreadHome(s, t))
  }

  ghost predicate CellHome(s: State, k: nat)
    requires k < |s.cells|
  {
    forall b: Block :: InCell(s.cells[k], b) > 0 ==> b in s.system && s.system[b] == k
  }

  ghost predicate ThreadHome(s: State, t: nat)
    requires t < |s.threads|
  {
    forall b: Block :: InThread(s.threads[t], b) > 0 ==>
      b in s.system && !s.threads[t].Idle? && s.system[b] == s.threads[t].k
  }

  predicate Holds(s: State, t: nat, k: nat) {
    t < |s.threads| && HoldsRemoteLock(s.threads[t]) && s.threads[t].k == k
  }

  /** The remote mutexes work, and an unlocked remote list is shorter than a batch. */
  ghost predicate Locked(cfg: Config, s: State) {
    && (forall k: nat, t: nat :: k < |s.cells| ==> (s.cells[k].remote_lock == Some(t) <==> Holds(s, t, k)))
    && (forall k: nat :: k < |s.cells| ==> CellBound(cfg, s, k))
  }

  ghost predicate CellBound(cfg: Config, s: State, k: nat)
    requires k < |s.cells|
  {
    match s.cells[k].remote_lock
    case None => |s.cells[k].remote| < cfg.remote_batch_size
    case Some(t) => t < |s.threads| && RemoteBound(cfg, s.cells[k], s.threads[t])
  }

  ghost predicate Counted(cfg: Config, s: State)
    requires Classes(cfg) > 0
  {
    forall i: nat :: i < |s.stats| ==> ShardCounted(cfg, s, i)
  }

  ghost predicate ShardCounted(cfg: Config, s: State, i: nat)
    requires Classes(cfg) > 0 && i < |s.stats|
  {
    s.stats[i].remote_frees == s.stats[i].remote_flushed_blocks + Pending(cfg, s.cells, i) + Debt(cfg, s.threads, i)
  }

  ghost predicate Valid(cfg: Config, s: State)
    requires ConfigOk(cfg)
  {
    Shaped(cfg, s) && Conserved(s) && AtHome(s) && Locked(cfg, s) && Counted(cfg, s)
  }

  // ----- a thread moves -----

  /** The step of thread `t`, taken apart. */
  ghost predicate MovesBy(cfg: Config, s: State, s': State, t: nat, obtained: Block, k: nat, r: Local)
    requires ConfigOk(cfg)
  {
    && t < |s.threads| && !s.threads[t].Idle? && k == s.threads[t].k
    && k < |s.cells| && ShardOf(cfg, k) < |s.stats|
    && (s.threads[t].RawAlloc? ==> obtained !in s.system)
    && Advance(cfg, t, s.threads[t], s.cells[k], s.stats[ShardOf(cfg, k)], obtained) == Some(r)
    && s' == After(cfg, s, t, k, r, if s.threads[t].RawAlloc? then Some(obtained) else None)
  }

  lemma {:induction false} AtLeastThread(threads: seq<Thread>, t: nat, b: Block)
    requires t < |threads|
    ensures InThreads(threads, b) >= InThread(threads[t], b)
  {
    InThreadsUpdate(threads, t, Idle, b);
  }

  lemma MoveConserves(cfg: Config, s: State, s': State, t: nat, obtained: Block, k: nat, r: Local)
    requires ConfigOk(cfg) && Conserved(s) && MovesBy(cfg, s, s', t, obtained, k, r)
    ensures Conserved(s')
  {
    var th, c := s.threads[t], s.cells[k];
    forall b: Block
      ensures Places(s', b) == if b in s'.system then 1 else 0
    {
      AdvanceConserves(cfg, t, th, c, s.stats[ShardOf(cfg, k)], obtained, b);
      GivenWasHere(cfg, t, th, c, s.stats[ShardOf(cfg, k)], obtained);
      hide Advance;
      hide InThread;
      hide InCell;
      InCellsUpdate(s.cells, k, r.cell, b);
      InThreadsUpdate(s.threads, t, r.thread, b);
      AtLeastThread(s.threads, t, b);
      assert Places(s, b) == if b in s.system then 1 else 0;
    }
  }

  /** A block is given to a client by the thread that has it. */
  lemma GivenWasHere(cfg: Config, t: nat, th: Thread, c: Cell, st: ShardStats, obtained: Block)
    requires !th.Idle? && Advance(cfg, t, th, c, st, obtained).Some?
    ensures var r := Advance(cfg, t, th, c, st, obtained).value;
      r.given.Some? ==> InThread(th, r.given.value) == 1 && !th.RawAlloc?
  {}

  lemma MoveHome(cfg: Config, s: State, s': State, t: nat, obtained: Block, k: nat, r: Local)
    requires ConfigOk(cfg) && AtHome(s) && MovesBy(cfg, s, s', t, obtained, k, r)
    ensures AtHome(s')
  {
    SameCell(cfg, t, s.threads[t], s.cells[k], s.stats[ShardOf(cfg, k)], obtained);
    forall b: Block | InCell(r.cell, b) > 0 || InThread(r.thread, b) > 0 || r.given == Some(b)
      ensures b in s'.system && s'.system[b] == k
    {
      HereBefore(cfg, s, s', t, obtained, k, r, b);
    }
    hide Advance;
    hide InThread;
    hide InCell;
    assert forall b :: b in s.system ==> b in s'.system && s'.system[b] == s.system[b];
    forall j: nat | j < |s'.cells|
      ensures CellHome(s', j)
    {
      assert j != k ==> CellHome(s, j);
    }
    forall j: nat | j < |s'.threads|
      ensures ThreadHome(s', j)
    {
      assert j != t ==> ThreadHome(s, j);
    }
  }

  /** What the step leaves in the cell, with the thread or with the client belongs to the cell. */
  lemma HereBefore(cfg: Config, s: State, s': State, t: nat, obtained: Block, k: nat, r: Local, b: Block)
    requires ConfigOk(cfg) && AtHome(s) && MovesBy(cfg, s, s', t, obtained, k, r)
    requires InCell(r.cell, b) > 0 || InThread(r.thread, b) > 0 || r.given == Some(b)
    ensures b in s'.system && s'.system[b] == k
  {
    AdvanceConserves(cfg, t, s.threads[t], s.cells[k], s.stats[ShardOf(cfg, k)], obtained, b);
    hide Advance;
    hide InThread;
    hide InCell;
    assert CellHome(s, k) && ThreadHome(s, t);
  }

  lemma SameCell(cfg: Config, t: nat, th: Thread, c: Cell, st: ShardStats, obtained: Block)
    requires !th.Idle? && Advance(cfg, t, th, c, st, obtained).Some?
    ensures var r := Advance(cfg, t, th, c, st, obtained).value;
      (r.thread.Idle? || r.thread.k == th.k) && (r.thread.Idle? ==> forall b: Block :: InThread(r.thread, b) == 0)
  {}

  lemma MoveShaped(cfg: Config, s: State, s': State, t: nat, obtained: Block, k: nat, r: Local)
    requires ConfigOk(cfg) && Shaped(cfg, s) && MovesBy(cfg, s, s', t, obtained, k, r)
    ensures Shaped(cfg, s')
  {
    SameCell(cfg, t, s.threads[t], s.cells[k], s.stats[ShardOf(cfg, k)], obtained);
    hide Advance;
    hide InThread;
  }

  lemma MoveLocked(cfg: Config, s: State, s': State, t: nat, obtained: Block, k: nat, r: Local)
    requires ConfigOk(cfg) && Locked(cfg, s) && MovesBy(cfg, s, s', t, obtained, k, r)
    ensures Locked(cfg, s')
  {
    var th, c := s.threads[t], s.cells[k];
    assert c.remote_lock == Some(t) <==> HoldsRemoteLock(th);
    AdvanceBounds(cfg, t, th, c, s.stats[ShardOf(cfg, k)], obtained);
    assert CellBound(cfg, s, k);
    hide Advance;
    hide RemoteBound;
    hide HoldsRemoteLock;
    assert CellBound(cfg, s', k) by {
      MoveBound(cfg, s, s', t, obtained, k, r);
    }
    forall j: nat | j < |s'.cells|
      ensures CellBound(cfg, s', j)
    {
      if j != k {
        assert CellBound(cfg, s, j);
      }
    }
  }

  lemma MoveBound(cfg: Config, s: State, s': State, t: nat, obtained: Block, k: nat, r: Local)
    requires ConfigOk(cfg) && Locked(cfg, s) && MovesBy(cfg, s, s', t, obtained, k, r)
    ensures CellBound(cfg, s', k)
  {
    var th, c := s.threads[t], s.cells[k];
    assert c.remote_lock == Some(t) <==> Holds(s, t, k);
    assert CellBound(cfg, s, k);
    AdvanceBounds(cfg, t, th, c, s.stats[ShardOf(cfg, k)], obtained);
    JustLocked(cfg, t, th, c, s.stats[ShardOf(cfg, k)], obtained);
    hide Advance;
  }

  /** A thread that has just locked the list has not changed it; one that unlocks leaves less than a batch. */
  lemma JustLocked(cfg: Config, t: nat, th: Thread, c: Cell, st: ShardStats, obtained: Block)
    requires cfg.remote_batch_size > 0 && !th.Idle? && Advance(cfg, t, th, c, st, obtained).Some?
    ensures var r := Advance(cfg, t, th, c, st, obtained).value;
      && (!HoldsRemoteLock(th) && HoldsRemoteLock(r.thread) ==> r.thread.CheckRemote? || r.thread.PushRemote?)
      && (HoldsRemoteLock(th) && RemoteBound(cfg, c, th) && !HoldsRemoteLock(r.thread) ==>
        |r.cell.remote| < cfg.remote_batch_size)
      && (!HoldsRemoteLock(th) && !HoldsRemoteLock(r.thread) ==>
        r.cell.remote_lock == c.remote_lock && r.cell.remote == c.remote)
  {}

  lemma MoveCounted(cfg: Config, s: State, s': State, t: nat, obtained: Block, k: nat, r: Local)
    requires ConfigOk(cfg) && Counted(cfg, s) && MovesBy(cfg, s, s', t, obtained, k, r)
    ensures Counted(cfg, s')
  {
    var th, c := s.threads[t], s.cells[k];
    var home := ShardOf(cfg, k);
    AdvanceCounts(cfg, t, th, c, s.stats[home], obtained);
    SameCell(cfg, t, th, c, s.stats[home], obtained);
    hide Advance;
    hide Uncounted;
    hide ShardOf;
    IdleUncounted();
    forall i: nat | i < |s'.stats|
      ensures ShardCounted(cfg, s', i)
    {
      assert ShardCounted(cfg, s, i);
      PendingUpdate(cfg, s.cells, k, r.cell, i);
      DebtUpdate(cfg, s.threads, t, r.thread, i);
    }
  }

  lemma IdleUncounted()
    ensures Uncounted(Idle) == 0
  {}

  lemma MoveValid(cfg: Config, s: State, s': State, t: nat, obtained: Block)
    requires ConfigOk(cfg) && Valid(cfg, s) && Moves(cfg, s, s', t, obtained)
    ensures Valid(cfg, s')
  {
    var k := s.threads[t].k;
    var r := Advance(cfg, t, s.threads[t], s.cells[k], s.stats[ShardOf(cfg, k)], obtained).value;
    assert MovesBy(cfg, s, s', t, obtained, k, r);
    hide MovesBy;
    hide Moves;
    hide Conserved;
    hide AtHome;
    hide Locked;
    hide Counted;
    hide Shaped;
    MoveShaped(cfg, s, s', t, obtained, k, r);
    MoveConserves(cfg, s, s', t, obtained, k, r);
    MoveHome(cfg, s, s', t, obtained, k, r);
    MoveLocked(cfg, s, s', t, obtained, k, r);
    MoveCounted(cfg, s, s', t, obtained, k, r);
  }

  // ----- clients begin operations -----

  lemma BeginAllocationValid(cfg: Config, s: State, s': State, t: nat, shard: nat, size: nat, class_index: nat)
    requires ConfigOk(cfg) && Valid(cfg, s) && BeginsAllocation(cfg, s, s', t, shard, size, class_index)
    ensures Valid(cfg, s')
  {
    var th := s'.threads[t];
    CellOfShard(cfg, shard % cfg.shard_count, class_index);
    hide CellIndex;
    NewThread(cfg, s, s', t);
    forall b: Block
      ensures Places(s', b) == Places(s, b)
    {
      InThreadsUpdate(s.threads, t, th, b);
    }
    assert Conserved(s') by {
      assert forall b: Block :: Places(s, b) == if b in s.system then 1 else 0;
    }
    hide Conserved;
    assert AtHome(s') by {
      forall j: nat | j < |s'.threads|
        ensures ThreadHome(s', j)
      {
        assert j != t ==> ThreadHome(s, j);
      }
      forall j: nat | j < |s'.cells|
        ensures CellHome(s', j)
      {
        assert CellHome(s, j);
      }
    }
  }

  /** A thread that starts something holds no lock and owes nothing. */
  lemma NewThread(cfg: Config, s: State, s': State, t: nat)
    requires ConfigOk(cfg) && Locked(cfg, s) && Counted(cfg, s) && t < |s.threads| && s.threads[t].Idle?
    requires s'.cells == s.cells && s'.stats == s.stats && |s'.threads| == |s.threads|
    requires s'.threads == s.threads[t := s'.threads[t]] && !HoldsRemoteLock(s'.threads[t])
      && Uncounted(s'.threads[t]) == 0
    ensures Locked(cfg, s') && Counted(cfg, s')
  {
    var th := s'.threads[t];
    assert !HoldsRemoteLock(s.threads[t]) && Uncounted(s.threads[t]) == 0;
    hide HoldsRemoteLock;
    hide Uncounted;
    hide RemoteBound;
    forall k: nat | k < |s'.cells|
      ensures CellBound(cfg, s', k)
    {
      assert CellBound(cfg, s, k);
      assert s.cells[k].remote_lock == Some(t) <==> Holds(s, t, k);
    }
    forall i: nat | i < |s'.stats|
      ensures ShardCounted(cfg, s', i)
    {
      assert ShardCounted(cfg, s, i);
      DebtUpdate(cfg, s.threads, t, th, i);
    }
  }

  lemma BeginDeallocationValid(cfg: Config, s: State, s': State, t: nat, shard: nat, b: Block)
    requires ConfigOk(cfg) && Valid(cfg, s) && BeginsDeallocation(cfg, s, s', t, shard, b)
    ensures Valid(cfg, s')
  {
    var th := s'.threads[t];
    NewThread(cfg, s, s', t);
    hide Locked;
    hide Counted;
    forall x: Block
      ensures Places(s', x) == Places(s, x)
    {
      InThreadsUpdate(s.threads, t, th, x);
    }
    assert Conserved(s') by {
      assert forall x: Block :: Places(s, x) == if x in s.system then 1 else 0;
    }
    hide Conserved;
    hide Places;
    assert AtHome(s') by {
      forall j: nat | j < |s'.threads|
        ensures ThreadHome(s', j)
      {
        assert j != t ==> ThreadHome(s, j);
      }
      forall j: nat | j < |s'.cells|
        ensures CellHome(s', j)
      {
        assert CellHome(s, j);
      }
    }
  }

  // ----- every run -----

  lemma {:induction false} InitialSums(cfg: Config, cells: seq<Cell>, threads: seq<Thread>, b: Block, shard: nat)
    requires Classes(cfg) > 0
    requires forall k :: 0 <= k < |cells| ==> cells[k] == Cell(None, [], [], None)
    requires forall t :: 0 <= t < |threads| ==> threads[t].Idle?
    ensures InCells(cells, b) == 0 && Pending(cfg, cells, shard) == 0 && InThreads(threads, b) == 0
      && Debt(cfg, threads, shard) == 0
    decreases |cells| + |threads|
  {
    hide ShardOf;
    if cells != [] {
      InitialSums(cfg, cells[..|cells| - 1], threads, b, shard);
    } else if threads != [] {
      InitialSums(cfg, cells, threads[..|threads| - 1], b, shard);
    }
  }

  lemma InitialValid(cfg: Config, s: State)
    requires ConfigOk(cfg) && Initial(cfg, s)
    ensures Valid(cfg, s)
  {
    forall b: Block
      ensures Places(s, b) == 0
    {
      InitialSums(cfg, s.cells, s.threads, b, 0);
    }
    forall i: nat | i < |s.stats|
      ensures ShardCounted(cfg, s, i)
    {
      InitialSums(cfg, s.cells, s.threads, 0, i);
    }
    forall k: nat | k < |s.cells|
      ensures CellBound(cfg, s, k) && CellHome(s, k)
    {}
  }

  lemma NextValid(cfg: Config, s: State, s': State)
    requires ConfigOk(cfg) && Valid(cfg, s) && Next(cfg, s, s')
    ensures Valid(cfg, s')
  {
    hide Valid;
    hide BeginsAllocation;
    hide BeginsDeallocation;
    hide Moves;
    if t: nat, shard: nat, size: nat, class_index: nat :| BeginsAllocation(cfg, s, s', t, shard, size, class_index) {
      BeginAllocationValid(cfg, s, s', t, shard, size, class_index);
    } else if t: nat, shard: nat, b: Block :| BeginsDeallocation(cfg, s, s', t, shard, b) {
      BeginDeallocationValid(cfg, s, s', t, shard, b);
    } else {
      var t: nat, obtained: Block :| Moves(cfg, s, s', t, obtained);
      MoveValid(cfg, s, s', t, obtained);
    }
  }

  /** Under every interleaving: each block is in exactly one place and stays with its cell, each unlocked
      remote list is shorter than a batch, and the counters add up. */
  lemma {:induction false} RunsAreValid(cfg: Config, run: seq<State>)
    requires ConfigOk(cfg) && IsRun(cfg, run)
    ensures Valid(cfg, run[|run| - 1])
  {
    hide Valid;
    hide Next;
    hide Initial;
    if |run| == 1 {
      InitialValid(cfg, run[0]);
    } else {
      var before := run[..|run| - 1];
      assert IsRun(cfg, before);
      RunsAreValid(cfg, before);
      assert Next(cfg, run[|run| - 2], run[|run| - 2 + 1]);
      NextValid(cfg, run[|run| - 2], run[|run| - 1]);
    }
  }

  // ----- what the invariant means -----

  /** A block handed to a client is not with any client at that moment. */
  lemma NeverHandedOutTwice(cfg: Config, s: State, s': State, t: nat, obtained: Block, b: Block)
    requires ConfigOk(cfg) && Valid(cfg, s) && Moves(cfg, s, s', t, obtained) && b in s'.held
    ensures (b in s.held && s.held[b] == s'.held[b]) || (b !in s.held && InThread(s.threads[t], b) == 1)
  {
    var k := s.threads[t].k;
    GivenWasHere(cfg, t, s.threads[t], s.cells[k], s.stats[ShardOf(cfg, k)], obtained);
    hide Advance;
    hide InThread;
    AtLeastThread(s.threads, t, b);
    assert Places(s, b) == if b in s.system then 1 else 0;
  }

  ghost predicate Quiescent(s: State) {
    forall t :: 0 <= t < |s.threads| ==> s.threads[t].Idle?
  }

  lemma {:induction false} NoDebt(cfg: Config, threads: seq<Thread>, shard: nat)
    requires Classes(cfg) > 0 && forall t :: 0 <= t < |threads| ==> threads[t].Idle?
    ensures Debt(cfg, threads, shard) == 0 && forall b: Block :: InThreads(threads, b) == 0
  {
    hide ShardOf;
    if threads != [] {
      NoDebt(cfg, threads[..|threads| - 1], shard);
    }
  }

  /** When all threads are done, every block freed remotely has been flushed or is still waiting in a
      remote list that is shorter than a batch. */
  lemma QuiescentCounts(cfg: Config, run: seq<State>, shard: nat)
    requires ConfigOk(cfg) && IsRun(cfg, run) && Quiescent(run[|run| - 1]) && shard < cfg.shard_count
    ensures var s := run[|run| - 1];
      && |s.stats| == cfg.shard_count
      && s.stats[shard].remote_frees == s.stats[shard].remote_flushed_blocks + Pending(cfg, s.cells, shard)
      && forall k :: 0 <= k < |s.cells| ==> s.cells[k].remote_lock.None? && |s.cells[k].remote| < cfg.remote_batch_size
  {
    var s := run[|run| - 1];
    RunsAreValid(cfg, run);
    hide IsRun;
    NoDebt(cfg, s.threads, shard);
    assert ShardCounted(cfg, s, shard);
    forall k: nat | k < |s.cells|
      ensures s.cells[k].remote_lock.None? && |s.cells[k].remote| < cfg.remote_batch_size
    {
      assert CellBound(cfg, s, k);
      forall t: nat
        ensures s.cells[k].remote_lock != Some(t)
      {
        assert !Holds(s, t, k);
      }
    }
  }

  /** When all threads are done, each block the system ever gave is in the lists exactly once, unless a client
      still holds it. */
  lemma ListsHoldOnce(cfg: Config, run: seq<State>, b: Block)
    requires ConfigOk(cfg) && IsRun(cfg, run) && Quiescent(run[|run| - 1])
    ensures var s := run[|run| - 1];
      InCells(s.cells, b) == if b in s.system && b !in s.held then 1 else 0
  {
    var s := run[|run| - 1];
    RunsAreValid(cfg, run);
    hide IsRun;
    NoDebt(cfg, s.threads, 0);
    assert Places(s, b) == if b in s.system then 1 else 0;
  }

  // ----- dropping the allocator -----

  /** A block given back to the system with the layout of a class. */
  datatype Release = Release(block: Block, class_index: nat)

  function Times(released: seq<Release>, b: Block): nat {
    if released == [] then 0
    else Times(released[..|released| - 1], b) + (if released[|released| - 1].block == b then 1 else 0)
  }

  lemma {:induction false} TimesAppend(a: seq<Release>, c: seq<Release>, b: Block)
    ensures Times(a + c, b) == Times(a, b) + Times(c, b)
  {
    if c == [] {
      assert a + c == a;
    } else {
      assert (a + c)[..|a + c| - 1] == a + c[..|c| - 1];
      TimesAppend(a, c[..|c| - 1], b);
    }
  }

  /** All releases are of class `class_index`, and of the blocks that `count` counts. */
  ghost predicate Released(released: seq<Release>, class_index: nat, count: Block -> nat) {
    && (forall k :: 0 <= k < |released| ==> released[k].class_index == class_index)
    && (forall b: Block :: Times(released, b) == count(b))
  }

  method Drain(list: seq<Block>, class_index: nat) returns (released: seq<Release>)
    ensures Released(released, class_index, b => Occurs(list, b))
  {
    released := [];
    for i := 0 to |list|
      invariant Released(released, class_index, b => Occurs(list[..i], b))
    {
      assert list[..i + 1] == list[..i] + [list[i]];
      ghost var more := released + [Release(list[i], class_index)];
      assert more[..|more| - 1] == released;
      forall b: Block
        ensures Times(more, b) == Occurs(list[..i + 1], b)
      {
        assert Times(released, b) == Occurs(list[..i], b);
      }
      released := released + [Release(list[i], class_index)];
    }
    assert list[..|list|] == list;
  }

  /** The hot slot, the local list and the remote list of one cell, in that order. */
  method DropCell(c: Cell, class_index: nat) returns (released: seq<Release>)
    ensures Released(released, class_index, b => InCell(c, b))
  {
    released := [];
    if c.hot.Some? {
      released := [Release(c.hot.value, class_index)];
    }
    var locals := Drain(c.local, class_index);
    var remotes := Drain(c.remote, class_index);
    forall b: Block
      ensures Times(released + locals + remotes, b) == Times(released, b) + Times(locals, b) + Times(remotes, b)
    {
      TimesAppend(released, locals, b);
      TimesAppend(released + locals, remotes, b);
    }
    hide Occurs;
    released := released + locals + remotes;
  }

  ghost predicate FromCells(cfg: Config, cells: seq<Cell>, n: nat, released: seq<Release>)
    requires Classes(cfg) > 0 && n <= |cells|
  {
    && (forall b: Block :: Times(released, b) == InCells(cells[..n], b))
    && (forall r: Release :: r in released ==> FromCell(cfg, cells, n, r))
  }

  /** The block comes from a list of the class it is given back with. */
  ghost predicate FromCell(cfg: Config, cells: seq<Cell>, n: nat, r: Release)
    requires Classes(cfg) > 0 && n <= |cells|
  {
    exists k: nat :: k < n && InCell(cells[k], r.block) > 0 && k % Classes(cfg) == r.class_index
  }

  /** `Drop`: shard by shard and class by class, every list is given back and left empty. */
  method Drop(cfg: Config, cells: seq<Cell>) returns (released: seq<Release>, emptied: seq<Cell>)
    requires ConfigOk(cfg) && |cells| == cfg.shard_count * Classes(cfg)
    ensures FromCells(cfg, cells, |cells|, released)
    ensures |emptied| == |cells| && forall k :: 0 <= k < |cells| ==>
      emptied[k] == Cell(None, [], [], cells[k].remote_lock)
  {
    released, emptied := [], [];
    assert cells[..0] == [];
    for shard := 0 to cfg.shard_count
      invariant |emptied| == CellIndex(cfg, shard, 0) <= |cells| && FromCells(cfg, cells, |emptied|, released)
      invariant forall k :: 0 <= k < |emptied| ==> emptied[k] == Cell(None, [], [], cells[k].remote_lock)
    {
      CellOfShard(cfg, shard, Classes(cfg) - 1);
      for class_index := 0 to Classes(cfg)
        invariant |emptied| == CellIndex(cfg, shard, class_index) <= |cells|
          && FromCells(cfg, cells, |emptied|, released)
        invariant forall k :: 0 <= k < |emptied| ==> emptied[k] == Cell(None, [], [], cells[k].remote_lock)
      {
        var k := CellIndex(cfg, shard, class_index);
        hide FromCells;
        var more := DropCell(cells[k], class_index);
        ClassOfCell(cfg, shard, class_index);
        OneMoreCell(cfg, cells, k, released, more, class_index);
        hide Released;
        released := released + more;
        emptied := emptied + [Cell(None, [], [], cells[k].remote_lock)];
      }
      NextShard(cfg, shard);
    }
    assert cells[..|cells|] == cells;
  }

  lemma NextShard(cfg: Config, shard: nat)
    ensures CellIndex(cfg, shard, Classes(cfg)) == CellIndex(cfg, shard + 1, 0)
  {}

  lemma ClassOfCell(cfg: Config, shard: nat, class_index: nat)
    requires class_index < Classes(cfg)
    ensures CellIndex(cfg, shard, class_index) % Classes(cfg) == class_index
  {
    DivUnique(CellIndex(cfg, shard, class_index), Classes(cfg), shard, class_index);
  }

  lemma OneMoreCell(cfg: Config, cells: seq<Cell>, k: nat, released: seq<Release>, more: seq<Release>, class_index: nat)
    requires Classes(cfg) > 0 && k < |cells| && FromCells(cfg, cells, k, released)
    requires Released(more, class_index, b => InCell(cells[k], b)) && k % Classes(cfg) == class_index
    ensures FromCells(cfg, cells, k + 1, released + more)
  {
    assert cells[..k + 1][..k] == cells[..k];
    forall b: Block
      ensures Times(released + more, b) == InCells(cells[..k + 1], b)
    {
      TimesAppend(released, more, b);
    }
    forall r: Release | r in released + more
      ensures FromCell(cfg, cells, k + 1, r)
    {
      if r in released {
        var j: nat :| j < k && InCell(cells[j], r.block) > 0 && j % Classes(cfg) == r.class_index;
      } else {
        ReleasedIsListed(more, r);
        assert InCell(cells[k], r.block) > 0;
      }
    }
  }

  lemma {:induction false} ReleasedIsListed(released: seq<Release>, r: Release)
    requires r in released
    ensures Times(released, r.block) > 0
  {
    var front := released[..|released| - 1];
    if r in front {
      ReleasedIsListed(front, r);
    }
  }

  /** Dropping the allocator when all threads are done gives every block that the system ever gave back
      exactly once, with the class of the cell it was allocated for, unless a client still holds it. */
  lemma DropFreesOnce(cfg: Config, run: seq<State>, released: seq<Release>, b: Block)
    requires ConfigOk(cfg) && IsRun(cfg, run) && Quiescent(run[|run| - 1])
    requires FromCells(cfg, run[|run| - 1].cells, |run[|run| - 1].cells|, released)
    ensures var s := run[|run| - 1];
      Times(released, b) == if b in s.system && b !in s.held then 1 else 0
    ensures var s := run[|run| - 1];
      forall r: Release :: r in released ==> r.block in s.system && r.class_index == s.system[r.block] % Classes(cfg)
  {
    var s := run[|run| - 1];
    ListsHoldOnce(cfg, run, b);
    RunsAreValid(cfg, run);
    hide IsRun;
    assert s.cells[..|s.cells|] == s.cells;
    ReleasedAtHome(cfg, s, released);
    hide AtHome;
    hide Locked;
    hide Counted;
    hide Conserved;
  }

  lemma ReleasedAtHome(cfg: Config, s: State, released: seq<Release>)
    requires Classes(cfg) > 0 && AtHome(s) && FromCells(cfg, s.cells, |s.cells|, released)
    ensures forall r: Release :: r in released ==>
      r.block in s.system && r.class_index == s.system[r.block] % Classes(cfg)
  {
    hide InCell;
    forall r: Release | r in released
      ensures r.block in s.system && r.class_index == s.system[r.block] % Classes(cfg)
    {
      assert FromCell(cfg, s.cells, |s.cells|, r);
      var k: nat :| k < |s.cells| && InCell(s.cells[k], r.block) > 0 && k % Classes(cfg) == r.class_index;
      assert CellHome(s, k);
    }
  }
}
