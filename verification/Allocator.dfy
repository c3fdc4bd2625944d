/** The sharded allocator as a protocol: every lock operation and every atomic operation is one step, and
    the steps of all threads may interleave in any order. */
module Allocator {
  import opened Words
  import opened Ir

  type Block = nat

  datatype Config = Config(shard_count: nat, size_classes: seq<nat>, remote_batch_size: nat)

  ghost predicate Ascending(classes: seq<nat>) {
    forall i, j :: 0 <= i < j < |classes| ==> classes[i] < classes[j]
  }

  /** What `ShardedAllocator::new` makes sure of. */
  ghost predicate ConfigOk(cfg: Config) {
    && cfg.shard_count > 0 && cfg.remote_batch_size > 0
    && cfg.size_classes != [] && cfg.size_classes[0] > 0 && Ascending(cfg.size_classes)
  }

  /** `size_class_index`: the first class that is large enough, found by bisection. */
  method SizeClassIndex(classes: seq<nat>, size: nat) returns (r: Option<nat>)
    requires Ascending(classes)
    ensures r.Some? ==> r.value < |classes| && size <= classes[r.value] && forall i :: 0 <= i < r.value ==>
      classes[i] < size
    ensures r.None? ==> forall i :: 0 <= i < |classes| ==> classes[i] < size
  {
    var lo, hi := 0, |classes|;
    while lo < hi
      invariant 0 <= lo <= hi <= |classes|
      invariant forall i :: 0 <= i < lo ==> classes[i] < size
      invariant forall i :: hi <= i < |classes| ==> size <= classes[i]
    {
      var mid := (lo + hi) / 2;
      if classes[mid] < size {
        lo := mid + 1;
      } else {
        hi := mid;
      }
    }
    r := if lo < |classes| then Some(lo) else None;
  }

  // ----- state -----

  datatype ShardStats = ShardStats(fresh_allocs: nat, local_reuses: nat, remote_reuses: nat, remote_frees: nat,
      remote_flushes: nat, remote_flushed_blocks: nat)

  /** The free lists of one size class of one shard.  `remote_lock` is the thread inside the remote mutex;
      every use of the local mutex is a single push, pop or extend and so a single step. */
  datatype Cell = Cell(hot: Option<Block>, local: seq<Block>, remote: seq<Block>, remote_lock: Option<nat>)

  /** Where a thread is.  `k` is the number of the cell it works on; `reuse` tells whether a flush belongs
      to an allocation, which then looks at the local list again. */
  datatype Thread =
    | Idle
    | SwapHot(k: nat, again: bool)
    | PopLocal(k: nat, again: bool)
    | LockRemote(k: nat)
    | CheckRemote(k: nat)
    | UnlockDrained(k: nat, batch: seq<Block>, reuse: bool)
    | ExtendLocal(k: nat, batch: seq<Block>, reuse: bool)
    | CountFlush(k: nat, moved: nat, reuse: bool)
    | CountFlushed(k: nat, moved: nat, reuse: bool)
    | CountReuse(k: nat, block: Block, again: bool)
    | RawAlloc(k: nat)
    | CountFresh(k: nat, block: Block)
    | PushHot(k: nat, block: Block)
    | PushLocal(k: nat, block: Block)
    | CountRemoteFree(k: nat, block: Block)
    | LockForPush(k: nat, block: Block)
    | PushRemote(k: nat, block: Block)
    | CheckBatch(k: nat)

  /** `held` maps every block a client holds to its cell; `system` are the blocks the operating system has
      given out for size classes. */
  datatype State = State(cells: seq<Cell>, stats: seq<ShardStats>, threads: seq<Thread>, held: map<Block, nat>,
      system: map<Block, nat>)

  function Occurs(s: seq<Block>, b: Block): nat {
    multiset(s)[b]
  }

  /** How often block `b` is in the hands of a thread: taken out of a list, or not yet put back. */
  function InThread(th: Thread, b: Block): nat {
    match th
    case CountReuse(_, x, _) => if x == b then 1 else 0
    case CountFresh(_, x) => if x == b then 1 else 0
    case PushHot(_, x) => if x == b then 1 else 0
    case PushLocal(_, x) => if x == b then 1 else 0
    case CountRemoteFree(_, x) => if x == b then 1 else 0
    case LockForPush(_, x) => if x == b then 1 else 0
    case PushRemote(_, x) => if x == b then 1 else 0
    case UnlockDrained(_, batch, _) => Occurs(batch, b)
    case ExtendLocal(_, batch, _) => Occurs(batch, b)
    case _ => 0
  }

  /** How often block `b` is in the lists of a cell. */
  function InCell(c: Cell, b: Block): nat {
    (if c.hot == Some(b) then 1 else 0) + Occurs(c.local, b) + Occurs(c.remote, b)
  }

  predicate HoldsRemoteLock(th: Thread) {
    th.CheckRemote? || th.UnlockDrained? || th.PushRemote? || th.CheckBatch?
  }

  /** Blocks freed remotely according to the counters, but not yet counted as flushed by this thread. */
  function Uncounted(th: Thread): nat {
    match th
    case LockForPush(_, _) => 1
    case PushRemote(_, _) => 1
    case UnlockDrained(_, batch, _) => |batch|
    case ExtendLocal(_, batch, _) => |batch|
    case CountFlush(_, moved, _) => moved
    case CountFlushed(_, moved, _) => moved
    case _ => 0
  }

  // ----- one step of one thread -----

  /** A step changes the thread, its cell and the counters of its shard; it may hand a block to the client. */
  datatype Local = Local(thread: Thread, cell: Cell, stats: ShardStats, given: Option<Block>)

  function AfterFlush(k: nat, reuse: bool): Thread {
    if reuse then SwapHot(k, true) else Idle
  }

  /** The next step of thread `t`; `None` if it has to wait for the remote lock.  `obtained` is what the
      operating system returns if it is asked. */
  function Advance(cfg: Config, t: nat, th: Thread, c: Cell, st: ShardStats, obtained: Block): Option<Local>
    requires !th.Idle?
  {
    match th
    case SwapHot(k, again) =>
      (match c.hot
       case Some(b) => Some(Local(CountReuse(k, b, again), c.(hot := None), st, None))
       case None => Some(Local(PopLocal(k, again), c, st, None)))
    case PopLocal(k, again) =>
      if c.local != [] then
        Some(Local(CountReuse(k, c.local[|c.local| - 1], again), c.(local := c.local[..|c.local| - 1]), st, None))
      else Some(Local(if again then RawAlloc(k) else LockRemote(k), c, st, None))
    case LockRemote(k) =>
      if c.remote_lock.None? then Some(Local(CheckRemote(k), c.(remote_lock := Some(t)), st, None)) else None
    case CheckRemote(k) =>
      if c.remote == [] then Some(Local(RawAlloc(k), c.(remote_lock := None), st, None))
      else Some(Local(UnlockDrained(k, c.remote, true), c.(remote := []), st, None))
    case UnlockDrained(k, batch, reuse) => Some(Local(ExtendLocal(k, batch, reuse), c.(remote_lock := None), st, None))
    case ExtendLocal(k, batch, reuse) =>
      if batch == [] then Some(Local(AfterFlush(k, reuse), c, st, None))
      else Some(Local(CountFlush(k, |batch|, reuse), c.(local := c.local + batch), st, None))
    case CountFlush(k, moved, reuse) =>
      Some(Local(CountFlushed(k, moved, reuse), c, st.(remote_flushes := st.remote_flushes + 1), None))
    case CountFlushed(k, moved, reuse) =>
      Some(Local(AfterFlush(k, reuse), c, st.(remote_flushed_blocks := st.remote_flushed_blocks + moved), None))
    case CountReuse(k, b, again) =>
      Some(Local(Idle, c,
        if again then st.(remote_reuses := st.remote_reuses + 1) else st.(local_reuses := st.local_reuses + 1),
        Some(b)))
    case RawAlloc(k) => Some(Local(CountFresh(k, obtained), c, st, None))
    case CountFresh(k, b) => Some(Local(Idle, c, st.(fresh_allocs := st.fresh_allocs + 1), Some(b)))
    case PushHot(k, b) =>
      if c.hot.None? then Some(Local(Idle, c.(hot := Some(b)), st, None)) else Some(Local(PushLocal(k, b), c, st, None))
    case PushLocal(k, b) => Some(Local(Idle, c.(local := c.local + [b]), st, None))
    case CountRemoteFree(k, b) => Some(Local(LockForPush(k, b), c, st.(remote_frees := st.remote_frees + 1), None))
    case LockForPush(k, b) =>
      if c.remote_lock.None? then Some(Local(PushRemote(k, b), c.(remote_lock := Some(t)), st, None)) else None
    case PushRemote(k, b) => Some(Local(CheckBatch(k), c.(remote := c.remote + [b]), st, None))
    case CheckBatch(k) =>
      if |c.remote| < cfg.remote_batch_size then Some(Local(Idle, c.(remote_lock := None), st, None))
      else Some(Local(UnlockDrained(k, c.remote, false), c.(remote := []), st, None))
  }

  // ----- what one step keeps, seen from the thread -----

  function Given(r: Local, b: Block): nat {
    if r.given == Some(b) then 1 else 0
  }

  function Born(th: Thread, obtained: Block, b: Block): nat {
    if th.RawAlloc? && b == obtained then 1 else 0
  }

  /** No block is lost, and none appears that the operating system has not just given. */
  lemma AdvanceConserves(cfg: Config, t: nat, th: Thread, c: Cell, st: ShardStats, obtained: Block, b: Block)
    requires !th.Idle? && Advance(cfg, t, th, c, st, obtained).Some?
    ensures var r := Advance(cfg, t, th, c, st, obtained).value;
      InCell(r.cell, b) + InThread(r.thread, b) + Given(r, b) == InCell(c, b) + InThread(th, b) + Born(th, obtained, b)
  {
    match th {
      case PopLocal(_, _) => OccursLast(c.local, b);
      case PushLocal(_, x) => OccursAppend(c.local, [x], b);
      case PushRemote(_, x) => OccursAppend(c.remote, [x], b);
      case ExtendLocal(_, batch, _) => OccursAppend(c.local, batch, b);
      case _ =>
    }
    OccursOne(b);
    hide Occurs;
  }

  lemma OccursOne(b: Block)
    ensures Occurs([], b) == 0 && forall x: Block :: Occurs([x], b) == if x == b then 1 else 0
  {}

  lemma OccursAppend(s: seq<Block>, u: seq<Block>, b: Block)
    ensures Occurs(s + u, b) == Occurs(s, b) + Occurs(u, b)
  {}

  lemma OccursLast(s: seq<Block>, b: Block)
    ensures s != [] ==> Occurs(s, b) == Occurs(s[..|s| - 1], b) + (if s[|s| - 1] == b then 1 else 0)
  {
    if s != [] {
      assert s == s[..|s| - 1] + [s[|s| - 1]];
    }
  }

  /** The counters stay in step with the lists. */
  lemma AdvanceCounts(cfg: Config, t: nat, th: Thread, c: Cell, st: ShardStats, obtained: Block)
    requires !th.Idle? && Advance(cfg, t, th, c, st, obtained).Some?
    ensures var r := Advance(cfg, t, th, c, st, obtained).value;
      r.stats.remote_flushed_blocks + |r.cell.remote| + Uncounted(r.thread) + st.remote_frees ==
      st.remote_flushed_blocks + |c.remote| + Uncounted(th) + r.stats.remote_frees
  {}

  /** The remote list of a cell as the holder of its lock leaves it; below the batch size whenever nobody
      holds the lock. */
  predicate RemoteBound(cfg: Config, c: Cell, holder: Thread) {
    match holder
    case CheckBatch(_) => |c.remote| <= cfg.remote_batch_size
    case UnlockDrained(_, _, _) => c.remote == []
    case _ => |c.remote| < cfg.remote_batch_size
  }

  lemma AdvanceBounds(cfg: Config, t: nat, th: Thread, c: Cell, st: ShardStats, obtained: Block)
    requires cfg.remote_batch_size > 0 && !th.Idle? && Advance(cfg, t, th, c, st, obtained).Some?
    requires c.remote_lock == Some(t) <==> HoldsRemoteLock(th)
    ensures var r := Advance(cfg, t, th, c, st, obtained).value;
      && (r.thread.Idle? || r.thread.k == th.k)
      && (r.cell.remote_lock == Some(t) <==> HoldsRemoteLock(r.thread))
      && (r.cell.remote_lock == Some(t)
        || r.cell.remote_lock == (if c.remote_lock == Some(t) then None else c.remote_lock))
      && (HoldsRemoteLock(th) && RemoteBound(cfg, c, th) ==> RemoteBound(cfg, r.cell, r.thread))
      && (!HoldsRemoteLock(th) ==> r.cell.remote == c.remote && (HoldsRemoteLock(r.thread) ==> c.remote_lock.None?))
  {}
}
