/** The bounded drain of a never-ending stream of bytes, each a char below 256
    (collectors_kmsg.go). The reader, the
    clock and the kill-switch are oracles: functions of how often they were consulted. */
module BoundedRead {
  import opened Prelude

  /** One Read: the bytes it delivered and whether it also returned an error or EOF. */
  datatype ReadResult = ReadResult(bytes: string, failed: bool)

  /** read(i, n) is the i-th Read with a buffer of n bytes, clock(i) the i-th reading of
      the clock, killed(i) whether the i-th poll finds the kill-switch fired. */
  datatype Environment = Environment(
    read: (nat, nat) -> ReadResult,
    clock: nat -> int,
    killed: nat -> bool)

  datatype Config = Config(maxBytes: int, deadline: int, chunk: int, hasKill: bool)

  const DEFAULT_MAX_BYTES: int := 4194304
  const DEFAULT_DEADLINE: int := 200
  const DEFAULT_CHUNK: int := 65536

  function MaxBytes(c: Config): (n: nat)
    ensures n > 0
  {
    if c.maxBytes <= 0 then DEFAULT_MAX_BYTES else c.maxBytes
  }

  function Deadline(c: Config): (n: nat)
    ensures n > 0
  {
    if c.deadline <= 0 then DEFAULT_DEADLINE else c.deadline
  }

  function Chunk(c: Config): (n: nat)
    ensures n > 0
  {
    if c.chunk <= 0 then DEFAULT_CHUNK else c.chunk
  }

  datatype DrainResult = DrainResult(hitDeadline: bool, hitCap: bool, killed: bool, bytes: nat, elapsed: int)

  /** How much the next Read may deliver once `have` bytes are in. */
  function ReadSize(c: Config, have: nat): nat {
    if have >= MaxBytes(c) then 0
    else if MaxBytes(c) - have < Chunk(c) then MaxBytes(c) - have
    else Chunk(c)
  }

  /** While there is an allowance left, a Read is given all of it, or a chunk if that is
      less; the allowance is 4 MiB, the chunk 64 KiB and the deadline 200 ms unless set. */
  lemma RoomOfARead(c: Config, have: nat)
    ensures MaxBytes(c) == if c.maxBytes > 0 then c.maxBytes else 4194304
    ensures Chunk(c) == if c.chunk > 0 then c.chunk else 65536
    ensures Deadline(c) == if c.deadline > 0 then c.deadline else 200
    ensures have < MaxBytes(c) ==>
      && 0 < ReadSize(c, have) <= MaxBytes(c) - have && ReadSize(c, have) <= Chunk(c)
      && (ReadSize(c, have) == MaxBytes(c) - have || ReadSize(c, have) == Chunk(c))
  {
  }

  /** Everything the first k Reads delivered. */
  function Delivered(env: Environment, c: Config, k: nat): string {
    if k == 0 then ""
    else
      var before := Delivered(env, c, k - 1);
      before + env.read(k - 1, ReadSize(c, |before|)).bytes
  }

  /** The outcome of the k-th Read (from 1). */
  function LastRead(env: Environment, c: Config, k: nat): ReadResult
    requires k > 0
  {
    env.read(k - 1, ReadSize(c, |Delivered(env, c, k - 1)|))
  }

  /** A Read never delivers more than it was given room for (io.Reader). */
  ghost predicate RespectsBuffer(env: Environment) {
    forall i, n :: |env.read(i, n).bytes| <= n
  }

  predicate Expired(env: Environment, c: Config, i: nat) {
    env.clock(i) - env.clock(0) >= Deadline(c)
  }

  /** From some reading on the clock is past the deadline. */
  ghost predicate Advances(env: Environment, c: Config, horizon: nat) {
    forall i :: i >= horizon ==> Expired(env, c, i)
  }

  /** Read j ended neither the stream nor the allowance. */
  ghost predicate LeavesMore(env: Environment, c: Config, j: nat) {
    j > 0 && !LastRead(env, c, j).failed && |Delivered(env, c, j)| < MaxBytes(c)
  }

  /** Drains until end of stream, the byte cap, the deadline or the kill-switch. The
      number of Reads made is returned for the contract's sake. Termination needs only a
      clock that ends up past the deadline, whatever the reader does. */
  method BoundedReadStream(env: Environment, c: Config, ghost horizon: nat)
    returns (buf: string, res: DrainResult, calls: nat)
    requires RespectsBuffer(env) && Advances(env, c, horizon)
    // the result is exactly what was delivered, within the cap
    ensures buf == Delivered(env, c, calls) && res.bytes == |buf| <= MaxBytes(c)
    // how it ended: at most one flag, and each flag means what it says
    ensures !(res.hitCap && res.hitDeadline) && !(res.hitCap && res.killed) && !(res.hitDeadline && res.killed)
    ensures res.hitCap <==> |buf| == MaxBytes(c)
    ensures res.hitDeadline ==> env.clock(calls + 1) - env.clock(0) >= Deadline(c)
    ensures res.killed ==> c.hasKill && env.killed(calls)
    ensures !res.hitCap && !res.hitDeadline && !res.killed ==> calls > 0 && LastRead(env, c, calls).failed
    // no Read after the deadline, an error or the cap; so no more Reads than clock readings in time
    ensures forall j :: 1 <= j <= calls ==> env.clock(j) - env.clock(0) < Deadline(c)
    ensures forall j {:trigger LeavesMore(env, c, j)} :: 1 <= j < calls ==> LeavesMore(env, c, j)
    ensures calls <= horizon
    // the time reported is that of the next reading of the clock
    ensures res.elapsed == env.clock(if res.hitDeadline then calls + 2 else calls + 1) - env.clock(0)
  {
    var maxBytes, deadline, chunk := MaxBytes(c), Deadline(c), Chunk(c);
    var start := env.clock(0);
    buf, calls := "", 0;
    res := DrainResult(false, false, false, 0, 0);
    while true
      invariant buf == Delivered(env, c, calls) && |buf| < maxBytes
      invariant res == DrainResult(false, false, false, 0, 0)
      invariant forall j :: 1 <= j <= calls ==> env.clock(j) - env.clock(0) < deadline
      invariant forall j {:trigger LeavesMore(env, c, j)} :: 1 <= j <= calls ==> LeavesMore(env, c, j)
      invariant calls <= horizon
      decreases horizon - calls
    {
      if c.hasKill && env.killed(calls) {
        res := DrainResult(false, false, true, |buf|, env.clock(calls + 1) - start);
        return;
      }
      if env.clock(calls + 1) - start >= deadline {
        res := res.(hitDeadline := true);
        break;
      }
      assert !Expired(env, c, calls + 1);
      var remaining := maxBytes - |buf|;
      if remaining <= 0 {
        assert false; // the cap test at the loop top never fires
      }
      var readSize := if remaining < chunk then remaining else chunk;
      var r := env.read(calls, readSize);
      calls := calls + 1;
      buf := buf + r.bytes;
      if |buf| >= maxBytes {
        res := res.(hitCap := true);
        break;
      }
      if r.failed {
        break;
      }
      assert LeavesMore(env, c, calls);
    }
    var ticks := if res.hitDeadline then calls + 2 else calls + 1;
    res := res.(bytes := |buf|, elapsed := env.clock(ticks) - start);
  }

  /** The wrapper the sources use: a nil stream stays nil, and a killed drain still
      yields its partial bytes. */
  method BoundedReadToReader(stream: Option<Environment>, c: Config, ghost horizon: nat)
    returns (text: Option<string>, res: DrainResult)
    requires stream.Some? ==> RespectsBuffer(stream.value) && Advances(stream.value, c, horizon)
    ensures text.Some? <==> stream.Some?
    ensures stream.Some? ==> exists k: nat :: k <= horizon && text == Some(Delivered(stream.value, c, k))
    ensures stream.Some? ==> res.bytes == |text.value| <= MaxBytes(c)
  {
    if stream.None? {
      return None, DrainResult(false, false, false, 0, 0);
    }
    var buf, r, calls := BoundedReadStream(stream.value, c, horizon);
    text, res := Some(buf), r;
  }

  /** Even a reader that answers every call with nothing is drained in bounded time, and
      only the deadline or the kill-switch ends it. */
  method SilentDrain(env: Environment, c: Config, ghost horizon: nat)
    returns (buf: string, res: DrainResult, calls: nat)
    requires Advances(env, c, horizon) && forall i, n :: env.read(i, n) == ReadResult("", false)
    ensures buf == "" && calls <= horizon && !res.hitCap
    ensures (res.hitDeadline && Expired(env, c, calls + 1)) || (res.killed && c.hasKill && env.killed(calls))
  {
    buf, res, calls := BoundedReadStream(env, c, horizon);
    SilentReaderDeliversNothing(env, c, calls);
  }

  lemma {:induction false} SilentReaderDeliversNothing(env: Environment, c: Config, k: nat)
    requires forall i, n :: env.read(i, n) == ReadResult("", false)
    ensures Delivered(env, c, k) == "" && (k > 0 ==> !LastRead(env, c, k).failed)
  {
    if k > 0 {
      SilentReaderDeliversNothing(env, c, k - 1);
    }
  }

  /** More Reads only append. */
  lemma {:induction false} DeliveredGrows(env: Environment, c: Config, j: nat, k: nat)
    requires j <= k
    ensures Delivered(env, c, j) <= Delivered(env, c, k)
    decreases k
  {
    if j < k {
      DeliveredGrows(env, c, j, k - 1);
    }
  }
}
