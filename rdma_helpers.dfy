/**
 * The RDMA helper classes (rdma/helpers.py): a pool of registered memory
 * regions, a pool of queue pairs, the description of a remote region, and
 * the one-sided reader the NIC uses to pull remote pages. What the verbs
 * library does (register memory, move a queue pair to ready-to-send, poll a
 * completion) enters as parameters: the keys it hands back and whether the
 * call succeeded.
 */
module RdmaHelpers {
  import opened Common
  import Defaults

  // ---------------------------------------------------------------------
  // Memory regions
  // ---------------------------------------------------------------------

  /** The keys the verbs library returns for a registered region. */
  datatype MrHandle = MrHandle(rkey: nat, lkey: nat)

  /** What get_memory_region_info reports. */
  datatype MrInfo = MrInfo(name: string, addr: nat, rkey: nat, lkey: nat, size: nat)

  /** A registered region: its info, whether the pool allocated the buffer
      itself (create) or it is managed outside (register), and its keys. */
  datatype MrEntry = MrEntry(info: MrInfo, ownsBuffer: bool, mr: MrHandle)

  datatype MrError =
    | BufferTooSmall   // the initial tag does not fit the new buffer (ValueError)

  /** Bytes in the UTF-8 encoding of `s`. */
  function Utf8Length(s: string): nat
  {
    if |s| == 0 then 0
    else
      var c := s[0] as int;
      (if c < 0x80 then 1 else if c < 0x800 then 2 else if c < 0x10000 then 3 else 4)
      + Utf8Length(s[1..])
  }

  /** The tag create_memory_region writes at the start of a new buffer. */
  function InitialTag(name: string): string
  {
    "RDMA-MR-" + name
  }

  class MemoryRegionPool {
    const defaultBufferSize: nat
    var regions: map<string, MrEntry>
    /** Region names in the order they were first registered (the order a
        dict iterates in). */
    var order: seq<string>

    ghost predicate Valid()
      reads this
    {
      PoolInvariant(regions, order)
    }

    constructor (defaultBufferSize: nat)
      ensures Valid()
      ensures this.defaultBufferSize == defaultBufferSize
      ensures regions == map[] && order == []
    {
      this.defaultBufferSize := defaultBufferSize;
      regions := map[];
      order := [];
    }

    /** Register memory managed elsewhere at `addr` under `name`; a region
        already registered under that name is replaced in place. */
    method RegisterMemoryRegion(name: string, addr: nat, size: nat, mr: MrHandle)
      returns (info: MrInfo)
      requires Valid()
      modifies this`regions, this`order
      ensures Valid()
      ensures info == MrInfo(name, addr, mr.rkey, mr.lkey, size)
      ensures regions == old(regions)[name := MrEntry(info, false, mr)]
      ensures order == if name in old(regions) then old(order) else old(order) + [name]
    {
      info := MrInfo(name, addr, mr.rkey, mr.lkey, size);
      if name !in regions {
        order := order + [name];
      }
      regions := regions[name := MrEntry(info, false, mr)];
    }

    /** Allocate a zeroed buffer of `size` bytes (the pool's default when
        None) at `bufferAddr`, tag it and register it. A buffer too small to
        hold the tag "RDMA-MR-<name>" raises before anything is registered. */
    method CreateMemoryRegion(name: string, size: Option<nat>, bufferAddr: nat, mr: MrHandle)
      returns (r: Result<MrInfo, MrError>)
      requires Valid()
      modifies this`regions, this`order
      ensures Valid()
      ensures var n := if size.None? then defaultBufferSize else size.value;
        if n < Utf8Length(InitialTag(name)) then
          r == Failure(BufferTooSmall) && regions == old(regions) && order == old(order)
        else
          r == Success(MrInfo(name, bufferAddr, mr.rkey, mr.lkey, n)) &&
          regions == old(regions)[name := MrEntry(r.value, true, mr)] &&
          order == if name in old(regions) then old(order) else old(order) + [name]
    {
      var n := if size.None? then defaultBufferSize else size.value;
      if n < Utf8Length(InitialTag(name)) {
        return Failure(BufferTooSmall);
      }
      var info := RegisterMemoryRegion(name, bufferAddr, n, mr);
      regions := regions[name := regions[name].(ownsBuffer := true)];
      r := Success(info);
    }

    /** The keys of the region registered under `name`, if any. */
    function GetMemoryRegion(name: string): (r: Option<MrHandle>)
      reads this
      ensures r.Some? <==> name in regions
      ensures r.Some? ==> r.value == regions[name].mr
    {
      if name in regions then Some(regions[name].mr) else None
    }

    /** Name, address, keys and size of the region under `name`, if any. */
    function GetMemoryRegionInfo(name: string): (r: Option<MrInfo>)
      reads this
      ensures r.Some? <==> name in regions
      ensures r.Some? ==> r.value == regions[name].info
    {
      if name in regions then Some(regions[name].info) else None
    }

    /** The info of every region, in registration order. */
    function ListMemoryRegions(): (infos: seq<MrInfo>)
      reads this
      requires Valid()
      ensures |infos| == |order|
      ensures forall i :: 0 <= i < |order| ==> infos[i] == regions[order[i]].info && infos[i].name == order[i]
    {
      seq(|order|, i requires 0 <= i < |order| && Valid() reads this => regions[order[i]].info)
    }

    /** Close every region, in order; `closeOk[i]` says whether closing the
        i-th succeeded. Only regions whose close succeeded are forgotten. */
    method Cleanup(closeOk: seq<bool>)
      requires Valid()
      requires |closeOk| == |order|
      modifies this`regions, this`order
      ensures Valid()
      ensures order == Survivors(old(order), closeOk)
      ensures SubMap(regions, old(regions))
    {
      var names := order;
      var live, left := regions, order;
      ghost var original := regions;
      var i := 0;
      ghost var kept: seq<string> := [];
      while i < |names|
        invariant i <= |names| && Swept(names, closeOk, i, kept, live, left, original)
      {
        var live', left' := live, left;
        ghost var kept' := kept + [names[i]];
        // names[i] sits where the not-yet-visited names begin
        var pos := |left| - (|names| - i);
        if closeOk[i] {
          live' := live - {names[i]};
          left' := left[..pos] + left[pos + 1..];
          kept' := kept;
        }
        CleanupStep(names, closeOk, i, kept, live, left, original, pos, live', left', kept');
        live, left, kept := live', left', kept';
        i := i + 1;
      }
      SweptAll(names, closeOk, kept, live, left, original);
      regions, order := live, left;
    }
  }

  ghost predicate NoDuplicates(s: seq<string>)
  {
    forall i, j :: 0 <= i < j < |s| ==> s[i] != s[j]
  }

  /** Dropping the first not-yet-visited name from a duplicate-free order. */
  lemma {:induction false} DropAt(kept: seq<string>, rest: seq<string>)
    requires |rest| > 0
    requires NoDuplicates(kept + rest)
    ensures var o := kept + rest; var pos := |kept|;
      o[..pos] + o[pos + 1..] == kept + rest[1..] &&
      (forall n :: n in kept + rest[1..] <==> n in o && n != rest[0]) &&
      NoDuplicates(kept + rest[1..])
  {
    var o := kept + rest;
    var pos := |kept|;
    assert o[..pos] == kept;
    assert o[pos + 1..] == rest[1..];
    var o2 := kept + rest[1..];
    assert o == o2[..pos] + [rest[0]] + o2[pos..];
    forall n | n in o2
      ensures n != rest[0]
    {
      var k :| 0 <= k < |o2| && o2[k] == n;
      if k < pos { assert o[k] == n; } else { assert o[k + 1] == n; }
    }
    forall i, j | 0 <= i < j < |o2|
      ensures o2[i] != o2[j]
    {
      var i' := if i < pos then i else i + 1;
      var j' := if j < pos then j else j + 1;
      assert o2[i] == o[i'] && o2[j] == o[j'];
    }
  }

  /** The pool's invariant on plain values: every name in the order is a
      key and the other way round, no name twice, each entry under its
      own name. */
  ghost predicate PoolInvariant(regions: map<string, MrEntry>, order: seq<string>)
  {
    (forall n :: n in regions <==> n in order) &&
    NoDuplicates(order) &&
    (forall n :: n in regions ==> regions[n].info.name == n)
  }

  /** Forgetting the first not-yet-visited region keeps the invariant. */
  lemma {:induction false} ForgetKeepsInvariant(regions: map<string, MrEntry>, kept: seq<string>, rest: seq<string>)
    requires |rest| > 0
    requires PoolInvariant(regions, kept + rest)
    ensures PoolInvariant(regions - {rest[0]}, kept + rest[1..])
  {
    DropAt(kept, rest);
  }

  /** Cleanup after visiting the first i names: `kept` are the visited
      names whose close failed, `left` the names still registered, and
      `live` the regions still registered. */
  ghost predicate Swept(names: seq<string>, closeOk: seq<bool>, i: nat, kept: seq<string>,
                        live: map<string, MrEntry>, left: seq<string>, original: map<string, MrEntry>)
  {
    i <= |names| == |closeOk| &&
    kept == Survivors(names[..i], closeOk[..i]) && left == kept + names[i..] &&
    PoolInvariant(live, left) && SubMap(live, original)
  }

  /** One step of cleanup: the i-th name is forgotten when its close
      succeeded and kept otherwise. */
  lemma {:induction false} CleanupStep(names: seq<string>, closeOk: seq<bool>, i: nat, kept: seq<string>,
                    live: map<string, MrEntry>, left: seq<string>, original: map<string, MrEntry>,
                    pos: int, live': map<string, MrEntry>, left': seq<string>, kept': seq<string>)
    requires Swept(names, closeOk, i, kept, live, left, original) && i < |names|
    requires pos == |left| - (|names| - i)
    requires if closeOk[i] then
        0 <= pos < |left| && live' == live - {names[i]} && kept' == kept && left' == left[..pos] + left[pos + 1..]
      else
        live' == live && kept' == kept + [names[i]] && left' == left
    ensures Swept(names, closeOk, i + 1, kept', live', left', original)
  {
    TakeStep(names, i);
    TakeStep(closeOk, i);
    if closeOk[i] {
      ForgetKeepsInvariant(live, kept, names[i..]);
      DropFirst(kept, names, i);
    } else {
      SplitHead(names, i);
    }
  }

  /** Cleanup after visiting every name. */
  lemma {:induction false} SweptAll(names: seq<string>, closeOk: seq<bool>, kept: seq<string>,
                 live: map<string, MrEntry>, left: seq<string>, original: map<string, MrEntry>)
    requires Swept(names, closeOk, |names|, kept, live, left, original)
    ensures left == Survivors(names, closeOk) && PoolInvariant(live, left) && SubMap(live, original)
  {
    assert names[..|names|] == names && closeOk[..|closeOk|] == closeOk;
  }

  /** Removing position |kept| of kept + names[i..] leaves kept + names[i + 1..]. */
  lemma {:induction false} DropFirst(kept: seq<string>, names: seq<string>, i: nat)
    requires i < |names|
    ensures var o := kept + names[i..];
      |o| == |kept| + |names| - i && o[..|kept|] + o[|kept| + 1..] == kept + names[i + 1..]
  {
    var o := kept + names[i..];
    assert o[..|kept|] == kept;
    assert o[|kept| + 1..] == names[i + 1..];
  }

  /** The prefix of length i + 1 ends in s[i] after the prefix of length i. */
  lemma {:induction false} TakeStep<T>(s: seq<T>, i: nat)
    requires i < |s|
    ensures |s[..i + 1]| == i + 1 && s[..i + 1][..i] == s[..i] && s[..i + 1][i] == s[i]
  {
  }

  lemma {:induction false} SplitHead(s: seq<string>, i: nat)
    requires i < |s|
    ensures s[i..] == [s[i]] + s[i + 1..]
  {
  }

  /** Every entry of `m` is an entry of `original`. */
  ghost predicate SubMap(m: map<string, MrEntry>, original: map<string, MrEntry>)
  {
    forall n :: n in m ==> n in original && m[n] == original[n]
  }

  /** The names whose close failed, in order. */
  function Survivors(names: seq<string>, closeOk: seq<bool>): (s: seq<string>)
    requires |closeOk| == |names|
    ensures |s| <= |names|
  {
    if |names| == 0 then []
    else
      var last := if closeOk[|names| - 1] then [] else [names[|names| - 1]];
      Survivors(names[..|names| - 1], closeOk[..|names| - 1]) + last
  }

  /** A region survives cleanup exactly when its close failed; so when all
      closes succeed the pool ends empty. */
  lemma {:induction false} SurvivorsExactly(names: seq<string>, closeOk: seq<bool>, i: nat)
    requires |closeOk| == |names|
    requires NoDuplicates(names)
    requires i < |names|
    ensures names[i] in Survivors(names, closeOk) <==> !closeOk[i]
  {
    var k := |names| - 1;
    if i < k {
      SurvivorsExactly(names[..k], closeOk[..k], i);
      assert names[k] != names[i];
    } else {
      assert names[i] !in names[..k];
      if names[i] in Survivors(names[..k], closeOk[..k]) {
        SurvivorsFrom(names[..k], closeOk[..k], names[i]);
      }
    }
  }

  /** A survivor is one of the names. */
  lemma {:induction false} SurvivorsFrom(names: seq<string>, closeOk: seq<bool>, n: string)
    requires |closeOk| == |names|
    requires n in Survivors(names, closeOk)
    ensures n in names
  {
    var k := |names| - 1;
    if n in Survivors(names[..k], closeOk[..k]) {
      SurvivorsFrom(names[..k], closeOk[..k], n);
      assert names[..k] <= names;
    }
  }

  // ---------------------------------------------------------------------
  // Queue pairs
  // ---------------------------------------------------------------------

  /** What a peer sends to connect: its GID and queue-pair number. */
  datatype RemoteQp = RemoteQp(gid: string, qpNum: nat)

  /** One pooled queue pair: its number, whether it is connected, and the
      peer it was connected to. */
  datatype QpEntry = QpEntry(qpNum: nat, inUse: bool, remoteInfo: Option<RemoteQp>)

  /** What get_qp_local_info reports for exchange with a peer. */
  datatype LocalQpInfo = LocalQpInfo(qpNum: nat, gid: string, inUse: bool)

  datatype QpError = IndexOutOfRange   // ValueError

  /** A new pool: every queue pair idle and unconnected. */
  function FreshPool(qpNums: seq<nat>): (qps: seq<QpEntry>)
    ensures |qps| == |qpNums|
    ensures forall i :: 0 <= i < |qps| ==> qps[i] == QpEntry(qpNums[i], false, None)
  {
    seq(|qpNums|, i requires 0 <= i < |qpNums| => QpEntry(qpNums[i], false, None))
  }

  /** The effect of connect_queue_pair: out of range raises; a queue pair
      already in use is refused; a failed transition to ready-to-send
      (`toRtsOk` false) reports false and changes nothing; otherwise the
      peer is recorded and the queue pair becomes in use. */
  function Connect(qps: seq<QpEntry>, index: int, remote: RemoteQp, toRtsOk: bool)
    : (res: (seq<QpEntry>, Result<bool, QpError>))
    ensures |res.0| == |qps|
    ensures res.1.Failure? <==> !(0 <= index < |qps|)
    ensures res.1 == Success(true) <==> 0 <= index < |qps| && !qps[index].inUse && toRtsOk
    ensures res.1 == Success(true) ==>
      res.0 == qps[index := qps[index].(inUse := true, remoteInfo := Some(remote))]
    ensures res.1 != Success(true) ==> res.0 == qps
  {
    if !(0 <= index < |qps|) then (qps, Failure(IndexOutOfRange))
    else if qps[index].inUse then (qps, Success(false))
    else if !toRtsOk then (qps, Success(false))
    else (qps[index := qps[index].(inUse := true, remoteInfo := Some(remote))], Success(true))
  }

  /** A queue pair is connected at most once: after a successful connect,
      any further connect of the same queue pair is refused, whoever asks. */
  lemma {:induction false} ConnectOnlyOnce(qps: seq<QpEntry>, index: int, first: RemoteQp, second: RemoteQp, ok: bool)
    requires Connect(qps, index, first, true).1 == Success(true)
    ensures var after := Connect(qps, index, first, true).0;
      Connect(after, index, second, ok) == (after, Success(false)) &&
      after[index].remoteInfo == Some(first)
  {
  }

  class QueuePairPool {
    const poolSize: nat
    /** The local GID, as text. */
    const gid: string
    var qps: seq<QpEntry>

    /** Create `poolSize` queue pairs; `qpNums` are the numbers the verbs
        library assigns them. */
    constructor (poolSize: nat, gid: string, qpNums: seq<nat>)
      requires |qpNums| == poolSize
      ensures this.poolSize == poolSize && this.gid == gid
      ensures qps == FreshPool(qpNums)
    {
      this.poolSize := poolSize;
      this.gid := gid;
      qps := FreshPool(qpNums);
    }

    /** The queue pair at `index` (identified by its number). */
    function GetQpObject(index: int): (r: Result<nat, QpError>)
      reads this
      ensures r.Success? <==> 0 <= index < |qps|
      ensures r.Success? ==> r.value == qps[index].qpNum
    {
      if index < 0 || index >= |qps| then Failure(IndexOutOfRange) else Success(qps[index].qpNum)
    }

    /** Number, GID and in-use flag of the queue pair at `index`. */
    function GetQpLocalInfo(index: int): (r: Result<LocalQpInfo, QpError>)
      reads this
      ensures r.Success? <==> 0 <= index < |qps|
      ensures r.Success? ==> r.value == LocalQpInfo(qps[index].qpNum, gid, qps[index].inUse)
    {
      if index < 0 || index >= |qps| then Failure(IndexOutOfRange)
      else Success(LocalQpInfo(qps[index].qpNum, gid, qps[index].inUse))
    }

    method ConnectQueuePair(index: int, remote: RemoteQp, toRtsOk: bool)
      returns (r: Result<bool, QpError>)
      modifies this`qps
      ensures (qps, r) == Connect(old(qps), index, remote, toRtsOk)
    {
      var res := Connect(qps, index, remote, toRtsOk);
      qps := res.0;
      r := res.1;
    }

    /** The local info of every queue pair, in pool order. */
    function ListQueuePairs(): (infos: seq<LocalQpInfo>)
      reads this
      ensures |infos| == |qps|
      ensures forall i :: 0 <= i < |qps| ==> GetQpLocalInfo(i) == Success(infos[i])
    {
      seq(|qps|, i requires 0 <= i < |qps| reads this => LocalQpInfo(qps[i].qpNum, gid, qps[i].inUse))
    }
  }

  // ---------------------------------------------------------------------
  // One-sided reads
  // ---------------------------------------------------------------------

  /** A remote region to read: address, key, length and optional name. */
  datatype MrMetadata = MrMetadata(remoteAddr: nat, rkey: nat, length: nat, name: Option<string>)

  /** How polling for one read's completion ended: no completion within
      the timeout, a successful read of these bytes, or a failed status. */
  datatype Completion = Timeout | Done(data: seq<byte>) | Failed(status: nat)

  datatype ReaderError =
    | NoQueuePair          // ValueError("Provide a Queue Pair")
    | NoCompletionQueue    // ValueError("Provide a Completion Queue")
    | LocalMrFailed        // creating a local buffer raised
    | ReadFailed(status: nat)   // RuntimeError from a failed completion

  /** What execute returns for the completions of one round: the bytes of
      every successful, non-empty read in region order; the first failed
      status raises instead. */
  function ExecuteResult(completions: seq<Completion>): (r: Result<seq<seq<byte>>, ReaderError>)
    ensures r.Success? ==> |r.value| <= |completions|
    ensures r.Failure? <==> exists i :: 0 <= i < |completions| && completions[i].Failed?
  {
    if |completions| == 0 then Success([])
    else
      match ExecuteResult(completions[..|completions| - 1])
      case Failure(e) => Failure(e)
      case Success(prev) =>
        match completions[|completions| - 1]
        case Failed(s) => Failure(ReadFailed(s))
        case Timeout => Success(prev)
        case Done(data) => Success(if |data| > 0 then prev + [data] else prev)
  }

  /** When every read completes with data, execute returns each region's
      bytes at that region's position. */
  lemma {:induction false} ExecuteAllDone(completions: seq<Completion>)
    requires forall i :: 0 <= i < |completions| ==> completions[i].Done? && |completions[i].data| > 0
    ensures ExecuteResult(completions).Success?
    ensures |ExecuteResult(completions).value| == |completions|
    ensures forall i :: 0 <= i < |completions| ==> ExecuteResult(completions).value[i] == completions[i].data
  {
    if |completions| > 0 {
      ExecuteAllDone(completions[..|completions| - 1]);
    }
  }

  /** A timed-out read shifts every later region's bytes one position to
      the front: with a timeout first and a read second, the second
      region's bytes come back at position 0. */
  lemma {:induction false} TimeoutShiftsResults(data: seq<byte>)
    requires |data| > 0
    ensures ExecuteResult([Timeout, Done(data)]) == Success([data])
  {
    var one: seq<Completion> := [Timeout];
    var two: seq<Completion> := [Timeout, Done(data)];
    assert two[..1] == one && two[1] == Done(data);
    assert one[..0] == [] && one[0] == Timeout;
    assert ExecuteResult(one) == Success([]);
    assert [] + [data] == [data];
  }

  /** Once a prefix of the completions fails, the whole round fails with
      that prefix's error: the first failed status is the one raised. */
  lemma {:induction false} FailureSticks(completions: seq<Completion>, k: nat)
    requires k <= |completions|
    requires ExecuteResult(completions[..k]).Failure?
    ensures ExecuteResult(completions) == ExecuteResult(completions[..k])
    decreases |completions| - k
  {
    if k < |completions| {
      var c := completions[..k + 1];
      assert c[..k] == completions[..k];
      assert ExecuteResult(c) == ExecuteResult(completions[..k]);
      FailureSticks(completions, k + 1);
    } else {
      assert completions[..k] == completions;
    }
  }

  class OneSidedReader {
    var qp: Option<nat>
    var cq: Option<nat>
    const remoteMrs: seq<MrMetadata>
    const nMr: nat
    /** The local buffers, one per remote region; null once never created. */
    var mrm: MemoryRegionPool?

    /** Build a reader for `remoteMrs` over the given queue pair and
        completion queue, creating one local region "local_mr_<i>" of the
        remote region's length for each. `bufferAddrs` and `handles` are
        what allocation and registration return for each local region. */
    static method New(qp: Option<nat>, cq: Option<nat>, remoteMrs: seq<MrMetadata>,
                      bufferAddrs: seq<nat>, handles: seq<MrHandle>)
      returns (r: Result<OneSidedReader, ReaderError>)
      requires |bufferAddrs| == |remoteMrs| && |handles| == |remoteMrs|
      ensures qp.None? ==> r == Failure(NoQueuePair)
      ensures qp.Some? && cq.None? ==> r == Failure(NoCompletionQueue)
      ensures qp.Some? && cq.Some? ==> (r.Success? <==> LocalMrsFit(remoteMrs, |remoteMrs|))
      ensures qp.Some? && cq.Some? && r.Failure? ==> r.error == LocalMrFailed
      ensures r.Success? ==>
        var reader := r.value;
        fresh(reader) && reader.qp == qp && reader.cq == cq &&
        reader.remoteMrs == remoteMrs && reader.nMr == |remoteMrs| &&
        reader.mrm != null && fresh(reader.mrm) && reader.mrm.Valid() &&
        reader.mrm.order == LocalNames(|remoteMrs|) &&
        LocalSizes(reader.mrm.regions, remoteMrs, |remoteMrs|)
    {
      if qp.None? {
        return Failure(NoQueuePair);
      }
      if cq.None? {
        return Failure(NoCompletionQueue);
      }
      var reader := new OneSidedReader.Init(qp, cq, remoteMrs);
      var pool := new MemoryRegionPool(Defaults.DEFAULT_PAGE_SIZE as nat);
      reader.mrm := pool;
      var i := 0;
      while i < |remoteMrs|
        invariant 0 <= i <= |remoteMrs|
        invariant pool.Valid() && fresh(pool)
        invariant pool.order == LocalNames(i)
        invariant LocalSizes(pool.regions, remoteMrs, i)
        invariant LocalMrsFit(remoteMrs, i)
        invariant reader.qp == qp && reader.cq == cq && reader.mrm == pool
        invariant reader.remoteMrs == remoteMrs && reader.nMr == |remoteMrs|
      {
        LocalNamesDistinct(i);
        ghost var regions0 := pool.regions;
        var created := pool.CreateMemoryRegion(LocalName(i), Some(remoteMrs[i].length), bufferAddrs[i], handles[i]);
        if created.Failure? {
          return Failure(LocalMrFailed);
        }
        assert LocalMrsFit(remoteMrs, i + 1);
        LocalSizesStep(regions0, pool.regions, remoteMrs, i);
        i := i + 1;
      }
      r := Success(reader);
    }

    constructor Init(qp: Option<nat>, cq: Option<nat>, remoteMrs: seq<MrMetadata>)
      ensures this.qp == qp && this.cq == cq && this.remoteMrs == remoteMrs
      ensures nMr == |remoteMrs| && mrm == null
    {
      this.qp := qp;
      this.cq := cq;
      this.remoteMrs := remoteMrs;
      nMr := |remoteMrs|;
      mrm := null;
    }

    /** Issue one read per region and poll each in turn; `completions[i]`
        is how region i's poll ended. */
    method Execute(completions: seq<Completion>) returns (r: Result<seq<seq<byte>>, ReaderError>)
      requires |completions| == nMr
      ensures r == ExecuteResult(completions)
      ensures r.Success? ==> |r.value| <= nMr
    {
      var results: seq<seq<byte>> := [];
      var i := 0;
      while i < nMr
        invariant 0 <= i <= nMr
        invariant ExecuteResult(completions[..i]) == Success(results)
      {
        assert completions[..i + 1][..i] == completions[..i];
        match completions[i] {
          case Failed(s) =>
            FailureSticks(completions, i + 1);
            return Failure(ReadFailed(s));
          case Timeout =>
          case Done(data) =>
            if |data| > 0 {
              results := results + [data];
            }
        }
        i := i + 1;
      }
      assert completions[..i] == completions;
      r := Success(results);
    }

    /** Release the local regions and drop the queue references. */
    method Cleanup(closeOk: seq<bool>)
      requires mrm != null ==> mrm.Valid() && |closeOk| == |mrm.order|
      modifies this, mrm
      ensures qp.None? && cq.None? && mrm == old(mrm)
      ensures mrm != null ==> mrm.Valid() && mrm.order == Survivors(old(mrm.order), closeOk)
    {
      if mrm != null {
        mrm.Cleanup(closeOk);
      }
      qp := None;
      cq := None;
    }
  }

  /** The name of the i-th local region. */
  function LocalName(i: nat): string
  {
    "local_mr_" + NatToString(i)
  }

  function LocalNames(n: nat): (names: seq<string>)
    ensures |names| == n
    ensures forall i :: 0 <= i < n ==> names[i] == LocalName(i)
  {
    if n == 0 then [] else LocalNames(n - 1) + [LocalName(n - 1)]
  }

  /** Each of the first n remote regions is long enough for the tag
      create_memory_region writes at the start of its local copy; a shorter
      one makes that write raise. */
  ghost predicate LocalMrsFit(remoteMrs: seq<MrMetadata>, n: nat)
  {
    n <= |remoteMrs| &&
    forall i :: 0 <= i < n ==> Utf8Length(InitialTag(LocalName(i))) <= remoteMrs[i].length
  }

  /** Local region i, for each i < n, is registered with the length of
      remote region i. */
  ghost predicate LocalSizes(regions: map<string, MrEntry>, remoteMrs: seq<MrMetadata>, n: nat)
  {
    n <= |remoteMrs| &&
    forall i :: 0 <= i < n ==> LocalName(i) in regions && regions[LocalName(i)].info.size == remoteMrs[i].length
  }

  /** Registering local region n with remote region n's length extends
      LocalSizes by one. */
  lemma {:induction false} LocalSizesStep(regions: map<string, MrEntry>, regions': map<string, MrEntry>,
                       remoteMrs: seq<MrMetadata>, n: nat)
    requires LocalSizes(regions, remoteMrs, n) && n < |remoteMrs|
    requires LocalName(n) in regions' && regions'[LocalName(n)].info.size == remoteMrs[n].length
    requires forall k :: k in regions && k != LocalName(n) ==> k in regions' && regions'[k] == regions[k]
    ensures LocalSizes(regions', remoteMrs, n + 1)
  {
    LocalNamesDistinct(n);
    forall i | 0 <= i < n
      ensures LocalName(i) != LocalName(n)
    {
      assert LocalNames(n)[i] == LocalName(i);
    }
  }

  lemma {:induction false} LocalNamesDistinct(n: nat)
    ensures LocalName(n) !in LocalNames(n)
  {
    forall i | 0 <= i < n
      ensures LocalName(i) != LocalName(n)
    {
      NatRoundTrip(i);
      NatRoundTrip(n);
      assert LocalName(i)[9..] == NatToString(i);
      assert LocalName(n)[9..] == NatToString(n);
    }
  }
}
