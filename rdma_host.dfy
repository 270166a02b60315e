/**
 * The host-side RDMA server helpers (rdma/rdma_microview_host.py). Its
 * memory-region manager behaves as RdmaHelpers.MemoryRegionPool with a
 * 4096-byte default buffer, so that class is reused. Its queue-pair pool
 * is an older variant: the local info has no in-use flag, and connecting
 * never marks a queue pair as in use, so a queue pair can be connected
 * again and again.
 */
module RdmaHost {
  import opened Common
  import RdmaHelpers

  const DEFAULT_BUFFER_SIZE: nat := 4096

  /** What get_qp_local_info reports here: number and GID only. */
  datatype LocalQpInfo = LocalQpInfo(qpNum: nat, gid: string)

  /** A row of list_queue_pairs. */
  datatype QpListing = QpListing(index: nat, qpNum: nat, inUse: bool)

  /** The effect of connect_queue_pair in this variant: out of range
      raises; otherwise a successful transition to ready-to-send records
      the peer and reports true, a failed one reports false; the in-use
      flag is never consulted nor set. */
  function Connect(qps: seq<RdmaHelpers.QpEntry>, index: int, remote: RdmaHelpers.RemoteQp, toRtsOk: bool)
    : (res: (seq<RdmaHelpers.QpEntry>, Result<bool, RdmaHelpers.QpError>))
    ensures |res.0| == |qps|
    ensures res.1.Failure? <==> !(0 <= index < |qps|)
    ensures res.1 == Success(true) <==> 0 <= index < |qps| && toRtsOk
    ensures res.1 == Success(true) ==> res.0 == qps[index := qps[index].(remoteInfo := Some(remote))]
    ensures res.1 != Success(true) ==> res.0 == qps
  {
    if !(0 <= index < |qps|) then (qps, Failure(RdmaHelpers.IndexOutOfRange))
    else if !toRtsOk then (qps, Success(false))
    else (qps[index := qps[index].(remoteInfo := Some(remote))], Success(true))
  }

  /** Connecting never changes any queue pair's in-use flag. */
  lemma {:induction false} ConnectKeepsInUse(qps: seq<RdmaHelpers.QpEntry>, index: int, remote: RdmaHelpers.RemoteQp, ok: bool, i: nat)
    requires i < |qps|
    ensures Connect(qps, index, remote, ok).0[i].inUse == qps[i].inUse
  {
  }

  /** Unlike the NIC-side pool, a connected queue pair accepts a second
      connect, and the second peer replaces the first. */
  lemma {:induction false} ReconnectAccepted(qps: seq<RdmaHelpers.QpEntry>, index: int, first: RdmaHelpers.RemoteQp, second: RdmaHelpers.RemoteQp)
    requires 0 <= index < |qps|
    ensures var after := Connect(qps, index, first, true).0;
      Connect(after, index, second, true).1 == Success(true) &&
      Connect(after, index, second, true).0[index].remoteInfo == Some(second)
  {
  }

  class QueuePairPool {
    const poolSize: nat
    const gid: string
    var qps: seq<RdmaHelpers.QpEntry>

    /** Create `poolSize` idle queue pairs numbered `qpNums`. */
    constructor (poolSize: nat, gid: string, qpNums: seq<nat>)
      requires |qpNums| == poolSize
      ensures this.poolSize == poolSize && this.gid == gid
      ensures qps == RdmaHelpers.FreshPool(qpNums)
    {
      this.poolSize := poolSize;
      this.gid := gid;
      qps := RdmaHelpers.FreshPool(qpNums);
    }

    /** The queue pair at `index`, identified by its number. */
    function GetQpObject(index: int): (r: Result<nat, RdmaHelpers.QpError>)
      reads this
      ensures r.Success? <==> 0 <= index < |qps|
      ensures r.Success? ==> r.value == qps[index].qpNum
    {
      if index < 0 || index >= |qps| then Failure(RdmaHelpers.IndexOutOfRange) else Success(qps[index].qpNum)
    }

    /** Number and GID of the queue pair at `index`. */
    function GetQpLocalInfo(index: int): (r: Result<LocalQpInfo, RdmaHelpers.QpError>)
      reads this
      ensures r.Success? <==> 0 <= index < |qps|
      ensures r.Success? ==> r.value == LocalQpInfo(qps[index].qpNum, gid)
    {
      if index < 0 || index >= |qps| then Failure(RdmaHelpers.IndexOutOfRange)
      else Success(LocalQpInfo(qps[index].qpNum, gid))
    }

    method ConnectQueuePair(index: int, remote: RdmaHelpers.RemoteQp, toRtsOk: bool)
      returns (r: Result<bool, RdmaHelpers.QpError>)
      modifies this`qps
      ensures (qps, r) == Connect(old(qps), index, remote, toRtsOk)
    {
      var res := Connect(qps, index, remote, toRtsOk);
      qps := res.0;
      r := res.1;
    }

    /** Index, number and in-use flag of every queue pair, in pool order. */
    function ListQueuePairs(): (rows: seq<QpListing>)
      reads this
      ensures |rows| == |qps|
      ensures forall i :: 0 <= i < |qps| ==>
        rows[i].index == i && rows[i].qpNum == qps[i].qpNum && rows[i].inUse == qps[i].inUse
    {
      seq(|qps|, i requires 0 <= i < |qps| reads this => QpListing(i, qps[i].qpNum, qps[i].inUse))
    }
  }
}
