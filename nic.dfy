/**
 * The NIC-side collector (microview-nic.py): where the control plane is,
 * which anomaly model the LMAPs use, and how the memory regions the host
 * exports are shared out among the LMAPs. Each LMAP is represented here by
 * the arguments it is built with (its name, its regions, their control
 * information and its queue pair); what an LMAP does with them is the
 * Lmap module.
 */
module Nic {
  import opened Common
  import Host
  import Lmap
  import RdmaHelpers

  // ---------------------------------------------------------------------
  // Control-plane address
  // ---------------------------------------------------------------------

  /** Host and port of a control-plane URL: the first ':'-field is the
      host, the second the port, and "5000" is the port when there is no
      ':' at all. Further fields are ignored. */
  function HostAndPort(url: string): (hp: (string, string))
    ensures ':' !in hp.0 && ':' !in hp.1
  {
    var parts := Split(url, ':');
    (parts[0], if |parts| > 1 then parts[1] else "5000")
  }

  /** A URL without ':' is all host, on port 5000. */
  lemma {:induction false} HostOnly(url: string)
    requires ':' !in url
    ensures HostAndPort(url) == (url, "5000")
  {
    SplitNoSeparator(url, ':');
  }

  /** "host:port" splits back into its host and port, whatever follows a
      further ':'. */
  lemma {:induction false} HostThenPort(host: string, port: string, rest: string)
    requires ':' !in host && ':' !in port
    ensures HostAndPort(host + ":" + port) == (host, port)
    ensures HostAndPort(host + ":" + port + ":" + rest) == (host, port)
  {
    SplitAfterPiece(host, ':', port);
    SplitNoSeparator(port, ':');
    assert host + ":" + port == host + [':'] + port;
    assert host + ":" + port + ":" + rest == host + [':'] + (port + [':'] + rest);
    SplitAfterPiece(host, ':', port + [':'] + rest);
    SplitAfterPiece(port, ':', rest);
  }

  /** The host is the text before the first ':' (all of the URL when there
      is none). */
  lemma {:induction false} HostIsPrefix(url: string)
    ensures var h := HostAndPort(url).0;
      |h| <= |url| && url[..|h|] == h && (|h| == |url| || url[|h|] == ':')
  {
    if |url| > 0 && url[0] != ':' {
      HostIsPrefix(url[1..]);
    }
  }

  // ---------------------------------------------------------------------
  // Model choice
  // ---------------------------------------------------------------------

  /** The model named on the command line; an unknown name gives the
      frequent-directions sketch, so the NIC only ever asks its LMAPs for a
      model they can build. */
  function ModelFor(name: string): (m: Lmap.Model)
    ensures m == Lmap.Vae <==> name == "VAE"
    ensures m == Lmap.Threshold <==> name == "TH"
    ensures m == Lmap.FrequentDirectionSketch <==> name != "VAE" && name != "TH"
  {
    if name == "FD" then Lmap.FrequentDirectionSketch
    else if name == "VAE" then Lmap.Vae
    else if name == "TH" then Lmap.Threshold
    else Lmap.FrequentDirectionSketch
  }

  // ---------------------------------------------------------------------
  // Active regions and their partition among LMAPs
  // ---------------------------------------------------------------------

  /** Indices of the regions with at least one page, in increasing order. */
  function Active(info: seq<seq<Host.ControlInfo>>): (act: seq<nat>)
    ensures forall x :: x in act ==> x < |info|
  {
    if |info| == 0 then []
    else Active(info[..|info| - 1]) + (if |info[|info| - 1]| > 0 then [|info| - 1] else [])
  }

  ghost predicate StrictlyIncreasing(s: seq<nat>)
  {
    forall j, k :: 0 <= j < k < |s| ==> s[j] < s[k]
  }

  /** The active indices are exactly the non-empty regions, each once, in
      increasing order. */
  lemma {:induction false} ActiveExactly(info: seq<seq<Host.ControlInfo>>)
    ensures StrictlyIncreasing(Active(info))
    ensures forall k :: k in Active(info) <==> 0 <= k < |info| && |info[k]| > 0
  {
    if |info| > 0 {
      var init := info[..|info| - 1];
      ActiveExactly(init);
      forall k | 0 <= k < |init|
        ensures init[k] == info[k]
      {
      }
      var prev := Active(init);
      assert forall j :: 0 <= j < |prev| ==> prev[j] in prev;
    }
  }

  /** Where slice i of n items cut into m slices begins. */
  function SliceStart(i: nat, n: nat, m: nat): nat
    requires m > 0
  {
    i * n / m
  }

  /** Where slice i ends: at the next slice's start, and at n for the last. */
  function SliceEnd(i: nat, n: nat, m: nat): nat
    requires m > 0
  {
    if i == m - 1 then n else SliceStart(i + 1, n, m)
  }

  lemma {:induction false} DivAtLeast(x: nat, k: nat, m: nat)
    requires m > 0 && k * m <= x
    ensures k <= x / m
  {
    DivCeil(x, m);
    if x / m < k {
      MulLeft(x / m + 1, k, m);
    }
  }

  lemma {:induction false} DivAtMost(x: nat, k: nat, m: nat)
    requires m > 0 && x <= k * m
    ensures x / m <= k
  {
    DivFloor(x, m);
    if x / m > k {
      MulLeft(k + 1, x / m, m);
    }
  }

  lemma {:induction false} MulLeft(a: nat, b: nat, m: nat)
    requires a <= b
    ensures a * m <= b * m
  {
  }

  /** With no more slices than items, every slice lies inside [0, n) and
      holds at least one item. */
  lemma {:induction false} SliceBounds(i: nat, n: nat, m: nat)
    requires 0 < m <= n && i < m
    ensures SliceStart(i, n, m) < SliceEnd(i, n, m) <= n
  {
    var s := i * n / m;
    assert s * m <= i * n by { DivFloor(i * n, m); }
    if i == m - 1 {
      MulLeft(i + 1, m, n);
      DivBelow(i * n, n, m);
    } else {
      assert (s + 1) * m <= (i + 1) * n;
      DivAtLeast((i + 1) * n, s + 1, m);
      MulLeft(i + 1, m, n);
      DivAtMost((i + 1) * n, n, m);
    }
  }

  lemma {:induction false} DivFloor(x: nat, m: nat)
    requires m > 0
    ensures (x / m) * m <= x
  {
  }

  lemma {:induction false} DivCeil(x: nat, m: nat)
    requires m > 0
    ensures x < (x / m + 1) * m
  {
  }

  lemma {:induction false} DivBelow(x: nat, k: nat, m: nat)
    requires m > 0 && x < k * m
    ensures x / m < k
  {
    var q := x / m;
    DivFloor(x, m);
    if q >= k {
      MulLeft(k, q, m);
    }
  }

  /** The index slices handed to the m LMAPs. */
  function Slices(act: seq<nat>, m: nat): (sl: seq<seq<nat>>)
    requires 0 < m <= |act|
    ensures |sl| == m
  {
    seq(m, i requires 0 <= i < m => SliceOf(act, m, i))
  }

  /** Slice i of the active indices. */
  function SliceOf(act: seq<nat>, m: nat, i: nat): (sl: seq<nat>)
    requires 0 < m <= |act| && i < m
    ensures forall x :: x in sl ==> x in act
  {
    SliceBounds(i, |act|, m);
    act[SliceStart(i, |act|, m)..SliceEnd(i, |act|, m)]
  }

  /** Every index in a slice names a region. */
  lemma {:induction false} SliceInRange(info: seq<seq<Host.ControlInfo>>, m: nat, i: nat)
    requires 0 < m <= |Active(info)| && i < m
    ensures forall j :: 0 <= j < |SliceOf(Active(info), m, i)| ==> SliceOf(Active(info), m, i)[j] < |info|
  {
    var idx := SliceOf(Active(info), m, i);
    assert forall j :: 0 <= j < |idx| ==> idx[j] in idx;
  }

  /** The first k slices, laid end to end, are the prefix of the active
      indices up to the end of slice k-1. */
  lemma {:induction false} SlicesPrefix(act: seq<nat>, m: nat, k: nat)
    requires 0 < m <= |act| && 0 < k <= m
    ensures SliceEnd(k - 1, |act|, m) <= |act|
    ensures Flatten(Slices(act, m)[..k]) == act[..SliceEnd(k - 1, |act|, m)]
  {
    var n := |act|;
    var sl := Slices(act, m);
    SliceBounds(k - 1, n, m);
    assert sl[..k][..k - 1] == sl[..k - 1];
    if k == 1 {
      assert SliceStart(0, n, m) == 0;
      assert sl[..k][0] == act[..SliceEnd(0, n, m)];
    } else {
      SlicesPrefix(act, m, k - 1);
      assert SliceEnd(k - 2, n, m) == SliceStart(k - 1, n, m);
      assert act[..SliceStart(k - 1, n, m)] + act[SliceStart(k - 1, n, m)..SliceEnd(k - 1, n, m)]
          == act[..SliceEnd(k - 1, n, m)];
    }
  }

  /** The slices are contiguous, disjoint and ordered: laid end to end they
      are the active indices, each exactly once, in order. */
  lemma {:induction false} SlicesCover(act: seq<nat>, m: nat)
    requires 0 < m <= |act|
    ensures Flatten(Slices(act, m)) == act
  {
    SlicesPrefix(act, m, m);
    assert Slices(act, m)[..m] == Slices(act, m);
    assert act[..|act|] == act;
  }

  /** No LMAP is handed an empty slice. */
  lemma {:induction false} SlicesNonEmpty(act: seq<nat>, m: nat, i: nat)
    requires 0 < m <= |act| && i < m
    ensures |Slices(act, m)[i]| > 0
  {
    SliceBounds(i, |act|, m);
  }

  // ---------------------------------------------------------------------
  // The LMAPs
  // ---------------------------------------------------------------------

  /** The arguments an LMAP is built with: its collector id, the indices of
      its regions, those regions and their control information, and the
      number of the queue pair its reader uses. */
  datatype LmapConfig = LmapConfig(
    collectorId: string,
    mrIndices: seq<nat>,
    mrs: seq<RdmaHelpers.MrMetadata>,
    controlInfo: seq<seq<Host.ControlInfo>>,
    qpNum: nat)

  datatype NicError =
    | NoLayout          // TypeError: len() of a layout or region list never fetched
    | LayoutMismatch    // RuntimeError: control regions and remote regions differ in number
    | NotConnected      // AttributeError: no queue-pair pool

  function CollectorId(i: nat): string
  {
    "LMAP_" + NatToString(i)
  }

  /** The number of LMAPs: no more than the collectors, nor the active
      regions. */
  function LmapCount(info: seq<seq<Host.ControlInfo>>, numCollectors: nat): nat
  {
    Min(numCollectors, |Active(info)|)
  }

  /** LMAP i of the partition. */
  function LmapFor(i: nat, info: seq<seq<Host.ControlInfo>>, mrs: seq<RdmaHelpers.MrMetadata>,
                   numCollectors: nat, qps: seq<RdmaHelpers.QpEntry>): LmapConfig
    requires |info| == |mrs| && |qps| == numCollectors
    requires i < LmapCount(info, numCollectors)
  {
    var act := Active(info);
    var m := LmapCount(info, numCollectors);
    var idx := SliceOf(act, m, i);
    SliceInRange(info, m, i);
    LmapConfig(CollectorId(i), idx,
      seq(|idx|, j requires 0 <= j < |idx| => mrs[idx[j]]),
      seq(|idx|, j requires 0 <= j < |idx| => info[idx[j]]),
      qps[i % numCollectors].qpNum)
  }

  /** The LMAPs configure_lmaps adds, in order. */
  function Plan(info: seq<seq<Host.ControlInfo>>, mrs: seq<RdmaHelpers.MrMetadata>,
                numCollectors: nat, qps: seq<RdmaHelpers.QpEntry>): (p: seq<LmapConfig>)
    requires |info| == |mrs| && |qps| == numCollectors
    ensures |p| == LmapCount(info, numCollectors)
  {
    seq(LmapCount(info, numCollectors), i requires 0 <= i < LmapCount(info, numCollectors) =>
      LmapFor(i, info, mrs, numCollectors, qps))
  }

  /** Every active region goes to exactly one LMAP, in order: the LMAPs'
      region indices laid end to end are the active indices. Every LMAP
      reads at least one region, and every region it reads has pages. */
  lemma {:induction false} PlanCovers(info: seq<seq<Host.ControlInfo>>, mrs: seq<RdmaHelpers.MrMetadata>,
                   numCollectors: nat, qps: seq<RdmaHelpers.QpEntry>)
    requires |info| == |mrs| && |qps| == numCollectors
    requires LmapCount(info, numCollectors) > 0
    ensures var p := Plan(info, mrs, numCollectors, qps);
      Flatten(seq(|p|, i requires 0 <= i < |p| => p[i].mrIndices)) == Active(info)
    ensures forall i :: 0 <= i < LmapCount(info, numCollectors) ==>
      |Plan(info, mrs, numCollectors, qps)[i].mrIndices| > 0
    ensures forall i, j :: (0 <= i < LmapCount(info, numCollectors) &&
      0 <= j < |Plan(info, mrs, numCollectors, qps)[i].controlInfo|) ==>
      |Plan(info, mrs, numCollectors, qps)[i].controlInfo[j]| > 0
  {
    var act := Active(info);
    var m := LmapCount(info, numCollectors);
    var p := Plan(info, mrs, numCollectors, qps);
    SlicesCover(act, m);
    assert seq(|p|, i requires 0 <= i < |p| => p[i].mrIndices) == Slices(act, m);
    forall i | 0 <= i < m
      ensures |p[i].mrIndices| > 0
    {
      SlicesNonEmpty(act, m, i);
    }
    ActiveExactly(info);
    forall i, j | 0 <= i < m && 0 <= j < |p[i].controlInfo|
      ensures |p[i].controlInfo[j]| > 0
    {
      var idx := SliceOf(act, m, i);
      assert idx[j] in idx;
    }
  }

  /** LMAP i reads through queue pair i: the modulo never wraps because
      there are no more LMAPs than collectors. The LMAPs' names are
      distinct. */
  lemma {:induction false} PlanQueuePairs(info: seq<seq<Host.ControlInfo>>, mrs: seq<RdmaHelpers.MrMetadata>,
                       numCollectors: nat, qps: seq<RdmaHelpers.QpEntry>)
    requires |info| == |mrs| && |qps| == numCollectors
    ensures forall i :: 0 <= i < LmapCount(info, numCollectors) ==>
      Plan(info, mrs, numCollectors, qps)[i].qpNum == qps[i].qpNum
    ensures forall i, j :: 0 <= i < j < LmapCount(info, numCollectors) ==>
      Plan(info, mrs, numCollectors, qps)[i].collectorId != Plan(info, mrs, numCollectors, qps)[j].collectorId
  {
    var p := Plan(info, mrs, numCollectors, qps);
    forall i | 0 <= i < LmapCount(info, numCollectors)
      ensures p[i].qpNum == qps[i].qpNum
    {
      assert i % numCollectors == i;
    }
    forall i, j | 0 <= i < j < LmapCount(info, numCollectors)
      ensures p[i].collectorId != p[j].collectorId
    {
      assert p[i].collectorId == CollectorId(i) && p[j].collectorId == CollectorId(j);
      NatRoundTrip(i);
      NatRoundTrip(j);
      assert CollectorId(i)[5..] == NatToString(i);
      assert CollectorId(j)[5..] == NatToString(j);
    }
  }

  // ---------------------------------------------------------------------
  // Connecting with the host
  // ---------------------------------------------------------------------

  /** How connect_with_microview_host fails; each is raised again after
      cleanup. */
  datatype ConnectError =
    | QpsRequestFailed      // GET /rdma/qps failed
    | NoRemoteQps           // RuntimeError: the host listed no queue pair
    | QpIndexOutOfRange     // ValueError: more remote queue pairs than local ones
    | ConnectRequestFailed  // POST /rdma/qps/connect failed
    | MrsRequestFailed      // GET /rdma/mrs failed

  /** One memory region as the host lists it. */
  datatype MrReply = MrReply(addr: nat, rkey: nat, size: nat)

  /** The pool after the first `n` remote queue pairs have been connected
      in turn, local queue pair i to remote entry i: an idle queue pair
      whose transition to ready-to-send succeeds becomes in use with its
      peer recorded, and every other queue pair is as it was. */
  function ConnectedUpTo(qps: seq<RdmaHelpers.QpEntry>, remote: seq<RdmaHelpers.RemoteQp>, toRtsOk: seq<bool>, n: nat)
    : (r: seq<RdmaHelpers.QpEntry>)
    requires n <= |remote| == |toRtsOk| && n <= |qps|
    ensures |r| == |qps|
  {
    seq(|qps|, j requires 0 <= j < |qps| =>
      if j < n && !qps[j].inUse && toRtsOk[j]
      then qps[j].(inUse := true, remoteInfo := Some(remote[j]))
      else qps[j])
  }

  /** Connecting queue pair n on top of the first n connections gives the
      first n + 1, and reports whether it connected. */
  lemma {:induction false} ConnectedStep(qps: seq<RdmaHelpers.QpEntry>, remote: seq<RdmaHelpers.RemoteQp>, toRtsOk: seq<bool>, n: nat)
    requires n < |remote| == |toRtsOk| && n < |qps|
    ensures RdmaHelpers.Connect(ConnectedUpTo(qps, remote, toRtsOk, n), n, remote[n], toRtsOk[n]) ==
      (ConnectedUpTo(qps, remote, toRtsOk, n + 1), Success(!qps[n].inUse && toRtsOk[n]))
  {
    var before := ConnectedUpTo(qps, remote, toRtsOk, n);
    var after := ConnectedUpTo(qps, remote, toRtsOk, n + 1);
    assert before[n] == qps[n];
    if !qps[n].inUse && toRtsOk[n] {
      assert after == before[n := qps[n].(inUse := true, remoteInfo := Some(remote[n]))];
    } else {
      assert after == before;
    }
  }

  /** In a fresh pool, after connecting every remote entry, queue pair j is
      in use exactly when it had a remote entry and its transition to
      ready-to-send succeeded; it is then paired with that entry, and
      otherwise it has no peer. No peer is shared by two queue pairs. */
  lemma {:induction false} PairsConnected(qpNums: seq<nat>, remote: seq<RdmaHelpers.RemoteQp>, toRtsOk: seq<bool>)
    requires |remote| == |toRtsOk| <= |qpNums|
    ensures var qps := ConnectedUpTo(RdmaHelpers.FreshPool(qpNums), remote, toRtsOk, |remote|);
      forall j :: 0 <= j < |qps| ==>
        qps[j].qpNum == qpNums[j] &&
        (qps[j].inUse <==> j < |remote| && toRtsOk[j]) &&
        qps[j].remoteInfo == (if qps[j].inUse then Some(remote[j]) else None)
  {
    var fresh0 := RdmaHelpers.FreshPool(qpNums);
    var qps := ConnectedUpTo(fresh0, remote, toRtsOk, |remote|);
    forall j | 0 <= j < |qps|
      ensures qps[j].qpNum == qpNums[j]
      ensures qps[j].inUse <==> j < |remote| && toRtsOk[j]
      ensures qps[j].remoteInfo == (if qps[j].inUse then Some(remote[j]) else None)
    {
      assert fresh0[j] == RdmaHelpers.QpEntry(qpNums[j], false, None);
    }
  }

  /** Step 5 of connect_with_microview_host: connect local queue pair i to
      remote entry i, in order. An index past the pool raises, after the
      earlier queue pairs were connected. */
  method ConnectPairs(pool: RdmaHelpers.QueuePairPool, remote: seq<RdmaHelpers.RemoteQp>, toRtsOk: seq<bool>)
    returns (ok: bool)
    requires |remote| == |toRtsOk|
    modifies pool`qps
    ensures ok <==> |remote| <= |old(pool.qps)|
    ensures ok ==> pool.qps == ConnectedUpTo(old(pool.qps), remote, toRtsOk, |remote|)
    ensures !ok ==> pool.qps == ConnectedUpTo(old(pool.qps), remote, toRtsOk, |old(pool.qps)|)
  {
    ghost var qps0 := pool.qps;
    var i := 0;
    while i < |remote|
      invariant i <= |remote| && i <= |qps0|
      invariant pool.qps == ConnectedUpTo(qps0, remote, toRtsOk, i)
    {
      if i < |qps0| {
        ConnectedStep(qps0, remote, toRtsOk, i);
      }
      var r := pool.ConnectQueuePair(i, remote[i], toRtsOk[i]);
      if r.Failure? {
        return false;
      }
      i := i + 1;
    }
    return true;
  }

  // ---------------------------------------------------------------------
  // The collector object
  // ---------------------------------------------------------------------

  class MicroView {
    const controlPlaneUrl: string
    const host: string
    const port: string
    const numCollectors: nat
    const model: Lmap.Model
    /** The queue-pair pool; null until connected and after cleanup. */
    var qpPool: RdmaHelpers.QueuePairPool?
    /** The remote regions received on connection. */
    var remoteMrs: Option<seq<RdmaHelpers.MrMetadata>>
    /** The last layout fetched from the control plane. */
    var controlInfo: Option<seq<seq<Host.ControlInfo>>>
    var lmaps: seq<LmapConfig>

    constructor (controlPlaneUrl: string, numCollectors: nat, modelName: string)
      ensures this.controlPlaneUrl == controlPlaneUrl && this.numCollectors == numCollectors
      ensures (host, port) == HostAndPort(controlPlaneUrl)
      ensures model == ModelFor(modelName)
      ensures qpPool == null && remoteMrs.None? && controlInfo.None? && lmaps == []
    {
      this.controlPlaneUrl := controlPlaneUrl;
      var hp := HostAndPort(controlPlaneUrl);
      host := hp.0;
      port := hp.1;
      this.numCollectors := numCollectors;
      model := ModelFor(modelName);
      qpPool := null;
      remoteMrs := None;
      controlInfo := None;
      lmaps := [];
    }

    /** connect_with_microview_host: create a pool of one queue pair per
        collector, fetch the host's queue pairs, connect them pairwise,
        post the local queue pairs (as listed before connecting), then
        fetch the host's memory regions. `qpNums` are the numbers the
        verbs library gives the new queue pairs; the three replies are
        None when the request failed and `toRtsOk` says which transitions
        to ready-to-send succeed. On any failure the collector is cleaned
        up and the error raised. */
    method ConnectWithMicroviewHost(gid: string, qpNums: seq<nat>,
                                    qpsReply: Option<seq<RdmaHelpers.RemoteQp>>, toRtsOk: seq<bool>,
                                    connectOk: bool, mrsReply: Option<seq<MrReply>>)
      returns (r: Option<ConnectError>, posted: seq<RdmaHelpers.LocalQpInfo>)
      requires |qpNums| == numCollectors
      requires qpsReply.Some? ==> |toRtsOk| == |qpsReply.value|
      modifies this`qpPool, this`remoteMrs, this`lmaps
      ensures qpsReply.None? ==> r == Some(QpsRequestFailed)
      ensures qpsReply == Some([]) ==> r == Some(NoRemoteQps)
      ensures qpsReply.Some? && |qpsReply.value| > numCollectors ==> r == Some(QpIndexOutOfRange)
      ensures qpsReply.Some? && 0 < |qpsReply.value| <= numCollectors && !connectOk ==> r == Some(ConnectRequestFailed)
      ensures qpsReply.Some? && 0 < |qpsReply.value| <= numCollectors && connectOk && mrsReply.None? ==>
        r == Some(MrsRequestFailed)
      ensures r.None? <==> qpsReply.Some? && 0 < |qpsReply.value| <= numCollectors && connectOk && mrsReply.Some?
      ensures r.Some? ==> qpPool == null && lmaps == [] && remoteMrs == old(remoteMrs)
      ensures r.None? ==>
        qpPool != null && fresh(qpPool) && qpPool.gid == gid && lmaps == old(lmaps) &&
        qpPool.qps == ConnectedUpTo(RdmaHelpers.FreshPool(qpNums), qpsReply.value, toRtsOk, |qpsReply.value|)
      ensures r.None? ==>
        remoteMrs.Some? && |remoteMrs.value| == |mrsReply.value| &&
        forall i :: 0 <= i < |mrsReply.value| ==>
          remoteMrs.value[i] == RdmaHelpers.MrMetadata(mrsReply.value[i].addr, mrsReply.value[i].rkey, mrsReply.value[i].size, None)
      ensures !(qpsReply.Some? && 0 < |qpsReply.value| <= numCollectors) ==> posted == []
      ensures qpsReply.Some? && 0 < |qpsReply.value| <= numCollectors ==>
        |posted| == numCollectors &&
        forall i :: 0 <= i < numCollectors ==> posted[i] == RdmaHelpers.LocalQpInfo(qpNums[i], gid, false)
    {
      posted := [];
      var pool := new RdmaHelpers.QueuePairPool(numCollectors, gid, qpNums);
      qpPool := pool;
      var localInfo := pool.ListQueuePairs();
      if qpsReply.None? {
        Cleanup();
        return Some(QpsRequestFailed), posted;
      }
      var remote := qpsReply.value;
      if |remote| == 0 {
        Cleanup();
        return Some(NoRemoteQps), posted;
      }
      var ok := ConnectPairs(pool, remote, toRtsOk);
      if !ok {
        Cleanup();
        return Some(QpIndexOutOfRange), posted;
      }
      posted := localInfo;
      if !connectOk {
        Cleanup();
        return Some(ConnectRequestFailed), posted;
      }
      if mrsReply.None? {
        Cleanup();
        return Some(MrsRequestFailed), posted;
      }
      var mrs := mrsReply.value;
      remoteMrs := Some(seq(|mrs|, i requires 0 <= i < |mrs| => RdmaHelpers.MrMetadata(mrs[i].addr, mrs[i].rkey, mrs[i].size, None)));
      r := None;
    }

    /** Fetch the layout (`fetched` is None when the request failed, which
        keeps the previous layout), then add one LMAP per slice of the
        active regions. */
    method ConfigureLmaps(fetched: Option<seq<seq<Host.ControlInfo>>>) returns (r: Option<NicError>)
      requires qpPool != null ==> |qpPool.qps| == numCollectors
      modifies this`controlInfo, this`lmaps
      ensures controlInfo == (if fetched.Some? then fetched else old(controlInfo))
      ensures controlInfo.None? || remoteMrs.None? ==> r == Some(NoLayout) && lmaps == old(lmaps)
      ensures controlInfo.Some? && remoteMrs.Some? && |controlInfo.value| != |remoteMrs.value| ==>
        r == Some(LayoutMismatch) && lmaps == old(lmaps)
      ensures controlInfo.Some? && remoteMrs.Some? && |controlInfo.value| == |remoteMrs.value| ==>
        if qpPool != null then
          r.None? && lmaps == old(lmaps) + Plan(controlInfo.value, remoteMrs.value, numCollectors, qpPool.qps)
        else if LmapCount(controlInfo.value, numCollectors) == 0 then
          r.None? && lmaps == old(lmaps)
        else
          r == Some(NotConnected) && lmaps == old(lmaps)
    {
      if fetched.Some? {
        controlInfo := fetched;
      }
      if controlInfo.None? || remoteMrs.None? {
        return Some(NoLayout);
      }
      var info := controlInfo.value;
      var mrs := remoteMrs.value;
      if |info| != |mrs| {
        return Some(LayoutMismatch);
      }

      var act: seq<nat> := [];
      var i := 0;
      while i < |info|
        invariant i <= |info|
        invariant act == Active(info[..i])
        invariant controlInfo == Some(info) && lmaps == old(lmaps)
      {
        assert info[..i + 1][..i] == info[..i];
        if |info[i]| != 0 {
          act := act + [i];
        }
        i := i + 1;
      }
      assert info[..i] == info;
      if |act| == 0 {
        return None;
      }

      var nlmap := Min(numCollectors, |act|);
      if nlmap == 0 {
        return None;
      }
      if qpPool == null {
        return Some(NotConnected);
      }
      AddLmaps(info, mrs, act, nlmap);
      r := None;
    }

    /** The loop of configure_lmaps: build LMAP k for each slice k of the
        active regions and append it. */
    method AddLmaps(info: seq<seq<Host.ControlInfo>>, mrs: seq<RdmaHelpers.MrMetadata>, act: seq<nat>, nlmap: nat)
      requires qpPool != null && |qpPool.qps| == numCollectors
      requires |info| == |mrs| && act == Active(info) && nlmap == LmapCount(info, numCollectors)
      modifies this`lmaps
      ensures lmaps == old(lmaps) + Plan(info, mrs, numCollectors, qpPool.qps)
    {
      ghost var lmaps0 := lmaps;
      ghost var plan := Plan(info, mrs, numCollectors, qpPool.qps);
      var k := 0;
      while k < nlmap
        invariant k <= nlmap
        invariant lmaps == lmaps0 + plan[..k]
      {
        var start := k * |act| / nlmap;
        var end := if k == nlmap - 1 then |act| else (k + 1) * |act| / nlmap;
        SliceBounds(k, |act|, nlmap);
        var mrIndices := act[start..end];
        assert mrIndices == SliceOf(act, nlmap, k);
        SliceInRange(info, nlmap, k);
        var regions := seq(|mrIndices|, j requires 0 <= j < |mrIndices| => mrs[mrIndices[j]]);
        var crs := seq(|mrIndices|, j requires 0 <= j < |mrIndices| => info[mrIndices[j]]);
        var qp := qpPool.GetQpObject(k % numCollectors);
        var lmap := LmapConfig(CollectorId(k), mrIndices, regions, crs, qp.value);
        assert lmap == LmapFor(k, info, mrs, numCollectors, qpPool.qps) == plan[k];
        assert plan[..k + 1] == plan[..k] + [lmap];
        lmaps := lmaps + [lmap];
        k := k + 1;
      }
      assert plan[..k] == plan;
    }

    /** Drop the LMAPs and the queue-pair pool; a second cleanup finds
        nothing left to release. */
    method Cleanup()
      modifies this`lmaps, this`qpPool
      ensures lmaps == [] && qpPool == null
    {
      lmaps := [];
      qpPool := null;
    }
  }
}
