/**
 * The RDMA connection-manager collector (rdma/cm_collector.py): a single
 * reliable-connection queue pair to a remote host, a list of remote regions
 * registered by a control plane, and a read of every registered region.
 * What the connection manager does (establishing the connection, posting a
 * read, the completion it returns) enters as parameters.
 */
module CmCollector {
  import opened Common
  import RdmaHelpers

  const PAGE_SIZE: int := 4096

  /** The status of a successful work completion (IBV_WC_SUCCESS). */
  const WC_SUCCESS: nat := 0

  datatype CmError =
    | ConnectFailed              // creating or connecting the CM id raised
    | NotConnected               // RuntimeError: connection not established
    | NoRegions                  // RuntimeError: no remote region registered
    | ReadFailed(index: nat, status: nat)   // RuntimeError: a read completed with an error

  // ---------------------------------------------------------------------
  // Remote access placeholder
  // ---------------------------------------------------------------------

  /** The locally stored region info: unreadable, or a dictionary whose
      "addr" and "rkey" entries may each be missing. */
  datatype InfoFile = Unreadable | Loaded(addr: Option<int>, rkey: Option<int>)

  function GetOr(o: Option<int>, d: int): int
  {
    if o.Some? then o.value else d
  }

  /** The (address, key) pair request_remote_access hands out for page
      `pageOffset` of a service. A readable info file gives its address,
      moved forward by whole pages only for a positive offset; an
      unreadable one gives the placeholder address 0x1000 moved by the
      offset in either direction, with key 123. */
  function RequestRemoteAccess(file: InfoFile, pageOffset: int): (r: (int, int))
  {
    match file
    case Unreadable => (0x1000 + pageOffset * PAGE_SIZE, 123)
    case Loaded(addr, rkey) =>
      var base := GetOr(addr, 0);
      (if pageOffset > 0 then base + pageOffset * PAGE_SIZE else base, GetOr(rkey, 0))
  }

  /** From page 0 on, consecutive pages are one page size apart, whichever
      way the info was obtained. */
  lemma {:induction false} RemoteAccessStride(file: InfoFile, pageOffset: nat)
    ensures RequestRemoteAccess(file, pageOffset + 1).0 == RequestRemoteAccess(file, pageOffset).0 + PAGE_SIZE
  {
  }

  /** Page 0 is the stored address itself (0 when the entry is missing), or
      0x1000 without an info file. */
  lemma {:induction false} RemoteAccessBase(file: InfoFile)
    ensures file.Loaded? ==> RequestRemoteAccess(file, 0).0 == GetOr(file.addr, 0)
    ensures file.Unreadable? ==> RequestRemoteAccess(file, 0) == (0x1000, 123)
  {
  }

  /** The key never depends on the page: it is the stored key (0 when the
      entry is missing), or 123 without an info file. */
  lemma {:induction false} RemoteAccessKey(file: InfoFile, pageOffset: int)
    ensures RequestRemoteAccess(file, pageOffset).1 == (if file.Loaded? then GetOr(file.rkey, 0) else 123)
  {
  }

  /** A negative offset is ignored when the info file is read but applied
      to the placeholder address when it is not. */
  lemma {:induction false} NegativeOffset(addr: Option<int>, rkey: Option<int>, pageOffset: int)
    requires pageOffset < 0
    ensures RequestRemoteAccess(Loaded(addr, rkey), pageOffset).0 == GetOr(addr, 0)
    ensures RequestRemoteAccess(Unreadable, pageOffset).0 < 0x1000
  {
  }

  // ---------------------------------------------------------------------
  // Reading the registered regions
  // ---------------------------------------------------------------------

  /** What polling the send completion queue returned for one read: the
      work-completion status, and the bytes the local buffer holds
      afterwards. */
  datatype WorkCompletion = WorkCompletion(status: nat, data: seq<byte>)

  /** The key a region's bytes are stored under: its name, or its position
      in the registration order when it has none. */
  datatype Key = Named(name: string) | Index(index: nat)

  function KeyOf(region: RdmaHelpers.MrMetadata, idx: nat): Key
  {
    if region.name.Some? then Named(region.name.value) else Index(idx)
  }

  /** The result of reading `regions` in order, `wcs[i]` being the
      completion of region i's read: the first failed completion aborts the
      whole read; otherwise each region's bytes are stored under its key, a
      later region overwriting an earlier one with the same key. */
  function ReadAll(regions: seq<RdmaHelpers.MrMetadata>, wcs: seq<WorkCompletion>)
    : (r: Result<map<Key, seq<byte>>, CmError>)
    requires |wcs| == |regions|
  {
    if |regions| == 0 then Success(map[])
    else
      var n := |regions| - 1;
      match ReadAll(regions[..n], wcs[..n])
      case Failure(e) => Failure(e)
      case Success(m) =>
        if wcs[n].status != WC_SUCCESS then Failure(ReadFailed(n, wcs[n].status))
        else Success(m[KeyOf(regions[n], n) := wcs[n].data])
  }

  /** Region `i` is the last of `regions` stored under key `k`. */
  ghost predicate LastWithKey(regions: seq<RdmaHelpers.MrMetadata>, i: int, k: Key)
  {
    0 <= i < |regions| && KeyOf(regions[i], i) == k &&
    forall j :: i < j < |regions| ==> KeyOf(regions[j], j) != k
  }

  /** Some region is stored under key `k`. */
  ghost predicate HasKey(regions: seq<RdmaHelpers.MrMetadata>, k: Key)
  {
    exists i :: 0 <= i < |regions| && KeyOf(regions[i], i) == k
  }

  /** The read fails exactly when some completion is not successful, and
      then it reports the first such region and its status. */
  lemma {:induction false} ReadAllOutcome(regions: seq<RdmaHelpers.MrMetadata>, wcs: seq<WorkCompletion>)
    requires |wcs| == |regions|
    ensures ReadAll(regions, wcs).Success? <==> forall j :: 0 <= j < |wcs| ==> wcs[j].status == WC_SUCCESS
    ensures ReadAll(regions, wcs).Failure? ==>
      var e := ReadAll(regions, wcs).error;
      e.ReadFailed? && e.index < |wcs| && e.status == wcs[e.index].status != WC_SUCCESS &&
      forall j :: 0 <= j < e.index ==> wcs[j].status == WC_SUCCESS
  {
    if |regions| > 0 {
      var n := |regions| - 1;
      ReadAllOutcome(regions[..n], wcs[..n]);
      assert forall j :: 0 <= j < n ==> wcs[..n][j] == wcs[j];
    }
  }

  /** A successful read holds a key exactly when some region is stored
      under it. */
  lemma {:induction false} ReadAllKeys(regions: seq<RdmaHelpers.MrMetadata>, wcs: seq<WorkCompletion>, k: Key)
    requires |wcs| == |regions|
    requires ReadAll(regions, wcs).Success?
    ensures k in ReadAll(regions, wcs).value <==> HasKey(regions, k)
  {
    if |regions| > 0 {
      var n := |regions| - 1;
      var front := regions[..n];
      ReadAllKeys(front, wcs[..n], k);
      if HasKey(front, k) {
        var i :| 0 <= i < n && KeyOf(front[i], i) == k;
        assert KeyOf(regions[i], i) == k;
      }
      if HasKey(regions, k) && KeyOf(regions[n], n) != k {
        var i :| 0 <= i < |regions| && KeyOf(regions[i], i) == k;
        assert i < n && KeyOf(front[i], i) == k;
      }
    }
  }

  /** A successful read stores under each key the bytes of the last region
      with that key. */
  lemma {:induction false} ReadAllLast(regions: seq<RdmaHelpers.MrMetadata>, wcs: seq<WorkCompletion>, i: int, k: Key)
    requires |wcs| == |regions|
    requires ReadAll(regions, wcs).Success?
    requires LastWithKey(regions, i, k)
    ensures k in ReadAll(regions, wcs).value
    ensures ReadAll(regions, wcs).value[k] == wcs[i].data
  {
    var n := |regions| - 1;
    if i < n {
      var front := regions[..n];
      assert forall j :: i < j < n ==> KeyOf(front[j], j) == KeyOf(regions[j], j);
      ReadAllLast(front, wcs[..n], i, k);
    }
  }

  /** An unnamed region's bytes are always kept, under its own position:
      no other region can share that key. */
  lemma {:induction false} UnnamedRegionKept(regions: seq<RdmaHelpers.MrMetadata>, wcs: seq<WorkCompletion>, i: nat)
    requires |wcs| == |regions|
    requires ReadAll(regions, wcs).Success?
    requires i < |regions| && regions[i].name.None?
    ensures Index(i) in ReadAll(regions, wcs).value
    ensures ReadAll(regions, wcs).value[Index(i)] == wcs[i].data
  {
    assert LastWithKey(regions, i, Index(i));
    ReadAllLast(regions, wcs, i, Index(i));
  }

  /** Two regions registered under the same name keep only the second
      one's bytes. */
  lemma {:induction false} SameNameOverwrites(a: RdmaHelpers.MrMetadata, b: RdmaHelpers.MrMetadata, d1: seq<byte>, d2: seq<byte>)
    requires a.name.Some? && a.name == b.name
    ensures var wcs := [WorkCompletion(WC_SUCCESS, d1), WorkCompletion(WC_SUCCESS, d2)];
      ReadAll([a, b], wcs) == Success(map[Named(a.name.value) := d2])
  {
    var wcs := [WorkCompletion(WC_SUCCESS, d1), WorkCompletion(WC_SUCCESS, d2)];
    assert [a, b][..1] == [a] && wcs[..1] == [wcs[0]];
    assert [a][..0] == [] && [wcs[0]][..0] == [];
    var k := Named(a.name.value);
    assert KeyOf(a, 0) == k && KeyOf(b, 1) == k;
    assert ReadAll([a], [wcs[0]]) == Success(map[k := d1]);
    assert map[k := d1][k := d2] == map[k := d2];
  }

  // ---------------------------------------------------------------------
  // The collector
  // ---------------------------------------------------------------------

  class Collector {
    const hostAddr: string
    const port: string
    var connected: bool
    var remoteRegions: seq<RdmaHelpers.MrMetadata>

    constructor Init(hostAddr: string, port: string)
      ensures this.hostAddr == hostAddr && this.port == port
      ensures !connected && remoteRegions == []
    {
      this.hostAddr := hostAddr;
      this.port := port;
      connected := false;
      remoteRegions := [];
    }

    /** Create a collector and connect it to `hostAddr`:`port`;
        `connectOk` is whether creating and connecting the CM id succeeded.
        A failed connection raises, so no collector exists that has not
        connected. */
    static method New(hostAddr: string, port: string, connectOk: bool) returns (r: Result<Collector, CmError>)
      ensures r.Success? <==> connectOk
      ensures r.Failure? ==> r.error == ConnectFailed
      ensures r.Success? ==>
        fresh(r.value) && r.value.connected && r.value.remoteRegions == [] &&
        r.value.hostAddr == hostAddr && r.value.port == port
    {
      var c := new Collector.Init(hostAddr, port);
      var ok := c.InitConnection(connectOk);
      if !ok {
        return Failure(ConnectFailed);
      }
      r := Success(c);
    }

    /** Establish the connection: the flag is raised only once connecting
        has returned. */
    method InitConnection(connectOk: bool) returns (ok: bool)
      modifies this`connected
      ensures ok == connectOk
      ensures connected == (old(connected) || connectOk)
    {
      if !connectOk {
        return false;
      }
      connected := true;
      ok := true;
    }

    /** Register a remote region of `length` bytes (one page when not
        given) to be read; the result is its position in the list. */
    method RegisterRemoteReadRegion(remoteAddr: nat, rkey: nat, length: Option<nat>, name: Option<string>)
      returns (r: Result<nat, CmError>)
      modifies this`remoteRegions
      ensures !connected ==> r == Failure(NotConnected) && remoteRegions == old(remoteRegions)
      ensures connected ==>
        var n := if length.Some? then length.value else PAGE_SIZE as nat;
        remoteRegions == old(remoteRegions) + [RdmaHelpers.MrMetadata(remoteAddr, rkey, n, name)] &&
        r == Success(|old(remoteRegions)|)
    {
      if !connected {
        return Failure(NotConnected);
      }
      var n := if length.Some? then length.value else PAGE_SIZE as nat;
      remoteRegions := remoteRegions + [RdmaHelpers.MrMetadata(remoteAddr, rkey, n, name)];
      r := Success(|remoteRegions| - 1);
    }

    /** Read every registered region in order; `wcs[i]` is the completion
        of region i's read. */
    method ReadMetrics(wcs: seq<WorkCompletion>) returns (r: Result<map<Key, seq<byte>>, CmError>)
      requires |wcs| == |remoteRegions|
      ensures !connected ==> r == Failure(NotConnected)
      ensures connected && |remoteRegions| == 0 ==> r == Failure(NoRegions)
      ensures connected && |remoteRegions| > 0 ==> r == ReadAll(remoteRegions, wcs)
    {
      if !connected {
        return Failure(NotConnected);
      }
      if |remoteRegions| == 0 {
        return Failure(NoRegions);
      }
      r := ReadRegions(remoteRegions, wcs);
    }
  }

  /** The read loop of read_metrics over `regions`. */
  method ReadRegions(regions: seq<RdmaHelpers.MrMetadata>, wcs: seq<WorkCompletion>)
    returns (r: Result<map<Key, seq<byte>>, CmError>)
    requires |wcs| == |regions|
    ensures r == ReadAll(regions, wcs)
  {
    var results: map<Key, seq<byte>> := map[];
    var i := 0;
    while i < |regions|
      invariant 0 <= i <= |regions|
      invariant ReadAll(regions[..i], wcs[..i]) == Success(results)
    {
      assert regions[..i + 1][..i] == regions[..i] && wcs[..i + 1][..i] == wcs[..i];
      if wcs[i].status != WC_SUCCESS {
        ReadFailureSticks(regions, wcs, i + 1);
        return Failure(ReadFailed(i, wcs[i].status));
      }
      results := results[KeyOf(regions[i], i) := wcs[i].data];
      i := i + 1;
    }
    assert regions[..i] == regions && wcs[..i] == wcs;
    r := Success(results);
  }

  /** Once the reads of a prefix fail, the whole read fails the same way. */
  lemma {:induction false} ReadFailureSticks(regions: seq<RdmaHelpers.MrMetadata>, wcs: seq<WorkCompletion>, k: nat)
    requires |wcs| == |regions| && k <= |regions|
    requires ReadAll(regions[..k], wcs[..k]).Failure?
    ensures ReadAll(regions, wcs) == ReadAll(regions[..k], wcs[..k])
    decreases |regions| - k
  {
    if k < |regions| {
      var rs := regions[..k + 1];
      var ws := wcs[..k + 1];
      assert rs[..k] == regions[..k] && ws[..k] == wcs[..k];
      assert ReadAll(rs, ws) == ReadAll(regions[..k], wcs[..k]);
      ReadFailureSticks(regions, wcs, k + 1);
    } else {
      assert regions[..k] == regions && wcs[..k] == wcs;
    }
  }
}
