/**
 * The client library a microservice links against (libmicroview.py): it
 * asks the host agent for a metric slot, maps the host's shared segment
 * once, and then reads and writes each metric's 8-byte value field
 * directly in that segment. The HTTP request to the host enters as a
 * parameter (its reply), and so does the segment that opening the
 * reply's shared-memory name attaches to.
 */
module LibMicroView {
  import opened Common
  import Metrics

  /** What the host agent answered to a creation request: a request
      failure, or the segment name and the value field's offset in it. */
  datatype HostReply = RequestFailed | Created(shmName: string, addr: nat)

  datatype ClientError = ConnectionError

  /** The segment bytes after a value is written at `addr`. */
  function Stored(mem: seq<byte>, addr: nat, v: word64): (r: seq<byte>)
    requires addr + 8 <= |mem|
    ensures |r| == |mem|
  {
    Metrics.Overwrite(mem, addr, Metrics.WordBytes(v))
  }

  /** The value the 8 bytes at `addr` hold. */
  function Loaded(mem: seq<byte>, addr: nat): word64
    requires addr + 8 <= |mem|
  {
    Metrics.BytesWord(mem[addr..addr + 8])
  }

  /** Reading a value field gives back what was last written to it. */
  lemma {:induction false} LoadStored(mem: seq<byte>, addr: nat, v: word64)
    requires addr + 8 <= |mem|
    ensures Loaded(Stored(mem, addr, v), addr) == v
  {
    Metrics.WordRoundTrip(v);
  }

  /** Writing one value field leaves every value field that does not
      overlap it as it was: metrics in distinct slots do not interfere. */
  lemma {:induction false} StoredElsewhere(mem: seq<byte>, addr: nat, other: nat, v: word64)
    requires addr + 8 <= |mem| && other + 8 <= |mem|
    requires addr + 8 <= other || other + 8 <= addr
    ensures Loaded(Stored(mem, addr, v), other) == Loaded(mem, other)
  {
    var after := Stored(mem, addr, v);
    assert after[other..other + 8] == mem[other..other + 8];
  }

  /** Record slots are 64 bytes apart, so the value fields of two different
      records never overlap. */
  lemma {:induction false} SlotsDisjoint(base: nat, i: nat, j: nat)
    requires i != j
    ensures base + Metrics.ValueFieldOffset(i) + 8 <= base + Metrics.ValueFieldOffset(j) ||
            base + Metrics.ValueFieldOffset(j) + 8 <= base + Metrics.ValueFieldOffset(i)
  {
    if i < j {
      assert i * 64 + 64 <= j * 64;
    } else {
      assert j * 64 + 64 <= i * 64;
    }
  }

  /** A handle on one metric: the mapped segment and the offset of the
      metric's value field in it (the pointer is the segment's base plus
      that offset). */
  class MicroViewMetric {
    const shm: array<byte>
    const valueAddr: nat
    const metricName: string
    const isGauge: bool

    constructor (shm: array<byte>, valueAddr: nat, metricName: string, isGauge: bool)
      ensures this.shm == shm && this.valueAddr == valueAddr
      ensures this.metricName == metricName && this.isGauge == isGauge
    {
      this.shm := shm;
      this.valueAddr := valueAddr;
      this.metricName := metricName;
      this.isGauge := isGauge;
    }

    /** Write `v` through the value pointer. The pointer is not checked in
        the library, so the field must lie inside the segment. */
    method UpdateValue(v: word64)
      requires valueAddr + 8 <= shm.Length
      modifies shm
      ensures shm[..] == Stored(old(shm[..]), valueAddr, v)
      ensures GetValue() == v
    {
      forall k | 0 <= k < 8 {
        shm[valueAddr + k] := Metrics.WordBytes(v)[k];
      }
      assert shm[..] == Stored(old(shm[..]), valueAddr, v);
      LoadStored(old(shm[..]), valueAddr, v);
    }

    /** The value the pointer currently points at. */
    function GetValue(): (v: word64)
      reads shm
      requires valueAddr + 8 <= shm.Length
      ensures Metrics.HoldsWord(shm[..], valueAddr, v)
    {
      Loaded(shm[..], valueAddr)
    }
  }

  class MicroViewClient {
    const microserviceId: string
    const host: string
    const port: nat
    /** The metrics created so far, by name. */
    var metrics: map<string, MicroViewMetric>
    /** The mapped segment; null until the first successful creation and
        after close. */
    var shm: array?<byte>

    constructor (microserviceId: string, host: string, port: nat)
      ensures this.microserviceId == microserviceId && this.host == host && this.port == port
      ensures metrics == map[] && shm == null
    {
      this.microserviceId := microserviceId;
      this.host := host;
      this.port := port;
      metrics := map[];
      shm := null;
    }

    /** Create metric `name`: a name created before gives back the cached
        handle without asking the host; otherwise the host's `reply`
        decides. A failed request raises ConnectionError and caches
        nothing. A successful one maps the segment (`segment` is what
        opening the reply's name attaches to) unless one is mapped already,
        and caches a handle on the returned offset in the mapped segment. */
    method CreateMetric(name: string, isGauge: bool, initialValue: word64, reply: HostReply, segment: array<byte>)
      returns (r: Result<MicroViewMetric, ClientError>)
      modifies this`metrics, this`shm
      ensures name in old(metrics) ==>
        r == Success(old(metrics)[name]) && metrics == old(metrics) && shm == old(shm)
      ensures name !in old(metrics) && reply.RequestFailed? ==>
        r == Failure(ConnectionError) && metrics == old(metrics) && shm == old(shm)
      ensures name !in old(metrics) && reply.Created? ==>
        r.Success? && fresh(r.value) &&
        shm == (if old(shm) == null then segment else old(shm)) &&
        r.value.shm == shm && r.value.valueAddr == reply.addr &&
        r.value.metricName == name && r.value.isGauge == isGauge &&
        metrics == old(metrics)[name := r.value]
    {
      if name in metrics {
        return Success(metrics[name]);
      }
      if reply.RequestFailed? {
        return Failure(ConnectionError);
      }
      if shm == null {
        shm := segment;
      }
      var metric := new MicroViewMetric(shm, reply.addr, name, isGauge);
      metrics := metrics[name := metric];
      r := Success(metric);
    }

    /** Release the mapped segment; a second close finds none and does
        nothing. The result tells whether a segment was released. */
    method Close() returns (released: bool)
      modifies this`shm
      ensures shm == null
      ensures released <==> old(shm) != null
    {
      released := shm != null;
      shm := null;
    }
  }
}
