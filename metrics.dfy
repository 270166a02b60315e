/**
 * The 64-byte metric record and the page of records that the host keeps in
 * shared memory (metrics.py). A record holds a 55-byte NUL-padded name, one
 * type byte (0 counter, 1 gauge) at offset 55 and the 8-byte value at
 * offset 56. A page is a view of `maxMetrics` consecutive records inside the
 * shared segment; `FromBytes` decodes the bytes an RDMA read brings back.
 */
module Metrics {
  import opened Common

  const RECORD_SIZE: nat := 64
  const NAME_SIZE: nat := 55
  const TYPE_OFFSET: nat := 55
  const VALUE_OFFSET: nat := 56
  const VALUE_SIZE: nat := 8

  const METRIC_TYPE_COUNTER: nat := 0
  const METRIC_TYPE_GAUGE: nat := 1

  /** One metric as stored: the name's bytes, gauge (true) or counter
      (false), and the value field as the 64-bit pattern of the float64. */
  datatype Metric = Metric(name: seq<byte>, isGauge: bool, value: word64)

  datatype PageError =
    | BufferSizeNotMultiple   // np.frombuffer: size not a multiple of the record size
    | PageFull                // add_metric on a full page (ValueError)
    | NameNotAscii            // the name cannot be stored in a bytes field

  // ---------------------------------------------------------------------
  // Field encodings
  // ---------------------------------------------------------------------

  function Zeros(n: nat): (z: seq<byte>)
    ensures |z| == n && forall i :: 0 <= i < n ==> z[i] == 0
  {
    seq(n, _ => 0)
  }

  /** The 'S55' name field: truncated to 55 bytes, NUL padded. */
  function NameField(name: seq<byte>): (f: seq<byte>)
    ensures |f| == 55
  {
    seq(55, i requires 0 <= i < 55 => if i < |name| then name[i] else 0)
  }

  /** Reading an 'S' field drops its trailing NUL bytes. */
  function StripTrailingNuls(b: seq<byte>): (r: seq<byte>)
    ensures |r| <= |b| && r == b[..|r|]
    ensures |r| > 0 ==> r[|r| - 1] != 0
    ensures forall i :: |r| <= i < |b| ==> b[i] == 0
  {
    if |b| > 0 && b[|b| - 1] == 0 then StripTrailingNuls(b[..|b| - 1]) else b
  }

  function Pow256(k: nat): (p: nat)
    ensures p >= 1
  {
    if k == 0 then 1 else 256 * Pow256(k - 1)
  }

  /** The `k` little-endian bytes of `n`. */
  function LittleEndian(n: nat, k: nat): (b: seq<byte>)
    ensures |b| == k
  {
    if k == 0 then [] else [n % 256] + LittleEndian(n / 256, k - 1)
  }

  /** The number whose little-endian bytes are `b`. */
  function LittleEndianValue(b: seq<byte>): (n: nat)
    ensures n < Pow256(|b|)
  {
    if |b| == 0 then 0 else b[0] + 256 * LittleEndianValue(b[1..])
  }

  lemma {:induction false} LittleEndianRoundTrip(n: nat, k: nat)
    requires n < Pow256(k)
    ensures LittleEndianValue(LittleEndian(n, k)) == n
  {
    if k > 0 {
      LittleEndianRoundTrip(n / 256, k - 1);
      assert LittleEndian(n, k)[1..] == LittleEndian(n / 256, k - 1);
    }
  }

  /** The float64 value field as 8 little-endian bytes. */
  function WordBytes(w: word64): (b: seq<byte>)
    ensures |b| == 8
  {
    LittleEndian(w, 8)
  }

  function BytesWord(b: seq<byte>): (w: word64)
    requires |b| == 8
  {
    assert Pow256(8) == 0x1_0000_0000_0000_0000;
    LittleEndianValue(b)
  }

  /** The 8 bytes at `a` in `b` read as `w`. */
  predicate HoldsWord(b: seq<byte>, a: nat, w: word64)
  {
    a + 8 <= |b| && BytesWord(b[a..a + 8]) == w
  }

  lemma {:induction false} WordRoundTrip(w: word64)
    ensures BytesWord(WordBytes(w)) == w
  {
    assert Pow256(8) == 0x1_0000_0000_0000_0000;
    LittleEndianRoundTrip(w, 8);
  }

  // ---------------------------------------------------------------------
  // Records
  // ---------------------------------------------------------------------

  /** The 64 bytes of a record (numpy `metric_dtype` with align=True). */
  function EncodeRecord(m: Metric): (r: seq<byte>)
    ensures |r| == 64
  {
    seq(64, i requires 0 <= i < 64 => RecordByte(m, i))
  }

  /** Byte `i` of the record of `m`. */
  function RecordByte(m: Metric, i: nat): byte
    requires i < 64
  {
    if i < 55 then NameField(m.name)[i]
    else if i == 55 then (if m.isGauge then 1 else 0)
    else WordBytes(m.value)[i - 56]
  }

  /** The three fields of a record: the name in bytes 0..55, the type
      byte at 55 and the value in bytes 56..64. */
  lemma {:induction false} RecordFields(m: Metric)
    ensures var r := EncodeRecord(m);
      r[..55] == NameField(m.name) &&
      r[55] == (if m.isGauge then METRIC_TYPE_GAUGE else METRIC_TYPE_COUNTER) &&
      r[56..] == WordBytes(m.value)
  {
    var r := EncodeRecord(m);
    assert r[..55] == NameField(m.name);
    assert r[56..] == WordBytes(m.value);
  }

  function DecodeRecord(r: seq<byte>): Metric
    requires |r| == 64
  {
    Metric(StripTrailingNuls(r[..55]), r[55] != 0, BytesWord(r[56..]))
  }

  /** What survives a store and a load: the name cut to 55 bytes without
      its trailing NULs. */
  function Normalize(m: Metric): Metric
  {
    m.(name := StripTrailingNuls(NameField(m.name)))
  }

  /** Decoding an encoded record gives the stored metric back, up to the
      name field's truncation and NUL stripping. */
  lemma {:induction false} DecodeEncode(m: Metric)
    ensures DecodeRecord(EncodeRecord(m)) == Normalize(m)
  {
    RecordFields(m);
    WordRoundTrip(m.value);
  }

  /** A name of at most 55 bytes that does not end in NUL is stored exactly. */
  lemma {:induction false} NormalizeKeepsShortNames(m: Metric)
    requires |m.name| <= 55
    requires |m.name| == 0 || m.name[|m.name| - 1] != 0
    ensures Normalize(m) == m
  {
    var f := NameField(m.name);
    assert f[..|m.name|] == m.name;
    StripZerosDown(f, |m.name|);
  }

  /** Stripping a field whose bytes from `k` on are NUL and whose byte
      before `k` is not gives its first `k` bytes. */
  lemma {:induction false} StripZerosDown(f: seq<byte>, k: nat)
    requires k <= |f|
    requires forall i :: k <= i < |f| ==> f[i] == 0
    requires k == 0 || f[k - 1] != 0
    ensures StripTrailingNuls(f) == f[..k]
    decreases |f|
  {
    if |f| > k {
      StripZerosDown(f[..|f| - 1], k);
      assert f[..|f| - 1][..k] == f[..k];
    } else {
      assert f[..k] == f;
    }
  }

  /** The bytes of consecutive records. */
  function EncodeAll(ms: seq<Metric>): (b: seq<byte>)
    ensures |b| == |ms| * 64
  {
    if |ms| == 0 then [] else EncodeAll(ms[..|ms| - 1]) + EncodeRecord(ms[|ms| - 1])
  }

  /** All records of a buffer whose size is a multiple of the record
      size: record i is the 64 bytes from 64 * i. */
  function Records(raw: seq<byte>): (rs: seq<Metric>)
    requires |raw| % 64 == 0
    ensures |rs| * 64 == |raw|
  {
    seq(|raw| / 64, i requires 0 <= i < |raw| / 64 => DecodeRecord(raw[i * 64..i * 64 + 64]))
  }

  // ---------------------------------------------------------------------
  // Decoded pages (MetricsPage.from_bytes)
  // ---------------------------------------------------------------------

  /** A page rebuilt from bytes: `maxMetrics` is the number of records in
      the bytes, `numEntries` the count the control plane announced, and
      names, types and values hold the first `numEntries` records (all of
      them when fewer exist, as slicing does). */
  datatype DecodedPage = DecodedPage(
    maxMetrics: nat,
    numEntries: nat,
    names: seq<seq<byte>>,
    types: seq<bool>,
    values: seq<word64>)
  {
    predicate IsFull() { numEntries >= maxMetrics }
  }

  /** The decoded view of records `rs` with `numEntries` announced. */
  function PageOf(rs: seq<Metric>, numEntries: nat): (p: DecodedPage)
    ensures p.maxMetrics == |rs| && p.numEntries == numEntries
    ensures |p.names| == |p.types| == |p.values| == Min(numEntries, |rs|)
    ensures forall i :: 0 <= i < Min(numEntries, |rs|) ==>
      p.names[i] == rs[i].name && p.types[i] == rs[i].isGauge && p.values[i] == rs[i].value
  {
    var k := Min(numEntries, |rs|);
    DecodedPage(|rs|, numEntries,
      seq(k, i requires 0 <= i < k => rs[i].name),
      seq(k, i requires 0 <= i < k => rs[i].isGauge),
      seq(k, i requires 0 <= i < k => rs[i].value))
  }

  function FromBytes(raw: seq<byte>, numEntries: nat): (r: Result<DecodedPage, PageError>)
    ensures r.Failure? <==> |raw| % 64 != 0
    ensures r.Success? ==>
      r.value.maxMetrics * 64 == |raw| && r.value.numEntries == numEntries &&
      |r.value.names| == |r.value.types| == |r.value.values| == Min(numEntries, r.value.maxMetrics)
  {
    if |raw| % 64 != 0 then Failure(BufferSizeNotMultiple)
    else Success(PageOf(Records(raw), numEntries))
  }

  lemma {:induction false} RecordsOfEncoded(ms: seq<Metric>, tail: seq<byte>)
    requires |tail| % 64 == 0
    ensures |Records(EncodeAll(ms) + tail)| == |ms| + |tail| / 64
    ensures forall i :: 0 <= i < |ms| ==> Records(EncodeAll(ms) + tail)[i] == Normalize(ms[i])
  {
    var raw := EncodeAll(ms) + tail;
    forall i | 0 <= i < |ms|
      ensures Records(raw)[i] == Normalize(ms[i])
    {
      EncodedAt(ms, i);
      assert raw[i * 64..i * 64 + 64] == EncodeAll(ms)[i * 64..i * 64 + 64];
      DecodeEncode(ms[i]);
    }
  }

  /** Record i of the bytes of consecutive records is record i's bytes. */
  lemma {:induction false} EncodedAt(ms: seq<Metric>, i: nat)
    requires i < |ms|
    ensures EncodeAll(ms)[i * 64..i * 64 + 64] == EncodeRecord(ms[i])
  {
    var init := ms[..|ms| - 1];
    assert EncodeAll(ms) == EncodeAll(init) + EncodeRecord(ms[|ms| - 1]);
    if i < |init| {
      EncodedAt(init, i);
      assert init[i] == ms[i];
    }
  }

  lemma {:induction false} EncodeAllFront(ms: seq<Metric>)
    requires |ms| > 0
    ensures EncodeAll(ms) == EncodeRecord(ms[0]) + EncodeAll(ms[1..])
  {
    if |ms| > 1 {
      EncodeAllFront(ms[..|ms| - 1]);
      assert ms[..|ms| - 1][1..] == ms[1..][..|ms[1..]| - 1];
      assert ms[..|ms| - 1][0] == ms[0];
      assert ms[1..][|ms[1..]| - 1] == ms[|ms| - 1];
    } else {
      assert ms[1..] == [];
    }
  }

  /** Round trip of a page: the records written at the start of a page
      region, read back with their count, decode to the written metrics
      (names cut to 55 bytes and stripped of trailing NULs); the rest of
      the region only adds to the page's capacity. */
  lemma {:induction false} PageRoundTrip(ms: seq<Metric>, tail: seq<byte>)
    requires |tail| % 64 == 0
    ensures var r := FromBytes(EncodeAll(ms) + tail, |ms|);
      r.Success? &&
      r.value.maxMetrics == |ms| + |tail| / 64 &&
      r.value.numEntries == |ms| &&
      (r.value.IsFull() <==> |tail| == 0) &&
      |r.value.names| == |ms|
  {
    var raw := EncodeAll(ms) + tail;
    assert |raw| % 64 == 0 by {
      assert |raw| == |ms| * 64 + |tail|;
    }
    RecordsOfEncoded(ms, tail);
    FromBytesOf(raw, |ms|);
    assert |tail| == 0 <==> |tail| / 64 == 0;
  }

  /** ... and record i decodes to metric i: its name cut to 55 bytes and
      stripped of trailing NULs, its type and its value. */
  lemma {:induction false} PageRoundTripEntries(ms: seq<Metric>, tail: seq<byte>)
    requires |tail| % 64 == 0
    ensures var r := FromBytes(EncodeAll(ms) + tail, |ms|);
      r.Success? && |r.value.names| == |ms| &&
      forall i :: 0 <= i < |ms| ==>
        r.value.names[i] == Normalize(ms[i]).name &&
        r.value.types[i] == ms[i].isGauge &&
        r.value.values[i] == ms[i].value
  {
    var raw := EncodeAll(ms) + tail;
    assert |raw| % 64 == 0 by {
      assert |raw| == |ms| * 64 + |tail|;
    }
    RecordsOfEncoded(ms, tail);
    FromBytesOf(raw, |ms|);
    var p := PageOf(Records(raw), |ms|);
    PageOfPrefix(Records(raw), ms);
    assert FromBytes(raw, |ms|).value == p;
  }

  /** Bytes of whole records decode to the page of their records. */
  lemma {:induction false} FromBytesOf(raw: seq<byte>, numEntries: nat)
    requires |raw| % 64 == 0
    ensures FromBytes(raw, numEntries) == Success(PageOf(Records(raw), numEntries))
  {
  }

  /** Decoding the first `|ms|` of records that start with the normalised
      `ms` yields the fields of `ms`. */
  lemma {:induction false} PageOfPrefix(rs: seq<Metric>, ms: seq<Metric>)
    requires |ms| <= |rs|
    requires forall i :: 0 <= i < |ms| ==> rs[i] == Normalize(ms[i])
    ensures var p := PageOf(rs, |ms|);
      |p.names| == |ms| &&
      forall i :: 0 <= i < |ms| ==>
        p.names[i] == Normalize(ms[i]).name && p.types[i] == ms[i].isGauge && p.values[i] == ms[i].value
  {
    var p := PageOf(rs, |ms|);
    assert Min(|ms|, |rs|) == |ms|;
    forall i | 0 <= i < |ms|
      ensures p.names[i] == Normalize(ms[i]).name && p.types[i] == ms[i].isGauge && p.values[i] == ms[i].value
    {
      assert rs[i] == Normalize(ms[i]);
    }
  }

  // ---------------------------------------------------------------------
  // Live pages (MetricsPage over the shared segment)
  // ---------------------------------------------------------------------

  /** `b` with the `|rec|` bytes at `pos` replaced by `rec`. */
  function Overwrite(b: seq<byte>, pos: nat, rec: seq<byte>): (r: seq<byte>)
    requires pos + |rec| <= |b|
    ensures |r| == |b|
    ensures r[pos..pos + |rec|] == rec
    ensures forall i :: 0 <= i < |b| && !(pos <= i < pos + |rec|) ==> r[i] == b[i]
  {
    b[..pos] + rec + b[pos + |rec|..]
  }

  /** Offset, from the page start, of the value field of record `index`. */
  function ValueFieldOffset(index: nat): nat
  {
    index * 64 + 56
  }

  /** The value-field address as metrics.py computes it: `page_offset` is
      set to 0 and never updated, so the page's own position in the
      segment is left out of the address. */
  function ValueFieldRelativeAddrAsWritten(index: nat): (addr: nat)
    ensures addr == ValueFieldOffset(index)
  {
    0 + ValueFieldOffset(index)
  }

  /** The address as written falls outside its own page for every page
      after the first: with pages laid out one after another, a page at
      segment offset `pageOffset` holds at most `pageOffset / 64` records,
      so record `index` of it is given an address below its start, inside
      an earlier page's records. */
  lemma {:induction false} AsWrittenAddressOutsidePage(pageOffset: nat, maxMetrics: nat, index: nat)
    requires index < maxMetrics
    requires maxMetrics * 64 <= pageOffset
    ensures ValueFieldRelativeAddrAsWritten(index) + 8 <= pageOffset
  {
  }

  /** The checks of add_metric, in its order: a full page is refused
      first, then a name that cannot be stored as ASCII bytes; otherwise
      the bytes the name field will hold. */
  function Admit(numEntries: nat, maxMetrics: nat, name: string): (r: Result<seq<byte>, PageError>)
    ensures numEntries >= maxMetrics ==> r == Failure(PageFull)
    ensures numEntries < maxMetrics ==> (r.Success? <==> AsciiBytes(name).Some?)
    ensures numEntries < maxMetrics && AsciiBytes(name).None? ==> r == Failure(NameNotAscii)
    ensures r.Success? ==> r.value == AsciiBytes(name).value
  {
    if numEntries >= maxMetrics then Failure(PageFull)
    else if AsciiBytes(name).None? then Failure(NameNotAscii)
    else Success(AsciiBytes(name).value)
  }

  /** Copy a 64-byte record into `buf` at byte `pos` (the numpy record
      assignment). */
  method PutRecord(buf: array<byte>, pos: nat, rec: seq<byte>)
    requires |rec| == 64 && pos + 64 <= buf.Length
    modifies buf
    ensures buf[..] == Overwrite(old(buf[..]), pos, rec)
  {
    forall k | 0 <= k < 64 {
      buf[pos + k] := rec[k];
    }
  }

  class MetricsPage {
    /** The shared segment the page is a view of. */
    const buf: array<byte>
    /** Where the page's records start in the segment (also the
        `page_offset` added to value addresses, see the finding in README). */
    const pageOffset: nat
    const maxMetrics: nat
    var numEntries: nat
    /** The metrics added so far, in order. */
    ghost var Contents: seq<Metric>

    ghost predicate Valid()
      reads this, buf
    {
      pageOffset + maxMetrics * 64 <= buf.Length &&
      numEntries == |Contents| <= maxMetrics &&
      buf[pageOffset..pageOffset + numEntries * 64] == EncodeAll(Contents)
    }

    predicate IsFull()
      reads this
    {
      numEntries >= maxMetrics
    }

    /** A view of `size` records at `offset` in `buffer`; the view must fit. */
    constructor (buffer: array<byte>, size: nat, offset: nat)
      requires offset + size * 64 <= buffer.Length
      ensures Valid()
      ensures buf == buffer && pageOffset == offset && maxMetrics == size
      ensures numEntries == 0 && Contents == []
    {
      buf := buffer;
      pageOffset := offset;
      maxMetrics := size;
      numEntries := 0;
      Contents := [];
    }

    /** Segment address (relative to the segment start) of the value field
        of record `index`. */
    function ValueFieldRelativeAddr(index: nat): (addr: nat)
      ensures pageOffset <= addr
      ensures index < maxMetrics ==> addr + 8 <= pageOffset + maxMetrics * 64
      ensures addr - pageOffset == ValueFieldOffset(index)
    {
      pageOffset + ValueFieldOffset(index)
    }

    /** Store a metric in the next free record. Fails, changing nothing,
        when the page is full or the name is not ASCII; otherwise the
        record's 64 bytes are written, the entry count grows by one and the
        value field's segment address is returned. */
    method AddMetric(name: string, isGauge: bool, initialValue: word64)
      returns (r: Result<nat, PageError>)
      requires Valid()
      modifies this`numEntries, this`Contents, buf
      ensures Valid()
      ensures old(IsFull()) ==> r == Failure(PageFull)
      ensures !old(IsFull()) && AsciiBytes(name).None? ==> r == Failure(NameNotAscii)
      ensures r.Failure? ==> buf[..] == old(buf[..]) && numEntries == old(numEntries) && Contents == old(Contents)
      ensures r.Success? <==> !old(IsFull()) && AsciiBytes(name).Some?
      ensures r.Success? ==>
        var m := Metric(AsciiBytes(name).value, isGauge, initialValue);
        Contents == old(Contents) + [m] &&
        numEntries == old(numEntries) + 1 &&
        r.value == ValueFieldRelativeAddr(old(numEntries)) &&
        buf[..] == Overwrite(old(buf[..]), pageOffset + old(numEntries) * 64, EncodeRecord(m))
    {
      var admitted := Admit(numEntries, maxMetrics, name);
      if admitted.Failure? {
        return Failure(admitted.error);
      }
      var m := Metric(admitted.value, isGauge, initialValue);
      var rec := EncodeRecord(m);
      var index := numEntries;
      var pos := pageOffset + index * 64;
      ghost var before := buf[..];
      PutRecord(buf, pos, rec);
      numEntries := numEntries + 1;
      Contents := Contents + [m];
      assert buf[pageOffset..pageOffset + numEntries * 64]
          == before[pageOffset..pos] + rec;
      r := Success(ValueFieldRelativeAddr(index));
    }
  }

  /** In a valid page, the 8 bytes at the address given for record `index`
      hold that metric's value: the address the host hands to the client is
      the one the client must write through. */
  lemma {:induction false} ValueAddrHoldsValue(page: MetricsPage, index: nat)
    requires page.Valid()
    requires index < page.numEntries
    ensures var a := page.ValueFieldRelativeAddr(index);
      a + 8 <= page.buf.Length &&
      BytesWord(page.buf[a..a + 8]) == page.Contents[index].value
  {
    var b := page.buf[..];
    var a := page.ValueFieldRelativeAddr(index);
    assert b[page.pageOffset..page.pageOffset + |page.Contents| * 64] == EncodeAll(page.Contents);
    ValueInEncoding(b, page.pageOffset, page.Contents, index);
    assert page.buf[a..a + 8] == b[a..a + 8];
  }

  /** In bytes holding the encoding of `ms` at `off`, the 8 bytes of the
      value field of record `index` are that metric's value. */
  lemma {:induction false} ValueInEncoding(b: seq<byte>, off: nat, ms: seq<Metric>, index: nat)
    requires off + |ms| * 64 <= |b|
    requires b[off..off + |ms| * 64] == EncodeAll(ms)
    requires index < |ms|
    ensures off + index * 64 + 64 <= |b|
    ensures BytesWord(b[off + index * 64 + 56..off + index * 64 + 64]) == ms[index].value
  {
    SlotInBytes(b, off, ms, index);
    RecordFields(ms[index]);
    ValueFieldOfSlot(b, off + index * 64, EncodeRecord(ms[index]), WordBytes(ms[index].value));
    WordRoundTrip(ms[index].value);
  }

  /** Record `index` of an encoding at `off` occupies the 64 bytes at
      `off + index * 64`. */
  lemma {:induction false} SlotInBytes(b: seq<byte>, off: nat, ms: seq<Metric>, index: nat)
    requires off + |ms| * 64 <= |b|
    requires b[off..off + |ms| * 64] == EncodeAll(ms)
    requires index < |ms|
    ensures off + index * 64 + 64 <= |b|
    ensures b[off + index * 64..off + index * 64 + 64] == EncodeRecord(ms[index])
  {
    var i, e := index * 64, EncodeAll(ms);
    SlotBound(index, |ms|);
    SlotInEncoding(ms, index);
    SliceOfSlice(b, off, off + |e|, e, i, i + 64);
  }

  /** Record `index` of `n` records ends within them. */
  lemma {:induction false} SlotBound(index: nat, n: nat)
    requires index < n
    ensures index * 64 + 64 <= n * 64
  {
  }

  /** A slice of a part of `b` that equals `e` is the same slice of `e`. */
  lemma {:induction false} SliceOfSlice(b: seq<byte>, lo: nat, hi: nat, e: seq<byte>, i: nat, j: nat)
    requires lo <= hi <= |b| && i <= j <= hi - lo && b[lo..hi] == e
    ensures b[lo + i..lo + j] == e[i..j]
  {
    forall t | 0 <= t < j - i
      ensures b[lo..hi][i..j][t] == b[lo + i..lo + j][t]
    {
    }
    assert b[lo..hi][i..j] == b[lo + i..lo + j];
  }

  /** Record `index` of an encoding occupies its bytes `index * 64` to
      `index * 64 + 64`. */
  lemma {:induction false} SlotInEncoding(ms: seq<Metric>, index: nat)
    requires index < |ms|
    ensures EncodeAll(ms)[index * 64..index * 64 + 64] == EncodeRecord(ms[index])
  {
    var n := |ms| - 1;
    var front := EncodeAll(ms[..n]);
    assert ms[..n + 1] == ms;
    assert EncodeAll(ms) == front + EncodeRecord(ms[n]);
    if index < n {
      SlotInEncoding(ms[..n], index);
      assert (front + EncodeRecord(ms[n]))[index * 64..index * 64 + 64] == front[index * 64..index * 64 + 64];
    } else {
      assert (front + EncodeRecord(ms[n]))[n * 64..n * 64 + 64] == EncodeRecord(ms[n]);
    }
  }

  lemma {:induction false} ValueFieldOfSlot(b: seq<byte>, pos: nat, r: seq<byte>, w: seq<byte>)
    requires pos + 64 <= |b| && |r| == 64 && b[pos..pos + 64] == r && r[56..] == w
    ensures b[pos + 56..pos + 64] == w
  {
    assert b[pos + 56..pos + 64] == b[pos..pos + 64][56..];
  }
}
