/**
 * The host agent (microview-host.py): MetricsMemoryManager cuts one
 * shared-memory segment into pages of `pageSize` bytes, hands them out to
 * pods one at a time in address order and files each page under the RDMA
 * memory region (MR) that contains it; the layout the `/metrics` GET route
 * publishes; and the status the `/rdma/qps/connect` route reports.
 *
 * The MetricsPage objects the manager keeps are named here by their page
 * number: page n is the n-th page created, a view of the segment at byte
 * n * pageSize. The manager holds the entry count of each page and writes
 * a record with the steps of MetricsPage.add_metric (Metrics.Admit, then
 * Metrics.PutRecord).
 */
module Host {
  import opened Common
  import opened Metrics
  import Defaults
  import RdmaHelpers

  datatype HostError =
    | NoPagesLeft                        // ValueError from _create_new_page
    | PageRejected(reason: PageError)    // add_metric refused the metric
    | MrSizeNotPageMultiple              // ValueError from add_rdma_memory_regions
    | UnknownPage                        // KeyError in the layout route

  /** One entry of a control region: the pod owning a page, how many
      metrics the page holds, and the page size. */
  datatype ControlInfo = ControlInfo(podId: string, numMetrics: nat, pageSizeBytes: nat)

  // ---------------------------------------------------------------------
  // Page numbering arithmetic
  // ---------------------------------------------------------------------

  /** Index of the MR that holds page `k`. */
  function MrIndex(k: nat, pageSize: nat, mrSize: nat): nat
    requires mrSize > 0
  {
    k * pageSize / mrSize
  }

  lemma {:induction false} MulMono(a: nat, b: nat, c: nat)
    requires a <= b
    ensures a * c <= b * c
  {
  }

  /** Page `k` of a pool of `poolSize / pageSize` pages ends inside the pool. */
  lemma {:induction false} PageInPool(k: nat, pageSize: nat, poolSize: nat)
    requires pageSize > 0 && k < poolSize / pageSize
    ensures k * pageSize + pageSize <= poolSize
  {
    MulMono(k + 1, poolSize / pageSize, pageSize);
  }

  /** ... and in one of the `poolSize / mrSize` MRs, when MRs tile the pool. */
  lemma {:induction false} MrIndexInRange(k: nat, pageSize: nat, mrSize: nat, poolSize: nat)
    requires pageSize > 0 && mrSize > 0 && poolSize % mrSize == 0
    requires k < poolSize / pageSize
    ensures MrIndex(k, pageSize, mrSize) < poolSize / mrSize
  {
    PageInPool(k, pageSize, poolSize);
    var q := k * pageSize / mrSize;
    if q >= poolSize / mrSize {
      MulMono(poolSize / mrSize, q, mrSize);
      assert false;
    }
  }

  /** Distinct pages occupy disjoint byte ranges. */
  lemma {:induction false} PagesApart(i: nat, k: nat, pageSize: nat)
    requires i < k
    ensures i * pageSize + pageSize <= k * pageSize
  {
    MulMono(i + 1, k, pageSize);
  }

  /** Writing outside [lo, hi) leaves those bytes as they were. */
  lemma {:induction false} SliceUntouched(b: seq<byte>, pos: nat, rec: seq<byte>, lo: nat, hi: nat)
    requires pos + |rec| <= |b| && lo <= hi <= |b|
    requires hi <= pos || pos + |rec| <= lo
    ensures Overwrite(b, pos, rec)[lo..hi] == b[lo..hi]
  {
  }

  // ---------------------------------------------------------------------
  // The tables, as functions of the pod of each page
  // ---------------------------------------------------------------------

  /** The pages owned by `pod` (page k belongs to owners[k]), in creation
      order. */
  ghost function PodPages(owners: seq<string>, pod: string): seq<nat>
  {
    if |owners| == 0 then []
    else PodPages(owners[..|owners| - 1], pod) + (if owners[|owners| - 1] == pod then [|owners| - 1] else [])
  }

  /** The first `n` pages that lie in MR `m`, in creation order. */
  ghost function MrPages(n: nat, m: nat, pageSize: nat, mrSize: nat): seq<nat>
    requires mrSize > 0
  {
    if n == 0 then []
    else MrPages(n - 1, m, pageSize, mrSize) + (if MrIndex(n - 1, pageSize, mrSize) == m then [n - 1] else [])
  }

  /** Strictly increasing: listed in creation order, each page once. */
  ghost predicate Increasing(s: seq<nat>)
  {
    forall i, j :: 0 <= i < j < |s| ==> s[i] < s[j]
  }

  /** Appending (or not) a page number above every listed one keeps a
      list increasing. */
  lemma {:induction false} IncreasingAppend(s: seq<nat>, n: nat, add: bool)
    requires Increasing(s) && forall p :: p in s ==> p < n
    ensures Increasing(s + (if add then [n] else []))
  {
    var t := s + (if add then [n] else []);
    forall i, j | 0 <= i < j < |t|
      ensures t[i] < t[j]
    {
      if j >= |s| {
        assert s[i] in s;
      }
    }
  }

  /** In an increasing list, a smaller entry comes first. */
  lemma {:induction false} IncreasingOrder(s: seq<nat>, a: nat, b: nat)
    requires Increasing(s) && a < |s| && b < |s| && s[a] < s[b]
    ensures a < b
  {
  }

  /** A page of `pod` is in the pod's list. */
  lemma {:induction false} PodPagesHas(owners: seq<string>, pod: string, k: nat)
    requires k < |owners| && owners[k] == pod
    ensures k in PodPages(owners, pod)
  {
    if k < |owners| - 1 {
      PodPagesHas(owners[..|owners| - 1], pod, k);
    }
  }

  /** Every page in the pod's list is one of its pages. */
  lemma {:induction false} PodPagesOwned(owners: seq<string>, pod: string, p: nat)
    requires p in PodPages(owners, pod)
    ensures p < |owners| && owners[p] == pod
  {
    var n := |owners| - 1;
    if p !in PodPages(owners[..n], pod) {
      assert p == n;
    } else {
      PodPagesOwned(owners[..n], pod, p);
    }
  }

  /** A pod's pages are listed in creation order. */
  lemma {:induction false} PodPagesIncreasing(owners: seq<string>, pod: string)
    ensures Increasing(PodPages(owners, pod))
    ensures forall p :: p in PodPages(owners, pod) ==> p < |owners|
  {
    if |owners| > 0 {
      var n := |owners| - 1;
      PodPagesIncreasing(owners[..n], pod);
      IncreasingAppend(PodPages(owners[..n], pod), n, owners[n] == pod);
    }
  }

  /** A pod without pages has an empty list. */
  lemma {:induction false} PodPagesEmpty(owners: seq<string>, pod: string)
    requires pod !in owners
    ensures PodPages(owners, pod) == []
  {
    if |owners| > 0 {
      PodPagesEmpty(owners[..|owners| - 1], pod);
    }
  }

  /** Every listed page of an MR lies in it. */
  lemma {:induction false} MrPagesOwned(n: nat, m: nat, pageSize: nat, mrSize: nat, p: nat)
    requires mrSize > 0 && p in MrPages(n, m, pageSize, mrSize)
    ensures p < n && MrIndex(p, pageSize, mrSize) == m
  {
    if p !in MrPages(n - 1, m, pageSize, mrSize) {
      assert p == n - 1;
    } else {
      MrPagesOwned(n - 1, m, pageSize, mrSize, p);
    }
  }

  /** Every page is listed under the MR holding it. */
  lemma {:induction false} MrPagesHas(n: nat, pageSize: nat, mrSize: nat, k: nat)
    requires mrSize > 0 && k < n
    ensures k in MrPages(n, MrIndex(k, pageSize, mrSize), pageSize, mrSize)
  {
    if k < n - 1 {
      MrPagesHas(n - 1, pageSize, mrSize, k);
    }
  }

  /** An MR's pages are listed in creation order. */
  lemma {:induction false} MrPagesIncreasing(n: nat, m: nat, pageSize: nat, mrSize: nat)
    requires mrSize > 0
    ensures Increasing(MrPages(n, m, pageSize, mrSize))
    ensures forall p :: p in MrPages(n, m, pageSize, mrSize) ==> p < n
  {
    if n > 0 {
      MrPagesIncreasing(n - 1, m, pageSize, mrSize);
      IncreasingAppend(MrPages(n - 1, m, pageSize, mrSize), n - 1, MrIndex(n - 1, pageSize, mrSize) == m);
    }
  }

  /** What `page2pod` holds: page k maps to its pod. */
  ghost function OwnerMapOf(owners: seq<string>): map<nat, string>
  {
    map k: nat | k < |owners| :: owners[k]
  }

  /** What `pod2pages` holds: each pod that owns a page, with its pages in
      creation order. */
  ghost function PodListsOf(owners: seq<string>): map<string, seq<nat>>
  {
    map pod | pod in owners :: PodPages(owners, pod)
  }

  /** What `mrPages` holds after `n` pages: for each of the `numMr` MRs,
      the pages inside it in creation order. */
  ghost function MrListsOf(n: nat, numMr: nat, pageSize: nat, mrSize: nat): seq<seq<nat>>
    requires mrSize > 0
  {
    seq(numMr, m requires 0 <= m < numMr => MrPages(n, m, pageSize, mrSize))
  }

  lemma {:induction false} OwnerMapStep(owners: seq<string>, pod: string)
    ensures OwnerMapOf(owners + [pod]) == OwnerMapOf(owners)[|owners| := pod]
  {
  }

  lemma {:induction false} PodListsStep(owners: seq<string>, pod: string)
    ensures var lists := PodListsOf(owners);
      PodListsOf(owners + [pod]) == lists[pod := (if pod in lists then lists[pod] else []) + [|owners|]]
  {
    var owners' := owners + [pod];
    assert owners'[..|owners|] == owners;
    var lists := PodListsOf(owners);
    var lists' := lists[pod := (if pod in lists then lists[pod] else []) + [|owners|]];
    forall q | q in lists'
      ensures lists'[q] == PodPages(owners', q)
    {
      if q == pod && pod !in lists {
        PodPagesEmpty(owners, pod);
      }
    }
  }

  lemma {:induction false} MrListsStep(n: nat, numMr: nat, pageSize: nat, mrSize: nat)
    requires mrSize > 0 && MrIndex(n, pageSize, mrSize) < numMr
    ensures var i := MrIndex(n, pageSize, mrSize);
      var lists := MrListsOf(n, numMr, pageSize, mrSize);
      MrListsOf(n + 1, numMr, pageSize, mrSize) == lists[i := lists[i] + [n]]
  {
    var i := MrIndex(n, pageSize, mrSize);
    var lists := MrListsOf(n, numMr, pageSize, mrSize);
    var lists' := MrListsOf(n + 1, numMr, pageSize, mrSize);
    forall m | 0 <= m < numMr
      ensures lists'[m] == lists[i := lists[i] + [n]][m]
    {
      assert lists'[m] == MrPages(n + 1, m, pageSize, mrSize);
    }
  }

  /** The tables agree with the pages: `count` pages, page k owned by
      owners[k] and listed in `page2pod`, in `pod2pages` and in the list of
      the MR holding it. */
  ghost predicate TablesOf(owners: seq<string>, count: nat, maxPages: nat,
                           page2pod: map<nat, string>, pod2pages: map<string, seq<nat>>,
                           mrPages: seq<seq<nat>>, numMr: nat, pageSize: nat, mrSize: nat)
  {
    mrSize > 0 && |owners| == count <= maxPages &&
    page2pod == OwnerMapOf(owners) && pod2pages == PodListsOf(owners) &&
    mrPages == MrListsOf(count, numMr, pageSize, mrSize)
  }

  /** Handing out page `count` to `pod` keeps the tables in agreement. */
  lemma {:induction false} TablesStep(owners: seq<string>, count: nat, maxPages: nat,
                   page2pod: map<nat, string>, pod2pages: map<string, seq<nat>>,
                   mrPages: seq<seq<nat>>, numMr: nat, pageSize: nat, mrSize: nat, pod: string,
                   owners': seq<string>, page2pod': map<nat, string>, pod2pages': map<string, seq<nat>>,
                   mrPages': seq<seq<nat>>)
    requires TablesOf(owners, count, maxPages, page2pod, pod2pages, mrPages, numMr, pageSize, mrSize)
    requires count < maxPages && MrIndex(count, pageSize, mrSize) < numMr
    requires owners' == owners + [pod] && page2pod' == page2pod[count := pod]
    requires pod2pages' == pod2pages[pod := (if pod in pod2pages then pod2pages[pod] else []) + [count]]
    requires var i := MrIndex(count, pageSize, mrSize); mrPages' == mrPages[i := mrPages[i] + [count]]
    ensures TablesOf(owners', count + 1, maxPages, page2pod', pod2pages', mrPages', numMr, pageSize, mrSize)
  {
    OwnerMapStep(owners, pod);
    PodListsStep(owners, pod);
    MrListsStep(count, numMr, pageSize, mrSize);
  }

  /** The MR that page `k` of the pool lies in, when MRs tile the pool. */
  method MrSlot(k: nat, pageSize: nat, mrSize: nat, poolSize: nat) returns (i: nat)
    requires pageSize > 0 && mrSize > 0 && poolSize % mrSize == 0
    requires k < poolSize / pageSize
    ensures i == MrIndex(k, pageSize, mrSize) && i < poolSize / mrSize
  {
    MrIndexInRange(k, pageSize, mrSize, poolSize);
    i := k * pageSize / mrSize;
  }

  // ---------------------------------------------------------------------
  // Open pages, as a function of owners and entry counts
  // ---------------------------------------------------------------------

  /** Of each pod's pages, all but the last hold `cap` entries. */
  ghost predicate LastOpenOnly(owners: seq<string>, counts: seq<nat>, cap: nat)
  {
    |owners| == |counts| &&
    forall k, k' :: 0 <= k < k' < |counts| && owners[k] == owners[k'] ==> counts[k] >= cap
  }

  /** Some page of `pod` has room for another entry. */
  ghost predicate SomeOpen(owners: seq<string>, counts: seq<nat>, cap: nat, pod: string)
  {
    exists k :: 0 <= k < |counts| && k < |owners| && owners[k] == pod && counts[k] < cap
  }

  /** A new, empty page for a pod whose pages are all full keeps only the
      last page of each pod open. */
  lemma {:induction false} LastOpenAppend(owners: seq<string>, counts: seq<nat>, cap: nat, pod: string)
    requires LastOpenOnly(owners, counts, cap) && !SomeOpen(owners, counts, cap, pod)
    ensures LastOpenOnly(owners + [pod], counts + [0], cap)
  {
    var o := owners + [pod];
    var c := counts + [0];
    forall k, k' | 0 <= k < k' < |c| && o[k] == o[k']
      ensures c[k] >= cap
    {
      if k' == |counts| {
        assert o[k] == pod && c[k] == counts[k];
      }
    }
  }

  /** One more entry in an open page keeps only the last page of each pod
      open: an open page is already its pod's last. */
  lemma {:induction false} LastOpenFill(owners: seq<string>, counts: seq<nat>, cap: nat, k: nat)
    requires LastOpenOnly(owners, counts, cap) && k < |counts| && counts[k] < cap
    ensures LastOpenOnly(owners, counts[k := counts[k] + 1], cap)
  {
  }

  /** When the pod has no list, or every page in its list is full, none of
      its pages has room. */
  lemma {:induction false} NoOpenPage(owners: seq<string>, counts: seq<nat>, cap: nat, pod2pages: map<string, seq<nat>>, pod: string)
    requires pod2pages == PodListsOf(owners) && |counts| == |owners|
    requires pod in pod2pages ==> forall p :: p in pod2pages[pod] ==> p < |counts| && counts[p] >= cap
    ensures !SomeOpen(owners, counts, cap, pod)
  {
    forall k | 0 <= k < |owners| && owners[k] == pod
      ensures counts[k] >= cap
    {
      PodPagesHas(owners, pod, k);
    }
  }

  // ---------------------------------------------------------------------
  // The segment
  // ---------------------------------------------------------------------

  /** In `bytes`, page `j` holds the encoding of `contents[j]`, which has
      `counts[j]` records, at byte `j * pageSize`. */
  ghost predicate SlotHolds(bytes: seq<byte>, counts: seq<nat>, contents: seq<seq<Metric>>,
                            pageSize: nat, perPage: nat, j: nat)
  {
    j < |counts| && j < |contents| && counts[j] == |contents[j]| <= perPage &&
    j * pageSize + perPage * 64 <= |bytes| &&
    bytes[j * pageSize..j * pageSize + counts[j] * 64] == EncodeAll(contents[j])
  }

  /** The used part of every page, as values. */
  ghost predicate SlotsHold(bytes: seq<byte>, counts: seq<nat>, contents: seq<seq<Metric>>,
                            pageSize: nat, perPage: nat)
  {
    |counts| == |contents| &&
    forall j: nat :: j < |counts| ==> SlotHolds(bytes, counts, contents, pageSize, perPage, j)
  }

  /** Writing one record of page `k` leaves the used part of every other
      page as it was. */
  lemma {:induction false} OtherPageKept(before: seq<byte>, rec: seq<byte>, pageSize: nat, perPage: nat,
                      k: nat, x: nat, j: nat, used: nat)
    requires |rec| == 64 && x < perPage && perPage * 64 <= pageSize && used <= perPage && j != k
    requires k * pageSize + perPage * 64 <= |before| && j * pageSize + perPage * 64 <= |before|
    ensures k * pageSize + x * 64 + 64 <= |before|
    ensures Overwrite(before, k * pageSize + x * 64, rec)[j * pageSize..j * pageSize + used * 64]
         == before[j * pageSize..j * pageSize + used * 64]
  {
    if j < k {
      PagesApart(j, k, pageSize);
    } else {
      PagesApart(k, j, pageSize);
    }
    SliceUntouched(before, k * pageSize + x * 64, rec, j * pageSize, j * pageSize + used * 64);
  }

  /** Writing the record of `m` into the next free slot of page `k` makes
      the page hold `ms + [m]`. */
  lemma {:induction false} OwnPageGrows(before: seq<byte>, pageSize: nat, perPage: nat, k: nat, n: nat, ms: seq<Metric>, m: Metric)
    requires n == |ms| < perPage && k * pageSize + perPage * 64 <= |before|
    requires before[k * pageSize..k * pageSize + n * 64] == EncodeAll(ms)
    ensures k * pageSize + n * 64 + 64 <= |before|
    ensures Overwrite(before, k * pageSize + n * 64, EncodeRecord(m))[k * pageSize..k * pageSize + (n + 1) * 64]
         == EncodeAll(ms + [m])
  {
    var lo := k * pageSize;
    var pos := lo + n * 64;
    var after := Overwrite(before, pos, EncodeRecord(m));
    assert (ms + [m])[..|ms|] == ms;
    assert after[lo..pos] == before[lo..pos];
    assert after[lo..pos + 64] == after[lo..pos] + after[pos..pos + 64];
  }

  /** One record written into the next free slot of page `k`, with `k`'s
      count and contents grown to match, keeps every page's slot. */
  lemma {:induction false} SlotsStep(before: seq<byte>, counts: seq<nat>, contents: seq<seq<Metric>>,
                  pageSize: nat, perPage: nat, k: nat, m: Metric)
    requires perPage * 64 <= pageSize && SlotsHold(before, counts, contents, pageSize, perPage)
    requires k < |counts| && counts[k] < perPage
    ensures k * pageSize + counts[k] * 64 + 64 <= |before|
    ensures SlotsHold(Overwrite(before, k * pageSize + counts[k] * 64, EncodeRecord(m)),
                      counts[k := counts[k] + 1], contents[k := contents[k] + [m]], pageSize, perPage)
  {
    assert SlotHolds(before, counts, contents, pageSize, perPage, k);
    var after := Overwrite(before, k * pageSize + counts[k] * 64, EncodeRecord(m));
    var counts' := counts[k := counts[k] + 1];
    var contents' := contents[k := contents[k] + [m]];
    forall j: nat | j < |counts'|
      ensures SlotHolds(after, counts', contents', pageSize, perPage, j)
    {
      SlotStepAt(before, counts, contents, pageSize, perPage, k, m, j);
    }
  }

  /** Page `j`'s slot after the record of `m` went into page `k`. */
  lemma {:induction false} SlotStepAt(before: seq<byte>, counts: seq<nat>, contents: seq<seq<Metric>>,
                   pageSize: nat, perPage: nat, k: nat, m: Metric, j: nat)
    requires perPage * 64 <= pageSize
    requires SlotHolds(before, counts, contents, pageSize, perPage, k)
    requires SlotHolds(before, counts, contents, pageSize, perPage, j)
    requires counts[k] < perPage
    ensures k * pageSize + counts[k] * 64 + 64 <= |before|
    ensures SlotHolds(Overwrite(before, k * pageSize + counts[k] * 64, EncodeRecord(m)),
                      counts[k := counts[k] + 1], contents[k := contents[k] + [m]], pageSize, perPage, j)
  {
    if j == k {
      OwnPageGrows(before, pageSize, perPage, k, counts[k], contents[k], m);
    } else {
      OtherPageKept(before, EncodeRecord(m), pageSize, perPage, k, counts[k], j, counts[j]);
    }
  }

  /** A new page after the others, inside the segment, starts empty. */
  lemma {:induction false} SlotsGrow(bytes: seq<byte>, counts: seq<nat>, contents: seq<seq<Metric>>, pageSize: nat, perPage: nat)
    requires SlotsHold(bytes, counts, contents, pageSize, perPage)
    requires perPage * 64 <= pageSize && |counts| * pageSize + pageSize <= |bytes|
    ensures SlotsHold(bytes, counts + [0], contents + [[]], pageSize, perPage)
  {
    var counts' := counts + [0];
    var contents' := contents + [[]];
    forall j: nat | j < |counts'|
      ensures SlotHolds(bytes, counts', contents', pageSize, perPage, j)
    {
      if j < |counts| {
        assert SlotHolds(bytes, counts, contents, pageSize, perPage, j);
      }
    }
  }

  /** The 8 bytes at the value address of record `x` of page `k` hold that
      metric's value. */
  lemma {:induction false} ValueInSlot(bytes: seq<byte>, counts: seq<nat>, contents: seq<seq<Metric>>,
                    pageSize: nat, perPage: nat, k: nat, x: nat)
    requires SlotsHold(bytes, counts, contents, pageSize, perPage)
    requires k < |counts| && x < counts[k]
    ensures var a := k * pageSize + ValueFieldOffset(x);
      x < |contents[k]| && a + 8 <= |bytes| && BytesWord(bytes[a..a + 8]) == contents[k][x].value
  {
    assert SlotHolds(bytes, counts, contents, pageSize, perPage, k);
    ValueInEncoding(bytes, k * pageSize, contents[k], x);
  }

  /** Page `k` of `bytes` got `m` as its next record: its count grew by
      one, its metrics by `m`, and the record was written into its first
      free slot. */
  ghost predicate Appended(pageSize: nat, k: nat, m: Metric,
                           counts: seq<nat>, stored: seq<seq<Metric>>, bytes: seq<byte>,
                           counts': seq<nat>, stored': seq<seq<Metric>>, bytes': seq<byte>)
  {
    k < |counts| && k < |stored| && k * pageSize + counts[k] * 64 + 64 <= |bytes| &&
    counts' == counts[k := counts[k] + 1] && stored' == stored[k := stored[k] + [m]] &&
    bytes' == Overwrite(bytes, k * pageSize + counts[k] * 64, EncodeRecord(m))
  }

  /** The segment after add_metric on page `k`: every page's slot still
      holds, and the value field of the new record holds its value. */
  lemma {:induction false} WriteStep(before: seq<byte>, after: seq<byte>, counts: seq<nat>, contents: seq<seq<Metric>>,
                  pageSize: nat, perPage: nat, k: nat, m: Metric)
    requires perPage * 64 <= pageSize && SlotsHold(before, counts, contents, pageSize, perPage)
    requires k < |counts| && counts[k] < perPage && k * pageSize + perPage * 64 <= |before|
    requires after == Overwrite(before, k * pageSize + counts[k] * 64, EncodeRecord(m))
    ensures SlotsHold(after, counts[k := counts[k] + 1], contents[k := contents[k] + [m]], pageSize, perPage)
    ensures HoldsWord(after, k * pageSize + ValueFieldOffset(counts[k]), m.value)
    ensures Appended(pageSize, k, m, counts, contents, before,
                     counts[k := counts[k] + 1], contents[k := contents[k] + [m]], after)
  {
    assert SlotHolds(before, counts, contents, pageSize, perPage, k);
    SlotsStep(before, counts, contents, pageSize, perPage, k, m);
    var contents' := contents[k := contents[k] + [m]];
    assert contents'[k][counts[k]] == m;
    ValueInSlot(after, counts[k := counts[k] + 1], contents', pageSize, perPage, k, counts[k]);
  }

  // ---------------------------------------------------------------------
  // Names of the registered MRs
  // ---------------------------------------------------------------------

  /** The name add_rdma_memory_regions registers MR `i` under. */
  function MrName(i: nat): string
  {
    "RDMA-MR-" + NatToString(i)
  }

  function MrNames(n: nat): (names: seq<string>)
    ensures |names| == n
    ensures forall i :: 0 <= i < n ==> names[i] == MrName(i)
  {
    if n == 0 then [] else MrNames(n - 1) + [MrName(n - 1)]
  }

  /** Distinct MRs get distinct names. */
  lemma {:induction false} MrNamesDistinct(i: nat, j: nat)
    requires i != j
    ensures MrName(i) != MrName(j)
  {
    NatRoundTrip(i);
    NatRoundTrip(j);
    assert MrName(i)[8..] == NatToString(i);
    assert MrName(j)[8..] == NatToString(j);
  }

  /** The entry add_rdma_memory_regions registers for MR `i`: `mrSize`
      bytes at `baseAddr + i * mrSize`, with the keys of its handle, over
      memory the pool does not own. */
  function MrEntryAt(i: nat, baseAddr: nat, mrSize: nat, h: RdmaHelpers.MrHandle): RdmaHelpers.MrEntry
  {
    RdmaHelpers.MrEntry(RdmaHelpers.MrInfo(MrName(i), MrAddr(i, baseAddr, mrSize), h.rkey, h.lkey, mrSize), false, h)
  }

  /** Where MR `i` starts. */
  function MrAddr(i: nat, baseAddr: nat, mrSize: nat): nat
  {
    baseAddr + i * mrSize
  }

  /** The first `n` MRs are registered, in index order, each under its
      name. */
  ghost predicate MrsRegistered(regions: map<string, RdmaHelpers.MrEntry>, order: seq<string>, n: nat,
                                baseAddr: nat, mrSize: nat, handles: seq<RdmaHelpers.MrHandle>)
  {
    n <= |handles| && order == MrNames(n) &&
    forall i :: 0 <= i < n ==> MrName(i) in regions && regions[MrName(i)] == MrEntryAt(i, baseAddr, mrSize, handles[i])
  }

  /** Registering MR `n` after the first `n`: its name is new, so it goes
      to the end of the registration order. */
  lemma {:induction false} MrsRegisteredStep(regions: map<string, RdmaHelpers.MrEntry>, order: seq<string>, n: nat,
                          baseAddr: nat, mrSize: nat, handles: seq<RdmaHelpers.MrHandle>,
                          regions': map<string, RdmaHelpers.MrEntry>, order': seq<string>)
    requires MrsRegistered(regions, order, n, baseAddr, mrSize, handles) && n < |handles|
    requires MrName(n) !in regions
    requires regions' == regions[MrName(n) := MrEntryAt(n, baseAddr, mrSize, handles[n])]
    requires order' == if MrName(n) in regions then order else order + [MrName(n)]
    ensures MrsRegistered(regions', order', n + 1, baseAddr, mrSize, handles)
  {
    forall i | 0 <= i < n
      ensures MrName(i) != MrName(n)
    {
      MrNamesDistinct(i, n);
    }
    assert MrNames(n + 1) == order + [MrName(n)];
  }

  /** The name of the next MR is not registered yet. */
  lemma {:induction false} MrNameFree(regions: map<string, RdmaHelpers.MrEntry>, order: seq<string>, n: nat,
                   baseAddr: nat, mrSize: nat, handles: seq<RdmaHelpers.MrHandle>)
    requires MrsRegistered(regions, order, n, baseAddr, mrSize, handles)
    requires RdmaHelpers.PoolInvariant(regions, order)
    ensures MrName(n) !in regions
  {
    forall i | 0 <= i < n
      ensures order[i] != MrName(n)
    {
      MrNamesDistinct(i, n);
    }
  }

  // ---------------------------------------------------------------------
  // The layout published by GET /metrics
  // ---------------------------------------------------------------------

  /** Every page listed under an MR has an entry count. */
  ghost predicate PagesCounted(mrPages: seq<seq<nat>>, numEntries: seq<nat>)
  {
    forall m, j :: 0 <= m < |mrPages| && 0 <= j < |mrPages[m]| ==> mrPages[m][j] < |numEntries|
  }

  /** Every page listed under an MR has an owner in the page map. */
  ghost predicate PagesFiled(mrPages: seq<seq<nat>>, page2pod: map<nat, string>)
  {
    forall m, j :: 0 <= m < |mrPages| && 0 <= j < |mrPages[m]| ==> mrPages[m][j] in page2pod
  }

  /** The control region of one MR: one entry per listed page, in list
      order. */
  function ControlRegionOf(pages: seq<nat>, page2pod: map<nat, string>, numEntries: seq<nat>, pageSize: nat)
    : seq<ControlInfo>
    requires forall j :: 0 <= j < |pages| ==> pages[j] in page2pod && pages[j] < |numEntries|
  {
    seq(|pages|, j requires 0 <= j < |pages| && pages[j] in page2pod && pages[j] < |numEntries| =>
      ControlInfo(page2pod[pages[j]], numEntries[pages[j]], pageSize))
  }

  /** What GET /metrics returns: one control region per MR, in MR order;
      a listed page missing from the page map raises KeyError. */
  ghost function LayoutOf(mrPages: seq<seq<nat>>, page2pod: map<nat, string>, numEntries: seq<nat>, pageSize: nat)
    : Result<seq<seq<ControlInfo>>, HostError>
    requires PagesCounted(mrPages, numEntries)
  {
    if PagesFiled(mrPages, page2pod) then
      Success(seq(|mrPages|, m requires 0 <= m < |mrPages| =>
        ControlRegionOf(mrPages[m], page2pod, numEntries, pageSize)))
    else Failure(UnknownPage)
  }

  /** The pages of one more MR filed. */
  lemma {:induction false} FiledStep(mrPages: seq<seq<nat>>, page2pod: map<nat, string>, m: nat)
    requires m < |mrPages| && PagesFiled(mrPages[..m], page2pod)
    requires forall j :: 0 <= j < |mrPages[m]| ==> mrPages[m][j] in page2pod
    ensures PagesFiled(mrPages[..m + 1], page2pod)
  {
    var s := mrPages[..m + 1];
    forall i, j | 0 <= i < |s| && 0 <= j < |s[i]|
      ensures s[i][j] in page2pod
    {
      if i < m {
        assert s[i] == mrPages[..m][i];
      }
    }
  }

  /** With the tables in agreement, the layout lists, under each of the
      `numMr` MRs, exactly the pages inside it in creation order, each
      with its pod and entry count. */
  lemma {:induction false} LayoutOfTables(owners: seq<string>, count: nat, maxPages: nat,
                       page2pod: map<nat, string>, pod2pages: map<string, seq<nat>>,
                       mrPages: seq<seq<nat>>, numMr: nat, pageSize: nat, mrSize: nat, counts: seq<nat>)
    requires TablesOf(owners, count, maxPages, page2pod, pod2pages, mrPages, numMr, pageSize, mrSize)
    requires |counts| == count
    ensures PagesCounted(mrPages, counts)
    ensures var r := LayoutOf(mrPages, page2pod, counts, pageSize);
      r.Success? && |r.value| == numMr &&
      forall m :: 0 <= m < numMr ==>
        |r.value[m]| == |MrPages(count, m, pageSize, mrSize)| &&
        forall j :: 0 <= j < |r.value[m]| ==>
          var p := MrPages(count, m, pageSize, mrSize)[j];
          p < count && MrIndex(p, pageSize, mrSize) == m &&
          r.value[m][j] == ControlInfo(owners[p], counts[p], pageSize)
  {
    forall m, j | 0 <= m < |mrPages| && 0 <= j < |mrPages[m]|
      ensures mrPages[m][j] < count && MrIndex(mrPages[m][j], pageSize, mrSize) == m
    {
      assert mrPages[m] == MrPages(count, m, pageSize, mrSize);
      MrPagesOwned(count, m, pageSize, mrSize, mrPages[m][j]);
    }
  }

  /** A layout built region by region from fully filed pages is the
      layout. */
  lemma {:induction false} LayoutOfFiled(mrPages: seq<seq<nat>>, page2pod: map<nat, string>, numEntries: seq<nat>, pageSize: nat,
                      res: seq<seq<ControlInfo>>)
    requires PagesCounted(mrPages, numEntries) && PagesFiled(mrPages, page2pod) && |res| == |mrPages|
    requires forall i :: 0 <= i < |mrPages| ==> res[i] == ControlRegionOf(mrPages[i], page2pod, numEntries, pageSize)
    ensures LayoutOf(mrPages, page2pod, numEntries, pageSize) == Success(res)
  {
    var layout := seq(|mrPages|, m requires 0 <= m < |mrPages| =>
      ControlRegionOf(mrPages[m], page2pod, numEntries, pageSize));
    assert LayoutOf(mrPages, page2pod, numEntries, pageSize) == Success(layout);
    assert res == layout;
  }

  /** One page missing from the page map makes the layout fail. */
  lemma {:induction false} LayoutOfUnfiled(mrPages: seq<seq<nat>>, page2pod: map<nat, string>, numEntries: seq<nat>, pageSize: nat,
                        m: nat, j: nat)
    requires PagesCounted(mrPages, numEntries)
    requires m < |mrPages| && j < |mrPages[m]| && mrPages[m][j] !in page2pod
    ensures LayoutOf(mrPages, page2pod, numEntries, pageSize) == Failure(UnknownPage)
  {
  }

  /** After cleanup empties the page map, the layout of an MR list that
      still names a page raises KeyError. */
  lemma {:induction false} LayoutAfterCleanup(mrPages: seq<seq<nat>>, numEntries: seq<nat>, pageSize: nat, m: nat)
    requires PagesCounted(mrPages, numEntries)
    requires m < |mrPages| && mrPages[m] != []
    ensures LayoutOf(mrPages, map[], numEntries, pageSize) == Failure(UnknownPage)
  {
    var empty: map<nat, string> := map[];
    assert mrPages[m][0] !in empty;
  }

  // ---------------------------------------------------------------------
  // The memory manager
  // ---------------------------------------------------------------------

  class MetricsMemoryManager {
    const pageSize: nat
    const mrSize: nat
    const poolSize: nat
    const metricsPerPage: nat
    const maxPages: nat
    const numMr: nat
    /** The shared segment. */
    const shm: array<byte>
    var allocatedPages: nat
    /** The entry count of each page, by page number. */
    var numEntries: seq<nat>
    var page2pod: map<nat, string>
    var pod2pages: map<string, seq<nat>>
    var mrPages: seq<seq<nat>>
    var mrPool: RdmaHelpers.MemoryRegionPool?
    /** The pod of each page, and the metrics stored in it, by page number. */
    ghost var Owners: seq<string>
    ghost var Stored: seq<seq<Metric>>

    /** The sizes fixed at construction. */
    ghost predicate Sizes()
    {
      pageSize > 0 && mrSize > 0 && poolSize % mrSize == 0 &&
      metricsPerPage == pageSize / 64 && metricsPerPage * 64 <= pageSize &&
      maxPages == poolSize / pageSize && numMr == poolSize / mrSize && shm.Length == poolSize
    }

    /** The three tables agree with the pages. */
    ghost predicate Tables()
      reads this`allocatedPages, this`page2pod, this`pod2pages, this`mrPages, this`Owners
    {
      TablesOf(Owners, allocatedPages, maxPages, page2pod, pod2pages, mrPages, numMr, pageSize, mrSize)
    }

    /** Every page has an entry count. */
    ghost predicate Counted()
      reads this`numEntries, this`Owners
    {
      |numEntries| == |Owners|
    }

    /** Page n's records sit at byte n * pageSize of the segment. */
    ghost predicate Segment()
      reads this`numEntries, this`Stored, shm
    {
      SlotsHold(shm[..], numEntries, Stored, pageSize, metricsPerPage)
    }

    ghost predicate Valid()
      reads this, shm
    {
      Sizes() && Tables() && Counted() && Segment()
    }

    /** Of each pod's pages, all but the last are full. */
    ghost predicate OnlyLastOpen()
      reads this`Owners, this`numEntries
    {
      LastOpenOnly(Owners, numEntries, metricsPerPage)
    }

    /** Some page of `pod` still has a free record. */
    ghost predicate HasOpenPage(pod: string)
      reads this`Owners, this`numEntries
    {
      SomeOpen(Owners, numEntries, metricsPerPage, pod)
    }

    /** A zero-filled pool of `poolSize` bytes with no page handed out. */
    constructor (pageSize: nat, mrSize: nat, poolSize: nat)
      requires pageSize > 0 && mrSize > 0 && poolSize % mrSize == 0
      ensures Valid() && OnlyLastOpen()
      ensures this.pageSize == pageSize && this.mrSize == mrSize && this.poolSize == poolSize
      ensures metricsPerPage == pageSize / 64 && maxPages == poolSize / pageSize && numMr == poolSize / mrSize
      ensures allocatedPages == 0 && numEntries == [] && page2pod == map[] && pod2pages == map[] && mrPool == null
      ensures |mrPages| == numMr && forall m :: 0 <= m < numMr ==> mrPages[m] == []
      ensures fresh(shm)
    {
      this.pageSize := pageSize;
      this.mrSize := mrSize;
      this.poolSize := poolSize;
      metricsPerPage := pageSize / 64;
      maxPages := poolSize / pageSize;
      numMr := poolSize / mrSize;
      shm := new byte[poolSize](_ => 0);
      allocatedPages := 0;
      numEntries := [];
      page2pod := map[];
      pod2pages := map[];
      mrPages := seq(poolSize / mrSize, _ => []);
      mrPool := null;
      Owners := [];
      Stored := [];
      new;
      assert mrPages == MrListsOf(0, numMr, pageSize, mrSize);
    }

    /** Hand out the next page to `pod`. Fails, changing nothing, once every
        page is taken; otherwise page n = allocatedPages, at byte
        n * pageSize and empty, is filed in the page map, at the end of the
        pod's list and at the end of the list of the MR holding it. */
    method CreateNewPage(pod: string) returns (r: Result<nat, HostError>)
      requires Valid()
      modifies this
      ensures Valid()
      ensures r.Success? <==> old(allocatedPages) < maxPages
      ensures r.Failure? ==> r.error == NoPagesLeft && unchanged(this)
      ensures r.Success? ==>
        var n := old(allocatedPages);
        var i := MrIndex(n, pageSize, mrSize);
        r.value == n && allocatedPages == n + 1 && mrPool == old(mrPool) &&
        numEntries == old(numEntries) + [0] && Owners == old(Owners) + [pod] && Stored == old(Stored) + [[]] &&
        page2pod == old(page2pod)[n := pod] &&
        pod2pages == old(pod2pages)[pod := (if pod in old(pod2pages) then old(pod2pages)[pod] else []) + [n]] &&
        i < |old(mrPages)| && mrPages == old(mrPages)[i := old(mrPages)[i] + [n]]
    {
      if allocatedPages >= maxPages {
        return Failure(NoPagesLeft);
      }
      var n := allocatedPages;
      PageInPool(n, pageSize, poolSize);
      SlotsGrow(shm[..], numEntries, Stored, pageSize, metricsPerPage);
      RecordPage(pod);
      r := Success(n);
    }

    /** The bookkeeping of _create_new_page for page n = allocatedPages: the
        page map, the pod's list, the list of the MR holding the page, the
        page count, and the new page's (zero) entry count. */
    method RecordPage(pod: string)
      requires Sizes() && Tables() && Counted() && allocatedPages < maxPages
      modifies this`allocatedPages, this`numEntries, this`page2pod, this`pod2pages, this`mrPages,
               this`Owners, this`Stored
      ensures Sizes() && Tables() && Counted()
      ensures var n := old(allocatedPages);
        var i := MrIndex(n, pageSize, mrSize);
        allocatedPages == n + 1 &&
        numEntries == old(numEntries) + [0] && Owners == old(Owners) + [pod] && Stored == old(Stored) + [[]] &&
        page2pod == old(page2pod)[n := pod] &&
        pod2pages == old(pod2pages)[pod := (if pod in old(pod2pages) then old(pod2pages)[pod] else []) + [n]] &&
        i < |old(mrPages)| && mrPages == old(mrPages)[i := old(mrPages)[i] + [n]]
    {
      var n := allocatedPages;
      var mrIdx := MrSlot(n, pageSize, mrSize, poolSize);
      var list := if pod in pod2pages then pod2pages[pod] else [];
      var page2pod', pod2pages' := page2pod[n := pod], pod2pages[pod := list + [n]];
      var mrPages' := mrPages[mrIdx := mrPages[mrIdx] + [n]];
      TablesStep(Owners, n, maxPages, page2pod, pod2pages, mrPages, numMr, pageSize, mrSize, pod,
                 Owners + [pod], page2pod', pod2pages', mrPages');
      page2pod, pod2pages, mrPages := page2pod', pod2pages', mrPages';
      numEntries := numEntries + [0];
      allocatedPages := n + 1;
      Owners := Owners + [pod];
      Stored := Stored + [[]];
    }

    /** The first page of `pod`, in creation order, that is not full; None
        for an unknown pod or when every page of it is full. */
    method GetPageForPod(pod: string) returns (r: Option<nat>)
      requires Tables() && Counted()
      ensures r.None? <==> !HasOpenPage(pod)
      ensures r.Some? ==> r.value < allocatedPages && Owners[r.value] == pod && numEntries[r.value] < metricsPerPage
      ensures r.Some? ==> forall p :: 0 <= p < r.value && Owners[p] == pod ==> numEntries[p] >= metricsPerPage
    {
      if pod !in pod2pages {
        NoOpenPage(Owners, numEntries, metricsPerPage, pod2pages, pod);
        return None;
      }
      var pages := pod2pages[pod];
      PodPagesIncreasing(Owners, pod);
      assert forall j :: 0 <= j < |pages| ==> pages[j] in pages;
      var i := 0;
      while i < |pages|
        invariant 0 <= i <= |pages|
        invariant forall j :: 0 <= j < i ==> numEntries[pages[j]] >= metricsPerPage
      {
        if numEntries[pages[i]] < metricsPerPage {
          PodPagesOwned(Owners, pod, pages[i]);
          forall p | 0 <= p < pages[i] && Owners[p] == pod
            ensures numEntries[p] >= metricsPerPage
          {
            PodPagesHas(Owners, pod, p);
            var j :| 0 <= j < |pages| && pages[j] == p;
            IncreasingOrder(pages, j, i);
          }
          return Some(pages[i]);
        }
        i := i + 1;
      }
      NoOpenPage(Owners, numEntries, metricsPerPage, pod2pages, pod);
      return None;
    }

    /** MetricsPage.add_metric on page `k`: a full page or a name that is
        not ASCII is refused, changing nothing; otherwise the record goes
        into the page's next free slot, the page's count grows by one, and
        the segment address of the record's value field is returned, where
        the 8 bytes now hold `value`. */
    method WriteMetric(k: nat, name: string, isGauge: bool, value: word64) returns (r: Result<nat, HostError>)
      requires Sizes() && Counted() && Segment() && k < |numEntries|
      modifies this`numEntries, this`Stored, shm
      ensures Counted() && Segment()
      ensures var admitted := Admit(old(numEntries[k]), metricsPerPage, name);
        (admitted.Failure? ==>
          r == Failure(PageRejected(admitted.error)) &&
          numEntries == old(numEntries) && Stored == old(Stored) && shm[..] == old(shm[..])) &&
        (admitted.Success? ==>
          r == Success(k * pageSize + ValueFieldOffset(old(numEntries[k]))) &&
          Appended(pageSize, k, Metric(admitted.value, isGauge, value), old(numEntries), old(Stored), old(shm[..]),
                   numEntries, Stored, shm[..]))
      ensures r.Success? ==> HoldsWord(shm[..], r.value, value)
      ensures old(OnlyLastOpen()) ==> OnlyLastOpen()
    {
      var admitted := Admit(numEntries[k], metricsPerPage, name);
      if admitted.Failure? {
        return Failure(PageRejected(admitted.error));
      }
      ghost var counts := numEntries;
      var a := StoreMetric(k, Metric(admitted.value, isGauge, value));
      r := Success(a);
      if LastOpenOnly(Owners, counts, metricsPerPage) {
        LastOpenFill(Owners, counts, metricsPerPage, k);
      }
    }

    /** The record of `m` written into the next free slot of page `k`. */
    method StoreMetric(k: nat, m: Metric) returns (a: nat)
      requires Sizes() && Counted() && Segment() && k < |numEntries| && numEntries[k] < metricsPerPage
      modifies this`numEntries, this`Stored, shm
      ensures Counted() && Segment()
      ensures Appended(pageSize, k, m, old(numEntries), old(Stored), old(shm[..]), numEntries, Stored, shm[..])
      ensures a == k * pageSize + ValueFieldOffset(old(numEntries[k])) && HoldsWord(shm[..], a, m.value)
    {
      assert SlotHolds(shm[..], numEntries, Stored, pageSize, metricsPerPage, k);
      var x := numEntries[k];
      ghost var before, counts, contents := shm[..], numEntries, Stored;
      PutRecord(shm, k * pageSize + x * 64, EncodeRecord(m));
      ghost var after := shm[..];
      numEntries := numEntries[k := x + 1];
      Stored := Stored[k := Stored[k] + [m]];
      assert shm[..] == after;
      WriteStep(before, after, counts, contents, pageSize, metricsPerPage, k, m);
      a := k * pageSize + ValueFieldOffset(x);
    }

    /** The page allocate_metric writes into: the pod's open page when it
        has one, otherwise a new page for it. */
    method OpenPage(pod: string) returns (r: Result<nat, HostError>)
      requires Valid() && OnlyLastOpen()
      modifies this
      ensures Valid() && OnlyLastOpen() && mrPool == old(mrPool)
      ensures old(HasOpenPage(pod)) ==> r.Success? && unchanged(this)
      ensures !old(HasOpenPage(pod)) ==>
        (r.Success? <==> old(allocatedPages) < maxPages) &&
        (r.Failure? ==> r.error == NoPagesLeft && unchanged(this)) &&
        (r.Success? ==> r.value == old(allocatedPages) && numEntries == old(numEntries) + [0] &&
                        Owners == old(Owners) + [pod] && Stored == old(Stored) + [[]])
      ensures r.Success? ==> r.value < allocatedPages && Owners[r.value] == pod
      ensures r.Success? && metricsPerPage > 0 ==> numEntries[r.value] < metricsPerPage
    {
      var open := GetPageForPod(pod);
      if open.Some? {
        return Success(open.value);
      }
      ghost var owners0 := Owners;
      ghost var counts0 := numEntries;
      r := CreateNewPage(pod);
      if r.Success? {
        LastOpenAppend(owners0, counts0, metricsPerPage, pod);
      }
    }

    /** allocate_metric: store a metric for `pod` in its open page, or in a
        new page when it has none, and return the segment address of the
        value field. Fails with NoPagesLeft, changing nothing, when a new
        page is needed and none is left; a page created for a metric that
        is then refused stays allocated. */
    method AllocateMetric(pod: string, name: string, isGauge: bool, value: word64)
      returns (r: Result<nat, HostError>, ghost k: nat)
      requires Valid() && OnlyLastOpen()
      modifies this, shm
      ensures Valid() && OnlyLastOpen() && mrPool == old(mrPool)
      ensures var room := old(HasOpenPage(pod)) || old(allocatedPages) < maxPages;
        (r.Success? <==> room && metricsPerPage > 0 && AsciiBytes(name).Some?) &&
        (!room ==> r == Failure(NoPagesLeft) && unchanged(this) && shm[..] == old(shm[..])) &&
        (room && metricsPerPage == 0 ==> r == Failure(PageRejected(PageFull))) &&
        (room && metricsPerPage > 0 && AsciiBytes(name).None? ==> r == Failure(PageRejected(NameNotAscii)))
      ensures old(HasOpenPage(pod)) ==> allocatedPages == old(allocatedPages) && Owners == old(Owners)
      ensures !old(HasOpenPage(pod)) && old(allocatedPages) < maxPages ==>
        allocatedPages == old(allocatedPages) + 1 && Owners == old(Owners) + [pod]
      ensures r.Success? ==>
        var m := Metric(AsciiBytes(name).value, isGauge, value);
        var pages := if old(HasOpenPage(pod)) then old(Stored) else old(Stored) + [[]];
        k < |pages| && Owners[k] == pod && Stored == pages[k := pages[k] + [m]] &&
        r.value == k * pageSize + ValueFieldOffset(|pages[k]|) && HoldsWord(shm[..], r.value, value)
    {
      ghost var stored0, open0 := Stored, HasOpenPage(pod);
      var page := OpenPage(pod);
      if page.Failure? {
        return Failure(page.error), 0;
      }
      var n := page.value;
      k := n;
      assert Stored == if open0 then stored0 else stored0 + [[]];
      r := WriteMetric(n, name, isGauge, value);
      if r.Success? {
        assert SlotHolds(shm[..], numEntries, Stored, pageSize, metricsPerPage, k);
      }
    }

    /** add_rdma_memory_regions: a new MR pool (with the default page size
        as its buffer size) replaces the old one; an MR size that is not a
        multiple of the page size is refused, leaving the new pool empty;
        otherwise MR i is registered as "RDMA-MR-i", `mrSize` bytes at
        `baseAddr + i * mrSize`, with the keys the verbs library returns
        in `handles[i]`. */
    method AddRdmaMemoryRegions(baseAddr: nat, handles: seq<RdmaHelpers.MrHandle>) returns (r: Option<HostError>)
      requires Sizes() && |handles| == numMr
      modifies this`mrPool
      ensures mrPool != null && fresh(mrPool) && mrPool.Valid()
      ensures mrPool.defaultBufferSize == Defaults.DEFAULT_PAGE_SIZE
      ensures r.Some? <==> mrSize % pageSize != 0
      ensures r.Some? ==> r.value == MrSizeNotPageMultiple && mrPool.regions == map[] && mrPool.order == []
      ensures r.None? ==> MrsRegistered(mrPool.regions, mrPool.order, numMr, baseAddr, mrSize, handles)
    {
      var pool := new RdmaHelpers.MemoryRegionPool(Defaults.DEFAULT_PAGE_SIZE as nat);
      mrPool := pool;
      if mrSize % pageSize != 0 {
        return Some(MrSizeNotPageMultiple);
      }
      var i := 0;
      while i < numMr
        invariant i <= numMr && mrPool == pool && pool.Valid()
        invariant MrsRegistered(pool.regions, pool.order, i, baseAddr, mrSize, handles)
      {
        ghost var regions0, order0 := pool.regions, pool.order;
        MrNameFree(regions0, order0, i, baseAddr, mrSize, handles);
        var _ := pool.RegisterMemoryRegion(MrName(i), MrAddr(i, baseAddr, mrSize), mrSize, handles[i]);
        MrsRegisteredStep(regions0, order0, i, baseAddr, mrSize, handles, pool.regions, pool.order);
        i := i + 1;
      }
      r := None;
    }

    /** cleanup: close the MRs (`closeOk[i]` says whether closing the i-th
        registered one succeeded), then empty the page map and the pod
        lists and reset the page count. The MR lists and the pages' entry
        counts are kept. */
    method Cleanup(closeOk: seq<bool>)
      requires mrPool != null ==> mrPool.Valid() && |closeOk| == |mrPool.order|
      modifies this`page2pod, this`pod2pages, this`allocatedPages, mrPool
      ensures page2pod == map[] && pod2pages == map[] && allocatedPages == 0
      ensures mrPool != null ==>
        mrPool.Valid() && mrPool.order == RdmaHelpers.Survivors(old(mrPool.order), closeOk) &&
        RdmaHelpers.SubMap(mrPool.regions, old(mrPool.regions))
    {
      if mrPool != null {
        mrPool.Cleanup(closeOk);
      }
      page2pod := map[];
      pod2pages := map[];
      allocatedPages := 0;
    }

    /** The layout the GET /metrics route builds: for each MR in index
        order, one entry per page listed under it. */
    method MemoryLayout() returns (r: Result<seq<seq<ControlInfo>>, HostError>)
      requires PagesCounted(mrPages, numEntries)
      ensures r == LayoutOf(mrPages, page2pod, numEntries, pageSize)
    {
      var mrPages, page2pod, numEntries, pageSize := mrPages, page2pod, numEntries, pageSize;
      var res: seq<seq<ControlInfo>> := [];
      var m := 0;
      while m < |mrPages|
        invariant m <= |mrPages| && |res| == m
        invariant PagesFiled(mrPages[..m], page2pod)
        invariant forall i :: 0 <= i < m ==> res[i] == ControlRegionOf(mrPages[i], page2pod, numEntries, pageSize)
      {
        var pages := mrPages[m];
        var region: seq<ControlInfo> := [];
        var j := 0;
        while j < |pages|
          invariant j <= |pages| && |region| == j
          invariant forall i :: 0 <= i < j ==>
            (pages[i] in page2pod && region[i] == ControlInfo(page2pod[pages[i]], numEntries[pages[i]], pageSize))
        {
          var p := pages[j];
          if p !in page2pod {
            LayoutOfUnfiled(mrPages, page2pod, numEntries, pageSize, m, j);
            return Failure(UnknownPage);
          }
          region := region + [ControlInfo(page2pod[p], numEntries[p], pageSize)];
          j := j + 1;
        }
        assert region == ControlRegionOf(pages, page2pod, numEntries, pageSize);
        res := res + [region];
        FiledStep(mrPages, page2pod, m);
        m := m + 1;
      }
      assert mrPages[..m] == mrPages;
      LayoutOfFiled(mrPages, page2pod, numEntries, pageSize, res);
      r := Success(res);
    }
  }

  // ---------------------------------------------------------------------
  // POST /rdma/qps/connect
  // ---------------------------------------------------------------------

  /** The result reported for entry `index`: connected (with the local
      queue-pair number) or not. */
  datatype QpOutcome = QpConnected(index: nat, qpNum: nat) | QpFailed(index: nat)

  /** The route's reply: 503 without a queue-pair pool; otherwise the
      summary of a run that connected at least one queue pair, or the
      "failed" reply (500) when none connected. */
  datatype ConnectReply =
    | PoolNotRunning
    | Summary(status: string, connected: nat, total: nat, results: seq<QpOutcome>)
    | NoneConnected(results: seq<QpOutcome>)

  function StatusCode(reply: ConnectReply): (code: nat)
    ensures code == 200 <==> reply.Summary?
  {
    match reply
    case PoolNotRunning => 503
    case Summary(_, _, _, _) => 200
    case NoneConnected(_) => 500
  }

  /** What the n-th entry does to the i-th queue pair, for i == n: the
      outcome when `ok` is whether its transition to ready-to-send
      succeeds. */
  function OutcomeOf(q: RdmaHelpers.QpEntry, i: nat, ok: bool): QpOutcome
  {
    if !q.inUse && ok then QpConnected(i, q.qpNum) else QpFailed(i)
  }

  /** The connect loop over the first `n` entries of `data`: entry i
      connects queue pair i when the pool has one, and is skipped
      otherwise. Returns the queue pairs and the outcomes. */
  function ConnectAll(qps: seq<RdmaHelpers.QpEntry>, data: seq<RdmaHelpers.RemoteQp>, oks: seq<bool>, n: nat)
    : (res: (seq<RdmaHelpers.QpEntry>, seq<QpOutcome>))
    requires n <= |data| == |oks|
    ensures |res.0| == |qps| && |res.1| == Min(n, |qps|)
  {
    if n == 0 then (qps, [])
    else
      var (q, out) := ConnectAll(qps, data, oks, n - 1);
      if n - 1 < |q| then
        var (q', ok) := RdmaHelpers.Connect(q, n - 1, data[n - 1], oks[n - 1]);
        (q', out + [if ok == Success(true) then QpConnected(n - 1, q'[n - 1].qpNum) else QpFailed(n - 1)])
      else (q, out)
  }

  /** Entry i's outcome depends only on queue pair i as it was before the
      loop, since no other entry touches it; the queue pairs that connect
      become in use and remember their peer, the others are unchanged. */
  lemma {:induction false} ConnectAllMeaning(qps: seq<RdmaHelpers.QpEntry>, data: seq<RdmaHelpers.RemoteQp>,
                                             oks: seq<bool>, n: nat)
    requires n <= |data| == |oks|
    ensures var res := ConnectAll(qps, data, oks, n);
      (forall i :: 0 <= i < |res.1| ==> res.1[i] == OutcomeOf(qps[i], i, oks[i])) &&
      (forall i :: 0 <= i < |qps| ==>
        res.0[i] == if i < n && OutcomeOf(qps[i], i, oks[i]).QpConnected?
                    then qps[i].(inUse := true, remoteInfo := Some(data[i])) else qps[i])
  {
    if n > 0 {
      ConnectAllMeaning(qps, data, oks, n - 1);
    }
  }

  /** How many outcomes are connections. */
  function CountConnected(results: seq<QpOutcome>): (c: nat)
    ensures c <= |results|
    ensures c == |results| <==> forall i :: 0 <= i < |results| ==> results[i].QpConnected?
    ensures c == 0 <==> forall i :: 0 <= i < |results| ==> results[i].QpFailed?
  {
    if |results| == 0 then 0
    else CountConnected(results[..|results| - 1]) + (if results[|results| - 1].QpConnected? then 1 else 0)
  }

  /** The reply for `results` out of `total` requested entries. */
  function Summarize(results: seq<QpOutcome>, total: nat): ConnectReply
  {
    var c := CountConnected(results);
    if c > 0 then Summary(if c < total then "partial_success" else "success", c, total, results)
    else NoneConnected(results)
  }

  /** connect_all_queue_pairs: connect queue pair i to the i-th requested
      peer for every i the pool has, `oks[i]` being whether its transition
      to ready-to-send succeeds, and summarise. */
  method ConnectAllQueuePairs(pool: RdmaHelpers.QueuePairPool?, data: seq<RdmaHelpers.RemoteQp>, oks: seq<bool>)
    returns (reply: ConnectReply)
    requires |oks| == |data|
    modifies pool
    ensures pool == null ==> reply == PoolNotRunning
    ensures pool != null ==>
      var (qps, results) := ConnectAll(old(pool.qps), data, oks, |data|);
      pool.qps == qps && reply == Summarize(results, |data|)
  {
    if pool == null {
      return PoolNotRunning;
    }
    var results: seq<QpOutcome> := [];
    var i := 0;
    while i < |data|
      invariant i <= |data|
      invariant (pool.qps, results) == ConnectAll(old(pool.qps), data, oks, i)
    {
      if i < |pool.qps| {
        var ok := pool.ConnectQueuePair(i, data[i], oks[i]);
        if ok == Success(true) {
          results := results + [QpConnected(i, pool.qps[i].qpNum)];
        } else {
          results := results + [QpFailed(i)];
        }
      }
      i := i + 1;
    }
    reply := Summarize(results, |data|);
  }

  /** Every one of the first `n` queue pairs is free and connects. */
  ghost predicate AllConnect(qps: seq<RdmaHelpers.QpEntry>, oks: seq<bool>, n: nat)
  {
    n <= |qps| && n <= |oks| && forall i :: 0 <= i < n ==> OutcomeOf(qps[i], i, oks[i]).QpConnected?
  }

  /** The outcomes of the connect loop, each as OutcomeOf says. */
  lemma {:induction false} OutcomesOf(qps: seq<RdmaHelpers.QpEntry>, data: seq<RdmaHelpers.RemoteQp>, oks: seq<bool>)
    requires |data| == |oks|
    ensures var results := ConnectAll(qps, data, oks, |data|).1;
      |results| == Min(|data|, |qps|) &&
      (CountConnected(results) == |results| <==> AllConnect(qps, oks, |results|)) &&
      (CountConnected(results) == 0 <==> forall i :: 0 <= i < |results| ==> OutcomeOf(qps[i], i, oks[i]).QpFailed?)
  {
    ConnectAllMeaning(qps, data, oks, |data|);
  }

  /** The overall status is "success" exactly when every requested entry
      had a free queue pair and connected. */
  lemma {:induction false} ConnectSucceeds(qps: seq<RdmaHelpers.QpEntry>, data: seq<RdmaHelpers.RemoteQp>, oks: seq<bool>)
    requires |data| == |oks|
    ensures var reply := Summarize(ConnectAll(qps, data, oks, |data|).1, |data|);
      reply.Summary? && reply.status == "success" <==> 0 < |data| && AllConnect(qps, oks, |data|)
  {
    OutcomesOf(qps, data, oks);
  }

  /** The reply is "failed" (500) exactly when no entry connected, which
      includes an empty request. */
  lemma {:induction false} ConnectFails(qps: seq<RdmaHelpers.QpEntry>, data: seq<RdmaHelpers.RemoteQp>, oks: seq<bool>)
    requires |data| == |oks|
    ensures Summarize(ConnectAll(qps, data, oks, |data|).1, |data|).NoneConnected? <==>
      forall i :: 0 <= i < Min(|data|, |qps|) ==> OutcomeOf(qps[i], i, oks[i]).QpFailed?
  {
    OutcomesOf(qps, data, oks);
  }
}
