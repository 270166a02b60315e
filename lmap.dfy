/**
 * The local metrics processing pipeline (LMAP.py): one LMAP reads a slice
 * of the host's memory regions through its one-sided reader, cuts each
 * region into the pages its control information describes, groups the
 * pages by pod, and exports them as Prometheus metric families. It also
 * keeps one anomaly classifier per pod and writes its statistics as
 * "key,value" lines.
 */
module Lmap {
  import opened Common
  import Host
  import Metrics
  import RdmaHelpers

  // ---------------------------------------------------------------------
  // Classifiers
  // ---------------------------------------------------------------------

  /** The anomaly models: the three LMAP knows how to build, and any other
      member of the models enumeration. */
  datatype Model = FrequentDirectionSketch | Vae | Threshold | Unlisted(name: string)

  /** A classifier as built: its model and the number of metrics (the
      dimension of the vectors it expects). */
  datatype Classifier = Classifier(model: Model, numMetrics: nat)

  datatype LmapError =
    | UnknownModel            // ValueError from set_classifier
    | NoReader                // execute() on a reader already released
    | ReadFailed(e: RdmaHelpers.ReaderError)
    | MissingControlRegion    // IndexError: more results than control regions
    | BadPage                 // from_bytes on a page that is not whole records

  /** The table after installing a classifier for each page entry in turn:
      every entry (re)builds its pod's classifier with its own count. */
  function Install(t: map<string, Classifier>, e: seq<Host.ControlInfo>, model: Model): map<string, Classifier>
  {
    if |e| == 0 then t
    else Install(t, e[..|e| - 1], model)[e[|e| - 1].podId := Classifier(model, e[|e| - 1].numMetrics)]
  }

  ghost predicate HasEntry(e: seq<Host.ControlInfo>, pod: string)
  {
    exists i :: 0 <= i < |e| && e[i].podId == pod
  }

  /** Entry i is the last one for its pod. */
  ghost predicate LastFor(e: seq<Host.ControlInfo>, i: int)
  {
    0 <= i < |e| && forall k :: i < k < |e| ==> e[k].podId != e[i].podId
  }

  /** Installing two runs of entries is installing the second on the
      table the first leaves. */
  lemma {:induction false} InstallAppend(t: map<string, Classifier>, a: seq<Host.ControlInfo>, b: seq<Host.ControlInfo>, model: Model)
    ensures Install(t, a + b, model) == Install(Install(t, a, model), b, model)
  {
    if |b| == 0 {
      assert a + b == a;
    } else {
      var ab := a + b;
      assert ab[..|ab| - 1] == a + b[..|b| - 1];
      InstallAppend(t, a, b[..|b| - 1], model);
    }
  }

  /** A pod has a classifier iff it had one or has a page entry. */
  lemma {:induction false} InstallDomain(t: map<string, Classifier>, e: seq<Host.ControlInfo>, model: Model, pod: string)
    ensures pod in Install(t, e, model) <==> pod in t || HasEntry(e, pod)
  {
    if |e| > 0 {
      var init := e[..|e| - 1];
      InstallDomain(t, init, model, pod);
      if HasEntry(init, pod) {
        var i :| 0 <= i < |init| && init[i].podId == pod;
        assert e[i].podId == pod;
      }
      if HasEntry(e, pod) && pod != e[|e| - 1].podId {
        var i :| 0 <= i < |e| && e[i].podId == pod;
        assert init[i].podId == pod;
      }
    }
  }

  /** A pod listed several times keeps the classifier of its last entry. */
  lemma {:induction false} InstallLast(t: map<string, Classifier>, e: seq<Host.ControlInfo>, model: Model, i: int)
    requires LastFor(e, i)
    ensures e[i].podId in Install(t, e, model)
    ensures Install(t, e, model)[e[i].podId] == Classifier(model, e[i].numMetrics)
  {
    var init := e[..|e| - 1];
    if i < |e| - 1 {
      assert init[i] == e[i];
      assert LastFor(init, i);
      InstallLast(t, init, model, i);
    }
  }

  /** A pod without a page entry keeps the classifier it had. */
  lemma {:induction false} InstallUntouched(t: map<string, Classifier>, e: seq<Host.ControlInfo>, model: Model, pod: string)
    requires pod in t && !HasEntry(e, pod)
    ensures pod in Install(t, e, model) && Install(t, e, model)[pod] == t[pod]
  {
    if |e| > 0 {
      var init := e[..|e| - 1];
      forall i | 0 <= i < |init| ensures init[i].podId != pod {
        assert init[i] == e[i];
      }
      InstallUntouched(t, init, model, pod);
      assert e[|e| - 1].podId != pod;
    }
  }

  /** The intended table: each pod's classifier expects as many metrics as
      all of its pages hold together, since that is the length of the
      vector the pod's pages are concatenated into for classification. */
  function InstallTotals(t: map<string, Classifier>, e: seq<Host.ControlInfo>, model: Model): map<string, Classifier>
  {
    if |e| == 0 then t
    else
      var last := e[|e| - 1];
      InstallTotals(t, e[..|e| - 1], model)[last.podId := Classifier(model, PodMetrics(e, last.podId))]
  }

  /** The metrics a pod's pages announce, summed over its entries. */
  function PodMetrics(e: seq<Host.ControlInfo>, pod: string): nat
  {
    if |e| == 0 then 0
    else PodMetrics(e[..|e| - 1], pod) + (if e[|e| - 1].podId == pod then e[|e| - 1].numMetrics else 0)
  }

  /** With every entry of a pod counted, the pod's classifier expects the
      metrics of all its pages together. */
  lemma {:induction false} InstallTotalsAt(t: map<string, Classifier>, e: seq<Host.ControlInfo>, model: Model, i: int)
    requires 0 <= i < |e|
    ensures e[i].podId in InstallTotals(t, e, model)
    ensures InstallTotals(t, e, model)[e[i].podId] == Classifier(model, PodMetrics(e, e[i].podId))
  {
    var init := e[..|e| - 1];
    if e[i].podId != e[|e| - 1].podId {
      assert init[i] == e[i];
      InstallTotalsAt(t, init, model, i);
    }
  }

  /** The table as built: a pod whose pages are split over two entries
      gets a classifier for the second page's metrics only, while the
      vector it is given holds both pages' metrics. */
  lemma {:induction false} AsWrittenDimensionMismatch(model: Model)
    ensures var e := [Host.ControlInfo("p", 3, 192), Host.ControlInfo("p", 2, 128)];
      Install(map[], e, model)["p"].numMetrics == 2 && PodMetrics(e, "p") == 5
  {
    var e := [Host.ControlInfo("p", 3, 192), Host.ControlInfo("p", 2, 128)];
    assert e[..1] == [e[0]] && e[..1][..0] == [];
  }

  // ---------------------------------------------------------------------
  // Reading pages
  // ---------------------------------------------------------------------

  /** `s[lo:hi]` for 0 <= lo <= hi: slicing past the end gives what is
      there, possibly nothing. */
  function Cut(s: seq<byte>, lo: nat, hi: nat): (r: seq<byte>)
    requires lo <= hi
  {
    if |s| <= lo then [] else if |s| <= hi then s[lo..] else s[lo..hi]
  }

  /** One page to decode: its pod, its bytes and its announced count. */
  datatype PageRead = PageRead(podId: string, raw: seq<byte>, occupancy: nat)

  /** Page j of a region: the bytes from j * size to (j + 1) * size, where
      size is that page's announced size, with its pod and count. */
  function PageAt(data: seq<byte>, region: seq<Host.ControlInfo>, j: nat): PageRead
    requires j < |region|
  {
    var size := region[j].pageSizeBytes;
    PageRead(region[j].podId, Cut(data, Offset(j, size), Offset(j, size) + size), region[j].numMetrics)
  }

  /** Where page j starts when pages are `size` bytes. */
  function Offset(j: nat, size: nat): nat
  {
    j * size
  }

  /** The first n pages of a region. */
  function FirstPages(data: seq<byte>, region: seq<Host.ControlInfo>, n: nat): (rs: seq<PageRead>)
    requires n <= |region|
    ensures |rs| == n
  {
    if n == 0 then [] else FirstPages(data, region, n - 1) + [PageAt(data, region, n - 1)]
  }

  /** The pages of one region, in order. */
  function RegionReads(data: seq<byte>, region: seq<Host.ControlInfo>): (rs: seq<PageRead>)
    ensures |rs| == |region|
  {
    FirstPages(data, region, |region|)
  }

  /** Page j of the region's reads is the region's page j. */
  lemma {:induction false} FirstPagesAt(data: seq<byte>, region: seq<Host.ControlInfo>, n: nat, j: nat)
    requires j < n <= |region|
    ensures FirstPages(data, region, n)[j] == PageAt(data, region, j)
  {
    if j < n - 1 {
      FirstPagesAt(data, region, n - 1, j);
    }
  }

  /** The pages of the first |results| regions: result i is read with
      control region i, by position. */
  function PageReads(results: seq<seq<byte>>, ci: seq<seq<Host.ControlInfo>>): seq<PageRead>
    requires |results| <= |ci|
  {
    if |results| == 0 then []
    else PageReads(results[..|results| - 1], ci) + RegionReads(results[|results| - 1], ci[|results| - 1])
  }

  /** A dict of lists filled with setdefault(key, []).append(v): the keys
      in first-insertion order and each key's list. */
  datatype Grouped<T> = Grouped(keys: seq<string>, groups: map<string, seq<T>>)

  function AddTo<T>(g: Grouped<T>, key: string, v: T): Grouped<T>
  {
    if key in g.groups then Grouped(g.keys, g.groups[key := g.groups[key] + [v]])
    else Grouped(g.keys + [key], g.groups[key := [v]])
  }

  ghost predicate WellGrouped<T>(g: Grouped<T>)
  {
    (forall k :: k in g.groups <==> k in g.keys) &&
    (forall k :: k in g.groups ==> |g.groups[k]| > 0) &&
    forall i, j :: 0 <= i < j < |g.keys| ==> g.keys[i] != g.keys[j]
  }

  function Decode(rd: PageRead): Result<Metrics.DecodedPage, Metrics.PageError>
  {
    Metrics.FromBytes(rd.raw, rd.occupancy)
  }

  /** Decode the pages in order and add each to its pod's list; None when
      a page is not a whole number of records. */
  function GroupFrom(g: Grouped<Metrics.DecodedPage>, rs: seq<PageRead>): Option<Grouped<Metrics.DecodedPage>>
  {
    if |rs| == 0 then Some(g) else Push(GroupFrom(g, rs[..|rs| - 1]), rs[|rs| - 1])
  }

  /** One more page: decoded and appended to its pod's list. */
  function Push(o: Option<Grouped<Metrics.DecodedPage>>, rd: PageRead): Option<Grouped<Metrics.DecodedPage>>
  {
    match o
    case None => None
    case Some(g) =>
      match Decode(rd)
      case Failure(_) => None
      case Success(page) => Some(AddTo(g, rd.podId, page))
  }

  function Empty<T>(): Grouped<T> { Grouped([], map[]) }

  ghost predicate AllDecode(rs: seq<PageRead>)
  {
    forall i :: 0 <= i < |rs| ==> Decode(rs[i]).Success?
  }

  /** The decoded pages of `pod`, in read order. */
  function PagesOf(rs: seq<PageRead>, pod: string): seq<Metrics.DecodedPage>
    requires AllDecode(rs)
  {
    if |rs| == 0 then []
    else
      var last := rs[|rs| - 1];
      PagesOf(rs[..|rs| - 1], pod) + (if last.podId == pod then [Decode(last).value] else [])
  }

  ghost predicate HasPod(rs: seq<PageRead>, pod: string)
  {
    exists i :: 0 <= i < |rs| && rs[i].podId == pod
  }

  /** The conclusion of grouping `rs`: each pod listed once, a list for
      exactly the pods read, each list the pod's decoded pages in order. */
  ghost predicate GroupsArePages(g: Grouped<Metrics.DecodedPage>, rs: seq<PageRead>)
    requires AllDecode(rs)
  {
    WellGrouped(g) &&
    (forall p :: p in g.groups <==> HasPod(rs, p)) &&
    (forall p :: p in g.groups ==> g.groups[p] == PagesOf(rs, p))
  }

  /** Grouping succeeds iff every page decodes, and then its result is
      the pods' pages in region-then-page order. */
  lemma {:induction false} GroupMeaning(rs: seq<PageRead>)
    ensures GroupFrom(Empty(), rs).Some? <==> AllDecode(rs)
    ensures GroupFrom(Empty(), rs).Some? ==> AllDecode(rs) && GroupsArePages(GroupFrom(Empty(), rs).value, rs)
  {
    if |rs| > 0 {
      var init := rs[..|rs| - 1];
      var last := rs[|rs| - 1];
      GroupMeaning(init);
      assert rs == init + [last];
      AllDecodeStep(init, last);
      if GroupFrom(Empty(), init).Some? && Decode(last).Success? {
        GroupStep(init, last, GroupFrom(Empty(), init).value);
      }
    }
  }

  lemma {:induction false} AllDecodeStep(init: seq<PageRead>, last: PageRead)
    ensures AllDecode(init + [last]) <==> AllDecode(init) && Decode(last).Success?
  {
    var rs := init + [last];
    assert forall i :: 0 <= i < |init| ==> rs[i] == init[i];
    assert rs[|init|] == last;
  }

  lemma {:induction false} HasPodStep(init: seq<PageRead>, last: PageRead, pod: string)
    ensures HasPod(init + [last], pod) <==> HasPod(init, pod) || last.podId == pod
  {
    var rs := init + [last];
    if HasPod(init, pod) {
      var i :| 0 <= i < |init| && init[i].podId == pod;
      assert rs[i].podId == pod;
    }
    if HasPod(rs, pod) && last.podId != pod {
      var i :| 0 <= i < |rs| && rs[i].podId == pod;
      assert init[i].podId == pod;
    }
    assert rs[|init|] == last;
  }

  lemma {:induction false} PagesOfStep(init: seq<PageRead>, last: PageRead, pod: string)
    requires AllDecode(init) && Decode(last).Success?
    ensures AllDecode(init + [last])
    ensures PagesOf(init + [last], pod) == PagesOf(init, pod) + (if last.podId == pod then [Decode(last).value] else [])
  {
    AllDecodeStep(init, last);
    var rs := init + [last];
    assert rs[..|rs| - 1] == init;
  }

  /** A pod with no page has no pages. */
  lemma {:induction false} PagesOfAbsent(rs: seq<PageRead>, pod: string)
    requires AllDecode(rs) && !HasPod(rs, pod)
    ensures PagesOf(rs, pod) == []
  {
    if |rs| > 0 {
      var init := rs[..|rs| - 1];
      assert rs == init + [rs[|rs| - 1]];
      AllDecodeStep(init, rs[|rs| - 1]);
      HasPodStep(init, rs[|rs| - 1], pod);
      PagesOfAbsent(init, pod);
    }
  }

  /** Adding one decoded page to its pod's list keeps the grouping exact. */
  lemma {:induction false} GroupStep(init: seq<PageRead>, last: PageRead, g': Grouped<Metrics.DecodedPage>)
    requires AllDecode(init) && Decode(last).Success?
    requires GroupsArePages(g', init)
    ensures AllDecode(init + [last])
    ensures GroupsArePages(AddTo(g', last.podId, Decode(last).value), init + [last])
  {
    AllDecodeStep(init, last);
    AddToKeeps(g', last.podId, Decode(last).value);
    GroupStepDomain(init, last, g');
    GroupStepLists(init, last, g');
  }

  /** setdefault-append keeps every key listed once, with a non-empty list. */
  lemma {:induction false} AddToKeeps<T>(g: Grouped<T>, key: string, v: T)
    requires WellGrouped(g)
    ensures WellGrouped(AddTo(g, key, v))
  {
    var g' := AddTo(g, key, v);
    if key !in g.groups {
      forall i, j | 0 <= i < j < |g'.keys|
        ensures g'.keys[i] != g'.keys[j]
      {
        if j == |g'.keys| - 1 {
          assert g.keys[i] in g.groups;
        }
      }
    }
  }

  lemma {:induction false} GroupStepDomain(init: seq<PageRead>, last: PageRead, g': Grouped<Metrics.DecodedPage>)
    requires Decode(last).Success?
    requires forall p :: p in g'.groups <==> HasPod(init, p)
    ensures forall p :: p in AddTo(g', last.podId, Decode(last).value).groups <==> HasPod(init + [last], p)
  {
    forall p ensures p in AddTo(g', last.podId, Decode(last).value).groups <==> HasPod(init + [last], p)
    {
      HasPodStep(init, last, p);
    }
  }

  lemma {:induction false} GroupStepLists(init: seq<PageRead>, last: PageRead, g': Grouped<Metrics.DecodedPage>)
    requires AllDecode(init) && Decode(last).Success?
    requires GroupsArePages(g', init)
    ensures AllDecode(init + [last])
    ensures var g := AddTo(g', last.podId, Decode(last).value);
      forall p :: p in g.groups ==> g.groups[p] == PagesOf(init + [last], p)
  {
    AllDecodeStep(init, last);
    var g := AddTo(g', last.podId, Decode(last).value);
    forall p | p in g.groups ensures g.groups[p] == PagesOf(init + [last], p)
    {
      PagesOfStep(init, last, p);
      if p == last.podId && p !in g'.groups {
        assert !HasPod(init, p);
        PagesOfAbsent(init, p);
      }
    }
  }

  /** Grouping a run in two parts: the second part continues from the
      first part's groups. */
  lemma {:induction false} GroupAppend(g0: Grouped<Metrics.DecodedPage>, a: seq<PageRead>, b: seq<PageRead>)
    requires GroupFrom(g0, a).Some?
    ensures GroupFrom(g0, a + b) == GroupFrom(GroupFrom(g0, a).value, b)
  {
    if |b| == 0 {
      assert a + b == a;
    } else {
      var ab := a + b;
      assert ab[..|ab| - 1] == a + b[..|b| - 1];
      assert ab[|ab| - 1] == b[|b| - 1];
      GroupAppend(g0, a, b[..|b| - 1]);
    }
  }

  /** What _read_metrics returns for the results of one round of reads. */
  function ReadOf(exec: Result<seq<seq<byte>>, RdmaHelpers.ReaderError>, ci: seq<seq<Host.ControlInfo>>)
    : Result<Grouped<Metrics.DecodedPage>, LmapError>
  {
    match exec
    case Failure(e) => Failure(ReadFailed(e))
    case Success(results) =>
      var k := Min(|results|, |ci|);
      match GroupFrom(Empty(), PageReads(results[..k], ci))
      case None => Failure(BadPage)
      case Some(g) => if |results| > |ci| then Failure(MissingControlRegion) else Success(g)
  }

  /** A successful read lists each pod once, and exactly the pods read. */
  lemma {:induction false} ReadWellGrouped(exec: Result<seq<seq<byte>>, RdmaHelpers.ReaderError>, ci: seq<seq<Host.ControlInfo>>)
    ensures ReadOf(exec, ci).Success? ==> WellGrouped(ReadOf(exec, ci).value)
  {
    if exec.Success? {
      var k := Min(|exec.value|, |ci|);
      GroupMeaning(PageReads(exec.value[..k], ci));
    }
  }

  /** Once a page fails to decode, every longer run of pages fails too. */
  lemma {:induction false} GroupFails(g: Grouped<Metrics.DecodedPage>, a: seq<PageRead>, b: seq<PageRead>)
    requires GroupFrom(g, a).None?
    ensures GroupFrom(g, a + b).None?
  {
    if |b| > 0 {
      var ab := a + b;
      assert ab[..|ab| - 1] == a + b[..|b| - 1];
      GroupFails(g, a, b[..|b| - 1]);
    } else {
      assert a + b == a;
    }
  }

  /** The pages of the first i + 1 regions are those of the first i and
      then region i's. */
  lemma {:induction false} PageReadsStep(results: seq<seq<byte>>, ci: seq<seq<Host.ControlInfo>>, i: nat)
    requires i < |results| && i < |ci|
    ensures PageReads(results[..i + 1], ci) == PageReads(results[..i], ci) + RegionReads(results[i], ci[i])
  {
    assert results[..i + 1][..i] == results[..i];
  }

  /** A region whose pages fail to decode fails the whole read. */
  lemma {:induction false} ReadFailsFrom(results: seq<seq<byte>>, ci: seq<seq<Host.ControlInfo>>, i: nat)
    requires i <= |results| && i <= |ci|
    requires GroupFrom(Empty(), PageReads(results[..i], ci)).None?
    ensures ReadOf(Success(results), ci) == Failure(BadPage)
    decreases |results| - i
  {
    if i < |results| && i < |ci| {
      PageReadsStep(results, ci, i);
      GroupFails(Empty(), PageReads(results[..i], ci), RegionReads(results[i], ci[i]));
      ReadFailsFrom(results, ci, i + 1);
    }
  }

  // ---------------------------------------------------------------------
  // Values and metric families
  // ---------------------------------------------------------------------

  /** The values of consecutive pages laid end to end. */
  function ValuesOf(pages: seq<Metrics.DecodedPage>): seq<word64>
  {
    if |pages| == 0 then [] else ValuesOf(pages[..|pages| - 1]) + pages[|pages| - 1].values
  }

  /** The metrics the pages hold: for each, the smaller of its announced
      count and its capacity. */
  function Held(pages: seq<Metrics.DecodedPage>): nat
  {
    if |pages| == 0 then 0
    else Held(pages[..|pages| - 1]) + Min(pages[|pages| - 1].numEntries, pages[|pages| - 1].maxMetrics)
  }

  /** A pod's value vector is as long as its pages' metrics together. */
  lemma {:induction false} ValuesLength(rs: seq<PageRead>, pod: string)
    requires AllDecode(rs)
    ensures |ValuesOf(PagesOf(rs, pod))| == Held(PagesOf(rs, pod))
  {
    if |rs| > 0 {
      var n := |rs| - 1;
      var init := rs[..n];
      assert rs == init + [rs[n]];
      AllDecodeStep(init, rs[n]);
      PagesOfStep(init, rs[n], pod);
      ValuesLength(init, pod);
      var ps := PagesOf(rs, pod);
      if rs[n].podId != pod {
        assert ps == PagesOf(init, pod);
      } else {
        var page := Decode(rs[n]).value;
        assert ps == PagesOf(init, pod) + [page];
        assert ps[..|ps| - 1] == PagesOf(init, pod);
        assert Decode(rs[n]) == Metrics.FromBytes(rs[n].raw, rs[n].occupancy);
        assert |page.values| == Min(page.numEntries, page.maxMetrics);
        assert ValuesOf(ps) == ValuesOf(PagesOf(init, pod)) + page.values;
        assert Held(ps) == Held(PagesOf(init, pod)) + Min(page.numEntries, page.maxMetrics);
      }
    }
  }

  /** When every page of a pod is big enough for its announced count, the
      pod's pages hold as many metrics as its entries announce. */
  lemma {:induction false} HeldIsAnnounced(rs: seq<PageRead>, e: seq<Host.ControlInfo>, pod: string)
    requires AllDecode(rs) && |rs| == |e|
    requires forall i :: 0 <= i < |e| ==> rs[i].podId == e[i].podId && rs[i].occupancy == e[i].numMetrics
    requires forall i :: 0 <= i < |e| ==> rs[i].occupancy * 64 <= |rs[i].raw|
    ensures Held(PagesOf(rs, pod)) == PodMetrics(e, pod)
  {
    if |rs| > 0 {
      var n := |rs| - 1;
      var init := rs[..n];
      assert rs == init + [rs[n]];
      AllDecodeStep(init, rs[n]);
      assert forall i :: 0 <= i < n ==> init[i] == rs[i] && e[..n][i] == e[i];
      HeldIsAnnounced(init, e[..n], pod);
      HeldStep(init, rs[n], pod);
    }
  }

  /** One more page adds its announced count to its pod when it is big
      enough for it. */
  lemma {:induction false} HeldStep(init: seq<PageRead>, last: PageRead, pod: string)
    requires AllDecode(init) && Decode(last).Success?
    requires last.occupancy * 64 <= |last.raw|
    ensures AllDecode(init + [last])
    ensures Held(PagesOf(init + [last], pod)) == Held(PagesOf(init, pod)) + (if last.podId == pod then last.occupancy else 0)
  {
    PagesOfStep(init, last, pod);
    var ps := PagesOf(init + [last], pod);
    if last.podId != pod {
      assert ps == PagesOf(init, pod);
    } else {
      var page := Decode(last).value;
      assert ps[..|ps| - 1] == PagesOf(init, pod);
      assert Decode(last) == Metrics.FromBytes(last.raw, last.occupancy);
      assert page.numEntries <= page.maxMetrics;
    }
  }

  /** With the corrected table, every pod read has a classifier whose
      dimension is the length of the vector its pages are concatenated
      into. */
  lemma {:induction false} CorrectedDimension(rs: seq<PageRead>, e: seq<Host.ControlInfo>, model: Model, i: nat)
    requires AllDecode(rs) && |rs| == |e| && i < |e|
    requires forall k :: 0 <= k < |e| ==> rs[k].podId == e[k].podId && rs[k].occupancy == e[k].numMetrics
    requires forall k :: 0 <= k < |e| ==> rs[k].occupancy * 64 <= |rs[k].raw|
    ensures e[i].podId in InstallTotals(map[], e, model)
    ensures InstallTotals(map[], e, model)[e[i].podId].numMetrics == |ValuesOf(PagesOf(rs, e[i].podId))|
  {
    InstallTotalsAt(map[], e, model, i);
    HeldIsAnnounced(rs, e, e[i].podId);
    ValuesLength(rs, e[i].podId);
  }

  datatype Kind = Counter | Gauge

  /** A one-sample Prometheus family: its name is `prefix` followed by the
      metric's name, its labels are [pod_id, collector_id]. */
  datatype Family = Family(prefix: string, metricName: seq<byte>, kind: Kind, labels: seq<string>, value: word64)

  function FamilyOf(pod: string, id: string, name: seq<byte>, isGauge: bool, value: word64): (f: Family)
    ensures f.kind == Gauge <==> isGauge
    ensures f.prefix == id + "_" && f.labels == [pod, id]
  {
    Family(id + "_", name, if isGauge then Gauge else Counter, [pod, id], value)
  }

  /** The families of one page: one per record, names, types and values
      zipped. */
  function PageFamilies(p: Metrics.DecodedPage, pod: string, id: string): (fs: seq<Family>)
    ensures |fs| == Min(Min(|p.names|, |p.types|), |p.values|)
  {
    var n := Min(Min(|p.names|, |p.types|), |p.values|);
    seq(n, k requires 0 <= k < n => FamilyOf(pod, id, p.names[k], p.types[k], p.values[k]))
  }

  function PagesFamilies(pages: seq<Metrics.DecodedPage>, pod: string, id: string): seq<Family>
  {
    if |pages| == 0 then []
    else PagesFamilies(pages[..|pages| - 1], pod, id) + PageFamilies(pages[|pages| - 1], pod, id)
  }

  function GroupOf(g: Grouped<Metrics.DecodedPage>, pod: string): seq<Metrics.DecodedPage>
  {
    if pod in g.groups then g.groups[pod] else []
  }

  function PodsFamilies(g: Grouped<Metrics.DecodedPage>, pods: seq<string>, id: string): seq<Family>
  {
    if |pods| == 0 then []
    else PodsFamilies(g, pods[..|pods| - 1], id) + PagesFamilies(GroupOf(g, pods[|pods| - 1]), pods[|pods| - 1], id)
  }

  /** Every family collect emits is named after this collector and
      labelled with this collector and one of the pods read. */
  lemma {:induction false} FamiliesLabelled(g: Grouped<Metrics.DecodedPage>, pods: seq<string>, id: string)
    ensures forall f :: f in PodsFamilies(g, pods, id) ==>
      f.prefix == id + "_" && |f.labels| == 2 && f.labels[1] == id && f.labels[0] in pods
  {
    if |pods| > 0 {
      var init := pods[..|pods| - 1];
      var pod := pods[|pods| - 1];
      FamiliesLabelled(g, init, id);
      PagesLabelled(GroupOf(g, pod), pod, id);
      assert forall q :: q in init ==> q in pods;
    }
  }

  lemma {:induction false} PagesLabelled(pages: seq<Metrics.DecodedPage>, pod: string, id: string)
    ensures forall f :: f in PagesFamilies(pages, pod, id) ==> f.prefix == id + "_" && f.labels == [pod, id]
  {
    if |pages| > 0 {
      PagesLabelled(pages[..|pages| - 1], pod, id);
    }
  }

  /** One family per metric held: a page decoded from bytes yields as
      many families as it holds metrics. */
  lemma {:induction false} FamiliesPerMetric(pages: seq<Metrics.DecodedPage>, pod: string, id: string)
    requires forall i :: 0 <= i < |pages| ==>
      |pages[i].names| == |pages[i].types| == |pages[i].values| == Min(pages[i].numEntries, pages[i].maxMetrics)
    ensures |PagesFamilies(pages, pod, id)| == Held(pages)
  {
    if |pages| > 0 {
      FamiliesPerMetric(pages[..|pages| - 1], pod, id);
    }
  }

  // ---------------------------------------------------------------------
  // Statistics file
  // ---------------------------------------------------------------------

  /** A statistic: a count, or a float already rendered as Python's str
      renders it. */
  datatype StatValue = Count(n: int) | Real(text: string)

  function Render(v: StatValue): string
  {
    match v
    case Count(n) => IntToString(n)
    case Real(t) => t
  }

  function StatLine(key: string, v: StatValue): string
  {
    key + "," + Render(v)
  }

  /** The text dump_statistics writes: "key,value\n" per entry, in order. */
  function StatsText(stats: seq<(string, StatValue)>): string
  {
    if |stats| == 0 then "" else StatsText(stats[..|stats| - 1]) + StatLine(stats[|stats| - 1].0, stats[|stats| - 1].1) + "\n"
  }

  function StatLines(stats: seq<(string, StatValue)>): (ls: seq<string>)
    ensures |ls| == |stats|
  {
    seq(|stats|, i requires 0 <= i < |stats| => StatLine(stats[i].0, stats[i].1))
  }

  ghost predicate OneLineEach(stats: seq<(string, StatValue)>)
  {
    forall i :: 0 <= i < |stats| ==> '\n' !in stats[i].0 && '\n' !in Render(stats[i].1)
  }

  /** Splitting the file on newlines gives one "key,value" line per entry,
      in order, then the empty text after the final newline. */
  lemma {:induction false} StatsFileLines(stats: seq<(string, StatValue)>)
    requires OneLineEach(stats)
    ensures Split(StatsText(stats), '\n') == StatLines(stats) + [""]
  {
    StatsTextFront(stats);
    if |stats| > 0 {
      var rest := stats[1..];
      assert OneLineEach(rest) by { assert forall i :: 0 <= i < |rest| ==> rest[i] == stats[i + 1]; }
      StatsFileLines(rest);
      var line := StatLine(stats[0].0, stats[0].1);
      assert '\n' !in line;
      SplitAfterPiece(line, '\n', StatsText(rest));
      assert line + "\n" + StatsText(rest) == line + ['\n'] + StatsText(rest);
      assert StatLines(stats) == [line] + StatLines(rest);
    } else {
      assert Split("", '\n') == [""];
    }
  }

  lemma {:induction false} StatsTextFront(stats: seq<(string, StatValue)>)
    ensures |stats| > 0 ==> StatsText(stats) == StatLine(stats[0].0, stats[0].1) + "\n" + StatsText(stats[1..])
  {
    if |stats| > 1 {
      var init := stats[..|stats| - 1];
      StatsTextFront(init);
      assert init[1..] == stats[1..][..|stats[1..]| - 1];
      assert init[0] == stats[0];
    } else if |stats| == 1 {
      assert stats[1..] == [];
      assert stats[..0] == [];
    }
  }

  // ---------------------------------------------------------------------
  // The LMAP object
  // ---------------------------------------------------------------------

  class Lmap {
    const collectorId: string
    const controlInfo: seq<seq<Host.ControlInfo>>
    /** The reader; null once released. */
    var rdma: RdmaHelpers.OneSidedReader?
    var running: bool
    var classifiers: map<string, Classifier>
    /** The statistics dict, in insertion order; keys are distinct. */
    var statistics: seq<(string, StatValue)>

    constructor (collectorId: string, controlInfo: seq<seq<Host.ControlInfo>>, rdma: RdmaHelpers.OneSidedReader?)
      ensures this.collectorId == collectorId && this.controlInfo == controlInfo && this.rdma == rdma
      ensures !running && classifiers == map[] && statistics == []
    {
      this.collectorId := collectorId;
      this.controlInfo := controlInfo;
      this.rdma := rdma;
      running := false;
      classifiers := map[];
      statistics := [];
    }

    /** Build one classifier per page entry, in region-then-page order.
        A model LMAP cannot build raises at the first entry. */
    method SetClassifier(model: Model) returns (r: Option<LmapError>)
      modifies this`classifiers
      ensures model.Unlisted? && |Flatten(controlInfo)| > 0 ==>
        r == Some(UnknownModel) && classifiers == old(classifiers)
      ensures !(model.Unlisted? && |Flatten(controlInfo)| > 0) ==>
        r.None? && classifiers == Install(old(classifiers), Flatten(controlInfo), model)
    {
      ghost var t := classifiers;
      var i := 0;
      while i < |controlInfo|
        invariant i <= |controlInfo|
        invariant classifiers == Install(t, Flatten(controlInfo[..i]), model)
        invariant model.Unlisted? ==> |Flatten(controlInfo[..i])| == 0
      {
        var failed := InstallRegion(controlInfo[i], model);
        if failed {
          FlattenGrows(controlInfo, i);
          return Some(UnknownModel);
        }
        InstallAppend(t, Flatten(controlInfo[..i]), controlInfo[i], model);
        assert controlInfo[..i + 1][..i] == controlInfo[..i];
        i := i + 1;
      }
      assert controlInfo[..i] == controlInfo;
      r := None;
    }

    /** The classifiers of one region's pages, in page order; a model LMAP
        cannot build fails at the first page, before anything changes. */
    method InstallRegion(region: seq<Host.ControlInfo>, model: Model) returns (failed: bool)
      modifies this`classifiers
      ensures failed <==> model.Unlisted? && |region| > 0
      ensures failed ==> classifiers == old(classifiers)
      ensures !failed ==> classifiers == Install(old(classifiers), region, model)
    {
      ghost var t := classifiers;
      var j := 0;
      while j < |region|
        invariant j <= |region|
        invariant classifiers == Install(t, region[..j], model)
        invariant model.Unlisted? ==> j == 0
      {
        if model.Unlisted? {
          return true;
        }
        assert region[..j + 1][..j] == region[..j];
        classifiers := classifiers[region[j].podId := Classifier(model, region[j].numMetrics)];
        j := j + 1;
      }
      assert region[..j] == region;
      return false;
    }

    /** One round of reads: decode every page of every region read and
        group the pages by pod. `completions` is how each region's read
        ended. */
    method ReadMetrics(completions: seq<RdmaHelpers.Completion>) returns (r: Result<Grouped<Metrics.DecodedPage>, LmapError>)
      requires rdma != null ==> |completions| == rdma.nMr
      ensures rdma == null ==> r == Failure(NoReader)
      ensures rdma != null ==> r == ReadOf(RdmaHelpers.ExecuteResult(completions), controlInfo)
    {
      if rdma == null {
        return Failure(NoReader);
      }
      var exec := rdma.Execute(completions);
      if exec.Failure? {
        return Failure(ReadFailed(exec.error));
      }
      var results := exec.value;
      var metrics: Grouped<Metrics.DecodedPage> := Empty();
      var i := 0;
      while i < |results|
        invariant i <= |results| && i <= |controlInfo|
        invariant GroupFrom(Empty(), PageReads(results[..i], controlInfo)) == Some(metrics)
      {
        if i >= |controlInfo| {
          return Failure(MissingControlRegion);
        }
        PageReadsStep(results, controlInfo, i);
        GroupAppend(Empty(), PageReads(results[..i], controlInfo), RegionReads(results[i], controlInfo[i]));
        var next := GroupRegion(metrics, results[i], controlInfo[i]);
        if next.None? {
          ReadFailsFrom(results, controlInfo, i + 1);
          return Failure(BadPage);
        }
        metrics := next.value;
        i := i + 1;
      }
      assert results[..i] == results;
      r := Success(metrics);
    }

    /** The same round, keeping only each pod's values, concatenated over
        its pages in order (the values-only reader of the scrape loop). */
    method ReadMetricValues(completions: seq<RdmaHelpers.Completion>) returns (r: Result<map<string, seq<word64>>, LmapError>)
      requires rdma != null ==> |completions| == rdma.nMr
      ensures rdma == null ==> r == Failure(NoReader)
      ensures rdma != null ==> match ReadOf(RdmaHelpers.ExecuteResult(completions), controlInfo)
        case Failure(e) => r == Failure(e)
        case Success(g) =>
          r.Success? && r.value.Keys == g.groups.Keys &&
          forall p :: p in g.groups ==> r.value[p] == ValuesOf(g.groups[p])
    {
      var pages := ReadMetrics(completions);
      if pages.Failure? {
        return Failure(pages.error);
      }
      var g := pages.value;
      ReadWellGrouped(RdmaHelpers.ExecuteResult(completions), controlInfo);
      var values := ConcatValues(g);
      r := Success(values);
    }

    /** The Prometheus families of one scrape, pod by pod in first-read
        order, page by page, metric by metric; nothing when the read
        fails. */
    method Collect(completions: seq<RdmaHelpers.Completion>) returns (families: seq<Family>)
      requires rdma != null ==> |completions| == rdma.nMr
      ensures rdma == null ==> families == []
      ensures rdma != null ==>
        families == match ReadOf(RdmaHelpers.ExecuteResult(completions), controlInfo)
          case Failure(_) => []
          case Success(g) => PodsFamilies(g, g.keys, collectorId)
    {
      families := [];
      var read := ReadMetrics(completions);
      if read.Failure? {
        return;
      }
      var g := read.value;
      var a := 0;
      while a < |g.keys|
        invariant a <= |g.keys|
        invariant families == PodsFamilies(g, g.keys[..a], collectorId)
      {
        var pod := g.keys[a];
        var fs := EmitPages(GroupOf(g, pod), pod, collectorId);
        families := families + fs;
        assert g.keys[..a + 1][..a] == g.keys[..a];
        a := a + 1;
      }
      assert g.keys[..a] == g.keys;
    }

    /** Write the statistics, one "key,value" line each, when a file name
        is given; the result is the file written. */
    method DumpStatistics(filename: Option<string>) returns (file: Option<(string, string)>)
      ensures filename.None? || filename.value == "" ==> file.None?
      ensures filename.Some? && filename.value != "" ==> file == Some((filename.value, StatsText(statistics)))
    {
      if filename.None? || filename.value == "" {
        return None;
      }
      var text := "";
      var i := 0;
      while i < |statistics|
        invariant i <= |statistics|
        invariant text == StatsText(statistics[..i])
      {
        assert statistics[..i + 1][..i] == statistics[..i];
        text := text + StatLine(statistics[i].0, statistics[i].1) + "\n";
        i := i + 1;
      }
      assert statistics[..i] == statistics;
      file := Some((filename.value, text));
    }

    /** Stop, dump the statistics to "stats_<id>.csv" and release the
        reader if there is one; a second cleanup releases nothing. */
    method Cleanup(closeOk: seq<bool>) returns (released: bool, file: (string, string))
      requires rdma != null && rdma.mrm != null ==> rdma.mrm.Valid() && |closeOk| == |rdma.mrm.order|
      modifies this`running, this`rdma, (if rdma != null then {rdma, rdma.mrm} else {})
      ensures !running && rdma == null
      ensures released <==> old(rdma) != null
      ensures file == ("stats_" + collectorId + ".csv", StatsText(statistics))
    {
      running := false;
      var f := DumpStatistics(Some("stats_" + collectorId + ".csv"));
      file := f.value;
      released := false;
      if !running && rdma != null {
        rdma.Cleanup(closeOk);
        released := true;
      }
      rdma := null;
    }
  }

  /** Flatten of the first i regions is empty while region i is not. */
  lemma {:induction false} FlattenGrows(ci: seq<seq<Host.ControlInfo>>, i: nat)
    requires i < |ci| && |Flatten(ci[..i])| == 0 && |ci[i]| > 0
    ensures |Flatten(ci)| > 0
  {
    FlattenLength(ci[..i + 1], ci);
    assert ci[..i + 1][..i] == ci[..i];
  }

  /** Flatten never shrinks as regions are added. */
  lemma {:induction false} FlattenLength(a: seq<seq<Host.ControlInfo>>, b: seq<seq<Host.ControlInfo>>)
    requires |a| <= |b| && a == b[..|a|]
    ensures |Flatten(a)| <= |Flatten(b)|
    decreases |b|
  {
    if |a| < |b| {
      var init := b[..|b| - 1];
      assert init[..|a|] == a;
      FlattenLength(a, init);
    } else {
      assert a == b;
    }
  }

  /** The pages of one region added to `metrics` in page order; None at
      the first page that is not a whole number of records. */
  method GroupRegion(metrics: Grouped<Metrics.DecodedPage>, data: seq<byte>, region: seq<Host.ControlInfo>)
    returns (r: Option<Grouped<Metrics.DecodedPage>>)
    ensures r == GroupFrom(metrics, RegionReads(data, region))
  {
    var g := metrics;
    var j := 0;
    while j < |region|
      invariant j <= |region|
      invariant GroupFrom(metrics, FirstPages(data, region, j)) == Some(g)
    {
      var mp := ReadPage(data, region, j);
      GroupPageStep(metrics, data, region, j, g, mp);
      if mp.Failure? {
        FirstPagesFail(metrics, data, region, j + 1, |region|);
        return None;
      }
      g := AddTo(g, region[j].podId, mp.value);
      j := j + 1;
    }
    r := Some(g);
  }

  /** Page j of a region: its bytes cut from the region's data and
      decoded with its announced count. */
  method ReadPage(data: seq<byte>, region: seq<Host.ControlInfo>, j: nat) returns (mp: Result<Metrics.DecodedPage, Metrics.PageError>)
    requires j < |region|
    ensures mp == Decode(PageAt(data, region, j))
  {
    var ci := region[j];
    var raw := Cut(data, Offset(j, ci.pageSizeBytes), Offset(j, ci.pageSizeBytes) + ci.pageSizeBytes);
    mp := Metrics.FromBytes(raw, ci.numMetrics);
  }

  /** Page j decoded and added to the pages before it. */
  lemma {:induction false} GroupPageStep(metrics: Grouped<Metrics.DecodedPage>, data: seq<byte>, region: seq<Host.ControlInfo>,
                                         j: nat, g: Grouped<Metrics.DecodedPage>, mp: Result<Metrics.DecodedPage, Metrics.PageError>)
    requires j < |region| && GroupFrom(metrics, FirstPages(data, region, j)) == Some(g)
    requires mp == Decode(PageAt(data, region, j))
    ensures mp.Failure? ==> GroupFrom(metrics, FirstPages(data, region, j + 1)).None?
    ensures mp.Success? ==> GroupFrom(metrics, FirstPages(data, region, j + 1)) == Some(AddTo(g, region[j].podId, mp.value))
  {
    assert FirstPages(data, region, j + 1)[..j] == FirstPages(data, region, j);
  }

  /** Once a page of a region fails to decode, the region fails. */
  lemma {:induction false} FirstPagesFail(g: Grouped<Metrics.DecodedPage>, data: seq<byte>, region: seq<Host.ControlInfo>, n: nat, m: nat)
    requires n <= m <= |region| && GroupFrom(g, FirstPages(data, region, n)).None?
    ensures GroupFrom(g, FirstPages(data, region, m)).None?
    decreases m
  {
    if n < m {
      FirstPagesFail(g, data, region, n, m - 1);
      assert FirstPages(data, region, m)[..m - 1] == FirstPages(data, region, m - 1);
    }
  }

  /** The families of one page, metric by metric. */
  method EmitPage(p: Metrics.DecodedPage, pod: string, id: string) returns (fs: seq<Family>)
    ensures fs == PageFamilies(p, pod, id)
  {
    fs := [];
    var n := Min(Min(|p.names|, |p.types|), |p.values|);
    var c := 0;
    while c < n
      invariant c <= n
      invariant fs == PageFamilies(p, pod, id)[..c]
    {
      fs := fs + [FamilyOf(pod, id, p.names[c], p.types[c], p.values[c])];
      assert PageFamilies(p, pod, id)[..c + 1] == PageFamilies(p, pod, id)[..c] + [PageFamilies(p, pod, id)[c]];
      c := c + 1;
    }
    assert PageFamilies(p, pod, id)[..c] == PageFamilies(p, pod, id);
  }

  /** The families of a pod's pages, page by page. */
  method EmitPages(pages: seq<Metrics.DecodedPage>, pod: string, id: string) returns (fs: seq<Family>)
    ensures fs == PagesFamilies(pages, pod, id)
  {
    fs := [];
    var b := 0;
    while b < |pages|
      invariant b <= |pages|
      invariant fs == PagesFamilies(pages[..b], pod, id)
    {
      var more := EmitPage(pages[b], pod, id);
      fs := fs + more;
      assert pages[..b + 1][..b] == pages[..b];
      b := b + 1;
    }
    assert pages[..b] == pages;
  }

  /** Each pod's values: its only page's, or all its pages' laid end to
      end. */
  method ConcatValues(g: Grouped<Metrics.DecodedPage>) returns (values: map<string, seq<word64>>)
    requires WellGrouped(g)
    ensures values.Keys == g.groups.Keys
    ensures forall p :: p in g.groups ==> values[p] == ValuesOf(g.groups[p])
  {
    values := map[];
    var k := 0;
    while k < |g.keys|
      invariant k <= |g.keys|
      invariant forall p :: p in values <==> p in g.keys[..k]
      invariant forall p :: p in values ==> p in g.groups && values[p] == ValuesOf(g.groups[p])
    {
      var pod := g.keys[k];
      var ps := g.groups[pod];
      if |ps| > 1 {
        values := values[pod := ValuesOf(ps)];
      } else {
        assert ps[..0] == [];
        values := values[pod := ps[0].values];
      }
      assert g.keys[..k + 1] == g.keys[..k] + [pod];
      k := k + 1;
    }
    assert g.keys[..k] == g.keys;
  }
}
