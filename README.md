# uview metrics offload: a Dafny model

uview moves the collection of microservice metrics off the host CPU. It has four parts:

- **Host agent.** It keeps every pod's metrics in one shared-memory segment. The segment is cut into pages of 64-byte records, and the pages are grouped into RDMA memory regions (MRs).
- **Client library.** A microservice links it to ask the host for a metric slot and then writes the value in place.
- **NIC-side collector.** It reads the regions with one-sided RDMA reads. It shares them out among LMAPs (local metrics processing pipelines). Each LMAP cuts its regions back into pages, groups them by pod and exports them to Prometheus.
- **Experiment tooling.** Around the prototype sit load generators (a DeathStarBench hotel workload generator and a web-users generator over a sock-shop registry), a Chaos Mesh stress injector, and data-collection, post-processing and plotting helpers.

The project models the logic of these parts: layout, bookkeeping tables, parsing and formatting. It proves what that logic promises.

| module (file) | models |
|---|---|
| `Common` (common.dfy) | Option/Result for exceptions and error returns; bytes; split/join on a separator; decimal text of integers; Go integer division |
| `Defaults` (defaults.dfy) | defaults.py: `get_env` and the memory-layout defaults |
| `Metrics` (metrics.dfy) | metrics.py: the 64-byte record layout and `MetricsPage` (add, full test, decoding from raw bytes, value addresses) |
| `Host` (host.dfy) | microview-host.py: `MetricsMemoryManager`, the `/metrics` layout and the `/rdma/qps/connect` status |
| `RdmaHelpers` (rdma_helpers.dfy) | rdma/helpers.py: `MemoryRegionPool`, `QueuePairPool` and `OneSidedReader` bookkeeping |
| `RdmaHost` (rdma_host.dfy) | rdma/rdma_microview_host.py: the older `QueuePairPool`, which never sets `in_use` |
| `CmCollector` (cm_collector.dfy) | rdma/cm_collector.py: remote access, region registration and the read of all regions |
| `Nic` (nic.dfy) | microview-nic.py: URL split, model lookup, the connection with the host (queue-pair pairing and the remote MR list) and the sharing of active MRs among LMAPs |
| `Lmap` (lmap.dfy) | LMAP.py: classifiers per pod, page reading and grouping, value concatenation, Prometheus families, statistics file, cleanup |
| `LibMicroView` (libmicroview.dfy) | libmicroview.py: the metric cache, the shared segment, metric get/update and close |
| `Channels` (channels.dfy) | the Stat channel and shutdown order shared by both Go load generators |
| `WorkloadGen` (workloadgen.dfy) | workloadgen/request_loop.go and workload.go: the request plans, the pool counter, `PrintStats`, `RunRequest` and `Run` |
| `Registry` (registry.dfy) | workload/registry.go: the generator registry and `prepareArg` |
| `Sockshop` (sockshop.dfy) | workload/sockshop.go: `generateObjectID` and the argument generators, with their random draws as inputs |
| `WebUsers` (webusers.dfy) | web_users/main.go: `NewUserState`, the per-step Stat rules of `Engine.Run`, `PrintStats` and `main` |
| `Chaos` (chaos.dfy) | anomaly-injector/chaos_mesh_client.py: the active-experiments table of `ChaosMeshStressInjector` |
| `DataCollection` (datacollection.dfy) | datacollection/utils.py: `parse_timeframe`, the per-trace summary and the series numbering |
| `PostProcessing` (postprocessing.dfy) | postprocessing/utils.py: `periodic_anomaly`, `col_name_to_metric` and the two labelling rules |
| `Preprocess` (preprocess.dfy) | plot/preprocess.py: `sanity_check`, directory names, wrk rows and `stats_LMAP_*.csv` parsing |
| `PlotParams` (plotparams.dfy) | coverage-vs-cost-mixed-failures.py: `extract_param_from_file_name` and the legend |
| `StepLoad` (stepload.dfy) | horizontal-autoscaling/load-generator/step.py: `StepLoadShape.tick` |

Some things enter the model as parameters: the outcomes of pyverbs and RDMA-CM calls, kubectl and HTTP replies, random draws, clocks, and the results of foreign parsers such as dates, JSON and Go durations. Objects whose fields the source updates are classes, and their methods are proved against specification functions. Pure code is functions and lemmas.

## Model

| member | source | states |
|---|---|---|
| Common.Split | plot/preprocess.py:104 | str.split and strings.Split on one character: at least one piece, none holding the separator |
| Common.SplitJoin | usecases/blueprint/examples/dsb_hotel/workload/workloadgen/request_loop.go:292 | splitting what was joined gives the pieces back when none holds the separator |
| Common.JoinSplit | plot/preprocess.py:104 | joining the pieces of a split rebuilds the text |
| Common.NatRoundTrip | microview-host.py:103 | rendering then parsing a natural number gives it back |
| Common.IntRoundTrip | usecases/blueprint/examples/dsb_hotel/workload/workloadgen/request_loop.go:283 | rendering with %d then parsing an integer gives it back |
| Common.GoDiv | usecases/blueprint/examples/dsb_hotel/workload/workloadgen/request_loop.go:200 | Go's integer division truncates toward zero and agrees with floor division on non-negative operands |
| Common.BoolRoundTrip | usecases/blueprint/examples/dsb_hotel/workload/workloadgen/request_loop.go:283 | %t then strconv.ParseBool gives the boolean back |
| Common.AsciiBytes | metrics.py:8-9 | a name has bytes iff every character is ASCII, and then one byte per character with its code |
| Defaults.GetEnv | defaults.py:12-22 | an unset variable or text the converter rejects yields the default; otherwise the converted value |
| Defaults.MemoryLayout | defaults.py:26-28 | the MR size defaults to one page and the pool to ten MRs, computed from whatever the earlier settings became |
| Defaults.DefaultLayout | defaults.py:26-28 | with no overrides the layout is 4096-byte pages, 4096-byte MRs and a 40960-byte pool: ten MRs, ten pages |
| Defaults.MalformedOverrideIgnored | defaults.py:16-22 | a page-size override that is not an integer leaves the page size at 4096 |
| Defaults.HostnamePrefix | defaults.py:30 | the NIC host-name prefix is the variable's text when set, "mcbf" otherwise |
| Metrics.Zeros | metrics.py:9 | n NUL bytes, the padding of the name field |
| Metrics.NameField | metrics.py:9 | the 'S55' name field is always 55 bytes long |
| Metrics.StripTrailingNuls | metrics.py:125 | decoding an 'S' field keeps a prefix that does not end in NUL and drops only NUL bytes |
| Metrics.LittleEndianRoundTrip | metrics.py:11 | reading back the k little-endian bytes of a number below 256^k gives the number |
| Metrics.WordRoundTrip | metrics.py:11 | the 8 bytes of the float64 value field read back as the same 64-bit pattern |
| Metrics.EncodeRecord | metrics.py:8-12 | a record of the aligned dtype is 64 bytes |
| Metrics.RecordFields | metrics.py:8-15 | the name occupies bytes 0..55, the type byte 55 (0 counter, 1 gauge) and the value bytes 56..64 |
| Metrics.DecodeEncode | metrics.py:119-126 | decoding a stored record gives the metric back with its name cut to 55 bytes and stripped of trailing NULs |
| Metrics.NormalizeKeepsShortNames | metrics.py:9 | a name of at most 55 bytes not ending in NUL survives storage unchanged |
| Metrics.StripZerosDown | metrics.py:125 | stripping a field whose bytes from k on are NUL and whose byte k-1 is not yields its first k bytes |
| Metrics.EncodeAll | metrics.py:30-35 | n consecutive records take n * 64 bytes |
| Metrics.Records | metrics.py:119 | a buffer of whole records splits into one record per 64 bytes |
| Metrics.PageOf | metrics.py:120-126 | the decoded page has capacity = record count, the announced entry count, and names, types and values of the first min(count, capacity) records |
| Metrics.FromBytes | metrics.py:103-128 | a buffer that is not a whole number of records is refused; otherwise capacity * 64 is the buffer size and the field lists hold min(entries, capacity) items |
| Metrics.RecordsOfEncoded | metrics.py:119 | the records of written metrics followed by whole records start with the written metrics, normalised |
| Metrics.EncodedAt | metrics.py:30-35 | record i of consecutive records sits at bytes 64i..64i+64 |
| Metrics.PageRoundTrip | metrics.py:103-128 | a page written then read back with its entry count decodes, has as many names as metrics, and is full iff no spare records follow |
| Metrics.PageRoundTripEntries | metrics.py:119-126 | entry i of the page read back is metric i: normalised name, type and value |
| Metrics.FromBytesOf | metrics.py:119-126 | decoding whole records is the page of their records |
| Metrics.PageOfPrefix | metrics.py:124-126 | a page whose records start with the normalised metrics lists exactly those metrics' fields |
| Metrics.Overwrite | metrics.py:74 | storing a record replaces exactly its 64 bytes and leaves every other byte of the segment alone |
| Metrics.ValueFieldRelativeAddrAsWritten | metrics.py:40-63 | the address as written is just the in-page offset index * 64 + 56, since page_offset stays 0 |
| Metrics.AsWrittenAddressOutsidePage | metrics.py:40-63 | for any page after the first, that address falls below the page's own start |
| Metrics.Admit | metrics.py:66-74 | a full page is refused first, then a name that does not encode as ASCII; otherwise the name's bytes |
| Metrics.PutRecord | metrics.py:74 | the segment afterwards is the old segment with the record's 64 bytes overwritten |
| Metrics.MetricsPage.constructor | metrics.py:27-47 | a view of `size` records at `offset` that fits in the segment, with no entries |
| Metrics.MetricsPage.ValueFieldRelativeAddr | metrics.py:50-63 | corrected (Finding 1): the value address of record i is the page offset plus i * 64 + 56 and lies inside the page for every slot |
| Metrics.MetricsPage.AddMetric | metrics.py:66-79 | corrected (Finding 1): a full page or non-ASCII name fails and changes nothing; otherwise the record is written in the next slot, the count grows by one and the value address of that slot is returned |
| Metrics.ValueAddrHoldsValue | metrics.py:50-79 | corrected (Finding 1): the 8 bytes at the address handed out for record i hold that metric's value, so writes through it reach the right field |
| Metrics.ValueInEncoding | metrics.py:61-63 | in an encoding placed at `off`, bytes 56..64 of record i hold metric i's value |
| Metrics.SlotInBytes | metrics.py:61 | record i of an encoding at `off` occupies the 64 bytes at off + 64i |
| Host.PageInPool | microview-host.py:59-118 | page k of the pool's poolSize / pageSize pages ends inside the pool |
| Host.MrIndexInRange | microview-host.py:73-129 | when MRs tile the pool, every page's MR index page_offset // mr_size names one of the num_mr MRs |
| Host.PagesApart | microview-host.py:113-118 | pages at different offsets occupy disjoint byte ranges |
| Host.PodPagesHas | microview-host.py:121 | a page created for a pod is in that pod's list |
| Host.PodPagesOwned | microview-host.py:121 | every page in a pod's list was created for that pod |
| Host.PodPagesIncreasing | microview-host.py:121 | a pod's pages are listed in creation order, each once |
| Host.PodPagesEmpty | microview-host.py:121-146 | a pod that never got a page has no list entries |
| Host.MrPagesOwned | microview-host.py:127-129 | every page listed under an MR lies inside it |
| Host.MrPagesHas | microview-host.py:127-129 | every created page is listed under the MR holding it |
| Host.MrPagesIncreasing | microview-host.py:129 | an MR's pages are listed in creation order, each once |
| Host.OwnerMapStep | microview-host.py:120 | creating page n for a pod adds exactly n -> pod to page2pod |
| Host.PodListsStep | microview-host.py:121 | creating page n appends n to the pod's list (setdefault then append) and changes no other pod |
| Host.MrListsStep | microview-host.py:127-129 | creating page n appends it to the list of its own MR only |
| Host.TablesStep | microview-host.py:108-136 | handing out the next page keeps page2pod, pod2pages and mr_pages in agreement with the pages' owners |
| Host.MrSlot | microview-host.py:127 | the MR index of a page of the pool, page_offset // mr_size, is below num_mr |
| Host.LastOpenAppend | microview-host.py:157-168 | a new empty page for a pod whose pages are all full keeps "only each pod's last page has room" |
| Host.LastOpenFill | microview-host.py:157-170 | one more metric in an open page keeps "only each pod's last page has room" |
| Host.NoOpenPage | microview-host.py:140-155 | an unknown pod, or one whose listed pages are all full, has no page with room |
| Host.OtherPageKept | microview-host.py:113-170 | writing a record into page k leaves the used part of every other page as it was |
| Host.OwnPageGrows | metrics.py:72-77 | writing a metric into the next free slot of page k makes the page hold its old metrics plus the new one |
| Host.SlotsStep | microview-host.py:170 | one record written into a page's next free slot keeps every page's records readable as its metrics |
| Host.SlotsGrow | microview-host.py:113-118 | a new page after the others starts with no records |
| Host.ValueInSlot | microview-host.py:170-173 | corrected (Finding 1): the 8 bytes at the value address of record x of page k hold that metric's value |
| Host.WriteStep | microview-host.py:170 | corrected (Finding 1): after add_metric on page k every page still holds its metrics, page k holds the new one last, and its value field holds its value |
| Host.MrNames | microview-host.py:100-104 | the names registered for n MRs are "RDMA-MR-0" .. "RDMA-MR-(n-1)" in order |
| Host.MrNamesDistinct | microview-host.py:102 | distinct MR indices give distinct names |
| Host.MrsRegisteredStep | microview-host.py:100-104 | registering MR n after the first n appends its new name to the registration order with its address and size |
| Host.MrNameFree | microview-host.py:100-104 | the next MR's name is not registered yet, so registration never overwrites |
| Host.FiledStep | microview-host.py:266-275 | the pages of one more MR are in page2pod |
| Host.LayoutOfTables | microview-host.py:259-282 | with the tables in agreement the layout succeeds and lists, under each MR, the pages inside it in creation order with their pod and entry count |
| Host.LayoutOfFiled | microview-host.py:266-281 | a layout built MR by MR from filed pages is the route's result |
| Host.LayoutOfUnfiled | microview-host.py:272 | a listed page missing from page2pod makes the layout raise KeyError |
| Host.LayoutAfterCleanup | microview-host.py:206-272 | after cleanup empties page2pod, the layout of an MR list that still names a page raises KeyError |
| Host.MetricsMemoryManager.constructor | microview-host.py:48-85 | metrics_per_page = page_size // 64, max_pages = pool // page_size, num_mr = pool // mr_size, no pages, empty tables and num_mr empty MR lists |
| Host.MetricsMemoryManager.CreateNewPage | microview-host.py:108-136 | fails with no pages left, changing nothing, once every page is taken; otherwise page n = allocated_pages is filed in page2pod, at the end of the pod's list and of its MR's list, and the count grows |
| Host.MetricsMemoryManager.RecordPage | microview-host.py:120-133 | the bookkeeping of a new page: the three tables and the page count updated for page n |
| Host.MetricsMemoryManager.GetPageForPod | microview-host.py:140-155 | None exactly when the pod has no page with room; otherwise its first such page in creation order |
| Host.MetricsMemoryManager.WriteMetric | metrics.py:66-79 | corrected (Finding 1): a full page or non-ASCII name is refused and nothing changes; otherwise the record goes into the next free slot, the count grows by one and the returned address holds the value |
| Host.MetricsMemoryManager.StoreMetric | metrics.py:72-79 | corrected (Finding 1): the record is appended to page k and its value field holds the value |
| Host.MetricsMemoryManager.OpenPage | microview-host.py:165-167 | the pod's open page when it has one, else a new page for it, else no pages left with nothing changed |
| Host.MetricsMemoryManager.AllocateMetric | microview-host.py:157-179 | corrected (Finding 1): succeeds iff a page is available and the name is ASCII; without room nothing changes; the returned address holds the value; only each pod's last page stays open |
| Host.MetricsMemoryManager.AddRdmaMemoryRegions | microview-host.py:88-104 | a new MR pool replaces the old one; an MR size not a multiple of the page size is refused with the pool empty; otherwise MR i is registered as "RDMA-MR-i" at base + i * mr_size |
| Host.MetricsMemoryManager.Cleanup | microview-host.py:193-211 | the MRs are closed, page2pod and pod2pages emptied and the page count reset; MR lists and entry counts are kept |
| Host.MetricsMemoryManager.MemoryLayout | microview-host.py:259-282 | the loop builds exactly the layout function's result |
| Host.StatusCode | microview-host.py:359-375 | the reply is 200 exactly for a summary |
| Host.ConnectAll | microview-host.py:344-364 | the loop keeps one queue pair per pool slot and produces one outcome per entry the pool has a queue pair for |
| Host.ConnectAllMeaning | microview-host.py:344-364 | entry i's outcome depends only on queue pair i as it was; connected queue pairs become in use with their peer and the others are unchanged |
| Host.CountConnected | microview-host.py:367 | the count is the number of connected outcomes: all of them iff every outcome connected, zero iff none did |
| Host.ConnectAllQueuePairs | microview-host.py:334-384 | 503 without a pool; otherwise the pool's queue pairs and the reply are those of the connect loop and its summary |
| Host.OutcomesOf | microview-host.py:344-367 | there is one outcome per requested entry the pool has; all connect iff every such queue pair is free and connects, none iff every one fails |
| Host.ConnectSucceeds | microview-host.py:368-374 | the status is "success" exactly when the request is non-empty and every requested entry had a free queue pair that connected |
| Host.ConnectFails | microview-host.py:375-380 | the reply is "failed" (500) exactly when no entry connected, including an empty request |
| RdmaHelpers.MemoryRegionPool.constructor | rdma/helpers.py:45-56 | a pool with the given default buffer size and no regions |
| RdmaHelpers.MemoryRegionPool.RegisterMemoryRegion | rdma/helpers.py:58-90 | the region is stored under its name (replacing an old one in place) with its address, keys and size, and its info is returned |
| RdmaHelpers.MemoryRegionPool.CreateMemoryRegion | rdma/helpers.py:92-122 | the size defaults to the pool's buffer size; a buffer too small for the "RDMA-MR-<name>" tag fails and registers nothing; otherwise the region is registered owning its buffer |
| RdmaHelpers.MemoryRegionPool.GetMemoryRegion | rdma/helpers.py:140-146 | the keys of the named region, None exactly when no region has that name |
| RdmaHelpers.MemoryRegionPool.GetMemoryRegionInfo | rdma/helpers.py:149-161 | name, address, keys and size of the named region, None exactly when it is unknown |
| RdmaHelpers.MemoryRegionPool.ListMemoryRegions | rdma/helpers.py:163-165 | the info of every region, in registration order |
| RdmaHelpers.MemoryRegionPool.Cleanup | rdma/helpers.py:168-176 | a region is forgotten exactly when its close succeeded; survivors keep their entries and order |
| RdmaHelpers.DropAt | rdma/helpers.py:172-174 | deleting the next visited name from a duplicate-free order leaves the other names, still duplicate-free |
| RdmaHelpers.ForgetKeepsInvariant | rdma/helpers.py:174 | forgetting one region keeps names and order in agreement |
| RdmaHelpers.CleanupStep | rdma/helpers.py:170-176 | one step of cleanup forgets the region if its close succeeded and keeps it otherwise |
| RdmaHelpers.SweptAll | rdma/helpers.py:170-176 | after the sweep the remaining order is the survivors and every remaining entry is an original one |
| RdmaHelpers.Survivors | rdma/helpers.py:170-176 | the names whose close failed, never more than the names |
| RdmaHelpers.SurvivorsExactly | rdma/helpers.py:170-176 | a region survives cleanup exactly when its close failed |
| RdmaHelpers.SurvivorsFrom | rdma/helpers.py:170-176 | every survivor was registered before |
| RdmaHelpers.FreshPool | rdma/helpers.py:240-293 | a new pool holds one idle, unconnected queue pair per number |
| RdmaHelpers.Connect | rdma/helpers.py:348-411 | out of range raises; a queue pair in use or a failed transition to ready-to-send gives false and changes nothing; otherwise it becomes in use with the peer recorded |
| RdmaHelpers.ConnectOnlyOnce | rdma/helpers.py:372-374 | after a successful connect any later connect of the same queue pair is refused and the first peer stays recorded |
| RdmaHelpers.QueuePairPool.constructor | rdma/helpers.py:183-214 | pool_size queue pairs, all idle and unconnected |
| RdmaHelpers.QueuePairPool.GetQpObject | rdma/helpers.py:295-310 | the queue pair at an index in range; ValueError otherwise |
| RdmaHelpers.QueuePairPool.GetQpLocalInfo | rdma/helpers.py:312-346 | number, GID and in-use flag of the queue pair at an index in range; ValueError otherwise |
| RdmaHelpers.QueuePairPool.ConnectQueuePair | rdma/helpers.py:348-411 | the pool and the result are exactly Connect's |
| RdmaHelpers.QueuePairPool.ListQueuePairs | rdma/helpers.py:413-415 | entry i is the local info of queue pair i, for every queue pair |
| RdmaHelpers.ExecuteResult | rdma/helpers.py:510-617 | execute fails exactly when some poll reports a failed status; otherwise at most one result per region |
| RdmaHelpers.ExecuteAllDone | rdma/helpers.py:510-529 | when every read completes with data, result i is region i's bytes |
| RdmaHelpers.TimeoutShiftsResults | rdma/helpers.py:520-525 | a timed-out read shifts later results forward: a timeout then a read gives the second region's bytes at position 0 |
| RdmaHelpers.FailureSticks | rdma/helpers.py:520-600 | once a prefix of the polls fails, the round fails with that first error |
| RdmaHelpers.OneSidedReader.New | rdma/helpers.py:470-508 | a missing queue pair or completion queue raises; otherwise the reader is built iff every remote region is at least as long as the UTF-8 encoding of the tag "RDMA-MR-local_mr_i" written at the start of its local copy, and a region too short for its tag fails with LocalMrFailed; on success one local region "local_mr_i" of remote region i's length is created per remote region |
| RdmaHelpers.OneSidedReader.Init | rdma/helpers.py:470-491 | the reader keeps its queues and remote regions and has no local pool yet |
| RdmaHelpers.OneSidedReader.Execute | rdma/helpers.py:510-529 | the loop returns exactly ExecuteResult of the completions |
| RdmaHelpers.OneSidedReader.Cleanup | rdma/helpers.py:531-538 | the local regions are cleaned up as the pool's cleanup says and the queues dropped |
| RdmaHelpers.LocalNames | rdma/helpers.py:506-507 | the local region names are "local_mr_0" .. "local_mr_(n-1)" |
| RdmaHelpers.LocalSizesStep | rdma/helpers.py:506-507 | creating local region n with remote region n's length extends the size agreement by one |
| RdmaHelpers.LocalNamesDistinct | rdma/helpers.py:506-507 | the next local name is not among the earlier ones |
| RdmaHost.Connect | rdma/rdma_microview_host.py:337-389 | out of range raises; otherwise a successful transition to ready-to-send records the peer and reports true, a failed one reports false and changes nothing |
| RdmaHost.ConnectKeepsInUse | rdma/rdma_microview_host.py:337-389 | connecting never changes any queue pair's in-use flag |
| RdmaHost.ReconnectAccepted | rdma/rdma_microview_host.py:337-389 | a connected queue pair accepts a second connect and the second peer replaces the first |
| RdmaHost.QueuePairPool.constructor | rdma/rdma_microview_host.py:176-206 | pool_size queue pairs, all idle and unconnected |
| RdmaHost.QueuePairPool.GetQpObject | rdma/rdma_microview_host.py:285-298 | the queue pair at an index in range; ValueError otherwise |
| RdmaHost.QueuePairPool.GetQpLocalInfo | rdma/rdma_microview_host.py:301-317 | number and GID of the queue pair at an index in range; ValueError otherwise |
| RdmaHost.QueuePairPool.ConnectQueuePair | rdma/rdma_microview_host.py:337-389 | the pool and the result are exactly Connect's |
| RdmaHost.QueuePairPool.ListQueuePairs | rdma/rdma_microview_host.py:391-397 | row i holds index i and queue pair i's number and in-use flag |
| Nic.HostAndPort | microview-nic.py:42-44 | host and port are ':'-free pieces of the control-plane URL |
| Nic.HostOnly | microview-nic.py:42-44 | a URL without ':' is all host, on port "5000" |
| Nic.HostThenPort | microview-nic.py:42-44 | "host:port" (with or without further ':'-fields) gives back exactly that host and port |
| Nic.HostIsPrefix | microview-nic.py:42-43 | the host is the text before the first ':', all of the URL when there is none |
| Nic.ModelFor | microview-nic.py:78-103 | "VAE" and "TH" select their models and every other name, "FD" included, the frequent-directions sketch |
| Nic.Active | microview-nic.py:184-187 | the active indices name regions of the layout |
| Nic.ActiveExactly | microview-nic.py:184-187 | the active indices are exactly the non-empty regions, each once, in increasing order |
| Nic.SliceBounds | microview-nic.py:206-213 | with no more LMAPs than active regions, slice i = [i*n//m, (i+1)*n//m) (n for the last) is non-empty and inside [0, n) |
| Nic.Slices | microview-nic.py:205-214 | one slice per LMAP |
| Nic.SliceOf | microview-nic.py:206-214 | a slice holds only active indices |
| Nic.SliceInRange | microview-nic.py:214-218 | every index of a slice names a region of the layout |
| Nic.SlicesPrefix | microview-nic.py:206-214 | the first k slices laid end to end are the active indices up to slice k-1's end |
| Nic.SlicesCover | microview-nic.py:205-214 | laid end to end the slices are the active indices: each region exactly once, in order |
| Nic.SlicesNonEmpty | microview-nic.py:201-214 | no LMAP is handed an empty slice |
| Nic.Plan | microview-nic.py:201-240 | one LMAP per slice, nlmap = min(num_collectors, active regions) of them |
| Nic.PlanCovers | microview-nic.py:184-240 | every active region goes to exactly one LMAP, in order; each LMAP reads at least one region and only regions with pages |
| Nic.PlanQueuePairs | microview-nic.py:222-229 | LMAP i reads through queue pair i (the modulo never wraps) and the LMAP names "LMAP_i" are distinct |
| Nic.MicroView.constructor | microview-nic.py:84-103 | host and port come from the URL, the model from its name, and there is no pool, region list, layout or LMAP yet |
| Nic.ConnectedStep | microview-nic.py:134-138 | connecting queue pair n on top of the first n connections gives the first n + 1, and reports whether it connected |
| Nic.PairsConnected | microview-nic.py:111-138 | in a fresh pool, after connecting every remote entry, queue pair j is in use iff it had a remote entry whose ready-to-send transition succeeded; it is then paired with entry j, otherwise it has no peer |
| Nic.ConnectPairs | microview-nic.py:134-138 | the loop connects local queue pair i to remote entry i in order; it fails iff there are more remote entries than local queue pairs, after connecting all the local ones |
| Nic.MicroView.ConnectWithMicroviewHost | microview-nic.py:105-165 | a pool of num_collectors fresh queue pairs; each failing request, an empty remote list or too many remote entries gives its own error, after which pool and LMAPs are cleaned up and the region list is untouched; the posted local info is the pool as listed before connecting; on success the pool is the pairwise connection and the region list is the host's regions with no name |
| Nic.MicroView.ConfigureLmaps | microview-nic.py:167-240 | a failed fetch keeps the old layout; no layout or region list, or a length mismatch, adds nothing; otherwise the LMAPs of the plan are appended |
| Nic.MicroView.AddLmaps | microview-nic.py:203-240 | the loop appends exactly the plan's LMAPs, in order |
| Nic.MicroView.Cleanup | microview-nic.py:298-308 | no LMAP and no queue-pair pool remain |
| Lmap.InstallAppend | LMAP.py:67-75 | installing two runs of page entries is installing the second on the table the first leaves |
| Lmap.InstallDomain | LMAP.py:67-75 | after set_classifier a pod has a classifier iff it had one or has a page entry |
| Lmap.InstallLast | LMAP.py:67-75 | a pod with several page entries keeps the classifier built with its last entry's count |
| Lmap.InstallUntouched | LMAP.py:67-75 | a pod without a page entry keeps the classifier it had |
| Lmap.InstallTotalsAt | LMAP.py:67-156 | the corrected table gives each pod a classifier expecting the metrics of all its pages together |
| Lmap.AsWrittenDimensionMismatch | LMAP.py:70-156 | a pod with pages of 3 and 2 metrics gets a classifier for 2 metrics while its vector holds 5 |
| Lmap.FirstPages | LMAP.py:99-110 | the first n pages of a region, one read per page |
| Lmap.RegionReads | LMAP.py:99-110 | one read per page entry of the region |
| Lmap.FirstPagesAt | LMAP.py:105 | read j of a region is its page j: bytes j*size to (j+1)*size with its pod and count |
| Lmap.GroupMeaning | LMAP.py:83-115 | grouping succeeds iff every page decodes, and then lists each pod once, exactly the pods read, each with its decoded pages in read order |
| Lmap.AllDecodeStep | LMAP.py:110 | a run of pages plus one decodes iff the run does and the last page does |
| Lmap.HasPodStep | LMAP.py:113 | a pod appears in a run plus one page iff it appears in the run or owns the last page |
| Lmap.PagesOfStep | LMAP.py:113 | one more page appends its decoding to its own pod's list only |
| Lmap.PagesOfAbsent | LMAP.py:113 | a pod with no page read has no pages |
| Lmap.GroupStep | LMAP.py:113 | adding one decoded page to its pod's list keeps the grouping exact |
| Lmap.AddToKeeps | LMAP.py:113 | setdefault-append keeps every key listed once with a non-empty list |
| Lmap.GroupStepDomain | LMAP.py:113 | after one more page the grouped pods are exactly those read |
| Lmap.GroupStepLists | LMAP.py:113 | after one more page each pod's list is its decoded pages in order |
| Lmap.GroupAppend | LMAP.py:92-113 | grouping two runs is grouping the second from the first's groups |
| Lmap.ReadWellGrouped | LMAP.py:83-115 | a successful read lists each pod once |
| Lmap.GroupFails | LMAP.py:110 | once a page fails to decode every longer run fails |
| Lmap.PageReadsStep | LMAP.py:92-105 | the pages of the first i+1 regions are those of the first i followed by region i's |
| Lmap.ReadFailsFrom | LMAP.py:92-110 | a region whose page fails to decode fails the whole read |
| Lmap.ValuesLength | LMAP.py:145-156 | a pod's value vector is as long as the metrics its pages hold |
| Lmap.HeldIsAnnounced | LMAP.py:101-110 | when every page is big enough for its count, a pod's pages hold as many metrics as its entries announce |
| Lmap.HeldStep | LMAP.py:145-148 | one more page adds its count to its own pod's total |
| Lmap.CorrectedDimension | LMAP.py:67-156 | with the corrected table every pod read has a classifier whose dimension is the length of its concatenated vector |
| Lmap.FamilyOf | LMAP.py:185-199 | a family is a gauge iff the type is gauge, is named "<collector>_<metric>" and labelled [pod, collector] |
| Lmap.PageFamilies | LMAP.py:181-200 | one family per record of the page: names, types and values zipped |
| Lmap.FamiliesLabelled | LMAP.py:176-200 | every family collect emits is named after this collector and labelled with it and one of the pods read |
| Lmap.PagesLabelled | LMAP.py:178-199 | the families of a pod's pages carry that pod and collector |
| Lmap.FamiliesPerMetric | LMAP.py:178-200 | pages decoded from bytes yield one family per metric they hold |
| Lmap.StatLines | LMAP.py:311-313 | one line per statistic |
| Lmap.StatsFileLines | LMAP.py:309-313 | splitting the written file on newlines gives one "key,value" line per statistic, in order, then the empty text after the last newline |
| Lmap.StatsTextFront | LMAP.py:312-313 | the file is the first statistic's line, a newline, then the rest |
| Lmap.Lmap.constructor | LMAP.py:32-56 | collector id, control information and reader as given; not running, no classifiers, no statistics |
| Lmap.Lmap.SetClassifier | LMAP.py:60-80 | a model LMAP cannot build raises at the first page entry and changes nothing; otherwise the table is Install over the page entries in region-then-page order |
| Lmap.Lmap.InstallRegion | LMAP.py:68-77 | one region's entries installed in page order; an unknown model fails at the first entry before any change |
| Lmap.Lmap.ReadMetrics | LMAP.py:83-115 | without a reader it fails; otherwise the result is ReadOf the round's completions |
| Lmap.Lmap.ReadMetricValues | LMAP.py:118-158 | each pod read maps to its pages' values laid end to end; a failed read or bad page fails |
| Lmap.Lmap.Collect | LMAP.py:161-205 | the families of the read pages, pod by pod in first-read order; nothing when the read fails |
| Lmap.Lmap.DumpStatistics | LMAP.py:309-313 | no file without a non-empty name; otherwise the file holds StatsText of the statistics |
| Lmap.Lmap.Cleanup | LMAP.py:323-330 | stops, writes "stats_<id>.csv", releases the reader if there is one and leaves none |
| Lmap.FlattenGrows | LMAP.py:67-68 | an entry in some region means the flattened entries are non-empty |
| Lmap.FlattenLength | LMAP.py:67-68 | adding regions never shrinks the flattened entries |
| Lmap.GroupRegion | LMAP.py:99-113 | the page loop of one region computes GroupFrom over its reads |
| Lmap.ReadPage | LMAP.py:100-110 | page j's bytes are cut from the region data and decoded with its announced count |
| Lmap.GroupPageStep | LMAP.py:105-113 | a failed decode fails the run; a successful one appends the page to its pod |
| Lmap.FirstPagesFail | LMAP.py:110 | once a page of a region fails, the region fails |
| Lmap.EmitPage | LMAP.py:181-200 | the loop emits exactly the page's families |
| Lmap.EmitPages | LMAP.py:178-200 | the loop emits exactly the families of the pod's pages, in order |
| Lmap.ConcatValues | LMAP.py:150-156 | one vector per pod read: its only page's values or all its pages' values laid end to end |
| CmCollector.RemoteAccessStride | rdma/cm_collector.py:72-86 | from page 0 on, consecutive pages are one page size apart, whichever way the info was obtained |
| CmCollector.RemoteAccessBase | rdma/cm_collector.py:73-86 | page 0 is the stored address (0 when missing), or (0x1000, 123) without an info file |
| CmCollector.RemoteAccessKey | rdma/cm_collector.py:76-86 | the key never depends on the page: the stored key (0 when missing), or 123 |
| CmCollector.NegativeOffset | rdma/cm_collector.py:79-86 | a negative offset is ignored with an info file but moves the placeholder address below 0x1000 without one |
| CmCollector.ReadAllOutcome | rdma/cm_collector.py:177-193 | the read fails exactly when some completion is unsuccessful, reporting the first such region and its status |
| CmCollector.ReadAllKeys | rdma/cm_collector.py:192-193 | a successful read holds a key exactly when some region is stored under it |
| CmCollector.ReadAllLast | rdma/cm_collector.py:192-193 | each key holds the bytes of the last region stored under it |
| CmCollector.UnnamedRegionKept | rdma/cm_collector.py:192-193 | an unnamed region's bytes are always kept, under its own position |
| CmCollector.SameNameOverwrites | rdma/cm_collector.py:192-193 | two regions with the same name keep only the second one's bytes |
| CmCollector.Collector.Init | rdma/cm_collector.py:20-38 | host and port as given, not connected, no regions |
| CmCollector.Collector.New | rdma/cm_collector.py:20-157 | a collector exists exactly when connecting succeeded, and then it is connected with no regions |
| CmCollector.Collector.InitConnection | rdma/cm_collector.py:125-157 | the connected flag is raised only when connecting succeeded |
| CmCollector.Collector.RegisterRemoteReadRegion | rdma/cm_collector.py:92-122 | without a connection it raises and registers nothing; otherwise the region (one page long by default) is appended and its position returned |
| CmCollector.Collector.ReadMetrics | rdma/cm_collector.py:160-199 | not connected or no regions raise; otherwise the result is ReadAll of the regions and completions |
| CmCollector.ReadRegions | rdma/cm_collector.py:177-195 | the read loop computes exactly ReadAll |
| CmCollector.ReadFailureSticks | rdma/cm_collector.py:188-189 | once the reads of a prefix fail, the whole read fails the same way |
| LibMicroView.Stored | libmicroview.py:64 | writing a value keeps the segment's size |
| LibMicroView.LoadStored | libmicroview.py:55-74 | reading a value field gives back what was last written to it |
| LibMicroView.StoredElsewhere | libmicroview.py:64 | writing one value field leaves every non-overlapping value field as it was |
| LibMicroView.SlotsDisjoint | metrics.py:50-63 | value fields of two different records never overlap, so metrics do not interfere |
| LibMicroView.MicroViewMetric.constructor | libmicroview.py:41-52 | the handle keeps the segment, the value offset, the name and the type |
| LibMicroView.MicroViewMetric.UpdateValue | libmicroview.py:55-64 | only the 8 bytes of the value field change and get_value then returns the value written |
| LibMicroView.MicroViewMetric.GetValue | libmicroview.py:66-74 | the value is the one the 8 bytes at the pointer hold |
| LibMicroView.MicroViewClient.constructor | libmicroview.py:80-92 | no metrics and no segment yet |
| LibMicroView.MicroViewClient.CreateMetric | libmicroview.py:95-149 | a known name returns the cached handle without asking the host; a failed request raises ConnectionError and caches nothing; otherwise the segment is mapped once and a handle at the host's address is cached under the name |
| LibMicroView.MicroViewClient.Close | libmicroview.py:151-161 | the segment is released if mapped; a second close does nothing |
| Channels.Channel.constructor | usecases/load-generator/web_users/main.go:155 | a new channel is open, with nothing sent or taken |
| Channels.Channel.Send | usecases/load-generator/web_users/main.go:249 | a send on an open channel appends the value to what was sent |
| Channels.Channel.Close | usecases/load-generator/web_users/main.go:269 | closing an open channel closes it (closing twice would panic) |
| Channels.SendAll | usecases/blueprint/examples/dsb_hotel/workload/workloadgen/workload.go:63 | the items are sent in order on an open channel |
| Channels.Drain | usecases/load-generator/web_users/main.go:160-167 | the collector's range loop receives, in order, everything not yet taken, then stops |
| Channels.Shutdown | usecases/blueprint/examples/dsb_hotel/workload/workloadgen/request_loop.go:189-269 | producers finish their sends before the close, the collector then takes everything: what it got is what was pending plus the final sends, in order |
| WorkloadGen.PoolPlanStarts | usecases/blueprint/examples/dsb_hotel/workload/workloadgen/request_loop.go:197-224 | the pool starts iff there is a thread, the duration parses and the throughput's quotient by the thread count is non-zero; a throughput below the thread count divides by zero |
| WorkloadGen.PoolPerWorker | usecases/blueprint/examples/dsb_hotel/workload/workloadgen/request_loop.go:200 | the per-worker throughput times the threads is at most the configured throughput and loses less than one per thread |
| WorkloadGen.TickBounds | usecases/blueprint/examples/dsb_hotel/workload/workloadgen/request_loop.go:224 | the tick is the largest whole number of nanoseconds whose product with the rate does not pass one second |
| WorkloadGen.OpenLoopStarts | usecases/blueprint/examples/dsb_hotel/workload/workloadgen/request_loop.go:102-147 | the open loop starts iff the duration parses and the throughput is positive, with a tick of one second over the throughput |
| WorkloadGen.InFlight | usecases/blueprint/examples/dsb_hotel/workload/workloadgen/request_loop.go:238-256 | the number of workers with a request in flight is at most the number of workers |
| WorkloadGen.IdlePool | usecases/blueprint/examples/dsb_hotel/workload/workloadgen/request_loop.go:205-231 | a fresh pool has one idle worker per thread and has issued nothing |
| WorkloadGen.NoneInFlight | usecases/blueprint/examples/dsb_hotel/workload/workloadgen/request_loop.go:205 | with every worker idle nothing is in flight |
| WorkloadGen.InFlightSet | usecases/blueprint/examples/dsb_hotel/workload/workloadgen/request_loop.go:245-256 | starting or completing a request changes the in-flight count by exactly one |
| WorkloadGen.OvershootKept | usecases/blueprint/examples/dsb_hotel/workload/workloadgen/request_loop.go:238-256 | as written, the check-then-increment counter keeps issued requests below the limit plus one per worker |
| WorkloadGen.CounterOvershoots | usecases/blueprint/examples/dsb_hotel/workload/workloadgen/request_loop.go:238-256 | as written, a limit of 1 with two workers yields two requests |
| WorkloadGen.LimitKept | usecases/blueprint/examples/dsb_hotel/workload/workloadgen/request_loop.go:238-256 | with reservation before the request, issued requests never exceed the limit |
| WorkloadGen.ReserveRefusesOnlyAtLimit | usecases/blueprint/examples/dsb_hotel/workload/workloadgen/request_loop.go:238 | a worker is refused iff the limit is already reached, and otherwise issues exactly one more request |
| WorkloadGen.ErrorCount | usecases/blueprint/examples/dsb_hotel/workload/workloadgen/request_loop.go:277-281 | the error count is at most the number of Stats |
| WorkloadGen.StatLines | usecases/blueprint/examples/dsb_hotel/workload/workloadgen/request_loop.go:283 | one CSV line per Stat |
| WorkloadGen.StatLineRoundTrip | usecases/blueprint/examples/dsb_hotel/workload/workloadgen/request_loop.go:283 | a "%d,%d,%t" line has three fields, no newline, and reads back as its Stat |
| WorkloadGen.StatsFileRoundTrip | usecases/blueprint/examples/dsb_hotel/workload/workloadgen/request_loop.go:291-292 | the file splits into the header and exactly the Stat lines (one empty line when there are none), each reading back as its Stat |
| WorkloadGen.CountsAppend | usecases/blueprint/examples/dsb_hotel/workload/workloadgen/request_loop.go:277-282 | error count and duration sum add up over appended Stats |
| WorkloadGen.RunRequest | usecases/blueprint/examples/dsb_hotel/workload/workloadgen/workload.go:40-64 | exactly one Stat is sent per request, marked as an error iff the search failed |
| WorkloadGen.Engine.constructor | usecases/blueprint/examples/dsb_hotel/workload/workloadgen/workload.go:110 | a new engine has no Stats and the given output file |
| WorkloadGen.Engine.RunProducers | usecases/blueprint/examples/dsb_hotel/workload/workloadgen/request_loop.go:130-193 | the engine's Stats become those sent before the stop followed by the producers' final sends |
| WorkloadGen.Engine.RunOpenLoop | usecases/blueprint/examples/dsb_hotel/workload/workloadgen/request_loop.go:102-194 | the open loop's plan is OpenLoopPlan; on failure nothing is collected, otherwise every sent Stat is collected in order |
| WorkloadGen.Engine.RunWithThreadPool | usecases/blueprint/examples/dsb_hotel/workload/workloadgen/request_loop.go:197-270 | the pool's plan is PoolPlan; on failure nothing is collected, otherwise every sent Stat is collected in order |
| WorkloadGen.Engine.PrintStats | usecases/blueprint/examples/dsb_hotel/workload/workloadgen/request_loop.go:272-303 | the report counts all Stats, the errors and the successes, sums the durations, and its data is the CSV file of the Stats |
| WorkloadGen.ModeOf | usecases/blueprint/examples/dsb_hotel/workload/workloadgen/workload.go:112-116 | "openloop" selects the open loop, "pool" the pool, anything else neither |
| WorkloadGen.Override | usecases/blueprint/examples/dsb_hotel/workload/workloadgen/workload.go:100-106 | a non-zero -tput and a non-empty -duration replace the file's values; nothing else changes |
| WorkloadGen.Run | usecases/blueprint/examples/dsb_hotel/workload/workloadgen/workload.go:77-123 | no -config is fatal, an unreadable config is fatal; otherwise the effective config and mode are used, a run aborts iff its plan does, and the report covers exactly what the mode sent (nothing for an unknown mode) |
| Registry.Entries | usecases/load-generator/workload/registry.go:15-47 | one (key, generator) pair per assignment, in the table's order, each keyed by the naming rule |
| Registry.EntryOf | usecases/load-generator/workload/registry.go:18-47 | every generator is assigned somewhere in the table |
| Registry.BuildLookup | usecases/load-generator/workload/registry.go:16-47 | a key is in the built map iff some assignment uses it, and it holds that assignment's generator |
| Registry.KeysFollowNamingRule | usecases/load-generator/workload/registry.go:18-47 | every registered key leads to the generator the naming rule files under it |
| Registry.EveryGeneratorRegistered | usecases/load-generator/workload/registry.go:18-47 | every generator can be looked up under its key |
| Registry.SockshopKeysNamed | usecases/load-generator/workload/registry.go:29-47 | a "sockshop_" key leads to the Go function of the same name |
| Registry.RegistryInjective | usecases/load-generator/workload/registry.go:18-47 | different keys hold different generators |
| Registry.LeafUnregistered | usecases/load-generator/workload/registry.go:49-50 | the commented-out leaf generator is not found |
| Registry.GetGeneratorFunction | usecases/load-generator/workload/registry.go:54-60 | a generator is returned iff the name is registered, and it is the registered one; otherwise nil |
| Registry.PrepareArg | usecases/load-generator/workload/registry.go:62-68 | a string is passed unencoded when the original form is asked for; anything else, and a string otherwise, is JSON-encoded |
| Sockshop.Keys | usecases/load-generator/workload/sockshop.go:190-193 | one form key per argument |
| Sockshop.ObjectIdOf | usecases/load-generator/workload/sockshop.go:10-17 | the result is 24 characters from "abcdef0123456789" |
| Sockshop.GenerateObjectId | usecases/load-generator/workload/sockshop.go:10-17 | the loop appends one alphabet character per draw, giving ObjectIdOf of the draws |
| Sockshop.HexIndex | usecases/load-generator/workload/sockshop.go:11 | a hexadecimal character's position in the alphabet |
| Sockshop.DrawsOfId | usecases/load-generator/workload/sockshop.go:10-17 | every identifier's characters give valid draws |
| Sockshop.EveryObjectIdGenerated | usecases/load-generator/workload/sockshop.go:10-17 | every 24-character identifier over the alphabet can be generated |
| Sockshop.ObjectIdDeterminesDraws | usecases/load-generator/workload/sockshop.go:10-17 | different draws give different identifiers |
| Sockshop.HexIndexOfAlphabet | usecases/load-generator/workload/sockshop.go:11 | the alphabet has no repeated character |
| Sockshop.SessionId | usecases/load-generator/workload/sockshop.go:181-184 | the session identifier is non-empty iff the draw passes the threshold, and is then an object identifier |
| Sockshop.OneId | usecases/load-generator/workload/sockshop.go:162-177 | a single object identifier under the given key |
| Sockshop.GetCart | usecases/load-generator/workload/sockshop.go:20-30 | one sessionID argument, non-empty iff the draw exceeds 20 |
| Sockshop.DeleteCart | usecases/load-generator/workload/sockshop.go:33-39 | one sessionID argument holding an object identifier |
| Sockshop.RemoveItem | usecases/load-generator/workload/sockshop.go:42-55 | a sessionID identifier and an itemID from the sock list |
| Sockshop.AddItem | usecases/load-generator/workload/sockshop.go:58-74 | a session present iff the draw exceeds 30, and an itemID from the sock list |
| Sockshop.UpdateItem | usecases/load-generator/workload/sockshop.go:77-95 | session, item, and a quantity between 1 and 5 |
| Sockshop.TagsOf | usecases/load-generator/workload/sockshop.go:98-123 | one tag from the tag list per draw |
| Sockshop.ListItemsShape | usecases/load-generator/workload/sockshop.go:98-123 | one to three tags from the tag list, an order from the order list, page 1 of 20 items |
| Sockshop.ListItems | usecases/load-generator/workload/sockshop.go:98-123 | the loop fills the tag slice slot by slot, giving ListItemsArgs |
| Sockshop.GetSock | usecases/load-generator/workload/sockshop.go:126-137 | one itemID from the sock list |
| Sockshop.ListTags | usecases/load-generator/workload/sockshop.go:140-144 | no form values |
| Sockshop.LoadCatalogue | usecases/load-generator/workload/sockshop.go:308-312 | no form values |
| Sockshop.NewOrder | usecases/load-generator/workload/sockshop.go:147-159 | four object identifiers: customer, address, card and cart |
| Sockshop.GetOrders | usecases/load-generator/workload/sockshop.go:162-168 | one userID identifier |
| Sockshop.GetOrder | usecases/load-generator/workload/sockshop.go:171-177 | one orderID identifier |
| Sockshop.Login | usecases/load-generator/workload/sockshop.go:180-195 | sessionID present iff the draw exceeds 50, then a user name and a password |
| Sockshop.LoginSuffixShared | usecases/load-generator/workload/sockshop.go:186-188 | user name and password end in the same number, which reads back as the user drawn |
| Sockshop.Register | usecases/load-generator/workload/sockshop.go:198-219 | six fields; the e-mail is the user name followed by "@sockshop.com" |
| Sockshop.RegisterUserNumber | usecases/load-generator/workload/sockshop.go:204-205 | the user name reads back as the user drawn, one of 0..9999 |
| Sockshop.GetUser | usecases/load-generator/workload/sockshop.go:222-228 | one userID identifier |
| Sockshop.GetAddress | usecases/load-generator/workload/sockshop.go:231-237 | one addressID identifier |
| Sockshop.PostAddress | usecases/load-generator/workload/sockshop.go:240-261 | six string fields under the address keys, in order |
| Sockshop.PostAddressFields | usecases/load-generator/workload/sockshop.go:243-254 | the fixed user, street, country and city from their lists, a house number in 1..9999 and a post code in 10000..109998 |
| Sockshop.GetCard | usecases/load-generator/workload/sockshop.go:264-270 | one cardID identifier |
| Sockshop.DigitsOf | usecases/load-generator/workload/sockshop.go:278-297 | one decimal digit per draw |
| Sockshop.OneDigitText | usecases/load-generator/workload/sockshop.go:279 | strconv.Itoa of a single digit is that one character |
| Sockshop.AppendDigits | usecases/load-generator/workload/sockshop.go:277-297 | the loop appends one digit per draw to the prefix |
| Sockshop.TwoDigitText | usecases/load-generator/workload/sockshop.go:289-291 | strconv.Itoa of a two-digit number is its two digits |
| Sockshop.Expires | usecases/load-generator/workload/sockshop.go:283-291 | five characters: two digits, a slash, two digits |
| Sockshop.ExpiresFields | usecases/load-generator/workload/sockshop.go:283-291 | the month reads back as 1..12 and the year as 24..33 |
| Sockshop.PostCardShape | usecases/load-generator/workload/sockshop.go:273-305 | a user identifier, a 16-digit number starting with 4, an MM/YY expiry and a 3-digit code |
| Sockshop.PostCard | usecases/load-generator/workload/sockshop.go:273-305 | the digit loops build PostCardArgs |
| Sockshop.Form | usecases/load-generator/workload/sockshop.go:190-193 | one form value per argument, under its key, in order |
| Sockshop.RegisterFormEmail | usecases/load-generator/workload/sockshop.go:207-215 | in the unencoded form the e-mail sent is the user name sent followed by the domain |
| WebUsers.NewUserState | usecases/load-generator/web_users/main.go:55-70 | a new user has three fresh object identifiers, a "user_<thread>_" name and a "pass_" password each ending in 8 identifier characters, is logged out and has nothing collected |
| WebUsers.StepStat | usecases/load-generator/web_users/main.go:197-242 | a step reports a Stat iff it is not skipped; the Stat carries the step's start, duration, URL and type, and is an error iff the client failed or the status is not 2xx |
| WebUsers.RunStep | usecases/load-generator/web_users/main.go:191-254 | one step sends exactly StepStat's Stat, or nothing when the step is skipped |
| WebUsers.StatsOf | usecases/load-generator/web_users/main.go:191-254 | a user reports at most one Stat per step |
| WebUsers.StatsOfSteps | usecases/load-generator/web_users/main.go:191-254 | every reported Stat comes from a step, and every step not skipped reports its Stat |
| WebUsers.RunUser | usecases/load-generator/web_users/main.go:171-265 | a user thread sends the Stats of its steps, in order |
| WebUsers.UserStats | usecases/load-generator/web_users/main.go:171-266 | one list of Stats per user |
| WebUsers.ErrorCount | usecases/load-generator/web_users/main.go:279-283 | the error count is at most the number of Stats |
| WebUsers.StatLines | usecases/load-generator/web_users/main.go:285 | one CSV line per Stat |
| WebUsers.StatLineRoundTrip | usecases/load-generator/web_users/main.go:285 | a "%s,%d,%d,%t" line has no newline and reads back as its URL and values when the URL holds no comma or newline |
| WebUsers.StatsFileRoundTrip | usecases/load-generator/web_users/main.go:294-295 | the file splits into the header and exactly the Stat lines (one empty line when there are none), each reading back |
| WebUsers.Engine.constructor | usecases/load-generator/web_users/main.go:332-333 | the engine holds the config, the output file and the full registry, and no Stats |
| WebUsers.Engine.Run | usecases/load-generator/web_users/main.go:143-272 | no workflows, a bad duration and a negative thread count are fatal and collect nothing; otherwise the collector receives every Stat every user sent |
| WebUsers.Engine.PrintStats | usecases/load-generator/web_users/main.go:274-305 | the report counts all Stats, the errors and the successes, sums the durations, and its data is the CSV file of the Stats |
| WebUsers.RunProgram | usecases/load-generator/web_users/main.go:307-342 | an empty -config is a usage error and an unreadable config is fatal; with a loaded config the run succeeds iff there is a workflow, a parsable duration and a non-negative thread count, and the other failures are Engine.Run's fatal errors (no workflows, bad duration, negative threads); on success the report covers everything the users sent |
| Chaos.DefaultName | usecases/chaos-engineering/anomaly-injector/chaos_mesh_client.py:101-216 | a CPU experiment is named "burn-cpu-<service>" and a memory one "pod-oom-<service>" |
| Chaos.DefaultNamesDistinct | usecases/chaos-engineering/anomaly-injector/chaos_mesh_client.py:101-102 | different kinds or different services never share a default name |
| Chaos.FindRecovered | usecases/chaos-engineering/anomaly-injector/chaos_mesh_client.py:174-176 | the scan finds a Recover/Succeeded event iff there is one |
| Chaos.TerminationVerdict | usecases/chaos-engineering/anomaly-injector/chaos_mesh_client.py:158-178 | the experiment has terminated iff it has not been seen with an injected count of 0 and its events include Recover/Succeeded; unparsable count or events raise |
| Chaos.ChaosMeshStressInjector.constructor | usecases/chaos-engineering/anomaly-injector/chaos_mesh_client.py:13-52 | a new injector checks Chaos Mesh, deletes the namespace's stress experiments and tracks nothing |
| Chaos.ChaosMeshStressInjector.RecoverAllExperiments | usecases/chaos-engineering/anomaly-injector/chaos_mesh_client.py:42-52 | the delete-all command is run and the table is cleared iff it succeeds |
| Chaos.ChaosMeshStressInjector.CreateChaosExperiment | usecases/chaos-engineering/anomaly-injector/chaos_mesh_client.py:54-73 | the experiment is applied and tracked as a StressChaos iff the apply succeeds |
| Chaos.ChaosMeshStressInjector.DeleteChaosExperiment | usecases/chaos-engineering/anomaly-injector/chaos_mesh_client.py:75-85 | the experiment is deleted and leaves the table iff the delete succeeds |
| Chaos.ChaosMeshStressInjector.CheckIfTerminatedAndSucceeded | usecases/chaos-engineering/anomaly-injector/chaos_mesh_client.py:143-178 | an untracked name is not terminated and nothing is run; a tracked one gets TerminationVerdict, and the events are queried only when the count is not 0 |
| Chaos.ChaosMeshStressInjector.InjectStress | usecases/chaos-engineering/anomaly-injector/chaos_mesh_client.py:87-255 | a tracked experiment still running refuses the injection; a finished one is deleted first; the new experiment is then applied and tracked iff the apply succeeds |
| Chaos.ChaosMeshStressInjector.RecoverStress | usecases/chaos-engineering/anomaly-injector/chaos_mesh_client.py:181-275 | without a name or a service, or for an untracked name, nothing is run and False is returned; otherwise the experiment is deleted |
| Chaos.ChaosMeshStressInjector.CleanupAllExperiments | usecases/chaos-engineering/anomaly-injector/chaos_mesh_client.py:287-307 | true on an empty table; otherwise true iff every delete succeeded, and exactly the successfully deleted experiments leave the table; the command log gains one delete per tracked name, in order, each under the kind the table recorded for it |
| Chaos.ChaosMeshStressInjector.DeleteEach | usecases/chaos-engineering/anomaly-injector/chaos_mesh_client.py:293-300 | the command log gains exactly one delete per name, in `names` order, each under the kind the table recorded for that name; the answers are collected in order and exactly the names whose delete succeeded leave the table |
| Chaos.ChaosMeshStressInjector.ActiveExperimentCount | usecases/chaos-engineering/anomaly-injector/chaos_mesh_client.py:309-311 | the number of tracked experiments |
| Chaos.Deleted | usecases/chaos-engineering/anomaly-injector/chaos_mesh_client.py:297-300 | a name is deleted iff some delete of it succeeded |
| Chaos.DeletedStep | usecases/chaos-engineering/anomaly-injector/chaos_mesh_client.py:297-300 | each delete adds its name to the deleted set iff it succeeds |
| Chaos.DeletedOnly | usecases/chaos-engineering/anomaly-injector/chaos_mesh_client.py:295 | a name is not deleted before its turn, the key list having no duplicates |
| Chaos.AllTrue | usecases/chaos-engineering/anomaly-injector/chaos_mesh_client.py:302 | all() holds iff every answer is true |
| DataCollection.CheckFrame | usecases/observability/datacollection/utils.py:38-43 | the frame is accepted iff both ends are known and the start is strictly before the end; otherwise "Invalid time frame" |
| DataCollection.ParseTimeframeAsWritten | usecases/observability/datacollection/utils.py:18-43 | as written, every accepted frame has its start strictly before its end |
| DataCollection.StartAndDurationRefused | usecases/observability/datacollection/utils.py:19-30 | as written, a start and a duration without an end are always refused |
| DataCollection.ParseTimeframe | usecases/observability/datacollection/utils.py:18-43 | corrected: every accepted frame has its start strictly before its end |
| DataCollection.StartAndDurationAccepted | usecases/observability/datacollection/utils.py:20-22 | corrected: a start and a positive duration give the frame of that many minutes from the start |
| DataCollection.EndAndDuration | usecases/observability/datacollection/utils.py:26-40 | with an end and a duration the start is the end less the duration; a negative duration is refused; both versions agree here |
| DataCollection.WithoutDuration | usecases/observability/datacollection/utils.py:31-40 | without a duration the frame is accepted iff both dates parse and the start is before the end; both versions agree here |
| DataCollection.MinStart | usecases/observability/datacollection/utils.py:92 | the earliest span start: no span starts earlier, and some span starts then |
| DataCollection.MaxEnd | usecases/observability/datacollection/utils.py:91 | the latest span end: no span ends later, and some span ends then |
| DataCollection.ErrorTag | usecases/observability/datacollection/utils.py:98-101 | a span has an error value iff one of its tags is keyed 'error' |
| DataCollection.FindErrorTag | usecases/observability/datacollection/utils.py:98-101 | the tag scan stops at the first 'error' tag and returns its value |
| DataCollection.ErrorFlagMeaning | usecases/observability/datacollection/utils.py:94-101 | the trace's flag is false when no span has an 'error' tag, and otherwise the value of the last span that has one |
| DataCollection.SummaryOf | usecases/observability/datacollection/utils.py:90-113 | a trace has a row iff it has a span (max() of an empty list raises) |
| DataCollection.SummaryBounds | usecases/observability/datacollection/utils.py:91-93 | the row starts at the first span start, ends at the last span end, and its duration is their difference, non-negative when the spans' durations are |
| DataCollection.SummarizeTrace | usecases/observability/datacollection/utils.py:90-113 | the per-trace loop body computes SummaryOf |
| DataCollection.Written | usecases/observability/datacollection/utils.py:84-115 | at most one row per trace |
| DataCollection.WrittenRows | usecases/observability/datacollection/utils.py:84-115 | row k is trace k's summary, and every trace is written iff each has a span |
| DataCollection.StreamTraces | usecases/observability/datacollection/utils.py:77-115 | the loop writes exactly Written's rows, and fails iff some trace has no span |
| DataCollection.Numbered | usecases/observability/datacollection/utils.py:208-219 | one description per series, with its labels, its query and consecutive keys |
| DataCollection.Descs | usecases/observability/datacollection/utils.py:197-219 | one description per series of all queries |
| DataCollection.DescsNumbered | usecases/observability/datacollection/utils.py:212-219 | description k has key k, and series j of query i is placed after the series of the earlier queries, with query i |
| DataCollection.ColumnName | usecases/observability/datacollection/utils.py:212-215 | the first column is "value", no later one is |
| DataCollection.BuildMetricsDataframe | usecases/observability/datacollection/utils.py:187-220 | no queries raises; no series at all leaves the frame unassigned; the frame is built iff there is a query and at least one series, and then it has one numbered column and description per series |
| DataCollection.QueryDescs | usecases/observability/datacollection/utils.py:208-219 | the inner loop appends one description per series, numbered on from those already there |
| PostProcessing.Intervals | usecases/postprocessing/utils.py:306-309 | every interval has the given length and ends before the end; there is one iff the first fits, and the first starts at the start |
| PostProcessing.IntervalsClosedForm | usecases/postprocessing/utils.py:306-309 | interval k starts at start + k * every, and one more would not end before the end |
| PostProcessing.PeriodicAnomaly | usecases/postprocessing/utils.py:295-310 | the loop appends exactly Intervals |
| PostProcessing.IntervalsOrdered | usecases/postprocessing/utils.py:306-309 | the interval starts strictly increase |
| PostProcessing.ColumnId | usecases/postprocessing/utils.py:324-327 | the id is the integer after the last '_', or 0 when that is not an integer |
| PostProcessing.PyIndex | usecases/postprocessing/utils.py:328 | Python indexing: a negative index counts from the end, anything else out of range raises |
| PostProcessing.MetricQueries | usecases/postprocessing/utils.py:322-329 | the result exists iff every column's id indexes the descriptions, and holds each column's query in column order |
| PostProcessing.ColNameToMetric | usecases/postprocessing/utils.py:313-329 | the loop computes MetricQueries |
| PostProcessing.ColumnIdOfName | usecases/postprocessing/utils.py:324-327 | the id of the k-th generated column name is k |
| PostProcessing.MetricsOfNumberedColumns | usecases/postprocessing/utils.py:322-329 | columns carrying their position as id map to the descriptions' queries in order |
| PostProcessing.MetricsOfBuiltColumns | usecases/postprocessing/utils.py:313-329 | the columns build_metrics_dataframe names map back to the queries that produced them |
| PostProcessing.Frame.constructor | usecases/postprocessing/utils.py:137-153 | a frame with the given index and no labels yet |
| PostProcessing.StrictLabel | usecases/postprocessing/utils.py:146-152 | 1 iff the time is strictly inside some interval, else 0 |
| PostProcessing.InclusiveLabel | usecases/postprocessing/utils.py:178-179 | 1 iff the time is inside some interval, bounds included, else 0 |
| PostProcessing.InSomeInterval | usecases/postprocessing/utils.py:147-150 | the scan finds an interval iff the time is strictly inside one |
| PostProcessing.LabelAnomalousSamplesFromFile | usecases/postprocessing/utils.py:137-153 | every sample is labelled StrictLabel of its time |
| PostProcessing.StrictWithinInclusive | usecases/postprocessing/utils.py:148-179 | a strictly-inside sample is inside inclusively, and the two rules differ only on interval bounds |
| PostProcessing.ForService | usecases/postprocessing/utils.py:170-173 | the pairs are those of the rows whose service contains the filter (all rows without one) |
| PostProcessing.InsertAddsOne | usecases/postprocessing/utils.py:176 | inserting adds exactly the one interval |
| PostProcessing.InsertKeepsLowerBound | usecases/postprocessing/utils.py:176 | a lower bound on the starts survives inserting an interval above it |
| PostProcessing.InsertKeepsOrder | usecases/postprocessing/utils.py:176 | inserting keeps the intervals sorted by start |
| PostProcessing.SortByStart | usecases/postprocessing/utils.py:176 | the result is sorted by start and a permutation of the input |
| PostProcessing.LabelsIgnoreOrder | usecases/postprocessing/utils.py:176-179 | the labels depend only on which intervals there are, not their order |
| PostProcessing.UsedAnomalies | usecases/postprocessing/utils.py:162-177 | a missing file fails; given intervals are used as they are; read ones are the service's, sorted by start |
| PostProcessing.FileLabelsMeaning | usecases/postprocessing/utils.py:162-179 | a sample is labelled from a file iff some row for the service holds it, bounds included |
| PostProcessing.InclusiveLabelSnoc | usecases/postprocessing/utils.py:178-179 | with one more anomaly a sample is labelled 1 iff it lies in that anomaly or was labelled by the earlier ones |
| PostProcessing.LabelSlice | usecases/postprocessing/utils.py:179 | the labels on the inclusive slice become 1; the others are kept |
| PostProcessing.LabelAnomalousSamples | usecases/postprocessing/utils.py:156-180 | labels start at 0; a missing file leaves them 0; otherwise each sample is labelled InclusiveLabel of its time over the used anomalies |
| Preprocess.SanityCheck | plot/preprocess.py:81-89 | an algorithm passes iff it is FD, VAE or TH |
| Preprocess.ParseDirName | plot/preprocess.py:104-114 | a directory name gives an experiment iff its second '_'-field exists and is an integer |
| Preprocess.DirNameFields | plot/preprocess.py:104-106 | a name built from '_'-free fields gives back the rendered integer and the last field |
| Preprocess.WrkRowOf | plot/preprocess.py:101-112 | a row comes only from a selected, well-named directory with both figures non-zero, and carries its number and algorithm |
| Preprocess.WrkRowDropped | plot/preprocess.py:109-112 | a well-named run is dropped iff its wrk output is missing or a figure is missing or zero |
| Preprocess.WrkRowsFromDirs | plot/preprocess.py:101-132 | the rows are exactly those the directories give |
| Preprocess.CollectWrk | plot/preprocess.py:99-132 | the directory loops compute WrkRows |
| Preprocess.FirstIndex | plot/preprocess.py:170 | the position of the first comma: there is none before it |
| Preprocess.ReadLine | plot/preprocess.py:169-171 | a line is skipped iff it has no comma |
| Preprocess.StripKeepsComma | plot/preprocess.py:170 | strip() never removes a comma |
| Preprocess.StripLeftKeeps | plot/preprocess.py:170 | stripping the left end never removes a comma |
| Preprocess.StripRightKeeps | plot/preprocess.py:170 | stripping the right end never removes a comma |
| Preprocess.OneBadLineDropsFile | plot/preprocess.py:166-174 | a file is dropped iff one of its lines does not parse |
| Preprocess.ReadStats | plot/preprocess.py:165-174 | the line loop computes ParseStats |
| Preprocess.StripTrimmed | plot/preprocess.py:170 | strip() leaves trimmed text alone |
| Preprocess.SplitOnceAfterKey | plot/preprocess.py:170 | split(",", 1) cuts after a comma-free key |
| Preprocess.StatLineReadBack | plot/preprocess.py:169-171 | the line LMAP writes for a statistic reads back as its key and parsed value |
| Preprocess.ParseStatsSnoc | plot/preprocess.py:168-171 | reading one more line extends the statistics by that line |
| Preprocess.ReadBackSnoc | plot/preprocess.py:171 | reading a statistic with a new key extends the read-back |
| Preprocess.StatsPrefix | plot/preprocess.py:168-171 | dropping the last statistic keeps keys distinct and writable |
| Preprocess.StatLinesSnoc | plot/preprocess.py:168 | the lines of one more statistic end with its line |
| Preprocess.StatLinesReadBack | plot/preprocess.py:165-171 | reading the lines of a dump gives every written key with its parsed value and no other key |
| Preprocess.StatsFileRoundTrip | plot/preprocess.py:165-171 | the file LMAP's dump_statistics writes reads back as its keys with their parsed values |
| Preprocess.WithMetadata | plot/preprocess.py:176-224 | the row is the file's statistics plus the metadata, which overrides a statistic of the same name |
| Preprocess.StatsFileFields | plot/preprocess.py:156-161 | a statistics file name's first two '_'-fields are "stats" and "LMAP" |
| Preprocess.LmapNumberOf | plot/preprocess.py:156-161 | "stats_LMAP_<k>.csv" is a statistics file and gives k back |
| Preprocess.FileRowsOfRun | plot/preprocess.py:159-184 | every row of a run with a valid algorithm carries the run's fixed settings |
| Preprocess.LoopRowsOfRuns | plot/preprocess.py:145-228 | only valid algorithms reach the read-loop tables, each row with the sweep's fixed settings |
| Preprocess.CollectFiles | plot/preprocess.py:159-184 | the file loop computes FileRows |
| Preprocess.CollectReadLoop | plot/preprocess.py:145-228 | the directory loops compute LoopRows |
| Preprocess.CollectDir | plot/preprocess.py:147-152 | one directory gives its files' rows only when it is selected, its name parses and its algorithm is valid |
| Preprocess.DirRowListed | plot/preprocess.py:101-112 | every directory's row is among the collected wrk rows |
| Preprocess.RowComesFromDir | plot/preprocess.py:101-112 | every collected wrk row is some directory's row |
| PlotParams.FirstOccurrence | usecases/plot-scripts/coverage-vs-cost-mixed-failures.py:28 | the first position where the parameter occurs, and no earlier one |
| PlotParams.UpTo | usecases/plot-scripts/coverage-vs-cost-mixed-failures.py:28 | the text before the first occurrence: a prefix holding no occurrence, all of the text when there is none |
| PlotParams.NoOccurrenceBefore | usecases/plot-scripts/coverage-vs-cost-mixed-failures.py:28 | text before the first occurrence does not contain it |
| PlotParams.FirstParamMeaning | usecases/plot-scripts/coverage-vs-cost-mixed-failures.py:23-29 | None iff no field starts with the parameter; otherwise the first such field gives the value, cut where the parameter recurs |
| PlotParams.ExtractWritten | usecases/plot-scripts/coverage-vs-cost-mixed-failures.py:23-29 | a name written field by field gives back the value written after the parameter |
| PlotParams.LegendOfWritten | usecases/plot-scripts/coverage-vs-cost-mixed-failures.py:139 | the legend is the name without its last field |
| StepLoad.CurrentStep | horizontal-autoscaling/load-generator/step.py:45 | the step k satisfies k - 1 <= run_time / step_time < k, for either sign of a non-zero step time; with a positive step time the run time lies in [(k-1) * step_time, k * step_time) |
| StepLoad.StepWindow | horizontal-autoscaling/load-generator/step.py:45 | floor(t / c) + 1 is the step whose window holds t: [(k-1)c, kc) for c > 0, (kc, (k-1)c] for c < 0 |
| StepLoad.ScaleOrder | horizontal-autoscaling/load-generator/step.py:45 | multiplying by a positive factor keeps the order, and the products' order gives back the factors' order |
| StepLoad.Tick | horizontal-autoscaling/load-generator/step.py:39-46 | None iff the run time passes the limit; otherwise the current step's users and the spawn rate |
| StepLoad.FirstStep | horizontal-autoscaling/load-generator/step.py:39-46 | at time 0 the target is one step's load |
| StepLoad.StepMonotone | horizontal-autoscaling/load-generator/step.py:45 | the step never goes back as time passes |
| StepLoad.TargetNeverDecreases | horizontal-autoscaling/load-generator/step.py:39-46 | with a non-negative step load the target user count never decreases before the limit |
| StepLoad.NegativeStepTime | horizontal-autoscaling/load-generator/step.py:34-46 | a negative STEP_TIME, which the source accepts, gives a target user count of zero or less after time 0, falling as time passes |
| StepLoad.ScaleOrderNegative | horizontal-autoscaling/load-generator/step.py:45 | multiplying by a negative factor reverses the order, both ways |
| StepLoad.NegativeStepAfterStart | horizontal-autoscaling/load-generator/step.py:34-45 | with a negative step time the step after time 0 is at most 0 |
| StepLoad.NegativeStepFalls | horizontal-autoscaling/load-generator/step.py:34-45 | with a negative step time the step never goes up as time passes |

## Left out

- Concurrency and timing. Goroutines, timers, `select`, WaitGroups, atomics and the Poisson jitter of the Go load generators are not modelled. Their effect is: Stats are sent, collected in order of receipt, and the channel shuts down in a fixed order. Web users are run one after another, so their interleaving is not captured.
- The LMAP scrape loop and thread (LMAP.py:208-293), its timing statistics, the host's signal handlers and CPU affinity: threads and clocks.
- Floating point. Average latencies in both `PrintStats` reports are left out. `Lmap.Lmap.DumpStatistics` writes statistics with integer or already-rendered values: the list-valued statistics that dump_statistics replaces by their mean, maximum, minimum and standard deviation (LMAP.py:300-306) are not modelled. Python also refuses to change a dict's size while iterating over it, which that loop does.
- Preprocess and StepLoad use Dafny reals where the source uses binary floating point.
- The `parse_wrk_output` regular expression (plot/preprocess.py:61-78): the two figures it extracts are inputs.
- pyverbs and RDMA-CM calls are not modelled: MR/QP/CQ creation, `to_rts`, `post_send`, polling and connection establishment. They are opaque handles, and their success, failure or completion is a parameter. The busy-polling readers and rdma/cm_server.py are not part of this model.
- Flask, requests and Prometheus plumbing: routes are modelled by the values they compute. The host's POST `/metrics` route is not modelled. Neither is the Prometheus registry; families are values.
- `json.Marshal`, `time.ParseDuration`, `url.Parse`, date parsing and YAML are not modelled. Their results are parameters, or function parameters such as the `marshal` argument of `Registry.PrepareArg`.
- Python `int()` and `float()` are modelled on plain decimal text. Their acceptance of surrounding whitespace, underscores and exponents is not.
- Preprocess.DirRows and Preprocess.CollectDir take every selected `read_loop` entry of LOCAL_PATH to be a directory. In the source, a selected regular file makes `os.listdir` raise NotADirectoryError (plot/preprocess.py:156, 199). `except (ValueError, IndexError)` does not catch it, so to_dataframe stops; the model does not represent that crash.
- Preprocess.ReadStats: `str.strip` removes ASCII whitespace only, and universal-newline translation is not modelled.
- PostProcessing.ForService: pandas `str.contains` is read as a substring test, though pandas reads the filter as a regular expression.
- PostProcessing.SortByStart: the sort is stable, whereas pandas' default sort is not. Labels do not depend on the order (`PostProcessing.LabelsIgnoreOrder`).
- PostProcessing.LabelSlice: the frame's index is taken to be sorted, so `.loc` slicing is the inclusive range.
- PostProcessing.Intervals requires `every > 0`. With `every <= 0` and a first interval that fits, the source loops forever.
- PlotParams.ExtractParam requires a non-empty parameter, because `str.split('')` raises.
- StepLoad.Tick and StepLoad.CurrentStep require a non-zero step time: a zero step time is a division by zero in the source. Negative step times are modelled (`StepLoad.NegativeStepTime`).
- Host.MetricsMemoryManager.constructor requires the pool size to be a multiple of the MR size. Otherwise the source fails with an IndexError part-way through `_create_new_page`, after some tables have changed.
- rdma/rdma_microview_host.py's `MemoryRegionManager` is the same code as `MemoryRegionPool` in rdma/helpers.py and is modelled once, as `RdmaHelpers.MemoryRegionPool`.
- web_users/main.go's `generateObjectID` is the same code as sockshop.go's and is modelled once, as `Sockshop.GenerateObjectId`.
- WorkloadGen and WebUsers each have their own ErrorCount, StatLines and Engine.PrintStats. The two Go programs declare different Stat records: web_users/main.go:121-126 adds the request, and request_loop.go:71-75 does not. They write different CSV lines and each carries its own report code, so each program's report is modelled in its own module.
- The web-users engine calls each generator with `(isOriginal, userState)`, but the registry's functions take a single bool. That call does not type-check in Go. The model passes the bool only.
- Metric names are decoded as raw bytes: the UTF-8 decoding of names is not modelled.
- Metrics.MetricsPage.ValueFieldRelativeAddr, Metrics.MetricsPage.AddMetric, Metrics.ValueAddrHoldsValue, Host.ValueInSlot, Host.WriteStep, Host.MetricsMemoryManager.WriteMetric, Host.MetricsMemoryManager.StoreMetric and Host.MetricsMemoryManager.AllocateMetric hand out and reason about the corrected value address of Finding 1 (page offset + index * 64 + 56). The source returns index * 64 + 56 for every page; that address is `Metrics.ValueFieldRelativeAddrAsWritten`.
- Metrics.DecodeRecord reads any non-zero type byte as a gauge. The host only writes 0 or 1. For any other byte, `collect` (LMAP.py:183-197) would reuse the previous metric family, or stop on an UnboundLocalError and return the families built so far; neither is modelled.
- Chaos injector: writing the YAML to a temporary file, `time.sleep`, the exit when Chaos Mesh is not installed and the KeyError on a malformed event are not modelled. `list_active_experiments` only logs the table and is not modelled.
- DataCollection: `stream_traces` file, gzip and prompt I/O is not modelled; `head_sampling` draws at random and is not part of this model. The `save_*_info` files are not modelled either.
- PostProcessing.PeriodicAnomaly: writing the intervals to a file is not modelled.
- Logging is not modelled anywhere.

## Findings

| source | as written | input that shows it | evidently intended | confidence | as-written member | corrected member |
|---|---|---|---|---|---|---|
| metrics.py:40, 50-63 | `page_offset` is set to 0 and never updated, so the value address of a record leaves out where its page sits in the segment | the host's second page (segment offset 4096, 64 records): record 0 gets address 56, inside page 0's first record | the address is the page's segment offset plus index * 64 + 56 | not executed | Metrics.ValueFieldRelativeAddrAsWritten, Metrics.AsWrittenAddressOutsidePage | Metrics.MetricsPage.ValueFieldRelativeAddr, Metrics.ValueAddrHoldsValue |
| usecases/observability/datacollection/utils.py:20-31, 38-40 | with a duration and a start but no end, the end the start gave is reset to None | start = some date, end = None, duration = 10: "Invalid time frame" and exit | keep end = start + duration when no end is given | not executed | DataCollection.ParseTimeframeAsWritten, DataCollection.StartAndDurationRefused | DataCollection.ParseTimeframe, DataCollection.StartAndDurationAccepted |
| LMAP.py:67-75, 150-156 | a pod's classifier is built with the metric count of the pod's last page entry only, but the vector it is given joins all of the pod's pages | a pod with two pages of 3 and 2 metrics: classifier for 2 metrics, vector of 5 values | one classifier per pod, sized with the sum over its entries | not executed | Lmap.AsWrittenDimensionMismatch | Lmap.InstallTotalsAt, Lmap.CorrectedDimension |
| usecases/blueprint/examples/dsb_hotel/workload/workloadgen/request_loop.go:238, 251-256 | a pool worker checks `curReqs < max_reqs` before its request and increments the counter only after the request returns | max_reqs = 1 with 2 threads: both workers pass the check before either completes, and 2 requests are issued | reserve the request (an atomic add checked against the limit) before issuing it | not executed | WorkloadGen.CounterOvershoots, WorkloadGen.OvershootKept | WorkloadGen.LimitKept, WorkloadGen.ReserveRefusesOnlyAtLimit |

`Lmap.Lmap.SetClassifier` keeps the table as the source builds it (`Lmap.Install`), because classification itself is not part of this model. The corrected table is `Lmap.InstallTotals`.
