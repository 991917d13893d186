# Verified model of the v4 dataset-governance scripts

The repository decides which images may train a material classifier. Its scripts audit candidate images for
leakage, draw a balanced pilot selection, publish evidence files that must never overwrite or be confused with
somebody else's, and cut large collections by deterministic rules. This project models the logic of those
scripts in Dafny and proves what they are for.

* **Near-duplicate leakage.** `PerceptualHash` and `NearPairs` show that the pigeonhole buckets find every pair of
  64-bit signatures within the radius. `UnionFind` is the in-place path-halving forest. `EdgeMaps`,
  `GraphBuilders`, `Clusters` and `GraphEvidence` rebuild the auditor's and the re-deriver's graph over different
  node orders; `Agreement` and `Conservation` compare and count them. `AuditReport`, `AcceptanceRule`, `Validator` and
  `RoundTrip` carry the result to the top: whatever edges and clusters a report supplies, it is accepted only if no two roles
  share a source, an image or a near image, and an honest report is accepted exactly then.
* **Pilot allocation.** `PilotSources` is the in-place quarantine, exclusion and history passes. `Allocation` and
  `Feasibility` are the quota allocator: it fills every quota whenever any disjoint assignment could, and probes never
  starve a material. `AllocationOrder` and `AllocationRule` say who is chosen, in the records' own terms. `Selection` is
  the nested loops, `SelectionRule` what their rows and counters say, `SelectionChecker` the independent re-check that
  every selection passes.
* **Publication.** `FileSystem` is a small inode model with reusable inode numbers. `PilotPublication`,
  `AuditPublication` and `SealLast` are step systems: a run is any sequence of program steps, refused operations
  and environment steps, so every prefix is a crash point.
* **Orders and partitions.** `Bursts` and `Lineage` (single-linkage bursts), `BundleRows` (candidate row
  selection), `LibraryLinks` (symlink chains), `TopRows` (bounded heaps), `Strides` (stride sample, complement,
  streaming form), `QueuePartition` and `QueueAssembly` (producer of the teacher queue's report and the assembler that
  checks it). `LibraryInventory` is the whole inventory of link trees, `AuditInputs` carries the selected rows over to
  the audit. `Order` holds the sorting and sequence lemmas, `Wrappers` the option, result and digest types.

Conventions: a SHA-256 digest in hexadecimal is a number, since lower-case hexadecimal of one length sorts
numerically; paths, reason names and other strings that are only compared are ranks in string order. The hash is a
function parameter, injective where a theorem needs it; scores, signatures, quality verdicts, file contents and the
outcome of each file operation are parameters. Preconditions are what the callers establish: quotas are positive
(`scripts/build_v4_repro_pilot_inputs.py:1069-1070`), so is the number of rows kept per group
(`scripts/audit_aihub_original_annotations.py:250`), inventory paths are non-empty, and the members of a stream are
keyed by their digest.

Where the code and its comments differ, the model follows the code:

* `_stride_sample` is documented to return everything for a cap of zero or less; for a negative cap it returns
  nothing (`scripts/convert_v2.py:171-176`), and the remainder then returns everything. `NegativeCapTakesNothing` is
  such a call, and `SampleIsAllExactlyWhen` says when the sample is everything.
* The two graph builders list edges in different orders on some graphs: the lists are equal exactly when the auditor's
  visiting order keeps the asset-id order over the edges (`ListsAgreeExactlyWhen`, `RunBoth`), which is always so when no
  edge blocks. `BlockedSample.BlockedOrdersDiffer` runs both on an honest data set where they differ. A blocked report is
  refused either way.
* A raise can leave ready present without a failure marker. `RaiseExposesExactlyWhen` says when, for every environment:
  it was so as the revocation was decided, and the revocation did not go through. `RevokedExactlyWhen` says when it does.
  `_publish_failure` looks for an existing `failed.txt` outside its `try`, and the caller revokes only after it
  (`scripts/build_v4_repro_pilot_inputs.py:227-240,1519-1528`), so a look refused with an error skips the revocation:
  `RefusedProbeLeavesReady`. The ownership check answers no when the retained link is gone or cannot be examined
  (`scripts/build_v4_repro_pilot_inputs.py:187-206`), so the revocation is declined although ready is still ours:
  `LostLinkLeavesReady`. And it may be refused together with the marker: `BothRefusalsLeaveReady`.
* `_atomic_no_overwrite` compares inode numbers after its temporary link is gone
  (`scripts/audit_v4_near_duplicate_leakage.py:1399-1424`); `LateCleanupCanRemoveForeign` gives the run in which a
  reused number makes the clean-up remove somebody else's file. With the private name left alone this is the one case
  (`ForeignTouchedExactlyWhen`); when it is not, the drops of the temporary, which go by name, can hit a foreign file too
  (`HarmsExactlyWhen`).
* A symlink whose chain leaves the inventory after its first target ends the walk with a lookup error rather than
  the inventory's own message (`scripts/build_v4_candidate_training_authority.py:2104-2110`). `CheckLink` tells the
  two apart and `LaterBreakFailsLookup` is such a tree.
* The assembler refuses some reports of the teacher queue's own producer. `ProduceAndAssemble` says exactly which inputs
  of its report, quality and output checks pass. Repeated digests never do (`RepeatIsRefused`), nor does an accepted source
  whose label spells the input digest in upper case or names another image (`BindingDecides`), nor an unusable source
  against which something else speaks as well (`OneReasonDecides`).

## Model

| member | source | states |
|---|---|---|
| PerceptualHash.BucketKeys | scripts/audit_v4_near_duplicate_leakage.py:882-893 | the widths list and running offset give the specified key of every block, for any threshold 0..7 |
| PerceptualHash.BlocksCoverHash | scripts/audit_v4_near_duplicate_leakage.py:882-893 | the t+1 blocks end at bit 64 and none is empty |
| PerceptualHash.DistanceSplits | scripts/audit_v4_near_duplicate_leakage.py:890-892 | Hamming distance is the distance of the low bits plus that of the rest, at any cut |
| PerceptualHash.DistanceIsDifferingDigits | scripts/audit_v4_near_duplicate_leakage.py:896-897 | the distance of two hashes is the number of the 64 positions at which their binary digits differ |
| PerceptualHash.PigeonholeKey | scripts/audit_v4_near_duplicate_leakage.py:882-893 | two hashes at most t bits apart share one of their t+1 bucket keys, so bucketing is lossless |
| PerceptualHash.SignatureDistanceIsLeast | scripts/audit_v4_near_duplicate_leakage.py:896-897 | the signature distance is the distance of some pair of hashes, and no pair is closer |
| PerceptualHash.SignatureDistanceCounts | scripts/audit_v4_near_duplicate_leakage.py:896-897 | it is the fewest binary digits in which a hash of one signature differs from a hash of the other |
| PerceptualHash.DistanceOfSets | scripts/audit_v4_near_duplicate_leakage.py:896-897 | the distance depends only on which hashes occur, so deduplicating one side is harmless |
| PerceptualHash.SignatureDistanceSymmetric | scripts/audit_v4_near_duplicate_leakage.py:896-897 | the signature distance is symmetric |
| NearPairs.Search | scripts/audit_v4_near_duplicate_leakage.py:900-926 | the bucket search lists the pairs of the brute-force comparison in its order: exactly those of which two hashes differ in at most the threshold's number of binary digits, with the fewest such digits; it fails where that comparison first meets an invalid signature or exceeds the pair cap |
| NearPairs.ScanRow | scripts/audit_v4_near_duplicate_leakage.py:909-922 | one row of the search: pairs of the current signature with every earlier one within the radius, in order, or the cap error |
| NearPairs.CollectCandidates | scripts/audit_v4_near_duplicate_leakage.py:909-912 | the candidates are exactly the earlier indexes posted under one of the signature's keys |
| NearPairs.PostKeys | scripts/audit_v4_near_duplicate_leakage.py:923-925 | after posting, a bucket holds what it held plus the current index under each of its keys |
| NearPairs.CandidatesAreComplete | scripts/audit_v4_near_duplicate_leakage.py:905-925 | every earlier signature within the radius is among the candidates |
| NearPairs.NearSharesKey | scripts/audit_v4_near_duplicate_leakage.py:900-925 | two signatures within the radius share a bucket key |
| NearPairs.BruteRowSpec | scripts/audit_v4_near_duplicate_leakage.py:913-916 | a brute-force row lists exactly the earlier signatures within the threshold, each once, with the true distance |
| NearPairs.BrutePairsSpec | scripts/audit_v4_near_duplicate_leakage.py:900-926 | the brute-force list holds each pair i<j within the threshold exactly once, in (j, i) order |
| UnionFind.UnionFind.Find | scripts/audit_v4_near_duplicate_leakage.py:933-937 | find terminates, returns the root, keeps every root and keeps parent[i] <= i although it halves paths in place |
| UnionFind.UnionFind.Union | scripts/audit_v4_near_duplicate_leakage.py:939-944 | union merges exactly the two classes, under the smaller root |
| UnionFind.HalvingKeepsRoot | scripts/audit_v4_near_duplicate_leakage.py:934-936 | pointing a node at its grandparent changes no root |
| UnionFind.LinkMovesOneRoot | scripts/audit_v4_near_duplicate_leakage.py:943-944 | linking the higher root below the lower one moves exactly the higher root's class |
| UnionFind.UniteAll | scripts/audit_v4_near_duplicate_leakage.py:986-988 | after all unions the stored roots are the reference labels of the link list |
| UnionFind.LabelIsConnected | scripts/audit_v4_near_duplicate_leakage.py:986-988 | each node is connected to its label, and the label is never larger |
| UnionFind.LabelsAreComponents | scripts/audit_v4_near_duplicate_leakage.py:986-1013 | two nodes carry the same label exactly when edges connect them, and the label is the least index of the component |
| Graph.NearIsWithin | scripts/audit_v4_near_duplicate_leakage.py:896-916 | near by signature distance means some two hashes are within the radius |
| Graph.WithinIsFourDigits | scripts/audit_v4_near_duplicate_leakage.py:896-916 | that is, some two hashes differ in at most four of their 64 binary digits |
| Graph.NearSymmetric | scripts/audit_v4_near_duplicate_leakage.py:947-1009 | edge relation, edge facts and the rendered edge do not depend on which end comes first |
| Graph.SameComponent | scripts/audit_v4_near_duplicate_leakage.py:1011-1013 | connected entries have the same component and conversely |
| Graph.ComponentsShareNoImage | scripts/audit_v4_near_duplicate_leakage.py:967-984 | different components share no image digest |
| Graph.ClusterIdsDistinct | scripts/audit_v4_near_duplicate_leakage.py:1020-1029 | different components get different cluster ids although the id hashes image digests only |
| Graph.ClusterListUnique | scripts/audit_v4_near_duplicate_leakage.py:1018-1041 | the sorted cluster list of a graph is unique |
| EdgeMaps.JoinEqual | scripts/audit_v4_near_duplicate_leakage.py:966-984 | joining equal digests marks exactly the pairs with equal digests, with cap check and distance rule |
| EdgeMaps.JoinIdentities | scripts/audit_v4_near_duplicate_leakage.py:961-984 | both identity joins over a near-edge map give the full edge map, or fail exactly when it exceeds the cap |
| EdgeMaps.GroupByDigest | scripts/audit_v4_near_duplicate_leakage.py:961-965 | groups hold exactly the indexes of each digest in order, digests in order of first appearance |
| EdgeMaps.MarkAllSpec | scripts/audit_v4_near_duplicate_leakage.py:970-984 | what a sequence of marks leaves on one pair, independent of repetition and order |
| EdgeMaps.RecordAllSpec | scripts/audit_v4_near_duplicate_leakage.py:953-959 | what recording the near pairs leaves on one pair |
| EdgeMaps.NearAt | scripts/audit_v4_near_duplicate_leakage.py:953-959 | the near map holds a pair exactly when the two entries are within the radius, with their distance |
| EdgeMaps.JoinsGiveAllEdges | scripts/audit_v4_near_duplicate_leakage.py:953-984 | near pairs followed by both joins are the complete edge relation with the right evidence and distance |
| GraphBuilders.AuditorEdges | scripts/audit_v4_near_duplicate_leakage.py:947-984 | the auditor's edge map is all edges of the entries, failing exactly when there are more than the cap |
| GraphBuilders.RederiveEdges | scripts/build_v4_candidate_training_authority.py:1191-1240 | the re-deriver's edge map, with its cap check inside the search loop, is the same and fails for the same entries |
| GraphEvidence.RenderEdges | scripts/audit_v4_near_duplicate_leakage.py:990-1009 | one edge per listed key, in the order of the keys, ends oriented by asset id, with that key's evidence and distance |
| GraphEvidence.RenderSorted | scripts/audit_v4_near_duplicate_leakage.py:990-1009 | whatever order the dict is listed in, the rendered list is the sorted one |
| GraphEvidence.RenderedIsListing | scripts/audit_v4_near_duplicate_leakage.py:990-1009 | the rendered edges are exactly the graph's edges, each once |
| GraphEvidence.EdgeTotal | scripts/audit_v4_near_duplicate_leakage.py:949-984 | there are as many edge keys as undirected edges |
| GraphEvidence.Render | scripts/audit_v4_near_duplicate_leakage.py:986-1041 | edges and clusters rendered from a full edge map are the evidence of the graph |
| GraphEvidence.CapIsOrderFree | scripts/audit_v4_near_duplicate_leakage.py:977-980 | the number compared with the cap does not depend on the visiting order |
| GraphEvidence.AuditorEvidence | scripts/audit_v4_near_duplicate_leakage.py:947-1041 | the auditor returns the graph's edges and clusters, or fails exactly above the cap |
| GraphEvidence.ReconstructEvidence | scripts/build_v4_candidate_training_authority.py:1180-1320 | the re-deriver returns the graph's edges and clusters over its own asset-id order, or fails exactly above the cap |
| GraphEvidence.ReorderedEntries | scripts/build_v4_candidate_training_authority.py:1191-1195 | sorting the entries by asset id changes neither the node set nor the hypotheses |
| Clusters.LabelsAreConnectivity | scripts/audit_v4_near_duplicate_leakage.py:986-1013 | equal union-find labels mean connected entries |
| Clusters.LabelsPartition | scripts/audit_v4_near_duplicate_leakage.py:1011-1013 | the labels partition the entries by connectivity and every label labels itself |
| Clusters.FindAll | scripts/audit_v4_near_duplicate_leakage.py:1011-1013 | reading all roots while paths are halved returns the roots and keeps them |
| Clusters.CountEdges | scripts/audit_v4_near_duplicate_leakage.py:1014-1016 | the per-root counter holds the number of edges whose left end has that root |
| Clusters.CountIsEdgesWithin | scripts/audit_v4_near_duplicate_leakage.py:1014-1016 | that number is the number of edges inside the component |
| Clusters.ClustersInRootOrder | scripts/audit_v4_near_duplicate_leakage.py:1018-1040 | one cluster per root, in the order the roots first appear |
| Clusters.RootListing | scripts/audit_v4_near_duplicate_leakage.py:1018-1040 | one cluster per root lists each entry's cluster, with pairwise different ids |
| Clusters.BuildClusters | scripts/audit_v4_near_duplicate_leakage.py:986-1041 | the imperative tail returns the unique id-sorted cluster list of the graph |
| Agreement.OutcomesAgree | scripts/build_v4_candidate_training_authority.py:1180-1320 | auditor and re-deriver fail together, have the same clusters and the same set of edges |
| Agreement.VisitDistinct | scripts/audit_v4_near_duplicate_leakage.py:1111-1134 | the auditor's visiting order has distinct asset ids and visits exactly the candidates and protected entries |
| Agreement.IdOrderRendersById | scripts/build_v4_candidate_training_authority.py:1191-1281 | visiting in asset-id order renders the edges sorted by their ids |
| Agreement.UnblockedRendersById | scripts/audit_v4_near_duplicate_leakage.py:990-1009 | without a cross-role edge the auditor's two-part visiting order renders the same sorted list |
| Agreement.UnblockedListsAgree | scripts/build_v4_candidate_training_authority.py:1259-1281 | in particular, with no blocking edge they are always equal |
| Agreement.ListsAgreeExactlyWhen | scripts/build_v4_candidate_training_authority.py:1259-1281 | the two edge lists are equal as sequences exactly when, over the edges, the auditor's visiting order agrees with asset-id order |
| Agreement.RunBoth | scripts/build_v4_candidate_training_authority.py:1180-1320 | both graph builders on one data set: they fail together, return the same clusters and edges, and list the edges alike exactly when visiting keeps the id order |
| BlockedSample.SampleIsHonest | scripts/audit_v4_near_duplicate_leakage.py:1063-1211 | six views of a training, a validation and a protected picture satisfy every input and record check, whatever their digests |
| BlockedSample.BlockedOrdersDiffer | scripts/audit_v4_near_duplicate_leakage.py:1114-1133 | on that data set the auditor's evidence is blocked and both builders return the same edges in different orders |
| Agreement.BlockingEquivalence | scripts/audit_v4_near_duplicate_leakage.py:1007-1039 | some cluster spans several roles exactly when some edge joins two roles |
| Agreement.UnblockedMeansNoLeak | scripts/audit_v4_near_duplicate_leakage.py:1007-1166 | no blocking edge exactly when no two entries of different roles share source, image or a near signature; over 64-bit hashes, exactly when every two of their hashes differ in more than four binary digits |
| Agreement.NoLeakIsUnlike | scripts/audit_v4_near_duplicate_leakage.py:896-1009 | leakage said of digests and binary digits alone |
| Conservation.ClusterConservation | scripts/audit_v4_near_duplicate_leakage.py:1011-1040 | member counts sum to the entries, edge counts to the edges, and clusters plus edges are at least the entries |
| Conservation.ClusterEdgeBounds | scripts/audit_v4_near_duplicate_leakage.py:1036-1140 | a k-member cluster has between k-1 and k(k-1)/2 edges, and none exactly when it is a singleton |
| Conservation.ClustersPartition | scripts/audit_v4_near_duplicate_leakage.py:1011-1040 | every entry is in exactly one cluster |
| Conservation.PairsAmongFormula | scripts/audit_v4_near_duplicate_leakage.py:1014-1016 | twice the pairs among k members is k(k-1) |
| Conservation.ClassNeedsEdges | scripts/audit_v4_near_duplicate_leakage.py:986-1016 | a class of k united nodes uses at least k-1 links |
| Conservation.ListingSize | scripts/audit_v4_near_duplicate_leakage.py:990-1009 | an edge list has as many edges as the graph |
| AcceptanceRule.EntryOkExactly | scripts/build_v4_candidate_training_authority.py:1574-1655 | an entry passes exactly when it is a candidate outside the protected sources or a reserved entry among them, of its cohort, with known view, derived id, sizes within the caps and four 64-bit hashes |
| AcceptanceRule.CountersSay | scripts/build_v4_candidate_training_authority.py:1656-1668 | the view counters pass exactly when every candidate source has one source view and one crop view, half the candidate assets of them, and every protected source likewise and no other |
| AcceptanceRule.MatchExactly | scripts/build_v4_candidate_training_authority.py:1669-1681 | entries match the inputs exactly when every row has its source and crop view, every object its view, and every entry its row or object, sample ids spelled out |
| AcceptanceRule.HexAt | scripts/build_v4_candidate_training_authority.py:1517-1562 | the hexadecimal digits that sample ids are made of |
| Validator.Validate | scripts/build_v4_candidate_training_authority.py:1323-1825 | the validator accepts exactly the reports that satisfy the acceptance predicate, which is said once more in the report's own fields: header, entries, views, rows, objects, payload digests, graph and summary, whatever edges and clusters the report supplies |
| Validator.CheckInputs | scripts/build_v4_candidate_training_authority.py:1497-1562 | the manifest-row and inventory loops build exactly the expected entry sets and refuse duplicates |
| Validator.CheckEntries | scripts/build_v4_candidate_training_authority.py:1564-1659 | the entry loop accepts exactly well-formed entries with distinct derived ids and tallies the views |
| Validator.CheckIdentities | scripts/build_v4_candidate_training_authority.py:1660-1681 | the coverage and identity comparisons accept exactly entries that match the inputs, one view each, in order |
| Validator.CheckGraph | scripts/build_v4_candidate_training_authority.py:1682-1825 | edges and clusters are accepted exactly when they equal the rebuilt graph, nothing blocks and the summary agrees |
| Validator.CheckEdges | scripts/build_v4_candidate_training_authority.py:1726-1763 | the per-edge loop accepts exactly unrepeated, non-blocking edges between known entries of one role, ends in order, evidence named in order, distance at most four |
| Validator.EdgeChecksAreBlocking | scripts/build_v4_candidate_training_authority.py:1726-1763 | on a rebuilt graph the per-edge loop fails exactly when an edge blocks |
| Validator.CheckClusters | scripts/build_v4_candidate_training_authority.py:1764-1825 | the cluster loop accepts exactly clusters whose members are known, in order and in no cluster before, and whose lists and id are those of the members; it returns the ids covered and the numbers of spanning and of quiet duplicate clusters |
| Validator.FineClustersScan | scripts/build_v4_candidate_training_authority.py:1764-1825 | on a rebuilt graph the cluster loop finds every entry covered and the true counts |
| Validator.RebuiltIsGraph | scripts/build_v4_candidate_training_authority.py:1682-1688 | equality with the rebuilt lists means the report's edges and clusters are the graph of its entries |
| Validator.AcceptedMeansNoLeak | scripts/build_v4_candidate_training_authority.py:1323-1825 | in an accepted report any two entries of different roles differ in source and image digest, and every hash of one in more than four binary digits from every hash of the other |
| Validator.AcceptedCoversRows | scripts/build_v4_candidate_training_authority.py:1669-1675 | every manifest row appears in an accepted report as a source view and as a crop view |
| Validator.AcceptedEntriesAreRows | scripts/build_v4_candidate_training_authority.py:1669-1675 | every candidate entry of an accepted report is a manifest row of its own role |
| Validator.AcceptedRowsAreSeparated | scripts/build_v4_candidate_training_authority.py:1323-1825 | train and validation rows behind an accepted report share no source or image and none is protected |
| RoundTrip.HonestReportAcceptedIffNoLeak | scripts/audit_v4_near_duplicate_leakage.py:1063-1211 | the auditor's report on honest records is accepted exactly when nothing leaks, said of digests and binary digits |
| RoundTrip.BuildReport | scripts/audit_v4_near_duplicate_leakage.py:1063-1211 | the report built from the auditor's evidence, failing exactly above the edge cap; blocked exactly when some cluster blocks, with the numbers of edges, clusters and clusters of either kind |
| RoundTrip.AuditAndValidate | scripts/build_v4_candidate_training_authority.py:1323-1825 | auditing then validating accepts exactly the data sets within the edge cap that are free of leakage |
| PilotSources.QuarantineDuplicates | scripts/build_v4_repro_pilot_inputs.py:483-506 | the in-place grouping loop leaves every record as the per-record quarantine rule says |
| PilotSources.QuarantineGroup | scripts/build_v4_repro_pilot_inputs.py:488-506 | one group of equal bytes: cross-split, conflicting-label, or copies other than the canonical one |
| PilotSources.QuarantineLeavesUniqueBytes | scripts/build_v4_repro_pilot_inputs.py:483-506 | after quarantine no two eligible records have the same bytes |
| PilotSources.QuarantineKeepsOneCopy | scripts/build_v4_repro_pilot_inputs.py:493-506 | bytes within one split and with one label keep exactly the copy with the smallest path |
| PilotSources.ApplyQualityExclusions | scripts/build_v4_repro_pilot_inputs.py:376-395 | fails exactly when an excluded digest is unknown, else adds the reason to every copy and returns the number of digests |
| PilotSources.HistoryAnnotates | scripts/build_v4_repro_pilot_inputs.py:658-664 | a category is recorded exactly when the history holds it for the record's digest and split; the anchor flag exactly when it holds any for that split and the digest is an anchor |
| PilotSources.ApplyHistory | scripts/build_v4_repro_pilot_inputs.py:651-664 | every record is left with the categories of its own digest and split and the anchor flag, and nothing else changes |
| PilotSources.PrepareSources | scripts/build_v4_repro_pilot_inputs.py:1115-1199 | the three passes in order: every record ends up with exactly the reasons its copies and the exclusions give it, its own split's categories and the anchor flag |
| PilotSources.PreparedIs | scripts/build_v4_repro_pilot_inputs.py:483-664 | those reasons said of the scan: which copies make a source a cross-split, conflicting or redundant one |
| PilotSources.PreparedIsClean | scripts/build_v4_repro_pilot_inputs.py:376-664 | two eligible prepared records have different bytes and neither is excluded |
| Allocation.TakeSafeSpec | scripts/build_v4_repro_pilot_inputs.py:752-766 | the probe walk stays within limit and surplus, takes only pool members and counts them per material |
| Allocation.TakeSafeGreedy | scripts/build_v4_repro_pilot_inputs.py:752-766 | a walk that falls short has, for each material, used its surplus or taken all its probes |
| AllocationRule.WalkRule | scripts/build_v4_repro_pilot_inputs.py:752-766 | the probe walk keeps the pool's order and passes over a probe only when the limit is reached or its material's surplus is used up, and then nothing chosen for it came later |
| AllocationRule.BackgroundFollowsRule | scripts/build_v4_repro_pilot_inputs.py:722-788 | the background in the records' own terms: the first empties up to the quota, then a walk over the anchors among the probes for at most max(1, quota // 5) or what is left, then a walk over the other probes; whoever is passed over lost to the limit or to the surplus |
| AllocationRule.MaterialFollowsRule | scripts/build_v4_repro_pilot_inputs.py:789-829 | a material in the records' own terms: the first min(max(1, quota // 5), quota, number of anchors) anchors, then the first of the rest up to the quota, sources seen before ahead of the others, each by score, digest and path |
| Feasibility.CandidatesLeft | scripts/build_v4_repro_pilot_inputs.py:742-766 | after the reservation each material still has its quota, or everything it had |
| Feasibility.MaterialShortage | scripts/build_v4_repro_pilot_inputs.py:742-830 | a material's shortage is max(0, quota - available) whatever the probes took |
| Feasibility.ChosenAssigns | scripts/build_v4_repro_pilot_inputs.py:707-831 | the chosen lists are disjoint and each source is usable for its stratum |
| Feasibility.BackgroundIsMaximal | scripts/build_v4_repro_pilot_inputs.py:742-788 | no assignment that gives every material its share fills more of the background quota |
| Feasibility.AllocatorIsComplete | scripts/build_v4_repro_pilot_inputs.py:701-831 | all shortages are zero exactly when some disjoint assignment fills every quota |
| AllocationOrder.PriorityPrefersScore | scripts/build_v4_repro_pilot_inputs.py:793-800 | an anchor given priority scores no later than one that was not |
| AllocationOrder.RemainderPrefersScore | scripts/build_v4_repro_pilot_inputs.py:802-828 | within the observed and within the unseen tier a chosen source scores no later than one left out |
| AllocationOrder.EmptiesPreferScore | scripts/build_v4_repro_pilot_inputs.py:730-738 | explicit empties are taken in score order |
| AllocationOrder.ProbesPreferScore | scripts/build_v4_repro_pilot_inputs.py:780-788 | of two probes with the same current material the one left out scores no earlier |
| Selection.FillPools | scripts/build_v4_repro_pilot_inputs.py:680-694 | the bucketing loop fails exactly on an eligible record without a valid stratum, else fills every pool in scan order |
| Selection.TakeSafeProbes | scripts/build_v4_repro_pilot_inputs.py:752-766 | the probe loop computes the specified walk |
| Selection.EmitRows | scripts/build_v4_repro_pilot_inputs.py:832-891 | the row loop yields the specified rows or the first error |
| Selection.ReservedStaysOk | scripts/build_v4_repro_pilot_inputs.py:707-716 | the growing reservation set removes from a later stratum only what the background took |
| SelectionRule.PlanFollowsRule | scripts/build_v4_repro_pilot_inputs.py:701-831 | every stratum of a split is chosen by its rule, materials without the background's sources |
| SelectionRule.RowsOfSay | scripts/build_v4_repro_pilot_inputs.py:832-891 | row k of a stratum says what its kth source says: rank, score, label, cohort, ground truth and the one reason that applies; no row exactly when some source is faulty |
| SelectionRule.SucceedsExactlyWhen | scripts/build_v4_repro_pilot_inputs.py:680-854 | selection succeeds exactly when every eligible record has a valid stratum and no chosen source lacks what its row needs |
| SelectionRule.SelectionRows | scripts/build_v4_repro_pilot_inputs.py:667-906 | the nested loops give exactly one row for every place of both splits' plans, ordered by split, stratum and rank, and the counters of what each stratum could use, took and lacked |
| SelectionChecker.RowsDescribeChoice | scripts/build_v4_repro_pilot_inputs.py:832-891 | row k is about the kth chosen source, with its rank, score, label and ground truth |
| SelectionChecker.SelectionIsOrdered | scripts/build_v4_repro_pilot_inputs.py:892-899 | rows come out by split, stratum, rank and path |
| SelectionChecker.VerifySelectedSemantics | scripts/build_v4_repro_pilot_inputs.py:996-1051 | the re-check accepts exactly rows with unique paths and digests that each satisfy the row rules |
| SelectionChecker.SelectionMeetsChecker | scripts/build_v4_repro_pilot_inputs.py:667-1051 | from well-scanned records every selection succeeds and passes the re-check |
| SelectionChecker.BuildSelection | scripts/build_v4_repro_pilot_inputs.py:1115-1219 | prepare, select, refuse, re-check: built exactly when both splits are feasible, the rows then follow the rules of the choice without a shortage, and the re-check never fails |
| FileSystem.PinnedStaysOurs | scripts/build_v4_repro_pilot_inputs.py:176-179 | a named inode stays ours under any environment step that leaves the name alone |
| FileSystem.NamesAfter | scripts/build_v4_repro_pilot_inputs.py:154-224 | what creating, writing, unlinking, linking and renaming do to any one name |
| FileSystem.FileAfter | scripts/build_v4_repro_pilot_inputs.py:154-224 | and to any one file: only its creation or a write through one of its names changes it |
| FileSystem.RemovesExactly | scripts/build_v4_repro_pilot_inputs.py:1519-1528 | an operation takes a name away for good exactly when it unlinks it or renames it to another |
| PilotPublication.RunKeeps | scripts/build_v4_repro_pilot_inputs.py:154-240 | for every environment, every run, cut anywhere, keeps what the two checks confirmed, how the revocation was decided, and what that left exposed |
| PilotPublication.RunKeepsPins | scripts/build_v4_repro_pilot_inputs.py:154-224 | with the private names left alone, every run keeps them leading to files of the program's, and a declined revocation means that ready was not ours |
| PilotPublication.HarmsExactlyWhen | scripts/build_v4_repro_pilot_inputs.py:154-224 | for every environment, a program step overwrites or removes a foreign file exactly when it goes through with an unlink whose name then leads to one, the clean-up after a failed write included |
| PilotPublication.NothingForeignIsTouched | scripts/build_v4_repro_pilot_inputs.py:154-224 | with the private names left alone no program step of any run overwrites or removes a file the program did not write |
| PilotPublication.ReturnMeansPublished | scripts/build_v4_repro_pilot_inputs.py:1507-1518 | for every environment, a normal return follows a check that the retained link and ready name the written inode and one that ready reads the written bytes, and what they saw of ready still holds if nothing interfered |
| PilotPublication.RaiseExposesExactlyWhen | scripts/build_v4_repro_pilot_inputs.py:1519-1528 | for every environment, after an undisturbed raise ready is ours and unmarked exactly when it was as the revocation was decided and the revocation did not go through |
| PilotPublication.RevokedExactlyWhen | scripts/build_v4_repro_pilot_inputs.py:187-240 | the revocation goes through exactly when it is reached, not refused, and both the retained link and ready still name the written inode; it is skipped exactly when the look for a failure marker is refused |
| PilotPublication.RaiseMeansNotReady | scripts/build_v4_repro_pilot_inputs.py:1519-1528 | after a raise the failure marker is present, or its write failed and the revocation went through, or was declined, overlooked, refused, skipped or unneeded |
| PilotPublication.PrivateRaiseExposesExactlyWhen | scripts/build_v4_repro_pilot_inputs.py:1519-1528 | with the private names left alone a declined revocation exposes nothing, so only a skipped, overlooked or refused one can |
| PilotPublication.CleanRunReturns | scripts/build_v4_repro_pilot_inputs.py:1507-1518 | left alone, the protocol publishes and leaves only the ready name behind |
| PilotPublication.RefusedStep | scripts/build_v4_repro_pilot_inputs.py:154-240 | a refused operation changes no file, publishing never goes on after it, and an ended run stays ended |
| PilotPublication.OverlookedStep | scripts/build_v4_repro_pilot_inputs.py:187-240 | a name that cannot be examined sends the failure path on without a marker, or gives the revocation up, and does nothing else |
| PilotPublication.DistinctIsFour | scripts/build_v4_repro_pilot_inputs.py:154-240 | the plan's names are four different ones |
| PilotPublication.BothRefusalsLeaveReady | scripts/build_v4_repro_pilot_inputs.py:1519-1528 | a concrete run in which refusing both the marker's creation and the revocation leaves ready present and failed absent |
| PilotPublication.RefusedProbeLeavesReady | scripts/build_v4_repro_pilot_inputs.py:227-240 | a concrete run in which the refused look for the marker alone leaves ready present and failed absent, with no revocation attempted |
| PilotPublication.LostLinkLeavesReady | scripts/build_v4_repro_pilot_inputs.py:187-206 | a concrete run in which the environment takes the retained link away and the ownership check therefore declines to revoke a ready that is still ours |
| PilotPublication.PrivateNameIsNeeded | scripts/build_v4_repro_pilot_inputs.py:176-224 | a concrete run in which tampering with the private link lets a reused inode number be removed |
| AuditPublication.RunKeeps | scripts/audit_v4_near_duplicate_leakage.py:1327-1424 | for every environment, every run keeps what the inspection and the read-back confirmed and what the clean-up left |
| AuditPublication.RunKeepsPinned | scripts/audit_v4_near_duplicate_leakage.py:1327-1424 | with the private name left alone, the temporary leads to the program's own inode while it exists |
| AuditPublication.HarmsExactlyWhen | scripts/audit_v4_near_duplicate_leakage.py:1327-1424 | for every environment, a program step overwrites or removes a foreign file exactly when it goes through with an unlink whose name then leads to one, the clean-up after a failed write included |
| AuditPublication.ForeignTouchedExactlyWhen | scripts/audit_v4_near_duplicate_leakage.py:1387-1424 | with the private name left alone that is exactly the clean-up after a failed read-back, when the output carries our inode number on a foreign file |
| AuditPublication.NothingForeignIsTouched | scripts/audit_v4_near_duplicate_leakage.py:1327-1424 | in particular no program step touches a foreign file unless the inode number was reused |
| AuditPublication.LateCleanupCanRemoveForeign | scripts/audit_v4_near_duplicate_leakage.py:1399-1424 | a concrete run in which that clean-up removes a foreign file |
| AuditPublication.ReturnMeansPublished | scripts/audit_v4_near_duplicate_leakage.py:1374-1412 | for every environment, a normal return follows an inspection naming the verified inode and a read-back of the non-empty payload through its only link |
| AuditPublication.RaiseMeansRemoved | scripts/audit_v4_near_duplicate_leakage.py:1387-1424 | for every environment, after a raise the linked output is gone unless the clean-up was refused |
| AuditPublication.CleanRunReturns | scripts/audit_v4_near_duplicate_leakage.py:1327-1412 | left alone, the protocol returns and leaves only the output behind |
| AuditPublication.RefusedStep | scripts/audit_v4_near_duplicate_leakage.py:1327-1424 | a refused operation changes no file, leads to the clean-up its place demands, and never ends in a normal return |
| SealLast.RunProgresses | scripts/build_v4_candidate_training_authority.py:3619-3867 | every run keeps the record of which checks passed before and after publication |
| SealLast.SealImpliesRechecked | scripts/build_v4_candidate_training_authority.py:3619-3867 | at any crash point our seal exists only after a publication that replaced nothing, and every listed and every other row's file had its digest at a moment before it and at one after it |
| SealLast.ListedFilesWereChecked | scripts/build_v4_candidate_training_authority.py:3717-3825 | each listed file had its listed digest at a moment before publication and at one after it |
| SealLast.SealOnlyLists | scripts/build_v4_candidate_training_authority.py:3717-3867 | our seal never holds anything but a prefix of the listing of the checked rows |
| SealLast.ReturnMeansSealed | scripts/build_v4_candidate_training_authority.py:3863-3867 | an undisturbed return leaves the complete seal |
| SealLast.NothingIsReplaced | scripts/build_v4_candidate_training_authority.py:3619-3867 | no program step of any run changes a published directory's files, anything outside it, or a seal that is not the program's |
| SealLast.CleanRunSeals | scripts/build_v4_candidate_training_authority.py:3619-3867 | left alone, with every file as listed, the protocol publishes the staged files and writes the complete seal |
| SealLast.RefusedStep | scripts/build_v4_candidate_training_authority.py:3619-3867 | a refused operation changes no file; before publication the run ends with no stage left, afterwards it ends at once |
| Bursts.ClusterByGap | scripts/build_operational_teacher_manifest.py:209-237 | each capture's cluster is its single-linkage class, independent of input order |
| Bursts.SameClusterIffLinked | scripts/build_operational_teacher_manifest.py:209-237 | two captures share a cluster exactly when a chain of captures with small gaps links them |
| Bursts.UntimedIsAlone | scripts/build_operational_teacher_manifest.py:219-229 | a capture without a time is a singleton |
| Bursts.WiderGapMerges | scripts/build_operational_teacher_manifest.py:333-370 | a wider gap only merges clusters |
| Bursts.SegmentIffLinked | scripts/build_operational_teacher_manifest.py:214-231 | two captures fall in the same run of the sorted scan exactly when they are linked |
| Bursts.Scan | scripts/build_operational_teacher_manifest.py:215-231 | the scan loop cuts the sorted captures exactly at the breaks |
| Lineage.LineageRows | scripts/build_operational_teacher_manifest.py:249-401 | every capture gets its row; without explicit identities two captures share an object group exactly when a trail of captures of one stream, each within the gap of the one before, leads from one to the other, and a session likewise with a gap five times as wide |
| Lineage.ObjectGroupRefinesSession | scripts/build_operational_teacher_manifest.py:333-401 | without explicit groups, sharing an object group means sharing the capture session exactly when the explicit sessions agree |
| Lineage.SharedGroupIsLinkage | scripts/build_operational_teacher_manifest.py:310-388 | without explicit groups two captures share a group exactly when a chain within one stream links them |
| Lineage.SameBurstIsTrail | scripts/build_operational_teacher_manifest.py:310-388 | two captures fall into one burst exactly when such a trail leads from one to the other, streams compared by client, else explicit session, else device |
| BundleRows.AdmitsIffApart | scripts/build_v4_candidate_training_authority.py:3291-3358 | the identity maps and duplicate sets admit a row exactly when it is apart from every row kept before |
| BundleRows.RefusalFor | scripts/build_v4_candidate_training_authority.py:3274-3358 | the checks of one row refuse exactly rows that are incomplete or not admitted |
| BundleRows.SelectRow | scripts/build_v4_candidate_training_authority.py:3236-3388 | one pass of the loop: excluded, refused or entered |
| BundleRows.SelectRows | scripts/build_v4_candidate_training_authority.py:3236-3391 | the loop succeeds exactly when all rows are passable, those that stay acceptable and pairwise separate, and both roles present; it lists each role's rows in input order, one snapshot entry each, and counts every dropped row under its reason; a refusal names a fault of a row, its clash with one that stayed before it, or an empty role |
| BundleRows.SelectableExactly | scripts/build_v4_candidate_training_authority.py:3236-3391 | the conditions of the loop said of the rows by position |
| BundleRows.LabelsExactly | scripts/build_v4_candidate_training_authority.py:3319-3345 | labels pass exactly for a background without a crop object or one of nine materials with exactly one, every condition -1, 0 or 1 |
| BundleRows.SelectedRolesAreIsolated | scripts/build_v4_candidate_training_authority.py:3236-3388 | no source, image, object group or capture session occurs in both roles |
| BundleRows.SelectedAreClean | scripts/build_v4_candidate_training_authority.py:3236-3289 | no selected row is protected or excluded, and operational rows are train rows after the cutoff |
| BundleRows.RowsAreConserved | scripts/build_v4_candidate_training_authority.py:3236-3388 | selected and excluded rows add up to all rows |
| BundleRows.SnapshotReport | scripts/build_v4_candidate_training_authority.py:476-549 | the snapshot report succeeds exactly on distinct, well-sized, canonically placed entries within the total, and lists them validation first, then by sample |
| BundleRows.PlanIsDistinct | scripts/build_v4_candidate_training_authority.py:476-518 | the plan of a finished selection never trips the duplicate or path checks |
| BundleRows.OneSourceEach | scripts/build_v4_candidate_training_authority.py:1497-1527 | there are as many role-source pairs as selected rows |
| BundleRows.OneCropEach | scripts/build_v4_candidate_training_authority.py:1497-1527 | there are as many role-sample-source-image tuples as selected rows |
| AuditInputs.LedgerMeetsAudit | scripts/build_v4_candidate_training_authority.py:1497-1527 | the manifests written from a finished selection satisfy every clause the audit validator puts on manifest rows |
| BundleRows.SelectAndReport | scripts/build_v4_candidate_training_authority.py:3236-3391 | after a selection the snapshot report can fail on size only |
| LibraryLinks.WalkChain | scripts/build_v4_candidate_training_authority.py:2104-2110 | the walk terminates: a file when the chain reaches one, a cycle error exactly when it never leaves the links, a lookup failure exactly when it leaves the inventory |
| LibraryLinks.ChainsEndOneWay | scripts/build_v4_candidate_training_authority.py:2099-2115 | a chain reaches a file, leaves the inventory or cycles, and only one of these |
| LibraryLinks.SeenTwiceCycles | scripts/build_v4_candidate_training_authority.py:2104-2110 | meeting a link again means the chain stays on links for ever |
| LibraryLinks.ResolvePoints | scripts/build_v4_candidate_training_authority.py:1997-2012 | a target resolves to exactly the path that keeps the link's directory less the parent steps and appends the rest, and to nothing when there are not that many |
| LibraryLinks.ReadTree | scripts/build_v4_candidate_training_authority.py:2062-2095 | the listing loop succeeds exactly on distinct paths whose targets stay inside the tree |
| LibraryLinks.CheckLink | scripts/build_v4_candidate_training_authority.py:2099-2115 | a link is accepted exactly when its chain reaches a file; the inventory's message exactly when its own target is absent; a failed lookup exactly when the chain leaves the inventory later; a cycle otherwise |
| LibraryLinks.LaterBreakFailsLookup | scripts/build_v4_candidate_training_authority.py:2104-2110 | two links in a row, the second dangling: the first is refused by a failed lookup, the second as an absent target |
| LibraryLinks.ValidateTree | scripts/build_v4_candidate_training_authority.py:2062-2115 | a listing is accepted exactly when paths are distinct and from every item a route of items, each link's target naming the next, ends at a regular file |
| LibraryLinks.AcceptedPathsResolve | scripts/build_v4_candidate_training_authority.py:2132-2164 | in an accepted tree every inventoried path reaches a file |
| LibraryLinks.CheckRequired | scripts/build_v4_candidate_training_authority.py:2152-2164 | a required library of an accepted tree is refused only for not being inventoried |
| LibraryInventory.ReadDeclared | scripts/build_v4_candidate_training_authority.py:2062-2128 | one declared tree is read exactly when its paths are proper, distinct and sorted, its links stay inside and lead to regular files, and its size and digest are as declared |
| LibraryInventory.PosixJoins | scripts/build_v4_candidate_training_authority.py:2062-2095 | paths are compared as components joined by slashes |
| LibraryInventory.CheckAll | scripts/build_v4_candidate_training_authority.py:2135-2180 | the required list passes exactly when it is sorted, unrepeated, inventoried in known trees, holds the driver and covers both trees; each library then leads to a file |
| LibraryInventory.ValidateInventory | scripts/build_v4_candidate_training_authority.py:2016-2180 | an inventory is accepted exactly when its two trees have distinct, sorted paths, every item leads to a regular file, sizes and digests are as declared and within the limit, and the required libraries are listed, sorted, unrepeated, of both roots and include the driver; each then leads to a file of its own tree |
| TopRows.SelectRows | scripts/audit_aihub_original_annotations.py:206-232 | one pass succeeds exactly on valid, unrepeated rows of all eighteen groups; group after group it returns min(k, size) rows in rank order, lower score first and then higher source id, none ranked behind a row left out, with every group's size |
| TopRows.Offer | scripts/audit_aihub_original_annotations.py:223-228 | one heap step keeps the first k of what the heap and the new item hold |
| TopRows.HeapKeepsBest | scripts/audit_aihub_original_annotations.py:223-228 | a bounded heap that holds the best so far still does after the next item |
| TopRows.BestIsPart | scripts/audit_aihub_original_annotations.py:222-231 | a bounded list of a group's best rows is that share of it |
| TopRows.ChosenAreBest | scripts/audit_aihub_original_annotations.py:222-231 | nothing chosen has a higher score than anything left out, nor a lower source id at equal scores, and something is left out only from a full list |
| TopRows.OrderDoesNotMatter | scripts/audit_aihub_original_annotations.py:206-232 | the result does not depend on the order of the rows |
| Strides.PicksIncrease | scripts/convert_v2.py:171-176 | the picked positions are strictly increasing |
| Strides.PickInRange | scripts/convert_v2.py:171-176 | every picked position is within the items |
| Strides.PickExactly | scripts/convert_v2.py:171-176 | position p is pick i exactly when p * cap <= i * n < (p + 1) * cap |
| Strides.SampleAt | scripts/convert_v2.py:171-176 | item i of a sample of cap out of n is the one at position i * n / cap, rounded down |
| Strides.SampleIsPositions | scripts/convert_v2.py:171-176 | the sample has exactly cap items and is the items at the picked positions in order |
| Strides.SampleAndRemainderPartition | scripts/convert_remainder.py:174-185 | sample and remainder interleave to the items for every cap |
| Strides.SampleIsAllExactlyWhen | scripts/convert_v2.py:171-176 | the sample is everything, and the remainder nothing, exactly for no items, a zero cap or a cap not exceeded |
| Strides.NegativeCapTakesNothing | scripts/convert_v2.py:171-176 | of two items a cap of -1 takes none and leaves both |
| Strides.FindHit | scripts/convert_v2.py:206-217 | the nested search returns the first existing candidate, directories before extensions |
| Strides.FirstHitIsFirst | scripts/convert_v2.py:206-217 | the candidate found exists, and none exists in an earlier directory or under an earlier extension of its own |
| Strides.CollectPairs | scripts/convert_remainder.py:188-231 | the collector returns the pairs of every folder's chosen labels in order |
| Strides.StreamedIsChosen | scripts/audit_legacy_aihub_links.py:98-103 | testing positions against the picked set selects what the samplers select |
| Strides.IterPairs | scripts/audit_legacy_aihub_links.py:83-118 | the stream yields exactly the first max_index+1 pairs of the collector |
| QueuePartition.OutcomesPartition | scripts/build_operational_teacher_manifest.py:922-1194 | every queued source lands in exactly one list, sorted and unrepeated |
| QueuePartition.GroupRows | scripts/build_operational_teacher_manifest.py:893-912 | rows grouped by digest in either case, and for every malformed row, in order, one rejection with its own line number and file's reason |
| QueuePartition.Produce | scripts/build_operational_teacher_manifest.py:893-1209 | a source is accepted exactly when it has one queue line, one label, nothing against them and no negative decision, an empty scene exactly when the decision is negative; every other queued or labelled source gets the one rejection that applies, every malformed row its own, and nothing else is listed; canonical order, counted reasons |
| QueuePartition.SortedIsInOrder | scripts/assemble_operational_quality_exclusions.py:496-506 | the canonical order spelled out: by source, queue line, label line, then reasons, an absent value first |
| QueuePartition.FateIsListed | scripts/build_operational_teacher_manifest.py:922-1194 | where the fate of a source puts it, said of its lines |
| QueuePartition.CleanExactly | scripts/build_operational_teacher_manifest.py:961-983 | nothing speaks against a pair exactly when its label came to a usable, confident decision bound to the line and the other checks are silent |
| QueuePartition.LawOfChecks | scripts/build_operational_teacher_manifest.py:893-1194 | the report of these checks said of the lines alone |
| QueuePartition.ValidateRejections | scripts/assemble_operational_quality_exclusions.py:448-506 | the report check accepts exactly the right row and rejection counts, strictly ordered reasons, positive line numbers, no source decided twice, every reason counted once per rejection that names it, and rejections ordered by source, lines and reasons |
| QueuePartition.ValidatePartition | scripts/assemble_operational_quality_exclusions.py:687-756 | the output check accepts exactly increasing, counted outputs over lower-case digests with unrepeated rejections, in which accepted and empty sources are queued, apart, not rejected and not excluded, and no queued source is missing |
| QueuePartition.Recheck | scripts/assemble_operational_quality_exclusions.py:757-796 | the consensus re-evaluation accepts exactly when the last label of every queued source that came to a decision is kept by its rejections or usable, and the last lines of every accepted or empty source are bound, decided, usable and confident |
| QueuePartition.FaithfulPassesExactlyWhen | scripts/assemble_operational_quality_exclusions.py:687-796 | the output check with its re-evaluation, on a report that splits the queue by fate, passes exactly when digests are in lower case, no repeated source has a decided last label, and every passing source is bound by its label and not excluded |
| QueueAssembly.IndexUniqueRows | scripts/assemble_operational_quality_exclusions.py:799-813 | rows are indexed exactly when digests are in lower case and neither a digest nor a line number repeats |
| QueueAssembly.QualityRows | scripts/assemble_operational_quality_exclusions.py:826-957 | the re-check of rejections that record a decision accepts exactly when the files have unique rows and each such rejection names two bound lines, their exact consensus and, if unusable, nothing else; it returns the excluded sources |
| QueueAssembly.ExcludesUnusable | scripts/assemble_operational_quality_exclusions.py:826-957 | on the producer's report the excluded sources are exactly those whose label calls them unusable |
| QueueAssembly.Assemble | scripts/assemble_operational_quality_exclusions.py:1679-1763 | the assembler's checks of the report, in order, pass exactly when all of them hold |
| QueueAssembly.FaithfulAssemblesExactlyWhen | scripts/assemble_operational_quality_exclusions.py:1679-1763 | on unique rows a report that splits the queue by fate is assembled exactly when every queue line and its label are in order and the exclusions keep apart |
| QueueAssembly.ProduceAndAssemble | scripts/assemble_operational_quality_exclusions.py:1679-1763 | producing and assembling: the report lists every source as its lines say, and is assembled exactly for unique lower-case rows whose pairs are in order and whose exclusions keep apart |
| QueueAssembly.BindingDecides | scripts/assemble_operational_quality_exclusions.py:757-796 | one accepted source, run through both: assembled exactly when its label spells the input digest in lower case and names the queue line's image |
| QueueAssembly.OneReasonDecides | scripts/assemble_operational_quality_exclusions.py:858-868 | one unusable source, run through both: assembled exactly when low confidence does not also speak against it |
| QueueAssembly.RepeatIsRefused | scripts/assemble_operational_quality_exclusions.py:799-813 | a queue that repeats a digest, run through both: reported, and never assembled |

## Left out

- Image decoding, resizing, the discrete cosine transform and pHash computation, detectors and language models: their results are inputs.
- SHA-256, BLAKE2, base64, JSON and CSV bytes: hashes and scores are functions, canonical JSON is structural equality.
- The validator's report header and binding fields: status, authority, algorithm description and file digests of manifests and auditor are schema comparisons; coverage, entries, graph, payload sets and summary are modelled.
- Trusted policy, training configuration, host contract, licence allowlist and code inventory validators: each check is one branch.
- Material, objectness, condition and origin counters and the class-coverage checks that follow the candidate row loop (scripts/build_v4_candidate_training_authority.py:3392-3440): single comparisons over the selected rows.
- A check and the unlink or link it guards are one step, so races between them are not modelled; a refused write leaves the new file empty rather than partly written. Symlink components on output paths, Windows and POSIX differences and `renameat2` itself are left out too.
- Pilot list, YAML and universe files, health endpoints, argument parsing, progress output, exports and the runtime service.
- GraphBuilders.AuditorEdges: assumes distinct asset ids and 64-bit hashes, which the auditor's own record checks establish.
- Validator.Validate: the report's binding of manifest, inventory and auditor file digests is not part of the acceptance predicate.
- SelectionChecker.SelectionMeetsChecker: assumes one path has one content within a scan and that eligible sources carry their label and ground truth, as the scanner builds them.
- PilotPublication.NothingForeignIsTouched: assumes the environment leaves the two private temporary names alone; HarmsExactlyWhen is the exact statement without that assumption, and PrivateNameIsNeeded a run that breaks it.
- PilotPublication.RaiseMeansNotReady: assumes the environment does not take the failure marker away.
- PilotPublication.RaiseExposesExactlyWhen: stated for runs undisturbed since the revocation was decided, since a later environment step may remove or replace either name.
- PilotPublication.ReturnMeansPublished: the final state is stated only for runs undisturbed since the ownership check, since a later environment step may replace anything.
- SealLast.SealImpliesRechecked: a seal file whose bytes the environment rewrote no longer counts as the program's; snapshot tree, inventory and payload rechecks are further rows of the same kind.
- Lineage.LineageRows: identities arrive normalised, and the truncated hash that names a cluster is taken to name exactly its members.
- BundleRows.SelectRows: path-token, absolute-path and licence-name checks are one parameter, and of several faults of a row the contract does not say which is named.
- AuditInputs.LedgerMeetsAudit: the remaining audit inputs, protected sources and inventory objects, come from files outside the selection and stay hypotheses.
- LibraryInventory.ValidateInventory: paths and targets arrive normalised and split into components, targets as leading parent steps and plain components; schema checks of the JSON objects are not modelled.
- TopRows.SelectRows: the manifest's header check is not modelled, and split, category and source id arrive parsed.
- TopRows.Offer: heapq's internal array order is not modelled; a heap is kept in order with its root last.
- Strides.SampleIsPositions: the step is an exact rational, so rounding of the quotient is not modelled.
- QueuePartition.Produce: localisation, image quality, timestamp and inventory checks of one source are one function giving reasons.
- QueueAssembly.ProduceAndAssemble: a queue line's own fields, its inventory row, time and image are two tests of the line; the objective exclusions arrive as a list of digests and paths, and the coverage of a queue with nothing to exclude as one answer; the CSV and JSONL copies of one output are one list, and the two programs use one minimum confidence, which the lineage file carries between them.
