/** The near-duplicate report, the inputs it is checked against, and when it deserves acceptance. */
module AuditReport {
  import opened Agreement
  import opened Clusters
  import opened EdgeMaps
  import opened Graph
  import opened GraphEvidence
  import opened NearPairs
  import opened Order
  import PerceptualHash
  import opened Wrappers

  const PROTECTED_ROLES: set<string> :=
    {"qx3_diagnostic", "hardware41", "known_audit", "calibration", "blind_test"}
  const MAX_BYTES: int := 67_108_864
  const PIXEL_CAP: int := 16_000_000

  datatype ManifestRow = ManifestRow(sampleId: string, sourceSha: Digest, imageSha: Digest)

  datatype InventoryObject = InventoryObject(
    cohort: string, viewKind: string, path: string, sourceSha: Digest, imageSha: Digest, size: int)

  datatype Summary = Summary(edges: int, clusters: int, blockingClusters: int, sameRoleClusters: int)

  datatype Coverage = Coverage(candidateAssets: int, protectedAssets: int, protectedUnion: int, verified: int,
                               complete: bool)

  datatype Report = Report(
    status: string,
    ok: bool,
    coverage: Coverage,
    candidatePayload: Digest,
    protectedPayload: Digest,
    entries: seq<Entry>,
    edges: seq<Edge>,
    clusters: seq<Cluster>,
    summary: Summary)

  /** What the authority builder already holds when it reads the report. */
  datatype Inputs = Inputs(
    rows: map<string, seq<ManifestRow>>,
    candidateAssets: int,
    protectedSources: set<Digest>,
    objects: seq<InventoryObject>,
    protectedAssets: int)

  // ---- identities ----

  function HexDigit(d: nat): char
    requires d < 16
  {
    "0123456789abcdef"[d]
  }

  function Hex(value: nat, width: nat): string {
    if width == 0 then "" else Hex(value / 16, width - 1) + [HexDigit(value % 16)]
  }

  lemma {:induction false} HexLength(value: nat, width: nat)
    ensures |Hex(value, width)| == width
  {
    if width > 0 {
      HexLength(value / 16, width - 1);
    }
  }

  function HexPrefix(value: nat): string {
    HexLength(value, 64);
    Hex(value, 64)[..16]
  }

  function AssetIdOf(sha: Sha, e: Entry): Digest {
    sha(AssetPreimage(e.cohort, e.imageSha, e.role, e.sampleId, e.sourceSha, e.viewKind))
  }

  type CandidateKey = (string, string, Digest, Digest)
  type ProtectedKey = (string, string, string, Digest, Digest, int)

  function SourceKey(role: string, row: ManifestRow): CandidateKey {
    (role, "source:" + role + ":" + Hex(row.sourceSha, 64), row.sourceSha, row.sourceSha)
  }

  function CropKey(role: string, row: ManifestRow): CandidateKey {
    (role, row.sampleId, row.sourceSha, row.imageSha)
  }

  function ObjectKey(sha: Sha, o: InventoryObject): ProtectedKey {
    (o.cohort, o.viewKind,
     "protected:" + o.cohort + ":" + o.viewKind + ":" + HexPrefix(o.imageSha) + ":" +
       HexPrefix(sha(PathPreimage(o.path))),
     o.sourceSha, o.imageSha, o.size)
  }

  function EntryKey(e: Entry): CandidateKey {
    (e.role, e.sampleId, e.sourceSha, e.imageSha)
  }

  function ProtectedEntryKey(e: Entry): ProtectedKey {
    (e.role, e.viewKind, e.sampleId, e.sourceSha, e.imageSha, e.size)
  }

  // ---- well-formed entries ----

  predicate KnownRole(role: string) {
    role in CANDIDATE_ROLES || role in PROTECTED_ROLES
  }

  predicate IdentityOk(sha: Sha, e: Entry) {
    && KnownRole(e.role)
    && e.cohort == (if e.role in CANDIDATE_ROLES then "candidate" else e.role)
    && (e.viewKind == "source" || e.viewKind == "crop")
    && e.sampleId != ""
    && e.assetId == AssetIdOf(sha, e)
  }

  predicate PayloadOk(e: Entry) {
    && e.size >= 1 && e.width >= 1 && e.height >= 1
    && e.size <= MAX_BYTES && e.width * e.height <= PIXEL_CAP
    && |e.phash| == 4 && forall k :: 0 <= k < 4 ==> PerceptualHash.IsHash(e.phash[k])
  }

  predicate SourceOk(protectedSources: set<Digest>, e: Entry) {
    && (e.role in CANDIDATE_ROLES <==> e.sourceSha !in protectedSources)
    && (e.viewKind == "source" ==> e.imageSha == e.sourceSha)
  }

  predicate EntryOk(sha: Sha, protectedSources: set<Digest>, e: Entry) {
    IdentityOk(sha, e) && PayloadOk(e) && SourceOk(protectedSources, e)
  }

  // ---- expected identities out of the manifests and the inventory ----

  ghost function ExpectedSources(rows: map<string, seq<ManifestRow>>): set<CandidateKey> {
    set role, row | role in rows && row in rows[role] :: SourceKey(role, row)
  }

  ghost function ExpectedCrops(rows: map<string, seq<ManifestRow>>): set<CandidateKey> {
    set role, row | role in rows && row in rows[role] :: CropKey(role, row)
  }

  ghost function ExpectedProtected(sha: Sha, objects: seq<InventoryObject>): set<ProtectedKey> {
    set o | o in objects :: ObjectKey(sha, o)
  }

  predicate IsCandidate(e: Entry) {
    e.role in CANDIDATE_ROLES
  }

  predicate IsSource(e: Entry) {
    e.viewKind == "source"
  }

  /** Entries with a given standing: candidate or protected, source view or crop view. */
  function Views(entries: seq<Entry>, candidate: bool, source: bool): seq<Entry> {
    if entries == [] then []
    else
      var last := entries[|entries| - 1];
      Views(entries[..|entries| - 1], candidate, source) +
      if IsCandidate(last) == candidate && IsSource(last) == source then [last] else []
  }

  lemma {:induction false} ViewMembers(entries: seq<Entry>, candidate: bool, source: bool, e: Entry)
    ensures e in Views(entries, candidate, source) <==>
      e in entries && IsCandidate(e) == candidate && IsSource(e) == source
    decreases |entries|
  {
    if entries != [] {
      ViewMembers(entries[..|entries| - 1], candidate, source, e);
      assert entries == entries[..|entries| - 1] + [entries[|entries| - 1]];
    }
  }

  function RoleSource(e: Entry): (string, Digest) {
    (e.role, e.sourceSha)
  }

  /** `Counter(f(entry) for entry in entries)` */
  function CountBy<T>(entries: seq<Entry>, f: Entry -> T): multiset<T> {
    if entries == [] then multiset{}
    else CountBy(entries[..|entries| - 1], f) + multiset{f(entries[|entries| - 1])}
  }

  function SourceShaOf(e: Entry): Digest {
    e.sourceSha
  }

  /** Counters of source bytes, per role for candidates and overall for protected entries. */
  function RoleSources(entries: seq<Entry>): multiset<(string, Digest)> {
    CountBy(entries, RoleSource)
  }

  function SourcesOf(entries: seq<Entry>): multiset<Digest> {
    CountBy(entries, SourceShaOf)
  }

  predicate EachOnce<T(==)>(counter: multiset<T>) {
    forall x :: x in counter ==> counter[x] == 1
  }

  /** The source and crop counters: every expected source exactly once in either view. */
  predicate CountersCovered(inputs: Inputs, cs: multiset<(string, Digest)>, cc: multiset<(string, Digest)>,
                            ps: multiset<Digest>, pc: multiset<Digest>)
  {
    && |set k | k in cs| == inputs.candidateAssets / 2 && EachOnce(cs) && cc == cs
    && (set s | s in ps) == inputs.protectedSources && EachOnce(ps) && pc == ps
  }

  ghost predicate ViewsCovered(inputs: Inputs, entries: seq<Entry>) {
    CountersCovered(inputs, RoleSources(Views(entries, true, true)), RoleSources(Views(entries, true, false)),
                    SourcesOf(Views(entries, false, true)), SourcesOf(Views(entries, false, false)))
  }

  function EntryKeys(entries: seq<Entry>): set<CandidateKey> {
    set e | e in entries :: EntryKey(e)
  }

  function ProtectedKeys(entries: seq<Entry>): set<ProtectedKey> {
    set e | e in entries && !IsCandidate(e) :: ProtectedEntryKey(e)
  }

  ghost predicate EntriesMatchInputs(sha: Sha, inputs: Inputs, entries: seq<Entry>) {
    && EntryKeys(Views(entries, true, true)) == ExpectedSources(inputs.rows)
    && EntryKeys(Views(entries, true, false)) == ExpectedCrops(inputs.rows)
    && ProtectedKeys(entries) == ExpectedProtected(sha, inputs.objects)
  }

  function PayloadImages(entries: seq<Entry>, candidate: bool): set<Digest> {
    set e | e in entries && IsCandidate(e) == candidate :: e.imageSha
  }

  ghost function CountRows(rows: map<string, seq<ManifestRow>>): nat
  {
    (if "train" in rows then |rows["train"]| else 0) +
    if "model_validation" in rows then |rows["model_validation"]| else 0
  }

  /** Named samples, and a source and a crop identity of its own for every row. */
  ghost predicate RowsOk(rows: map<string, seq<ManifestRow>>) {
    && rows.Keys == CANDIDATE_ROLES
    && (forall role, row :: role in rows && row in rows[role] ==> row.sampleId != "")
    && |ExpectedSources(rows)| == CountRows(rows) && |ExpectedCrops(rows)| == CountRows(rows)
  }

  ghost predicate InputsOk(sha: Sha, inputs: Inputs) {
    && RowsOk(inputs.rows) && inputs.candidateAssets == 2 * CountRows(inputs.rows)
    && |ExpectedProtected(sha, inputs.objects)| == inputs.protectedAssets
    && inputs.protectedSources != {} && inputs.protectedAssets >= 1
  }

  function ExpectedCoverage(inputs: Inputs): Coverage {
    Coverage(inputs.candidateAssets, inputs.protectedAssets, |inputs.protectedSources|,
             inputs.candidateAssets + inputs.protectedAssets, true)
  }

  ghost predicate StrictlyByAssetId(entries: seq<Entry>) {
    forall i, j :: 0 <= i < j < |entries| ==> entries[i].assetId < entries[j].assetId
  }

  function SameRoleDuplicates(clusters: seq<Cluster>): nat {
    if clusters == [] then 0
    else SameRoleDuplicates(clusters[..|clusters| - 1]) +
         var c := clusters[|clusters| - 1]; if !c.blocking && c.edgeCount > 0 then 1 else 0
  }

  /** The supplied edges and clusters are the graph of the supplied entries, and nothing in it blocks. */
  ghost predicate GraphOk(sha: Sha, report: Report, cap: nat) {
    var nodes := Nodes(report.entries);
    && |report.edges| <= cap
    && IsEdgeListing(nodes, report.edges) && StrictlyById(report.edges)
    && IsClusterList(sha, nodes, report.clusters)
    && !SomeEdgeBlocks(report.edges)
  }

  ghost predicate SummaryOk(report: Report) {
    report.summary == Summary(|report.edges|, |report.clusters|, 0, SameRoleDuplicates(report.clusters))
  }

  ghost predicate HeaderOk(inputs: Inputs, report: Report) {
    && report.status == "passed" && report.ok
    && report.coverage == ExpectedCoverage(inputs)
    && |report.entries| == inputs.candidateAssets + inputs.protectedAssets
  }

  ghost predicate EntriesOk(sha: Sha, inputs: Inputs, entries: seq<Entry>) {
    && (forall i :: 0 <= i < |entries| ==> EntryOk(sha, inputs.protectedSources, entries[i]))
    && StrictlyByAssetId(entries)
    && ViewsCovered(inputs, entries)
    && EntriesMatchInputs(sha, inputs, entries)
  }

  predicate PayloadsBound(sha: Sha, report: Report) {
    && report.candidatePayload == sha(DigestList(SortedNats(PayloadImages(report.entries, true))))
    && report.protectedPayload == sha(DigestList(SortedNats(PayloadImages(report.entries, false))))
  }

  /** Acceptance, stated without the order of the checks. */
  ghost predicate Accepts(sha: Sha, inputs: Inputs, report: Report, cap: nat) {
    && HeaderOk(inputs, report)
    && InputsOk(sha, inputs)
    && EntriesOk(sha, inputs, report.entries)
    && PayloadsBound(sha, report)
    && GraphOk(sha, report, cap)
    && SummaryOk(report)
  }
}
