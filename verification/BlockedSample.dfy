/** A small data set with leakage, on which the auditor and the re-deriver list the same edges in different orders. */
module BlockedSample {
  import opened Agreement
  import opened AuditReport
  import opened Clusters
  import opened EdgeMaps
  import opened Graph
  import opened GraphEvidence
  import opened NearPairs
  import opened Order
  import PerceptualHash
  import opened RoundTrip
  import opened Wrappers

  // ---- a hash that ranks chosen preimages first ----

  function RankOf(first: seq<Preimage>, x: Preimage): nat
    requires x in first
  {
    if first[0] == x then 0 else 1 + RankOf(first[1..], x)
  }

  lemma {:induction false} RankIsPosition(first: seq<Preimage>, x: Preimage)
    requires x in first
    ensures RankOf(first, x) < |first| && first[RankOf(first, x)] == x
  {
    if first[0] != x {
      RankIsPosition(first[1..], x);
    }
  }

  /** Any injective hash, moved up to make room for the ranks of a few preimages. */
  function Ranked(base: Sha, first: seq<Preimage>): Sha {
    (x: Preimage) => if x in first then RankOf(first, x) else base(x) + |first|
  }

  lemma RankedInjective(base: Sha, first: seq<Preimage>)
    requires Injective(base)
    ensures Injective(Ranked(base, first))
  {
    var sha := Ranked(base, first);
    forall x, y | sha(x) == sha(y)
      ensures x == y
    {
      if x in first {
        RankIsPosition(first, x);
      }
      if y in first {
        RankIsPosition(first, y);
      }
    }
  }

  // ---- the data set ----

  const HASHES: seq<nat> := [0, 0, 0, 0]
  const SIZE: nat := 6
  const COHORT: string := "blind_test"
  const HELD: string := "model_validation"

  /** The digests of a training, a validation and a protected picture, each in full and cropped. */
  datatype Pictures = Pictures(train: Digest, trainCrop: Digest, held: Digest, heldCrop: Digest, blind: Digest,
                               blindCrop: Digest)
  {
    /** Neither candidate picture is the protected one. */
    predicate Apart() {
      train != blind && held != blind
    }
  }

  /** Name of a protected view: its cohort, kind, image and path. */
  function ProtectedName(base: Sha, kind: string, image: Digest, path: string): string {
    "protected:" + COHORT + ":" + kind + ":" + HexPrefix(image) + ":" + HexPrefix(base(PathPreimage(path)) + SIZE)
  }

  function View(id: Digest, role: string, cohort: string, kind: string, name: string, source: Digest, image: Digest)
    : Entry
  {
    Entry(id, role, cohort, kind, name, source, image, 1, 1, 1, HASHES)
  }

  function SourceName(role: string, row: ManifestRow): string {
    SourceKey(role, row).1
  }

  /** Both views of a training row, of a validation row, and of a protected source; the ids interleave the parts. */
  function Member(base: Sha, d: Pictures, k: nat): Entry
    requires k < SIZE
  {
    match k
    case 0 => View(0, COHORT, COHORT, "source", ProtectedName(base, "source", d.blind, "p"), d.blind, d.blind)
    case 1 => View(1, "train", "candidate", "source", SourceName("train", TrainRow(d)), d.train, d.train)
    case 2 => View(2, "train", "candidate", "crop", "t", d.train, d.trainCrop)
    case 3 => View(3, HELD, "candidate", "source", SourceName(HELD, HeldRow(d)), d.held, d.held)
    case 4 => View(4, HELD, "candidate", "crop", "v", d.held, d.heldCrop)
    case 5 => View(5, COHORT, COHORT, "crop", ProtectedName(base, "crop", d.blindCrop, "q"), d.blind, d.blindCrop)
  }

  function TrainRow(d: Pictures): ManifestRow {
    ManifestRow("t", d.train, d.trainCrop)
  }

  function HeldRow(d: Pictures): ManifestRow {
    ManifestRow("v", d.held, d.heldCrop)
  }

  function PreimageOf(e: Entry): Preimage {
    AssetPreimage(e.cohort, e.imageSha, e.role, e.sampleId, e.sourceSha, e.viewKind)
  }

  function Preimages(base: Sha, d: Pictures): (r: seq<Preimage>)
    ensures |r| == SIZE && forall k :: 0 <= k < SIZE ==> r[k] == PreimageOf(Member(base, d, k))
  {
    seq(SIZE, k requires 0 <= k < SIZE => PreimageOf(Member(base, d, k)))
  }

  function SampleSha(base: Sha, d: Pictures): Sha {
    Ranked(base, Preimages(base, d))
  }

  function Candidates(base: Sha, d: Pictures): seq<Entry> {
    [Member(base, d, 1), Member(base, d, 2), Member(base, d, 3), Member(base, d, 4)]
  }

  function Protected(base: Sha, d: Pictures): seq<Entry> {
    [Member(base, d, 0), Member(base, d, 5)]
  }

  function SampleRows(d: Pictures): map<string, seq<ManifestRow>> {
    map["train" := [TrainRow(d)], HELD := [HeldRow(d)]]
  }

  function SourceObject(d: Pictures): InventoryObject {
    InventoryObject(COHORT, "source", "p", d.blind, d.blind, 1)
  }

  function CropObject(d: Pictures): InventoryObject {
    InventoryObject(COHORT, "crop", "q", d.blind, d.blindCrop, 1)
  }

  function SampleInputs(d: Pictures): Inputs {
    Inputs(SampleRows(d), 4, {d.blind}, [SourceObject(d), CropObject(d)], 2)
  }

  // ---- its identities ----

  lemma KindsDiffer()
    ensures "train" != HELD && "train" != COHORT && HELD != COHORT
    ensures "source" != "crop"
  {
    assert |"train"| != |HELD| && |"train"| != |COHORT| && |HELD| != |COHORT|;
    assert |"source"| != |"crop"|;
  }

  lemma MemberStands(base: Sha, d: Pictures, k: nat)
    requires k < SIZE
    ensures IsCandidate(Member(base, d, k)) <==> 1 <= k <= 4
    ensures IsSource(Member(base, d, k)) <==> k == 0 || k == 1 || k == 3
    ensures Member(base, d, k).role == if k == 0 || k == 5 then COHORT else if k <= 2 then "train" else HELD
    ensures Member(base, d, k).assetId == k
    ensures Member(base, d, k).sourceSha == if k == 0 || k == 5 then d.blind else if k <= 2 then d.train else d.held
  {
    KindsDiffer();
  }

  lemma PreimagesDiffer(base: Sha, d: Pictures)
    ensures Distinct(Preimages(base, d))
  {
    KindsDiffer();
    forall i, j | 0 <= i < j < SIZE
      ensures Preimages(base, d)[i] != Preimages(base, d)[j]
    {
      MemberStands(base, d, i);
      MemberStands(base, d, j);
      var x, y := Member(base, d, i), Member(base, d, j);
      assert x.role != y.role || IsSource(x) != IsSource(y);
    }
  }

  lemma MemberId(base: Sha, d: Pictures, k: nat)
    requires k < SIZE
    ensures AssetIdOf(SampleSha(base, d), Member(base, d, k)) == Member(base, d, k).assetId == k
  {
    var first := Preimages(base, d);
    PreimagesDiffer(base, d);
    assert first[k] in first;
    RankIsPosition(first, first[k]);
  }

  lemma PathIsNotRanked(base: Sha, d: Pictures, path: string)
    ensures SampleSha(base, d)(PathPreimage(path)) == base(PathPreimage(path)) + SIZE
  {
    assert PathPreimage(path) !in Preimages(base, d);
  }

  // ---- it is an honest data set ----

  lemma SampleRowsOk(d: Pictures)
    ensures RowsOk(SampleRows(d)) && CountRows(SampleRows(d)) == 2
    ensures ExpectedSources(SampleRows(d)) == {SourceKey("train", TrainRow(d)), SourceKey(HELD, HeldRow(d))}
    ensures ExpectedCrops(SampleRows(d)) == {CropKey("train", TrainRow(d)), CropKey(HELD, HeldRow(d))}
  {
    KindsDiffer();
    var rows := SampleRows(d);
    assert rows["train"] == [TrainRow(d)] && rows[HELD] == [HeldRow(d)];
    assert TrainRow(d) in rows["train"] && HeldRow(d) in rows[HELD];
    TwoKeys(ExpectedSources(rows), SourceKey("train", TrainRow(d)), SourceKey(HELD, HeldRow(d)));
    TwoKeys(ExpectedCrops(rows), CropKey("train", TrainRow(d)), CropKey(HELD, HeldRow(d)));
  }

  lemma TwoKeys<K>(keys: set<K>, a: K, b: K)
    requires a != b && a in keys && b in keys && forall k :: k in keys ==> k == a || k == b
    ensures keys == {a, b} && |keys| == 2
  {
    assert keys == {a, b};
  }

  lemma SampleObjectsOk(base: Sha, d: Pictures)
    ensures var sha, objects := SampleSha(base, d), [SourceObject(d), CropObject(d)];
      && ExpectedProtected(sha, objects) ==
           {ProtectedEntryKey(Member(base, d, 0)), ProtectedEntryKey(Member(base, d, 5))}
      && |ExpectedProtected(sha, objects)| == 2
  {
    KindsDiffer();
    PathIsNotRanked(base, d, "p");
    PathIsNotRanked(base, d, "q");
    var sha, objects := SampleSha(base, d), [SourceObject(d), CropObject(d)];
    assert SourceObject(d) in objects && CropObject(d) in objects;
    assert ObjectKey(sha, SourceObject(d)) == ProtectedEntryKey(Member(base, d, 0));
    assert ObjectKey(sha, CropObject(d)) == ProtectedEntryKey(Member(base, d, 5));
    TwoKeys(ExpectedProtected(sha, objects), ObjectKey(sha, SourceObject(d)), ObjectKey(sha, CropObject(d)));
  }

  lemma SampleInputsOk(base: Sha, d: Pictures)
    ensures InputsOk(SampleSha(base, d), SampleInputs(d))
  {
    SampleRowsOk(d);
    SampleObjectsOk(base, d);
  }

  lemma MemberOk(base: Sha, d: Pictures, k: nat)
    requires k < SIZE && d.Apart()
    ensures EntryOk(SampleSha(base, d), {d.blind}, Member(base, d, k))
  {
    MemberIdentified(base, d, k);
    MemberSourced(base, d, k);
  }

  lemma MemberIdentified(base: Sha, d: Pictures, k: nat)
    requires k < SIZE
    ensures IdentityOk(SampleSha(base, d), Member(base, d, k))
  {
    KindsDiffer();
    MemberId(base, d, k);
    MemberNamed(base, d, k);
  }

  lemma MemberSourced(base: Sha, d: Pictures, k: nat)
    requires k < SIZE && d.Apart()
    ensures PayloadOk(Member(base, d, k)) && SourceOk({d.blind}, Member(base, d, k))
  {
    MemberStands(base, d, k);
  }

  lemma MemberNamed(base: Sha, d: Pictures, k: nat)
    requires k < SIZE
    ensures Member(base, d, k).sampleId != ""
  {
    if k == 0 || k == 5 {
      assert |Member(base, d, k).sampleId| >= |"protected:"|;
    } else if k == 1 || k == 3 {
      assert |Member(base, d, k).sampleId| >= |"source:"|;
    }
  }

  // ---- its views ----

  lemma {:induction false} SingleView(e: Entry, candidate: bool, source: bool)
    ensures Views([e], candidate, source) == if IsCandidate(e) == candidate && IsSource(e) == source then [e] else []
  {
    assert [e][..0] == [];
  }

  lemma {:induction false} SixViews(a: Entry, b: Entry, c: Entry, x: Entry, y: Entry, z: Entry, candidate: bool,
                                    source: bool)
    ensures Views([a, b, c, x] + [y, z], candidate, source) ==
      Views([a], candidate, source) + Views([b], candidate, source) + Views([c], candidate, source) +
      Views([x], candidate, source) + Views([y], candidate, source) + Views([z], candidate, source)
  {
    assert [a, b, c, x] + [y, z] == [a] + [b] + [c] + [x] + [y] + [z];
    ViewsOfConcat([a] + [b] + [c] + [x] + [y], [z], candidate, source);
    ViewsOfConcat([a] + [b] + [c] + [x], [y], candidate, source);
    ViewsOfConcat([a] + [b] + [c], [x], candidate, source);
    ViewsOfConcat([a] + [b], [c], candidate, source);
    ViewsOfConcat([a], [b], candidate, source);
  }

  function All(base: Sha, d: Pictures): seq<Entry> {
    Candidates(base, d) + Protected(base, d)
  }

  lemma {:induction false} SampleViews(base: Sha, d: Pictures, candidate: bool, source: bool)
    ensures Views(All(base, d), candidate, source) ==
      if candidate then
        if source then [Member(base, d, 1), Member(base, d, 3)] else [Member(base, d, 2), Member(base, d, 4)]
      else if source then [Member(base, d, 0)] else [Member(base, d, 5)]
  {
    SixViews(Member(base, d, 1), Member(base, d, 2), Member(base, d, 3), Member(base, d, 4), Member(base, d, 0),
             Member(base, d, 5), candidate, source);
    forall k: nat | k < SIZE
      ensures Views([Member(base, d, k)], candidate, source) ==
        if candidate == (1 <= k <= 4) && source == (k == 0 || k == 1 || k == 3) then [Member(base, d, k)] else []
    {
      SingleView(Member(base, d, k), candidate, source);
      MemberStands(base, d, k);
    }
  }

  lemma PairCount<T>(a: Entry, b: Entry, f: Entry -> T)
    ensures CountBy([a], f) == multiset{f(a)} && CountBy([a, b], f) == multiset{f(a), f(b)}
  {
    assert [a][..0] == [] && [a, b][..1] == [a];
  }

  lemma {:induction false} SampleRoleSources(base: Sha, d: Pictures, source: bool)
    ensures RoleSources(Views(All(base, d), true, source)) == multiset{("train", d.train), (HELD, d.held)}
  {
    SampleViews(base, d, true, source);
    var a, b := if source then 1 else 2, if source then 3 else 4;
    MemberStands(base, d, a);
    MemberStands(base, d, b);
    PairCount(Member(base, d, a), Member(base, d, b), RoleSource);
  }

  lemma {:induction false} SampleSources(base: Sha, d: Pictures, source: bool)
    ensures SourcesOf(Views(All(base, d), false, source)) == multiset{d.blind}
  {
    SampleViews(base, d, false, source);
    var k := if source then 0 else 5;
    MemberStands(base, d, k);
    PairCount(Member(base, d, k), Member(base, d, k), SourceShaOf);
  }

  lemma TwoOf<K>(counter: multiset<K>, a: K, b: K)
    requires a != b && counter == multiset{a, b}
    ensures |set k | k in counter| == 2 && EachOnce(counter)
  {
    var keys := set k | k in counter;
    TwoKeys(keys, a, b);
  }

  lemma OneOf<K>(counter: multiset<K>, a: K)
    requires counter == multiset{a}
    ensures (set k | k in counter) == {a} && EachOnce(counter)
  {
    assert a in counter;
  }

  lemma CountersFit(inputs: Inputs, cs: multiset<(string, Digest)>, a: (string, Digest), b: (string, Digest),
                    ps: multiset<Digest>, s: Digest)
    requires a != b && inputs.candidateAssets == 4 && inputs.protectedSources == {s}
    requires cs == multiset{a, b} && ps == multiset{s}
    ensures CountersCovered(inputs, cs, cs, ps, ps)
  {
    TwoOf(cs, a, b);
    OneOf(ps, s);
  }

  lemma SampleCovered(base: Sha, d: Pictures)
    ensures ViewsCovered(SampleInputs(d), All(base, d))
  {
    KindsDiffer();
    SampleRoleSources(base, d, true);
    SampleRoleSources(base, d, false);
    SampleSources(base, d, true);
    SampleSources(base, d, false);
    CountersFit(SampleInputs(d), RoleSources(Views(All(base, d), true, true)), ("train", d.train),
                (HELD, d.held), SourcesOf(Views(All(base, d), false, true)), d.blind);
  }

  lemma PairKeys(a: Entry, b: Entry)
    ensures EntryKeys([a, b]) == {EntryKey(a), EntryKey(b)}
  {
    assert forall e :: e in [a, b] <==> e == a || e == b;
  }

  lemma SampleCandidateKeys(base: Sha, d: Pictures)
    ensures EntryKeys(Views(All(base, d), true, true)) == ExpectedSources(SampleRows(d))
    ensures EntryKeys(Views(All(base, d), true, false)) == ExpectedCrops(SampleRows(d))
  {
    SampleViews(base, d, true, true);
    SampleViews(base, d, true, false);
    SampleRowsOk(d);
    PairKeys(Member(base, d, 1), Member(base, d, 3));
    PairKeys(Member(base, d, 2), Member(base, d, 4));
  }

  lemma ProtectedPair(candidates: seq<Entry>, a: Entry, b: Entry)
    requires (forall e :: e in candidates ==> IsCandidate(e)) && !IsCandidate(a) && !IsCandidate(b)
    ensures ProtectedKeys(candidates + [a, b]) == {ProtectedEntryKey(a), ProtectedEntryKey(b)}
  {
    assert forall e :: e in candidates + [a, b] <==> e in candidates || e == a || e == b;
  }

  lemma CandidatesAre(base: Sha, d: Pictures)
    ensures forall e :: e in Candidates(base, d) ==> IsCandidate(e)
    ensures forall e :: e in Protected(base, d) ==> !IsCandidate(e)
  {
    forall k: nat | k < SIZE
      ensures IsCandidate(Member(base, d, k)) <==> 1 <= k <= 4
    {
      MemberStands(base, d, k);
    }
  }

  lemma SampleMatches(base: Sha, d: Pictures)
    ensures EntriesMatchInputs(SampleSha(base, d), SampleInputs(d), All(base, d))
  {
    SampleCandidateKeys(base, d);
    SampleObjectsOk(base, d);
    CandidatesAre(base, d);
    ProtectedPair(Candidates(base, d), Member(base, d, 0), Member(base, d, 5));
  }

  /** Which member stands at a position of the candidates followed by the protected views. */
  function PlaceOf(i: nat): nat {
    if i < 4 then i + 1 else if i == 4 then 0 else 5
  }

  lemma AllAt(base: Sha, d: Pictures, i: nat)
    requires i < SIZE
    ensures |All(base, d)| == SIZE && All(base, d)[i] == Member(base, d, PlaceOf(i))
  {
  }

  lemma SampleEntriesOk(base: Sha, d: Pictures)
    requires d.Apart()
    ensures forall i :: 0 <= i < |All(base, d)| ==> EntryOk(SampleSha(base, d), {d.blind}, All(base, d)[i])
  {
    forall i | 0 <= i < |All(base, d)|
      ensures EntryOk(SampleSha(base, d), {d.blind}, All(base, d)[i])
    {
      AllAt(base, d, i);
      MemberOk(base, d, PlaceOf(i));
    }
  }

  lemma SampleIdsDiffer(base: Sha, d: Pictures)
    ensures DistinctIdsOf(All(base, d))
  {
    forall i, j | 0 <= i < j < |All(base, d)|
      ensures All(base, d)[i].assetId != All(base, d)[j].assetId
    {
      AllAt(base, d, i);
      AllAt(base, d, j);
      MemberStands(base, d, PlaceOf(i));
      MemberStands(base, d, PlaceOf(j));
    }
  }

  lemma SampleIsHonest(base: Sha, d: Pictures)
    requires d.Apart()
    ensures HonestRecords(SampleSha(base, d), SampleInputs(d), Candidates(base, d), Protected(base, d))
  {
    SampleInputsOk(base, d);
    SampleCovered(base, d);
    SampleMatches(base, d);
    SampleEntriesOk(base, d);
    SampleIdsDiffer(base, d);
    CandidatesAre(base, d);
  }

  // ---- the two programs on it ----

  lemma SampleVisit(base: Sha, d: Pictures)
    ensures VisitOrder(Candidates(base, d), Protected(base, d)) == All(base, d)
  {
    SortFixesAscending(Candidates(base, d), ById);
    SortFixesAscending(Protected(base, d), ById);
  }

  lemma AllNear(base: Sha, d: Pictures, i: nat, j: nat)
    requires i < SIZE && j < SIZE
    ensures HasEdge(Member(base, d, i), Member(base, d, j))
  {
    assert 0 in HASHES && PerceptualHash.BitDistance(0, 0) == 0;
    assert Near(Member(base, d, i), Member(base, d, j));
  }

  /** The protected source comes before the candidates in id order and after them in visiting order. */
  lemma SampleLosesIdOrder(base: Sha, d: Pictures)
    ensures !VisitKeepsIdOrder(All(base, d))
  {
    var all := All(base, d);
    AllNear(base, d, 1, 0);
    AllNear(base, d, 0, 5);
    assert all[0] == Member(base, d, 1) && all[4] == Member(base, d, 0) && all[5] == Member(base, d, 5);
    assert IsEdgeAt(all, (0, 4)) && IsEdgeAt(all, (4, 5));
    assert PairLe(IdPair(all, (4, 5)), IdPair(all, (0, 4)));
    assert RenderedIds(all, (0, 4)) == (0, 1) && RenderedIds(all, (4, 5)) == (0, 5);
  }

  /**
   * An honest data set with leakage: the auditor's report is blocked, and its edge list is in another order than that
   * of the re-deriver.
   */
  method BlockedOrdersDiffer(base: Sha, d: Pictures, cap: nat)
    returns (audited: Result<Evidence, Failure>, rebuilt: Result<Evidence, Failure>)
    requires Injective(base) && d.Apart() && |EdgesWithin(Nodes(All(base, d)))| <= cap
    ensures HonestRecords(SampleSha(base, d), SampleInputs(d), Candidates(base, d), Protected(base, d))
    ensures audited.Ok? && rebuilt.Ok? && audited.value.edges != rebuilt.value.edges
    ensures forall e :: e in audited.value.edges <==> e in rebuilt.value.edges
    ensures SomeEdgeBlocks(audited.value.edges)
  {
    var sha := SampleSha(base, d);
    RankedInjective(base, Preimages(base, d));
    SampleIsHonest(base, d);
    SampleVisit(base, d);
    SampleHashed(base, d);
    SampleLosesIdOrder(base, d);
    audited, rebuilt := RunBoth(sha, Candidates(base, d), Protected(base, d), cap);
    NodesDistinct(All(base, d));
    SampleBlocks(base, d, audited.value.edges);
  }

  lemma SampleHashed(base: Sha, d: Pictures)
    ensures Hashed(All(base, d))
  {
  }

  lemma SampleBlocks(base: Sha, d: Pictures, edges: seq<Edge>)
    requires DistinctIds(Nodes(All(base, d))) && IsEdgeListing(Nodes(All(base, d)), edges)
    ensures SomeEdgeBlocks(edges)
  {
    MemberStands(base, d, 0);
    MemberStands(base, d, 1);
    KindsDiffer();
    AllNear(base, d, 0, 1);
    var all := All(base, d);
    assert all[0] == Member(base, d, 1) && all[4] == Member(base, d, 0);
    EdgeBlocks(Nodes(all), edges, Member(base, d, 0), Member(base, d, 1));
  }
}
