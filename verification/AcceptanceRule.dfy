/** What an accepted near-duplicate report must say, in its own fields and those of the inputs. */
module AcceptanceRule {
  import opened AuditReport
  import opened Agreement
  import opened Graph
  import opened Order
  import PerceptualHash
  import opened Wrappers

  // ---- one entry ----

  predicate Candidate(e: Entry) {
    e.role == "train" || e.role == "model_validation"
  }

  predicate Reserved(e: Entry) {
    e.role == "qx3_diagnostic" || e.role == "hardware41" || e.role == "known_audit" || e.role == "calibration" ||
    e.role == "blind_test"
  }

  /** A candidate outside the protected sources or a protected entry among them, under its derived id. */
  predicate EntrySays(sha: Sha, protectedSources: set<Digest>, e: Entry) {
    && ((Candidate(e) && e.cohort == "candidate" && e.sourceSha !in protectedSources) ||
        (Reserved(e) && e.cohort == e.role && e.sourceSha in protectedSources))
    && (e.viewKind == "crop" || (e.viewKind == "source" && e.imageSha == e.sourceSha)) && e.sampleId != ""
    && e.assetId == sha(AssetPreimage(e.cohort, e.imageSha, e.role, e.sampleId, e.sourceSha, e.viewKind))
    && 1 <= e.size <= 64 * 1024 * 1024 && 1 <= e.width && 1 <= e.height && e.width * e.height <= 16_000_000
    && |e.phash| == 4 && (forall x :: x in e.phash ==> 0 <= x < 0x1_0000_0000_0000_0000)
  }

  lemma EntryOkExactly(sha: Sha, protectedSources: set<Digest>, e: Entry)
    ensures EntryOk(sha, protectedSources, e) <==> EntrySays(sha, protectedSources, e)
  {
    assert e.role in CANDIDATE_ROLES <==> Candidate(e);
    assert e.role in PROTECTED_ROLES <==> Reserved(e);
    assert forall k :: 0 <= k < |e.phash| ==> e.phash[k] in e.phash;
  }

  // ---- the views of a source ----

  ghost function ViewsAt(entries: seq<Entry>, candidate: bool, source: bool): set<nat> {
    set k | 0 <= k < |entries| && Candidate(entries[k]) == candidate && (entries[k].viewKind == "source") == source
  }

  /** Where a role's views of a source are. */
  ghost function RoleViews(entries: seq<Entry>, source: bool, role: string, digest: Digest): set<nat> {
    set k | k in ViewsAt(entries, true, source) && entries[k].role == role && entries[k].sourceSha == digest
  }

  ghost function ProtectedViews(entries: seq<Entry>, source: bool, digest: Digest): set<nat> {
    set k | k in ViewsAt(entries, false, source) && entries[k].sourceSha == digest
  }

  /** One source view and one crop view each: of half the candidate assets, and of every protected source. */
  ghost predicate ViewsSay(inputs: Inputs, entries: seq<Entry>) {
    && (forall role, digest :: |RoleViews(entries, true, role, digest)| <= 1)
    && (forall role, digest :: |RoleViews(entries, false, role, digest)| == |RoleViews(entries, true, role, digest)|)
    && |set k | k in ViewsAt(entries, true, true) :: (entries[k].role, entries[k].sourceSha)| ==
         inputs.candidateAssets / 2
    && (forall digest :: |ProtectedViews(entries, true, digest)| == if digest in inputs.protectedSources then 1 else 0)
    && (forall digest :: |ProtectedViews(entries, false, digest)| == if digest in inputs.protectedSources then 1 else 0)
  }

  ghost predicate Belongs<T>(e: Entry, candidate: bool, source: bool, f: Entry -> T, x: T) {
    Candidate(e) == candidate && (e.viewKind == "source") == source && f(e) == x
  }

  ghost function Fitting<T>(entries: seq<Entry>, candidate: bool, source: bool, f: Entry -> T, x: T): set<nat> {
    set k | 0 <= k < |entries| && Belongs(entries[k], candidate, source, f, x)
  }

  lemma FittingNext<T>(init: seq<Entry>, last: Entry, candidate: bool, source: bool, f: Entry -> T, x: T)
    ensures |Fitting(init + [last], candidate, source, f, x)| ==
      |Fitting(init, candidate, source, f, x)| + if Belongs(last, candidate, source, f, x) then 1 else 0
  {
    assert Fitting(init + [last], candidate, source, f, x) ==
      Fitting(init, candidate, source, f, x) + if Belongs(last, candidate, source, f, x) then {|init|} else {};
  }

  /** A counter over some views counts positions. */
  lemma {:induction false} ViewCount<T>(entries: seq<Entry>, candidate: bool, source: bool, f: Entry -> T, x: T)
    ensures CountBy(Views(entries, candidate, source), f)[x] == |Fitting(entries, candidate, source, f, x)|
  {
    if entries == [] {
      assert Fitting(entries, candidate, source, f, x) == {};
    } else {
      var init, last := entries[..|entries| - 1], entries[|entries| - 1];
      ViewCount(init, candidate, source, f, x);
      assert entries == init + [last];
      FittingNext(init, last, candidate, source, f, x);
      assert IsCandidate(last) <==> Candidate(last);
      var before := Views(init, candidate, source);
      assert (before + [last])[..|before|] == before && before + [] == before;
    }
  }

  /** The four counters are those of the views. */
  lemma CountersSay(inputs: Inputs, entries: seq<Entry>)
    ensures ViewsCovered(inputs, entries) <==> ViewsSay(inputs, entries)
  {
    var cs, cc := RoleSources(Views(entries, true, true)), RoleSources(Views(entries, true, false));
    var ps, pc := SourcesOf(Views(entries, false, true)), SourcesOf(Views(entries, false, false));
    RoleCounts(entries, true);
    RoleCounts(entries, false);
    SourceCounts(entries, true);
    SourceCounts(entries, false);
    PairsSay(entries, cs);
    CoveredExactly(inputs, cs, cc, ps, pc);
  }

  lemma {:induction false} RoleCount(entries: seq<Entry>, source: bool, role: string, digest: Digest)
    ensures RoleSources(Views(entries, true, source))[(role, digest)] == |RoleViews(entries, source, role, digest)|
  {
    ViewCount(entries, true, source, RoleSource, (role, digest));
    assert Fitting(entries, true, source, RoleSource, (role, digest)) == RoleViews(entries, source, role, digest);
  }

  lemma {:induction false} SourceCount(entries: seq<Entry>, source: bool, digest: Digest)
    ensures SourcesOf(Views(entries, false, source))[digest] == |ProtectedViews(entries, source, digest)|
  {
    ViewCount(entries, false, source, SourceShaOf, digest);
    assert Fitting(entries, false, source, SourceShaOf, digest) == ProtectedViews(entries, source, digest);
  }

  lemma RoleCounts(entries: seq<Entry>, source: bool)
    ensures forall role, digest ::
      RoleSources(Views(entries, true, source))[(role, digest)] == |RoleViews(entries, source, role, digest)|
  {
    forall role, digest
      ensures RoleSources(Views(entries, true, source))[(role, digest)] == |RoleViews(entries, source, role, digest)|
    {
      RoleCount(entries, source, role, digest);
    }
  }

  lemma SourceCounts(entries: seq<Entry>, source: bool)
    ensures forall digest ::
      SourcesOf(Views(entries, false, source))[digest] == |ProtectedViews(entries, source, digest)|
  {
    forall digest
      ensures SourcesOf(Views(entries, false, source))[digest] == |ProtectedViews(entries, source, digest)|
    {
      SourceCount(entries, source, digest);
    }
  }

  /** The counted pairs are those of the source views. */
  lemma PairsSay(entries: seq<Entry>, cs: multiset<(string, Digest)>)
    requires forall role, digest :: cs[(role, digest)] == |RoleViews(entries, true, role, digest)|
    ensures (set x | x in cs) == set k | k in ViewsAt(entries, true, true) :: (entries[k].role, entries[k].sourceSha)
  {
    forall x | x in cs
      ensures exists k :: k in ViewsAt(entries, true, true) && (entries[k].role, entries[k].sourceSha) == x
    {
      assert cs[(x.0, x.1)] == |RoleViews(entries, true, x.0, x.1)|;
      assert RoleViews(entries, true, x.0, x.1) != {};
      var k :| k in RoleViews(entries, true, x.0, x.1);
    }
    forall k | k in ViewsAt(entries, true, true)
      ensures (entries[k].role, entries[k].sourceSha) in cs
    {
      assert k in RoleViews(entries, true, entries[k].role, entries[k].sourceSha);
    }
  }

  lemma CoveredExactly(inputs: Inputs, cs: multiset<(string, Digest)>, cc: multiset<(string, Digest)>,
                       ps: multiset<Digest>, pc: multiset<Digest>)
    ensures CountersCovered(inputs, cs, cc, ps, pc) <==>
      (&& (forall role, digest :: cs[(role, digest)] <= 1)
       && (forall role, digest :: cc[(role, digest)] == cs[(role, digest)])
       && |set x | x in cs| == inputs.candidateAssets / 2
       && (forall digest :: ps[digest] == if digest in inputs.protectedSources then 1 else 0)
       && (forall digest :: pc[digest] == if digest in inputs.protectedSources then 1 else 0))
  {
    if forall role, digest :: cc[(role, digest)] == cs[(role, digest)] {
      forall x: (string, Digest)
        ensures cc[x] == cs[x]
      {
        assert x == (x.0, x.1);
      }
      assert cc == cs;
    }
    if forall digest :: ps[digest] == if digest in inputs.protectedSources then 1 else 0 {
      assert (set s | s in ps) == inputs.protectedSources;
      if forall digest :: pc[digest] == if digest in inputs.protectedSources then 1 else 0 {
        assert pc == ps;
      }
    }
    if CountersCovered(inputs, cs, cc, ps, pc) {
      forall role, digest
        ensures cs[(role, digest)] <= 1
      {
        assert (role, digest) in cs ==> cs[(role, digest)] == 1;
      }
      forall digest
        ensures ps[digest] == if digest in inputs.protectedSources then 1 else 0
      {
        assert digest in ps <==> digest in (set s | s in ps);
      }
    }
    if forall role, digest :: cs[(role, digest)] <= 1 {
      forall x | x in cs
        ensures cs[x] == 1
      {
        assert cs[(x.0, x.1)] <= 1;
      }
    }
  }

  // ---- the entries against the inputs ----

  /** The source view of a manifest row. */
  predicate SourceViewOf(role: string, row: ManifestRow, e: Entry) {
    && e.role == role && e.viewKind == "source" && e.sampleId == "source:" + role + ":" + Hex(row.sourceSha, 64)
    && e.sourceSha == row.sourceSha && e.imageSha == row.sourceSha
  }

  /** The crop view of a manifest row. */
  predicate CropViewOf(role: string, row: ManifestRow, e: Entry) {
    && e.role == role && e.viewKind == "crop" && e.sampleId == row.sampleId
    && e.sourceSha == row.sourceSha && e.imageSha == row.imageSha
  }

  /** The view of an inventoried object. */
  predicate ObjectViewOf(sha: Sha, o: InventoryObject, e: Entry) {
    && e.role == o.cohort && e.viewKind == o.viewKind && e.sourceSha == o.sourceSha && e.imageSha == o.imageSha
    && e.size == o.size
    && |Hex(o.imageSha, 64)| >= 16 && |Hex(sha(PathPreimage(o.path)), 64)| >= 16
    && e.sampleId == "protected:" + o.cohort + ":" + o.viewKind + ":" + Hex(o.imageSha, 64)[..16] + ":" +
                     Hex(sha(PathPreimage(o.path)), 64)[..16]
  }

  /** Two views for every row, one for every object, and no entry without its row or object. */
  ghost predicate EntriesFollow(sha: Sha, inputs: Inputs, entries: seq<Entry>) {
    RowsFollow(inputs, entries) && ObjectsFollow(sha, inputs, entries)
  }

  lemma KeysSay(sha: Sha, role: string, row: ManifestRow, o: InventoryObject, e: Entry)
    ensures EntryKey(e) == SourceKey(role, row) && e.viewKind == "source" <==> SourceViewOf(role, row, e)
    ensures EntryKey(e) == CropKey(role, row) && e.viewKind == "crop" <==> CropViewOf(role, row, e)
    ensures ProtectedEntryKey(e) == ObjectKey(sha, o) <==> ObjectViewOf(sha, o, e)
  {
    HexLength(o.imageSha, 64);
    HexLength(sha(PathPreimage(o.path)), 64);
  }

  ghost predicate AllSay(sha: Sha, protectedSources: set<Digest>, entries: seq<Entry>) {
    forall e :: e in entries ==> EntrySays(sha, protectedSources, e)
  }

  /** Candidate entries and rows: the key sets agree exactly when each has its counterpart. */
  ghost predicate RowsFollow(inputs: Inputs, entries: seq<Entry>) {
    && (forall role, row :: role in inputs.rows && row in inputs.rows[role] ==>
          && (exists e :: e in entries && Candidate(e) && SourceViewOf(role, row, e))
          && (exists e :: e in entries && Candidate(e) && CropViewOf(role, row, e)))
    && (forall e :: e in entries && Candidate(e) ==> HasRow(inputs, e))
  }

  ghost predicate HasRow(inputs: Inputs, e: Entry) {
    exists role, row :: role in inputs.rows && row in inputs.rows[role] &&
      (SourceViewOf(role, row, e) || CropViewOf(role, row, e))
  }

  ghost predicate ObjectsFollow(sha: Sha, inputs: Inputs, entries: seq<Entry>) {
    && (forall o :: o in inputs.objects ==> exists e :: e in entries && Reserved(e) && ObjectViewOf(sha, o, e))
    && (forall e :: e in entries && Reserved(e) ==> exists o :: o in inputs.objects && ObjectViewOf(sha, o, e))
  }

  lemma ObjectsExactly(sha: Sha, inputs: Inputs, entries: seq<Entry>)
    requires AllSay(sha, inputs.protectedSources, entries)
    ensures ProtectedKeys(entries) == ExpectedProtected(sha, inputs.objects) <==> ObjectsFollow(sha, inputs, entries)
  {
    var have, want := ProtectedKeys(entries), ExpectedProtected(sha, inputs.objects);
    forall e, o
      ensures ProtectedEntryKey(e) == ObjectKey(sha, o) <==> ObjectViewOf(sha, o, e)
    {
      KeysSay(sha, "", ManifestRow("", 0, 0), o, e);
    }
    forall e | e in entries
      ensures !IsCandidate(e) <==> Reserved(e)
    {
      assert EntrySays(sha, inputs.protectedSources, e);
    }
    if have == want {
      forall o | o in inputs.objects
        ensures exists e :: e in entries && Reserved(e) && ObjectViewOf(sha, o, e)
      {
        assert ObjectKey(sha, o) in have;
      }
      forall e | e in entries && Reserved(e)
        ensures exists o :: o in inputs.objects && ObjectViewOf(sha, o, e)
      {
        assert ProtectedEntryKey(e) in want;
      }
    }
  }

  lemma {:induction false} RowsExactly(sha: Sha, inputs: Inputs, entries: seq<Entry>)
    requires AllSay(sha, inputs.protectedSources, entries)
    ensures RowsFollow(inputs, entries) <==>
      (&& EntryKeys(Views(entries, true, true)) == ExpectedSources(inputs.rows)
       && EntryKeys(Views(entries, true, false)) == ExpectedCrops(inputs.rows))
  {
    forall e, source: bool
      ensures e in Views(entries, true, source) <==>
        e in entries && Candidate(e) && e.viewKind == if source then "source" else "crop"
    {
      ViewMembers(entries, true, source, e);
      assert e in entries ==> EntrySays(sha, inputs.protectedSources, e);
    }
    forall role, row, e
      ensures EntryKey(e) == SourceKey(role, row) && e.viewKind == "source" <==> SourceViewOf(role, row, e)
      ensures EntryKey(e) == CropKey(role, row) && e.viewKind == "crop" <==> CropViewOf(role, row, e)
    {
      KeysSay(sha, role, row, InventoryObject("", "", "", 0, 0, 0), e);
    }
    SourcesExactly(inputs, entries, Views(entries, true, true), Views(entries, true, false));
  }

  lemma SourcesExactly(inputs: Inputs, entries: seq<Entry>, sources: seq<Entry>, crops: seq<Entry>)
    requires forall e :: e in sources <==> e in entries && Candidate(e) && e.viewKind == "source"
    requires forall e :: e in crops <==> e in entries && Candidate(e) && e.viewKind == "crop"
    requires forall e :: e in entries && Candidate(e) ==> e in sources || e in crops
    requires forall role, row, e ::
      EntryKey(e) == SourceKey(role, row) && e.viewKind == "source" <==> SourceViewOf(role, row, e)
    requires forall role, row, e ::
      EntryKey(e) == CropKey(role, row) && e.viewKind == "crop" <==> CropViewOf(role, row, e)
    ensures RowsFollow(inputs, entries) <==>
      EntryKeys(sources) == ExpectedSources(inputs.rows) && EntryKeys(crops) == ExpectedCrops(inputs.rows)
  {
    if EntryKeys(sources) == ExpectedSources(inputs.rows) && EntryKeys(crops) == ExpectedCrops(inputs.rows) {
      forall role, row | role in inputs.rows && row in inputs.rows[role]
        ensures exists e :: e in entries && Candidate(e) && SourceViewOf(role, row, e)
        ensures exists e :: e in entries && Candidate(e) && CropViewOf(role, row, e)
      {
        assert SourceKey(role, row) in EntryKeys(sources) && CropKey(role, row) in EntryKeys(crops);
      }
      forall e | e in entries && Candidate(e)
        ensures HasRow(inputs, e)
      {
        if e in sources {
          assert EntryKey(e) in ExpectedSources(inputs.rows);
        } else {
          assert EntryKey(e) in ExpectedCrops(inputs.rows);
        }
      }
    }
    if RowsFollow(inputs, entries) {
      forall e | e in sources
        ensures EntryKey(e) in ExpectedSources(inputs.rows)
      {
        assert HasRow(inputs, e);
      }
      forall e | e in crops
        ensures EntryKey(e) in ExpectedCrops(inputs.rows)
      {
        assert HasRow(inputs, e);
      }
      assert EntryKeys(sources) == ExpectedSources(inputs.rows);
      assert EntryKeys(crops) == ExpectedCrops(inputs.rows);
    }
  }

  /** Entries match the inputs exactly when rows and objects have their views, and views their rows and objects. */
  lemma MatchExactly(sha: Sha, inputs: Inputs, entries: seq<Entry>)
    requires AllSay(sha, inputs.protectedSources, entries)
    ensures EntriesMatchInputs(sha, inputs, entries) <==> EntriesFollow(sha, inputs, entries)
  {
    ObjectsExactly(sha, inputs, entries);
    RowsExactly(sha, inputs, entries);
  }

  // ---- the whole report ----

  /** Which images the two payload digests are over. */
  ghost predicate PayloadsSay(sha: Sha, report: Report) {
    && report.candidatePayload ==
         sha(DigestList(SortedNats(set e | e in report.entries && Candidate(e) :: e.imageSha)))
    && report.protectedPayload ==
         sha(DigestList(SortedNats(set e | e in report.entries && !Candidate(e) :: e.imageSha)))
  }

  ghost predicate HeaderSays(inputs: Inputs, report: Report) {
    && report.status == "passed" && report.ok
    && report.coverage.candidateAssets == inputs.candidateAssets
    && report.coverage.protectedAssets == inputs.protectedAssets
    && report.coverage.protectedUnion == |inputs.protectedSources|
    && report.coverage.verified == |report.entries| == inputs.candidateAssets + inputs.protectedAssets
    && report.coverage.complete
  }

  /** Entries good in themselves, by ascending id, with all views, and matching the inputs. */
  ghost predicate EntriesSay(sha: Sha, inputs: Inputs, entries: seq<Entry>) {
    && AllSay(sha, inputs.protectedSources, entries)
    && (forall i, j :: 0 <= i < j < |entries| ==> entries[i].assetId < entries[j].assetId)
    && ViewsSay(inputs, entries) && EntriesFollow(sha, inputs, entries)
  }

  /** Acceptance in the report's own fields; the graph of the entries and the inputs' own order are as before. */
  ghost predicate Deserves(sha: Sha, inputs: Inputs, report: Report, cap: nat) {
    && HeaderSays(inputs, report) && InputsOk(sha, inputs)
    && EntriesSay(sha, inputs, report.entries) && PayloadsSay(sha, report)
    && GraphOk(sha, report, cap) && SummaryOk(report)
  }

  lemma EntriesExactly(sha: Sha, inputs: Inputs, entries: seq<Entry>)
    ensures EntriesOk(sha, inputs, entries) <==> EntriesSay(sha, inputs, entries)
  {
    forall i | 0 <= i < |entries|
      ensures EntryOk(sha, inputs.protectedSources, entries[i]) <==> EntrySays(sha, inputs.protectedSources, entries[i])
      ensures entries[i] in entries
    {
      EntryOkExactly(sha, inputs.protectedSources, entries[i]);
    }
    CountersSay(inputs, entries);
    if AllSay(sha, inputs.protectedSources, entries) {
      MatchExactly(sha, inputs, entries);
    }
  }

  lemma PayloadsExactly(sha: Sha, report: Report)
    ensures PayloadsBound(sha, report) <==> PayloadsSay(sha, report)
  {
    assert PayloadImages(report.entries, true) == set e | e in report.entries && Candidate(e) :: e.imageSha;
    assert PayloadImages(report.entries, false) == set e | e in report.entries && !Candidate(e) :: e.imageSha;
  }

  lemma HeaderExactly(inputs: Inputs, report: Report)
    ensures HeaderOk(inputs, report) <==> HeaderSays(inputs, report)
  {
  }

  /** The acceptance predicate says that of the report's fields. */
  lemma AcceptsExactly(sha: Sha, inputs: Inputs, report: Report, cap: nat)
    ensures Accepts(sha, inputs, report, cap) <==> Deserves(sha, inputs, report, cap)
  {
    HeaderExactly(inputs, report);
    EntriesExactly(sha, inputs, report.entries);
    PayloadsExactly(sha, report);
  }

  // ---- hexadecimal ----

  /** Digit `i` of a digest in hexadecimal. */
  function Sixteen(k: nat): (r: nat)
    ensures r > 0
  {
    if k == 0 then 1 else 16 * Sixteen(k - 1)
  }

  lemma DivideTwice(v: nat, d: nat)
    requires d > 0
    ensures v / 16 / d == v / (16 * d)
  {
    var q := v / 16 / d;
    assert v / 16 == q * d + v / 16 % d;
    assert v == 16 * (v / 16) + v % 16;
    assert v == q * (16 * d) + (16 * (v / 16 % d) + v % 16);
    PerceptualHash.QuotientIs(v, 16 * d, q, 16 * (v / 16 % d) + v % 16);
  }

  lemma {:induction false} HexAt(value: nat, width: nat, i: nat)
    requires i < width
    ensures |Hex(value, width)| == width
    ensures Hex(value, width)[i] == "0123456789abcdef"[value / Sixteen(width - 1 - i) % 16]
  {
    HexLength(value, width);
    HexLength(value / 16, width - 1);
    if i < width - 1 {
      HexAt(value / 16, width - 1, i);
      DivideTwice(value, Sixteen(width - 2 - i));
    }
  }
}
