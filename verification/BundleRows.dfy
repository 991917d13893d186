/** Candidate row selection: exclusions, per-row checks, identity bookkeeping, and the snapshot plan it feeds. */
module BundleRows {
  import opened Order
  import opened Wrappers

  datatype Role = Train | ModelValidation

  datatype Kind = Operational | AiHub | OtherKind

  datatype Row = Row(
    role: Option<Role>,
    splitRole: Option<Role>,
    fold: Option<Role>,
    sourceSha: Digest,
    imageSha: Digest,
    sourcePath: nat,
    cropPath: nat,
    sampleId: Option<nat>,
    origin: nat,
    captured: Option<int>,
    evidence: nat,
    material: Option<int>,
    category: int,
    sourceCount: Option<int>,
    cropCount: Option<int>,
    targets: seq<Option<int>>,
    objectGroup: Option<nat>,
    captureSession: Option<nat>)

  datatype Payload = Payload(path: nat, size: nat)

  /** `payload(path, sha)` is the verified input file, or nothing when reading or hashing it failed. */
  datatype Policy = Policy(
    protectedShas: set<Digest>,
    qualityExcluded: map<Digest, nat>,
    kinds: map<nat, Kind>,
    cutoff: int,
    evidence: map<Digest, nat>,
    placed: Row -> bool,
    payload: (nat, Digest) -> Option<Payload>)

  datatype Exclusion = Quality(reason: nat) | BeforeCutoff

  datatype Refusal =
    | Protected | Misplaced | UnknownOrigin | BadRole | NotTrainOnly | EvidenceMismatch | BadTimestamp | Leakage
    | UnreadablePayload | DuplicatePayload | BadSample | BadLabels | EmptyIdentity | EmptyRole

  // ---- one row on its own ----

  /** The checks made before a row may be excluded. */
  function GateError(policy: Policy, row: Row): Option<Refusal> {
    if row.sourceSha in policy.protectedShas then Some(Protected)
    else if !policy.placed(row) then Some(Misplaced)
    else if row.origin !in policy.kinds then Some(UnknownOrigin)
    else if row.role.None? || row.splitRole != row.role || row.fold != row.role then Some(BadRole)
    else if row.sourceSha !in policy.qualityExcluded && policy.kinds[row.origin] == Operational && row.captured.None?
      then Some(BadTimestamp)
    else None
  }

  /** Why a row that passed the gate is left out, if it is. */
  function ExclusionOf(policy: Policy, row: Row): Option<Exclusion>
    requires GateError(policy, row).None?
  {
    if row.sourceSha in policy.qualityExcluded then Some(Quality(policy.qualityExcluded[row.sourceSha]))
    else if policy.kinds[row.origin] == Operational && row.captured.value < policy.cutoff then Some(BeforeCutoff)
    else None
  }

  predicate Kept(policy: Policy, row: Row) {
    GateError(policy, row).None? && ExclusionOf(policy, row).None?
  }

  function KindError(policy: Policy, row: Row): Option<Refusal>
    requires Kept(policy, row)
  {
    if policy.kinds[row.origin] == Operational then
      if row.role != Some(Train) then Some(NotTrainOnly)
      else if row.sourceSha !in policy.evidence || policy.evidence[row.sourceSha] != row.evidence
        then Some(EvidenceMismatch)
      else None
    else if policy.kinds[row.origin] == AiHub then None
    else Some(UnknownOrigin)
  }

  predicate Readable(policy: Policy, row: Row) {
    policy.payload(row.sourcePath, row.sourceSha).Some? && policy.payload(row.cropPath, row.imageSha).Some?
  }

  /** The condition heads `dent`, `label` and `foreign_material`. */
  const CONDITION_HEADS: nat := 3

  /** Numeric fields, category, object counts, and one target of -1, 0 or 1 per condition head. */
  predicate LabelsOk(row: Row) {
    && row.material.Some? && row.sourceCount.Some? && row.cropCount.Some?
    && 0 <= row.material.value <= 9 && row.category == row.material.value
    && (row.sourceCount.value == 0 || row.sourceCount.value == 1)
    && row.cropCount.value == (if row.material.value == 9 then 0 else 1)
    && row.cropCount.value <= row.sourceCount.value
    && |row.targets| == CONDITION_HEADS
    && (forall h :: 0 <= h < CONDITION_HEADS ==> row.targets[h].Some? && -1 <= row.targets[h].value <= 1)
  }

  /** Everything a selected row must satisfy by itself. */
  predicate Complete(policy: Policy, row: Row) {
    && Kept(policy, row) && KindError(policy, row).None? && Readable(policy, row)
    && row.sampleId.Some? && LabelsOk(row) && row.objectGroup.Some? && row.captureSession.Some?
  }

  /** The values that tie a selected row to files, content, sample and lineage. */
  datatype Identity = Identity(source: Digest, image: Digest, sourceFile: nat, cropFile: nat, sample: nat,
                               group: nat, session: nat, role: Role)

  function IdentityOf(policy: Policy, row: Row): Identity
    requires Complete(policy, row)
  {
    Identity(row.sourceSha, row.imageSha,
             policy.payload(row.sourcePath, row.sourceSha).value.path,
             policy.payload(row.cropPath, row.imageSha).value.path,
             row.sampleId.value, row.objectGroup.value, row.captureSession.value, row.role.value)
  }

  // ---- two selected rows ----

  /** Two selected rows share no file, no content and no sample, and no lineage across roles. */
  predicate Apart(x: Identity, y: Identity) {
    && x.source != y.source && x.image != y.image && x.sample != y.sample
    && x.sourceFile != y.sourceFile && x.cropFile != y.cropFile
    && (x.role != y.role ==> x.group != y.group && x.session != y.session)
  }

  function KeptRows(policy: Policy, rows: seq<Row>): seq<Row> {
    if rows == [] then []
    else
      KeptRows(policy, rows[..|rows| - 1]) + if Kept(policy, rows[|rows| - 1]) then [rows[|rows| - 1]] else []
  }

  function ExclusionBag(policy: Policy, row: Row): multiset<Exclusion> {
    if GateError(policy, row).None? && ExclusionOf(policy, row).Some? then multiset{ExclusionOf(policy, row).value}
    else multiset{}
  }

  function Exclusions(policy: Policy, rows: seq<Row>): multiset<Exclusion> {
    if rows == [] then multiset{}
    else Exclusions(policy, rows[..|rows| - 1]) + ExclusionBag(policy, rows[|rows| - 1])
  }

  /** What a list of input rows must satisfy to be selected from. */
  ghost predicate Admissible(policy: Policy, rows: seq<Row>) {
    var kept := KeptRows(policy, rows);
    && (forall k :: 0 <= k < |rows| ==> GateError(policy, rows[k]).None?)
    && (forall k :: 0 <= k < |kept| ==> Complete(policy, kept[k]))
    && (forall i, j :: 0 <= i < j < |kept| ==> Apart(IdentityOf(policy, kept[i]), IdentityOf(policy, kept[j])))
  }

  // ---- the indexes ----

  /** The identity maps and duplicate sets the loop keeps. */
  datatype Index = Index(
    sourceRole: map<Digest, Role>,
    imageRole: map<Digest, Role>,
    groupRole: map<nat, Role>,
    sessionRole: map<nat, Role>,
    samples: set<nat>,
    sourceFiles: set<nat>,
    sourceShas: set<Digest>,
    cropFiles: set<nat>,
    cropShas: set<Digest>)
  {
    function Enter(id: Identity): Index {
      Index(sourceRole[id.source := id.role], imageRole[id.image := id.role],
            groupRole[id.group := id.role], sessionRole[id.session := id.role],
            samples + {id.sample}, sourceFiles + {id.sourceFile}, sourceShas + {id.source},
            cropFiles + {id.cropFile}, cropShas + {id.image})
    }

    /** The leakage and duplicate checks. */
    predicate Admits(id: Identity) {
      AdmitsSets(this, id) && AdmitsRoles(this, id)
    }
  }

  predicate Crosses<V>(roles: map<V, Role>, v: V, role: Role) {
    v in roles && roles[v] != role
  }

  const EMPTY_INDEX := Index(map[], map[], map[], map[], {}, {}, {}, {}, {})

  predicate AdmitsSets(index: Index, id: Identity) {
    && id.sourceFile !in index.sourceFiles && id.source !in index.sourceShas
    && id.cropFile !in index.cropFiles && id.image !in index.cropShas && id.sample !in index.samples
  }

  predicate AdmitsRoles(index: Index, id: Identity) {
    && !Crosses(index.sourceRole, id.source, id.role) && !Crosses(index.imageRole, id.image, id.role)
    && !Crosses(index.groupRole, id.group, id.role) && !Crosses(index.sessionRole, id.session, id.role)
  }

  /** The indexes after entering a list of identities one by one. */
  ghost function IndexOf(ids: seq<Identity>): Index {
    if ids == [] then EMPTY_INDEX else IndexOf(ids[..|ids| - 1]).Enter(ids[|ids| - 1])
  }

  ghost predicate AllApart(ids: seq<Identity>) {
    forall i, j :: 0 <= i < j < |ids| ==> Apart(ids[i], ids[j])
  }

  lemma EnterAdmits(index: Index, last: Identity, id: Identity)
    requires index.Admits(last)
    ensures index.Enter(last).Admits(id) <==> index.Admits(id) && Apart(last, id)
  {
  }

  /** The indexes admit an identity exactly when it is apart from everything entered so far. */
  lemma {:induction false} AdmitsIffApart(ids: seq<Identity>, id: Identity)
    requires AllApart(ids)
    ensures IndexOf(ids).Admits(id) <==> forall k :: 0 <= k < |ids| ==> Apart(ids[k], id)
  {
    if ids != [] {
      var earlier, last := ids[..|ids| - 1], ids[|ids| - 1];
      AdmitsIffApart(earlier, last);
      AdmitsIffApart(earlier, id);
      EnterAdmits(IndexOf(earlier), last, id);
      assert forall k :: 0 <= k < |earlier| ==> ids[k] == earlier[k];
    }
  }

  // ---- the outputs ----

  datatype PlanEntry = PlanEntry(sample: nat, role: Role, path: (nat, Digest), size: nat, sha: Digest)

  /** `_snapshot_relative_path`: the first byte of the digest, then the digest. */
  function ObjectPath(sha: Digest): (nat, Digest) {
    (sha / 0x1_00000000_00000000_00000000_00000000_00000000_00000000_00000000_000000, sha)
  }

  function EntryFor(policy: Policy, row: Row): PlanEntry
    requires Complete(policy, row)
  {
    PlanEntry(row.sampleId.value, row.role.value, ObjectPath(row.imageSha),
              policy.payload(row.cropPath, row.imageSha).value.size, row.imageSha)
  }

  datatype Ledger = Ledger(index: Index, train: seq<Row>, validation: seq<Row>, plan: seq<PlanEntry>,
                           excluded: multiset<Exclusion>)

  function OfRole(rows: seq<Row>, role: Role): seq<Row> {
    if rows == [] then []
    else OfRole(rows[..|rows| - 1], role) + if rows[|rows| - 1].role == Some(role) then [rows[|rows| - 1]] else []
  }

  ghost predicate AllComplete(policy: Policy, kept: seq<Row>) {
    forall k :: 0 <= k < |kept| ==> Complete(policy, kept[k])
  }

  ghost function Identities(policy: Policy, kept: seq<Row>): (r: seq<Identity>)
    requires AllComplete(policy, kept)
    ensures |r| == |kept| && forall k :: 0 <= k < |kept| ==> r[k] == IdentityOf(policy, kept[k])
  {
    seq(|kept|, k requires 0 <= k < |kept| => IdentityOf(policy, kept[k]))
  }

  /** Rows by role, the snapshot plan, and the exclusions of the skipped rows. */
  ghost predicate Records(policy: Policy, kept: seq<Row>, skipped: multiset<Exclusion>, l: Ledger)
    requires AllComplete(policy, kept)
  {
    && l.train == OfRole(kept, Train) && l.validation == OfRole(kept, ModelValidation)
    && |l.plan| == |kept| && (forall k :: 0 <= k < |kept| ==> l.plan[k] == EntryFor(policy, kept[k]))
    && l.excluded == skipped
  }

  ghost predicate LedgerOk(policy: Policy, kept: seq<Row>, skipped: multiset<Exclusion>, l: Ledger) {
    && AllComplete(policy, kept) && Records(policy, kept, skipped, l)
    && AllApart(Identities(policy, kept)) && l.index == IndexOf(Identities(policy, kept))
  }

  /** Every index learns the row; its role's list and the plan grow by one. */
  function Enter(policy: Policy, row: Row, l: Ledger): Ledger
    requires Complete(policy, row)
  {
    Ledger(l.index.Enter(IdentityOf(policy, row)),
           if row.role == Some(Train) then l.train + [row] else l.train,
           if row.role == Some(ModelValidation) then l.validation + [row] else l.validation,
           l.plan + [EntryFor(policy, row)], l.excluded)
  }

  lemma EnterRecords(policy: Policy, kept: seq<Row>, skipped: multiset<Exclusion>, l: Ledger, row: Row)
    requires AllComplete(policy, kept) && Records(policy, kept, skipped, l) && Complete(policy, row)
    ensures AllComplete(policy, kept + [row]) && Records(policy, kept + [row], skipped, Enter(policy, row, l))
  {
    assert (kept + [row])[..|kept|] == kept;
  }

  lemma EnterKeeps(policy: Policy, kept: seq<Row>, skipped: multiset<Exclusion>, l: Ledger, row: Row)
    requires LedgerOk(policy, kept, skipped, l) && Complete(policy, row) && l.index.Admits(IdentityOf(policy, row))
    ensures LedgerOk(policy, kept + [row], skipped, Enter(policy, row, l))
  {
    EnterRecords(policy, kept, skipped, l, row);
    var ids, id := Identities(policy, kept), IdentityOf(policy, row);
    AdmitsIffApart(ids, id);
    assert Identities(policy, kept + [row]) == ids + [id];
    assert (ids + [id])[..|ids|] == ids;
  }

  // ---- the loop ----

  /** What `row` must satisfy after the rows kept so far. */
  ghost predicate Fits(policy: Policy, kept: seq<Row>, row: Row)
    requires AllComplete(policy, kept)
  {
    && GateError(policy, row).None?
    && (Kept(policy, row) ==>
          && Complete(policy, row)
          && (forall k :: 0 <= k < |kept| ==> Apart(IdentityOf(policy, kept[k]), IdentityOf(policy, row))))
  }

  /** What a refusal says of the row itself. */
  predicate FaultOf(policy: Policy, row: Row, refusal: Refusal) {
    match refusal
    case Protected => row.sourceSha in policy.protectedShas
    case Misplaced => !policy.placed(row)
    case UnknownOrigin => row.origin !in policy.kinds || policy.kinds[row.origin] == OtherKind
    case BadRole => row.role.None? || row.splitRole != row.role || row.fold != row.role
    case BadTimestamp => row.origin in policy.kinds && policy.kinds[row.origin] == Operational && row.captured.None?
    case NotTrainOnly =>
      row.origin in policy.kinds && policy.kinds[row.origin] == Operational && row.role != Some(Train)
    case EvidenceMismatch =>
      row.sourceSha !in policy.evidence || policy.evidence[row.sourceSha] != row.evidence
    case UnreadablePayload =>
      policy.payload(row.sourcePath, row.sourceSha).None? || policy.payload(row.cropPath, row.imageSha).None?
    case BadSample => row.sampleId.None?
    case BadLabels => !Labelled(row)
    case EmptyIdentity => row.objectGroup.None? || row.captureSession.None?
    case Leakage => false
    case DuplicatePayload => false
    case EmptyRole => false
  }

  /** What a refusal says of the row and one that stayed before it. */
  predicate Clash(policy: Policy, earlier: Row, row: Row, refusal: Refusal) {
    match refusal
    case Leakage =>
      earlier.role != row.role &&
      (earlier.sourceSha == row.sourceSha || earlier.imageSha == row.imageSha ||
       earlier.objectGroup == row.objectGroup || earlier.captureSession == row.captureSession)
    case DuplicatePayload =>
      || earlier.sourceSha == row.sourceSha || earlier.imageSha == row.imageSha
      || FileOf(policy, earlier.sourcePath, earlier.sourceSha) == FileOf(policy, row.sourcePath, row.sourceSha)
      || FileOf(policy, earlier.cropPath, earlier.imageSha) == FileOf(policy, row.cropPath, row.imageSha)
    case BadSample => earlier.sampleId == row.sampleId
    case _ => false
  }

  /** Row `n` has the fault, or clashes with a row that stayed before it. */
  ghost predicate Justified(policy: Policy, rows: seq<Row>, n: nat, refusal: Refusal) {
    n < |rows| &&
    (FaultOf(policy, rows[n], refusal) ||
     exists k :: 0 <= k < n && Stays(policy, rows[k]) && Clash(policy, rows[k], rows[n], refusal))
  }

  /** What a refusal says of the row and the indexes. */
  predicate Means(policy: Policy, row: Row, index: Index, refusal: Refusal) {
    || FaultOf(policy, row, refusal)
    || (refusal == Leakage && row.role.Some? &&
        (|| Crosses(index.sourceRole, row.sourceSha, row.role.value)
         || Crosses(index.imageRole, row.imageSha, row.role.value)
         || (row.objectGroup.Some? && Crosses(index.groupRole, row.objectGroup.value, row.role.value))
         || (row.captureSession.Some? && Crosses(index.sessionRole, row.captureSession.value, row.role.value))))
    || (refusal == DuplicatePayload && Readable(policy, row) &&
        (|| policy.payload(row.sourcePath, row.sourceSha).value.path in index.sourceFiles
         || policy.payload(row.cropPath, row.imageSha).value.path in index.cropFiles
         || row.sourceSha in index.sourceShas || row.imageSha in index.cropShas))
    || (refusal == BadSample && row.sampleId.Some? && row.sampleId.value in index.samples)
  }

  /** Everything the indexes hold was entered by some row. */
  lemma {:induction false} IndexHolds(ids: seq<Identity>)
    ensures forall v :: v in IndexOf(ids).sourceFiles ==> exists k :: 0 <= k < |ids| && ids[k].sourceFile == v
    ensures forall v :: v in IndexOf(ids).cropFiles ==> exists k :: 0 <= k < |ids| && ids[k].cropFile == v
    ensures forall v :: v in IndexOf(ids).sourceShas ==> exists k :: 0 <= k < |ids| && ids[k].source == v
    ensures forall v :: v in IndexOf(ids).cropShas ==> exists k :: 0 <= k < |ids| && ids[k].image == v
    ensures forall v :: v in IndexOf(ids).samples ==> exists k :: 0 <= k < |ids| && ids[k].sample == v
  {
    if ids != [] {
      IndexHolds(ids[..|ids| - 1]);
      assert forall k :: 0 <= k < |ids| - 1 ==> ids[..|ids| - 1][k] == ids[k];
    }
  }

  ghost predicate Entered<V>(roles: map<V, Role>, ids: seq<Identity>, key: Identity -> V) {
    forall v :: v in roles ==> EnteredBy(ids, key, v, roles[v])
  }

  ghost predicate EnteredBy<V>(ids: seq<Identity>, key: Identity -> V, v: V, role: Role) {
    exists k :: 0 <= k < |ids| && key(ids[k]) == v && ids[k].role == role
  }

  lemma EnteredNext<V>(roles: map<V, Role>, ids: seq<Identity>, key: Identity -> V, last: Identity)
    requires Entered(roles, ids, key)
    ensures Entered(roles[key(last) := last.role], ids + [last], key)
  {
    var all := ids + [last];
    assert all[|ids|] == last;
    forall v | v in roles && v != key(last)
      ensures EnteredBy(all, key, v, roles[v])
    {
      assert EnteredBy(ids, key, v, roles[v]);
      var k :| 0 <= k < |ids| && key(ids[k]) == v && ids[k].role == roles[v];
      assert all[k] == ids[k];
    }
  }

  lemma {:induction false} IndexRoles(ids: seq<Identity>)
    ensures Entered(IndexOf(ids).sourceRole, ids, (id: Identity) => id.source)
    ensures Entered(IndexOf(ids).imageRole, ids, (id: Identity) => id.image)
    ensures Entered(IndexOf(ids).groupRole, ids, (id: Identity) => id.group)
    ensures Entered(IndexOf(ids).sessionRole, ids, (id: Identity) => id.session)
  {
    if ids != [] {
      var init, last := ids[..|ids| - 1], ids[|ids| - 1];
      IndexRoles(init);
      var before := IndexOf(init);
      EnteredNext(before.sourceRole, init, (id: Identity) => id.source, last);
      EnteredNext(before.imageRole, init, (id: Identity) => id.image, last);
      EnteredNext(before.groupRole, init, (id: Identity) => id.group, last);
      EnteredNext(before.sessionRole, init, (id: Identity) => id.session, last);
      assert ids == init + [last];
    }
  }

  /** What an identity has of its row. */
  ghost predicate IdentityHas(policy: Policy, row: Row, id: Identity) {
    && id.source == row.sourceSha && id.image == row.imageSha && row.sampleId == Some(id.sample)
    && row.objectGroup == Some(id.group) && row.captureSession == Some(id.session) && row.role == Some(id.role)
    && FileOf(policy, row.sourcePath, row.sourceSha) == Some(id.sourceFile)
    && FileOf(policy, row.cropPath, row.imageSha) == Some(id.cropFile)
  }

  lemma {:induction false} LeakageClash(policy: Policy, kept: seq<Row>, ids: seq<Identity>, row: Row)
    requires |ids| == |kept| && forall i :: 0 <= i < |kept| ==> IdentityHas(policy, kept[i], ids[i])
    requires Means(policy, row, IndexOf(ids), Leakage)
    ensures exists i :: 0 <= i < |kept| && Clash(policy, kept[i], row, Leakage)
  {
    IndexRoles(ids);
    var index, role := IndexOf(ids), row.role.value;
    var i: nat;
    if Crosses(index.sourceRole, row.sourceSha, role) {
      i := Entrant(index.sourceRole, ids, (id: Identity) => id.source, row.sourceSha);
    } else if Crosses(index.imageRole, row.imageSha, role) {
      i := Entrant(index.imageRole, ids, (id: Identity) => id.image, row.imageSha);
    } else if row.objectGroup.Some? && Crosses(index.groupRole, row.objectGroup.value, role) {
      i := Entrant(index.groupRole, ids, (id: Identity) => id.group, row.objectGroup.value);
    } else {
      i := Entrant(index.sessionRole, ids, (id: Identity) => id.session, row.captureSession.value);
    }
    assert IdentityHas(policy, kept[i], ids[i]);
    assert Clash(policy, kept[i], row, Leakage);
  }

  lemma Entrant<V>(roles: map<V, Role>, ids: seq<Identity>, key: Identity -> V, v: V) returns (i: nat)
    requires Entered(roles, ids, key) && v in roles
    ensures i < |ids| && key(ids[i]) == v && ids[i].role == roles[v]
  {
    assert EnteredBy(ids, key, v, roles[v]);
    i :| i < |ids| && key(ids[i]) == v && ids[i].role == roles[v];
  }

  lemma {:induction false} DuplicateClash(policy: Policy, kept: seq<Row>, ids: seq<Identity>, row: Row)
    requires |ids| == |kept| && forall i :: 0 <= i < |kept| ==> IdentityHas(policy, kept[i], ids[i])
    requires Means(policy, row, IndexOf(ids), DuplicatePayload)
    ensures exists i :: 0 <= i < |kept| && Clash(policy, kept[i], row, DuplicatePayload)
  {
    IndexHolds(ids);
    var index := IndexOf(ids);
    var source := policy.payload(row.sourcePath, row.sourceSha).value.path;
    var crop := policy.payload(row.cropPath, row.imageSha).value.path;
    var i: nat;
    if source in index.sourceFiles {
      i :| i < |ids| && ids[i].sourceFile == source;
    } else if crop in index.cropFiles {
      i :| i < |ids| && ids[i].cropFile == crop;
    } else if row.sourceSha in index.sourceShas {
      i :| i < |ids| && ids[i].source == row.sourceSha;
    } else {
      i :| i < |ids| && ids[i].image == row.imageSha;
    }
    assert IdentityHas(policy, kept[i], ids[i]);
    assert Clash(policy, kept[i], row, DuplicatePayload);
  }

  /** A refusal by the indexes is a clash with a kept row. */
  lemma MeansClash(policy: Policy, kept: seq<Row>, skipped: multiset<Exclusion>, l: Ledger, row: Row, refusal: Refusal)
    requires LedgerOk(policy, kept, skipped, l) && Means(policy, row, l.index, refusal)
    ensures FaultOf(policy, row, refusal) ||
      exists i :: 0 <= i < |kept| && Clash(policy, kept[i], row, refusal)
  {
    var ids := Identities(policy, kept);
    forall i | 0 <= i < |kept|
      ensures IdentityHas(policy, kept[i], ids[i])
    {
      assert Complete(policy, kept[i]);
    }
    if refusal == Leakage {
      LeakageClash(policy, kept, ids, row);
    } else if refusal == DuplicatePayload {
      DuplicateClash(policy, kept, ids, row);
    } else if !FaultOf(policy, row, refusal) {
      IndexHolds(ids);
      var i :| 0 <= i < |ids| && ids[i].sample == row.sampleId.value;
      assert IdentityHas(policy, kept[i], ids[i]);
      assert Clash(policy, kept[i], row, refusal);
    }
  }

  lemma RefusalIsJustified(policy: Policy, rows: seq<Row>, n: nat, kept: seq<Row>, skipped: multiset<Exclusion>,
                           l: Ledger, refusal: Refusal)
    requires n < |rows| && Reached(policy, rows, n, kept, skipped, l)
    requires FaultOf(policy, rows[n], refusal) ||
      exists i :: 0 <= i < |kept| && Clash(policy, kept[i], rows[n], refusal)
    ensures Justified(policy, rows, n, refusal)
  {
    if !FaultOf(policy, rows[n], refusal) {
      var i :| 0 <= i < |kept| && Clash(policy, kept[i], rows[n], refusal);
      forall k | 0 <= k < n
        ensures Passable(policy, rows[..n][k])
      {
        GateIsPassable(policy, rows[k]);
      }
      var at := KeptAt(policy, rows[..n]);
      assert at[i] in at;
      assert rows[at[i]] == kept[i];
    }
  }

  lemma GateMeans(policy: Policy, row: Row, index: Index)
    requires GateError(policy, row).Some?
    ensures Means(policy, row, index, GateError(policy, row).value)
  {
  }

  /** The first reason to refuse a row that is not excluded, in the order the checks are made. */
  method RefusalFor(policy: Policy, row: Row, index: Index) returns (r: Option<Refusal>)
    requires Kept(policy, row)
    ensures r.None? <==> Complete(policy, row) && index.Admits(IdentityOf(policy, row))
    ensures r.Some? ==> Means(policy, row, index, r.value)
  {
    var kind := KindError(policy, row);
    if kind.Some? {
      return kind;
    }
    if Crosses(index.sourceRole, row.sourceSha, row.role.value) ||
      Crosses(index.imageRole, row.imageSha, row.role.value) {
      return Some(Leakage);
    }
    if !Readable(policy, row) {
      return Some(UnreadablePayload);
    }
    var sourceFile := policy.payload(row.sourcePath, row.sourceSha).value.path;
    var cropFile := policy.payload(row.cropPath, row.imageSha).value.path;
    if sourceFile in index.sourceFiles || row.sourceSha in index.sourceShas || cropFile in index.cropFiles ||
       row.imageSha in index.cropShas {
      return Some(DuplicatePayload);
    }
    if row.sampleId.None? || row.sampleId.value in index.samples {
      return Some(BadSample);
    }
    LabelsExactly(row);
    if !LabelsOk(row) {
      return Some(BadLabels);
    }
    if row.objectGroup.None? {
      return Some(EmptyIdentity);
    }
    if Crosses(index.groupRole, row.objectGroup.value, row.role.value) {
      return Some(Leakage);
    }
    if row.captureSession.None? {
      return Some(EmptyIdentity);
    }
    r := if Crosses(index.sessionRole, row.captureSession.value, row.role.value) then Some(Leakage) else None;
  }

  /** One pass of the loop body. */
  method SelectRow(policy: Policy, ghost kept: seq<Row>, ghost skipped: multiset<Exclusion>, l: Ledger, row: Row)
    returns (r: Result<Ledger, Refusal>)
    requires LedgerOk(policy, kept, skipped, l)
    ensures r.Ok? <==> Fits(policy, kept, row)
    ensures r.Ok? && !Kept(policy, row) ==> LedgerOk(policy, kept, skipped + ExclusionBag(policy, row), r.value)
    ensures r.Ok? && Kept(policy, row) ==> LedgerOk(policy, kept + [row], skipped, r.value)
    ensures r.Err? ==> Means(policy, row, l.index, r.error)
  {
    var gate := GateError(policy, row);
    if gate.Some? {
      GateMeans(policy, row, l.index);
      return Err(gate.value);
    }
    var exclusion := ExclusionOf(policy, row);
    if exclusion.Some? {
      return Ok(l.(excluded := l.excluded + multiset{exclusion.value}));
    }
    var refusal := RefusalFor(policy, row, l.index);
    if Complete(policy, row) {
      AdmitsIffApart(Identities(policy, kept), IdentityOf(policy, row));
    }
    if refusal.Some? {
      return Err(refusal.value);
    }
    EnterKeeps(policy, kept, skipped, l, row);
    r := Ok(Enter(policy, row, l));
  }

  lemma {:induction false} KeptPrefix(policy: Policy, rows: seq<Row>, n: nat)
    requires n <= |rows|
    ensures KeptRows(policy, rows[..n]) <= KeptRows(policy, rows) && |KeptRows(policy, rows)| <= |rows|
  {
    if n < |rows| {
      KeptPrefix(policy, rows[..|rows| - 1], n);
      assert rows[..|rows| - 1][..n] == rows[..n];
    } else {
      assert rows[..n] == rows;
      if rows != [] {
        KeptPrefix(policy, rows[..|rows| - 1], |rows| - 1);
      }
    }
  }

  lemma {:induction false} KeptNext(policy: Policy, rows: seq<Row>, n: nat)
    requires n < |rows|
    ensures KeptRows(policy, rows[..n + 1]) ==
      KeptRows(policy, rows[..n]) + if Kept(policy, rows[n]) then [rows[n]] else []
    ensures |KeptRows(policy, rows[..n])| <= n
  {
    assert rows[..n + 1][..n] == rows[..n];
    KeptPrefix(policy, rows[..n], n);
  }

  /** A row that does not fit makes the whole input inadmissible. */
  lemma {:induction false} MisfitIsFatal(policy: Policy, rows: seq<Row>, n: nat, kept: seq<Row>)
    requires n < |rows| && kept == KeptRows(policy, rows[..n]) && AllComplete(policy, kept)
    requires !Fits(policy, kept, rows[n])
    ensures !Admissible(policy, rows)
  {
    var all := KeptRows(policy, rows);
    KeptNext(policy, rows, n);
    KeptPrefix(policy, rows, n);
    KeptPrefix(policy, rows, n + 1);
    assert forall k :: 0 <= k < |kept| ==> kept[k] == all[k];
    assert Kept(policy, rows[n]) ==> all[|kept|] == rows[n];
  }

  predicate BothRoles(kept: seq<Row>) {
    OfRole(kept, Train) != [] && OfRole(kept, ModelValidation) != []
  }

  /** The finished ledger is that of the kept rows, with every other row counted as excluded. */
  ghost predicate Selected(policy: Policy, rows: seq<Row>, l: Ledger) {
    && (forall k :: 0 <= k < |rows| ==> GateError(policy, rows[k]).None?)
    && LedgerOk(policy, KeptRows(policy, rows), Exclusions(policy, rows), l)
  }

  /** Where the loop stands after `n` rows. */
  ghost predicate Reached(policy: Policy, rows: seq<Row>, n: nat, kept: seq<Row>, skipped: multiset<Exclusion>,
                          l: Ledger)
  {
    && n <= |rows| && kept == KeptRows(policy, rows[..n]) && skipped == Exclusions(policy, rows[..n])
    && LedgerOk(policy, kept, skipped, l)
    && (forall k :: 0 <= k < n ==> GateError(policy, rows[k]).None?)
  }

  lemma {:induction false} LedgerIsSelected(policy: Policy, rows: seq<Row>, kept: seq<Row>,
                                            skipped: multiset<Exclusion>, l: Ledger)
    requires Reached(policy, rows, |rows|, kept, skipped, l)
    ensures Admissible(policy, rows) && Selected(policy, rows, l)
    ensures BothRoles(KeptRows(policy, rows)) <==> l.train != [] && l.validation != []
  {
    assert rows[..|rows|] == rows;
    var ids := Identities(policy, kept);
    forall i, j | 0 <= i < j < |kept|
      ensures Apart(IdentityOf(policy, kept[i]), IdentityOf(policy, kept[j]))
    {
      assert Apart(ids[i], ids[j]);
    }
  }

  /** The `n`th row against the ledger of the rows before it. */
  method SelectNth(policy: Policy, rows: seq<Row>, n: nat, ghost kept: seq<Row>, ghost skipped: multiset<Exclusion>,
                   l: Ledger)
    returns (r: Result<Ledger, Refusal>, ghost keptNow: seq<Row>, ghost skippedNow: multiset<Exclusion>)
    requires n < |rows| && Reached(policy, rows, n, kept, skipped, l)
    ensures r.Ok? ==> Reached(policy, rows, n + 1, keptNow, skippedNow, r.value)
    ensures r.Err? ==> !Admissible(policy, rows) && Justified(policy, rows, n, r.error)
  {
    r := SelectRow(policy, kept, skipped, l, rows[n]);
    keptNow, skippedNow := kept, skipped + ExclusionBag(policy, rows[n]);
    if r.Err? {
      MisfitIsFatal(policy, rows, n, kept);
      MeansClash(policy, kept, skipped, l, rows[n], r.error);
      RefusalIsJustified(policy, rows, n, kept, skipped, l, r.error);
    } else {
      if Kept(policy, rows[n]) {
        keptNow := kept + [rows[n]];
      }
      ReachedNext(policy, rows, n, kept, skipped, keptNow, skippedNow, r.value);
    }
  }

  lemma {:induction false} ReachedNext(policy: Policy, rows: seq<Row>, n: nat, kept: seq<Row>,
                                       skipped: multiset<Exclusion>, keptNow: seq<Row>, skippedNow: multiset<Exclusion>,
                                       l: Ledger)
    requires n < |rows| && kept == KeptRows(policy, rows[..n]) && skipped == Exclusions(policy, rows[..n])
    requires forall k :: 0 <= k < n ==> GateError(policy, rows[k]).None?
    requires GateError(policy, rows[n]).None?
    requires keptNow == kept + (if Kept(policy, rows[n]) then [rows[n]] else [])
    requires skippedNow == skipped + ExclusionBag(policy, rows[n])
    requires LedgerOk(policy, keptNow, skippedNow, l)
    ensures Reached(policy, rows, n + 1, keptNow, skippedNow, l)
  {
    KeptNext(policy, rows, n);
    ExclusionsNext(policy, rows, n);
  }

  lemma ExclusionsNext(policy: Policy, rows: seq<Row>, n: nat)
    requires n < |rows|
    ensures Exclusions(policy, rows[..n + 1]) == Exclusions(policy, rows[..n]) + ExclusionBag(policy, rows[n])
  {
    assert rows[..n + 1][..n] == rows[..n];
  }

  /** The row loop and the non-empty check of both roles. */
  method SelectRows(policy: Policy, rows: seq<Row>) returns (r: Result<Ledger, Refusal>)
    ensures r.Ok? <==> Selectable(policy, rows)
    ensures r.Ok? ==> Outputs(policy, rows, r.value)
    ensures r.Ok? <==> Admissible(policy, rows) && BothRoles(KeptRows(policy, rows))
    ensures r.Ok? ==> Selected(policy, rows, r.value)
    ensures r.Err? ==>
      || (exists n: nat :: Justified(policy, rows, n, r.error))
      || (r.error == EmptyRole && !(RolePresent(policy, rows, Train) && RolePresent(policy, rows, ModelValidation)))
  {
    var l := Ledger(EMPTY_INDEX, [], [], [], multiset{});
    SelectableExactly(policy, rows);
    ghost var kept: seq<Row>, skipped: multiset<Exclusion> := [], multiset{};
    for n := 0 to |rows|
      invariant Reached(policy, rows, n, kept, skipped, l)
    {
      var next;
      next, kept, skipped := SelectNth(policy, rows, n, kept, skipped, l);
      if next.Err? {
        return Err(next.error);
      }
      l := next.value;
    }
    LedgerIsSelected(policy, rows, kept, skipped, l);
    SelectedOutputs(policy, rows, l);
    r := if l.train == [] || l.validation == [] then Err(EmptyRole) else Ok(l);
  }

  // ---- what selection guarantees ----

  lemma {:induction false} OfRoleMembers(rows: seq<Row>, role: Role)
    ensures forall x :: x in OfRole(rows, role) <==> x in rows && x.role == Some(role)
  {
    if rows != [] {
      OfRoleMembers(rows[..|rows| - 1], role);
      assert rows == rows[..|rows| - 1] + [rows[|rows| - 1]];
    }
  }

  lemma {:induction false} RolesCoverKept(policy: Policy, kept: seq<Row>)
    requires AllComplete(policy, kept)
    ensures |OfRole(kept, Train)| + |OfRole(kept, ModelValidation)| == |kept|
  {
    if kept != [] {
      var last := kept[|kept| - 1];
      assert Complete(policy, last) && last.role.Some?;
      assert last.role.value == Train || last.role.value == ModelValidation;
      RolesCoverKept(policy, kept[..|kept| - 1]);
    }
  }

  /** No content and no lineage identity occurs in both roles. */
  lemma SelectedRolesAreIsolated(policy: Policy, kept: seq<Row>, skipped: multiset<Exclusion>, l: Ledger, x: Row,
                                 y: Row)
    requires LedgerOk(policy, kept, skipped, l) && x in l.train && y in l.validation
    ensures x.sourceSha != y.sourceSha && x.imageSha != y.imageSha
    ensures x.objectGroup != y.objectGroup && x.captureSession != y.captureSession
  {
    OfRoleMembers(kept, Train);
    OfRoleMembers(kept, ModelValidation);
    var i :| 0 <= i < |kept| && kept[i] == x;
    var j :| 0 <= j < |kept| && kept[j] == y;
    var ids := Identities(policy, kept);
    assert ids[i].role == Train && ids[j].role == ModelValidation;
    if i < j {
      assert Apart(ids[i], ids[j]);
    } else {
      assert Apart(ids[j], ids[i]);
    }
  }

  /** No selected row is protected or excluded. */
  lemma SelectedAreClean(policy: Policy, kept: seq<Row>, skipped: multiset<Exclusion>, l: Ledger, x: Row)
    requires LedgerOk(policy, kept, skipped, l) && x in l.train + l.validation
    ensures x.sourceSha !in policy.protectedShas && x.sourceSha !in policy.qualityExcluded
    ensures x.origin in policy.kinds && (policy.kinds[x.origin] == Operational ==>
      x.role == Some(Train) && x.captured.Some? && x.captured.value >= policy.cutoff)
  {
    OfRoleMembers(kept, Train);
    OfRoleMembers(kept, ModelValidation);
    var i :| 0 <= i < |kept| && kept[i] == x;
  }

  lemma {:induction false} KeptAndExcluded(policy: Policy, rows: seq<Row>)
    requires forall k :: 0 <= k < |rows| ==> GateError(policy, rows[k]).None?
    ensures |KeptRows(policy, rows)| + |Exclusions(policy, rows)| == |rows|
  {
    if rows != [] {
      KeptAndExcluded(policy, rows[..|rows| - 1]);
    }
  }

  /** Every input row is either selected, once, or counted as excluded. */
  lemma RowsAreConserved(policy: Policy, rows: seq<Row>, l: Ledger)
    requires Selected(policy, rows, l)
    ensures |l.train| + |l.validation| + |l.excluded| == |rows| && |l.plan| == |l.train| + |l.validation|
  {
    RolesCoverKept(policy, KeptRows(policy, rows));
    KeptAndExcluded(policy, rows);
  }

  // ---- the selection, said of the rows ----

  /** A row that may be looked at: unprotected, well placed, known origin, one role throughout, and dated if due. */
  predicate Passable(policy: Policy, row: Row) {
    && row.sourceSha !in policy.protectedShas && policy.placed(row) && row.origin in policy.kinds
    && row.role.Some? && row.splitRole == row.role && row.fold == row.role
    && (row.sourceSha !in policy.qualityExcluded && policy.kinds[row.origin] == Operational ==> row.captured.Some?)
  }

  /** Left out for its quality, or for a capture before the cutoff, and counted under that. */
  predicate Dropped(policy: Policy, row: Row, x: Exclusion) {
    if row.sourceSha in policy.qualityExcluded then x == Quality(policy.qualityExcluded[row.sourceSha])
    else
      x == BeforeCutoff && row.origin in policy.kinds && policy.kinds[row.origin] == Operational &&
      row.captured.Some? && row.captured.value < policy.cutoff
  }

  predicate Stays(policy: Policy, row: Row) {
    !Dropped(policy, row, BeforeCutoff) && row.sourceSha !in policy.qualityExcluded
  }

  /** A background without a crop object, or one of nine materials with exactly one; every condition known or -1. */
  predicate Labelled(row: Row) {
    && row.material == Some(row.category) && row.category < 10 && |row.targets| == 3
    && (|| (row.category == 9 && row.cropCount == Some(0) && (row.sourceCount == Some(0) || row.sourceCount == Some(1)))
        || (0 <= row.category < 9 && row.cropCount == Some(1) && row.sourceCount == Some(1)))
    && (forall target :: target in row.targets ==> target == Some(-1) || target == Some(0) || target == Some(1))
  }

  /** A row good enough to be selected; operational rows train only, under their own evidence. */
  predicate Acceptable(policy: Policy, row: Row) {
    && row.origin in policy.kinds && policy.kinds[row.origin] != OtherKind
    && (policy.kinds[row.origin] == Operational ==>
          row.role == Some(Train) && row.sourceSha in policy.evidence && policy.evidence[row.sourceSha] == row.evidence)
    && policy.payload(row.sourcePath, row.sourceSha).Some? && policy.payload(row.cropPath, row.imageSha).Some?
    && row.sampleId.Some? && Labelled(row) && row.objectGroup.Some? && row.captureSession.Some?
  }

  /** No content, file or sample in common, and no lineage across roles. */
  predicate Separate(policy: Policy, x: Row, y: Row) {
    && x.sourceSha != y.sourceSha && x.imageSha != y.imageSha && x.sampleId != y.sampleId
    && FileOf(policy, x.sourcePath, x.sourceSha) != FileOf(policy, y.sourcePath, y.sourceSha)
    && FileOf(policy, x.cropPath, x.imageSha) != FileOf(policy, y.cropPath, y.imageSha)
    && (x.role != y.role ==> x.objectGroup != y.objectGroup && x.captureSession != y.captureSession)
  }

  function FileOf(policy: Policy, path: nat, sha: Digest): Option<nat> {
    match policy.payload(path, sha)
    case None => None
    case Some(file) => Some(file.path)
  }

  ghost predicate AllSeparate(policy: Policy, rows: seq<Row>) {
    forall i, j :: 0 <= i < j < |rows| && Stays(policy, rows[i]) && Stays(policy, rows[j]) ==>
      Separate(policy, rows[i], rows[j])
  }

  ghost predicate RolePresent(policy: Policy, rows: seq<Row>, role: Role) {
    exists k :: 0 <= k < |rows| && Stays(policy, rows[k]) && rows[k].role == Some(role)
  }

  /** What rows must be for a selection to succeed. */
  ghost predicate Selectable(policy: Policy, rows: seq<Row>) {
    && (forall k :: 0 <= k < |rows| ==> Passable(policy, rows[k]))
    && (forall k :: 0 <= k < |rows| && Stays(policy, rows[k]) ==> Acceptable(policy, rows[k]))
    && AllSeparate(policy, rows) && RolePresent(policy, rows, Train) && RolePresent(policy, rows, ModelValidation)
  }

  ghost predicate Rising(at: seq<nat>) {
    forall i, j :: 0 <= i < j < |at| ==> at[i] < at[j]
  }

  /** The rows that stay, in their order, by position. */
  ghost predicate StaysAt(policy: Policy, rows: seq<Row>, at: seq<nat>, listed: seq<Row>) {
    && Rising(at) && |at| == |listed| && (forall n: nat :: n in at <==> n < |rows| && Stays(policy, rows[n]))
    && (forall k :: 0 <= k < |at| ==> at[k] < |rows| && listed[k] == rows[at[k]])
  }

  lemma GateIsPassable(policy: Policy, row: Row)
    ensures GateError(policy, row).None? <==> Passable(policy, row)
    ensures Passable(policy, row) ==> (Kept(policy, row) <==> Stays(policy, row))
    ensures Passable(policy, row) ==>
      forall x :: x in ExclusionBag(policy, row) <==> Dropped(policy, row, x)
  {
  }

  lemma LabelsExactly(row: Row)
    ensures LabelsOk(row) <==> Labelled(row)
  {
    assert forall h :: 0 <= h < |row.targets| ==> row.targets[h] in row.targets;
    assert |row.targets| == 3 ==> forall target :: target in row.targets ==>
      target == row.targets[0] || target == row.targets[1] || target == row.targets[2];
  }

  lemma CompleteIsAcceptable(policy: Policy, row: Row)
    requires Passable(policy, row) && Stays(policy, row)
    ensures Complete(policy, row) <==> Acceptable(policy, row)
  {
    GateIsPassable(policy, row);
    LabelsExactly(row);
  }

  lemma ApartIsSeparate(policy: Policy, x: Row, y: Row)
    requires Complete(policy, x) && Complete(policy, y)
    ensures Apart(IdentityOf(policy, x), IdentityOf(policy, y)) <==> Separate(policy, x, y)
  {
  }

  lemma {:induction false} KeptAt(policy: Policy, rows: seq<Row>) returns (at: seq<nat>)
    requires forall k :: 0 <= k < |rows| ==> Passable(policy, rows[k])
    ensures StaysAt(policy, rows, at, KeptRows(policy, rows))
  {
    if rows == [] {
      at := [];
    } else {
      var init, n := rows[..|rows| - 1], |rows| - 1;
      at := KeptAt(policy, init);
      GateIsPassable(policy, rows[n]);
      forall k | 0 <= k < |at|
        ensures at[k] < n && KeptRows(policy, init)[k] == rows[at[k]]
      {
        assert at[k] in at;
      }
      if Kept(policy, rows[n]) {
        at := at + [n];
      }
    }
  }

  /** Where a row that stays is among the kept ones. */
  lemma KeptPlace(policy: Policy, rows: seq<Row>, kept: seq<Row>, at: seq<nat>, k: nat) returns (n: nat)
    requires StaysAt(policy, rows, at, kept) && k < |rows| && Stays(policy, rows[k])
    ensures n < |at| && at[n] == k && kept[n] == rows[k]
  {
    assert k in at;
    n :| 0 <= n < |at| && at[n] == k;
  }

  lemma KeptComplete(policy: Policy, rows: seq<Row>, kept: seq<Row>, at: seq<nat>)
    requires forall k :: 0 <= k < |rows| ==> Passable(policy, rows[k])
    requires StaysAt(policy, rows, at, kept)
    ensures AllComplete(policy, kept) <==>
      forall k :: 0 <= k < |rows| && Stays(policy, rows[k]) ==> Acceptable(policy, rows[k])
  {
    forall n | 0 <= n < |at|
      ensures Stays(policy, rows[at[n]])
      ensures Complete(policy, kept[n]) <==> Acceptable(policy, rows[at[n]])
    {
      assert at[n] in at;
      CompleteIsAcceptable(policy, kept[n]);
    }
    if AllComplete(policy, kept) {
      forall k | 0 <= k < |rows| && Stays(policy, rows[k])
        ensures Acceptable(policy, rows[k])
      {
        var n := KeptPlace(policy, rows, kept, at, k);
      }
    }
  }

  lemma KeptApart(policy: Policy, rows: seq<Row>, kept: seq<Row>, at: seq<nat>)
    requires StaysAt(policy, rows, at, kept) && AllComplete(policy, kept)
    ensures (forall i, j :: 0 <= i < j < |kept| ==> Apart(IdentityOf(policy, kept[i]), IdentityOf(policy, kept[j])))
      <==> AllSeparate(policy, rows)
  {
    forall n, m | 0 <= n < m < |kept|
      ensures Apart(IdentityOf(policy, kept[n]), IdentityOf(policy, kept[m])) <==>
        Separate(policy, rows[at[n]], rows[at[m]])
      ensures at[n] < at[m] && Stays(policy, rows[at[n]]) && Stays(policy, rows[at[m]])
    {
      assert at[n] in at && at[m] in at;
      ApartIsSeparate(policy, kept[n], kept[m]);
    }
    if forall i, j :: 0 <= i < j < |kept| ==> Apart(IdentityOf(policy, kept[i]), IdentityOf(policy, kept[j])) {
      forall i, j | 0 <= i < j < |rows| && Stays(policy, rows[i]) && Stays(policy, rows[j])
        ensures Separate(policy, rows[i], rows[j])
      {
        var n := KeptPlace(policy, rows, kept, at, i);
        var m := KeptPlace(policy, rows, kept, at, j);
        assert n < m;
      }
    }
  }

  lemma {:induction false} KeptRole(policy: Policy, rows: seq<Row>, kept: seq<Row>, at: seq<nat>, role: Role)
    requires StaysAt(policy, rows, at, kept)
    ensures OfRole(kept, role) != [] <==> RolePresent(policy, rows, role)
  {
    OfRoleMembers(kept, role);
    if OfRole(kept, role) != [] {
      var x := OfRole(kept, role)[0];
      assert x in kept && x.role == Some(role);
      var n :| 0 <= n < |kept| && kept[n] == x;
      assert at[n] in at;
    }
    if RolePresent(policy, rows, role) {
      var k :| 0 <= k < |rows| && Stays(policy, rows[k]) && rows[k].role == Some(role);
      var n := KeptPlace(policy, rows, kept, at, k);
      assert kept[n] in OfRole(kept, role);
    }
  }

  /** Rows can be selected from exactly when they are admissible and leave neither role empty. */
  lemma {:induction false} SelectableExactly(policy: Policy, rows: seq<Row>)
    ensures Admissible(policy, rows) && BothRoles(KeptRows(policy, rows)) <==> Selectable(policy, rows)
  {
    forall k | 0 <= k < |rows|
      ensures GateError(policy, rows[k]).None? <==> Passable(policy, rows[k])
    {
      GateIsPassable(policy, rows[k]);
    }
    if forall k :: 0 <= k < |rows| ==> Passable(policy, rows[k]) {
      var kept := KeptRows(policy, rows);
      var at := KeptAt(policy, rows);
      KeptComplete(policy, rows, kept, at);
      KeptRole(policy, rows, kept, at, Train);
      KeptRole(policy, rows, kept, at, ModelValidation);
      if AllComplete(policy, kept) {
        KeptApart(policy, rows, kept, at);
      }
    }
  }

  /** One role's rows, in input order, by position. */
  ghost predicate ListsRole(policy: Policy, rows: seq<Row>, role: Role, at: seq<nat>, listed: seq<Row>) {
    && Rising(at) && |at| == |listed|
    && (forall n: nat :: n in at <==> n < |rows| && Stays(policy, rows[n]) && rows[n].role == Some(role))
    && (forall k :: 0 <= k < |at| ==> at[k] < |rows| && listed[k] == rows[at[k]])
  }

  /** A snapshot entry of a row: its crop under its digest, and under the first byte of that. */
  predicate EntrySays(policy: Policy, row: Row, e: PlanEntry) {
    && row.sampleId == Some(e.sample) && row.role == Some(e.role) && e.sha == row.imageSha && e.path.1 == row.imageSha
    && e.path.0 * 0x1_00000000_00000000_00000000_00000000_00000000_00000000_00000000_000000 <= row.imageSha
    && row.imageSha < (e.path.0 + 1) * 0x1_00000000_00000000_00000000_00000000_00000000_00000000_00000000_000000
    && policy.payload(row.cropPath, row.imageSha).Some?
    && policy.payload(row.cropPath, row.imageSha).value.size == e.size
  }

  /** The outputs of a selection: both roles' rows, one snapshot entry each, and every dropped row under its reason. */
  ghost predicate Outputs(policy: Policy, rows: seq<Row>, l: Ledger) {
    && (exists at :: ListsRole(policy, rows, Train, at, l.train))
    && (exists at :: ListsRole(policy, rows, ModelValidation, at, l.validation))
    && (exists at, kept :: StaysAt(policy, rows, at, kept) && |l.plan| == |kept| &&
          forall n :: 0 <= n < |kept| ==> EntrySays(policy, kept[n], l.plan[n]))
    && (forall x :: l.excluded[x] == |set k | 0 <= k < |rows| && Dropped(policy, rows[k], x)|)
  }

  lemma {:induction false} RoleAt(policy: Policy, rows: seq<Row>, role: Role) returns (at: seq<nat>)
    requires forall k :: 0 <= k < |rows| ==> Passable(policy, rows[k])
    ensures ListsRole(policy, rows, role, at, OfRole(KeptRows(policy, rows), role))
  {
    if rows == [] {
      at := [];
    } else {
      var init, n := rows[..|rows| - 1], |rows| - 1;
      at := RoleAt(policy, init, role);
      GateIsPassable(policy, rows[n]);
      OfRoleNext(KeptRows(policy, init), rows[n], role);
      assert KeptRows(policy, init) + [] == KeptRows(policy, init);
      at := RoleStep(policy, rows, role, at, OfRole(KeptRows(policy, init), role));
    }
  }

  lemma RoleStep(policy: Policy, rows: seq<Row>, role: Role, before: seq<nat>, listed: seq<Row>)
    returns (at: seq<nat>)
    requires rows != [] && ListsRole(policy, rows[..|rows| - 1], role, before, listed)
    ensures var row := rows[|rows| - 1];
      ListsRole(policy, rows, role, at, listed + if Stays(policy, row) && row.role == Some(role) then [row] else [])
  {
    var n := |rows| - 1;
    forall k | 0 <= k < |before|
      ensures before[k] < n
    {
      assert before[k] in before;
    }
    at := before + if Stays(policy, rows[n]) && rows[n].role == Some(role) then [n] else [];
  }

  lemma {:induction false} OfRoleNext(rows: seq<Row>, row: Row, role: Role)
    ensures OfRole(rows + [row], role) == OfRole(rows, role) + if row.role == Some(role) then [row] else []
  {
    assert (rows + [row])[..|rows|] == rows;
  }

  ghost function DroppedFor(policy: Policy, rows: seq<Row>, x: Exclusion): set<nat> {
    set k | 0 <= k < |rows| && Dropped(policy, rows[k], x)
  }

  lemma {:induction false} ExclusionsCount(policy: Policy, rows: seq<Row>, x: Exclusion)
    requires forall k :: 0 <= k < |rows| ==> Passable(policy, rows[k])
    ensures Exclusions(policy, rows)[x] == |DroppedFor(policy, rows, x)|
  {
    if rows == [] {
      assert DroppedFor(policy, rows, x) == {};
    } else {
      var init, n := rows[..|rows| - 1], |rows| - 1;
      ExclusionsCount(policy, init, x);
      GateIsPassable(policy, rows[n]);
      DroppedNext(policy, rows, x);
      assert ExclusionBag(policy, rows[n])[x] == if Dropped(policy, rows[n], x) then 1 else 0;
    }
  }

  lemma DroppedNext(policy: Policy, rows: seq<Row>, x: Exclusion)
    requires rows != []
    ensures var init, n := rows[..|rows| - 1], |rows| - 1;
      |DroppedFor(policy, rows, x)| == |DroppedFor(policy, init, x)| + if Dropped(policy, rows[n], x) then 1 else 0
  {
    var init, n := rows[..|rows| - 1], |rows| - 1;
    assert DroppedFor(policy, rows, x) ==
      DroppedFor(policy, init, x) + if Dropped(policy, rows[n], x) then {n} else {};
  }

  lemma EntryForSays(policy: Policy, row: Row)
    requires Complete(policy, row)
    ensures EntrySays(policy, row, EntryFor(policy, row))
  {
  }

  /** A finished selection's outputs, said of the rows. */
  lemma SelectedOutputs(policy: Policy, rows: seq<Row>, l: Ledger)
    requires Selected(policy, rows, l)
    ensures Outputs(policy, rows, l)
  {
    forall k | 0 <= k < |rows|
      ensures Passable(policy, rows[k])
    {
      GateIsPassable(policy, rows[k]);
    }
    var kept := KeptRows(policy, rows);
    var at := KeptAt(policy, rows);
    var train := RoleAt(policy, rows, Train);
    var validation := RoleAt(policy, rows, ModelValidation);
    forall n | 0 <= n < |kept|
      ensures EntrySays(policy, kept[n], l.plan[n])
    {
      EntryForSays(policy, kept[n]);
    }
    forall x
      ensures l.excluded[x] == |set k | 0 <= k < |rows| && Dropped(policy, rows[k], x)|
    {
      ExclusionsCount(policy, rows, x);
      assert DroppedFor(policy, rows, x) == set k | 0 <= k < |rows| && Dropped(policy, rows[k], x);
    }
  }

  // ---- the snapshot report ----

  datatype SnapshotResult =
    | Report(objects: seq<PlanEntry>, total: nat)
    | PathMismatch | SizeMismatch | DuplicateSample | DuplicatePath | DuplicateSha | EmptyPlan | TooLarge

  const IMAGE_MAX: nat := 67108864
  const SNAPSHOT_MAX: nat := 68719476736

  function TotalSize(plan: seq<PlanEntry>): nat {
    if plan == [] then 0 else TotalSize(plan[..|plan| - 1]) + plan[|plan| - 1].size
  }

  predicate EntryLe(x: PlanEntry, y: PlanEntry) {
    if x.role != y.role then x.role == ModelValidation else x.sample <= y.sample
  }

  ghost predicate DistinctEntries(plan: seq<PlanEntry>) {
    forall i, j :: 0 <= i < j < |plan| ==>
      plan[i].sample != plan[j].sample && plan[i].path != plan[j].path && plan[i].sha != plan[j].sha
  }

  predicate WellSized(e: PlanEntry) {
    0 < e.size <= IMAGE_MAX
  }

  lemma {:induction false} EntriesInOrder(plan: seq<PlanEntry>)
    requires DistinctEntries(plan)
    ensures var objects := Sort(plan, EntryLe);
      && multiset(objects) == multiset(plan)
      && forall i, j :: 0 <= i < j < |objects| ==>
           || (objects[i].role == ModelValidation && objects[j].role == Train)
           || (objects[i].role == objects[j].role && objects[i].sample < objects[j].sample)
  {
    var objects := Sort(plan, EntryLe);
    SortMembers(plan, EntryLe);
    SortAscends(plan, EntryLe);
    SortDistinct(plan, EntryLe);
    SameMembers(objects, plan);
    forall i, j | 0 <= i < j < |objects|
      ensures objects[i].sample != objects[j].sample && EntryLe(objects[i], objects[j])
    {
      assert objects[i] in plan && objects[j] in plan && objects[i] != objects[j];
      var k :| 0 <= k < |plan| && plan[k] == objects[i];
      var n :| 0 <= n < |plan| && plan[n] == objects[j];
      assert k < n || n < k;
    }
  }

  /** `_dataset_snapshot_report` */
  method SnapshotReport(plan: seq<PlanEntry>) returns (r: SnapshotResult)
    ensures r.Report? <==>
      (&& DistinctEntries(plan) && plan != [] && TotalSize(plan) <= 64 * 1024 * 1024 * 1024
       && (forall k :: 0 <= k < |plan| ==>
             0 < plan[k].size <= 64 * 1024 * 1024 && plan[k].path == ObjectPath(plan[k].sha)))
    ensures r.EmptyPlan? ==> plan == []
    ensures r.TooLarge? ==> TotalSize(plan) > 64 * 1024 * 1024 * 1024
    ensures r.SizeMismatch? ==> exists k :: 0 <= k < |plan| && !(0 < plan[k].size <= 64 * 1024 * 1024)
    ensures r.Report? ==> r.total == TotalSize(plan) && r.objects == Sort(plan, EntryLe)
    ensures r.Report? ==> multiset(r.objects) == multiset(plan) && forall i, j :: 0 <= i < j < |r.objects| ==>
      || (r.objects[i].role == ModelValidation && r.objects[j].role == Train)
      || (r.objects[i].role == r.objects[j].role && r.objects[i].sample < r.objects[j].sample)
    ensures r.DuplicateSample? || r.DuplicatePath? || r.DuplicateSha? ==> !DistinctEntries(plan)
    ensures r.PathMismatch? ==> exists k :: 0 <= k < |plan| && plan[k].path != ObjectPath(plan[k].sha)
  {
    var samples: set<nat>, paths: set<(nat, Digest)>, shas: set<Digest> := {}, {}, {};
    var total := 0;
    for n := 0 to |plan|
      invariant samples == set k | 0 <= k < n :: plan[k].sample
      invariant paths == set k | 0 <= k < n :: plan[k].path
      invariant shas == set k | 0 <= k < n :: plan[k].sha
      invariant total == TotalSize(plan[..n])
      invariant forall k :: 0 <= k < n ==> WellSized(plan[k]) && plan[k].path == ObjectPath(plan[k].sha)
      invariant DistinctEntries(plan[..n])
    {
      var e := plan[n];
      assert plan[..n + 1][..n] == plan[..n];
      if e.path != ObjectPath(e.sha) {
        return PathMismatch;
      }
      if !WellSized(e) {
        return SizeMismatch;
      }
      if e.sample in samples {
        return DuplicateSample;
      }
      if e.path in paths {
        return DuplicatePath;
      }
      if e.sha in shas {
        return DuplicateSha;
      }
      samples, paths, shas, total := samples + {e.sample}, paths + {e.path}, shas + {e.sha}, total + e.size;
    }
    assert plan[..|plan|] == plan;
    if plan == [] {
      return EmptyPlan;
    }
    EntriesInOrder(plan);
    r := if total > SNAPSHOT_MAX then TooLarge else Report(Sort(plan, EntryLe), total);
  }

  /** The plan of a finished selection never trips the report's duplicate, path or emptiness checks. */
  lemma PlanIsDistinct(policy: Policy, kept: seq<Row>, skipped: multiset<Exclusion>, l: Ledger)
    requires LedgerOk(policy, kept, skipped, l)
    ensures DistinctEntries(l.plan)
    ensures forall k :: 0 <= k < |l.plan| ==> l.plan[k].path == ObjectPath(l.plan[k].sha)
  {
    var ids := Identities(policy, kept);
    forall i, j | 0 <= i < j < |l.plan|
      ensures l.plan[i].sample != l.plan[j].sample && l.plan[i].sha != l.plan[j].sha
    {
      assert Apart(ids[i], ids[j]);
    }
  }

  /** A key that tells the kept rows apart takes as many values as there are rows. */
  lemma KeyCount<T>(kept: seq<Row>, key: Row -> T)
    requires forall i, j :: 0 <= i < j < |kept| ==> key(kept[i]) != key(kept[j])
    ensures |set row | row in kept :: key(row)| == |kept|
  {
    var keys := seq(|kept|, k requires 0 <= k < |kept| => key(kept[k]));
    SizeOfDistinct(keys);
    assert (set row | row in kept :: key(row)) == (set x | x in keys) by {
      assert forall k :: 0 <= k < |kept| ==> keys[k] == key(kept[k]);
    }
  }

  lemma KeptDiffer(policy: Policy, kept: seq<Row>, skipped: multiset<Exclusion>, l: Ledger)
    requires LedgerOk(policy, kept, skipped, l)
    ensures forall i, j :: 0 <= i < j < |kept| ==> kept[i].sourceSha != kept[j].sourceSha
  {
    var ids := Identities(policy, kept);
    forall i, j | 0 <= i < j < |kept|
      ensures kept[i].sourceSha != kept[j].sourceSha
    {
      assert Apart(ids[i], ids[j]);
    }
  }

  /** The audit's precondition: as many source entries as rows. */
  lemma OneSourceEach(policy: Policy, kept: seq<Row>, skipped: multiset<Exclusion>, l: Ledger)
    requires LedgerOk(policy, kept, skipped, l)
    ensures |set row | row in kept :: (row.role, row.sourceSha)| == |kept|
  {
    KeptDiffer(policy, kept, skipped, l);
    var key := (row: Row) => (row.role, row.sourceSha);
    KeyCount(kept, key);
    assert (set row | row in kept :: (row.role, row.sourceSha)) == (set row | row in kept :: key(row));
  }

  /** And as many crop entries. */
  lemma OneCropEach(policy: Policy, kept: seq<Row>, skipped: multiset<Exclusion>, l: Ledger)
    requires LedgerOk(policy, kept, skipped, l)
    ensures |set row | row in kept :: (row.role, row.sampleId, row.sourceSha, row.imageSha)| == |kept|
  {
    KeptDiffer(policy, kept, skipped, l);
    var key := (row: Row) => (row.role, row.sampleId, row.sourceSha, row.imageSha);
    KeyCount(kept, key);
    assert (set row | row in kept :: (row.role, row.sampleId, row.sourceSha, row.imageSha)) ==
           (set row | row in kept :: key(row));
  }

  /** Selection followed by the snapshot report: what can still go wrong is only size. */
  method SelectAndReport(policy: Policy, rows: seq<Row>) returns (r: Result<(Ledger, SnapshotResult), Refusal>)
    ensures r.Ok? ==>
      Admissible(policy, rows) && |r.value.0.train| + |r.value.0.validation| + |r.value.0.excluded| == |rows|
    ensures r.Ok? ==> r.value.1.Report? || r.value.1.SizeMismatch? || r.value.1.TooLarge?
    ensures r.Ok? && r.value.1.Report? ==> multiset(r.value.1.objects) == multiset(r.value.0.plan)
  {
    var selected := SelectRows(policy, rows);
    if selected.Err? {
      return Err(selected.error);
    }
    var l := selected.value;
    RowsAreConserved(policy, rows, l);
    PlanIsDistinct(policy, KeptRows(policy, rows), Exclusions(policy, rows), l);
    var report := SnapshotReport(l.plan);
    SortMembers(l.plan, EntryLe);
    r := Ok((l, report));
  }
}
