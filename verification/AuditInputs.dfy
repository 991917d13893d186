/** From the selected candidate rows to the inputs of the near-duplicate audit. */
module AuditInputs {
  import Agreement
  import opened AuditReport
  import opened BundleRows
  import opened Order
  import opened Wrappers

  function RoleName(role: Option<Role>): string {
    if role == Some(Train) then "train" else "model_validation"
  }

  /** Sample ids as text: never empty, and different for different samples. */
  ghost predicate NamesSamples(text: nat -> string) {
    && (forall id :: text(id) != "")
    && (forall a, b :: text(a) == text(b) ==> a == b)
  }

  predicate AllSampled(rows: seq<Row>) {
    forall row :: row in rows ==> row.sampleId.Some?
  }

  /** The manifest row written for a selected row. */
  function Written(text: nat -> string, row: Row): ManifestRow
    requires row.sampleId.Some?
  {
    ManifestRow(text(row.sampleId.value), row.sourceSha, row.imageSha)
  }

  function AllWritten(text: nat -> string, rows: seq<Row>): (r: seq<ManifestRow>)
    requires AllSampled(rows)
    ensures |r| == |rows|
  {
    seq(|rows|, k requires 0 <= k < |rows| => Written(text, rows[k]))
  }

  /** `{"train": train_rows, "model_validation": validation_rows}` */
  function Manifests(text: nat -> string, train: seq<Row>, validation: seq<Row>): map<string, seq<ManifestRow>>
    requires AllSampled(train) && AllSampled(validation)
  {
    map["train" := AllWritten(text, train), "model_validation" := AllWritten(text, validation)]
  }

  /** The two lists are the kept rows of either role. */
  ghost predicate SplitsRows(kept: seq<Row>, train: seq<Row>, validation: seq<Row>) {
    && AllSampled(kept) && AllSampled(train) && AllSampled(validation)
    && |train| + |validation| == |kept|
    && (forall row :: row in kept ==> row.role.Some?)
    && (forall row :: row in train <==> row in kept && row.role == Some(Train))
    && (forall row :: row in validation <==> row in kept && row.role == Some(ModelValidation))
  }

  lemma KeptAreSampled(policy: Policy, kept: seq<Row>)
    requires AllComplete(policy, kept)
    ensures AllSampled(kept) && forall row :: row in kept ==> row.role.Some?
  {
    forall row | row in kept
      ensures row.sampleId.Some? && row.role.Some?
    {
      var k :| 0 <= k < |kept| && kept[k] == row;
      assert Complete(policy, kept[k]);
    }
  }

  lemma LedgerSplitsRows(policy: Policy, kept: seq<Row>, skipped: multiset<Exclusion>, l: Ledger)
    requires LedgerOk(policy, kept, skipped, l)
    ensures SplitsRows(kept, l.train, l.validation)
  {
    OfRoleMembers(kept, Train);
    OfRoleMembers(kept, ModelValidation);
    RolesCoverKept(policy, kept);
    KeptAreSampled(policy, kept);
  }

  /** The manifests hold exactly the kept rows, each under its role. */
  ghost predicate HoldsRows(text: nat -> string, kept: seq<Row>, rows: map<string, seq<ManifestRow>>)
    requires AllSampled(kept)
  {
    && (forall row :: row in kept ==> RoleName(row.role) in rows && Written(text, row) in rows[RoleName(row.role)])
    && (forall role, written :: role in rows && written in rows[role] ==>
          exists row :: row in kept && RoleName(row.role) == role && Written(text, row) == written)
  }

  lemma WrittenMembers(text: nat -> string, rows: seq<Row>, kept: seq<Row>, role: Role)
    requires AllSampled(rows) && AllSampled(kept)
    requires forall row :: row in rows <==> row in kept && row.role == Some(role)
    ensures forall written :: written in AllWritten(text, rows) <==>
      exists row :: row in kept && row.role == Some(role) && Written(text, row) == written
  {
    forall written | written in AllWritten(text, rows)
      ensures exists row :: row in kept && row.role == Some(role) && Written(text, row) == written
    {
      var k :| 0 <= k < |rows| && AllWritten(text, rows)[k] == written;
      assert rows[k] in rows;
    }
    forall row | row in kept && row.role == Some(role)
      ensures Written(text, row) in AllWritten(text, rows)
    {
      var k :| 0 <= k < |rows| && rows[k] == row;
      assert AllWritten(text, rows)[k] == Written(text, row);
    }
  }

  lemma ManifestsHoldRows(text: nat -> string, kept: seq<Row>, train: seq<Row>, validation: seq<Row>)
    requires SplitsRows(kept, train, validation)
    ensures HoldsRows(text, kept, Manifests(text, train, validation))
  {
    WrittenMembers(text, train, kept, Train);
    WrittenMembers(text, validation, kept, ModelValidation);
    RoleNamesDiffer();
    var rows := Manifests(text, train, validation);
    forall row | row in kept
      ensures RoleName(row.role) in rows && Written(text, row) in rows[RoleName(row.role)]
    {
      assert row.role == Some(Train) || row.role == Some(ModelValidation) by {
        match row.role.value
        case Train =>
        case ModelValidation =>
      }
    }
  }

  function SourceKeyOf(key: (Option<Role>, Digest)): CandidateKey {
    SourceKey(RoleName(key.0), ManifestRow("", key.1, key.1))
  }

  function CropKeyOf(text: nat -> string, key: (Option<Role>, Option<nat>, Digest, Digest)): CandidateKey {
    (RoleName(key.0), if key.1.Some? then text(key.1.value) else "", key.2, key.3)
  }

  lemma SourceCount(text: nat -> string, kept: seq<Row>, rows: map<string, seq<ManifestRow>>)
    requires AllSampled(kept) && HoldsRows(text, kept, rows) && forall row :: row in kept ==> row.role.Some?
    ensures |ExpectedSources(rows)| == |set row | row in kept :: (row.role, row.sourceSha)|
  {
    var keys := set row | row in kept :: (row.role, row.sourceSha);
    forall y | y in ExpectedSources(rows)
      ensures exists x :: x in keys && SourceKeyOf(x) == y
    {
      var role, written :| role in rows && written in rows[role] && SourceKey(role, written) == y;
      var row :| row in kept && RoleName(row.role) == role && Written(text, row) == written;
      assert (row.role, row.sourceSha) in keys && SourceKeyOf((row.role, row.sourceSha)) == y;
    }
    forall x | x in keys
      ensures SourceKeyOf(x) in ExpectedSources(rows)
    {
      var row :| row in kept && x == (row.role, row.sourceSha);
      assert SourceKeyOf(x) == SourceKey(RoleName(row.role), Written(text, row));
    }
    assert forall x, y :: x in keys && y in keys && SourceKeyOf(x) == SourceKeyOf(y) ==> x == y by {
      RoleNamesDiffer();
    }
    ImageSize(keys, ExpectedSources(rows), SourceKeyOf);
  }

  lemma RoleNamesDiffer()
    ensures forall a: Role, b: Role :: RoleName(Some(a)) == RoleName(Some(b)) ==> a == b
  {
    assert |"train"| != |"model_validation"|;
  }

  lemma CropCount(text: nat -> string, kept: seq<Row>, rows: map<string, seq<ManifestRow>>)
    requires NamesSamples(text)
    requires AllSampled(kept) && HoldsRows(text, kept, rows) && forall row :: row in kept ==> row.role.Some?
    ensures |ExpectedCrops(rows)| == |set row | row in kept :: (row.role, row.sampleId, row.sourceSha, row.imageSha)|
  {
    var keys := set row | row in kept :: (row.role, row.sampleId, row.sourceSha, row.imageSha);
    var f := (x: (Option<Role>, Option<nat>, Digest, Digest)) => CropKeyOf(text, x);
    forall y | y in ExpectedCrops(rows)
      ensures exists x :: x in keys && f(x) == y
    {
      var role, written :| role in rows && written in rows[role] && CropKey(role, written) == y;
      var row :| row in kept && RoleName(row.role) == role && Written(text, row) == written;
      var x := (row.role, row.sampleId, row.sourceSha, row.imageSha);
      assert x in keys && f(x) == y;
    }
    forall x | x in keys
      ensures f(x) in ExpectedCrops(rows)
    {
      var row :| row in kept && x == (row.role, row.sampleId, row.sourceSha, row.imageSha);
      assert f(x) == CropKey(RoleName(row.role), Written(text, row));
    }
    assert forall x, y :: x in keys && y in keys && f(x) == f(y) ==> x == y by {
      RoleNamesDiffer();
    }
    ImageSize(keys, ExpectedCrops(rows), f);
  }

  lemma ManifestsAreNamed(text: nat -> string, train: seq<Row>, validation: seq<Row>)
    requires NamesSamples(text) && AllSampled(train) && AllSampled(validation)
    ensures var rows := Manifests(text, train, validation);
      && rows.Keys == Agreement.CANDIDATE_ROLES && CountRows(rows) == |train| + |validation|
      && (forall role, row :: role in rows && row in rows[role] ==> row.sampleId != "")
  {
    RoleNamesDiffer();
  }

  /** A finished ledger's rows give as many source and as many crop identities as there are rows. */
  lemma LedgerMeetsAudit(text: nat -> string, policy: Policy, kept: seq<Row>, skipped: multiset<Exclusion>, l: Ledger)
    requires NamesSamples(text) && LedgerOk(policy, kept, skipped, l)
    ensures SplitsRows(kept, l.train, l.validation)
    ensures CountRows(Manifests(text, l.train, l.validation)) == |kept|
    ensures RowsOk(Manifests(text, l.train, l.validation))
  {
    LedgerSplitsRows(policy, kept, skipped, l);
    OneSourceEach(policy, kept, skipped, l);
    OneCropEach(policy, kept, skipped, l);
    SplitMeetsAudit(text, kept, l.train, l.validation);
  }

  lemma SplitMeetsAudit(text: nat -> string, kept: seq<Row>, train: seq<Row>, validation: seq<Row>)
    requires NamesSamples(text) && SplitsRows(kept, train, validation)
    requires |set row | row in kept :: (row.role, row.sourceSha)| == |kept|
    requires |set row | row in kept :: (row.role, row.sampleId, row.sourceSha, row.imageSha)| == |kept|
    ensures CountRows(Manifests(text, train, validation)) == |kept|
    ensures RowsOk(Manifests(text, train, validation))
  {
    var rows := Manifests(text, train, validation);
    ManifestsAreNamed(text, train, validation);
    ManifestsHoldRows(text, kept, train, validation);
    SourceCount(text, kept, rows);
    CropCount(text, kept, rows);
  }
}
