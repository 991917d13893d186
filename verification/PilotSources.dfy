/** Scanned pilot sources: quarantine of byte-duplicates, quality exclusions and historical metadata. */
module PilotSources {
  import EdgeMaps
  import opened Order
  import opened Wrappers

  const MATERIALS: nat := 9
  /** Index of "background" in the output strata; the nine material classes are 0..8. */
  const BACKGROUND: nat := 9

  datatype Split = Training | Validation

  datatype Reason =
    | ScanReason(name: string)
    | CrossSplit
    | ConflictingTruth
    | SameSplitCopy
    | QualityExcluded(reason: string)

  type Box = (real, real, real, real)
  /** A resolved path, represented by its rank in string order. */
  type Path = nat

  datatype Label = Label(path: Path, sha: Digest)

  datatype Semantic = Unlabelled | EmptyScene | Boxed(classId: Option<nat>, box: Option<Box>)

  datatype Record = Record(
    path: Path,
    split: Split,
    sha: Digest,
    labelFile: Option<Label>,
    stratum: Option<nat>,
    gtClass: Option<nat>,
    gtBox: Option<Box>,
    reasons: set<Reason>,
    categories: set<nat>,
    anchor: bool)
  {
    predicate Eligible() {
      reasons == {}
    }

    function SemanticLabel(): Semantic {
      if stratum.None? then Unlabelled
      else if stratum.value == BACKGROUND then EmptyScene
      else Boxed(gtClass, gtBox)
    }
  }

  class ScannedSource {
    const path: Path
    const split: Split
    const sha: Digest
    const labelFile: Option<Label>
    const stratum: Option<nat>
    const gtClass: Option<nat>
    const gtBox: Option<Box>
    var reasons: set<Reason>
    var categories: set<nat>
    var anchor: bool

    constructor (r: Record)
      ensures Snap() == r
    {
      path, split, sha, labelFile, stratum := r.path, r.split, r.sha, r.labelFile, r.stratum;
      gtClass, gtBox := r.gtClass, r.gtBox;
      reasons, categories, anchor := r.reasons, r.categories, r.anchor;
    }

    function Snap(): Record
      reads this
    {
      Record(path, split, sha, labelFile, stratum, gtClass, gtBox, reasons, categories, anchor)
    }
  }

  ghost function Snaps(scanned: seq<ScannedSource>): (r: seq<Record>)
    reads scanned
    ensures |r| == |scanned| && forall i :: 0 <= i < |r| ==> r[i] == scanned[i].Snap()
  {
    seq(|scanned|, i requires 0 <= i < |scanned| reads scanned => scanned[i].Snap())
  }

  // ---- quarantine ----

  ghost predicate CrossesSplits(records: seq<Record>, sha: Digest) {
    exists i, j :: 0 <= i < |records| && 0 <= j < |records| &&
                   records[i].sha == records[j].sha == sha && records[i].split != records[j].split
  }

  /** Record `j` is an eligible copy of record `i`. */
  predicate EligibleCopy(records: seq<Record>, i: nat, j: nat)
    requires i < |records| && j < |records|
  {
    records[j].sha == records[i].sha && records[j].Eligible()
  }

  /** `j` wins over `i` as the canonical copy: smaller path, or the same path seen earlier. */
  predicate Precedes(records: seq<Record>, j: nat, i: nat)
    requires i < |records| && j < |records|
  {
    records[j].path < records[i].path || (records[j].path == records[i].path && j < i)
  }

  /** What quarantine adds to one record, if anything. */
  ghost function Quarantine(records: seq<Record>, i: nat): Option<Reason>
    requires i < |records|
  {
    if CrossesSplits(records, records[i].sha) then Some(CrossSplit)
    else if !records[i].Eligible() then None
    else if exists j :: 0 <= j < |records| && EligibleCopy(records, i, j) &&
                        records[j].SemanticLabel() != records[i].SemanticLabel() then Some(ConflictingTruth)
    else if exists j :: 0 <= j < |records| && EligibleCopy(records, i, j) && Precedes(records, j, i)
      then Some(SameSplitCopy)
    else None
  }

  function AddReason(r: Record, reason: Option<Reason>): Record {
    if reason.None? then r else r.(reasons := r.reasons + {reason.value})
  }

  ghost function Quarantined(records: seq<Record>): (r: seq<Record>)
    ensures |r| == |records|
  {
    seq(|records|, i requires 0 <= i < |records| => AddReason(records[i], Quarantine(records, i)))
  }

  /** After quarantine at most one eligible record carries any given bytes. */
  lemma QuarantineLeavesUniqueBytes(records: seq<Record>, i: nat, j: nat)
    requires i < j < |records|
    requires Quarantined(records)[i].Eligible() && Quarantined(records)[j].Eligible()
    ensures records[i].sha != records[j].sha
  {
    assert Precedes(records, i, j) || Precedes(records, j, i);
    assert records[i].sha == records[j].sha ==>
      (EligibleCopy(records, i, j) <==> records[j].Eligible()) &&
        (EligibleCopy(records, j, i) <==> records[i].Eligible());
  }

  /** Bytes that stay within one split and agree on their label keep one eligible copy. */
  lemma QuarantineKeepsOneCopy(records: seq<Record>, i: nat) returns (k: nat)
    requires i < |records| && records[i].Eligible()
    requires !CrossesSplits(records, records[i].sha)
    requires forall j :: 0 <= j < |records| && EligibleCopy(records, i, j) ==>
      records[j].SemanticLabel() == records[i].SemanticLabel()
    ensures k < |records| && records[k].sha == records[i].sha && Quarantined(records)[k].Eligible()
    ensures forall j :: 0 <= j < |records| && EligibleCopy(records, i, j) ==> j == k || Precedes(records, k, j)
  {
    k := FirstCopy(records, i, |records|);
    forall j | 0 <= j < |records| && EligibleCopy(records, k, j)
      ensures records[j].SemanticLabel() == records[k].SemanticLabel() && !Precedes(records, j, k)
    {
      assert EligibleCopy(records, i, j);
    }
  }

  lemma {:induction false} FirstCopy(records: seq<Record>, i: nat, n: nat) returns (k: nat)
    requires i < |records| && n <= |records| && records[i].Eligible()
    ensures k < |records| && EligibleCopy(records, i, k)
    ensures forall j :: 0 <= j < n && EligibleCopy(records, i, j) ==> j == k || Precedes(records, k, j)
    ensures k == i || k < n
    ensures k == i || Precedes(records, k, i)
  {
    if n == 0 {
      k := i;
    } else {
      k := FirstCopy(records, i, n - 1);
      if EligibleCopy(records, i, n - 1) && Precedes(records, n - 1, k) {
        k := n - 1;
      }
    }
  }

  /** Quarantine only ever adds reasons, and touches nothing else. */
  lemma QuarantineOnlyAdds(records: seq<Record>, i: nat)
    requires i < |records|
    ensures Quarantined(records)[i].(reasons := records[i].reasons) == records[i]
    ensures records[i].reasons <= Quarantined(records)[i].reasons
  {
  }

  // ---- the in-place form ----

  ghost predicate DistinctObjects(scanned: seq<ScannedSource>) {
    forall i, j :: 0 <= i < j < |scanned| ==> scanned[i] != scanned[j]
  }

  ghost function WithReason(records: seq<Record>, targets: seq<nat>, reason: Reason): (r: seq<Record>)
    ensures |r| == |records|
  {
    seq(|records|, i requires 0 <= i < |records| =>
      if i in targets then AddReason(records[i], Some(reason)) else records[i])
  }

  /** `record.reasons.add(reason)` */
  method AddOne(scanned: seq<ScannedSource>, target: nat, reason: Reason)
    requires DistinctObjects(scanned) && target < |scanned|
    modifies scanned[target]
    ensures Snaps(scanned) == old(Snaps(scanned))[target := AddReason(old(Snaps(scanned))[target], Some(reason))]
  {
    ghost var before := Snaps(scanned);
    scanned[target].reasons := scanned[target].reasons + {reason};
    assert forall i :: 0 <= i < |scanned| && i != target ==> scanned[i].Snap() == before[i];
  }

  lemma WithReasonStep(records: seq<Record>, targets: seq<nat>, k: nat, reason: Reason)
    requires k < |targets| && targets[k] < |records|
    ensures var now := WithReason(records, targets[..k], reason);
      WithReason(records, targets[..k + 1], reason) == now[targets[k] := AddReason(now[targets[k]], Some(reason))]
  {
    assert targets[..k + 1] == targets[..k] + [targets[k]];
  }

  /** `for record in targets: record.reasons.add(reason)` */
  method AddToAll(scanned: seq<ScannedSource>, targets: seq<nat>, reason: Reason)
    requires DistinctObjects(scanned) && forall k :: 0 <= k < |targets| ==> targets[k] < |scanned|
    modifies scanned
    ensures Snaps(scanned) == WithReason(old(Snaps(scanned)), targets, reason)
  {
    ghost var before := Snaps(scanned);
    assert WithReason(before, targets[..0], reason) == before;
    for k := 0 to |targets|
      invariant Snaps(scanned) == WithReason(before, targets[..k], reason)
    {
      WithReasonStep(before, targets, k, reason);
      AddOne(scanned, targets[k], reason);
    }
    assert targets[..|targets|] == targets;
  }

  ghost predicate IsGroup(records: seq<Record>, group: seq<nat>, sha: Digest) {
    && (forall k :: 0 <= k < |group| ==> group[k] < |records|)
    && (forall i :: 0 <= i < |records| ==> (i in group <==> records[i].sha == sha))
    && EdgeMaps.Increasing(group)
  }

  lemma GroupCrosses(records: seq<Record>, group: seq<nat>, sha: Digest, splits: set<Split>)
    requires IsGroup(records, group, sha)
    requires splits == set k | 0 <= k < |group| :: records[group[k]].split
    ensures |splits| > 1 <==> CrossesSplits(records, sha)
  {
    if |splits| > 1 {
      var x :| x in splits;
      assert splits - {x} != {} by {
        assert splits == (splits - {x}) + {x};
      }
      var y :| y in splits - {x};
      var i :| 0 <= i < |group| && records[group[i]].split == x;
      var j :| 0 <= j < |group| && records[group[j]].split == y;
      assert group[i] in group && group[j] in group;
    }
    if CrossesSplits(records, sha) {
      var i, j :| 0 <= i < |records| && 0 <= j < |records| &&
        records[i].sha == records[j].sha == sha && records[i].split != records[j].split;
      assert i in group && j in group;
      EdgeMaps.CardinalityMonotone({records[i].split, records[j].split}, splits);
    }
  }

  ghost predicate IsEligiblePart(records: seq<Record>, group: seq<nat>, eligible: seq<nat>) {
    && (forall k :: 0 <= k < |eligible| ==> eligible[k] < |records|)
    && (forall i :: 0 <= i < |records| ==> (i in eligible <==> i in group && records[i].Eligible()))
    && EdgeMaps.Increasing(eligible)
  }

  lemma ManySemantics(records: seq<Record>, eligible: seq<nat>, semantics: set<Semantic>)
    requires forall k :: 0 <= k < |eligible| ==> eligible[k] < |records|
    requires semantics == set k | 0 <= k < |eligible| :: records[eligible[k]].SemanticLabel()
    ensures |semantics| > 1 <==>
      exists i, j :: i in eligible && j in eligible && records[i].SemanticLabel() != records[j].SemanticLabel()
  {
    if |semantics| > 1 {
      var x :| x in semantics;
      assert semantics - {x} != {} by {
        assert semantics == (semantics - {x}) + {x};
      }
      var y :| y in semantics - {x};
      var i :| 0 <= i < |eligible| && records[eligible[i]].SemanticLabel() == x;
      var j :| 0 <= j < |eligible| && records[eligible[j]].SemanticLabel() == y;
      assert eligible[i] in eligible && eligible[j] in eligible;
    }
    if i, j :| i in eligible && j in eligible && records[i].SemanticLabel() != records[j].SemanticLabel() {
      var x :| 0 <= x < |eligible| && eligible[x] == i;
      var y :| 0 <= y < |eligible| && eligible[y] == j;
      EdgeMaps.CardinalityMonotone({records[i].SemanticLabel(), records[j].SemanticLabel()}, semantics);
    }
  }

  /** Quarantining the records of one group, leaving every other record alone. */
  ghost function GroupQuarantined(records: seq<Record>, group: seq<nat>): (r: seq<Record>)
    ensures |r| == |records|
  {
    seq(|records|, i requires 0 <= i < |records| =>
      if i in group then AddReason(records[i], Quarantine(records, i)) else records[i])
  }

  lemma CrossingGroup(records: seq<Record>, group: seq<nat>, sha: Digest)
    requires IsGroup(records, group, sha) && CrossesSplits(records, sha)
    ensures WithReason(records, group, CrossSplit) == GroupQuarantined(records, group)
  {
  }

  /** What quarantine says of a group's records, one verdict at a time. */
  lemma VerdictsGiveGroup(records: seq<Record>, group: seq<nat>, targets: seq<nat>, reason: Reason)
    requires forall i :: i in targets ==> i in group
    requires forall i :: 0 <= i < |records| && i in group ==>
      Quarantine(records, i) == if i in targets then Some(reason) else None
    ensures WithReason(records, targets, reason) == GroupQuarantined(records, group)
  {
  }

  /** No other eligible copy: nothing to quarantine. */
  lemma AloneIsKept(records: seq<Record>, group: seq<nat>, sha: Digest, eligible: seq<nat>, i: nat)
    requires IsGroup(records, group, sha) && !CrossesSplits(records, sha)
    requires IsEligiblePart(records, group, eligible) && |eligible| <= 1
    requires i < |records| && i in group
    ensures Quarantine(records, i) == None
  {
    if records[i].Eligible() {
      assert i in eligible && eligible[0] == i;
      forall j | 0 <= j < |records| && EligibleCopy(records, i, j)
        ensures j == i
      {
        assert j in group && j in eligible && eligible[0] == j;
      }
    }
  }

  lemma SmallGroup(records: seq<Record>, group: seq<nat>, sha: Digest, eligible: seq<nat>)
    requires IsGroup(records, group, sha) && !CrossesSplits(records, sha)
    requires IsEligiblePart(records, group, eligible) && |eligible| <= 1
    ensures records == GroupQuarantined(records, group)
  {
    forall i | 0 <= i < |records| && i in group
      ensures Quarantine(records, i) == if i in [] then Some(CrossSplit) else None
    {
      AloneIsKept(records, group, sha, eligible, i);
    }
    VerdictsGiveGroup(records, group, [], CrossSplit);
    assert WithReason(records, [], CrossSplit) == records;
  }

  /** An eligible copy with another label: a conflict for every eligible record of the group. */
  lemma ConflictIsSeen(records: seq<Record>, group: seq<nat>, sha: Digest, eligible: seq<nat>, a: nat, b: nat, i: nat)
    requires IsGroup(records, group, sha) && !CrossesSplits(records, sha)
    requires IsEligiblePart(records, group, eligible)
    requires a in eligible && b in eligible && a < |records| && b < |records|
    requires records[a].SemanticLabel() != records[b].SemanticLabel()
    requires i < |records| && i in group
    ensures Quarantine(records, i) == if i in eligible then Some(ConflictingTruth) else None
  {
    if i in eligible {
      var other := if records[a].SemanticLabel() != records[i].SemanticLabel() then a else b;
      assert EligibleCopy(records, i, other);
    }
  }

  lemma ConflictingGroup(records: seq<Record>, group: seq<nat>, sha: Digest, eligible: seq<nat>)
    requires IsGroup(records, group, sha) && !CrossesSplits(records, sha)
    requires IsEligiblePart(records, group, eligible)
    requires exists i, j :: i in eligible && j in eligible && records[i].SemanticLabel() != records[j].SemanticLabel()
    ensures WithReason(records, eligible, ConflictingTruth) == GroupQuarantined(records, group)
  {
    var a, b :| a in eligible && b in eligible && records[a].SemanticLabel() != records[b].SemanticLabel();
    EligibleIsGrouped(records, group, eligible);
    forall i | 0 <= i < |records| && i in group
      ensures Quarantine(records, i) == if i in eligible then Some(ConflictingTruth) else None
    {
      ConflictIsSeen(records, group, sha, eligible, a, b, i);
    }
    VerdictsGiveGroup(records, group, eligible, ConflictingTruth);
  }

  lemma EligibleIsGrouped(records: seq<Record>, group: seq<nat>, eligible: seq<nat>)
    requires IsEligiblePart(records, group, eligible)
    ensures forall i :: i in eligible ==> i < |records| && i in group
  {
  }

  /** Agreeing labels: every eligible record but the canonical one is a copy. */
  lemma CopyIsSeen(records: seq<Record>, group: seq<nat>, sha: Digest, eligible: seq<nat>, canonical: nat, i: nat)
    requires IsGroup(records, group, sha) && !CrossesSplits(records, sha)
    requires IsEligiblePart(records, group, eligible)
    requires forall i, j :: i in eligible && j in eligible ==> records[i].SemanticLabel() == records[j].SemanticLabel()
    requires canonical in eligible && canonical < |records|
    requires forall j: nat :: j in eligible && j < |records| && j != canonical ==> Precedes(records, canonical, j)
    requires i < |records| && i in group
    ensures Quarantine(records, i) == if i in eligible && i != canonical then Some(SameSplitCopy) else None
  {
    forall j | 0 <= j < |records| && EligibleCopy(records, i, j)
      ensures j in eligible
    {
    }
    if i in eligible && i != canonical {
      assert EligibleCopy(records, i, canonical);
    }
  }

  lemma AgreeingGroup(records: seq<Record>, group: seq<nat>, sha: Digest, eligible: seq<nat>, canonical: nat,
                      others: seq<nat>)
    requires IsGroup(records, group, sha) && !CrossesSplits(records, sha)
    requires IsEligiblePart(records, group, eligible)
    requires forall i, j :: i in eligible && j in eligible ==> records[i].SemanticLabel() == records[j].SemanticLabel()
    requires canonical in eligible && canonical < |records|
    requires forall j: nat :: j in eligible && j < |records| && j != canonical ==> Precedes(records, canonical, j)
    requires forall i :: i in others <==> i in eligible && i != canonical
    ensures WithReason(records, others, SameSplitCopy) == GroupQuarantined(records, group)
  {
    EligibleIsGrouped(records, group, eligible);
    forall i | 0 <= i < |records| && i in group
      ensures Quarantine(records, i) == if i in others then Some(SameSplitCopy) else None
    {
      CopyIsSeen(records, group, sha, eligible, canonical, i);
    }
    VerdictsGiveGroup(records, group, others, SameSplitCopy);
  }

  /** `[record for record in records if not record.reasons]` */
  method EligibleOf(scanned: seq<ScannedSource>, group: seq<nat>) returns (eligible: seq<nat>)
    requires forall k :: 0 <= k < |group| ==> group[k] < |scanned|
    requires EdgeMaps.Increasing(group)
    ensures IsEligiblePart(Snaps(scanned), group, eligible)
  {
    eligible := [];
    for k := 0 to |group|
      invariant forall m :: 0 <= m < |eligible| ==> eligible[m] < |scanned|
      invariant forall i :: 0 <= i < |scanned| ==> (i in eligible <==> i in group[..k] && scanned[i].Snap().Eligible())
      invariant EdgeMaps.Increasing(eligible)
      invariant k < |group| ==> forall m :: 0 <= m < |eligible| ==> eligible[m] < group[k]
    {
      assert group[..k + 1] == group[..k] + [group[k]];
      if scanned[group[k]].reasons == {} {
        eligible := eligible + [group[k]];
      }
    }
    assert group[..|group|] == group;
  }

  /** `min(eligible, key=path)`: the first of the least paths, and everything else. */
  method CanonicalOf(scanned: seq<ScannedSource>, eligible: seq<nat>) returns (canonical: nat, others: seq<nat>)
    requires |eligible| > 0 && EdgeMaps.Increasing(eligible)
    requires forall k :: 0 <= k < |eligible| ==> eligible[k] < |scanned|
    ensures canonical in eligible
    ensures forall j: nat :: j in eligible && j < |scanned| && j != canonical ==> Precedes(Snaps(scanned), canonical, j)
    ensures forall i :: i in others <==> i in eligible && i != canonical
    ensures forall k :: 0 <= k < |others| ==> others[k] < |scanned|
  {
    canonical := eligible[0];
    for k := 1 to |eligible|
      invariant canonical in eligible[..k]
      invariant forall m :: 0 <= m < k && eligible[m] != canonical ==> Precedes(Snaps(scanned), canonical, eligible[m])
    {
      assert canonical < eligible[k];
      if scanned[eligible[k]].path < scanned[canonical].path {
        canonical := eligible[k];
      }
    }
    others := [];
    for k := 0 to |eligible|
      invariant forall i :: i in others <==> i in eligible[..k] && i != canonical
    {
      assert eligible[..k + 1] == eligible[..k] + [eligible[k]];
      if eligible[k] != canonical {
        others := others + [eligible[k]];
      }
    }
    assert eligible[..|eligible|] == eligible;
    forall k | 0 <= k < |others|
      ensures others[k] < |scanned|
    {
      assert others[k] in others;
    }
  }

  /** One pass of the quarantine loop, over the records sharing one digest. */
  method QuarantineGroup(scanned: seq<ScannedSource>, group: seq<nat>, sha: Digest)
    requires DistinctObjects(scanned) && IsGroup(Snaps(scanned), group, sha)
    modifies scanned
    ensures Snaps(scanned) == GroupQuarantined(old(Snaps(scanned)), group)
  {
    ghost var before := Snaps(scanned);
    var splits := set k | 0 <= k < |group| :: scanned[group[k]].split;
    assert splits == set k | 0 <= k < |group| :: before[group[k]].split;
    GroupCrosses(before, group, sha, splits);
    if |splits| > 1 {
      CrossingGroup(before, group, sha);
      AddToAll(scanned, group, CrossSplit);
      return;
    }
    var eligible := EligibleOf(scanned, group);
    if |eligible| <= 1 {
      SmallGroup(before, group, sha, eligible);
      return;
    }
    var semantics := set k | 0 <= k < |eligible| :: scanned[eligible[k]].Snap().SemanticLabel();
    assert semantics == set k | 0 <= k < |eligible| :: before[eligible[k]].SemanticLabel();
    ManySemantics(before, eligible, semantics);
    if |semantics| > 1 {
      ConflictingGroup(before, group, sha, eligible);
      AddToAll(scanned, eligible, ConflictingTruth);
      return;
    }
    var canonical, others := CanonicalOf(scanned, eligible);
    assert forall k :: 0 <= k < |eligible| ==> eligible[k] in eligible;
    AgreeingGroup(before, group, sha, eligible, canonical, others);
    AddToAll(scanned, others, SameSplitCopy);
  }

  /** Quarantine decided for the digests already visited. */
  ghost function PartlyQuarantined(records: seq<Record>, done: seq<Digest>): (r: seq<Record>)
    ensures |r| == |records|
  {
    seq(|records|, i requires 0 <= i < |records| =>
      if records[i].sha in done then AddReason(records[i], Quarantine(records, i)) else records[i])
  }

  lemma QuarantineLocal(records: seq<Record>, done: seq<Digest>, i: nat)
    requires i < |records| && records[i].sha !in done
    ensures Quarantine(PartlyQuarantined(records, done), i) == Quarantine(records, i)
  {
    var now := PartlyQuarantined(records, done);
    CrossingIsLocal(records, done, i);
    forall j | 0 <= j < |records| && now[j].sha == now[i].sha
      ensures now[j] == records[j]
    {
    }
    assert forall j :: 0 <= j < |records| ==> (EligibleCopy(now, i, j) <==> EligibleCopy(records, i, j));
    assert forall j :: 0 <= j < |records| ==> (Precedes(now, j, i) <==> Precedes(records, j, i));
  }

  lemma CrossingIsLocal(records: seq<Record>, done: seq<Digest>, i: nat)
    requires i < |records|
    ensures CrossesSplits(PartlyQuarantined(records, done), records[i].sha) <==> CrossesSplits(records, records[i].sha)
  {
    var now := PartlyQuarantined(records, done);
    assert forall k :: 0 <= k < |records| ==> now[k].sha == records[k].sha && now[k].split == records[k].split;
    if CrossesSplits(records, records[i].sha) {
      var a, b :| 0 <= a < |records| && 0 <= b < |records| &&
        records[a].sha == records[b].sha == records[i].sha && records[a].split != records[b].split;
      assert now[a].sha == now[b].sha == now[i].sha && now[a].split != now[b].split;
    }
    if CrossesSplits(now, now[i].sha) {
      var a, b :| 0 <= a < |now| && 0 <= b < |now| &&
        now[a].sha == now[b].sha == now[i].sha && now[a].split != now[b].split;
      assert records[a].sha == records[b].sha == records[i].sha && records[a].split != records[b].split;
    }
  }

  lemma GroupStep(records: seq<Record>, order: seq<Digest>, g: nat, group: seq<nat>)
    requires g < |order| && Distinct(order) && IsGroup(records, group, order[g])
    ensures IsGroup(PartlyQuarantined(records, order[..g]), group, order[g])
    ensures GroupQuarantined(PartlyQuarantined(records, order[..g]), group) ==
      PartlyQuarantined(records, order[..g + 1])
  {
    var now := PartlyQuarantined(records, order[..g]);
    assert order[..g + 1] == order[..g] + [order[g]];
    forall i | 0 <= i < |records|
      ensures GroupQuarantined(now, group)[i] == PartlyQuarantined(records, order[..g + 1])[i]
    {
      if i in group {
        assert order[g] !in order[..g];
        QuarantineLocal(records, order[..g], i);
      }
    }
  }

  ghost function Digests(records: seq<Record>): (r: seq<Digest>)
    ensures |r| == |records| && forall i :: 0 <= i < |r| ==> r[i] == records[i].sha
  {
    seq(|records|, i requires 0 <= i < |records| => records[i].sha)
  }

  lemma {:induction false} GroupIsGroup(records: seq<Record>, sha: Digest)
    ensures IsGroup(records, EdgeMaps.IndexesOf(Digests(records), sha, |records|), sha)
  {
    var group := EdgeMaps.IndexesOf(Digests(records), sha, |records|);
    EdgeMaps.IndexesOfSpec(Digests(records), sha, |records|);
    forall k | 0 <= k < |group|
      ensures group[k] < |records|
    {
      assert group[k] in group;
    }
  }

  /** `_quarantine_duplicates`: mutates the records into exactly their quarantined form. */
  method QuarantineDuplicates(scanned: seq<ScannedSource>)
    requires DistinctObjects(scanned)
    modifies scanned
    ensures Snaps(scanned) == Quarantined(old(Snaps(scanned)))
  {
    ghost var before := Snaps(scanned);
    var digests := seq(|scanned|, i requires 0 <= i < |scanned| reads scanned => scanned[i].sha);
    assert digests == Digests(before);
    var order, groups := EdgeMaps.GroupByDigest(digests);
    assert PartlyQuarantined(before, order[..0]) == before;
    for g := 0 to |order|
      invariant Snaps(scanned) == PartlyQuarantined(before, order[..g])
    {
      assert order[g] in order;
      GroupIsGroup(before, order[g]);
      GroupStep(before, order, g, groups[order[g]]);
      QuarantineGroup(scanned, groups[order[g]], order[g]);
    }
    assert PartlyQuarantined(before, order[..|order|]) == Quarantined(before) by {
      assert order[..|order|] == order;
      forall i | 0 <= i < |before|
        ensures before[i].sha in order
      {
        assert digests[i] in digests;
      }
    }
  }

  // ---- quality exclusions ----

  type Exclusions = map<Digest, string>

  ghost predicate AllKnown(records: seq<Record>, exclusions: Exclusions) {
    forall sha :: sha in exclusions ==> sha in Digests(records)
  }

  ghost function Excluded(records: seq<Record>, exclusions: Exclusions): (r: seq<Record>)
    ensures |r| == |records|
  {
    seq(|records|, i requires 0 <= i < |records| => ExcludeOne(records[i], exclusions))
  }

  function ExcludeOne(r: Record, exclusions: Exclusions): Record {
    if r.sha in exclusions then AddReason(r, Some(QualityExcluded(exclusions[r.sha]))) else r
  }

  /** `_apply_quality_exclusions`: refuses unknown digests before touching anything. */
  method ApplyQualityExclusions(scanned: seq<ScannedSource>, exclusions: Exclusions) returns (matched: Option<nat>)
    requires DistinctObjects(scanned)
    modifies scanned
    ensures matched.Some? <==> AllKnown(old(Snaps(scanned)), exclusions)
    ensures matched.Some? ==>
      matched.value == |exclusions| && Snaps(scanned) == Excluded(old(Snaps(scanned)), exclusions)
    ensures matched.None? ==> Snaps(scanned) == old(Snaps(scanned))
  {
    ghost var before := Snaps(scanned);
    var known := set k | 0 <= k < |scanned| :: scanned[k].sha;
    assert forall sha :: sha in known <==> sha in Digests(before) by {
      forall k | 0 <= k < |scanned|
        ensures scanned[k].sha in Digests(before)
      {
        assert Digests(before)[k] == scanned[k].sha;
      }
    }
    if !(exclusions.Keys <= known) {
      return None;
    }
    ExcludeEach(scanned, exclusions);
    matched := Some(|exclusions|);
  }

  /** The second loop: every copy of an excluded digest gets its reason. */
  method ExcludeEach(scanned: seq<ScannedSource>, exclusions: Exclusions)
    requires DistinctObjects(scanned)
    modifies scanned
    ensures Snaps(scanned) == Excluded(old(Snaps(scanned)), exclusions)
  {
    ghost var before := Snaps(scanned);
    for k := 0 to |scanned|
      invariant forall i :: 0 <= i < k ==> Snaps(scanned)[i] == ExcludeOne(before[i], exclusions)
      invariant forall i :: k <= i < |scanned| ==> Snaps(scanned)[i] == before[i]
    {
      assert scanned[k].Snap() == before[k];
      if scanned[k].sha in exclusions {
        AddOne(scanned, k, QualityExcluded(exclusions[scanned[k].sha]));
      }
    }
  }

  // ---- historical selection metadata ----

  type History = map<Digest, set<(Split, nat)>>

  function HistoricalCategories(r: Record, history: History): set<nat> {
    if r.sha in history then set entry | entry in history[r.sha] && entry.0 == r.split :: entry.1 else {}
  }

  function WithHistory(r: Record, history: History, anchors: set<Digest>): Record {
    var categories := HistoricalCategories(r, history);
    r.(categories := categories, anchor := categories != {} && r.sha in anchors)
  }

  ghost function Historical(records: seq<Record>, history: History, anchors: set<Digest>): (r: seq<Record>)
    ensures |r| == |records|
  {
    seq(|records|, i requires 0 <= i < |records| => WithHistory(records[i], history, anchors))
  }

  /** A record keeps everything but the categories and the anchor flag, which come from its own split's history. */
  ghost predicate IsAnnotated(before: Record, after: Record, history: History, anchors: set<Digest>) {
    && after == before.(categories := after.categories, anchor := after.anchor)
    && (forall c :: c in after.categories <==> before.sha in history && (before.split, c) in history[before.sha])
    && (after.anchor <==>
          before.sha in anchors && before.sha in history && exists c :: (before.split, c) in history[before.sha])
  }

  lemma HistoryAnnotates(r: Record, history: History, anchors: set<Digest>)
    ensures IsAnnotated(r, WithHistory(r, history, anchors), history, anchors)
  {
    var after := WithHistory(r, history, anchors);
    if c :| c in after.categories {
      assert (r.split, c) in history[r.sha];
    }
    if r.sha in history && exists c :: (r.split, c) in history[r.sha] {
      var c :| (r.split, c) in history[r.sha];
      assert c in after.categories;
    }
  }

  /** `_apply_historical_selection_metadata` */
  method ApplyHistory(scanned: seq<ScannedSource>, history: History, anchors: set<Digest>)
    requires DistinctObjects(scanned)
    modifies scanned
    ensures Snaps(scanned) == Historical(old(Snaps(scanned)), history, anchors)
    ensures forall i :: 0 <= i < |scanned| ==>
      IsAnnotated(old(Snaps(scanned))[i], Snaps(scanned)[i], history, anchors)
  {
    ghost var before := Snaps(scanned);
    for k := 0 to |scanned|
      invariant forall i :: 0 <= i < k ==> scanned[i].Snap() == WithHistory(before[i], history, anchors)
      invariant forall i :: k <= i < |scanned| ==> scanned[i].Snap() == before[i]
    {
      var record := scanned[k];
      assert record.Snap() == before[k];
      record.categories := HistoricalCategories(record.Snap(), history);
      record.anchor := record.categories != {} && record.sha in anchors;
      assert forall i :: 0 <= i < |scanned| && i != k ==> scanned[i] != record;
    }
    forall i | 0 <= i < |scanned|
      ensures IsAnnotated(before[i], Snaps(scanned)[i], history, anchors)
    {
      HistoryAnnotates(before[i], history, anchors);
    }
  }

  // ---- the three passes together ----

  /** Two sources with the same ground truth: neither labelled, both empty, or boxed alike. */
  ghost predicate SameTruth(x: Record, y: Record) {
    || (x.stratum == None && y.stratum == None)
    || (x.stratum == Some(9) && y.stratum == Some(9))
    || (&& x.stratum.Some? && x.stratum != Some(9) && y.stratum.Some? && y.stratum != Some(9)
        && x.gtClass == y.gtClass && x.gtBox == y.gtBox)
  }

  /** Which copies of a source stand against it. */
  ghost predicate CopyInOtherSplit(records: seq<Record>, i: nat, j: nat)
    requires i < |records|
  {
    j < |records| && records[j].sha == records[i].sha && records[j].split != records[i].split
  }

  ghost predicate CopyInConflict(records: seq<Record>, i: nat, j: nat)
    requires i < |records|
  {
    j < |records| && records[j].sha == records[i].sha && records[j].reasons == {} && !SameTruth(records[i], records[j])
  }

  ghost predicate CopyBefore(records: seq<Record>, i: nat, j: nat)
    requires i < |records|
  {
    && j < |records| && records[j].sha == records[i].sha && records[j].reasons == {}
    && (records[j].path < records[i].path || (records[j].path == records[i].path && j < i))
  }

  /** The reasons a source ends up with: its own, those of its copies, and that of its exclusion. */
  ghost predicate ReasonsAre(records: seq<Record>, i: nat, exclusions: Exclusions, reasons: set<Reason>)
    requires i < |records|
  {
    var r := records[i];
    reasons == r.reasons
      + (if exists j :: CopyInOtherSplit(records, i, j) then {CrossSplit}
         else if r.reasons != {} then {}
         else if exists j :: CopyInConflict(records, i, j) then {ConflictingTruth}
         else if exists j :: CopyBefore(records, i, j) then {SameSplitCopy}
         else {})
      + (if r.sha in exclusions then {QualityExcluded(exclusions[r.sha])} else {})
  }

  lemma PreparedReasons(records: seq<Record>, exclusions: Exclusions, i: nat)
    requires i < |records|
    ensures var x := Excluded(Quarantined(records), exclusions)[i];
      ReasonsAre(records, i, exclusions, x.reasons) && x == records[i].(reasons := x.reasons)
  {
    OtherSplitCrosses(records, i);
    if records[i].reasons == {} {
      ConflictIsCopy(records, i);
      assert (exists j :: CopyBefore(records, i, j)) <==>
        exists j :: 0 <= j < |records| && EligibleCopy(records, i, j) && Precedes(records, j, i) by {
        forall j: nat
          ensures CopyBefore(records, i, j) <==>
            j < |records| && EligibleCopy(records, i, j) && Precedes(records, j, i)
        {
        }
      }
    }
  }

  lemma OtherSplitCrosses(records: seq<Record>, i: nat)
    requires i < |records|
    ensures CrossesSplits(records, records[i].sha) <==> exists j :: CopyInOtherSplit(records, i, j)
  {
    if CrossesSplits(records, records[i].sha) {
      var a, b :| 0 <= a < |records| && 0 <= b < |records| &&
                  records[a].sha == records[b].sha == records[i].sha && records[a].split != records[b].split;
      assert CopyInOtherSplit(records, i, a) || CopyInOtherSplit(records, i, b);
    }
    if j: nat :| CopyInOtherSplit(records, i, j) {
      assert records[i].sha == records[j].sha && records[i].split != records[j].split;
    }
  }

  lemma ConflictIsCopy(records: seq<Record>, i: nat)
    requires i < |records|
    ensures (exists j :: CopyInConflict(records, i, j)) <==>
      exists j :: 0 <= j < |records| && EligibleCopy(records, i, j) &&
                  records[j].SemanticLabel() != records[i].SemanticLabel()
  {
    forall j: nat
      ensures CopyInConflict(records, i, j) <==>
        j < |records| && EligibleCopy(records, i, j) && records[j].SemanticLabel() != records[i].SemanticLabel()
    {
    }
  }

  /** What preparation leaves of one source. */
  ghost predicate IsPrepared(records: seq<Record>, i: nat, after: Record, exclusions: Exclusions, history: History,
                             anchors: set<Digest>)
    requires i < |records|
  {
    && ReasonsAre(records, i, exclusions, after.reasons)
    && IsAnnotated(records[i].(reasons := after.reasons), after, history, anchors)
  }

  lemma PreparedIs(records: seq<Record>, exclusions: Exclusions, history: History, anchors: set<Digest>, i: nat)
    requires i < |records|
    ensures IsPrepared(records, i, Prepared(records, exclusions, history, anchors)[i], exclusions, history, anchors)
  {
    PreparedReasons(records, exclusions, i);
    HistoryAnnotates(Excluded(Quarantined(records), exclusions)[i], history, anchors);
  }

  ghost function Prepared(records: seq<Record>, exclusions: Exclusions, history: History, anchors: set<Digest>)
    : (r: seq<Record>)
    ensures |r| == |records|
  {
    Historical(Excluded(Quarantined(records), exclusions), history, anchors)
  }

  /** Quarantine, exclude, annotate: the state the selection starts from. */
  method PrepareSources(scanned: seq<ScannedSource>, exclusions: Exclusions, history: History, anchors: set<Digest>)
    returns (ok: bool)
    requires DistinctObjects(scanned)
    modifies scanned
    ensures ok <==> AllKnown(old(Snaps(scanned)), exclusions)
    ensures ok ==> Snaps(scanned) == Prepared(old(Snaps(scanned)), exclusions, history, anchors)
    ensures ok ==> forall i :: 0 <= i < |scanned| ==>
      IsPrepared(old(Snaps(scanned)), i, Snaps(scanned)[i], exclusions, history, anchors)
  {
    ghost var before := Snaps(scanned);
    QuarantineDuplicates(scanned);
    assert Digests(Snaps(scanned)) == Digests(before);
    var matched := ApplyQualityExclusions(scanned, exclusions);
    if matched.None? {
      return false;
    }
    ApplyHistory(scanned, history, anchors);
    forall i | 0 <= i < |scanned|
      ensures IsPrepared(before, i, Snaps(scanned)[i], exclusions, history, anchors)
    {
      PreparedIs(before, exclusions, history, anchors, i);
    }
    ok := true;
  }

  /** What preparation guarantees about two eligible records: different bytes, none excluded. */
  lemma PreparedIsClean(records: seq<Record>, exclusions: Exclusions, history: History, anchors: set<Digest>, i: nat,
                        j: nat)
    requires i < |records| && j < |records|
    requires Prepared(records, exclusions, history, anchors)[i].Eligible()
    requires Prepared(records, exclusions, history, anchors)[j].Eligible()
    ensures i != j ==> records[i].sha != records[j].sha
    ensures records[i].sha !in exclusions && records[i].reasons == {}
  {
    var q := Quarantined(records);
    QuarantineOnlyAdds(records, i);
    if i < j {
      QuarantineLeavesUniqueBytes(records, i, j);
    } else if j < i {
      QuarantineLeavesUniqueBytes(records, j, i);
    }
  }
}
