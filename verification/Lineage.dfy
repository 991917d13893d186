/** Lineage rows: captures are grouped per stream into object groups and wider capture sessions. */
module Lineage {
  import opened Order
  import opened Bursts
  import opened Wrappers

  /** What is known about one queued capture; identities are already normalised. */
  datatype Meta = Meta(sha: Digest, explicitGroup: Option<nat>, explicitSession: Option<nat>, client: Option<nat>,
                       device: Option<nat>, time: Option<int>)
  {
    function AsMember(): Member {
      Member(sha, time)
    }
  }

  datatype StreamKey = Actor(id: nat) | SessionKey(id: nat) | Device(id: nat) | UnknownDevice

  /** Which stream a capture is clustered in, if any. */
  function StreamOf(m: Meta): Option<StreamKey> {
    if m.client.Some? then Some(Actor(m.client.value))
    else if m.explicitSession.Some? then Some(SessionKey(m.explicitSession.value))
    else if m.time.Some? then Some(if m.device.Some? then Device(m.device.value) else UnknownDevice)
    else None
  }

  datatype KeySource = ByGroup | ByClient | BySession | ByDevice | ByTime | ByContent

  datatype Name = Explicit(id: nat) | Burst(key: StreamKey, captures: set<Digest>) | Content(sha: Digest)

  datatype Row = Row(objectGroup: Name, captureSession: Name, source: KeySource, time: Option<int>)

  function WiderGap(gap: int): int {
    if gap * 5 > gap then gap * 5 else gap
  }

  function StreamMembers(metas: seq<Meta>, key: StreamKey, n: nat): seq<Member>
    requires n <= |metas|
  {
    if n == 0 then []
    else
      StreamMembers(metas, key, n - 1) + if StreamOf(metas[n - 1]) == Some(key) then [metas[n - 1].AsMember()] else []
  }

  ghost predicate DistinctShas(metas: seq<Meta>) {
    forall i, j :: 0 <= i < j < |metas| ==> metas[i].sha != metas[j].sha
  }

  ghost function Stream(metas: seq<Meta>, key: StreamKey): set<Member> {
    Members(StreamMembers(metas, key, |metas|))
  }

  lemma {:induction false} StreamHolds(metas: seq<Meta>, key: StreamKey, n: nat)
    requires n <= |metas| && DistinctShas(metas)
    ensures forall x :: x in StreamMembers(metas, key, n) <==>
      exists i :: 0 <= i < n && metas[i].AsMember() == x && StreamOf(metas[i]) == Some(key)
    ensures Distinct(StreamMembers(metas, key, n)) && UniqueShas(Members(StreamMembers(metas, key, n)))
  {
    if n > 0 {
      StreamHolds(metas, key, n - 1);
      if StreamOf(metas[n - 1]) == Some(key) {
        assert metas[n - 1].AsMember() !in StreamMembers(metas, key, n - 1);
      }
    }
  }

  /** `members` is the stream's list of captures, each filed once. */
  ghost predicate Files(metas: seq<Meta>, key: StreamKey, members: seq<Member>) {
    && (forall x :: x in members <==>
        exists i :: 0 <= i < |metas| && metas[i].AsMember() == x && StreamOf(metas[i]) == Some(key))
    && Distinct(members) && UniqueShas(Members(members)) && Members(members) == Stream(metas, key)
  }

  lemma {:induction false} StreamIsFiled(metas: seq<Meta>, key: StreamKey)
    requires DistinctShas(metas)
    ensures Files(metas, key, StreamMembers(metas, key, |metas|))
  {
    StreamHolds(metas, key, |metas|);
  }

  /** A capture's SHA occurs in a stream exactly when the capture was filed there. */
  lemma ShaFindsMember(metas: seq<Meta>, key: StreamKey, members: seq<Member>, i: nat)
    requires DistinctShas(metas) && Files(metas, key, members) && i < |metas|
    ensures (exists x :: x in members && x.sha == metas[i].sha) <==> StreamOf(metas[i]) == Some(key)
    ensures StreamOf(metas[i]) == Some(key) ==> metas[i].AsMember() in members
  {
    var own := metas[i].AsMember();
    if StreamOf(metas[i]) == Some(key) {
      assert own in members && own.sha == metas[i].sha;
    }
    if x :| x in members && x.sha == metas[i].sha {
      var k :| 0 <= k < |metas| && metas[k].AsMember() == x && StreamOf(metas[k]) == Some(key);
      assert k == i;
    }
  }

  // ---- what a row says ----

  ghost function BurstName(metas: seq<Meta>, gap: int, m: Meta): Name {
    if StreamOf(m).None? then Content(m.sha)
    else Burst(StreamOf(m).value, BurstOf(Stream(metas, StreamOf(m).value), gap, m.AsMember()))
  }

  function SourceOf(m: Meta): KeySource {
    if m.explicitGroup.Some? then ByGroup
    else if StreamOf(m).None? then ByContent
    else if m.client.Some? then ByClient
    else if m.explicitSession.Some? then BySession
    else if m.device.Some? then ByDevice
    else ByTime
  }

  ghost function RowOf(metas: seq<Meta>, gap: int, m: Meta): Row {
    Row(if m.explicitGroup.Some? then Explicit(m.explicitGroup.value) else BurstName(metas, gap, m),
        if m.explicitSession.Some? then Explicit(m.explicitSession.value) else BurstName(metas, WiderGap(gap), m),
        SourceOf(m), m.time)
  }

  /**
   * For captures without an explicit group: sharing an object group means sharing the capture session exactly when
   * their explicit sessions agree. Only captures that carry a client can disagree on that.
   */
  lemma ObjectGroupRefinesSession(metas: seq<Meta>, gap: int, i: nat, j: nat)
    requires DistinctShas(metas) && i < |metas| && j < |metas|
    requires metas[i].explicitGroup.None? && metas[j].explicitGroup.None?
    requires RowOf(metas, gap, metas[i]).objectGroup == RowOf(metas, gap, metas[j]).objectGroup
    ensures RowOf(metas, gap, metas[i]).captureSession == RowOf(metas, gap, metas[j]).captureSession <==>
            metas[i].explicitSession == metas[j].explicitSession
    ensures metas[i].client.None? ==> metas[i].explicitSession == metas[j].explicitSession
  {
    var a, b := metas[i], metas[j];
    if StreamOf(a).Some? {
      var key := StreamOf(a).value;
      var members := Stream(metas, key);
      StreamHolds(metas, key, |metas|);
      SameClusterIffLinked(members, gap, a.AsMember(), b.AsMember());
      WiderGapMerges(members, gap, WiderGap(gap), a.AsMember(), b.AsMember());
      SameClusterIffLinked(members, WiderGap(gap), a.AsMember(), b.AsMember());
    }
  }

  /**
   * Two captures without explicit identities share a group exactly when a small-gap chain within one stream links them.
   */
  lemma SharedGroupIsLinkage(metas: seq<Meta>, gap: int, i: nat, j: nat)
    requires DistinctShas(metas) && i < |metas| && j < |metas| && i != j
    requires metas[i].explicitGroup.None? && metas[j].explicitGroup.None?
    ensures RowOf(metas, gap, metas[i]).objectGroup == RowOf(metas, gap, metas[j]).objectGroup <==>
            (StreamOf(metas[i]).Some? && StreamOf(metas[i]) == StreamOf(metas[j]) &&
             Linked(Stream(metas, StreamOf(metas[i]).value), gap, metas[i].AsMember(), metas[j].AsMember()))
  {
    if StreamOf(metas[i]).Some? && StreamOf(metas[i]) == StreamOf(metas[j]) {
      var key := StreamOf(metas[i]).value;
      StreamHolds(metas, key, |metas|);
      SameClusterIffLinked(Stream(metas, key), gap, metas[i].AsMember(), metas[j].AsMember());
    }
  }

  // ---- the rows, said of the captures ----

  /** The same client; else, without clients, the same explicit session; else both timed on the same device, if any. */
  predicate SameStream(a: Meta, b: Meta) {
    if a.client.Some? || b.client.Some? then a.client == b.client
    else if a.explicitSession.Some? || b.explicitSession.Some? then a.explicitSession == b.explicitSession
    else a.time.Some? && b.time.Some? && a.device == b.device
  }

  predicate CloseBy(a: Meta, b: Meta, gap: int) {
    && SameStream(a, b) && a.time.Some? && b.time.Some?
    && a.time.value - b.time.value <= gap && b.time.value - a.time.value <= gap
  }

  /** Captures of one stream, each close to the one before it. */
  ghost predicate Trail(metas: seq<Meta>, gap: int, path: seq<nat>) {
    && (forall k :: 0 <= k < |path| ==> path[k] < |metas|)
    && (forall k :: 0 < k < |path| ==> CloseBy(metas[path[k - 1]], metas[path[k]], gap))
  }

  ghost predicate TrailLeads(metas: seq<Meta>, gap: int, i: nat, j: nat) {
    exists path :: Trail(metas, gap, path) && |path| > 0 && path[0] == i && path[|path| - 1] == j
  }

  ghost predicate RowSays(m: Meta, row: Row) {
    && row.time == m.time
    && (row.objectGroup.Explicit? <==> m.explicitGroup.Some?)
    && (m.explicitGroup.Some? ==> row.objectGroup.id == m.explicitGroup.value)
    && (row.captureSession.Explicit? <==> m.explicitSession.Some?)
    && (m.explicitSession.Some? ==> row.captureSession.id == m.explicitSession.value)
    && (row.source == ByGroup <==> m.explicitGroup.Some?)
    && (row.source == ByClient <==> m.explicitGroup.None? && m.client.Some?)
    && (row.source == BySession <==> m.explicitGroup.None? && m.client.None? && m.explicitSession.Some?)
    && (row.source == ByDevice <==>
          (&& m.explicitGroup.None? && m.client.None? && m.explicitSession.None? && m.time.Some? && m.device.Some?))
    && (row.source == ByTime <==>
          (&& m.explicitGroup.None? && m.client.None? && m.explicitSession.None? && m.time.Some? && m.device.None?))
  }

  /**
   * What the rows say of the captures: two captures without explicit groups share one exactly when a trail leads from
   * one to the other, and likewise for sessions, whose gap is five times as wide.
   */
  ghost predicate Lawful(metas: seq<Meta>, gap: int, rows: map<Digest, Row>) {
    && (forall sha :: sha in rows <==> exists i :: 0 <= i < |metas| && metas[i].sha == sha)
    && (forall i :: 0 <= i < |metas| ==> metas[i].sha in rows && RowSays(metas[i], rows[metas[i].sha]))
    && (forall i: nat, j: nat :: i < |metas| && j < |metas| && i != j ==>
          GroupsByTrail(metas, gap, metas[i], metas[j], i, j, rows))
  }

  ghost predicate GroupsByTrail(metas: seq<Meta>, gap: int, a: Meta, b: Meta, i: nat, j: nat, rows: map<Digest, Row>) {
    a.sha in rows && b.sha in rows ==>
      && (a.explicitGroup.None? && b.explicitGroup.None? ==>
            (rows[a.sha].objectGroup == rows[b.sha].objectGroup <==> TrailLeads(metas, gap, i, j)))
      && (a.explicitSession.None? && b.explicitSession.None? ==>
            (rows[a.sha].captureSession == rows[b.sha].captureSession <==>
               TrailLeads(metas, if gap > 0 then 5 * gap else gap, i, j)))
  }

  lemma StreamsAreSame(a: Meta, b: Meta)
    ensures StreamOf(a).Some? && StreamOf(a) == StreamOf(b) <==> SameStream(a, b)
    ensures SameStream(a, b) && SameStream(b, a) ==> SameStream(a, a)
  {
  }

  /** The capture a member of a stream stands for. */
  ghost function CaptureOf(metas: seq<Meta>, key: StreamKey, x: Member): (i: nat)
    requires exists i: nat :: i < |metas| && metas[i].AsMember() == x && StreamOf(metas[i]) == Some(key)
    ensures i < |metas| && metas[i].AsMember() == x && StreamOf(metas[i]) == Some(key)
  {
    var i: nat :| i < |metas| && metas[i].AsMember() == x && StreamOf(metas[i]) == Some(key);
    i
  }

  /** The captures a chain's members stand for. */
  lemma ChainCaptures(metas: seq<Meta>, key: StreamKey, chain: seq<Member>) returns (path: seq<nat>)
    requires DistinctShas(metas) && forall k :: 0 <= k < |chain| ==> chain[k] in Stream(metas, key)
    ensures |path| == |chain| && forall k :: 0 <= k < |path| ==>
      path[k] < |metas| && metas[path[k]].AsMember() == chain[k] && StreamOf(metas[path[k]]) == Some(key)
  {
    StreamHolds(metas, key, |metas|);
    forall k | 0 <= k < |chain|
      ensures exists n: nat :: n < |metas| && metas[n].AsMember() == chain[k] && StreamOf(metas[n]) == Some(key)
    {
      assert chain[k] in StreamMembers(metas, key, |metas|);
    }
    path := seq(|chain|, k requires 0 <= k < |chain| => CaptureOf(metas, key, chain[k]));
  }

  lemma ChainIsTrail(metas: seq<Meta>, key: StreamKey, gap: int, i: nat, j: nat)
    requires DistinctShas(metas) && i < |metas| && j < |metas|
    requires StreamOf(metas[i]) == Some(key) && StreamOf(metas[j]) == Some(key)
    requires Linked(Stream(metas, key), gap, metas[i].AsMember(), metas[j].AsMember())
    ensures TrailLeads(metas, gap, i, j)
  {
    var members := Stream(metas, key);
    var chain :| Chain(members, gap, chain) && |chain| > 0 && chain[0] == metas[i].AsMember() &&
      chain[|chain| - 1] == metas[j].AsMember();
    var path := ChainCaptures(metas, key, chain);
    forall k | 0 < k < |path|
      ensures CloseBy(metas[path[k - 1]], metas[path[k]], gap)
    {
      assert Near(chain[k - 1], chain[k], gap);
      StreamsAreSame(metas[path[k - 1]], metas[path[k]]);
    }
    assert metas[path[0]].sha == metas[i].sha && metas[path[|path| - 1]].sha == metas[j].sha;
    assert Trail(metas, gap, path) && path[0] == i && path[|path| - 1] == j;
  }

  lemma {:induction false} TrailStays(metas: seq<Meta>, key: StreamKey, gap: int, path: seq<nat>, k: nat)
    requires Trail(metas, gap, path) && k < |path| && StreamOf(metas[path[0]]) == Some(key)
    ensures path[k] < |metas| && StreamOf(metas[path[k]]) == Some(key)
  {
    if k > 0 {
      TrailStays(metas, key, gap, path, k - 1);
      assert CloseBy(metas[path[k - 1]], metas[path[k]], gap);
      StreamsAreSame(metas[path[k - 1]], metas[path[k]]);
    }
  }

  lemma TrailIsChain(metas: seq<Meta>, key: StreamKey, gap: int, i: nat, j: nat)
    requires DistinctShas(metas) && i < |metas| && j < |metas| && StreamOf(metas[i]) == Some(key)
    requires TrailLeads(metas, gap, i, j)
    ensures StreamOf(metas[j]) == Some(key)
    ensures Linked(Stream(metas, key), gap, metas[i].AsMember(), metas[j].AsMember())
  {
    var path :| Trail(metas, gap, path) && |path| > 0 && path[0] == i && path[|path| - 1] == j;
    StreamHolds(metas, key, |metas|);
    var chain := seq(|path|, k requires 0 <= k < |path| && path[k] < |metas| => metas[path[k]].AsMember());
    forall k | 0 <= k < |chain|
      ensures chain[k] in Stream(metas, key) && path[k] < |metas| && StreamOf(metas[path[k]]) == Some(key)
    {
      TrailStays(metas, key, gap, path, k);
      assert metas[path[k]].AsMember() == chain[k];
    }
    forall k | 0 < k < |chain|
      ensures Near(chain[k - 1], chain[k], gap)
    {
      assert CloseBy(metas[path[k - 1]], metas[path[k]], gap);
    }
    assert Chain(Stream(metas, key), gap, chain);
  }

  /** Two captures get the same burst exactly when a trail leads from one to the other. */
  lemma SameBurstIsTrail(metas: seq<Meta>, gap: int, i: nat, j: nat)
    requires DistinctShas(metas) && i < |metas| && j < |metas| && i != j
    ensures BurstName(metas, gap, metas[i]) == BurstName(metas, gap, metas[j]) <==> TrailLeads(metas, gap, i, j)
  {
    if TrailLeads(metas, gap, i, j) {
      var path :| Trail(metas, gap, path) && |path| > 0 && path[0] == i && path[|path| - 1] == j;
      assert CloseBy(metas[path[0]], metas[path[1]], gap);
      StreamsAreSame(metas[path[0]], metas[path[1]]);
      TrailIsChain(metas, StreamOf(metas[i]).value, gap, i, j);
    }
    if StreamOf(metas[i]).Some? && StreamOf(metas[i]) == StreamOf(metas[j]) {
      var key := StreamOf(metas[i]).value;
      StreamHolds(metas, key, |metas|);
      assert metas[i].AsMember() in Stream(metas, key) && metas[j].AsMember() in Stream(metas, key);
      SameClusterIffLinked(Stream(metas, key), gap, metas[i].AsMember(), metas[j].AsMember());
      if Linked(Stream(metas, key), gap, metas[i].AsMember(), metas[j].AsMember()) {
        ChainIsTrail(metas, key, gap, i, j);
      }
    }
  }

  /** The reference rows say of the captures what they should. */
  lemma RowsAreLawful(metas: seq<Meta>, gap: int, rows: map<Digest, Row>)
    requires DistinctShas(metas)
    requires forall sha :: sha in rows <==> exists i :: 0 <= i < |metas| && metas[i].sha == sha
    requires forall i :: 0 <= i < |metas| ==> rows[metas[i].sha] == RowOf(metas, gap, metas[i])
    ensures Lawful(metas, gap, rows)
  {
    forall i: nat, j: nat | i < |metas| && j < |metas| && i != j
      ensures GroupsByTrail(metas, gap, metas[i], metas[j], i, j, rows)
    {
      PairByTrail(metas, gap, rows, i, j);
    }
  }

  lemma PairByTrail(metas: seq<Meta>, gap: int, rows: map<Digest, Row>, i: nat, j: nat)
    requires DistinctShas(metas) && i < |metas| && j < |metas| && i != j
    requires metas[i].sha in rows ==> rows[metas[i].sha] == RowOf(metas, gap, metas[i])
    requires metas[j].sha in rows ==> rows[metas[j].sha] == RowOf(metas, gap, metas[j])
    ensures GroupsByTrail(metas, gap, metas[i], metas[j], i, j, rows)
  {
    SameBurstIsTrail(metas, gap, i, j);
    SameBurstIsTrail(metas, WiderGap(gap), i, j);
    assert WiderGap(gap) == if gap > 0 then 5 * gap else gap;
  }

  // ---- the loops ----

  type Streams = map<StreamKey, seq<Member>>

  function Get(streams: Streams, key: StreamKey): seq<Member> {
    if key in streams then streams[key] else []
  }

  /** Every stream holds its captures among the first `n`, and `keys` lists the streams once each. */
  ghost predicate Filed(metas: seq<Meta>, n: nat, streams: Streams, keys: seq<StreamKey>) {
    && n <= |metas|
    && (forall key :: Get(streams, key) == StreamMembers(metas, key, n))
    && Distinct(keys) && (forall key :: key in keys <==> key in streams)
    && (forall i :: 0 <= i < n && StreamOf(metas[i]).Some? ==> StreamOf(metas[i]).value in keys)
  }

  /** One capture filed under its stream. */
  method FileOne(metas: seq<Meta>, n: nat, streams: Streams, keys: seq<StreamKey>)
    returns (r: Streams, known: seq<StreamKey>)
    requires n < |metas| && Filed(metas, n, streams, keys)
    ensures Filed(metas, n + 1, r, known)
  {
    r, known := streams, keys;
    var stream := StreamOf(metas[n]);
    if stream.Some? {
      var key := stream.value;
      if key !in streams {
        known := keys + [key];
      }
      r := streams[key := Get(streams, key) + [metas[n].AsMember()]];
    }
    forall key
      ensures Get(r, key) == StreamMembers(metas, key, n + 1)
    {
      assert Get(streams, key) == StreamMembers(metas, key, n);
    }
  }

  /** The loop that files every capture under its stream; `keys` lists the streams in order of first use. */
  method FileMembers(metas: seq<Meta>) returns (streams: Streams, keys: seq<StreamKey>)
    ensures Filed(metas, |metas|, streams, keys)
  {
    streams, keys := map[], [];
    for n := 0 to |metas|
      invariant Filed(metas, n, streams, keys)
    {
      streams, keys := FileOne(metas, n, streams, keys);
    }
  }

  ghost predicate Named(metas: seq<Meta>, gap: int, keys: seq<StreamKey>, names: map<Digest, Name>) {
    && (forall i :: 0 <= i < |metas| ==>
          (metas[i].sha in names <==> StreamOf(metas[i]).Some? && StreamOf(metas[i]).value in keys))
    && (forall i :: 0 <= i < |metas| && metas[i].sha in names ==>
        names[metas[i].sha] == BurstName(metas, gap, metas[i]))
  }

  /** One stream's clusters, added to the names found so far. */
  method NameStream(metas: seq<Meta>, gap: int, keys: seq<StreamKey>, key: StreamKey, members: seq<Member>,
                    names: map<Digest, Name>) returns (r: map<Digest, Name>)
    requires DistinctShas(metas) && Files(metas, key, members)
    requires Named(metas, gap, keys, names)
    ensures Named(metas, gap, keys + [key], r)
  {
    var clusters := ClusterByGap(members, gap);
    var added := map sha | sha in clusters :: Burst(key, clusters[sha]);
    r := names + added;
    forall i | 0 <= i < |metas|
      ensures metas[i].sha in added <==> StreamOf(metas[i]) == Some(key)
      ensures metas[i].sha in added ==> added[metas[i].sha] == BurstName(metas, gap, metas[i])
    {
      ShaFindsMember(metas, key, members, i);
    }
    NamesMerge(metas, gap, keys, key, names, added);
  }

  /** The names of one more stream, laid over those of the streams before it. */
  lemma NamesMerge(metas: seq<Meta>, gap: int, keys: seq<StreamKey>, key: StreamKey, names: map<Digest, Name>,
                   added: map<Digest, Name>)
    requires Named(metas, gap, keys, names)
    requires forall i :: 0 <= i < |metas| ==> (metas[i].sha in added <==> StreamOf(metas[i]) == Some(key))
    requires forall i :: 0 <= i < |metas| && metas[i].sha in added ==>
      added[metas[i].sha] == BurstName(metas, gap, metas[i])
    ensures Named(metas, gap, keys + [key], names + added)
  {
  }

  method NameStreams(metas: seq<Meta>, gap: int, streams: Streams, keys: seq<StreamKey>)
    returns (names: map<Digest, Name>)
    requires DistinctShas(metas)
    requires forall key :: Get(streams, key) == StreamMembers(metas, key, |metas|)
    ensures Named(metas, gap, keys, names)
  {
    names := map[];
    for k := 0 to |keys|
      invariant Named(metas, gap, keys[..k], names)
    {
      StreamIsFiled(metas, keys[k]);
      names := NameStream(metas, gap, keys[..k], keys[k], Get(streams, keys[k]), names);
      assert keys[..k + 1] == keys[..k] + [keys[k]];
    }
    assert keys[..|keys|] == keys;
  }

  /** `_lineage_rows` */
  method LineageRows(metas: seq<Meta>, gap: int) returns (rows: map<Digest, Row>)
    requires DistinctShas(metas)
    ensures forall sha :: sha in rows <==> exists i :: 0 <= i < |metas| && metas[i].sha == sha
    ensures forall i :: 0 <= i < |metas| ==> rows[metas[i].sha] == RowOf(metas, gap, metas[i])
    ensures Lawful(metas, gap, rows)
  {
    var streams, keys := FileMembers(metas);
    var objects := NameStreams(metas, gap, streams, keys);
    var sessions := NameStreams(metas, WiderGap(gap), streams, keys);
    rows := map[];
    for n := 0 to |metas|
      invariant forall sha :: sha in rows <==> exists i :: 0 <= i < n && metas[i].sha == sha
      invariant forall i :: 0 <= i < n ==> rows[metas[i].sha] == RowOf(metas, gap, metas[i])
    {
      var m := metas[n];
      var objectGroup, source;
      if m.explicitGroup.Some? {
        objectGroup, source := Explicit(m.explicitGroup.value), ByGroup;
      } else if m.sha in objects {
        objectGroup := objects[m.sha];
        source :=
          if m.client.Some? then ByClient else if m.explicitSession.Some? then BySession
          else if m.device.Some? then ByDevice else ByTime;
      } else {
        objectGroup, source := Content(m.sha), ByContent;
      }
      var session :=
        if m.explicitSession.Some? then Explicit(m.explicitSession.value)
        else if m.sha in sessions then sessions[m.sha]
        else Content(m.sha);
      rows := rows[m.sha := Row(objectGroup, session, source, m.time)];
    }
    RowsAreLawful(metas, gap, rows);
  }
}
