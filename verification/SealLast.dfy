/** Bundle publication: checks before, rename without replacing, checks after, and the seal file last. */
module SealLast {
  import opened Wrappers

  type Bytes = seq<int>

  /** A file of the bundle, or one that stays where it is. */
  datatype Place = Inside(name: nat) | Outside(path: nat)

  datatype Row = Row(place: Place, digest: Digest)

  datatype Seal = NoSeal | Sealed(bytes: Bytes, byProgram: bool)

  datatype Dir = Dir(files: map<nat, Bytes>, seal: Seal)

  datatype World = World(outside: map<nat, Bytes>, stage: Option<Dir>, final: Option<Dir>)

  /** `listed` are the rows the seal names; the other checks run before and after publication without being listed. */
  datatype Plan = Plan(staged: map<nat, Bytes>, listed: seq<Row>, otherBefore: seq<Row>, otherAfter: seq<Row>,
                       sha: Bytes -> Digest, render: seq<Row> -> Bytes)
  {
    function Before(): seq<Row> {
      listed + otherBefore
    }

    function After(): seq<Row> {
      listed + otherAfter
    }

    function SealBytes(): Bytes {
      render(listed)
    }
  }

  datatype Pc =
    | Stage | Precheck(next: nat) | Publish | Postcheck(next: nat) | OpenSeal | WriteSeal(done: nat) | Returned
    | RemoveStage | Raised

  /** `quiet`: no environment step since the seal was opened. */
  datatype State = State(world: World, pc: Pc, quiet: bool)

  datatype Event = Step(fault: bool, amount: nat) | Interference(world: World)

  function Contents(world: World, dir: Option<Dir>, place: Place): Option<Bytes> {
    match place
    case Inside(name) => if dir.Some? && name in dir.value.files then Some(dir.value.files[name]) else None
    case Outside(path) => if path in world.outside then Some(world.outside[path]) else None
  }

  /** The file a row names, looked up in `dir` when it belongs to the bundle, has the row's digest. */
  predicate Matches(plan: Plan, world: World, dir: Option<Dir>, row: Row) {
    var bytes := Contents(world, dir, row.place);
    bytes.Some? && plan.sha(bytes.value) == row.digest
  }

  predicate HasProgramSeal(dir: Option<Dir>) {
    dir.Some? && dir.value.seal.Sealed? && dir.value.seal.byProgram
  }

  predicate ProgramSeal(world: World) {
    HasProgramSeal(world.final)
  }

  /** The bytes of `content` written so far are at the final place, in a seal the program opened. */
  predicate SealHolds(world: World, bytes: Bytes) {
    world.final.Some? && world.final.value.seal == Sealed(bytes, true)
  }

  function Reseal(world: World, seal: Seal): World
    requires world.final.Some?
  {
    world.(final := Some(world.final.value.(seal := seal)))
  }

  function Advance(plan: Plan, s: State, e: Event): State
    requires e.Step?
  {
    match s.pc
    case Stage =>
      if e.fault then s.(pc := RemoveStage)
      else s.(pc := Precheck(0), world := s.world.(stage := Some(Dir(plan.staged, NoSeal))))
    case Precheck(k) =>
      if k >= |plan.Before()| then s.(pc := Publish)
      else s.(pc := if !e.fault &&
              Matches(plan, s.world, s.world.stage, plan.Before()[k]) then Precheck(k + 1) else RemoveStage)
    case Publish =>
      if e.fault || s.world.stage.None? || s.world.final.Some? then s.(pc := RemoveStage)
      else s.(pc := Postcheck(0), world := s.world.(stage := None, final := s.world.stage))
    case Postcheck(k) =>
      if k >= |plan.After()| then s.(pc := OpenSeal)
      else s.(pc := if !e.fault &&
              Matches(plan, s.world, s.world.final, plan.After()[k]) then Postcheck(k + 1) else Raised)
    case OpenSeal =>
      if e.fault || s.world.final.None? || s.world.final.value.seal.Sealed? then s.(pc := Raised)
      else s.(pc := WriteSeal(0), world := Reseal(s.world, Sealed([], true)), quiet := true)
    case WriteSeal(done) =>
      if e.fault then s.(pc := Raised)
      else if done >= |plan.SealBytes()| then s.(pc := Returned)
      else
        var more := if done + e.amount < |plan.SealBytes()| then done + e.amount else |plan.SealBytes()|;
        s.(pc := WriteSeal(more),
           world := if SealHolds(s.world, plan.SealBytes()[..done])
                    then Reseal(s.world, Sealed(plan.SealBytes()[..more], true)) else s.world)
    case RemoveStage => s.(pc := Raised, world := s.world.(stage := None))
    case _ => s
  }

  function Next(plan: Plan, s: State, e: Event): State {
    if e.Interference? then s.(world := e.world, quiet := false) else Advance(plan, s, e)
  }

  function Run(plan: Plan, world: World, events: seq<Event>): State {
    if events == [] then State(world, Stage, false)
    else Next(plan, Run(plan, world, events[..|events| - 1]), events[|events| - 1])
  }

  /** The state just before event `i`. */
  function At(plan: Plan, world: World, events: seq<Event>, i: nat): State
    requires i <= |events|
  {
    Run(plan, world, events[..i])
  }

  // ---- what the environment may do ----

  /** Anything, except to produce a seal that counts as the program's own. */
  predicate Permitted(before: World, e: Event) {
    e.Interference? ==>
      && !HasProgramSeal(e.world.stage)
      && (ProgramSeal(e.world) ==> ProgramSeal(before) && e.world.final.value.seal == before.final.value.seal)
  }

  ghost predicate AllPermitted(plan: Plan, world: World, events: seq<Event>) {
    forall i :: 0 <= i < |events| ==> Permitted(At(plan, world, events, i).world, events[i])
  }

  // ---- what has happened in a run ----

  /** There is a file where the row says, in the directory or outside it, and its bytes hash to the row's digest. */
  ghost predicate HasDigest(plan: Plan, world: World, dir: Option<Dir>, row: Row) {
    exists bytes :: plan.sha(bytes) == row.digest && IsAt(world, dir, row.place, bytes)
  }

  ghost predicate IsAt(world: World, dir: Option<Dir>, place: Place, bytes: Bytes) {
    && (place.Inside? ==> dir.Some? && place.name in dir.value.files && dir.value.files[place.name] == bytes)
    && (place.Outside? ==> place.path in world.outside && world.outside[place.path] == bytes)
  }

  lemma MatchesExactly(plan: Plan, world: World, dir: Option<Dir>, row: Row)
    ensures Matches(plan, world, dir, row) <==> HasDigest(plan, world, dir, row)
  {
    if Matches(plan, world, dir, row) {
      assert IsAt(world, dir, row.place, Contents(world, dir, row.place).value);
    }
  }

  ghost predicate CheckedBefore(plan: Plan, world: World, events: seq<Event>, i: nat, k: nat) {
    && i < |events| && k < |plan.Before()|
    && var s := At(plan, world, events, i);
       s.pc == Precheck(k) && HasDigest(plan, s.world, s.world.stage, plan.Before()[k])
  }

  ghost predicate CheckedAfter(plan: Plan, world: World, events: seq<Event>, i: nat, k: nat) {
    && i < |events| && k < |plan.After()|
    && var s := At(plan, world, events, i);
       s.pc == Postcheck(k) && HasDigest(plan, s.world, s.world.final, plan.After()[k])
  }

  ghost predicate WasCheckedBefore(plan: Plan, world: World, events: seq<Event>, k: nat, limit: nat) {
    exists i: nat :: i < limit && CheckedBefore(plan, world, events, i, k)
  }

  ghost predicate WasCheckedAfter(plan: Plan, world: World, events: seq<Event>, k: nat, start: nat) {
    exists i: nat :: start < i && CheckedAfter(plan, world, events, i, k)
  }

  /** At event `p` the staged directory was put in place, and nothing had been there. */
  ghost predicate PublishedAt(plan: Plan, world: World, events: seq<Event>, p: nat) {
    && p < |events|
    && var s := At(plan, world, events, p);
       var next := At(plan, world, events, p + 1);
       s.pc == Publish && s.world.final == None && s.world.stage.Some? && next.world.final == s.world.stage
  }

  ghost predicate AllBefore(plan: Plan, world: World, events: seq<Event>, count: nat, limit: nat) {
    forall k: nat :: k < count ==> WasCheckedBefore(plan, world, events, k, limit)
  }

  ghost predicate AllAfter(plan: Plan, world: World, events: seq<Event>, count: nat, start: nat) {
    forall k: nat :: k < count ==> WasCheckedAfter(plan, world, events, k, start)
  }

  /** Published without replacing anything at `p`, all checks before `p`, `count` of the checks after. */
  ghost predicate Released(plan: Plan, world: World, events: seq<Event>, p: nat, count: nat) {
    && PublishedAt(plan, world, events, p)
    && AllBefore(plan, world, events, |plan.Before()|, p)
    && AllAfter(plan, world, events, count, p)
  }

  ghost predicate Progress(plan: Plan, world: World, events: seq<Event>, s: State) {
    && !HasProgramSeal(s.world.stage)
    && (s.pc.Precheck? ==> s.pc.next <= |plan.Before()| && AllBefore(plan, world, events, s.pc.next, |events|))
    && (s.pc.Publish? ==> AllBefore(plan, world, events, |plan.Before()|, |events|))
    && (s.pc.Postcheck? ==> s.pc.next <= |plan.After()| && exists p: nat :: Released(plan, world, events, p, s.pc.next))
    && (s.pc.OpenSeal? || s.pc.WriteSeal? || s.pc.Returned? || ProgramSeal(s.world) ==>
          exists p: nat :: Released(plan, world, events, p, |plan.After()|))
  }

  // ---- every run ----

  lemma {:induction false} AtExtends(plan: Plan, world: World, events: seq<Event>, e: Event)
    ensures forall i: nat :: i <= |events| ==> At(plan, world, events + [e], i) == At(plan, world, events, i)
    ensures At(plan, world, events, |events|) == Run(plan, world, events)
    ensures At(plan, world, events + [e], |events| + 1) == Next(plan, Run(plan, world, events), e)
    ensures Run(plan, world, events + [e]) == Next(plan, Run(plan, world, events), e)
  {
    assert events[..|events|] == events;
    assert (events + [e])[..|events| + 1] == events + [e];
    assert (events + [e])[..|events|] == events;
    forall i: nat | i <= |events|
      ensures At(plan, world, events + [e], i) == At(plan, world, events, i)
    {
      assert (events + [e])[..i] == events[..i];
    }
  }

  lemma BeforeExtends(plan: Plan, world: World, events: seq<Event>, e: Event, count: nat, limit: nat, more: nat)
    requires AllBefore(plan, world, events, count, limit) && limit <= more
    ensures AllBefore(plan, world, events + [e], count, more)
  {
    AtExtends(plan, world, events, e);
    forall k: nat | k < count
      ensures WasCheckedBefore(plan, world, events + [e], k, more)
    {
      assert WasCheckedBefore(plan, world, events, k, limit);
      var i: nat :| i < limit && CheckedBefore(plan, world, events, i, k);
      assert CheckedBefore(plan, world, events + [e], i, k);
    }
  }

  lemma AfterExtends(plan: Plan, world: World, events: seq<Event>, e: Event, count: nat, start: nat)
    requires AllAfter(plan, world, events, count, start)
    ensures AllAfter(plan, world, events + [e], count, start)
  {
    AtExtends(plan, world, events, e);
    forall k: nat | k < count
      ensures WasCheckedAfter(plan, world, events + [e], k, start)
    {
      assert WasCheckedAfter(plan, world, events, k, start);
      var i: nat :| start < i && CheckedAfter(plan, world, events, i, k);
      assert CheckedAfter(plan, world, events + [e], i, k);
    }
  }

  lemma ReleasedExtends(plan: Plan, world: World, events: seq<Event>, e: Event, p: nat, count: nat)
    requires Released(plan, world, events, p, count)
    ensures Released(plan, world, events + [e], p, count)
  {
    AtExtends(plan, world, events, e);
    BeforeExtends(plan, world, events, e, |plan.Before()|, p, p);
    AfterExtends(plan, world, events, e, count, p);
  }

  /** A pre-publication check that passes is remembered. */
  lemma {:induction false} PrecheckPasses(plan: Plan, world: World, events: seq<Event>, e: Event, k: nat)
    requires e.Step? && Run(plan, world, events).pc == Precheck(k) && k < |plan.Before()|
    requires Advance(plan, Run(plan, world, events), e).pc == Precheck(k + 1)
    requires AllBefore(plan, world, events, k, |events|)
    ensures AllBefore(plan, world, events + [e], k + 1, |events| + 1)
  {
    AtExtends(plan, world, events, e);
    BeforeExtends(plan, world, events, e, k, |events|, |events| + 1);
    var now := Run(plan, world, events).world;
    MatchesExactly(plan, now, now.stage, plan.Before()[k]);
    assert CheckedBefore(plan, world, events + [e], |events|, k);
    assert WasCheckedBefore(plan, world, events + [e], k, |events| + 1);
  }

  /** So is a post-publication check. */
  lemma {:induction false} PostcheckPasses(plan: Plan, world: World, events: seq<Event>, e: Event, p: nat, k: nat)
    requires e.Step? && Run(plan, world, events).pc == Postcheck(k) && k < |plan.After()|
    requires Advance(plan, Run(plan, world, events), e).pc == Postcheck(k + 1)
    requires Released(plan, world, events, p, k)
    ensures Released(plan, world, events + [e], p, k + 1)
  {
    AtExtends(plan, world, events, e);
    ReleasedExtends(plan, world, events, e, p, k);
    assert p != |events| by {
      assert At(plan, world, events, p).pc == Publish;
    }
    var now := Run(plan, world, events).world;
    MatchesExactly(plan, now, now.final, plan.After()[k]);
    assert CheckedAfter(plan, world, events + [e], |events|, k);
    assert WasCheckedAfter(plan, world, events + [e], k, p);
  }

  lemma {:induction false} PublishHappens(plan: Plan, world: World, events: seq<Event>, e: Event)
    requires e.Step? && Run(plan, world, events).pc == Publish
    requires Advance(plan, Run(plan, world, events), e).pc == Postcheck(0)
    requires AllBefore(plan, world, events, |plan.Before()|, |events|)
    ensures Released(plan, world, events + [e], |events|, 0)
  {
    AtExtends(plan, world, events, e);
    BeforeExtends(plan, world, events, e, |plan.Before()|, |events|, |events|);
  }

  lemma {:induction false} PermittedSoFar(plan: Plan, world: World, events: seq<Event>, e: Event)
    requires AllPermitted(plan, world, events + [e])
    ensures AllPermitted(plan, world, events) && Permitted(Run(plan, world, events).world, e)
  {
    AtExtends(plan, world, events, e);
    forall i | 0 <= i < |events|
      ensures Permitted(At(plan, world, events, i).world, events[i])
    {
      assert Permitted(At(plan, world, events + [e], i).world, (events + [e])[i]);
    }
    assert Permitted(At(plan, world, events + [e], |events|).world, (events + [e])[|events|]);
  }

  lemma {:induction false} RunProgresses(plan: Plan, world: World, events: seq<Event>)
    requires !ProgramSeal(world) && !HasProgramSeal(world.stage) && AllPermitted(plan, world, events)
    ensures Progress(plan, world, events, Run(plan, world, events))
  {
    if events != [] {
      var earlier, e := events[..|events| - 1], events[|events| - 1];
      assert events == earlier + [e];
      AtExtends(plan, world, earlier, e);
      PermittedSoFar(plan, world, earlier, e);
      RunProgresses(plan, world, earlier);
      StepProgresses(plan, world, earlier, e);
    }
  }

  lemma FullyReleasedExtends(plan: Plan, world: World, events: seq<Event>, e: Event)
    requires exists p: nat :: Released(plan, world, events, p, |plan.After()|)
    ensures exists p: nat :: Released(plan, world, events + [e], p, |plan.After()|)
  {
    var p: nat :| Released(plan, world, events, p, |plan.After()|);
    ReleasedExtends(plan, world, events, e, p, |plan.After()|);
  }

  /** Whatever does not move the checks forward leaves everything recorded in place. */
  lemma StandsStill(plan: Plan, world: World, events: seq<Event>, e: Event, s: State, next: State)
    requires Progress(plan, world, events, s)
    requires next.pc == s.pc && !HasProgramSeal(next.world.stage) && (ProgramSeal(next.world) ==> ProgramSeal(s.world))
    ensures Progress(plan, world, events + [e], next)
  {
    if s.pc.Precheck? {
      BeforeExtends(plan, world, events, e, s.pc.next, |events|, |events| + 1);
    }
    if s.pc.Publish? {
      BeforeExtends(plan, world, events, e, |plan.Before()|, |events|, |events| + 1);
    }
    if s.pc.Postcheck? {
      var p: nat :| Released(plan, world, events, p, s.pc.next);
      ReleasedExtends(plan, world, events, e, p, s.pc.next);
    }
    if exists p: nat :: Released(plan, world, events, p, |plan.After()|) {
      FullyReleasedExtends(plan, world, events, e);
    }
  }

  lemma {:induction false} PrecheckProgresses(plan: Plan, world: World, events: seq<Event>, e: Event)
    requires Progress(plan, world, events, Run(plan, world, events))
    requires e.Step? && Run(plan, world, events).pc.Precheck?
    ensures Progress(plan, world, events + [e], Advance(plan, Run(plan, world, events), e))
  {
    var s := Run(plan, world, events);
    var k := s.pc.next;
    if k < |plan.Before()| && Advance(plan, s, e).pc == Precheck(k + 1) {
      PrecheckPasses(plan, world, events, e, k);
    } else {
      BeforeExtends(plan, world, events, e, k, |events|, |events| + 1);
    }
    if ProgramSeal(s.world) {
      FullyReleasedExtends(plan, world, events, e);
    }
  }

  /** A post-publication step that goes on remembers the checks made so far. */
  lemma PostcheckRemembers(plan: Plan, world: World, events: seq<Event>, e: Event, s: State, next: State)
    returns (p: nat)
    requires s == Run(plan, world, events) && e.Step? && s.pc.Postcheck? && next == Advance(plan, s, e)
    requires exists p: nat :: Released(plan, world, events, p, s.pc.next)
    ensures next.pc == Postcheck(s.pc.next + 1) && s.pc.next < |plan.After()| ==>
      Released(plan, world, events + [e], p, s.pc.next + 1)
    ensures Released(plan, world, events + [e], p, s.pc.next)
  {
    p :| Released(plan, world, events, p, s.pc.next);
    if next.pc == Postcheck(s.pc.next + 1) && s.pc.next < |plan.After()| {
      PostcheckPasses(plan, world, events, e, p, s.pc.next);
    }
    ReleasedExtends(plan, world, events, e, p, s.pc.next);
  }

  lemma {:induction false} PostcheckProgresses(plan: Plan, world: World, events: seq<Event>, e: Event)
    requires Progress(plan, world, events, Run(plan, world, events))
    requires e.Step? && Run(plan, world, events).pc.Postcheck?
    ensures Progress(plan, world, events + [e], Advance(plan, Run(plan, world, events), e))
  {
    var s := Run(plan, world, events);
    PostcheckMoves(plan, s, e);
    var p := PostcheckRemembers(plan, world, events, e, s, Advance(plan, s, e));
    if ProgramSeal(s.world) {
      FullyReleasedExtends(plan, world, events, e);
    }
  }

  /** A post-publication step changes no file and moves on only past a match or at the end of the list. */
  lemma PostcheckMoves(plan: Plan, s: State, e: Event)
    requires e.Step? && s.pc.Postcheck? && s.pc.next <= |plan.After()|
    ensures var next := Advance(plan, s, e);
      && next.world == s.world
      && (next.pc == Raised || (next.pc == OpenSeal && s.pc.next == |plan.After()|) ||
          (next.pc == Postcheck(s.pc.next + 1) && s.pc.next < |plan.After()|))
  {
  }

  lemma {:induction false} PublishProgresses(plan: Plan, world: World, events: seq<Event>, e: Event)
    requires Progress(plan, world, events, Run(plan, world, events))
    requires e.Step? && Run(plan, world, events).pc == Publish
    ensures Progress(plan, world, events + [e], Advance(plan, Run(plan, world, events), e))
  {
    var s := Run(plan, world, events);
    if Advance(plan, s, e).pc == Postcheck(0) {
      PublishHappens(plan, world, events, e);
    }
    if ProgramSeal(s.world) {
      FullyReleasedExtends(plan, world, events, e);
    }
  }

  lemma {:induction false} OtherProgresses(plan: Plan, world: World, events: seq<Event>, e: Event)
    requires Progress(plan, world, events, Run(plan, world, events))
    requires e.Step? && !Run(plan, world, events).pc.Postcheck? && !Run(plan, world, events).pc.Precheck?
    requires Run(plan, world, events).pc != Publish
    ensures Progress(plan, world, events + [e], Advance(plan, Run(plan, world, events), e))
  {
    if exists p: nat :: Released(plan, world, events, p, |plan.After()|) {
      FullyReleasedExtends(plan, world, events, e);
    }
  }

  lemma {:induction false} StepProgresses(plan: Plan, world: World, events: seq<Event>, e: Event)
    requires Progress(plan, world, events, Run(plan, world, events))
    requires Permitted(Run(plan, world, events).world, e)
    ensures Progress(plan, world, events + [e], Next(plan, Run(plan, world, events), e))
  {
    var s := Run(plan, world, events);
    if e.Interference? {
      StandsStill(plan, world, events, e, s, Next(plan, s, e));
    } else if s.pc.Precheck? {
      PrecheckProgresses(plan, world, events, e);
    } else if s.pc.Postcheck? {
      PostcheckProgresses(plan, world, events, e);
    } else if s.pc == Publish {
      PublishProgresses(plan, world, events, e);
    } else {
      OtherProgresses(plan, world, events, e);
    }
  }

  // ---- refused steps ----

  /**
   * A refused operation leaves every file alone. Before publication it leads to the removal of the stage, which ends
   * the run with no stage left; after publication it ends the run. An ended run stays as it is.
   */
  lemma {:induction false} RefusedStep(plan: Plan, world: World, events: seq<Event>, amount: nat)
    ensures var s, t := Run(plan, world, events), Run(plan, world, events + [Step(true, amount)]);
      && (s.pc.Stage? || (s.pc.Precheck? && s.pc.next < |plan.listed| + |plan.otherBefore|) || s.pc.Publish? ==>
            t.world == s.world && t.pc.RemoveStage?)
      && ((s.pc.Postcheck? && s.pc.next < |plan.listed| + |plan.otherAfter|) || s.pc.OpenSeal? || s.pc.WriteSeal? ==>
            t.world == s.world && t.pc.Raised?)
      && (s.pc.RemoveStage? ==> t.world == s.world.(stage := None) && t.pc.Raised?)
      && (s.pc.Returned? || s.pc.Raised? ==> t == s)
  {
    AtExtends(plan, world, events, Step(true, amount));
  }

  // ---- the promises ----

  /**
   * In every run and at every crash point: a seal of the program's own, complete or torn, exists only after the
   * directory was put in place without replacing anything, with every check passed before that and again after it.
   */
  lemma {:induction false} SealImpliesRechecked(plan: Plan, world: World, events: seq<Event>)
    requires !ProgramSeal(world) && !HasProgramSeal(world.stage) && AllPermitted(plan, world, events)
    requires ProgramSeal(Run(plan, world, events).world)
    ensures exists p: nat :: Released(plan, world, events, p, |plan.After()|)
    ensures exists p: nat :: AllRechecked(plan, world, events, p)
  {
    RunProgresses(plan, world, events);
    var p: nat :| Released(plan, world, events, p, |plan.After()|);
    forall row | row in plan.listed + plan.otherBefore
      ensures HadBefore(plan, world, events, row, p)
    {
      var k :| 0 <= k < |plan.Before()| && plan.Before()[k] == row;
      assert WasCheckedBefore(plan, world, events, k, p);
    }
    forall row | row in plan.listed + plan.otherAfter
      ensures HasAfter(plan, world, events, row, p)
    {
      var k :| 0 <= k < |plan.After()| && plan.After()[k] == row;
      assert WasCheckedAfter(plan, world, events, k, p);
    }
    assert AllRechecked(plan, world, events, p);
  }

  ghost predicate HadBefore(plan: Plan, world: World, events: seq<Event>, row: Row, p: nat) {
    exists i: nat :: i < p && i <= |events| &&
      HasDigest(plan, At(plan, world, events, i).world, At(plan, world, events, i).world.stage, row)
  }

  ghost predicate HasAfter(plan: Plan, world: World, events: seq<Event>, row: Row, p: nat) {
    exists j: nat :: p < j <= |events| &&
      HasDigest(plan, At(plan, world, events, j).world, At(plan, world, events, j).world.final, row)
  }

  /** The staged directory was put where nothing was, and every row held before that and again after it. */
  ghost predicate AllRechecked(plan: Plan, world: World, events: seq<Event>, p: nat) {
    && PublishedAt(plan, world, events, p)
    && (forall row :: row in plan.listed + plan.otherBefore ==> HadBefore(plan, world, events, row, p))
    && (forall row :: row in plan.listed + plan.otherAfter ==> HasAfter(plan, world, events, row, p))
  }

  /** The seal's bytes: what has been written so far of the listing of the checked rows. */
  ghost predicate SealIsPrefix(plan: Plan, s: State) {
    && (s.pc.WriteSeal? ==> s.pc.done <= |plan.SealBytes()|)
    && (s.pc.WriteSeal? && s.quiet ==> SealHolds(s.world, plan.SealBytes()[..s.pc.done]))
    && (s.pc.Returned? && s.quiet ==> SealHolds(s.world, plan.SealBytes()))
    && (ProgramSeal(s.world) ==> s.world.final.value.seal.bytes <= plan.SealBytes())
  }

  lemma SealStaysPrefix(plan: Plan, s: State, e: Event)
    requires SealIsPrefix(plan, s) && !HasProgramSeal(s.world.stage) && Permitted(s.world, e)
    ensures SealIsPrefix(plan, Next(plan, s, e)) && !HasProgramSeal(Next(plan, s, e).world.stage)
  {
  }

  lemma {:induction false} SealOnlyLists(plan: Plan, world: World, events: seq<Event>)
    requires !ProgramSeal(world) && !HasProgramSeal(world.stage) && AllPermitted(plan, world, events)
    ensures SealIsPrefix(plan, Run(plan, world, events)) && !HasProgramSeal(Run(plan, world, events).world.stage)
  {
    if events != [] {
      var earlier, e := events[..|events| - 1], events[|events| - 1];
      assert events == earlier + [e];
      AtExtends(plan, world, earlier, e);
      PermittedSoFar(plan, world, earlier, e);
      SealOnlyLists(plan, world, earlier);
      SealStaysPrefix(plan, Run(plan, world, earlier), e);
    }
  }

  /** Every listed file had the digest the seal gives it, once before publication and once after. */
  lemma {:induction false} ListedFilesWereChecked(plan: Plan, world: World, events: seq<Event>, r: nat)
    requires !ProgramSeal(world) && !HasProgramSeal(world.stage) && AllPermitted(plan, world, events)
    requires ProgramSeal(Run(plan, world, events).world) && r < |plan.listed|
    ensures exists i: nat, p: nat, j: nat ::
      (i < p < j < |events| && PublishedAt(plan, world, events, p) &&
       HasDigest(plan, At(plan, world, events, i).world, At(plan, world, events, i).world.stage, plan.listed[r]) &&
       HasDigest(plan, At(plan, world, events, j).world, At(plan, world, events, j).world.final, plan.listed[r]))
  {
    SealImpliesRechecked(plan, world, events);
    var p: nat :| Released(plan, world, events, p, |plan.After()|);
    assert WasCheckedBefore(plan, world, events, r, p) && WasCheckedAfter(plan, world, events, r, p);
    var i: nat :| i < p && CheckedBefore(plan, world, events, i, r);
    var j: nat :| p < j && CheckedAfter(plan, world, events, j, r);
    assert plan.Before()[r] == plan.listed[r] && plan.After()[r] == plan.listed[r];
  }

  /** An undisturbed return leaves the complete seal in place. */
  lemma {:induction false} ReturnMeansSealed(plan: Plan, world: World, events: seq<Event>)
    requires !ProgramSeal(world) && !HasProgramSeal(world.stage) && AllPermitted(plan, world, events)
    requires Run(plan, world, events).pc.Returned? && Run(plan, world, events).quiet
    ensures var final := Run(plan, world, events).world.final;
      final.Some? && final.value.seal == Sealed(plan.render(plan.listed), true)
  {
    SealOnlyLists(plan, world, events);
  }

  /** In no run does a program step replace a published directory, its files, or a seal it did not open itself. */
  lemma {:induction false} NothingIsReplaced(plan: Plan, world: World, events: seq<Event>, e: Event)
    requires e.Step? && Run(plan, world, events).world.final.Some?
    ensures var before, after := Run(plan, world, events).world, Run(plan, world, events + [e]).world;
      && after.outside == before.outside
      && after.final.Some? && after.final.value.files == before.final.value.files
      && (before.final.value.seal.Sealed? && !ProgramSeal(before) ==> after.final == before.final)
  {
    AtExtends(plan, world, events, e);
  }

  // ---- the undisturbed run ----

  /** Program steps only, none of them refused. */
  ghost predicate Undisturbed(events: seq<Event>) {
    forall k :: 0 <= k < |events| ==> events[k].Step? && !events[k].fault
  }

  /** The staged files, and the files outside, are what every row says. */
  ghost predicate AllMatch(plan: Plan, world: World) {
    var staged := Some(Dir(plan.staged, NoSeal));
    && (forall k :: 0 <= k < |plan.Before()| ==> HasDigest(plan, world, staged, plan.Before()[k]))
    && (forall k :: 0 <= k < |plan.After()| ==> HasDigest(plan, world, staged, plan.After()[k]))
  }

  lemma NextOf(plan: Plan, world: World, events: seq<Event>, s: State, amount: nat)
    returns (more: seq<Event>, next: State)
    requires Undisturbed(events) && Run(plan, world, events) == s
    ensures Undisturbed(more) && Run(plan, world, more) == next && next == Advance(plan, s, Step(false, amount))
  {
    more, next := events + [Step(false, amount)], Advance(plan, s, Step(false, amount));
    AtExtends(plan, world, events, Step(false, amount));
  }

  lemma {:induction false} CleanPrechecks(plan: Plan, world: World, k: nat) returns (events: seq<Event>)
    requires AllMatch(plan, world) && k <= |plan.Before()|
    ensures Undisturbed(events)
    ensures Run(plan, world, events) == State(world.(stage := Some(Dir(plan.staged, NoSeal))), Precheck(k), false)
  {
    var s;
    if k == 0 {
      events, s := NextOf(plan, world, [], State(world, Stage, false), 0);
    } else {
      var earlier := CleanPrechecks(plan, world, k - 1);
      events, s := NextOf(plan, world, earlier, Run(plan, world, earlier), 0);
      MatchesExactly(plan, world, Some(Dir(plan.staged, NoSeal)), plan.Before()[k - 1]);
    }
  }

  lemma {:induction false} CleanPostchecks(plan: Plan, world: World, k: nat) returns (events: seq<Event>)
    requires AllMatch(plan, world) && world.final.None? && k <= |plan.After()|
    ensures Undisturbed(events)
    ensures Run(plan, world, events) ==
            State(world.(stage := None, final := Some(Dir(plan.staged, NoSeal))), Postcheck(k), false)
  {
    var s;
    if k == 0 {
      var staged := CleanPrechecks(plan, world, |plan.Before()|);
      events, s := NextOf(plan, world, staged, Run(plan, world, staged), 0);
      events, s := NextOf(plan, world, events, s, 0);
    } else {
      var earlier := CleanPostchecks(plan, world, k - 1);
      events, s := NextOf(plan, world, earlier, Run(plan, world, earlier), 0);
      assert Matches(plan, world, Some(Dir(plan.staged, NoSeal)), plan.After()[k - 1]);
    }
  }

  /** Left alone, with every file as listed and nothing at the final place, the protocol publishes and seals. */
  lemma CleanRunSeals(plan: Plan, world: World) returns (events: seq<Event>)
    requires AllMatch(plan, world) && world.final.None?
    ensures Undisturbed(events)
    ensures var s := Run(plan, world, events);
      && s.pc.Returned? && SealHolds(s.world, plan.SealBytes())
      && s.world.final.value.files == plan.staged && s.world.outside == world.outside
  {
    var checked := CleanPostchecks(plan, world, |plan.After()|);
    var s;
    events, s := NextOf(plan, world, checked, Run(plan, world, checked), 0);
    events, s := NextOf(plan, world, events, s, 0);
    if plan.SealBytes() != [] {
      events, s := NextOf(plan, world, events, s, |plan.SealBytes()|);
    }
    events, s := NextOf(plan, world, events, s, 0);
    assert plan.SealBytes()[..|plan.SealBytes()|] == plan.SealBytes();
  }
}
