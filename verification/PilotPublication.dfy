/** The pilot's ready marker: hard-link publication, ownership checks, failure marker and revocation, step by step. */
module PilotPublication {
  import opened FileSystem
  import opened Wrappers

  /** Where the run stands; each program step performs the named operation and moves on. */
  datatype Pc =
    // publish and confirm
    | RefuseExisting | MakeTemporary | WriteTemporary | DropUnwritten | LinkReady | Recheck | CheckOwned | ReadBack
    | DropTemporary | Returned
    // failure path
    | RefuseFailed | MakeFailed | WriteFailed | LinkFailed | DropFailedTemporary | Revoke | DropRevoked | Raised

  datatype Marker = NotTried | Present | Failure

  /**
   * `Skipped`: looking for the failure marker raised, and the exception left the handler before the revocation.
   * `Declined`: the ownership check answered no. `Unseen`: it answered no because a name could not be examined.
   */
  datatype Revocation = NotAttempted | Skipped | NothingToRevoke | Revoked | Declined | Unseen | Faulted

  datatype Plan = Plan(ready: Path, failed: Path, temporary: Path, failedTemporary: Path, content: Bytes,
                       message: Bytes)
  {
    predicate Distinct() {
      && ready != failed && ready != temporary && ready != failedTemporary
      && failed != temporary && failed != failedTemporary && temporary != failedTemporary
    }
  }

  /**
   * `handle` is the inode of the file open for writing. `ownedAt`, `readAt`, `decidedAt` and `revokedAt` remember the
   * file system at the decisions the theorems speak about; `quiet` says that the environment has made no step since
   * the last of them.
   */
  datatype State = State(
    fs: FS,
    pc: Pc,
    handle: Option<Inode>,
    identity: Option<Inode>,
    marker: Marker,
    revocation: Revocation,
    ownedAt: Option<FS>,
    readAt: Option<FS>,
    decidedAt: Option<FS>,
    revokedAt: Option<FS>,
    quiet: bool)

  /**
   * A program step may be refused by the operating system; creating a file is given a free inode number. `NotSeen` is
   * a question answered no without an error: the failure path finds no output directory, or the ownership check before
   * the revocation cannot examine a name.
   */
  datatype Event = Step(fault: bool, inode: Inode) | NotSeen | Interference(action: Action)

  function Start(fs: FS): State {
    State(fs, RefuseExisting, None, None, NotTried, NotAttempted, None, None, None, None, false)
  }

  /** `_publication_still_owned`: both the retained link and the destination are the inode we wrote. */
  predicate StillOwned(plan: Plan, fs: FS, identity: Option<Inode>) {
    identity.Some? && Names(fs, plan.temporary, identity.value) && Names(fs, plan.ready, identity.value)
  }

  /** `mkstemp`: a new empty file. */
  function MakeFile(fs: FS, p: Path, e: Event): Option<FS>
    requires e.Step?
  {
    if e.fault || p in fs.names || Live(fs, e.inode) then None else Some(Act(fs, Create(p, e.inode, []), Program))
  }

  function LinkFile(fs: FS, from: Path, to: Path, e: Event): Option<FS>
    requires e.Step?
  {
    if e.fault || from !in fs.names || to in fs.names then None else Some(Act(fs, Link(from, to), Program))
  }

  /** Remove `p` only while it still names the inode `i`. */
  function DropOwn(fs: FS, p: Path, i: Option<Inode>): FS {
    if i.Some? && Names(fs, p, i.value) then Act(fs, Unlink(p), Program) else fs
  }

  /** Remove `p` whatever it names by now, unless the operation is refused. */
  function DropByName(fs: FS, p: Path, e: Event): FS
    requires e.Step?
  {
    if e.fault then fs else Act(fs, Unlink(p), Program)
  }

  /** The publishing half of the run. */
  function Publish(plan: Plan, s: State, e: Event): State
    requires e.Step?
  {
    match s.pc
    case RefuseExisting => s.(pc := if e.fault || plan.ready in s.fs.names then RefuseFailed else MakeTemporary)
    case MakeTemporary =>
      var made := MakeFile(s.fs, plan.temporary, e);
      if made.None? then s.(pc := RefuseFailed) else s.(fs := made.value, handle := Some(e.inode), pc := WriteTemporary)
    case WriteTemporary =>
      if e.fault || s.handle.None? then s.(handle := None, pc := DropUnwritten)
      else s.(fs := Fill(s.fs, s.handle.value, plan.content), identity := s.handle, handle := None, pc := LinkReady)
    case DropUnwritten => s.(pc := RefuseFailed, fs := DropByName(s.fs, plan.temporary, e))
    case LinkReady =>
      var linked := LinkFile(s.fs, plan.temporary, plan.ready, e);
      if linked.None? then s.(pc := RefuseFailed) else s.(fs := linked.value, pc := Recheck)
    case Recheck => s.(pc := if e.fault then RefuseFailed else CheckOwned)
    case CheckOwned =>
      if e.fault || !StillOwned(plan, s.fs, s.identity) then s.(pc := RefuseFailed)
      else s.(pc := ReadBack, ownedAt := Some(s.fs), quiet := true)
    case ReadBack =>
      if e.fault || !Reads(s.fs, plan.ready, plan.content) then s.(pc := RefuseFailed)
      else s.(pc := DropTemporary, readAt := Some(s.fs))
    case DropTemporary =>
      if e.fault then s.(pc := RefuseFailed)
      else s.(pc := Returned, fs := DropOwn(s.fs, plan.temporary, s.identity))
    case _ => s
  }

  /** The failure marker: never over an existing one. */
  function Mark(plan: Plan, s: State, e: Event): State
    requires e.Step?
  {
    match s.pc
    case RefuseFailed =>
      if e.fault then
        s.(pc := Raised, marker := Failure, revocation := Skipped, decidedAt := Some(s.fs), quiet := true)
      else if plan.failed in s.fs.names then s.(pc := Revoke, marker := Present)
      else s.(pc := MakeFailed)
    case MakeFailed =>
      if plan.failed in s.fs.names then s.(pc := Revoke, marker := Present)
      else
        var made := MakeFile(s.fs, plan.failedTemporary, e);
        if made.None? then s.(pc := Revoke, marker := Failure)
        else s.(fs := made.value, handle := Some(e.inode), pc := WriteFailed)
    case WriteFailed =>
      if e.fault || s.handle.None? then s.(handle := None, pc := DropFailedTemporary, marker := Failure)
      else s.(fs := Fill(s.fs, s.handle.value, plan.message), handle := None, pc := LinkFailed)
    case LinkFailed =>
      if plan.failed in s.fs.names then s.(pc := DropFailedTemporary, marker := Present)
      else
        var linked := LinkFile(s.fs, plan.failedTemporary, plan.failed, e);
        if linked.None? then s.(pc := DropFailedTemporary, marker := Failure)
        else s.(fs := linked.value, pc := DropFailedTemporary, marker := Present)
    case DropFailedTemporary => s.(pc := Revoke, fs := DropByName(s.fs, plan.failedTemporary, e))
    case _ => s
  }

  /** The revocation was decided: remember what it was decided on. */
  function Decide(s: State, revocation: Revocation, pc: Pc): State {
    s.(pc := pc, revocation := revocation, decidedAt := Some(s.fs), revokedAt := Some(s.fs), quiet := true)
  }

  /**
   * Revocation: ready is removed only while it is still ours, and the retained link goes last. A refused removal leaves
   * the function before the retained link is dropped.
   */
  function Withdraw(plan: Plan, s: State, e: Event): State
    requires e.Step?
  {
    match s.pc
    case Revoke =>
      if s.identity.None? then Decide(s, NothingToRevoke, Raised)
      else if !StillOwned(plan, s.fs, s.identity) then Decide(s, Declined, DropRevoked)
      else if e.fault then Decide(s, Faulted, Raised)
      else
        var fs := Act(s.fs, Unlink(plan.ready), Program);
        Decide(s, Revoked, DropRevoked).(fs := fs, revokedAt := Some(fs))
    case DropRevoked =>
      s.(pc := Raised, fs := if e.fault then s.fs else DropOwn(s.fs, plan.temporary, s.identity))
    case _ => s
  }

  /** A question answered no because nothing could be seen. */
  function Overlook(s: State): State {
    if s.pc.RefuseFailed? then s.(pc := Revoke, marker := Failure)
    else if s.pc.Revoke? && s.identity.Some? then Decide(s, Unseen, DropRevoked)
    else s
  }

  predicate Publishing(pc: Pc) {
    pc.RefuseExisting? || pc.MakeTemporary? || pc.WriteTemporary? || pc.DropUnwritten? || pc.LinkReady? ||
    pc.Recheck? || pc.CheckOwned? || pc.ReadBack? || pc.DropTemporary?
  }

  predicate Marking(pc: Pc) {
    pc.RefuseFailed? || pc.MakeFailed? || pc.WriteFailed? || pc.LinkFailed? || pc.DropFailedTemporary?
  }

  /** The number of a file that is open cannot be handed out, even when the file has lost its names. */
  function Interfere(s: State, a: Action): State {
    if a.Create? && s.handle == Some(a.inode) then s.(quiet := false)
    else s.(fs := Act(s.fs, a, Environment), quiet := false)
  }

  function Next(plan: Plan, s: State, e: Event): State {
    match e
    case Interference(a) => Interfere(s, a)
    case NotSeen => Overlook(s)
    case Step(_, _) =>
      if Publishing(s.pc) then Publish(plan, s, e)
      else if Marking(s.pc) then Mark(plan, s, e)
      else Withdraw(plan, s, e)
  }

  function Run(plan: Plan, fs: FS, events: seq<Event>): State {
    if events == [] then Start(fs)
    else Next(plan, Run(plan, fs, events[..|events| - 1]), events[|events| - 1])
  }

  lemma {:induction false} RunExtends(plan: Plan, fs: FS, events: seq<Event>, e: Event)
    ensures Run(plan, fs, events + [e]) == Next(plan, Run(plan, fs, events), e)
  {
    assert (events + [e])[..|events|] == events;
  }

  // ---- what every run keeps, whatever the environment does ----

  /** The file system is sound, and a file is open exactly while one is being written, by the program. */
  ghost predicate Sound(s: State) {
    && WellFormed(s.fs)
    && (s.pc.WriteTemporary? || s.pc.WriteFailed? <==> s.handle.Some?)
    && (s.handle.Some? ==> OwnedBy(s.fs, s.handle.value, Program))
  }

  /** What the ownership check and the read-back saw, and that it still holds while nothing interferes. */
  ghost predicate Confirmed(plan: Plan, s: State) {
    && (s.pc.ReadBack? || s.pc.DropTemporary? || s.pc.Returned? ==>
          s.identity.Some? && s.ownedAt.Some? && StillOwned(plan, s.ownedAt.value, s.identity))
    && (s.pc.DropTemporary? || s.pc.Returned? ==> s.readAt.Some? && Reads(s.readAt.value, plan.ready, plan.content))
    && (s.quiet && s.pc.ReadBack? ==> Names(s.fs, plan.ready, s.identity.value))
    && (s.quiet && (s.pc.DropTemporary? || s.pc.Returned?) ==>
          Names(s.fs, plan.ready, s.identity.value) && Reads(s.fs, plan.ready, plan.content))
  }

  predicate Deciding(pc: Pc) {
    pc.DropRevoked? || pc.Raised?
  }

  /** How the revocation was decided, and what ready was when it was. */
  ghost predicate Withdrawn(plan: Plan, s: State) {
    && (Deciding(s.pc) <==> s.revocation != NotAttempted)
    && (Deciding(s.pc) || s.pc.Revoke? || s.pc.DropFailedTemporary? ==> s.marker != NotTried)
    && (s.revocation == Skipped ==> s.marker == Failure)
    && (s.revocation == NothingToRevoke ==> s.identity == None)
    && (s.revocation == Revoked || s.revocation == Declined ==> s.identity.Some? && s.revokedAt.Some?)
    && (s.revocation == Revoked ==> !Names(s.revokedAt.value, plan.ready, s.identity.value))
    && (s.revocation == Declined ==> !StillOwned(plan, s.revokedAt.value, s.identity))
    && (s.quiet && (s.revocation == Revoked || s.revocation == Declined) ==>
          (Names(s.fs, plan.ready, s.identity.value) <==> Names(s.revokedAt.value, plan.ready, s.identity.value)))
  }

  /** A consumer would take the run for a success: ready is the file we wrote, and no failure marker contradicts it. */
  predicate Exposed(plan: Plan, identity: Option<Inode>, fs: FS) {
    identity.Some? && Names(fs, plan.ready, identity.value) && plan.failed !in fs.names
  }

  /** What was exposed when the revocation was decided stays exposed unless the revocation went through. */
  ghost predicate Decided(plan: Plan, s: State) {
    && (Deciding(s.pc) ==> s.decidedAt.Some?)
    && (s.quiet && Deciding(s.pc) ==>
          (Exposed(plan, s.identity, s.fs) <==>
             Exposed(plan, s.identity, s.decidedAt.value) && s.revocation != Revoked))
  }

  lemma InterfereKeeps(plan: Plan, s: State, a: Action)
    ensures Confirmed(plan, s) ==> Confirmed(plan, Interfere(s, a))
    ensures Withdrawn(plan, s) ==> Withdrawn(plan, Interfere(s, a))
    ensures Decided(plan, s) ==> Decided(plan, Interfere(s, a))
    ensures Sound(s) ==> Sound(Interfere(s, a))
  {
    if Sound(s) {
      ActWellFormed(s.fs, a, Environment);
    }
  }

  lemma NextKeepsSound(plan: Plan, s: State, e: Event)
    requires Sound(s)
    ensures Sound(Next(plan, s, e))
  {
    if e.Interference? {
      InterfereKeeps(plan, s, e.action);
    }
  }

  lemma NextKeepsConfirmed(plan: Plan, s: State, e: Event)
    requires plan.Distinct() && Confirmed(plan, s)
    ensures Confirmed(plan, Next(plan, s, e))
  {
    if e.Interference? {
      InterfereKeeps(plan, s, e.action);
    }
  }

  lemma NextKeepsWithdrawn(plan: Plan, s: State, e: Event)
    requires plan.Distinct() && Withdrawn(plan, s)
    ensures Withdrawn(plan, Next(plan, s, e))
  {
    if e.Interference? {
      InterfereKeeps(plan, s, e.action);
    }
  }

  lemma NextKeepsDecided(plan: Plan, s: State, e: Event)
    requires plan.Distinct() && Decided(plan, s) && Withdrawn(plan, s)
    ensures Decided(plan, Next(plan, s, e))
  {
    if e.Interference? {
      InterfereKeeps(plan, s, e.action);
    }
  }

  /** For every environment: what was confirmed, how the revocation was decided, and what that left exposed. */
  lemma {:induction false} RunKeeps(plan: Plan, fs: FS, events: seq<Event>)
    requires plan.Distinct()
    ensures var s := Run(plan, fs, events); Confirmed(plan, s) && Withdrawn(plan, s) && Decided(plan, s)
  {
    if events != [] {
      var before, e := Run(plan, fs, events[..|events| - 1]), events[|events| - 1];
      RunKeeps(plan, fs, events[..|events| - 1]);
      NextKeepsConfirmed(plan, before, e);
      NextKeepsWithdrawn(plan, before, e);
      NextKeepsDecided(plan, before, e);
    }
  }

  lemma {:induction false} RunIsSound(plan: Plan, fs: FS, events: seq<Event>)
    requires WellFormed(fs)
    ensures Sound(Run(plan, fs, events))
  {
    if events != [] {
      RunIsSound(plan, fs, events[..|events| - 1]);
      NextKeepsSound(plan, Run(plan, fs, events[..|events| - 1]), events[|events| - 1]);
    }
  }

  // ---- what a run keeps while the environment leaves a name alone ----

  /** The environment does not take the failure marker away. */
  ghost predicate SparesMarker(plan: Plan, events: seq<Event>) {
    forall k :: 0 <= k < |events| && events[k].Interference? ==> !events[k].action.Removes(plan.failed)
  }

  lemma NextKeepsMarker(plan: Plan, s: State, e: Event)
    requires plan.Distinct() && (e.Interference? ==> !e.action.Removes(plan.failed))
    requires s.marker == Present ==> plan.failed in s.fs.names
    ensures Next(plan, s, e).marker == Present ==> plan.failed in Next(plan, s, e).fs.names
  {
  }

  lemma {:induction false} MarkerStays(plan: Plan, fs: FS, events: seq<Event>)
    requires plan.Distinct() && SparesMarker(plan, events)
    ensures var s := Run(plan, fs, events); s.marker == Present ==> plan.failed in s.fs.names
  {
    if events != [] {
      MarkerStays(plan, fs, events[..|events| - 1]);
      NextKeepsMarker(plan, Run(plan, fs, events[..|events| - 1]), events[|events| - 1]);
    }
  }

  /** The environment leaves the private temporary names alone. */
  ghost predicate SparesPrivate(plan: Plan, events: seq<Event>) {
    forall k :: 0 <= k < |events| && events[k].Interference? ==>
      !events[k].action.Mentions(plan.temporary) && !events[k].action.Mentions(plan.failedTemporary)
  }

  predicate Pinned(fs: FS, p: Path, i: Option<Inode>) {
    i.Some? && Names(fs, p, i.value) && OwnedBy(fs, i.value, Program)
  }

  /** The private name leads to a file of the program's. */
  predicate Ours(fs: FS, p: Path) {
    p in fs.names && OwnedBy(fs, fs.names[p], Program)
  }

  /** The retained links pin the inodes that the ownership checks compare against. */
  ghost predicate Pins(plan: Plan, s: State) {
    && (s.pc.WriteTemporary? ==> Pinned(s.fs, plan.temporary, s.handle))
    && (s.pc.DropUnwritten? ==> Ours(s.fs, plan.temporary))
    && (s.identity.Some? && !s.pc.Returned? && !s.pc.Raised? ==> Pinned(s.fs, plan.temporary, s.identity))
    && (s.pc.WriteFailed? || s.pc.LinkFailed? || s.pc.DropFailedTemporary? ==> Ours(s.fs, plan.failedTemporary))
    && (s.pc.RefuseExisting? || s.pc.MakeTemporary? || s.pc.WriteTemporary? || s.pc.DropUnwritten? ==> s.identity.None?)
    && (s.revocation == Declined ==>
          s.identity.Some? && s.revokedAt.Some? && !Names(s.revokedAt.value, plan.ready, s.identity.value))
  }

  lemma InterfereKeepsPins(plan: Plan, s: State, a: Action)
    requires Sound(s) && Pins(plan, s) && Withdrawn(plan, s)
    requires !a.Mentions(plan.temporary) && !a.Mentions(plan.failedTemporary)
    ensures Pins(plan, Interfere(s, a))
  {
    if Ours(s.fs, plan.temporary) {
      PinnedStaysOurs(s.fs, a, plan.temporary, s.fs.names[plan.temporary]);
    }
    if Ours(s.fs, plan.failedTemporary) {
      PinnedStaysOurs(s.fs, a, plan.failedTemporary, s.fs.names[plan.failedTemporary]);
    }
  }

  lemma PublishKeepsPins(plan: Plan, s: State, e: Event)
    requires plan.Distinct() && e.Step? && Publishing(s.pc) && Sound(s) && Pins(plan, s) && Withdrawn(plan, s)
    ensures Pins(plan, Publish(plan, s, e))
  {
  }

  lemma MarkKeepsPins(plan: Plan, s: State, e: Event)
    requires plan.Distinct() && e.Step? && Marking(s.pc) && Sound(s) && Pins(plan, s) && Withdrawn(plan, s)
    ensures Pins(plan, Mark(plan, s, e))
  {
  }

  lemma WithdrawKeepsPins(plan: Plan, s: State, e: Event)
    requires plan.Distinct() && e.Step? && !Publishing(s.pc) && !Marking(s.pc)
    requires Sound(s) && Pins(plan, s) && Withdrawn(plan, s)
    ensures Pins(plan, Withdraw(plan, s, e))
  {
  }

  lemma {:induction false} RunKeepsPins(plan: Plan, fs: FS, events: seq<Event>)
    requires plan.Distinct() && WellFormed(fs) && SparesPrivate(plan, events)
    ensures Pins(plan, Run(plan, fs, events))
  {
    if events != [] {
      var earlier, e := events[..|events| - 1], events[|events| - 1];
      var s := Run(plan, fs, earlier);
      RunKeepsPins(plan, fs, earlier);
      RunIsSound(plan, fs, earlier);
      RunKeeps(plan, fs, earlier);
      if e.Interference? {
        InterfereKeepsPins(plan, s, e.action);
      } else if e.Step? {
        if Publishing(s.pc) {
          PublishKeepsPins(plan, s, e);
        } else if Marking(s.pc) {
          MarkKeepsPins(plan, s, e);
        } else {
          WithdrawKeepsPins(plan, s, e);
        }
      }
    }
  }

  // ---- what a single step may harm, whatever the environment did ----

  /** The name a program step is about to unlink, if it unlinks one. */
  function Unlinks(plan: Plan, s: State): Option<Path> {
    if (s.pc.DropTemporary? || s.pc.DropRevoked?) && s.identity.Some? && Names(s.fs, plan.temporary, s.identity.value)
      then Some(plan.temporary)
    else if s.pc.DropUnwritten? && plan.temporary in s.fs.names then Some(plan.temporary)
    else if s.pc.DropFailedTemporary? && plan.failedTemporary in s.fs.names then Some(plan.failedTemporary)
    else if s.pc.Revoke? && StillOwned(plan, s.fs, s.identity) then Some(plan.ready)
    else None
  }

  /** A step is about to unlink a file that is not the program's. */
  predicate HitsForeign(plan: Plan, s: State, e: Event) {
    e.Step? && !e.fault && Unlinks(plan, s).Some? && Unlinks(plan, s).value in s.fs.names &&
    OwnedBy(s.fs, s.fs.names[Unlinks(plan, s).value], Environment)
  }

  /** Nothing changed, nothing was unlinked, or exactly the announced name was. */
  ghost predicate OnlyUnlinks(plan: Plan, s: State, e: Event, fs: FS)
    requires e.Step?
  {
    if !e.fault && Unlinks(plan, s).Some? then fs == Act(s.fs, Unlink(Unlinks(plan, s).value), Program)
    else fs == s.fs || Harmless(s.fs, fs)
  }

  lemma PublishHarm(plan: Plan, s: State, e: Event)
    requires Sound(s) && e.Step? && Publishing(s.pc)
    ensures OnlyUnlinks(plan, s, e, Publish(plan, s, e).fs)
  {
    if s.pc.WriteTemporary? {
      FillingIsHarmless(s.fs, s.handle.value, plan.content);
    } else if s.pc.DropUnwritten? && plan.temporary !in s.fs.names {
      assert s.fs.names - {plan.temporary} == s.fs.names;
    }
  }

  lemma MarkHarm(plan: Plan, s: State, e: Event)
    requires Sound(s) && e.Step? && Marking(s.pc)
    ensures OnlyUnlinks(plan, s, e, Mark(plan, s, e).fs)
  {
    if s.pc.WriteFailed? {
      FillingIsHarmless(s.fs, s.handle.value, plan.message);
    } else if s.pc.DropFailedTemporary? && plan.failedTemporary !in s.fs.names {
      assert s.fs.names - {plan.failedTemporary} == s.fs.names;
    }
  }

  lemma WithdrawHarm(plan: Plan, s: State, e: Event)
    requires Sound(s) && e.Step? && !Publishing(s.pc) && !Marking(s.pc)
    ensures OnlyUnlinks(plan, s, e, Withdraw(plan, s, e).fs)
  {
  }

  lemma StepHarm(plan: Plan, s: State, e: Event)
    requires Sound(s) && e.Step?
    ensures OnlyUnlinks(plan, s, e, Next(plan, s, e).fs)
  {
    if Publishing(s.pc) {
      PublishHarm(plan, s, e);
    } else if Marking(s.pc) {
      MarkHarm(plan, s, e);
    } else {
      WithdrawHarm(plan, s, e);
    }
  }

  // ---- refused and overlooked steps ----

  /** Four different names. */
  lemma DistinctIsFour(plan: Plan)
    ensures plan.Distinct() <==> |{plan.ready, plan.failed, plan.temporary, plan.failedTemporary}| == 4
  {
    FourAreDistinct(plan.ready, plan.failed, plan.temporary, plan.failedTemporary);
  }

  lemma FourAreDistinct(a: Path, b: Path, c: Path, d: Path)
    ensures |{a, b, c, d}| == 4 <==> a != b && a != c && a != d && b != c && b != d && c != d
  {
    if a == b {
      assert {a, b, c, d} == {a, c, d};
    } else if a == c || b == c {
      assert {a, b, c, d} == {a, b, d};
    } else if a == d || b == d || c == d {
      assert {a, b, c, d} == {a, b, c};
    }
  }

  /** A refused operation leaves the file system alone, and publishing does not go on after it. */
  lemma {:induction false} RefusedStep(plan: Plan, fs: FS, events: seq<Event>, inode: Inode)
    requires WellFormed(fs)
    ensures var s, t := Run(plan, fs, events), Run(plan, fs, events + [Step(true, inode)]);
      && t.fs == s.fs
      && (Publishing(s.pc) ==> t.pc == if s.pc.WriteTemporary? then DropUnwritten else RefuseFailed)
      && (s.pc.WriteFailed? ==> t.pc.DropFailedTemporary? && t.marker == Failure)
      && (s.pc.Returned? || s.pc.Raised? ==> t == s)
  {
    RunExtends(plan, fs, events, Step(true, inode));
    RunIsSound(plan, fs, events);
  }

  /**
   * A name that cannot be examined: the failure path goes on to the revocation without a marker, and the revocation of
   * a written file is given up; at any other moment nothing happens.
   */
  lemma {:induction false} OverlookedStep(plan: Plan, fs: FS, events: seq<Event>)
    ensures var s, t := Run(plan, fs, events), Run(plan, fs, events + [NotSeen]);
      && t.fs == s.fs
      && (s.pc.RefuseFailed? ==> t.pc.Revoke? && t.marker == Failure)
      && (s.pc.Revoke? && s.identity.Some? ==> t.pc.DropRevoked? && t.revocation == Unseen)
      && (!s.pc.RefuseFailed? && !(s.pc.Revoke? && s.identity.Some?) ==> t == s)
  {
    RunExtends(plan, fs, events, NotSeen);
  }

  // ---- the promises ----

  /**
   * For every environment: a program step overwrites or removes a foreign file exactly when it goes through with an
   * unlink whose name, at that moment, leads to a file of the environment's.
   */
  lemma {:induction false} HarmsExactlyWhen(plan: Plan, fs: FS, events: seq<Event>, e: Event)
    requires WellFormed(fs) && e.Step?
    ensures Harmless(Run(plan, fs, events).fs, Run(plan, fs, events + [e]).fs) <==>
            !HitsForeign(plan, Run(plan, fs, events), e)
  {
    RunIsSound(plan, fs, events);
    RunExtends(plan, fs, events, e);
    var s := Run(plan, fs, events);
    StepHarm(plan, s, e);
    if !e.fault && Unlinks(plan, s).Some? {
      UnlinkHarm(s.fs, Unlinks(plan, s).value);
    }
  }

  /** With the private names left alone, every name the program unlinks leads to a file of its own. */
  lemma PinsPreventHits(plan: Plan, s: State, e: Event)
    requires plan.Distinct() && Pins(plan, s)
    ensures !HitsForeign(plan, s, e)
  {
  }

  /** So no program step, in any such run, overwrites or removes a file the program did not write. */
  lemma {:induction false} NothingForeignIsTouched(plan: Plan, fs: FS, events: seq<Event>, e: Event)
    requires plan.Distinct() && WellFormed(fs) && SparesPrivate(plan, events) && e.Step?
    ensures Harmless(Run(plan, fs, events).fs, Run(plan, fs, events + [e]).fs)
  {
    RunKeepsPins(plan, fs, events);
    PinsPreventHits(plan, Run(plan, fs, events), e);
    HarmsExactlyWhen(plan, fs, events, e);
  }

  /**
   * For every environment: a normal return follows a check that ready and the retained link name the written inode and
   * one that ready reads the written bytes.
   */
  lemma {:induction false} ReturnMeansPublished(plan: Plan, fs: FS, events: seq<Event>)
    requires plan.Distinct() && Run(plan, fs, events).pc.Returned?
    ensures var s := Run(plan, fs, events);
      && s.identity.Some?
      && s.ownedAt.Some? && StillOwned(plan, s.ownedAt.value, s.identity)
      && s.readAt.Some? && Reads(s.readAt.value, plan.ready, plan.content)
      && (s.quiet ==> Names(s.fs, plan.ready, s.identity.value) && Reads(s.fs, plan.ready, plan.content))
  {
    RunKeeps(plan, fs, events);
  }

  /**
   * For every environment: "ready present and failed absent" survives a raise exactly when it held as the revocation
   * was decided and the revocation did not go through.
   */
  lemma {:induction false} RaiseExposesExactlyWhen(plan: Plan, fs: FS, events: seq<Event>)
    requires plan.Distinct() && Run(plan, fs, events).pc.Raised? && Run(plan, fs, events).quiet
    ensures var s := Run(plan, fs, events);
      && s.decidedAt.Some?
      && (Exposed(plan, s.identity, s.fs) <==> Exposed(plan, s.identity, s.decidedAt.value) && s.revocation != Revoked)
  {
    RunKeeps(plan, fs, events);
  }

  /**
   * When a revocation is decided, and how: it goes through exactly when it is reached, not refused, and the retained
   * link and ready both still name the written inode; it is skipped exactly when the look for a failure marker is
   * refused.
   */
  lemma {:induction false} RevokedExactlyWhen(plan: Plan, fs: FS, events: seq<Event>, e: Event)
    requires plan.Distinct() && Run(plan, fs, events).revocation == NotAttempted
    ensures var s, next := Run(plan, fs, events), Run(plan, fs, events + [e]);
      && (next.revocation == Revoked <==> s.pc.Revoke? && e.Step? && !e.fault && StillOwned(plan, s.fs, s.identity))
      && (next.revocation == Skipped <==> s.pc.RefuseFailed? && e.Step? && e.fault)
      && (next.revocation != NotAttempted ==> next.decidedAt == Some(s.fs) && next.identity == s.identity && next.quiet)
  {
    RunKeeps(plan, fs, events);
    RunExtends(plan, fs, events, e);
  }

  /**
   * While the environment spares the failure marker: without the marker, ready was withdrawn, or there is a reason why
   * it was not.
   */
  lemma {:induction false} RaiseMeansNotReady(plan: Plan, fs: FS, events: seq<Event>)
    requires plan.Distinct() && SparesMarker(plan, events) && Run(plan, fs, events).pc.Raised?
    ensures var s := Run(plan, fs, events);
      || plan.failed in s.fs.names
      || (s.marker == Failure &&
          (|| s.revocation == Skipped
           || s.revocation == Unseen
           || s.revocation == Faulted
           || s.identity == None
           || (s.revocation == Declined && s.revokedAt.Some? && !StillOwned(plan, s.revokedAt.value, s.identity))
           || (s.revocation == Revoked && s.revokedAt.Some? &&
               !Names(s.revokedAt.value, plan.ready, s.identity.value) &&
               (s.quiet ==> !Names(s.fs, plan.ready, s.identity.value)))))
  {
    RunKeeps(plan, fs, events);
    MarkerStays(plan, fs, events);
  }

  /** With the private names left alone a declined revocation means that ready was not ours, so nothing was exposed. */
  lemma {:induction false} PrivateRaiseExposesExactlyWhen(plan: Plan, fs: FS, events: seq<Event>)
    requires plan.Distinct() && WellFormed(fs) && SparesPrivate(plan, events)
    requires Run(plan, fs, events).pc.Raised? && Run(plan, fs, events).quiet
    ensures var s := Run(plan, fs, events);
      && s.decidedAt.Some?
      && (s.revocation == Declined ==>
            s.identity.Some? && s.revokedAt.Some? && !Names(s.revokedAt.value, plan.ready, s.identity.value))
      && (Exposed(plan, s.identity, s.fs) <==>
            && Exposed(plan, s.identity, s.decidedAt.value)
            && (s.revocation == Skipped || s.revocation == Unseen || s.revocation == Faulted))
  {
    RunKeeps(plan, fs, events);
    RunKeepsPins(plan, fs, events);
    RaiseExposesExactlyWhen(plan, fs, events);
  }

  // ---- concrete runs ----

  /** The first four steps, undisturbed: created, written, then linked. */
  lemma {:induction false} CleanRunLinks(plan: Plan, fs: FS, i: Inode)
    requires plan.Distinct() && WellFormed(fs) && !Live(fs, i)
    requires plan.ready !in fs.names && plan.temporary !in fs.names
    ensures var e := Step(false, i);
      Run(plan, fs, [e] + [e] + [e] + [e]) ==
      Start(fs).(pc := Recheck, identity := Some(i),
                 fs := FS(fs.names[plan.temporary := i][plan.ready := i], fs.files[i := File(plan.content, Program)]))
  {
    var e := Step(false, i);
    RunExtends(plan, fs, [], e);
    RunExtends(plan, fs, [e], e);
    RunExtends(plan, fs, [e] + [e], e);
    var written := Run(plan, fs, [e] + [e] + [e]);
    assert written.fs.files == fs.files[i := File(plan.content, Program)];
    RunExtends(plan, fs, [e] + [e] + [e], e);
  }

  /** The next three: both checks pass and change nothing. */
  lemma {:induction false} CleanRunChecks(plan: Plan, fs: FS, i: Inode)
    requires plan.Distinct() && WellFormed(fs) && !Live(fs, i)
    requires plan.ready !in fs.names && plan.temporary !in fs.names
    ensures var e := Step(false, i);
      var s := Run(plan, fs, [e] + [e] + [e] + [e] + [e] + [e] + [e]);
      && s.pc.DropTemporary? && s.identity == Some(i)
      && s.fs == FS(fs.names[plan.temporary := i][plan.ready := i], fs.files[i := File(plan.content, Program)])
  {
    var e := Step(false, i);
    var linked := [e] + [e] + [e] + [e];
    CleanRunLinks(plan, fs, i);
    RunExtends(plan, fs, linked, e);
    RunExtends(plan, fs, linked + [e], e);
    RunExtends(plan, fs, linked + [e] + [e], e);
  }

  /** Left alone, the protocol publishes: ready ends up as a file of ours with the written bytes. */
  lemma {:induction false} CleanRunReturns(plan: Plan, fs: FS, i: Inode, events: seq<Event>)
    requires plan.Distinct() && WellFormed(fs) && !Live(fs, i)
    requires plan.ready !in fs.names && plan.temporary !in fs.names
    requires |events| == 8 && forall k :: 0 <= k < 8 ==> events[k] == Step(false, i)
    ensures var s := Run(plan, fs, events);
      && s.pc.Returned? && Names(s.fs, plan.ready, i) && Reads(s.fs, plan.ready, plan.content)
      && s.fs.names == fs.names[plan.ready := i]
  {
    var e := Step(false, i);
    var checked := [e] + [e] + [e] + [e] + [e] + [e] + [e];
    CleanRunChecks(plan, fs, i);
    assert events == checked + [e];
    RunExtends(plan, fs, checked, e);
    assert fs.names[plan.temporary := i][plan.ready := i] - {plan.temporary} == fs.names[plan.ready := i];
  }

  /** The state after the four steps that create, write, link and expose the ready marker on an empty file system. */
  lemma {:induction false} LinkedState(plan: Plan)
    requires plan.Distinct()
    ensures var ok, none := Step(false, 0), FS(map[], map[]);
      Run(plan, none, [ok] + [ok] + [ok] + [ok]) ==
      Start(none).(pc := Recheck, identity := Some(0),
                   fs := FS(map[plan.temporary := 0, plan.ready := 0], map[0 := File(plan.content, Program)]))
  {
    assert FS(map[], map[]).names[plan.temporary := 0][plan.ready := 0] == map[plan.temporary := 0, plan.ready := 0];
    CleanRunLinks(plan, FS(map[], map[]), 0);
  }

  /** Linked, then a refused second check, nothing in the way of the failure marker, and a refusal to make it. */
  lemma {:induction false} UnmarkedState(plan: Plan)
    requires plan.Distinct()
    ensures var ok, bad, none := Step(false, 0), Step(true, 0), FS(map[], map[]);
      Run(plan, none, [ok] + [ok] + [ok] + [ok] + [bad] + [ok] + [bad]) ==
      Run(plan, none, [ok] + [ok] + [ok] + [ok]).(pc := Revoke, marker := Failure)
  {
    var ok, bad, none := Step(false, 0), Step(true, 0), FS(map[], map[]);
    var linked := [ok] + [ok] + [ok] + [ok];
    LinkedState(plan);
    RunExtends(plan, none, linked, bad);
    RunExtends(plan, none, linked + [bad], ok);
    RunExtends(plan, none, linked + [bad] + [ok], bad);
  }

  /** Ready stays when both the failure marker and the revocation are refused. */
  lemma {:induction false} BothRefusalsLeaveReady(plan: Plan)
    requires plan.Distinct()
    ensures var ok, bad := Step(false, 0), Step(true, 0);
      var s := Run(plan, FS(map[], map[]), [ok, ok, ok, ok, bad, ok, bad, bad]);
      s.pc.Raised? && s.marker == Failure && s.revocation == Faulted && Exposed(plan, s.identity, s.fs)
  {
    var ok, bad, none := Step(false, 0), Step(true, 0), FS(map[], map[]);
    var unmarked := [ok] + [ok] + [ok] + [ok] + [bad] + [ok] + [bad];
    LinkedState(plan);
    UnmarkedState(plan);
    assert [ok, ok, ok, ok, bad, ok, bad, bad] == unmarked + [bad];
    RunExtends(plan, none, unmarked, bad);
  }

  /** One refusal is enough when it is the look for the failure marker: the revocation is never attempted. */
  lemma {:induction false} RefusedProbeLeavesReady(plan: Plan)
    requires plan.Distinct()
    ensures var ok, bad := Step(false, 0), Step(true, 0);
      var s := Run(plan, FS(map[], map[]), [ok, ok, ok, ok, bad, bad]);
      s.pc.Raised? && s.revocation == Skipped && Exposed(plan, s.identity, s.fs)
  {
    var ok, bad, none := Step(false, 0), Step(true, 0), FS(map[], map[]);
    var linked := [ok] + [ok] + [ok] + [ok];
    LinkedState(plan);
    assert [ok, ok, ok, ok, bad, bad] == linked + [bad] + [bad];
    RunExtends(plan, none, linked, bad);
    RunExtends(plan, none, linked + [bad], bad);
  }

  /** Linked, then the retained link taken away and a refused second check, up to the revocation without a marker. */
  lemma {:induction false} LostState(plan: Plan)
    requires plan.Distinct()
    ensures var ok, bad, none := Step(false, 0), Step(true, 0), FS(map[], map[]);
      var lost := Interference(Unlink(plan.temporary));
      Run(plan, none, [ok] + [ok] + [ok] + [ok] + [lost] + [bad] + [ok] + [bad]) ==
      Start(none).(pc := Revoke, identity := Some(0), marker := Failure,
                   fs := FS(map[plan.ready := 0], map[0 := File(plan.content, Program)]))
  {
    var ok, bad, lost, none := Step(false, 0), Step(true, 0), Interference(Unlink(plan.temporary)), FS(map[], map[]);
    var linked := [ok] + [ok] + [ok] + [ok];
    LinkedState(plan);
    RunExtends(plan, none, linked, lost);
    assert Run(plan, none, linked + [lost]).fs.names == map[plan.ready := 0];
    RunExtends(plan, none, linked + [lost], bad);
    RunExtends(plan, none, linked + [lost] + [bad], ok);
    RunExtends(plan, none, linked + [lost] + [bad] + [ok], bad);
  }

  /** With the retained link gone the ownership check answers no, and ready stays although it is still ours. */
  lemma {:induction false} LostLinkLeavesReady(plan: Plan)
    requires plan.Distinct()
    ensures var ok, bad, lost := Step(false, 0), Step(true, 0), Interference(Unlink(plan.temporary));
      var s := Run(plan, FS(map[], map[]), [ok, ok, ok, ok, lost, bad, ok, bad, ok, ok]);
      s.pc.Raised? && s.quiet && s.revocation == Declined && Exposed(plan, s.identity, s.fs)
  {
    var ok, bad, lost, none := Step(false, 0), Step(true, 0), Interference(Unlink(plan.temporary)), FS(map[], map[]);
    var undecided := [ok] + [ok] + [ok] + [ok] + [lost] + [bad] + [ok] + [bad];
    LostState(plan);
    assert [ok, ok, ok, ok, lost, bad, ok, bad, ok, ok] == undecided + [ok] + [ok];
    RunExtends(plan, none, undecided, ok);
    RunExtends(plan, none, undecided + [ok], ok);
  }

  /** What four environment steps on the private name can leave behind: a foreign file under our inode number. */
  lemma ForgedState(plan: Plan, forged: Bytes) returns (events: seq<Event>)
    requires plan.Distinct()
    ensures forall k :: 0 <= k < |events| && events[k].Interference? ==> !events[k].action.Mentions(plan.failed)
    ensures var s := Run(plan, FS(map[], map[]), events);
      && s.pc == Recheck && s.identity == Some(0)
      && s.fs == FS(map[plan.temporary := 0, plan.ready := 0], map[0 := File(forged, Environment)])
  {
    var ok, none := Step(false, 0), FS(map[], map[]);
    var linked := [ok] + [ok] + [ok] + [ok];
    var a, b := Interference(Unlink(plan.temporary)), Interference(Unlink(plan.ready));
    var c, d := Interference(Create(plan.temporary, 0, forged)), Interference(Link(plan.temporary, plan.ready));
    LinkedState(plan);
    RunExtends(plan, none, linked, a);
    RunExtends(plan, none, linked + [a], b);
    RunExtends(plan, none, linked + [a] + [b], c);
    RunExtends(plan, none, linked + [a] + [b] + [c], d);
    events := linked + [a] + [b] + [c] + [d];
    var fs := Run(plan, none, events).fs;
    assert fs.names == map[plan.temporary := 0, plan.ready := 0] && fs.files == map[0 := File(forged, Environment)];
  }

  /** The retained link must stay private: a run that frees it lets a reused inode number pass for ours. */
  lemma PrivateNameIsNeeded(plan: Plan, forged: Bytes) returns (events: seq<Event>, e: Event)
    requires plan.Distinct()
    ensures e.Step? && forall k :: 0 <= k < |events| && events[k].Interference? ==>
      !events[k].action.Mentions(plan.failed)
    ensures !Harmless(Run(plan, FS(map[], map[]), events).fs, Run(plan, FS(map[], map[]), events + [e]).fs)
  {
    var ok, bad, none := Step(false, 0), Step(true, 0), FS(map[], map[]);
    var forgery := ForgedState(plan, forged);
    RunExtends(plan, none, forgery, bad);
    RunExtends(plan, none, forgery + [bad], NotSeen);
    events, e := forgery + [bad] + [NotSeen], ok;
    HarmsExactlyWhen(plan, none, events, e);
  }
}
