/**
 * The auditor's report output: verified temporary, exclusive link, inspection, and read-back after the temporary is
 * gone.
 */
module AuditPublication {
  import opened FileSystem
  import opened Wrappers

  datatype Pc =
    | RefuseExisting | MakeTemporary | WriteTemporary | Verify | LinkOutput | Inspect | Recheck | DropTemporary
    | ReadBack | Returned
    | Cleanup | DropAfterFailure | LateCleanup | Raised

  datatype Cleaning = NotNeeded | Cleaned | Faulted

  /** `handle` is the inode of the temporary while it is open: from its creation to the end of the checks on it. */
  datatype State = State(
    fs: FS,
    pc: Pc,
    handle: Option<Inode>,
    identity: Option<Inode>,
    linked: bool,
    cleaning: Cleaning,
    inspectedAt: Option<FS>,
    readAt: Option<FS>,
    cleanedAt: Option<FS>,
    quiet: bool)

  datatype Event = Step(fault: bool, inode: Inode) | Interference(action: Action)

  function Start(fs: FS): State {
    State(fs, RefuseExisting, None, None, false, NotNeeded, None, None, None, false)
  }

  /** The temporary is the single link to the inode just written, and it reads back as the payload. */
  predicate Staged(s: State, temporary: Path, payload: Bytes) {
    s.identity.Some? && Names(s.fs, temporary, s.identity.value) && LinkCount(s.fs, s.identity.value) == 1 &&
    Reads(s.fs, temporary, payload)
  }

  /** The output is a second link to the verified temporary. */
  predicate Inspected(s: State, output: Path) {
    s.identity.Some? && Names(s.fs, output, s.identity.value) && LinkCount(s.fs, s.identity.value) == 2
  }

  /** The final read-back: a non-empty file with exactly one hard link, holding the payload. */
  predicate ReadsBack(fs: FS, output: Path, payload: Bytes) {
    payload != [] && Reads(fs, output, payload) && LinkCount(fs, fs.names[output]) == 1
  }

  /** Remove the output while it carries our inode number; a refused operation leaves it and is swallowed. */
  function Clean(s: State, output: Path, e: Event, pc: Pc): State
    requires e.Step?
  {
    if e.fault then s.(pc := pc, cleaning := Faulted)
    else
      var ours := s.identity.Some? && Names(s.fs, output, s.identity.value);
      var fs := if ours then Act(s.fs, Unlink(output), Program) else s.fs;
      s.(pc := pc, cleaning := Cleaned, fs := fs, cleanedAt := Some(fs), quiet := true)
  }

  function Advance(output: Path, temporary: Path, payload: Bytes, s: State, e: Event): State
    requires e.Step?
  {
    match s.pc
    case RefuseExisting => s.(pc := if e.fault || output in s.fs.names then Raised else MakeTemporary)
    case MakeTemporary =>
      if e.fault || temporary in s.fs.names || Live(s.fs, e.inode) then s.(pc := Raised)
      else s.(pc := WriteTemporary, handle := Some(e.inode), fs := Act(s.fs, Create(temporary, e.inode, []), Program))
    case WriteTemporary =>
      if e.fault || s.handle.None? then s.(pc := DropAfterFailure, handle := None)
      else s.(pc := Verify, identity := s.handle, fs := Fill(s.fs, s.handle.value, payload))
    case Verify =>
      if e.fault || !Staged(s, temporary, payload) then s.(pc := DropAfterFailure, handle := None)
      else s.(pc := LinkOutput)
    case LinkOutput =>
      if e.fault || temporary !in s.fs.names || output in s.fs.names then s.(pc := DropAfterFailure, handle := None)
      else s.(pc := Inspect, linked := true, fs := Act(s.fs, Link(temporary, output), Program))
    case Inspect =>
      if e.fault || !Inspected(s, output) then s.(pc := Cleanup, handle := None)
      else s.(pc := Recheck, inspectedAt := Some(s.fs), quiet := true)
    case Recheck => s.(pc := if e.fault then Cleanup else DropTemporary, handle := None)
    case DropTemporary => s.(pc := ReadBack, fs := if e.fault then s.fs else Act(s.fs, Unlink(temporary), Program))
    case ReadBack =>
      if e.fault || !ReadsBack(s.fs, output, payload) then s.(pc := LateCleanup)
      else s.(pc := Returned, readAt := Some(s.fs))
    case Cleanup => Clean(s, output, e, DropAfterFailure)
    case DropAfterFailure => s.(pc := Raised, fs := if e.fault then s.fs else Act(s.fs, Unlink(temporary), Program))
    case LateCleanup => Clean(s, output, e, Raised)
    case _ => s
  }

  /** The number of a file that is open cannot be handed out, even when the file has lost its names. */
  function Interfere(s: State, a: Action): State {
    if a.Create? && s.handle == Some(a.inode) then s.(quiet := false)
    else s.(fs := Act(s.fs, a, Environment), quiet := false)
  }

  function Next(output: Path, temporary: Path, payload: Bytes, s: State, e: Event): State {
    if e.Interference? then Interfere(s, e.action)
    else Advance(output, temporary, payload, s, e)
  }

  function Run(output: Path, temporary: Path, payload: Bytes, fs: FS, events: seq<Event>): State {
    if events == [] then Start(fs)
    else
      Next(output, temporary, payload, Run(output, temporary, payload, fs, events[..|events| - 1]),
           events[|events| - 1])
  }

  lemma {:induction false} RunExtends(output: Path, temporary: Path, payload: Bytes, fs: FS, events: seq<Event>,
                                      e: Event)
    ensures Run(output, temporary, payload, fs, events + [e]) ==
            Next(output, temporary, payload, Run(output, temporary, payload, fs, events), e)
  {
    assert (events + [e])[..|events|] == events;
  }

  // ---- what every run keeps, whatever the environment does ----

  /** The file system is sound, and the open file is the program's. */
  ghost predicate Sound(s: State) {
    && WellFormed(s.fs)
    && (s.pc.WriteTemporary? || s.pc.Verify? || s.pc.LinkOutput? || s.pc.Inspect? || s.pc.Recheck? <==> s.handle.Some?)
    && (s.handle.Some? ==> OwnedBy(s.fs, s.handle.value, Program))
    && (s.handle.Some? && !s.pc.WriteTemporary? ==> s.identity == s.handle)
  }

  ghost predicate Confirmed(output: Path, payload: Bytes, s: State) {
    && (s.pc.Recheck? || s.pc.DropTemporary? || s.pc.ReadBack? || s.pc.Returned? ==>
          s.identity.Some? && s.inspectedAt.Some? && Names(s.inspectedAt.value, output, s.identity.value))
    && (s.pc.Returned? ==> s.readAt.Some? && ReadsBack(s.readAt.value, output, payload))
    && (s.quiet && (s.pc.Recheck? || s.pc.DropTemporary? || s.pc.ReadBack? || s.pc.Returned?) ==>
          Names(s.fs, output, s.identity.value))
    && (s.quiet && s.pc.Returned? ==> ReadsBack(s.fs, output, payload))
  }

  ghost predicate CleanedUp(output: Path, s: State) {
    && (s.pc.RefuseExisting? || s.pc.MakeTemporary? || s.pc.WriteTemporary? || s.pc.Verify? || s.pc.LinkOutput? ==>
        !s.linked)
    && (s.linked || s.pc.LinkOutput? ==> s.identity.Some?)
    && (s.pc.Inspect? || s.pc.Recheck? || s.pc.DropTemporary? || s.pc.ReadBack? || s.pc.Cleanup? ||
        s.pc.LateCleanup? ==>
          s.linked && s.cleaning == NotNeeded)
    && (s.linked && (s.pc.DropAfterFailure? || s.pc.Raised?) ==> s.cleaning != NotNeeded)
    && (s.cleaning == Cleaned ==> s.linked && s.cleanedAt.Some? && !Names(s.cleanedAt.value, output, s.identity.value))
    && (s.cleaning == Cleaned && s.quiet ==> !Names(s.fs, output, s.identity.value))
    && (s.cleaning != NotNeeded ==> s.pc.DropAfterFailure? || s.pc.Raised?)
  }

  lemma NextKeepsConfirmed(output: Path, temporary: Path, payload: Bytes, s: State, e: Event)
    requires output != temporary && Confirmed(output, payload, s)
    ensures Confirmed(output, payload, Next(output, temporary, payload, s, e))
  {
  }

  lemma NextKeepsCleanedUp(output: Path, temporary: Path, payload: Bytes, s: State, e: Event)
    requires output != temporary && CleanedUp(output, s)
    ensures CleanedUp(output, Next(output, temporary, payload, s, e))
  {
  }

  /** For every environment: what the inspection and the read-back confirmed, and what the clean-up left. */
  lemma {:induction false} RunKeeps(output: Path, temporary: Path, payload: Bytes, fs: FS, events: seq<Event>)
    requires output != temporary
    ensures var s := Run(output, temporary, payload, fs, events); Confirmed(output, payload, s) && CleanedUp(output, s)
  {
    if events != [] {
      var before := Run(output, temporary, payload, fs, events[..|events| - 1]);
      RunKeeps(output, temporary, payload, fs, events[..|events| - 1]);
      NextKeepsConfirmed(output, temporary, payload, before, events[|events| - 1]);
      NextKeepsCleanedUp(output, temporary, payload, before, events[|events| - 1]);
    }
  }

  lemma InterfereKeepsSound(s: State, a: Action)
    requires Sound(s)
    ensures Sound(Interfere(s, a))
  {
    ActWellFormed(s.fs, a, Environment);
  }

  lemma AdvanceKeepsSound(output: Path, temporary: Path, payload: Bytes, s: State, e: Event)
    requires Sound(s) && e.Step?
    ensures Sound(Advance(output, temporary, payload, s, e))
  {
  }

  lemma NextKeepsSound(output: Path, temporary: Path, payload: Bytes, s: State, e: Event)
    requires Sound(s)
    ensures Sound(Next(output, temporary, payload, s, e))
  {
    if e.Interference? {
      InterfereKeepsSound(s, e.action);
    } else {
      AdvanceKeepsSound(output, temporary, payload, s, e);
    }
  }

  lemma {:induction false} RunIsSound(output: Path, temporary: Path, payload: Bytes, fs: FS, events: seq<Event>)
    requires WellFormed(fs)
    ensures Sound(Run(output, temporary, payload, fs, events))
  {
    if events != [] {
      RunIsSound(output, temporary, payload, fs, events[..|events| - 1]);
      NextKeepsSound(output, temporary, payload, Run(output, temporary, payload, fs, events[..|events| - 1]),
                     events[|events| - 1]);
    }
  }

  /** No environment step reuses the inode number `i`. */
  ghost predicate NeverReused(events: seq<Event>, i: Inode) {
    forall k :: 0 <= k < |events| && events[k].Interference? && events[k].action.Create? ==> events[k].action.inode != i
  }

  lemma NextKeepsOwner(output: Path, temporary: Path, payload: Bytes, s: State, e: Event, i: Inode)
    requires Sound(s) && (s.identity == Some(i) ==> OwnedBy(s.fs, i, Program))
    requires e.Interference? && e.action.Create? ==> e.action.inode != i
    ensures var next := Next(output, temporary, payload, s, e); next.identity == Some(i) ==>
      OwnedBy(next.fs, i, Program)
  {
  }

  lemma {:induction false} NumberStaysOurs(output: Path, temporary: Path, payload: Bytes, fs: FS, events: seq<Event>,
                                           i: Inode)
    requires WellFormed(fs) && NeverReused(events, i)
    ensures var s := Run(output, temporary, payload, fs, events); s.identity == Some(i) ==> OwnedBy(s.fs, i, Program)
  {
    if events != [] {
      var earlier := events[..|events| - 1];
      NumberStaysOurs(output, temporary, payload, fs, earlier, i);
      RunIsSound(output, temporary, payload, fs, earlier);
      NextKeepsOwner(output, temporary, payload, Run(output, temporary, payload, fs, earlier), events[|events| - 1], i);
    }
  }

  // ---- what a run keeps while the environment leaves the private name alone ----

  ghost predicate Permitted(temporary: Path, events: seq<Event>) {
    forall k :: 0 <= k < |events| && events[k].Interference? ==> !events[k].action.Mentions(temporary)
  }

  /** While the temporary exists it leads to a file of the program's. */
  ghost predicate Pinned(temporary: Path, s: State) {
    s.pc.WriteTemporary? || s.pc.Verify? || s.pc.LinkOutput? || s.pc.Inspect? || s.pc.Recheck? || s.pc.DropTemporary? ||
    s.pc.Cleanup? || s.pc.DropAfterFailure? ==>
      && temporary in s.fs.names && OwnedBy(s.fs, s.fs.names[temporary], Program)
      && (!s.pc.WriteTemporary? && s.identity.Some? ==> s.fs.names[temporary] == s.identity.value)
      && (s.pc.WriteTemporary? ==> s.handle == Some(s.fs.names[temporary]) && s.identity.None?)
  }

  lemma NextKeepsPinned(output: Path, temporary: Path, payload: Bytes, s: State, e: Event)
    requires output != temporary && (e.Interference? ==> !e.action.Mentions(temporary))
    requires Sound(s) && Pinned(temporary, s) && (s.pc.RefuseExisting? || s.pc.MakeTemporary? ==> s.identity.None?)
    ensures Pinned(temporary, Next(output, temporary, payload, s, e))
  {
    if e.Interference? && temporary in s.fs.names && OwnedBy(s.fs, s.fs.names[temporary], Program) {
      PinnedStaysOurs(s.fs, e.action, temporary, s.fs.names[temporary]);
    }
  }

  lemma {:induction false} RunKeepsPinned(output: Path, temporary: Path, payload: Bytes, fs: FS, events: seq<Event>)
    requires output != temporary && WellFormed(fs) && Permitted(temporary, events)
    ensures var s := Run(output, temporary, payload, fs, events);
      Pinned(temporary, s) && (s.pc.RefuseExisting? || s.pc.MakeTemporary? ==> s.identity.None?)
  {
    if events != [] {
      var earlier := events[..|events| - 1];
      RunKeepsPinned(output, temporary, payload, fs, earlier);
      RunIsSound(output, temporary, payload, fs, earlier);
      NextKeepsPinned(output, temporary, payload, Run(output, temporary, payload, fs, earlier), events[|events| - 1]);
    }
  }

  // ---- what a single step may harm, whatever the environment did ----

  /** The name a program step is about to unlink, if it unlinks one: the temporary unchecked, the output by number. */
  function Unlinks(output: Path, temporary: Path, s: State): Option<Path> {
    if (s.pc.DropTemporary? || s.pc.DropAfterFailure?) && temporary in s.fs.names then Some(temporary)
    else if (s.pc.Cleanup? || s.pc.LateCleanup?) && s.identity.Some? && Names(s.fs, output, s.identity.value)
      then Some(output)
    else None
  }

  /** A step is about to unlink a file that is not the program's. */
  predicate HitsForeign(output: Path, temporary: Path, s: State, e: Event) {
    e.Step? && !e.fault && Unlinks(output, temporary, s).Some? && Unlinks(output, temporary, s).value in s.fs.names &&
    OwnedBy(s.fs, s.fs.names[Unlinks(output, temporary, s).value], Environment)
  }

  /** A step that unlinks nothing creates, writes or links its own file, or changes nothing. */
  lemma StepChanges(output: Path, temporary: Path, payload: Bytes, s: State, e: Event)
    requires e.Step?
    ensures var after := Advance(output, temporary, payload, s, e).fs;
      if !e.fault && Unlinks(output, temporary, s).Some?
      then after == Act(s.fs, Unlink(Unlinks(output, temporary, s).value), Program)
      else
        || after == s.fs
        || after == Act(s.fs, Create(temporary, e.inode, []), Program)
        || after == Act(s.fs, Link(temporary, output), Program)
        || (s.pc.WriteTemporary? && s.handle.Some? && after == Fill(s.fs, s.handle.value, payload))
  {
    assert temporary !in s.fs.names ==> s.fs.names - {temporary} == s.fs.names;
  }

  lemma StepHarm(output: Path, temporary: Path, payload: Bytes, s: State, e: Event)
    requires Sound(s) && e.Step?
    ensures var after := Next(output, temporary, payload, s, e).fs;
      if !e.fault && Unlinks(output, temporary, s).Some?
      then after == Act(s.fs, Unlink(Unlinks(output, temporary, s).value), Program)
      else after == s.fs || Harmless(s.fs, after)
  {
    StepChanges(output, temporary, payload, s, e);
    if s.handle.Some? {
      FillingIsHarmless(s.fs, s.handle.value, payload);
    }
    AddingIsHarmless(s.fs, Create(temporary, e.inode, []));
    AddingIsHarmless(s.fs, Link(temporary, output));
  }

  // ---- refused steps ----

  /** Where a refused operation leads: to the clean-up its place demands, the drop of the temporary alone aside. */
  function AfterRefusal(pc: Pc): Pc {
    if pc.RefuseExisting? || pc.MakeTemporary? then Raised
    else if pc.WriteTemporary? || pc.Verify? || pc.LinkOutput? || pc.Cleanup? then DropAfterFailure
    else if pc.Inspect? || pc.Recheck? then Cleanup
    else if pc.DropTemporary? then ReadBack
    else if pc.ReadBack? then LateCleanup
    else if pc.Returned? then Returned
    else Raised
  }

  /** A refused operation leaves the file system alone, and never ends in a normal return. */
  lemma {:induction false} RefusedStep(output: Path, temporary: Path, payload: Bytes, fs: FS, events: seq<Event>,
                                       inode: Inode)
    requires WellFormed(fs)
    ensures var s := Run(output, temporary, payload, fs, events);
      var t := Run(output, temporary, payload, fs, events + [Step(true, inode)]);
      t.fs == s.fs && t.pc == AfterRefusal(s.pc)
  {
    RunExtends(output, temporary, payload, fs, events, Step(true, inode));
    RunIsSound(output, temporary, payload, fs, events);
  }

  // ---- the promises ----

  /**
   * For every environment: a program step overwrites or removes a foreign file exactly when it goes through with an
   * unlink whose name, at that moment, leads to a file of the environment's.
   */
  lemma {:induction false} HarmsExactlyWhen(output: Path, temporary: Path, payload: Bytes, fs: FS, events: seq<Event>,
                                            e: Event)
    requires WellFormed(fs) && e.Step?
    ensures Harmless(Run(output, temporary, payload, fs, events).fs,
                     Run(output, temporary, payload, fs, events + [e]).fs) <==>
            !HitsForeign(output, temporary, Run(output, temporary, payload, fs, events), e)
  {
    RunIsSound(output, temporary, payload, fs, events);
    RunExtends(output, temporary, payload, fs, events, e);
    var s := Run(output, temporary, payload, fs, events);
    StepHarm(output, temporary, payload, s, e);
    if !e.fault && Unlinks(output, temporary, s).Some? {
      UnlinkHarm(s.fs, Unlinks(output, temporary, s).value);
    }
  }

  /**
   * With the private name left alone, that happens exactly in the clean-up after a failed read-back, when the output
   * carries our inode number on a file of the environment's.
   */
  lemma {:induction false} ForeignTouchedExactlyWhen(output: Path, temporary: Path, payload: Bytes, fs: FS,
                                                     events: seq<Event>, e: Event)
    requires output != temporary && WellFormed(fs) && Permitted(temporary, events) && e.Step?
    ensures var s := Run(output, temporary, payload, fs, events);
      Harmless(s.fs, Run(output, temporary, payload, fs, events + [e]).fs) <==>
      !(s.pc.LateCleanup? && !e.fault && s.identity.Some? && Names(s.fs, output, s.identity.value) &&
        OwnedBy(s.fs, s.identity.value, Environment))
  {
    RunKeepsPinned(output, temporary, payload, fs, events);
    HarmsExactlyWhen(output, temporary, payload, fs, events, e);
  }

  /** In particular only a reused inode number can make it happen. */
  lemma {:induction false} NothingForeignIsTouched(output: Path, temporary: Path, payload: Bytes, fs: FS,
                                                   events: seq<Event>, e: Event)
    requires output != temporary && WellFormed(fs) && Permitted(temporary, events) && e.Step?
    ensures var s := Run(output, temporary, payload, fs, events);
      || (s.pc.LateCleanup? && s.identity.Some? && !NeverReused(events, s.identity.value))
      || Harmless(s.fs, Run(output, temporary, payload, fs, events + [e]).fs)
  {
    var s := Run(output, temporary, payload, fs, events);
    ForeignTouchedExactlyWhen(output, temporary, payload, fs, events, e);
    if s.identity.Some? && NeverReused(events, s.identity.value) {
      NumberStaysOurs(output, temporary, payload, fs, events, s.identity.value);
    }
  }

  /**
   * For every environment: a normal return follows an inspection naming the verified inode and a read-back of the
   * payload, through its only link.
   */
  lemma {:induction false} ReturnMeansPublished(output: Path, temporary: Path, payload: Bytes, fs: FS,
                                                events: seq<Event>)
    requires output != temporary && Run(output, temporary, payload, fs, events).pc.Returned?
    ensures var s := Run(output, temporary, payload, fs, events);
      && s.identity.Some?
      && s.inspectedAt.Some? && Names(s.inspectedAt.value, output, s.identity.value)
      && s.readAt.Some? && ReadsBack(s.readAt.value, output, payload)
      && (s.quiet ==> Names(s.fs, output, s.identity.value) && ReadsBack(s.fs, output, payload))
  {
    RunKeeps(output, temporary, payload, fs, events);
  }

  /**
   * For every environment: after a raise the linked output is gone, unless the operating system refused the clean-up.
   */
  lemma {:induction false} RaiseMeansRemoved(output: Path, temporary: Path, payload: Bytes, fs: FS, events: seq<Event>)
    requires output != temporary && Run(output, temporary, payload, fs, events).pc.Raised?
    ensures var s := Run(output, temporary, payload, fs, events);
      || !s.linked
      || s.cleaning == Faulted
      || (s.identity.Some? && s.cleanedAt.Some? && !Names(s.cleanedAt.value, output, s.identity.value) &&
          (s.quiet ==> !Names(s.fs, output, s.identity.value)))
  {
    RunKeeps(output, temporary, payload, fs, events);
  }

  /** Left alone, the protocol runs up to its final read-back: linked, inspected, and the temporary dropped. */
  lemma {:induction false} CleanRunPublishes(output: Path, temporary: Path, payload: Bytes, fs: FS, i: Inode)
    requires output != temporary && WellFormed(fs) && !Live(fs, i) && output !in fs.names && temporary !in fs.names
    ensures var ok := Step(false, i);
      var s := Run(output, temporary, payload, fs, [ok] + [ok] + [ok] + [ok] + [ok] + [ok] + [ok] + [ok]);
      && s.pc == ReadBack && s.identity == Some(i)
      && s.fs == FS(fs.names[output := i], fs.files[i := File(payload, Program)])
  {
    var ok := Step(false, i);
    var linked := [ok] + [ok] + [ok] + [ok] + [ok];
    CleanRunLinks(output, temporary, payload, fs, i);
    var s5 := Run(output, temporary, payload, fs, linked);
    assert (set p | p in s5.fs.names && s5.fs.names[p] == i) == {temporary, output};
    RunExtends(output, temporary, payload, fs, linked, ok);
    RunExtends(output, temporary, payload, fs, linked + [ok], ok);
    RunExtends(output, temporary, payload, fs, linked + [ok] + [ok], ok);
    assert s5.fs.names - {temporary} == fs.names[output := i];
  }

  /** The first five of those steps: the output is linked beside the verified temporary. */
  lemma {:induction false} CleanRunLinks(output: Path, temporary: Path, payload: Bytes, fs: FS, i: Inode)
    requires output != temporary && WellFormed(fs) && !Live(fs, i) && output !in fs.names && temporary !in fs.names
    ensures var ok := Step(false, i);
      Run(output, temporary, payload, fs, [ok] + [ok] + [ok] + [ok] + [ok]) ==
      Start(fs).(pc := Inspect, handle := Some(i), identity := Some(i), linked := true,
                 fs := FS(fs.names[temporary := i][output := i], fs.files[i := File(payload, Program)]))
  {
    var ok := Step(false, i);
    CleanRunWrites(output, temporary, payload, fs, i);
    var s3 := Run(output, temporary, payload, fs, [ok] + [ok] + [ok]);
    assert (set p | p in s3.fs.names && s3.fs.names[p] == i) == {temporary};
    RunExtends(output, temporary, payload, fs, [ok] + [ok] + [ok], ok);
    RunExtends(output, temporary, payload, fs, [ok] + [ok] + [ok] + [ok], ok);
  }

  /** The first three: the temporary is created and written. */
  lemma {:induction false} CleanRunWrites(output: Path, temporary: Path, payload: Bytes, fs: FS, i: Inode)
    requires output != temporary && WellFormed(fs) && !Live(fs, i) && output !in fs.names && temporary !in fs.names
    ensures var ok := Step(false, i);
      Run(output, temporary, payload, fs, [ok] + [ok] + [ok]) ==
      Start(fs).(pc := Verify, handle := Some(i), identity := Some(i),
                 fs := FS(fs.names[temporary := i], fs.files[i := File(payload, Program)]))
  {
    var ok := Step(false, i);
    RunExtends(output, temporary, payload, fs, [], ok);
    RunExtends(output, temporary, payload, fs, [ok], ok);
    RunExtends(output, temporary, payload, fs, [ok] + [ok], ok);
    assert fs.files[i := File([], Program)][i := File(payload, Program)] == fs.files[i := File(payload, Program)];
  }

  /** And the read-back of a non-empty payload succeeds: only the output is left behind. */
  lemma {:induction false} CleanRunReturns(output: Path, temporary: Path, payload: Bytes, fs: FS, i: Inode,
                                           events: seq<Event>)
    requires output != temporary && WellFormed(fs) && !Live(fs, i) && output !in fs.names && temporary !in fs.names
    requires |events| == 9 && payload != [] && forall k :: 0 <= k < 9 ==> events[k] == Step(false, i)
    ensures var s := Run(output, temporary, payload, fs, events);
      s.pc.Returned? && Reads(s.fs, output, payload) && s.fs.names == fs.names[output := i]
  {
    var ok := Step(false, i);
    var published := [ok] + [ok] + [ok] + [ok] + [ok] + [ok] + [ok] + [ok];
    CleanRunPublishes(output, temporary, payload, fs, i);
    assert events == published + [ok];
    RunExtends(output, temporary, payload, fs, published, ok);
    var s8 := Run(output, temporary, payload, fs, published);
    assert (set p | p in s8.fs.names && s8.fs.names[p] == i) == {output};
  }

  /**
   * The one case of `ForeignTouchedExactlyWhen` is real. Once the temporary is dropped nothing pins the inode, so a
   * replaced output that was given the old number passes for ours and is removed, although the environment never
   * touched the temporary.
   */
  lemma LateCleanupCanRemoveForeign(output: Path, temporary: Path, payload: Bytes, forged: Bytes)
    returns (events: seq<Event>, e: Event)
    requires output != temporary && forged != payload
    ensures Permitted(temporary, events) && e.Step?
    ensures !Harmless(Run(output, temporary, payload, FS(map[], map[]), events).fs,
                      Run(output, temporary, payload, FS(map[], map[]), events + [e]).fs)
  {
    var none, ok := FS(map[], map[]), Step(false, 0);
    var replaced := ReplacedOutput(output, temporary, payload, forged);
    RunExtends(output, temporary, payload, none, replaced, ok);
    events, e := replaced + [ok], ok;
    ForeignTouchedExactlyWhen(output, temporary, payload, none, events, e);
  }

  /** A clean run up to the read-back, then the output replaced by a foreign file under the freed number. */
  lemma ReplacedOutput(output: Path, temporary: Path, payload: Bytes, forged: Bytes) returns (events: seq<Event>)
    requires output != temporary
    ensures Permitted(temporary, events)
    ensures var s := Run(output, temporary, payload, FS(map[], map[]), events);
      && s.pc == ReadBack && s.identity == Some(0)
      && s.fs == FS(map[output := 0], map[0 := File(forged, Environment)])
  {
    var none, ok := FS(map[], map[]), Step(false, 0);
    var a, b := Interference(Unlink(output)), Interference(Create(output, 0, forged));
    var published := [ok] + [ok] + [ok] + [ok] + [ok] + [ok] + [ok] + [ok];
    CleanRunPublishes(output, temporary, payload, none, 0);
    var s := Run(output, temporary, payload, none, published);
    CleanHandle(output, temporary, payload, none, published);
    RunExtends(output, temporary, payload, none, published, a);
    RunExtends(output, temporary, payload, none, published + [a], b);
    events := published + [a] + [b];
    var unlinked := Act(s.fs, Unlink(output), Environment);
    assert unlinked == FS(map[], map[0 := File(payload, Program)]);
    assert Act(unlinked, Create(output, 0, forged), Environment) ==
      FS(map[output := 0], map[0 := File(forged, Environment)]);
  }

  lemma {:induction false} CleanHandle(output: Path, temporary: Path, payload: Bytes, fs: FS, events: seq<Event>)
    requires WellFormed(fs) && Run(output, temporary, payload, fs, events).pc.ReadBack?
    ensures Run(output, temporary, payload, fs, events).handle == None
  {
    RunIsSound(output, temporary, payload, fs, events);
  }
}
