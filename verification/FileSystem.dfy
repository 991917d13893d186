/** A small file system: names point at inodes, inodes hold bytes and remember who created them. */
module FileSystem {
  type Path = nat
  type Inode = nat
  type Bytes = seq<int>

  datatype Owner = Program | Environment

  datatype File = File(bytes: Bytes, owner: Owner)

  datatype FS = FS(names: map<Path, Inode>, files: map<Inode, File>)

  /** An inode number with no name left may be handed out again by a later `Create`. */
  predicate Live(fs: FS, i: Inode) {
    exists p :: p in fs.names && fs.names[p] == i
  }

  ghost predicate WellFormed(fs: FS) {
    forall p :: p in fs.names ==> fs.names[p] in fs.files
  }

  /** `samestat` on the file at `p` */
  predicate Names(fs: FS, p: Path, i: Inode) {
    p in fs.names && fs.names[p] == i
  }

  predicate OwnedBy(fs: FS, i: Inode, owner: Owner) {
    i in fs.files && fs.files[i].owner == owner
  }

  predicate Reads(fs: FS, p: Path, bytes: Bytes) {
    p in fs.names && fs.names[p] in fs.files && fs.files[fs.names[p]].bytes == bytes
  }

  function LinkCount(fs: FS, i: Inode): nat {
    |set p | p in fs.names && fs.names[p] == i|
  }

  datatype Action =
    | Create(path: Path, inode: Inode, bytes: Bytes)
    | Write(path: Path, bytes: Bytes)
    | Unlink(path: Path)
    | Link(path: Path, to: Path)
    | Rename(path: Path, to: Path)
  {
    predicate Mentions(p: Path) {
      path == p || ((Link? || Rename?) && to == p)
    }

    /** Takes the name `p` away without putting another file in its place. */
    predicate Removes(p: Path) {
      (Unlink? || (Rename? && to != p)) && path == p
    }
  }

  /** One atomic operation; an operation the file system refuses changes nothing. */
  function Act(fs: FS, a: Action, owner: Owner): FS {
    match a
    case Create(p, i, bytes) =>
      if p in fs.names || Live(fs, i) then fs
      else FS(fs.names[p := i], fs.files[i := File(bytes, owner)])
    case Write(p, bytes) =>
      if p in fs.names && fs.names[p] in fs.files
      then fs.(files := fs.files[fs.names[p] := File(bytes, fs.files[fs.names[p]].owner)])
      else fs
    case Unlink(p) => fs.(names := fs.names - {p})
    case Link(p, to) =>
      if p in fs.names && to !in fs.names then fs.(names := fs.names[to := fs.names[p]]) else fs
    case Rename(p, to) =>
      if p in fs.names && p != to then fs.(names := (fs.names - {p})[to := fs.names[p]]) else fs
  }

  /** Writing through an open handle: the file is named by its inode, whatever its names are by now. */
  function Fill(fs: FS, i: Inode, bytes: Bytes): FS {
    if i in fs.files then fs.(files := fs.files[i := File(bytes, fs.files[i].owner)]) else fs
  }

  /**
   * What a program step may do: it keeps every name of a foreign file, rebinds no name and changes no foreign bytes.
   */
  ghost predicate Harmless(before: FS, after: FS) {
    && (forall p :: p in before.names && !(p in after.names && after.names[p] == before.names[p]) ==>
          p !in after.names && OwnedBy(before, before.names[p], Program))
    && (forall i :: i in before.files && Live(before, i) && before.files[i].owner == Environment ==>
          i in after.files && after.files[i] == before.files[i])
  }

  lemma LiveIsNamed(fs: FS, i: Inode)
    ensures Live(fs, i) <==> exists p :: Names(fs, p, i)
  {
    if Live(fs, i) {
      var p :| p in fs.names && fs.names[p] == i;
      assert Names(fs, p, i);
    }
  }

  /** What each operation does to one name. */
  lemma NamesAfter(fs: FS, a: Action, owner: Owner, q: Path, i: Inode)
    ensures Names(Act(fs, a, owner), q, i) <==>
      match a
      case Create(p, inode, _) =>
        Names(fs, q, i) || (q == p && i == inode && q !in fs.names && forall r :: !Names(fs, r, inode))
      case Write(_, _) => Names(fs, q, i)
      case Unlink(p) => q != p && Names(fs, q, i)
      case Link(p, to) => Names(fs, q, i) || (q == to && to !in fs.names && Names(fs, p, i))
      case Rename(p, to) =>
        if p !in fs.names then Names(fs, q, i)
        else if q == to then Names(fs, p, i)
        else q != p && Names(fs, q, i)
  {
    if a.Create? {
      LiveIsNamed(fs, a.inode);
    }
  }

  /** And to one file: only its creation or a write through one of its names changes it, and its owner stays. */
  lemma FileAfter(fs: FS, a: Action, owner: Owner, i: Inode)
    ensures i in Act(fs, a, owner).files <==>
      i in fs.files || (a.Create? && a.inode == i && a.path !in fs.names && forall r :: !Names(fs, r, i))
    ensures i in Act(fs, a, owner).files ==>
      Act(fs, a, owner).files[i] ==
        if a.Create? && a.inode == i && a.path !in fs.names && (forall r :: !Names(fs, r, i)) then File(a.bytes, owner)
        else if a.Write? && Names(fs, a.path, i) && i in fs.files then File(a.bytes, fs.files[i].owner)
        else if i in fs.files then fs.files[i] else File(a.bytes, owner)
  {
    if a.Create? {
      LiveIsNamed(fs, a.inode);
    }
  }

  lemma RemovesExactly(fs: FS, a: Action, owner: Owner, p: Path)
    requires p in fs.names
    ensures a.Removes(p) <==> p !in Act(fs, a, owner).names
  {
  }

  lemma ActWellFormed(fs: FS, a: Action, owner: Owner)
    requires WellFormed(fs)
    ensures WellFormed(Act(fs, a, owner))
  {
  }

  /** A named inode stays what it is: its number cannot be reused, whatever happens to other names. */
  lemma PinnedStaysOurs(fs: FS, a: Action, pin: Path, i: Inode)
    requires WellFormed(fs) && Names(fs, pin, i) && !a.Mentions(pin)
    ensures Names(Act(fs, a, Environment), pin, i)
    ensures OwnedBy(fs, i, Program) ==> OwnedBy(Act(fs, a, Environment), i, Program)
  {
    assert Live(fs, i);
  }

  /** Creating and linking never take a name away or write over a file. */
  lemma AddingIsHarmless(fs: FS, a: Action)
    requires WellFormed(fs) && (a.Create? || a.Link?)
    ensures Harmless(fs, Act(fs, a, Program))
  {
  }

  /** Nor does writing a file of the program's. */
  lemma FillingIsHarmless(fs: FS, i: Inode, bytes: Bytes)
    requires WellFormed(fs) && OwnedBy(fs, i, Program)
    ensures Harmless(fs, Fill(fs, i, bytes)) && WellFormed(Fill(fs, i, bytes)) &&
      OwnedBy(Fill(fs, i, bytes), i, Program)
  {
  }

  /** Unlinking a name is harmless exactly when it does not lead to a file of the environment's. */
  lemma UnlinkHarm(fs: FS, p: Path)
    requires WellFormed(fs) && p in fs.names
    ensures Harmless(fs, Act(fs, Unlink(p), Program)) <==> !OwnedBy(fs, fs.names[p], Environment)
  {
  }
}
