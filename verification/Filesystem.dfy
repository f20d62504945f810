/** A file system as the staged-replacement code sees it: full pathnames bound to
    object identities, objects behind the identities, and open handles.

    An identity (`Ino`) is the device and inode pair. Identities are recycled once
    nothing holds an object, so two objects over time may share one; `birth` tells
    them apart and no system call reports it. */
module Filesystem {
  import opened Common

  type Path = string
  type Ino = nat

  datatype Kind = Regular(bytes: Bytes) | Directory | Symlink | Special

  datatype Object = Object(birth: nat, kind: Kind)

  datatype FS = FS(
    names: map<Path, Ino>,
    objects: map<Ino, Object>,
    canonical: map<Path, Path>)

  datatype Handle = Handle(ino: Ino, birth: nat)

  /** The identity `lstat` reports, or `None` for "not found". */
  function At(fs: FS, p: Path): Option<Ino> {
    if p in fs.names && fs.names[p] in fs.objects then Some(fs.names[p]) else None
  }

  function ObjectAt(fs: FS, p: Path): Option<Object> {
    match At(fs, p)
    case None => None
    case Some(ino) => Some(fs.objects[ino])
  }

  predicate IsRegular(fs: FS, p: Path) {
    var o := ObjectAt(fs, p);
    o.Some? && o.value.kind.Regular?
  }

  predicate IsDirectory(fs: FS, p: Path) {
    var o := ObjectAt(fs, p);
    o.Some? && o.value.kind.Directory?
  }

  /** What a reader of pathname `p` gets, when it names a regular file. */
  function Contents(fs: FS, p: Path): Option<Bytes> {
    if IsRegular(fs, p) then Some(ObjectAt(fs, p).value.kind.bytes) else None
  }

  /** An open handle keeps its object alive, so its identity is not recycled. */
  predicate Pinned(fs: FS, h: Handle) {
    && h.ino in fs.objects
    && fs.objects[h.ino].birth == h.birth
    && fs.objects[h.ino].kind.Regular?
  }

  /** The bounded exact read: all the bytes of a regular file, iff they fit. */
  function ReadBounded(fs: FS, p: Path, max: nat): Option<Bytes> {
    match Contents(fs, p)
    case None => None
    case Some(b) => if |b| <= max then Some(b) else None
  }

  predicate HasChildren(fs: FS, p: Path) {
    exists q :: q in fs.names && |q| > |p| + 1 && q[..|p|] == p && q[|p|] == '/'
  }

  /** `rename(2)` on entries; two names of one object make it a successful no-op.
      Entries below a moved directory are left for the environment to move. */
  function Renamed(fs: FS, from: Path, to: Path): Option<FS> {
    var a, b := ObjectAt(fs, from), ObjectAt(fs, to);
    if a.None? then None
    else if b.Some? && At(fs, from) == At(fs, to) then Some(fs)
    else if b.Some? && (a.value.kind.Directory? != b.value.kind.Directory?
                        || (b.value.kind.Directory? && HasChildren(fs, to))) then None
    else Some(fs.(names := fs.names[to := fs.names[from]] - {from}))
  }

  /** `unlink(2)`: the entry goes, the object stays for whoever still holds it. */
  function Unlinked(fs: FS, p: Path): FS {
    fs.(names := fs.names - {p})
  }

  function Created(fs: FS, p: Path, h: Handle): FS {
    fs.(names := fs.names[p := h.ino],
        objects := fs.objects[h.ino := Object(h.birth, Regular([]))])
  }

  /** A write through an open handle reaches the object, whatever names it. */
  function Written(fs: FS, h: Handle, bytes: Bytes): FS
    requires Pinned(fs, h)
  {
    fs.(objects := fs.objects[h.ino := Object(h.birth, Regular(bytes))])
  }

  /** Only entries in `own` may differ. */
  ghost predicate SameNamesExcept(a: FS, b: FS, own: set<Path>) {
    forall p :: p !in own ==> (p in a.names <==> p in b.names) && (p in a.names ==> a.names[p] == b.names[p])
  }

  /** A successful rename makes `to` name exactly what `from` named, frees `from`
      unless both already named that object, and moves nothing else. */
  lemma RenameInstalls(fs: FS, from: Path, to: Path)
    requires Renamed(fs, from, to).Some?
    ensures var after := Renamed(fs, from, to).value;
            && At(after, to) == At(fs, from)
            && ObjectAt(after, to) == ObjectAt(fs, from)
            && (At(fs, from) != At(fs, to) ==> At(after, from).None?)
            && after.objects == fs.objects
            && SameNamesExcept(fs, after, {from, to})
  {}
}
