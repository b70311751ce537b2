/** The filesystem capability shared by every adapter, modelled on values, and the
    synthetic metadata of vfs.go: the paginated in-memory directory `dir`, the
    `dirEntry` wrapper, the name-overriding `nameableFileInfo` and the fixed
    virtual-directory `dirFileInfo`. */
module Vfs {
  import opened Paths

  newtype byte = b: int | 0 <= b < 256

  datatype Option<T> = None | Some(value: T)

  /** The errors the layer produces or passes on. */
  datatype Error =
    | NotExist(path: string)                // a PathError wrapping fs.ErrNotExist
    | NotADirectory(op: string, path: string) // a PathError with "not a directory"
    | FSNotFound                            // ErrFSNotFound of recursive.go
    | EOF                                   // io.EOF
    | NegativeOffset                        // a random read at an offset below zero
    | Other(code: nat)                      // any other error of a backing source

  datatype Result<T> = Ok(value: T) | Err(error: Error)

  /** os.IsNotExist */
  predicate IsNotExist<T>(r: Result<T>)
  {
    r.Err? && r.error.NotExist?
  }

  /** fs.FileMode bits. */
  type FileMode = bv32

  const ModeDir: FileMode := 0x8000_0000
  const ModeSymlink: FileMode := 0x0800_0000
  const ModeDevice: FileMode := 0x0400_0000
  const ModeNamedPipe: FileMode := 0x0200_0000
  const ModeSocket: FileMode := 0x0100_0000
  const ModeCharDevice: FileMode := 0x0020_0000
  const ModeIrregular: FileMode := 0x0008_0000
  const ModeType: FileMode :=
    ModeDir | ModeSymlink | ModeNamedPipe | ModeSocket | ModeDevice | ModeCharDevice | ModeIrregular

  /** FileMode.Type(): the type bits of a mode. */
  function TypeBits(m: FileMode): FileMode
  {
    m & ModeType
  }

  /** Modification times are opaque; ZeroTime is Go's time.Time{}. */
  datatype Time = ZeroTime | At(stamp: int)

  /** What FileInfo.Sys returns; NoSys is nil. */
  datatype SysValue = NoSys | SysData(id: nat)

  /** fs.FileInfo. A backing source's info is an opaque record; the other two are
      the wrappers of vfs.go. */
  datatype FileInfo =
    | SourceInfo(name: string, size: int, mode: FileMode, modTime: Time, isDir: bool, sys: SysValue)
    | Nameable(override: string, wrapped: FileInfo)   // nameableFileInfo
    | DirInfo(path: string)                           // dirFileInfo
  {
    function Name(): string
    {
      match this
      case SourceInfo(n, _, _, _, _, _) => n
      case Nameable(n, _) => Base(n)
      case DirInfo(p) => Base(p)
    }

    function Size(): int
    {
      match this
      case SourceInfo(_, s, _, _, _, _) => s
      case Nameable(_, fi) => fi.Size()
      case DirInfo(_) => 0
    }

    function Mode(): FileMode
    {
      match this
      case SourceInfo(_, _, m, _, _, _) => m
      case Nameable(_, fi) => fi.Mode()
      case DirInfo(_) => ModeDir | 0x16D  // fs.ModeDir | 0555
    }

    function ModTime(): Time
    {
      match this
      case SourceInfo(_, _, _, t, _, _) => t
      case Nameable(_, fi) => fi.ModTime()
      case DirInfo(_) => ZeroTime
    }

    function IsDir(): bool
    {
      match this
      case SourceInfo(_, _, _, _, d, _) => d
      case Nameable(_, fi) => fi.IsDir()
      case DirInfo(_) => true
    }

    function Sys(): SysValue
    {
      match this
      case SourceInfo(_, _, _, _, _, s) => s
      case Nameable(_, fi) => fi.Sys()
      case DirInfo(_) => NoSys
    }

    /** dirFileInfo.Path: the full name it was made with. */
    function Path(): string
      requires DirInfo?
    {
      path
    }
  }

  /** fs.DirEntry: an entry listed by a backing source, or the dirEntry wrapper
      around a FileInfo. */
  datatype DirEntry =
    | SourceEntry(name: string, isDir: bool, typ: FileMode, info: Result<FileInfo>)
    | InfoEntry(fi: FileInfo)   // dirEntry
  {
    function Name(): string
    {
      match this
      case SourceEntry(n, _, _, _) => n
      case InfoEntry(fi) => fi.Name()
    }

    function IsDir(): bool
    {
      match this
      case SourceEntry(_, d, _, _) => d
      case InfoEntry(fi) => fi.IsDir()
    }

    function Type(): FileMode
    {
      match this
      case SourceEntry(_, _, t, _) => t
      case InfoEntry(fi) => TypeBits(fi.Mode())
    }

    function Info(): Result<FileInfo>
    {
      match this
      case SourceEntry(_, _, _, i) => i
      case InfoEntry(fi) => Ok(fi)
    }
  }

  /** fs.File as returned by Open: a handle of a backing source (whose optional
      capabilities are flags and whose sequential content is `data`, followed by the
      error `end`), or one of the handles the layer fabricates. */
  datatype File =
    | Backing(info: Result<FileInfo>, canReadDir: bool, canReadAt: bool, data: seq<byte>, end: Error)
    | SynthDir(fi: FileInfo, dirs: seq<DirEntry>)              // vfs.go dir, before any ReadDir
    | RootFile(name: string, inner: File)                     // merge.go rootFile
    | RecursiveFile(name: string, inner: File, exts: set<string>) // recursive.go recursiveFile
    | ReadAtWrapped(inner: File)                              // readat.go readAtFile
  {
    /** Stat(): wrappers that carry a name report it through nameableFileInfo. */
    function Stat(): Result<FileInfo>
    {
      match this
      case Backing(i, _, _, _, _) => i
      case SynthDir(fi, _) => Ok(fi)
      case RootFile(n, f) => (match f.Stat() case Err(e) => Err(e) case Ok(st) => Ok(Nameable(n, st)))
      case RecursiveFile(n, f, _) => (match f.Stat() case Err(e) => Err(e) case Ok(st) => Ok(Nameable(n, st)))
      case ReadAtWrapped(f) => f.Stat()
    }

    /** Whether the handle is an fs.ReadDirFile. rootFile embeds one and recursiveFile
        declares ReadDir; readAtFile embeds only fs.File. */
    predicate HasReadDir()
    {
      match this
      case Backing(_, rd, _, _, _) => rd
      case SynthDir(_, _) => true
      case RootFile(_, _) => true
      case RecursiveFile(_, _, _) => true
      case ReadAtWrapped(_) => false
    }

    /** Whether the handle is an io.ReaderAt. Only readAtFile adds the capability;
        the other wrappers embed interfaces without it. */
    predicate HasReadAt()
    {
      match this
      case Backing(_, _, ra, _, _) => ra
      case ReadAtWrapped(_) => true
      case _ => false
    }

    /** The bytes successive Read calls deliver. A synthesized directory's Read
        answers (0, nil) on every call; that is modelled by Dir.Read, and the
        SynthDir case here (no bytes, then EOF) is only a closing value. */
    function Data(): seq<byte>
    {
      match this
      case Backing(_, _, _, d, _) => d
      case SynthDir(_, _) => []
      case RootFile(_, f) => f.Data()
      case RecursiveFile(_, f, _) => f.Data()
      case ReadAtWrapped(f) => f.Data()
    }

    /** The error Read reports once Data is used up. */
    function End(): Error
    {
      match this
      case Backing(_, _, _, _, e) => e
      case SynthDir(_, _) => EOF
      case RootFile(_, f) => f.End()
      case RecursiveFile(_, f, _) => f.End()
      case ReadAtWrapped(f) => f.End()
    }
  }

  /** fs.FS: a finite map from paths to what Open answers; a path it lacks does not exist. */
  datatype FS = FS(files: map<string, Result<File>>)
  {
    function Open(name: string): (r: Result<File>)
      ensures name !in files ==> r == Err(NotExist(name))
    {
      if name in files then files[name] else Err(NotExist(name))
    }
  }

  /** nameableFileInfo reports the base of its name and every other field of the
      FileInfo it wraps. */
  lemma NameableOverridesOnlyName(name: string, fi: FileInfo)
    ensures Nameable(name, fi).Name() == Base(name)
    ensures Nameable(name, fi).Size() == fi.Size()
    ensures Nameable(name, fi).Mode() == fi.Mode()
    ensures Nameable(name, fi).ModTime() == fi.ModTime()
    ensures Nameable(name, fi).IsDir() == fi.IsDir()
    ensures Nameable(name, fi).Sys() == fi.Sys()
  {
  }

  /** dirFileInfo is a read-only directory of size 0 named after the base of its path. */
  lemma DirInfoIsVirtualDirectory(name: string)
    ensures DirInfo(name).Name() == Base(name)
    ensures DirInfo(name).Size() == 0
    ensures DirInfo(name).Mode() == ModeDir | 0x16D
    ensures DirInfo(name).IsDir()
    ensures TypeBits(DirInfo(name).Mode()) == ModeDir
    ensures DirInfo(name).ModTime() == ZeroTime && DirInfo(name).Sys() == NoSys
  {
  }

  /** dirEntry takes its name, directory flag, type and info from its FileInfo. */
  lemma InfoEntryDelegates(fi: FileInfo)
    ensures InfoEntry(fi).Name() == fi.Name()
    ensures InfoEntry(fi).IsDir() == fi.IsDir()
    ensures InfoEntry(fi).Type() == fi.Mode() & ModeType
    ensures InfoEntry(fi).Info() == Ok(fi)
  {
  }

  function Min(a: int, b: int): int
  {
    if a <= b then a else b
  }

  /** One answer of dir.ReadDir: the entries, the error and the offset afterwards. */
  datatype Page = Page(list: seq<DirEntry>, err: Option<Error>, next: nat)

  /** dir.ReadDir(count) from the given offset, as a value. */
  function ReadDirPage(dirs: seq<DirEntry>, offset: nat, count: int): (p: Page)
    requires offset <= |dirs|
    ensures offset <= p.next <= |dirs|
    ensures p.list == dirs[offset..p.next]
    ensures count > 0 ==> |p.list| == Min(count, |dirs| - offset)
    ensures count <= 0 ==> p.next == |dirs|
    ensures p.err == (if offset == |dirs| && count > 0 then Some(EOF) else None)
  {
    var n := if count > 0 && |dirs| - offset > count then count else |dirs| - offset;
    if n == 0 then Page([], if count <= 0 then None else Some(EOF), offset)
    else Page(dirs[offset..offset + n], None, offset + n)
  }

  /** All entries a client collects by calling ReadDir(k) with k > 0 until io.EOF. */
  function ReadDirAll(dirs: seq<DirEntry>, offset: nat, k: int): seq<DirEntry>
    requires offset <= |dirs| && k > 0
    decreases |dirs| - offset
  {
    var p := ReadDirPage(dirs, offset, k);
    if p.err.Some? then [] else p.list + ReadDirAll(dirs, p.next, k)
  }

  /** Concatenating successive positive-count pages up to io.EOF gives the remaining
      entries exactly, in order. */
  lemma {:induction false} PagesReassemble(dirs: seq<DirEntry>, offset: nat, k: int)
    requires offset <= |dirs| && k > 0
    ensures ReadDirAll(dirs, offset, k) == dirs[offset..]
    decreases |dirs| - offset
  {
    var p := ReadDirPage(dirs, offset, k);
    if p.err.None? {
      PagesReassemble(dirs, p.next, k);
      assert dirs[offset..] == dirs[offset..p.next] + dirs[p.next..];
    }
  }

  /** vfs.go dir: an in-memory directory listed page by page through a cursor. */
  class Dir {
    const fi: FileInfo
    const dirs: seq<DirEntry>
    var offset: nat

    ghost predicate Valid()
      reads this
    {
      offset <= |dirs|
    }

    /** newDir */
    constructor (fi: FileInfo, dirs: seq<DirEntry>)
      ensures Valid()
      ensures this.fi == fi && this.dirs == dirs && offset == 0
    {
      this.fi := fi;
      this.dirs := dirs;
      offset := 0;
    }

    function Stat(): (r: Result<FileInfo>)
      ensures r == Ok(fi)
    {
      Ok(fi)
    }

    /** dir.Read: no bytes and no error. */
    method Read(k: nat) returns (n: nat, err: Option<Error>)
      ensures n == 0 && err == None
    {
      n, err := 0, None;
    }

    method Close() returns (err: Option<Error>)
      ensures err == None
    {
      err := None;
    }

    /** dir.ReadDir: at most count entries (all remaining ones when count <= 0) from
        the cursor, which moves past them; io.EOF only for a positive count at the end. */
    method ReadDir(count: int) returns (list: seq<DirEntry>, err: Option<Error>)
      requires Valid()
      modifies this
      ensures Valid()
      ensures Page(list, err, offset) == ReadDirPage(dirs, old(offset), count)
      ensures old(offset) <= offset
    {
      var n := |dirs| - offset;
      if count > 0 && n > count {
        n := count;
      }
      if n == 0 {
        if count <= 0 {
          return [], None;
        }
        return [], Some(EOF);
      }
      list := [];
      var i := 0;
      while i < n
        invariant 0 <= i <= n
        invariant list == dirs[offset..offset + i]
      {
        list := list + [dirs[offset + i]];
        i := i + 1;
      }
      offset := offset + n;
      err := None;
    }
  }
}
