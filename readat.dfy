/** readat.go: a filesystem adapter that hands out files supporting random reads,
    wrapping a sequential-only file in a diskTeeReader when needed. */
module ReadAtFs {
  import opened Paths
  import opened Vfs
  import opened Tee

  /** ReadAt.Open. Creating the wrapper's scratch file is the only I/O of its own:
      `spoolErr` is Some(e) when ioutil.TempFile fails with e. */
  function Open(inner: FS, name: string, spoolErr: Option<Error>): Result<File>
  {
    if !ValidPath(name) then Err(NotExist(name))
    else match inner.Open(name)
      case Err(e) => Err(e)
      case Ok(f) =>
        match f.Stat()
        case Err(e) => Err(e)
        case Ok(st) =>
          if st.IsDir() then Ok(f)
          else if f.HasReadAt() then Ok(f)
          else if spoolErr.Some? then Err(spoolErr.value)
          else Ok(ReadAtWrapped(f))
  }

  /** An invalid path does not exist, whatever the inner filesystem holds. */
  lemma OpenRejectsInvalid(inner: FS, other: FS, name: string, spoolErr: Option<Error>)
    requires !ValidPath(name)
    ensures Open(inner, name, spoolErr) == Err(NotExist(name))
    ensures Open(inner, name, spoolErr) == Open(other, name, spoolErr)
  {
  }

  /** Errors of the inner Open and of Stat are returned unchanged. */
  lemma OpenPassesErrors(inner: FS, name: string, spoolErr: Option<Error>)
    requires ValidPath(name)
    ensures inner.Open(name).Err? ==> Open(inner, name, spoolErr) == Err(inner.Open(name).error)
    ensures inner.Open(name).Ok? && inner.Open(name).value.Stat().Err? ==>
      Open(inner, name, spoolErr) == Err(inner.Open(name).value.Stat().error)
  {
  }

  /** Directories and files that already support ReadAt are returned as they are; any
      other file is wrapped, unless the scratch file cannot be created. */
  lemma OpenWrapsOnlySequentialFiles(inner: FS, name: string, spoolErr: Option<Error>)
    requires ValidPath(name) && inner.Open(name).Ok? && inner.Open(name).value.Stat().Ok?
    ensures var f := inner.Open(name).value;
      (f.Stat().value.IsDir() || f.HasReadAt() ==> Open(inner, name, spoolErr) == Ok(f)) &&
      (!f.Stat().value.IsDir() && !f.HasReadAt() ==>
        Open(inner, name, spoolErr) == (if spoolErr.Some? then Err(spoolErr.value) else Ok(ReadAtWrapped(f))))
  {
  }

  /** The wrapped file keeps the metadata and the content of the file it wraps; it
      adds ReadAt and drops ReadDir. */
  lemma WrappedDelegates(f: File)
    ensures ReadAtWrapped(f).Stat() == f.Stat()
    ensures ReadAtWrapped(f).Data() == f.Data() && ReadAtWrapped(f).End() == f.End()
    ensures ReadAtWrapped(f).HasReadAt() && !ReadAtWrapped(f).HasReadDir()
  {
  }

  /** Every file Open returns has metadata, and is a directory or supports ReadAt. */
  lemma EveryFileSupportsReadAt(inner: FS, name: string, spoolErr: Option<Error>)
    ensures var r := Open(inner, name, spoolErr);
      r.Ok? ==> r.value.Stat().Ok? && (r.value.Stat().value.IsDir() || r.value.HasReadAt())
  {
  }

  /** A file just opened through the adapter and read at off returns exactly the inner
      file's bytes from off, however the inner file lacked ReadAt. */
  lemma OpenedFileReadsAt(inner: FS, name: string, k: nat, off: int)
    requires Open(inner, name, None).Ok? && Open(inner, name, None).value.ReadAtWrapped?
    requires var f := Open(inner, name, None).value; off >= 0 && (f.End() == EOF || off + k <= |f.Data()|)
    ensures var f := Open(inner, name, None).value;
      var r := ReadAtStep(f.Data(), f.End(), Fresh(), k, off).reply;
      var hi := if off + k <= |f.Data()| then off + k else |f.Data()|;
      (off <= |f.Data()| ==> r.bytes == f.Data()[off..hi]) && (off > |f.Data()| ==> r.bytes == [])
  {
    var f := Open(inner, name, None).value;
    FreshReadAtExact(f.Data(), f.End(), k, off);
  }

  /** readat.go readAtFile: the wrapped file, with Read and ReadAt answered by the
      tee reader over the file's content and Stat by the file itself. */
  class ReadAtFile {
    const file: File
    const dtr: DiskTeeReader

    ghost predicate Valid()
      reads this, dtr
    {
      dtr.Valid() && dtr.data == file.Data() && dtr.tail == file.End()
    }

    constructor (file: File)
      ensures this.file == file && fresh(dtr) && dtr.Snapshot() == Fresh() && Valid()
    {
      this.file := file;
      dtr := new DiskTeeReader(file.Data(), file.End());
    }

    /** Stat is the embedded fs.File's. */
    function Stat(): (r: Result<FileInfo>)
      ensures r == ReadAtWrapped(file).Stat()
    {
      file.Stat()
    }

    method Read(k: nat) returns (bytes: seq<byte>, err: Option<Error>)
      requires Valid()
      modifies dtr
      ensures Valid()
      ensures Step(Reply(bytes, err), dtr.Snapshot()) == ReadStep(file.Data(), file.End(), old(dtr.Snapshot()), k)
    {
      bytes, err := dtr.Read(k);
    }

    method ReadAt(k: nat, off: int) returns (bytes: seq<byte>, err: Option<Error>)
      requires Valid()
      modifies dtr
      ensures Valid()
      ensures Step(Reply(bytes, err), dtr.Snapshot()) ==
              ReadAtStep(file.Data(), file.End(), old(dtr.Snapshot()), k, off)
    {
      bytes, err := dtr.ReadAt(k, off);
    }
  }
}
