/** merge.go: an ordered list of keyed filesystems presented as one namespace, with
    a synthesized root directory listing one entry per mount. */
module MergeFs {
  import opened Paths
  import opened Vfs

  /** fsWithKey */
  datatype Mount = Mount(key: string, fs: FS)

  /** fs.Stat(fsys, "."): open the root and ask the handle. */
  function StatRoot(fs: FS): Result<FileInfo>
  {
    match fs.Open(".")
    case Err(e) => Err(e)
    case Ok(f) => f.Stat()
  }

  /** The root-listing entry of a mount: its root's info under the mount's key. */
  function MountEntry(key: string, st: FileInfo): DirEntry
  {
    InfoEntry(Nameable(key, st))
  }

  /** The entries createRootDir collects, stopping at the first failing Stat. */
  function RootEntries(ms: seq<Mount>): Result<seq<DirEntry>>
  {
    if ms == [] then Ok([])
    else match StatRoot(ms[0].fs)
      case Err(e) => Err(e)
      case Ok(st) =>
        match RootEntries(ms[1..])
        case Err(e) => Err(e)
        case Ok(rest) => Ok([MountEntry(ms[0].key, st)] + rest)
  }

  /** The entries of a prefix of the mounts put before the result for the rest. */
  function Prepend(dirs: seq<DirEntry>, rest: Result<seq<DirEntry>>): Result<seq<DirEntry>>
  {
    match rest
    case Err(e) => Err(e)
    case Ok(tail) => Ok(dirs + tail)
  }

  /** What Open(".") answers: a fresh dir named "." over the mount entries. */
  function RootDir(ms: seq<Mount>): Result<File>
  {
    match RootEntries(ms)
    case Err(e) => Err(e)
    case Ok(dirs) => Ok(SynthDir(DirInfo("."), dirs))
  }

  /** The root listing has exactly one entry per mount, in mount order, when every
      mount's root can be stat'ed; otherwise it fails with the first mount's error. */
  lemma {:induction false} RootEntriesOnePerMount(ms: seq<Mount>)
    ensures RootEntries(ms).Ok? <==> forall i :: 0 <= i < |ms| ==> StatRoot(ms[i].fs).Ok?
    ensures RootEntries(ms).Ok? ==>
      |RootEntries(ms).value| == |ms| &&
      forall i :: 0 <= i < |ms| ==> RootEntries(ms).value[i] == MountEntry(ms[i].key, StatRoot(ms[i].fs).value)
    ensures RootEntries(ms).Err? ==>
      exists i :: 0 <= i < |ms| && (forall j :: 0 <= j < i ==> StatRoot(ms[j].fs).Ok?) &&
        StatRoot(ms[i].fs) == Err(RootEntries(ms).error)
  {
    if ms != [] {
      RootEntriesOnePerMount(ms[1..]);
      assert forall i :: 1 <= i < |ms| ==> ms[i] == ms[1..][i - 1];
      if StatRoot(ms[0].fs).Ok? && RootEntries(ms[1..]).Err? {
        var i :| 0 <= i < |ms[1..]| && (forall j :: 0 <= j < i ==> StatRoot(ms[1..][j].fs).Ok?) &&
          StatRoot(ms[1..][i].fs) == Err(RootEntries(ms[1..]).error);
        assert forall j :: 0 <= j < i + 1 ==> StatRoot(ms[j].fs).Ok? by {
          forall j | 0 <= j < i + 1 ensures StatRoot(ms[j].fs).Ok? {
            if j > 0 { assert ms[j] == ms[1..][j - 1]; }
          }
        }
        assert StatRoot(ms[i + 1].fs) == Err(RootEntries(ms).error);
      }
    }
  }

  /** Each root-listing entry is named after the base of its mount's key and otherwise
      reports the mount root's info. */
  lemma RootEntryNames(ms: seq<Mount>, i: nat)
    requires RootEntries(ms).Ok? && i < |ms|
    ensures i < |RootEntries(ms).value|
    ensures StatRoot(ms[i].fs).Ok?
    ensures RootEntries(ms).value[i].Name() == Base(ms[i].key)
    ensures RootEntries(ms).value[i].IsDir() == StatRoot(ms[i].fs).value.IsDir()
    ensures RootEntries(ms).value[i].Info() == Ok(Nameable(ms[i].key, StatRoot(ms[i].fs).value))
  {
    RootEntriesOnePerMount(ms);
  }

  /** Open of a path equal to a mount's key: that mount's root, which must list. */
  function KeyAnswer(m: Mount, name: string): Result<File>
  {
    match m.fs.Open(".")
    case Err(e) => Err(e)
    case Ok(f) => if !f.HasReadDir() then Err(NotADirectory("open", name)) else Ok(RootFile(name, f))
  }

  /** What one mount answers for a non-root path. */
  function Answer(m: Mount, name: string): Result<File>
  {
    if name == m.key then KeyAnswer(m, name)
    else m.fs.Open(TrimLeft(name, m.key + "/"))
  }

  /** Whether the scan moves past this mount: only on a not-exist answer for a name
      that differs from the key. */
  predicate Skips(m: Mount, name: string)
  {
    name != m.key && IsNotExist(Answer(m, name))
  }

  /** The scan of Open over the mounts, in order. */
  function Route(ms: seq<Mount>, name: string): Result<File>
  {
    if ms == [] then Err(NotExist(name))
    else if Skips(ms[0], name) then Route(ms[1..], name)
    else Answer(ms[0], name)
  }

  /** Open's scan answers with the first mount that does not skip the path, and with
      not-exist when every mount skips it (in particular when there are none). */
  lemma {:induction false} RouteIsFirstAnswer(ms: seq<Mount>, name: string, i: nat)
    requires i <= |ms|
    requires forall j :: 0 <= j < i ==> Skips(ms[j], name)
    requires i < |ms| ==> !Skips(ms[i], name)
    ensures Route(ms, name) == if i == |ms| then Err(NotExist(name)) else Answer(ms[i], name)
  {
    if i > 0 {
      assert Skips(ms[0], name);
      forall j | 0 <= j < i - 1 ensures Skips(ms[1..][j], name) { assert ms[1..][j] == ms[j + 1]; }
      RouteIsFirstAnswer(ms[1..], name, i - 1);
    }
  }

  /** Every mount of ms skips the path. */
  predicate AllSkip(ms: seq<Mount>, name: string)
  {
    forall j :: 0 <= j < |ms| ==> Skips(ms[j], name)
  }

  lemma AllSkipCons(ms: seq<Mount>, name: string)
    requires ms != []
    ensures AllSkip(ms, name) <==> Skips(ms[0], name) && AllSkip(ms[1..], name)
  {
    assert forall j :: 1 <= j < |ms| ==> ms[j] == ms[1..][j - 1];
  }

  /** A mount added last is consulted only for the paths every earlier mount skips;
      for all other paths Open answers as before the Add. */
  lemma {:induction false} RouteAfterAdd(ms: seq<Mount>, m: Mount, name: string)
    ensures Route(ms + [m], name) == if AllSkip(ms, name) then Route([m], name) else Route(ms, name)
  {
    if ms == [] {
      assert [] + [m] == [m];
    } else {
      var n := ms + [m];
      assert n[0] == ms[0] && n[1..] == ms[1..] + [m];
      AllSkipCons(ms, name);
      if Skips(ms[0], name) {
        assert Route(n, name) == Route(ms[1..] + [m], name);
        RouteAfterAdd(ms[1..], m, name);
      } else {
        assert Route(n, name) == Answer(ms[0], name);
      }
    }
  }

  /** The handle for a path equal to a key lists and reports the key's base as its name,
      with the rest of the mount root's info. */
  lemma KeyHandleStat(m: Mount, name: string)
    requires KeyAnswer(m, name).Ok?
    ensures m.fs.Open(".").Ok? && m.fs.Open(".").value.HasReadDir()
    ensures KeyAnswer(m, name).value.HasReadDir()
    ensures m.fs.Open(".").value.Stat().Ok? ==>
      KeyAnswer(m, name).value.Stat() == Ok(Nameable(name, m.fs.Open(".").value.Stat().value)) &&
      KeyAnswer(m, name).value.Stat().value.Name() == Base(name)
  {
  }

  /** A key mount whose root cannot list makes Open fail with "not a directory". */
  lemma KeyRootMustList(m: Mount, name: string)
    requires m.fs.Open(".").Ok? && !m.fs.Open(".").value.HasReadDir()
    ensures KeyAnswer(m, name) == Err(NotADirectory("open", name))
  {
  }

  /** The trim is a cutset trim applied to every mount: "id1/1.txt" reaches mount "id1"
      as ".txt", not "1.txt". */
  lemma TrimLeftMisroutes(fs: FS)
    ensures Answer(Mount("id1", fs), "id1/1.txt") == fs.Open(".txt")
  {
    var name: string := "id1/1.txt";
    assert name != "id1" by { assert |name| != |"id1"|; }
    assert "id1" + "/" == "id1/";
    TrimLeftIsNotPrefixStrip();
  }

  /** Prefix routing, the evident intent of the TrimLeft call: a mount answers only
      paths below "key/", with exactly that prefix removed. */
  function AnswerByPrefix(m: Mount, name: string): Result<File>
  {
    if name == m.key then KeyAnswer(m, name)
    else if HasPrefix(name, m.key + "/") then m.fs.Open(name[|m.key| + 1..])
    else Err(NotExist(name))
  }

  function RouteByPrefix(ms: seq<Mount>, name: string): Result<File>
  {
    if ms == [] then Err(NotExist(name))
    else if name != ms[0].key && IsNotExist(AnswerByPrefix(ms[0], name)) then RouteByPrefix(ms[1..], name)
    else AnswerByPrefix(ms[0], name)
  }

  /** With prefix routing, "key/rest" reaches the first mount with that key as "rest",
      as long as no earlier mount's key is a prefix of the path or the path itself. */
  lemma {:induction false} RouteByPrefixReachesOwner(ms: seq<Mount>, i: nat, rest: string)
    requires i < |ms|
    requires forall j :: 0 <= j < i ==>
      ms[j].key != ms[i].key + "/" + rest && !HasPrefix(ms[i].key + "/" + rest, ms[j].key + "/")
    requires !IsNotExist(ms[i].fs.Open(rest))
    ensures RouteByPrefix(ms, ms[i].key + "/" + rest) == ms[i].fs.Open(rest)
  {
    var name := ms[i].key + "/" + rest;
    var k := ms[i].key;
    assert name[..|k + "/"|] == k + "/";
    assert name[|k| + 1..] == rest;
    assert name != k by { assert |name| > |k|; }
    if i > 0 {
      forall j | 0 <= j < i - 1
        ensures ms[1..][j].key != ms[1..][i - 1].key + "/" + rest
        ensures !HasPrefix(ms[1..][i - 1].key + "/" + rest, ms[1..][j].key + "/")
      {
        assert ms[1..][j] == ms[j + 1];
      }
      RouteByPrefixReachesOwner(ms[1..], i - 1, rest);
    }
  }

  /** merge.go Merge */
  class Merge {
    var mounts: seq<Mount>

    /** NewMerge */
    constructor ()
      ensures mounts == []
    {
      mounts := [];
    }

    /** Add: append, with no uniqueness check. */
    method Add(key: string, filesystem: FS)
      modifies this
      ensures mounts == old(mounts) + [Mount(key, filesystem)]
    {
      mounts := mounts + [Mount(key, filesystem)];
    }

    /** Remove: delete the first mount with this key, if there is one. */
    method Remove(key: string) returns (found: bool)
      modifies this
      ensures found <==> exists i :: 0 <= i < |old(mounts)| && old(mounts)[i].key == key
      ensures found ==> (exists i :: 0 <= i < |old(mounts)| && old(mounts)[i].key == key &&
                           (forall j :: 0 <= j < i ==> old(mounts)[j].key != key) &&
                           mounts == old(mounts)[..i] + old(mounts)[i + 1..])
      ensures !found ==> mounts == old(mounts)
    {
      var i := 0;
      while i < |mounts|
        invariant 0 <= i <= |mounts|
        invariant mounts == old(mounts)
        invariant forall j :: 0 <= j < i ==> mounts[j].key != key
      {
        if mounts[i].key == key {
          mounts := mounts[..i] + mounts[i + 1..];
          return true;
        }
        i := i + 1;
      }
      return false;
    }

    /** Open: invalid paths do not exist; "." is the synthesized root; any other path
        goes through the ordered scan. The mount list is not changed. */
    method Open(name: string) returns (r: Result<File>)
      ensures !ValidPath(name) ==> r == Err(NotExist(name))
      ensures ValidPath(name) && name == "." ==> r == RootDir(mounts)
      ensures ValidPath(name) && name != "." ==> r == Route(mounts, name)
    {
      if !ValidPath(name) {
        return Err(NotExist(name));
      }
      if name == "." {
        r := CreateRootDir();
        return;
      }
      var i := 0;
      while i < |mounts|
        invariant 0 <= i <= |mounts|
        invariant forall j :: 0 <= j < i ==> Skips(mounts[j], name)
      {
        var m := mounts[i];
        if name == m.key {
          var fsr := m.fs.Open(".");
          if fsr.Err? {
            RouteIsFirstAnswer(mounts, name, i);
            return Err(fsr.error);
          }
          if !fsr.value.HasReadDir() {
            RouteIsFirstAnswer(mounts, name, i);
            return Err(NotADirectory("open", name));
          }
          RouteIsFirstAnswer(mounts, name, i);
          return Ok(RootFile(name, fsr.value));
        }
        var fsName := TrimLeft(name, m.key + "/");
        var f := m.fs.Open(fsName);
        if IsNotExist(f) {
          i := i + 1;
          continue;
        }
        RouteIsFirstAnswer(mounts, name, i);
        return f;
      }
      RouteIsFirstAnswer(mounts, name, i);
      return Err(NotExist(name));
    }

    /** createRootDir: one entry per mount, stopping at the first Stat error. */
    method CreateRootDir() returns (r: Result<File>)
      ensures r == RootDir(mounts)
    {
      var dirs: seq<DirEntry> := [];
      var i := 0;
      assert mounts[0..] == mounts;
      assert RootEntries(mounts).Ok? ==> [] + RootEntries(mounts).value == RootEntries(mounts).value;
      while i < |mounts|
        invariant 0 <= i <= |mounts|
        invariant RootEntries(mounts) == Prepend(dirs, RootEntries(mounts[i..]))
      {
        assert mounts[i..][0] == mounts[i] && mounts[i..][1..] == mounts[i + 1..];
        var stat := StatRoot(mounts[i].fs);
        if stat.Err? {
          assert RootEntries(mounts[i..]) == Err(stat.error);
          return Err(stat.error);
        }
        ghost var rest := RootEntries(mounts[i + 1..]);
        assert rest.Ok? ==> dirs + ([MountEntry(mounts[i].key, stat.value)] + rest.value) ==
                            (dirs + [MountEntry(mounts[i].key, stat.value)]) + rest.value;
        dirs := dirs + [MountEntry(mounts[i].key, stat.value)];
        i := i + 1;
      }
      assert mounts[i..] == [];
      assert dirs + [] == dirs;
      r := Ok(SynthDir(DirInfo("."), dirs));
    }
  }
}
