/** recursive.go: paths that cross container files (files whose extension has a
    registered factory) are resolved inside the filesystem the factory builds for
    them, with the built filesystems kept in a memo cache. */
module RecursiveFs {
  import opened Paths
  import opened Vfs

  /** FSFactory: turns an opened container file into a filesystem, or fails. */
  type Factory = File -> Result<FS>

  /** isChildFS: whether the extension of name has a factory. */
  predicate IsChildFS(name: string, exts: set<string>)
  {
    Ext(name) in exts
  }

  /** Unless the empty extension is registered, a container's name ends with a
      registered extension that starts with '.' and lies inside its last element. */
  lemma IsChildFSByExtension(name: string, exts: set<string>)
    ensures IsChildFS(name, exts) && "" !in exts ==>
      exists e :: e in exts && |e| <= |name| && e[0] == '.' && '/' !in e && name[|name| - |e|..] == e
  {
    ExtHasNoSlash(name);
  }

  /** What getFS answers and the cache afterwards. */
  datatype Got = Got(fs: Result<FS>, cache: map<string, FS>)

  /** getFS as a value: a cache hit, a missing factory, a failing factory, or a new entry. */
  function GetFSStep(cache: map<string, FS>, factories: map<string, Factory>, name: string, f: File): Got
  {
    if name in cache then Got(Ok(cache[name]), cache)
    else if Ext(name) !in factories then Got(Err(FSNotFound), cache)
    else match factories[Ext(name)](f)
      case Err(e) => Got(Err(e), cache)
      case Ok(child) => Got(Ok(child), cache[name := child])
  }

  /** What parseElements answers and the cache afterwards. */
  datatype Outcome = Outcome(file: Result<File>, cache: map<string, FS>)

  /** parseElements from a given state of its loop: `current` is the filesystem the
      walk is in and `key` the sub-path accumulated inside it. */
  function Walk(cache: map<string, FS>, factories: map<string, Factory>, current: FS, key: string,
                elems: seq<string>): Outcome
    decreases |elems|
  {
    if elems == [] then Outcome(current.Open(key), cache)
    else
      var k := Join(key, elems[0]);
      if !IsChildFS(k, factories.Keys) then Walk(cache, factories, current, k, elems[1..])
      else match current.Open(k)
        case Err(e) => Outcome(Err(e), cache)
        case Ok(f) =>
          var got := GetFSStep(cache, factories, k, f);
          match got.fs
          case Err(e) => Outcome(Err(e), got.cache)
          case Ok(child) => Walk(got.cache, factories, child, ".", elems[1..])
  }

  /** The cache of getFS only grows: an entry, once present, keeps its value, and the
      only key that can appear is the one asked for. */
  lemma GetFSOnlyInserts(cache: map<string, FS>, factories: map<string, Factory>, name: string, f: File)
    ensures forall k :: k in cache ==> k in GetFSStep(cache, factories, name, f).cache &&
                                       GetFSStep(cache, factories, name, f).cache[k] == cache[k]
    ensures GetFSStep(cache, factories, name, f).cache.Keys <= cache.Keys + {name}
    ensures GetFSStep(cache, factories, name, f).fs.Ok? ==> name in GetFSStep(cache, factories, name, f).cache
  {
  }

  /** No walk removes or changes a cache entry. */
  lemma {:induction false} WalkOnlyInserts(cache: map<string, FS>, factories: map<string, Factory>, current: FS,
                                            key: string, elems: seq<string>)
    ensures forall k :: k in cache ==> k in Walk(cache, factories, current, key, elems).cache &&
                                       Walk(cache, factories, current, key, elems).cache[k] == cache[k]
    decreases |elems|
  {
    if elems != [] {
      var k := Join(key, elems[0]);
      if !IsChildFS(k, factories.Keys) {
        WalkOnlyInserts(cache, factories, current, k, elems[1..]);
      } else if current.Open(k).Ok? {
        var got := GetFSStep(cache, factories, k, current.Open(k).value);
        GetFSOnlyInserts(cache, factories, k, current.Open(k).value);
        if got.fs.Ok? {
          WalkOnlyInserts(got.cache, factories, got.fs.value, ".", elems[1..]);
        }
      }
    }
  }

  /** While no accumulated key names a container, the walk only accumulates. */
  lemma {:induction false} WalkSkipsPlain(cache: map<string, FS>, factories: map<string, Factory>, current: FS,
                                           key: string, elems: seq<string>, m: nat)
    requires m <= |elems|
    requires forall i :: 0 < i <= m ==> !IsChildFS(Accumulate(key, elems[..i]), factories.Keys)
    ensures Walk(cache, factories, current, key, elems) ==
            Walk(cache, factories, current, Accumulate(key, elems[..m]), elems[m..])
    decreases m
  {
    if m > 0 {
      var k := Join(key, elems[0]);
      AccumulateStep(key, elems, 1);
      assert Accumulate(key, elems[..1]) == k;
      forall i | 0 < i <= m - 1 ensures !IsChildFS(Accumulate(k, elems[1..][..i]), factories.Keys) {
        AccumulateStep(key, elems, i + 1);
      }
      WalkSkipsPlain(cache, factories, current, k, elems[1..], m - 1);
      AccumulateStep(key, elems, m);
      assert elems[1..][m - 1..] == elems[m..];
    }
  }

  lemma NoContainerPrefixOpens(cache: map<string, FS>, factories: map<string, Factory>, root: FS, elems: seq<string>)
    requires forall i :: 0 < i <= |elems| ==> !IsChildFS(Accumulate(".", elems[..i]), factories.Keys)
    ensures Walk(cache, factories, root, ".", elems) == Outcome(root.Open(Accumulate(".", elems)), cache)
  {
    WalkSkipsPlain(cache, factories, root, ".", elems, |elems|);
    assert elems[..|elems|] == elems;
    assert elems[|elems|..] == [];
  }

  /** If no accumulated prefix of a valid path is a container, Open on the recursive
      filesystem is Open of the same path on the root, and the cache is untouched. */
  lemma WithoutContainersOpensRoot(cache: map<string, FS>, factories: map<string, Factory>, root: FS, name: string)
    requires ValidPath(name)
    requires forall i :: 0 < i <= |Split(name)| ==> !IsChildFS(Accumulate(".", Split(name)[..i]), factories.Keys)
    ensures Walk(cache, factories, root, ".", Split(name)) == Outcome(root.Open(name), cache)
  {
    var elems := Split(name);
    NoContainerPrefixOpens(cache, factories, root, elems);
    AccumulateSplit(name);
  }

  /** No key accumulated from key over the first m elements names a container. */
  predicate PlainUpTo(key: string, elems: seq<string>, m: nat, exts: set<string>)
    requires m <= |elems|
  {
    forall i :: 0 < i <= m ==> !IsChildFS(Accumulate(key, elems[..i]), exts)
  }

  /** One step into a container: the key joined with the next element is opened and
      turned into a filesystem, and the walk goes on inside it from ".". */
  lemma WalkEntersContainer(cache: map<string, FS>, factories: map<string, Factory>, current: FS,
                            key: string, elems: seq<string>)
    requires elems != [] && IsChildFS(Join(key, elems[0]), factories.Keys)
    requires current.Open(Join(key, elems[0])).Ok?
    requires GetFSStep(cache, factories, Join(key, elems[0]), current.Open(Join(key, elems[0])).value).fs.Ok?
    ensures var got := GetFSStep(cache, factories, Join(key, elems[0]), current.Open(Join(key, elems[0])).value);
      Walk(cache, factories, current, key, elems) == Walk(got.cache, factories, got.fs.value, ".", elems[1..])
  {
  }

  lemma WalkPlainStep(cache: map<string, FS>, factories: map<string, Factory>, current: FS,
                      key: string, elems: seq<string>)
    requires elems != [] && !IsChildFS(Join(key, elems[0]), factories.Keys)
    ensures Walk(cache, factories, current, key, elems) ==
            Walk(cache, factories, current, Join(key, elems[0]), elems[1..])
  {
  }

  lemma WalkOpenFails(cache: map<string, FS>, factories: map<string, Factory>, current: FS,
                      key: string, elems: seq<string>)
    requires elems != [] && IsChildFS(Join(key, elems[0]), factories.Keys)
    requires current.Open(Join(key, elems[0])).Err?
    ensures Walk(cache, factories, current, key, elems) ==
            Outcome(Err(current.Open(Join(key, elems[0])).error), cache)
  {
  }

  lemma WalkGetFSFails(cache: map<string, FS>, factories: map<string, Factory>, current: FS,
                       key: string, elems: seq<string>)
    requires elems != [] && IsChildFS(Join(key, elems[0]), factories.Keys)
    requires current.Open(Join(key, elems[0])).Ok?
    requires GetFSStep(cache, factories, Join(key, elems[0]), current.Open(Join(key, elems[0])).value).fs.Err?
    ensures var got := GetFSStep(cache, factories, Join(key, elems[0]), current.Open(Join(key, elems[0])).value);
      Walk(cache, factories, current, key, elems) == Outcome(Err(got.fs.error), got.cache)
  {
  }

  /** Crossing the first container of a path: the prefix up to it is opened on the root,
      turned into a filesystem by getFS, and the rest of the path is opened inside that
      filesystem ("." when the path ends on the container). */
  lemma EnterFirstContainer(cache: map<string, FS>, factories: map<string, Factory>, root: FS,
                            elems: seq<string>, m: nat)
    requires m < |elems|
    requires PlainUpTo(".", elems, m, factories.Keys)
    requires IsChildFS(Accumulate(".", elems[..m + 1]), factories.Keys)
    requires root.Open(Accumulate(".", elems[..m + 1])).Ok?
    requires GetFSStep(cache, factories, Accumulate(".", elems[..m + 1]),
                       root.Open(Accumulate(".", elems[..m + 1])).value).fs.Ok?
    requires PlainUpTo(".", elems[m + 1..], |elems| - m - 1, factories.Keys)
    ensures var container := Accumulate(".", elems[..m + 1]);
            var got := GetFSStep(cache, factories, container, root.Open(container).value);
            Walk(cache, factories, root, ".", elems) ==
              Outcome(got.fs.value.Open(Accumulate(".", elems[m + 1..])), got.cache)
  {
    var rest := elems[m + 1..];
    var key := Accumulate(".", elems[..m]);
    var tail := elems[m..];
    assert tail[0] == elems[m] && tail[1..] == rest;
    var container := Join(key, elems[m]);
    assert Accumulate(".", elems[..m + 1]) == container by {
      AccumulateSnoc(".", elems[..m], elems[m]);
      assert elems[..m] + [elems[m]] == elems[..m + 1];
    }
    var got := GetFSStep(cache, factories, container, root.Open(container).value);
    assert Walk(cache, factories, root, ".", elems) == Walk(cache, factories, root, key, tail) by {
      WalkSkipsPlain(cache, factories, root, ".", elems, m);
    }
    assert Walk(cache, factories, root, key, tail) == Walk(got.cache, factories, got.fs.value, ".", rest) by {
      WalkEntersContainer(cache, factories, root, key, tail);
    }
    assert Walk(got.cache, factories, got.fs.value, ".", rest) ==
           Outcome(got.fs.value.Open(Accumulate(".", rest)), got.cache) by {
      NoContainerPrefixOpens(got.cache, factories, got.fs.value, rest);
    }
  }

  lemma {:induction false} AccumulateSnoc(key: string, elems: seq<string>, e: string)
    ensures Accumulate(key, elems + [e]) == Join(Accumulate(key, elems), e)
    decreases |elems|
  {
    if elems != [] {
      assert (elems + [e])[1..] == elems[1..] + [e];
      AccumulateSnoc(Join(key, elems[0]), elems[1..], e);
    } else {
      assert [] + [e] == [e];
    }
  }

  /** The cache key of a nested container is its name inside the enclosing container:
      after "a" is entered the key is reset to ".", so "b" is cached as Join(".", b). */
  lemma NestedCacheKeyIsRelative(cache: map<string, FS>, factories: map<string, Factory>, root: FS, a: string, b: string)
    requires IsChildFS(a, factories.Keys) && IsChildFS(b, factories.Keys)
    requires root.Open(a).Ok?
    requires GetFSStep(cache, factories, a, root.Open(a).value).fs.Ok?
    requires var g1 := GetFSStep(cache, factories, a, root.Open(a).value);
             g1.fs.value.Open(b).Ok? && GetFSStep(g1.cache, factories, b, g1.fs.value.Open(b).value).fs.Ok?
    ensures var g1 := GetFSStep(cache, factories, a, root.Open(a).value);
            var g2 := GetFSStep(g1.cache, factories, b, g1.fs.value.Open(b).value);
            Walk(cache, factories, root, ".", [a, b]) == Outcome(g2.fs.value.Open("."), g2.cache) &&
            a in g2.cache && b in g2.cache
  {
    var g1 := GetFSStep(cache, factories, a, root.Open(a).value);
    var g2 := GetFSStep(g1.cache, factories, b, g1.fs.value.Open(b).value);
    GetFSOnlyInserts(cache, factories, a, root.Open(a).value);
    GetFSOnlyInserts(g1.cache, factories, b, g1.fs.value.Open(b).value);
    assert [a, b][1..] == [b];
    assert [b][1..] == [];
    assert Walk(g2.cache, factories, g2.fs.value, ".", []) == Outcome(g2.fs.value.Open("."), g2.cache);
    assert Walk(g1.cache, factories, g1.fs.value, ".", [b]) == Walk(g2.cache, factories, g2.fs.value, ".", []);
    assert Walk(cache, factories, root, ".", [a, b]) == Walk(g1.cache, factories, g1.fs.value, ".", [b]);
  }

  /** Because the key is relative, a container whose relative name is already cached
      hits that entry even when it sits inside a different container. */
  lemma RelativeKeyCollides(cache: map<string, FS>, factories: map<string, Factory>, root: FS,
                            x: string, inner: string)
    requires IsChildFS(x, factories.Keys) && IsChildFS(inner, factories.Keys)
    requires inner in cache && x != inner
    requires root.Open(x).Ok? && GetFSStep(cache, factories, x, root.Open(x).value).fs.Ok?
    requires GetFSStep(cache, factories, x, root.Open(x).value).fs.value.Open(inner).Ok?
    ensures var g := GetFSStep(cache, factories, x, root.Open(x).value);
      Walk(cache, factories, root, ".", [x, inner]) == Outcome(cache[inner].Open("."), g.cache)
  {
    var g := GetFSStep(cache, factories, x, root.Open(x).value);
    GetFSOnlyInserts(cache, factories, x, root.Open(x).value);
    assert [x, inner][1..] == [inner];
    assert [inner][1..] == [];
    assert GetFSStep(g.cache, factories, inner, g.fs.value.Open(inner).value) == Got(Ok(cache[inner]), g.cache);
    assert Walk(g.cache, factories, cache[inner], ".", []) == Outcome(cache[inner].Open("."), g.cache);
    assert Walk(g.cache, factories, g.fs.value, ".", [inner]) == Walk(g.cache, factories, cache[inner], ".", []);
  }

  /** Opening "y.zip/inner.zip" and then "x.zip/inner.zip" on a fresh cache: the second
      open lands in the filesystem built from y's inner container, whatever
      x's inner container holds. */
  lemma SecondOpenReusesFirstInner(factories: map<string, Factory>, root: FS, x: string, y: string, inner: string)
    requires IsChildFS(x, factories.Keys) && IsChildFS(y, factories.Keys) && IsChildFS(inner, factories.Keys)
    requires x != inner && y != inner && x != y
    requires root.Open(y).Ok? && GetFSStep(map[], factories, y, root.Open(y).value).fs.Ok?
    requires var gy := GetFSStep(map[], factories, y, root.Open(y).value);
             gy.fs.value.Open(inner).Ok? && GetFSStep(gy.cache, factories, inner, gy.fs.value.Open(inner).value).fs.Ok?
    requires var c1 := Walk(map[], factories, root, ".", [y, inner]).cache;
             root.Open(x).Ok? && GetFSStep(c1, factories, x, root.Open(x).value).fs.Ok? &&
             GetFSStep(c1, factories, x, root.Open(x).value).fs.value.Open(inner).Ok?
    ensures var gy := GetFSStep(map[], factories, y, root.Open(y).value);
      var yInner := GetFSStep(gy.cache, factories, inner, gy.fs.value.Open(inner).value).fs.value;
      var c1 := Walk(map[], factories, root, ".", [y, inner]).cache;
      Walk(c1, factories, root, ".", [x, inner]).file == yInner.Open(".")
  {
    var gy := GetFSStep(map[], factories, y, root.Open(y).value);
    var g2 := GetFSStep(gy.cache, factories, inner, gy.fs.value.Open(inner).value);
    NestedCacheKeyIsRelative(map[], factories, root, y, inner);
    var c1 := Walk(map[], factories, root, ".", [y, inner]).cache;
    assert c1 == g2.cache;
    assert inner !in gy.cache;
    assert c1[inner] == g2.fs.value;
    RelativeKeyCollides(c1, factories, root, x, inner);
  }

  /** The full path of the sub-path key inside the filesystem entered at prefix. */
  function FullPath(prefix: string, key: string): string
  {
    if key == "." then prefix else Join(prefix, key)
  }

  /** parseElements with the cache keyed by the full accumulated path, so that each
      container has its own entry: `prefix` is the full path of the container the
      walk is in. */
  function WalkFullKey(cache: map<string, FS>, factories: map<string, Factory>, current: FS, prefix: string,
                       key: string, elems: seq<string>): Outcome
    decreases |elems|
  {
    if elems == [] then Outcome(current.Open(key), cache)
    else
      var k := Join(key, elems[0]);
      if !IsChildFS(k, factories.Keys) then WalkFullKey(cache, factories, current, prefix, k, elems[1..])
      else match current.Open(k)
        case Err(e) => Outcome(Err(e), cache)
        case Ok(f) =>
          var full := FullPath(prefix, k);
          var got := GetFSStep(cache, factories, full, f);
          match got.fs
          case Err(e) => Outcome(Err(e), got.cache)
          case Ok(child) => WalkFullKey(got.cache, factories, child, full, ".", elems[1..])
  }

  lemma FullPathJoin(prefix: string, key: string, e: string)
    requires e != "."
    ensures FullPath(prefix, Join(key, e)) == Join(FullPath(prefix, key), e)
  {
    if key != "." && prefix != "." {
      assert (key + "/" + e)[|key|] == '/' && (prefix + "/" + key)[|prefix|] == '/';
      assert prefix + "/" + (key + "/" + e) == (prefix + "/" + key) + "/" + e;
    } else if key != "." {
      assert (key + "/" + e)[|key|] == '/';
    }
  }

  /** With full-path keys, every key the walk adds is a full accumulated prefix of the
      path walked, so containers at different paths never share an entry. */
  lemma {:induction false} FullKeysArePrefixes(cache: map<string, FS>, factories: map<string, Factory>, current: FS,
                                                prefix: string, key: string, elems: seq<string>)
    requires forall i :: 0 <= i < |elems| ==> elems[i] != "."
    ensures forall k :: k in WalkFullKey(cache, factories, current, prefix, key, elems).cache ==>
      k in cache || exists i :: 0 < i <= |elems| && k == Accumulate(FullPath(prefix, key), elems[..i])
    decreases |elems|
  {
    if elems != [] {
      var k := Join(key, elems[0]);
      var start := FullPath(prefix, key);
      FullPathJoin(prefix, key, elems[0]);
      forall i | 0 < i <= |elems| ensures Accumulate(start, elems[..i]) == Accumulate(Join(start, elems[0]), elems[1..][..i - 1]) {
        AccumulateStep(start, elems, i);
      }
      if !IsChildFS(k, factories.Keys) {
        FullKeysArePrefixes(cache, factories, current, prefix, k, elems[1..]);
        var out := WalkFullKey(cache, factories, current, prefix, k, elems[1..]);
        forall kk | kk in out.cache && kk !in cache
          ensures exists i :: 0 < i <= |elems| && kk == Accumulate(start, elems[..i])
        {
          var j :| 0 < j <= |elems[1..]| && kk == Accumulate(FullPath(prefix, k), elems[1..][..j]);
          assert kk == Accumulate(start, elems[..j + 1]);
        }
      } else if current.Open(k).Ok? {
        var full := FullPath(prefix, k);
        var got := GetFSStep(cache, factories, full, current.Open(k).value);
        GetFSOnlyInserts(cache, factories, full, current.Open(k).value);
        assert full == Accumulate(start, elems[..1]);
        if got.fs.Ok? {
          FullKeysArePrefixes(got.cache, factories, got.fs.value, full, ".", elems[1..]);
          var out := WalkFullKey(got.cache, factories, got.fs.value, full, ".", elems[1..]);
          assert FullPath(full, ".") == full;
          forall kk | kk in out.cache && kk !in cache
            ensures exists i :: 0 < i <= |elems| && kk == Accumulate(start, elems[..i])
          {
            if kk in got.cache {
              assert kk == full;
            } else {
              var j :| 0 < j <= |elems[1..]| && kk == Accumulate(full, elems[1..][..j]);
              assert kk == Accumulate(start, elems[..j + 1]);
            }
          }
        }
      }
    }
  }

  /** From the root of a valid path, the full-path walk only adds keys that are
      accumulated prefixes of the path itself. */
  lemma FullKeysOfPath(cache: map<string, FS>, factories: map<string, Factory>, root: FS, name: string)
    requires ValidPath(name) && name != "."
    ensures forall k :: k in WalkFullKey(cache, factories, root, ".", ".", Split(name)).cache ==>
      k in cache || exists i :: 0 < i <= |Split(name)| && k == Accumulate(".", Split(name)[..i])
  {
    var elems := Split(name);
    assert forall i :: 0 <= i < |elems| ==> elems[i] != "." by {
      assert forall i :: 0 <= i < |elems| ==> ValidElement(elems[i]);
    }
    FullKeysArePrefixes(cache, factories, root, ".", ".", elems);
  }

  /** With full-path keys, a walk through y/inner from an empty cache leaves at most
      the keys y and y/inner. */
  lemma FullKeysAfterTwo(factories: map<string, Factory>, root: FS, y: string, inner: string)
    requires y != "." && inner != "."
    ensures WalkFullKey(map[], factories, root, ".", ".", [y, inner]).cache.Keys <= {y, y + "/" + inner}
  {
    FullKeysArePrefixes(map[], factories, root, ".", ".", [y, inner]);
    assert Accumulate(".", [y, inner][..1]) == y by {
      assert [y, inner][..1] == [y];
    }
    assert Accumulate(".", [y, inner][..2]) == y + "/" + inner by {
      assert [y, inner][..2] == [y, inner];
      assert [y, inner][1..] == [inner] && [inner][1..] == [];
      assert Accumulate(".", [y, inner]) == Accumulate(y, [inner]) == Accumulate(Join(y, inner), []);
    }
  }

  /** Distinct slash-free elements x and y give distinct keys x, x/inner, y, y/inner. */
  lemma JoinedKeysDiffer(x: string, y: string, inner: string)
    requires '/' !in x && '/' !in y && x != y
    ensures x !in {y, y + "/" + inner} && x + "/" + inner !in {y, y + "/" + inner, x}
  {
    var xi := x + "/" + inner;
    var yi := y + "/" + inner;
    assert '/' in yi by { assert yi[|y|] == '/'; }
    assert '/' in xi by { assert xi[|x|] == '/'; }
    assert xi != yi by {
      if |x| < |y| {
        assert y[|x|] in y && yi[|x|] == y[|x|] && xi[|x|] == '/';
      } else if |y| < |x| {
        assert x[|y|] in x && xi[|y|] == x[|y|] && yi[|y|] == '/';
      } else {
        assert xi[..|x|] == x && yi[..|y|] == y;
      }
    }
  }

  /** The full-path walk through two containers x/inner from the root, unfolded. */
  lemma WalkFullKeyTwoContainers(c: map<string, FS>, factories: map<string, Factory>, root: FS, x: string,
                                 inner: string)
    requires x != "." && inner != "." && IsChildFS(x, factories.Keys) && IsChildFS(inner, factories.Keys)
    requires root.Open(x).Ok? && GetFSStep(c, factories, x, root.Open(x).value).fs.Ok?
    requires var gx := GetFSStep(c, factories, x, root.Open(x).value);
             gx.fs.value.Open(inner).Ok? &&
             GetFSStep(gx.cache, factories, x + "/" + inner, gx.fs.value.Open(inner).value).fs.Ok?
    ensures var gx := GetFSStep(c, factories, x, root.Open(x).value);
      var gxi := GetFSStep(gx.cache, factories, x + "/" + inner, gx.fs.value.Open(inner).value);
      WalkFullKey(c, factories, root, ".", ".", [x, inner]) == Outcome(gxi.fs.value.Open("."), gxi.cache)
  {
    var gx := GetFSStep(c, factories, x, root.Open(x).value);
    assert WalkFullKey(c, factories, root, ".", ".", [x, inner]) ==
           WalkFullKey(gx.cache, factories, gx.fs.value, x, ".", [inner]);
  }

  /** The corrected counterpart of SecondOpenReusesFirstInner: with full-path keys,
      after a walk through y/inner, a walk through x/inner misses the cache at x and
      at x/inner and opens "." in the filesystem built from x's own inner file. */
  lemma FullKeySecondOpenBuildsOwnInner(factories: map<string, Factory>, root: FS, x: string, y: string,
                                        inner: string)
    requires x != "." && y != "." && inner != "." && '/' !in x && '/' !in y && x != y
    requires IsChildFS(x, factories.Keys) && IsChildFS(inner, factories.Keys)
    requires var c1 := WalkFullKey(map[], factories, root, ".", ".", [y, inner]).cache;
             root.Open(x).Ok? && GetFSStep(c1, factories, x, root.Open(x).value).fs.Ok? &&
             GetFSStep(c1, factories, x, root.Open(x).value).fs.value.Open(inner).Ok?
    requires var c1 := WalkFullKey(map[], factories, root, ".", ".", [y, inner]).cache;
             var gx := GetFSStep(c1, factories, x, root.Open(x).value);
             GetFSStep(gx.cache, factories, x + "/" + inner, gx.fs.value.Open(inner).value).fs.Ok?
    ensures var c1 := WalkFullKey(map[], factories, root, ".", ".", [y, inner]).cache;
      var gx := GetFSStep(c1, factories, x, root.Open(x).value);
      var gxi := GetFSStep(gx.cache, factories, x + "/" + inner, gx.fs.value.Open(inner).value);
      x !in c1 && x + "/" + inner !in gx.cache &&
      WalkFullKey(c1, factories, root, ".", ".", [x, inner]) == Outcome(gxi.fs.value.Open("."), gxi.cache)
  {
    var c1 := WalkFullKey(map[], factories, root, ".", ".", [y, inner]).cache;
    FullKeysAfterTwo(factories, root, y, inner);
    JoinedKeysDiffer(x, y, inner);
    GetFSOnlyInserts(c1, factories, x, root.Open(x).value);
    WalkFullKeyTwoContainers(c1, factories, root, x, inner);
  }

  /** The entry recursiveFile.ReadDir reports for an entry of the underlying listing. */
  function Rewrite(e: DirEntry, exts: set<string>): DirEntry
  {
    if IsChildFS(e.Name(), exts) then InfoEntry(DirInfo(e.Name())) else e
  }

  /** A container in a listing shows as a directory with the same base name; every
      other entry is passed on as it is. */
  lemma RewriteShowsContainersAsDirs(e: DirEntry, exts: set<string>)
    ensures IsChildFS(e.Name(), exts) ==>
      Rewrite(e, exts).IsDir() && Rewrite(e, exts).Type() == ModeDir &&
      Rewrite(e, exts).Name() == Base(e.Name()) && Rewrite(e, exts).Info() == Ok(DirInfo(e.Name()))
    ensures !IsChildFS(e.Name(), exts) ==> Rewrite(e, exts) == e
  {
    DirInfoIsVirtualDirectory(e.Name());
  }

  /** recursiveFile.ReadDir: the underlying handle's answer to ReadDir(n) is `listing`;
      a handle that cannot list fails with "not a directory". */
  method ReadDir(name: string, inner: File, exts: set<string>, listing: Result<seq<DirEntry>>)
    returns (r: Result<seq<DirEntry>>)
    ensures !inner.HasReadDir() ==> r == Err(NotADirectory("readdir", name))
    ensures inner.HasReadDir() && listing.Err? ==> r == Err(listing.error)
    ensures inner.HasReadDir() && listing.Ok? ==>
      r.Ok? && |r.value| == |listing.value| &&
      forall i :: 0 <= i < |listing.value| ==> r.value[i] == Rewrite(listing.value[i], exts)
  {
    if !inner.HasReadDir() {
      return Err(NotADirectory("readdir", name));
    }
    if listing.Err? {
      return Err(listing.error);
    }
    var entries := listing.value;
    var out: seq<DirEntry> := [];
    var i := 0;
    while i < |entries|
      invariant 0 <= i <= |entries|
      invariant |out| == i
      invariant forall j :: 0 <= j < i ==> out[j] == Rewrite(entries[j], exts)
    {
      var e := entries[i];
      if !IsChildFS(e.Name(), exts) {
        out := out + [e];
      } else {
        out := out + [InfoEntry(DirInfo(e.Name()))];
      }
      i := i + 1;
    }
    return Ok(out);
  }

  /** The handle Open returns reports the last element of the full path as its name,
      and every other field from the underlying file. */
  lemma OpenedHandleStat(name: string, f: File, exts: set<string>)
    requires ValidPath(name) && f.Stat().Ok?
    ensures RecursiveFile(name, f, exts).Stat() == Ok(Nameable(name, f.Stat().value))
    ensures RecursiveFile(name, f, exts).Stat().value.Name() == Last(Split(name))
    ensures RecursiveFile(name, f, exts).Stat().value.IsDir() == f.Stat().value.IsDir()
    ensures RecursiveFile(name, f, exts).Stat().value.Size() == f.Stat().value.Size()
    ensures RecursiveFile(name, f, exts).Stat().value.Mode() == f.Stat().value.Mode()
  {
    BaseOfValidPath(name);
  }

  /** recursive.go Recursive */
  class Recursive {
    const root: FS
    const factories: map<string, Factory>
    var instances: map<string, FS>

    /** NewRecursive */
    constructor (root: FS, factories: map<string, Factory>)
      ensures this.root == root && this.factories == factories && instances == map[]
    {
      this.root := root;
      this.factories := factories;
      instances := map[];
    }

    /** Open: invalid paths do not exist; otherwise the walk's file, wrapped so that
        Stat reports the full path and listings show containers as directories. */
    method Open(name: string) returns (r: Result<File>)
      modifies this
      ensures !ValidPath(name) ==> r == Err(NotExist(name)) && instances == old(instances)
      ensures ValidPath(name) ==>
        var o := Walk(old(instances), factories, root, ".", Split(name));
        instances == o.cache &&
        r == (if o.file.Err? then Err(o.file.error) else Ok(RecursiveFile(name, o.file.value, factories.Keys)))
    {
      if !ValidPath(name) {
        return Err(NotExist(name));
      }
      var f := ParseElements(name);
      if f.Err? {
        return Err(f.error);
      }
      return Ok(RecursiveFile(name, f.value, factories.Keys));
    }

    /** parseElements: walk the elements left to right, switching to a container's
        filesystem whenever the accumulated key has a registered extension. */
    method ParseElements(name: string) returns (r: Result<File>)
      modifies this
      ensures Outcome(r, instances) == Walk(old(instances), factories, root, ".", Split(name))
    {
      var elems := Split(name);
      var current := root;
      var key := ".";
      if |elems| == 0 {
        // strings.Split never returns an empty slice.
        assert false;
      }
      var i := 0;
      while i < |elems|
        invariant 0 <= i <= |elems|
        invariant Walk(old(instances), factories, root, ".", elems) == Walk(instances, factories, current, key, elems[i..])
      {
        ghost var tail := elems[i..];
        ghost var before := instances;
        assert tail[0] == elems[i] && tail[1..] == elems[i + 1..];
        ghost var prev := key;
        key := Join(key, elems[i]);
        if !IsChildFS(key, factories.Keys) {
          WalkPlainStep(instances, factories, current, prev, tail);
          i := i + 1;
          continue;
        }
        var f := current.Open(key);
        if f.Err? {
          WalkOpenFails(instances, factories, current, prev, tail);
          return Err(f.error);
        }
        var child := GetFS(key, f.value);
        if child.Err? {
          WalkGetFSFails(before, factories, current, prev, tail);
          return Err(child.error);
        }
        WalkEntersContainer(before, factories, current, prev, tail);
        current := child.value;
        key := ".";
        i := i + 1;
      }
      r := current.Open(key);
    }

    /** getFS: the cached filesystem for name if there is one; otherwise build it with
        the factory for its extension and remember it on success. */
    method GetFS(name: string, f: File) returns (r: Result<FS>)
      modifies this
      ensures Got(r, instances) == GetFSStep(old(instances), factories, name, f)
      ensures name in old(instances) ==> r == Ok(old(instances)[name]) && instances == old(instances)
      ensures name !in old(instances) && Ext(name) !in factories ==>
        r == Err(FSNotFound) && instances == old(instances)
      ensures name !in old(instances) && Ext(name) in factories ==>
        (factories[Ext(name)](f).Err? ==> r == factories[Ext(name)](f) && instances == old(instances)) &&
        (factories[Ext(name)](f).Ok? ==> r == factories[Ext(name)](f) &&
                                         instances == old(instances)[name := r.value])
    {
      if name in instances {
        return Ok(instances[name]);
      }
      var ext := Ext(name);
      if ext !in factories {
        return Err(FSNotFound);
      }
      var factory := factories[ext];
      var built := factory(f);
      if built.Err? {
        return Err(built.error);
      }
      instances := instances[name := built.value];
      return built;
    }
  }
}
