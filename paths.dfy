/** Specification functions for the Go library path helpers the layer relies on:
    fs.ValidPath, strings.Split on "/", path.Join, path.Ext, path.Base and
    strings.TrimLeft with a cutset. They are stated, not verified against Go. */
module Paths {

  /** strings.Split(s, "/"): the pieces between slashes, always at least one. */
  function Split(s: string): (parts: seq<string>)
    ensures |parts| >= 1
    ensures forall i :: 0 <= i < |parts| ==> '/' !in parts[i]
  {
    if |s| == 0 then [""]
    else if s[0] == '/' then [""] + Split(s[1..])
    else
      var rest := Split(s[1..]);
      [[s[0]] + rest[0]] + rest[1..]
  }

  /** strings.Join(parts, "/"). */
  function JoinParts(parts: seq<string>): string
    requires |parts| >= 1
  {
    if |parts| == 1 then parts[0] else parts[0] + "/" + JoinParts(parts[1..])
  }

  function Last<T>(s: seq<T>): T
    requires |s| >= 1
  {
    s[|s| - 1]
  }

  /** Joining the pieces of a split gives back the string. */
  lemma {:induction false} JoinSplit(s: string)
    ensures JoinParts(Split(s)) == s
  {
    if |s| == 0 {
    } else if s[0] == '/' {
      JoinSplit(s[1..]);
      assert s == "/" + s[1..];
    } else {
      JoinSplit(s[1..]);
      var rest := Split(s[1..]);
      if |rest| == 1 {
        assert s == [s[0]] + s[1..];
      } else {
        assert JoinParts(rest) == rest[0] + "/" + JoinParts(rest[1..]);
        assert ([s[0]] + rest[0]) + "/" + JoinParts(rest[1..]) == [s[0]] + JoinParts(rest);
        assert s == [s[0]] + s[1..];
      }
    }
  }

  lemma {:induction false} SplitNoSlash(s: string)
    requires '/' !in s
    ensures Split(s) == [s]
  {
    if |s| > 0 {
      assert '/' !in s[1..] by {
        forall i | 0 <= i < |s[1..]| ensures s[1..][i] != '/' { assert s[1..][i] == s[i + 1]; }
      }
      SplitNoSlash(s[1..]);
      assert s == [s[0]] + s[1..];
    }
  }

  lemma {:induction false} SplitAroundSlash(p: string, t: string)
    requires '/' !in p
    ensures Split(p + "/" + t) == [p] + Split(t)
  {
    if |p| == 0 {
      assert p + "/" + t == "/" + t;
      assert ("/" + t)[1..] == t;
    } else {
      var s := p + "/" + t;
      assert s[0] == p[0];
      assert s[1..] == p[1..] + "/" + t;
      assert '/' !in p[1..] by {
        forall i | 0 <= i < |p[1..]| ensures p[1..][i] != '/' { assert p[1..][i] == p[i + 1]; }
      }
      SplitAroundSlash(p[1..], t);
      assert [p[0]] + p[1..] == p;
    }
  }

  /** Splitting the join of slash-free pieces gives back the pieces. */
  lemma {:induction false} SplitJoin(parts: seq<string>)
    requires |parts| >= 1
    requires forall i :: 0 <= i < |parts| ==> '/' !in parts[i]
    ensures Split(JoinParts(parts)) == parts
  {
    if |parts| == 1 {
      SplitNoSlash(parts[0]);
    } else {
      SplitJoin(parts[1..]);
      SplitAroundSlash(parts[0], JoinParts(parts[1..]));
      assert [parts[0]] + parts[1..] == parts;
    }
  }

  /** A valid element of a slash-separated path. */
  predicate ValidElement(e: string)
  {
    e != "" && e != "." && e != ".."
  }

  /** fs.ValidPath: "." or non-empty, slash-separated elements none of which is "." or "..".
      (Every Dafny string is a sequence of characters, so Go's UTF-8 check has no counterpart.) */
  predicate ValidPath(name: string)
  {
    name == "." ||
    var parts := Split(name);
    forall i :: 0 <= i < |parts| ==> ValidElement(parts[i])
  }

  /** path.Join(key, elem) for the arguments the recursive walk passes: key is "." or a
      clean relative path, elem is a path element. path.Join(".", e) cleans to e. */
  function Join(key: string, elem: string): string
  {
    if key == "." then elem else key + "/" + elem
  }

  /** Folding Join over elements, starting from a key, as parseElements does when no
      container boundary is crossed. */
  function Accumulate(key: string, elems: seq<string>): string
    decreases |elems|
  {
    if elems == [] then key else Accumulate(Join(key, elems[0]), elems[1..])
  }

  lemma {:induction false} AccumulateFrom(key: string, elems: seq<string>)
    requires key != "."
    ensures Accumulate(key, elems) == if elems == [] then key else key + "/" + JoinParts(elems)
    decreases |elems|
  {
    if elems != [] {
      var k := key + "/" + elems[0];
      assert k[|key|] == '/';
      AccumulateFrom(k, elems[1..]);
      if |elems| > 1 {
        assert JoinParts(elems) == elems[0] + "/" + JoinParts(elems[1..]);
        assert k + "/" + JoinParts(elems[1..]) == key + "/" + JoinParts(elems);
      }
    }
  }

  /** Accumulating the elements of a valid path from "." rebuilds the path. */
  lemma AccumulateSplit(name: string)
    requires ValidPath(name)
    ensures Accumulate(".", Split(name)) == name
  {
    var parts := Split(name);
    JoinSplit(name);
    if name == "." {
      assert parts == ["."] by { SplitNoSlash(name); }
    } else {
      assert ValidElement(parts[0]);
      AccumulateFrom(parts[0], parts[1..]);
      assert Accumulate(".", parts) == Accumulate(parts[0], parts[1..]);
      if |parts| > 1 {
        assert JoinParts(parts) == parts[0] + "/" + JoinParts(parts[1..]);
      }
    }
  }

  /** The accumulated key after the first i elements. */
  lemma {:induction false} AccumulateStep(key: string, elems: seq<string>, i: nat)
    requires 0 < i <= |elems|
    ensures Accumulate(key, elems[..i]) == Accumulate(Join(key, elems[0]), elems[1..][..i - 1])
  {
    assert elems[..i][0] == elems[0];
    assert elems[..i][1..] == elems[1..][..i - 1];
  }

  /** path.Ext scanning backwards from index i: the suffix from the last '.' in the final element. */
  function ExtScan(p: string, i: nat): (e: string)
    requires i <= |p|
    ensures e == "" || (0 < i && |e| <= |p| && e == p[|p| - |e|..] && e[0] == '.')
    decreases i
  {
    if i == 0 || p[i - 1] == '/' then ""
    else if p[i - 1] == '.' then p[i - 1..]
    else ExtScan(p, i - 1)
  }

  /** path.Ext: the suffix starting at the last '.' of the last element, or "". */
  function Ext(p: string): (e: string)
    ensures e == "" || (e[0] == '.' && |e| <= |p| && e == p[|p| - |e|..])
  {
    ExtScan(p, |p|)
  }

  /** Scanning back from a point with no '/' after it finds no '/' either. */
  lemma {:induction false} ExtScanNoSlash(p: string, i: nat)
    requires i <= |p| && '/' !in p[i..]
    ensures '/' !in ExtScan(p, i)
    decreases i
  {
    if i == 0 || p[i - 1] == '/' {
    } else if p[i - 1] == '.' {
      assert p[i - 1..] == [p[i - 1]] + p[i..];
    } else {
      assert p[i - 1..] == [p[i - 1]] + p[i..];
      ExtScanNoSlash(p, i - 1);
    }
  }

  /** The extension lies inside the last element: it never holds a '/'. */
  lemma ExtHasNoSlash(p: string)
    ensures '/' !in Ext(p)
  {
    ExtScanNoSlash(p, |p|);
  }

  /** The text after the last '/' (all of s when it has none). */
  function AfterLastSlash(s: string): (t: string)
    ensures '/' !in t
  {
    if |s| == 0 then ""
    else if s[0] == '/' then AfterLastSlash(s[1..])
    else if '/' in s[1..] then AfterLastSlash(s[1..])
    else s
  }

  function TrimTrailingSlashes(s: string): (t: string)
    ensures t == [] || t[|t| - 1] != '/'
    ensures |t| <= |s| && t == s[..|t|]
  {
    if |s| > 0 && s[|s| - 1] == '/' then TrimTrailingSlashes(s[..|s| - 1]) else s
  }

  /** path.Base: "." for "", "/" for all slashes, otherwise the last element
      after trailing slashes are dropped. */
  function Base(p: string): (b: string)
  {
    if p == "" then "."
    else
      var q := TrimTrailingSlashes(p);
      if q == "" then "/" else AfterLastSlash(q)
  }

  lemma {:induction false} SplitSingle(t: string)
    ensures |Split(t)| == 1 <==> '/' !in t
  {
    if |t| > 0 {
      SplitSingle(t[1..]);
      assert '/' in t <==> t[0] == '/' || '/' in t[1..] by {
        assert t == [t[0]] + t[1..];
      }
    }
  }

  lemma {:induction false} AfterLastSlashIsLastPart(s: string)
    ensures AfterLastSlash(s) == Last(Split(s))
  {
    if |s| > 0 {
      AfterLastSlashIsLastPart(s[1..]);
      SplitSingle(s[1..]);
      if s[0] != '/' && '/' !in s[1..] {
        SplitNoSlash(s);
      }
    }
  }

  lemma {:induction false} SlashEndGivesEmptyLastPart(s: string)
    requires |s| > 0 && s[|s| - 1] == '/'
    ensures Last(Split(s)) == ""
  {
    if |s| > 1 {
      SlashEndGivesEmptyLastPart(s[1..]);
      SplitSingle(s[1..]);
      assert s[1..][|s[1..]| - 1] == '/';
    }
  }

  /** The base name of a valid path is its last element. */
  lemma BaseOfValidPath(name: string)
    requires ValidPath(name)
    ensures Base(name) == Last(Split(name))
  {
    var parts := Split(name);
    if name == "." {
      SplitNoSlash(name);
    } else {
      assert ValidElement(parts[|parts| - 1]);
      if |name| > 0 && name[|name| - 1] == '/' {
        SlashEndGivesEmptyLastPart(name);
      }
      if name == "" {
        assert parts == [""];
      }
      AfterLastSlashIsLastPart(name);
    }
  }

  /** strings.TrimLeft(s, cutset): drop every leading character that occurs in cutset. */
  function TrimLeft(s: string, cutset: string): (t: string)
    ensures |t| <= |s| && t == s[|s| - |t|..]
    ensures forall i :: 0 <= i < |s| - |t| ==> s[i] in cutset
    ensures t == [] || t[0] !in cutset
  {
    if |s| > 0 && s[0] in cutset then TrimLeft(s[1..], cutset) else s
  }

  predicate HasPrefix(s: string, prefix: string)
  {
    |prefix| <= |s| && s[..|prefix|] == prefix
  }

  /** TrimLeft drops exactly the leading run of cutset characters. */
  lemma {:induction false} TrimLeftDropsRun(s: string, cutset: string, n: nat)
    requires n <= |s|
    requires forall i :: 0 <= i < n ==> s[i] in cutset
    requires n == |s| || s[n] !in cutset
    ensures TrimLeft(s, cutset) == s[n..]
  {
    if n > 0 {
      TrimLeftDropsRun(s[1..], cutset, n - 1);
      assert s[1..][n - 1..] == s[n..];
    }
  }

  /** TrimLeft with a key-derived cutset is not a prefix strip: "id1/1.txt" loses
      the '1' of its file name as well as the "id1/" it starts with. */
  lemma TrimLeftIsNotPrefixStrip()
    ensures HasPrefix("id1/1.txt", "id1/")
    ensures TrimLeft("id1/1.txt", "id1/") == ".txt"
    ensures "id1/1.txt"[|"id1/"|..] == "1.txt"
  {
    var s: string := "id1/1.txt";
    var c: string := "id1/";
    assert s[..4] == c;
    assert s[0] == c[0] && s[1] == c[1] && s[2] == c[2] && s[3] == c[3] && s[4] == c[2];
    assert s[5] == '.' && '.' !in c;
    TrimLeftDropsRun(s, c, 5);
    assert s[5..] == ".txt";
  }
}
