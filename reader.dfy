/** reader.go: diskTeeReader, which spools every byte pulled from a sequential
    source so that earlier offsets can be read again. The source is the byte
    sequence `data` followed by the error `tail` (io.EOF for a clean end); the spool
    file is the sequence `spool`; `fo` and `to` are the two counters of the source. */
module Tee {
  import opened Vfs

  /** The mutable part of a diskTeeReader. */
  datatype State = State(spool: seq<byte>, fo: nat, to: nat)

  /** What a read call hands back: the bytes placed in p[:n] and the error. */
  datatype Reply = Reply(bytes: seq<byte>, err: Option<Error>)

  datatype Step = Step(reply: Reply, state: State)

  /** The spool is a prefix of the source and `to` counts it: every byte pulled
      through the tee is also written to the spool. */
  predicate Consistent(data: seq<byte>, st: State)
  {
    |st.spool| <= |data| && st.to == |st.spool| && st.spool == data[..|st.spool|]
  }

  function MinNat(a: nat, b: nat): nat
  {
    if a <= b then a else b
  }

  /** The sequential source asked for k bytes at position pos: as many as it has,
      and its tail error only once nothing is left. */
  function SourceRead(data: seq<byte>, tail: Error, pos: nat, k: nat): Reply
    requires pos <= |data|
  {
    var n := MinNat(k, |data| - pos);
    Reply(data[pos..pos + n], if n == 0 && k > 0 then Some(tail) else None)
  }

  /** diskTeeReader.Read with a buffer of length k: straight through the tee. */
  function ReadStep(data: seq<byte>, tail: Error, st: State, k: nat): Step
    requires Consistent(data, st)
  {
    var r := SourceRead(data, tail, st.to, k);
    Step(r, State(st.spool + r.bytes, st.fo, st.to + |r.bytes|))
  }

  /** io.CopyN(ioutil.Discard, tr, need): pull up to need bytes through the tee. */
  function Drain(data: seq<byte>, st: State, need: nat): State
    requires Consistent(data, st)
  {
    var w := MinNat(need, |data| - st.to);
    State(st.spool + data[st.to..st.to + w], st.fo, st.to + w)
  }

  /** os.File.ReadAt on the spool: a negative offset fails; otherwise the bytes from off
      that the spool holds, with io.EOF when fewer than k are there. */
  function SpoolReadAt(spool: seq<byte>, k: nat, off: int): (r: Reply)
    ensures |r.bytes| <= k
    ensures forall i :: 0 <= i < |r.bytes| ==> 0 <= off + i < |spool| && r.bytes[i] == spool[off + i]
  {
    if off < 0 then Reply([], Some(NegativeOffset))
    else if off >= |spool| then Reply([], if 0 < k then Some(EOF) else None)
    else
      var n := MinNat(k, |spool| - off);
      Reply(spool[off..off + n], if n < k then Some(EOF) else None)
  }

  /** diskTeeReader.ReadAt as written: the drain is decided against fo, the running
      total of bytes ReadAt has returned, and fo then grows by the bytes returned. */
  function ReadAtStep(data: seq<byte>, tail: Error, st: State, k: nat, off: int): Step
    requires Consistent(data, st)
  {
    var tb := off + k;
    var need: int := tb - st.fo;
    var st1 := if need > 0 then Drain(data, st, need) else st;
    if need > 0 && st1.to - st.to < need && tail != EOF then Step(Reply([], Some(tail)), st1)
    else
      var r := SpoolReadAt(st1.spool, k, off);
      Step(r, st1.(fo := st1.fo + |r.bytes|))
  }

  /** ReadAt with the drain decided against the spooled count `to`, the evident intent
      of the byte-count check: drain until the spool reaches off + k. */
  function ReadAtSpooledStep(data: seq<byte>, tail: Error, st: State, k: nat, off: int): Step
    requires Consistent(data, st)
  {
    var tb := off + k;
    var need: int := tb - st.to;
    var st1 := if need > 0 then Drain(data, st, need) else st;
    if need > 0 && st1.to - st.to < need && tail != EOF then Step(Reply([], Some(tail)), st1)
    else
      var r := SpoolReadAt(st1.spool, k, off);
      Step(r, st1.(fo := st1.fo + |r.bytes|))
  }

  /** Read returns at most k next source bytes after the spool, appends them to the
      spool, adds their number to `to`, leaves fo alone, and reports the source's tail
      error only when nothing is left. */
  lemma ReadAdvances(data: seq<byte>, tail: Error, st: State, k: nat)
    requires Consistent(data, st)
    ensures var s := ReadStep(data, tail, st, k);
      Consistent(data, s.state) &&
      |s.reply.bytes| == MinNat(k, |data| - st.to) &&
      s.reply.bytes == data[st.to..st.to + |s.reply.bytes|] &&
      s.state.spool == st.spool + s.reply.bytes &&
      s.state.to == st.to + |s.reply.bytes| && s.state.fo == st.fo &&
      s.reply.err == (if st.to == |data| && k > 0 then Some(tail) else None)
  {
    var s := ReadStep(data, tail, st, k);
    assert s.state.spool == data[..|s.state.spool|];
  }

  lemma DrainKeepsPrefix(data: seq<byte>, st: State, need: nat)
    requires Consistent(data, st)
    ensures var d := Drain(data, st, need);
      Consistent(data, d) && d.fo == st.fo &&
      d.to == st.to + MinNat(need, |data| - st.to) && d.spool[..|st.spool|] == st.spool
  {
    var d := Drain(data, st, need);
    assert d.spool == data[..|d.spool|];
    assert d.spool[..|st.spool|] == st.spool;
  }

  /** ReadAt keeps the spool a prefix of the source that only grows, never lowers
      either counter, and adds to fo exactly the number of bytes it returns. */
  lemma ReadAtKeepsConsistent(data: seq<byte>, tail: Error, st: State, k: nat, off: int)
    requires Consistent(data, st)
    ensures var s := ReadAtStep(data, tail, st, k, off);
      Consistent(data, s.state) && |s.reply.bytes| <= k &&
      s.state.to >= st.to && s.state.spool[..|st.spool|] == st.spool &&
      s.state.fo == st.fo + |s.reply.bytes|
  {
    var need: int := off + k - st.fo;
    if need > 0 {
      DrainKeepsPrefix(data, st, need);
    }
  }

  /** When off + k passes fo, ReadAt first drains min(off + k - fo, remaining) source
      bytes into the spool; otherwise the spool is untouched. */
  lemma ReadAtDrains(data: seq<byte>, tail: Error, st: State, k: nat, off: int)
    requires Consistent(data, st)
    ensures var s := ReadAtStep(data, tail, st, k, off);
      (off + k > st.fo ==> s.state.to == st.to + MinNat(off + k - st.fo, |data| - st.to)) &&
      (off + k <= st.fo ==> s.state.spool == st.spool && s.state.to == st.to)
  {
  }

  /** A drain that ends early on io.EOF is not an error of ReadAt; one that ends on
      any other error is returned with no bytes. */
  lemma ReadAtDrainError(data: seq<byte>, tail: Error, st: State, k: nat, off: int)
    requires Consistent(data, st)
    requires off + k - st.fo > |data| - st.to
    ensures tail != EOF ==> ReadAtStep(data, tail, st, k, off).reply == Reply([], Some(tail))
    ensures tail == EOF ==>
      ReadAtStep(data, tail, st, k, off).reply ==
      SpoolReadAt(ReadAtStep(data, tail, st, k, off).state.spool, k, off)
  {
  }

  /** Whatever ReadAt returns is a range of the spool: from off up to off + k or the end
      of the spool, whichever comes first, with io.EOF exactly on a short read. */
  lemma SpoolReadAtRange(spool: seq<byte>, k: nat, off: int)
    requires off >= 0
    ensures var r := SpoolReadAt(spool, k, off);
      var hi := if off + k <= |spool| then off + k else |spool|;
      (off <= |spool| ==> r.bytes == spool[off..hi]) && (off > |spool| ==> r.bytes == []) &&
      r.err == (if |r.bytes| < k then Some(EOF) else None)
  {
  }

  /** Every byte ReadAt returns is the source byte at the same offset. */
  lemma ReadAtBytesMatchSource(data: seq<byte>, tail: Error, st: State, k: nat, off: int)
    requires Consistent(data, st)
    ensures var r := ReadAtStep(data, tail, st, k, off).reply;
      forall i :: 0 <= i < |r.bytes| ==> 0 <= off + i < |data| && r.bytes[i] == data[off + i]
  {
    var s := ReadAtStep(data, tail, st, k, off);
    ReadAtKeepsConsistent(data, tail, st, k, off);
    var r := s.reply;
    forall i | 0 <= i < |r.bytes| ensures 0 <= off + i < |data| && r.bytes[i] == data[off + i] {
      if r != Reply([], Some(tail)) {
        assert r.bytes[i] == s.state.spool[off + i];
      }
    }
  }

  /** The state of a reader just created: an empty spool and both counters at 0. */
  function Fresh(): State
  {
    State([], 0, 0)
  }

  /** On a reader just created, ReadAt(p, off) returns exactly the source bytes from off
      up to off + len(p) or the end of the source. */
  lemma FreshReadAtExact(data: seq<byte>, tail: Error, k: nat, off: int)
    requires off >= 0 && (tail == EOF || off + k <= |data|)
    ensures var r := ReadAtStep(data, tail, Fresh(), k, off).reply;
      var hi := if off + k <= |data| then off + k else |data|;
      (off <= |data| ==> r.bytes == data[off..hi]) && (off > |data| ==> r.bytes == []) &&
      r.err == (if |r.bytes| < k then Some(EOF) else None)
  {
    var s := ReadAtStep(data, tail, Fresh(), k, off);
    ReadAtKeepsConsistent(data, tail, Fresh(), k, off);
    SpoolReadAtRange(s.state.spool, k, off);
    if off + k > 0 {
      DrainKeepsPrefix(data, Fresh(), off + k);
    }
  }

  /** ReadAt(p[:7], 8) on a fresh reader over a source whose bytes 8..15 spell
      "generic" returns those seven bytes and no error. */
  lemma FreshReadsGeneric(data: seq<byte>, tail: Error)
    requires |data| >= 15 && data[8..15] == [103, 101, 110, 101, 114, 105, 99]
    ensures ReadAtStep(data, tail, Fresh(), 7, 8).reply == Reply([103, 101, 110, 101, 114, 105, 99], None)
  {
    FreshReadAtExact(data, tail, 7, 8);
  }

  /** As written, fo counts bytes returned rather than bytes spooled, so it can run ahead
      of the spool: reading the first ten bytes twice sets fo to 20 while only ten bytes
      are spooled, and a read of bytes 10..20 then gets nothing and io.EOF although the
      source holds them. */
  lemma StaleCursorShortRead(data: seq<byte>)
    requires |data| >= 20
    ensures var s1 := ReadAtStep(data, EOF, Fresh(), 10, 0).state;
      var s2 := ReadAtStep(data, EOF, s1, 10, 0).state;
      s2.fo == 20 && |s2.spool| == 10 &&
      ReadAtStep(data, EOF, s2, 10, 10).reply == Reply([], Some(EOF))
  {
    var s1 := ReadAtStep(data, EOF, Fresh(), 10, 0).state;
    DrainKeepsPrefix(data, Fresh(), 10);
    assert s1.to == 10 && |s1.spool| == 10 && s1.fo == 10;
    var s2 := ReadAtStep(data, EOF, s1, 10, 0).state;
    assert s2.spool == s1.spool && s2.fo == 20;
  }

  lemma SpooledKeepsConsistent(data: seq<byte>, tail: Error, st: State, k: nat, off: int)
    requires Consistent(data, st)
    ensures var s := ReadAtSpooledStep(data, tail, st, k, off);
      Consistent(data, s.state) && s.state.to >= st.to && s.state.spool[..|st.spool|] == st.spool &&
      s.state.fo == st.fo + |s.reply.bytes| &&
      (off + k > st.to ==> s.state.to == st.to + MinNat(off + k - st.to, |data| - st.to))
  {
    var need: int := off + k - st.to;
    if need > 0 {
      DrainKeepsPrefix(data, st, need);
    }
  }

  /** With the drain decided against the spooled count, ReadAt returns exactly the source
      bytes from off up to off + k or the end of the source, whatever was read before. */
  lemma SpooledReadAtExact(data: seq<byte>, tail: Error, st: State, k: nat, off: int)
    requires Consistent(data, st)
    requires off >= 0 && (tail == EOF || off + k <= |data|)
    ensures var r := ReadAtSpooledStep(data, tail, st, k, off).reply;
      var hi := if off + k <= |data| then off + k else |data|;
      (off <= |data| ==> r.bytes == data[off..hi]) && (off > |data| ==> r.bytes == []) &&
      r.err == (if |r.bytes| < k then Some(EOF) else None)
  {
    var s := ReadAtSpooledStep(data, tail, st, k, off);
    SpooledKeepsConsistent(data, tail, st, k, off);
    SpoolReadAtRange(s.state.spool, k, off);
    var hi := if off + k <= |data| then off + k else |data|;
    if off <= |data| {
      var sp := s.state.spool;
      assert |sp| >= hi;
      assert sp[off..if off + k <= |sp| then off + k else |sp|] == data[off..hi];
    }
  }

  /** The same three reads as StaleCursorShortRead, with the drain decided against the
      spooled count: the third read gets source bytes 10..20. */
  lemma SpooledRereadSucceeds(data: seq<byte>)
    requires |data| >= 20
    ensures var s1 := ReadAtSpooledStep(data, EOF, Fresh(), 10, 0).state;
      var s2 := ReadAtSpooledStep(data, EOF, s1, 10, 0).state;
      ReadAtSpooledStep(data, EOF, s2, 10, 10).reply == Reply(data[10..20], None)
  {
    var s1 := ReadAtSpooledStep(data, EOF, Fresh(), 10, 0).state;
    SpooledKeepsConsistent(data, EOF, Fresh(), 10, 0);
    var s2 := ReadAtSpooledStep(data, EOF, s1, 10, 0).state;
    SpooledKeepsConsistent(data, EOF, s1, 10, 0);
    SpooledReadAtExact(data, EOF, s2, 10, 10);
  }

  /** reader.go diskTeeReader. */
  class DiskTeeReader {
    const data: seq<byte>
    const tail: Error
    var spool: seq<byte>
    var fo: nat
    var to: nat

    function Snapshot(): State
      reads this
    {
      State(spool, fo, to)
    }

    ghost predicate Valid()
      reads this
    {
      Consistent(data, Snapshot())
    }

    /** newDiskTeeReader with the scratch file created: an empty spool. */
    constructor (data: seq<byte>, tail: Error)
      ensures this.data == data && this.tail == tail && Snapshot() == Fresh() && Valid()
    {
      this.data := data;
      this.tail := tail;
      spool := [];
      fo := 0;
      to := 0;
    }

    /** Read(p) with len(p) == k: the source's next bytes, copied to the spool too. */
    method Read(k: nat) returns (bytes: seq<byte>, err: Option<Error>)
      requires Valid()
      modifies this
      ensures Valid()
      ensures Step(Reply(bytes, err), Snapshot()) == ReadStep(data, tail, old(Snapshot()), k)
    {
      var n := MinNat(k, |data| - to);
      bytes := data[to..to + n];
      err := if n == 0 && k > 0 then Some(tail) else None;
      spool := spool + bytes;
      to := to + n;
      assert spool == data[..|spool|];
    }

    /** ReadAt(p, off) with len(p) == k, as written. */
    method ReadAt(k: nat, off: int) returns (bytes: seq<byte>, err: Option<Error>)
      requires Valid()
      modifies this
      ensures Valid()
      ensures Step(Reply(bytes, err), Snapshot()) == ReadAtStep(data, tail, old(Snapshot()), k, off)
    {
      ghost var st := Snapshot();
      ReadAtKeepsConsistent(data, tail, st, k, off);
      var tb := off + k;
      if tb > fo {
        var need: nat := tb - fo;
        var w := MinNat(need, |data| - to);
        spool := spool + data[to..to + w];
        to := to + w;
        if w < need && tail != EOF {
          return [], Some(tail);
        }
      }
      var r := SpoolReadAt(spool, k, off);
      bytes, err := r.bytes, r.err;
      fo := fo + |bytes|;
    }

    /** ReadAt with the drain decided against the spooled count. */
    method ReadAtSpooled(k: nat, off: int) returns (bytes: seq<byte>, err: Option<Error>)
      requires Valid()
      modifies this
      ensures Valid()
      ensures Step(Reply(bytes, err), Snapshot()) == ReadAtSpooledStep(data, tail, old(Snapshot()), k, off)
    {
      ghost var st := Snapshot();
      SpooledKeepsConsistent(data, tail, st, k, off);
      var tb := off + k;
      if tb > to {
        var need: nat := tb - to;
        var w := MinNat(need, |data| - to);
        spool := spool + data[to..to + w];
        to := to + w;
        if w < need && tail != EOF {
          return [], Some(tail);
        }
      }
      var r := SpoolReadAt(spool, k, off);
      bytes, err := r.bytes, r.err;
      fo := fo + |bytes|;
    }
  }
}
