/** internal/logbuf/logbuf.go: the ring buffer behind the log endpoint. */
module LogBuf {

  newtype byte = x: int | 0 <= x < 256

  type Bytes = seq<byte>

  const NEWLINE: byte := 10

  datatype Entry = Entry(time: int, message: Bytes)

  // ---------- splitting ----------

  /** bytes.TrimRight(p, "\n") */
  function TrimRight(p: Bytes): Bytes {
    if p != [] && p[|p| - 1] == NEWLINE then TrimRight(p[..|p| - 1]) else p
  }

  /** One more byte on the last line, or a new last line. */
  function Extend(lines: seq<Bytes>, c: byte): (r: seq<Bytes>)
    requires lines != []
    ensures r != []
  {
    if c == NEWLINE then lines + [[]] else lines[..|lines| - 1] + [lines[|lines| - 1] + [c]]
  }

  /** bytes.Split(p, "\n"): never empty, one piece more than there are separators. */
  function Split(p: Bytes): (r: seq<Bytes>)
    ensures r != []
  {
    if p == [] then [[]] else Extend(Split(p[..|p| - 1]), p[|p| - 1])
  }

  /** A line is stored unless it is empty. */
  function Kept(line: Bytes): seq<Bytes> {
    if line == [] then [] else [line]
  }

  function NonEmpty(lines: seq<Bytes>): seq<Bytes> {
    if lines == [] then [] else NonEmpty(lines[..|lines| - 1]) + Kept(lines[|lines| - 1])
  }

  /** The messages one Write stores. */
  function Messages(p: Bytes): seq<Bytes> {
    NonEmpty(Split(TrimRight(p)))
  }

  // ---------- reference: maximal newline-free runs ----------

  /** Length of the leading newline-free run. */
  function RunLength(p: Bytes): (k: nat)
    ensures k <= |p| && (forall i :: 0 <= i < k ==> p[i] != NEWLINE) && (k < |p| ==> p[k] == NEWLINE)
  {
    if p == [] || p[0] == NEWLINE then 0 else 1 + RunLength(p[1..])
  }

  /** The non-empty maximal newline-free runs of p, in order, scanned left to right. */
  function Runs(p: Bytes): seq<Bytes>
    decreases |p|
  {
    var k := RunLength(p);
    Kept(p[..k]) + if k == |p| then [] else Runs(p[k + 1..])
  }

  lemma {:induction false} NonEmptyAppend(a: seq<Bytes>, b: seq<Bytes>)
    ensures NonEmpty(a + b) == NonEmpty(a) + NonEmpty(b)
  {
    if b == [] {
      assert a + b == a;
    } else {
      assert (a + b)[..|a + b| - 1] == a + b[..|b| - 1];
      NonEmptyAppend(a, b[..|b| - 1]);
    }
  }

  lemma NonEmptyOne(line: Bytes)
    ensures NonEmpty([line]) == Kept(line)
  {
    assert [line][..0] == [];
  }

  lemma SplitSnoc(p: Bytes, c: byte)
    ensures Split(p + [c]) == Extend(Split(p), c)
  {
    assert (p + [c])[..|p|] == p;
  }

  lemma ExtendLater(a: seq<Bytes>, b: seq<Bytes>, c: byte)
    requires b != []
    ensures Extend(a + b, c) == a + Extend(b, c)
  {
    assert (a + b)[..|a + b| - 1] == a + b[..|b| - 1];
  }

  /** Splitting at a newline splits the pieces. */
  lemma {:induction false} SplitAtNewline(a: Bytes, b: Bytes)
    ensures Split(a + [NEWLINE] + b) == Split(a) + Split(b)
  {
    var w := a + [NEWLINE];
    if b == [] {
      assert w + b == w;
      SplitSnoc(a, NEWLINE);
    } else {
      var init, c := b[..|b| - 1], b[|b| - 1];
      assert w + b == (w + init) + [c];
      SplitAtNewline(a, init);
      SplitSnoc(w + init, c);
      ExtendLater(Split(a), Split(init), c);
    }
  }

  lemma {:induction false} TrimKeepsMessages(p: Bytes)
    ensures Messages(p) == NonEmpty(Split(p))
  {
    if p != [] && p[|p| - 1] == NEWLINE {
      var init := p[..|p| - 1];
      TrimKeepsMessages(init);
      assert Split(p) == Split(init) + [[]];
      NonEmptyAppend(Split(init), [[]]);
      NonEmptyOne([]);
    }
  }

  lemma {:induction false} SplitWithoutNewline(p: Bytes)
    requires forall i :: 0 <= i < |p| ==> p[i] != NEWLINE
    ensures Split(p) == [p]
  {
    if p != [] {
      SplitWithoutNewline(p[..|p| - 1]);
      assert p == p[..|p| - 1] + [p[|p| - 1]];
    }
  }

  /** The first line of a + newline + b is a. */
  lemma FirstLineSplit(a: Bytes, b: Bytes)
    requires forall i :: 0 <= i < |a| ==> a[i] != NEWLINE
    ensures NonEmpty(Split(a + [NEWLINE] + b)) == Kept(a) + NonEmpty(Split(b))
  {
    SplitAtNewline(a, b);
    SplitWithoutNewline(a);
    NonEmptyAppend([a], Split(b));
    NonEmptyOne(a);
  }

  lemma Cut(p: Bytes, k: nat)
    requires k < |p| && p[k] == NEWLINE
    ensures p == p[..k] + [NEWLINE] + p[k + 1..]
  {
  }

  lemma {:induction false} SplitGivesRuns(p: Bytes)
    ensures NonEmpty(Split(p)) == Runs(p)
    decreases |p|
  {
    var k := RunLength(p);
    if k < |p| {
      Cut(p, k);
      FirstLineSplit(p[..k], p[k + 1..]);
      SplitGivesRuns(p[k + 1..]);
    } else {
      assert p[..k] == p;
      SplitWithoutNewline(p);
      NonEmptyOne(p);
    }
  }

  /** Stored messages are exactly the non-empty maximal newline-free runs of the input, in order. */
  lemma MessagesAreRuns(p: Bytes)
    ensures Messages(p) == Runs(p)
  {
    TrimKeepsMessages(p);
    SplitGivesRuns(p);
  }

  lemma MessagesAfterNewline(a: Bytes, q: Bytes)
    ensures Messages(a + [NEWLINE] + q) == NonEmpty(Split(a)) + Messages(q)
  {
    SplitAtNewline(a, q);
    NonEmptyAppend(Split(a), Split(q));
    TrimKeepsMessages(a + [NEWLINE] + q);
    TrimKeepsMessages(q);
  }

  lemma NoMessages()
    ensures Messages([]) == []
  {
    NonEmptyOne([]);
  }

  lemma TerminatedMessages(a: Bytes)
    ensures Messages(a + [NEWLINE]) == NonEmpty(Split(a))
  {
    MessagesAfterNewline(a, []);
    NoMessages();
    assert a + [NEWLINE] + [] == a + [NEWLINE];
  }

  /**
   Line splitting is a homomorphism at newlines: writing the newline-terminated p and then q stores what
   writing them at once stores.
   */
  lemma SplittingIsHomomorphic(p: Bytes, q: Bytes)
    requires p != [] && p[|p| - 1] == NEWLINE
    ensures Messages(p + q) == Messages(p) + Messages(q)
  {
    assert p == p[..|p| - 1] + [NEWLINE];
    MessagesAfterNewline(p[..|p| - 1], q);
    TerminatedMessages(p[..|p| - 1]);
  }

  /** The newline is needed: without one the last line of p and the first of q are one message. */
  lemma WithoutNewlineLinesJoin(p: Bytes, q: Bytes)
    requires p != [] && q != [] && NEWLINE !in p && NEWLINE !in q
    ensures Messages(p + q) == [p + q] && Messages(p) + Messages(q) == [p, q]
  {
    OneLine(p);
    OneLine(q);
    OneLine(p + q);
  }

  lemma OneLine(p: Bytes)
    requires p != [] && NEWLINE !in p
    ensures Messages(p) == [p]
  {
    TrimKeepsMessages(p);
    SplitWithoutNewline(p);
    NonEmptyOne(p);
  }

  /**
   What Write stores, in three clauses that determine it for every input: nothing for no bytes, one message for a
   stretch without the byte 10, and at a byte 10 the messages of what stands before it and then of what follows.
   */
  lemma MessagesAreCutAtTens(a: Bytes, q: Bytes)
    ensures Messages([]) == []
    ensures a != [] && (forall i :: 0 <= i < |a| ==> a[i] != 10) ==> Messages(a) == [a]
    ensures Messages(a + [10] + q) == Messages(a) + Messages(q)
  {
    NoMessages();
    if a != [] && forall i :: 0 <= i < |a| ==> a[i] != 10 { OneLine(a); }
    assert [10] == [NEWLINE];
    MessagesAfterNewline(a, q);
    TrimKeepsMessages(a);
  }

  // ---------- the ring ----------

  function LastN(s: seq<Entry>, n: nat): (r: seq<Entry>)
    ensures |r| == (if n < |s| then n else |s|) && forall i :: 0 <= i < |r| ==> r[i] == s[|s| - |r| + i]
  {
    if n >= |s| then s else s[|s| - n..]
  }

  function Stamp(time: int, msgs: seq<Bytes>): (r: seq<Entry>)
    ensures |r| == |msgs| && forall i :: 0 <= i < |msgs| ==> r[i] == Entry(time, msgs[i])
  {
    seq(|msgs|, i requires 0 <= i < |msgs| => Entry(time, msgs[i]))
  }

  /** What the first i lines of a Write store. */
  ghost function Stored(time: int, lines: seq<Bytes>, i: nat): seq<Entry>
    requires i <= |lines|
  {
    Stamp(time, NonEmpty(lines[..i]))
  }

  lemma StoredStep(time: int, lines: seq<Bytes>, i: nat)
    requires i < |lines|
    ensures Stored(time, lines, i + 1)
         == Stored(time, lines, i) + if lines[i] == [] then [] else [Entry(time, lines[i])]
  {
    assert lines[..i + 1] == lines[..i] + [lines[i]];
    NonEmptyAppend(lines[..i], [lines[i]]);
    NonEmptyOne(lines[i]);
  }

  lemma StoredAll(time: int, p: Bytes, lines: seq<Bytes>)
    requires lines == Split(TrimRight(p))
    ensures Stored(time, lines, |lines|) == Stamp(time, Messages(p))
  {
    assert lines[..|lines|] == lines;
  }

  /** Reducing an index that is less than two turns ahead. */
  lemma OneTurn(x: nat, cap: nat)
    requires cap > 0 && x < 2 * cap
    ensures x % cap == if x < cap then x else x - cap
  {
  }

  /** A ring of slots, next write position and wrap flag hold the tail of everything written. */
  ghost predicate RingOK(slots: seq<Entry>, pos: nat, full: bool, written: seq<Entry>) {
    && pos < |slots|
    && (!full ==> written == slots[..pos])
    && (full ==> |written| >= |slots| && written[|written| - |slots|..] == slots[pos..] + slots[..pos])
  }

  lemma PutFlat(slots: seq<Entry>, pos: nat, written: seq<Entry>, e: Entry)
    requires RingOK(slots, pos, false, written)
    ensures pos + 1 < |slots| ==> RingOK(slots[pos := e], pos + 1, false, written + [e])
    ensures pos + 1 == |slots| ==> RingOK(slots[pos := e], 0, true, written + [e])
  {
    var t := slots[pos := e];
    assert t[..pos + 1] == slots[..pos] + [e];
    assert pos + 1 == |slots| ==> t[..pos + 1] == t && t[0..] + t[..0] == t;
  }

  lemma PutWrapped(slots: seq<Entry>, pos: nat, written: seq<Entry>, e: Entry)
    requires RingOK(slots, pos, true, written)
    ensures pos + 1 < |slots| ==> RingOK(slots[pos := e], pos + 1, true, written + [e])
    ensures pos + 1 == |slots| ==> RingOK(slots[pos := e], 0, true, written + [e])
  {
    var t, cap, n := slots[pos := e], |slots|, |written|;
    var window := slots[pos..] + slots[..pos];
    assert (written + [e])[n + 1 - cap..] == written[n - cap..][1..] + [e];
    assert window[1..] + [e] == t[pos + 1..] + t[..pos + 1];
    assert pos + 1 == cap ==> t[pos + 1..] + t[..pos + 1] == t[0..] + t[..0];
  }

  lemma PutKeepsRing(slots: seq<Entry>, pos: nat, full: bool, written: seq<Entry>, e: Entry)
    requires RingOK(slots, pos, full, written)
    ensures
      var wraps := pos + 1 == |slots|;
      RingOK(slots[pos := e], if wraps then 0 else pos + 1, full || wraps, written + [e])
  {
    if full { PutWrapped(slots, pos, written, e); } else { PutFlat(slots, pos, written, e); }
  }

  class Buffer {
    var entries: array<Entry>
    var pos: nat
    var full: bool
    ghost var written: seq<Entry> // everything ever stored

    ghost predicate Valid()
      reads this, entries
    {
      RingOK(entries[..], pos, full, written)
    }

    /** New() passes 1000. */
    constructor (capacity: nat)
      requires capacity > 0
      ensures Valid() && written == [] && entries.Length == capacity && fresh(entries)
    {
      entries := new Entry[capacity](_ => Entry(0, []));
      pos, full := 0, false;
      written := [];
    }

    method Write(p: Bytes, now: int) returns (n: nat)
      requires Valid()
      modifies this`pos, this`full, this`written, entries
      ensures Valid() && entries == old(entries)
      ensures n == |p|
      ensures written == old(written) + Stamp(now, Messages(p))
    {
      var lines := Split(TrimRight(p));
      ghost var stored: seq<Entry> := [];
      for i := 0 to |lines|
        invariant Valid() && entries == old(entries)
        invariant written == old(written) + stored && stored == Stored(now, lines, i)
      {
        StoredStep(now, lines, i);
        var msg := lines[i];
        if msg == [] { continue; }
        Put(Entry(now, msg));
        stored := stored + [Entry(now, msg)];
      }
      StoredAll(now, p, lines);
      n := |p|;
    }

    /** The body of Write's loop: store, advance, wrap. */
    method Put(e: Entry)
      requires Valid()
      modifies this`pos, this`full, this`written, entries
      ensures Valid() && entries == old(entries)
      ensures written == old(written) + [e]
    {
      PutKeepsRing(entries[..], pos, full, written, e);
      entries[pos] := e;
      assert entries[..] == old(entries[..])[pos := e];
      written := written + [e];
      pos := pos + 1;
      if pos >= entries.Length {
        pos := 0;
        full := true;
      }
    }

    /** The most recent n entries, oldest first. */
    method Last(n: nat) returns (out: seq<Entry>)
      requires Valid()
      ensures out == LastN(written, if n <= entries.Length then n else entries.Length)
    {
      var total := if full then entries.Length else pos;
      var k := if n > total then total else n;
      if k == 0 { return []; }
      if full {
        out := LastWrapped(k);
      } else {
        out := entries[pos - k..pos];
      }
    }

    /** The ring has wrapped: read k entries from (pos - k) mod cap. */
    method LastWrapped(k: nat) returns (out: seq<Entry>)
      requires Valid() && full && 0 < k <= entries.Length
      ensures out == written[|written| - k..]
    {
      var cap := entries.Length;
      ghost var window := entries[pos..] + entries[..pos];
      var copy := new Entry[k](_ => Entry(0, []));
      var start := (pos - k + cap) % cap;
      OneTurn(pos - k + cap, cap);
      for i := 0 to k
        invariant forall j :: 0 <= j < i ==> copy[j] == window[cap - k + j]
      {
        OneTurn(start + i, cap);
        copy[i] := entries[(start + i) % cap];
      }
      out := copy[..];
      assert out == window[cap - k..];
    }
  }
}
