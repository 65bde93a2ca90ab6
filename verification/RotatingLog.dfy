/** The size-based rotating log (internal/logfile/rotating.go). */
module RotatingLog {
  import opened Strconv

  const NEWLINE: byte := 10

  function Concat(records: seq<Bytes>): Bytes {
    if records == [] then [] else Concat(records[..|records| - 1]) + records[|records| - 1]
  }

  lemma ConcatSnoc(records: seq<Bytes>, r: Bytes)
    ensures Concat(records + [r]) == Concat(records) + r
  {
    assert (records + [r])[..|records|] == records;
  }

  // --- The lines a write completes ---

  datatype Line = Line(text: Bytes, end: nat)

  /** The lines that end at or after `from` in buf, when buf itself is written at offset `start`. */
  function Lines(buf: Bytes, from: nat, start: nat): seq<Line>
    decreases |buf| - from
  {
    var nl := IndexByte(buf, from, NEWLINE);
    if nl >= |buf| then [] else [Line(buf[from..nl], start + nl + 1)] + Lines(buf, nl + 1, start)
  }

  lemma LinesFirst(buf: Bytes, from: nat, start: nat)
    ensures var nl := IndexByte(buf, from, NEWLINE);
      Lines(buf, from, start) == if nl >= |buf| then []
        else [Line(buf[from..nl], start + nl + 1)] + Lines(buf, nl + 1, start)
  {
  }

  /** emitLines: the calls it makes. */
  method EmitLines(buf: Bytes, start: nat) returns (lines: seq<Line>)
    ensures lines == Lines(buf, 0, start)
  {
    hide Lines, IndexByte;
    lines := [];
    var from := 0;
    while from < |buf|
      invariant from <= |buf| && Lines(buf, 0, start) == lines + Lines(buf, from, start)
    {
      LinesFirst(buf, from, start);
      var nl := IndexByte(buf, from, NEWLINE);
      if nl >= |buf| { return; }
      lines := lines + [Line(buf[from..nl], start + nl + 1)];
      from := nl + 1;
    }
    LinesFirst(buf, from, start);
  }

  /** A line in a file: its text stands before the newline that its offset follows. */
  ghost predicate StandsIn(l: Line, file: Bytes) {
    && |l.text| < l.end <= |file| && file[l.end - 1] == NEWLINE
    && file[l.end - 1 - |l.text|..l.end - 1] == l.text && NEWLINE !in l.text
  }

  lemma FirstStands(before: Bytes, buf: Bytes, from: nat, nl: nat)
    requires from <= nl < |buf| && buf[nl] == NEWLINE && forall k :: from <= k < nl ==> buf[k] != NEWLINE
    ensures StandsIn(Line(buf[from..nl], |before| + nl + 1), before + buf)
  {
    var file := before + buf;
    assert file[|before| + from..|before| + nl] == buf[from..nl];
    assert forall b :: b in buf[from..nl] ==> b != NEWLINE;
  }

  /** The lines with their newlines, one after the other. */
  function Joined(lines: seq<Line>): Bytes {
    if lines == [] then [] else lines[0].text + [NEWLINE] + Joined(lines[1..])
  }

  /** The lines reported are all that was written, but for what follows the last newline. */
  lemma {:induction false} LinesAreAll(buf: Bytes, from: nat, start: nat) returns (rest: Bytes)
    requires from <= |buf|
    ensures buf[from..] == Joined(Lines(buf, from, start)) + rest && NEWLINE !in rest
    decreases |buf| - from
  {
    hide Lines;
    LinesFirst(buf, from, start);
    var nl := IndexByte(buf, from, NEWLINE);
    if nl < |buf| {
      rest := LinesAreAll(buf, nl + 1, start);
      assert buf[from..] == buf[from..nl] + [NEWLINE] + buf[nl + 1..];
      assert Lines(buf, from, start)[1..] == Lines(buf, nl + 1, start);
    } else {
      rest := buf[from..];
      assert forall b :: b in rest ==> b != NEWLINE;
    }
  }

  /** Every line reported stands in the file where its offset says, in order. */
  lemma {:induction false} LinesStand(before: Bytes, buf: Bytes, from: nat)
    requires from <= |buf|
    ensures var lines := Lines(buf, from, |before|);
      && (forall i :: 0 <= i < |lines| ==> StandsIn(lines[i], before + buf) && lines[i].end > |before| + from)
      && (forall i, j :: 0 <= i < j < |lines| ==> lines[i].end < lines[j].end)
    decreases |buf| - from
  {
    hide Lines, StandsIn;
    LinesFirst(buf, from, |before|);
    var nl := IndexByte(buf, from, NEWLINE);
    if nl < |buf| {
      LinesStand(before, buf, nl + 1);
      FirstStands(before, buf, from, nl);
    }
  }

  ghost predicate EndsAt(lines: seq<Line>, end: nat) { exists i :: 0 <= i < |lines| && lines[i].end == end }

  /** Every newline written ends a line that is reported. */
  lemma {:induction false} LinesComplete(buf: Bytes, from: nat, start: nat, k: nat)
    requires from <= k < |buf| && buf[k] == NEWLINE
    ensures EndsAt(Lines(buf, from, start), start + k + 1)
    decreases |buf| - from
  {
    hide Lines;
    LinesFirst(buf, from, start);
    var nl := IndexByte(buf, from, NEWLINE);
    var rest := Lines(buf, nl + 1, start);
    if k == nl {
      assert Lines(buf, from, start)[0].end == start + k + 1;
    } else {
      LinesComplete(buf, nl + 1, start, k);
      var i :| 0 <= i < |rest| && rest[i].end == start + k + 1;
      assert Lines(buf, from, start)[i + 1] == rest[i];
    }
  }

  // --- What the files hold ---

  function At<T>(files: map<nat, seq<T>>, k: nat): seq<T> { if k in files then files[k] else [] }

  /** The records of archive k, then k - 1, and so on to the base file, which is 0. */
  function HeldFrom(groups: map<nat, seq<Bytes>>, k: nat): seq<Bytes> {
    At(groups, k) + if k == 0 then [] else HeldFrom(groups, k - 1)
  }

  ghost predicate IsSuffix<T>(s: seq<T>, all: seq<T>) { |s| <= |all| && all[|all| - |s|..] == s }

  lemma {:induction false} HeldSame(a: map<nat, seq<Bytes>>, b: map<nat, seq<Bytes>>, k: nat)
    requires forall i :: 0 <= i <= k ==> At(a, i) == At(b, i)
    ensures HeldFrom(a, k) == HeldFrom(b, k)
  {
    if k > 0 { HeldSame(a, b, k - 1); }
  }

  /** Moving a file into the next free slot keeps the order of the records. */
  lemma {:induction false} HeldMoved(groups: map<nat, seq<Bytes>>, i: nat, k: nat)
    requires i + 1 !in groups && k > i
    ensures HeldFrom(Moved(groups, i), k) == HeldFrom(groups, k)
  {
    var moved := Moved(groups, i);
    if k == i + 1 {
      if i > 0 { HeldSame(groups, moved, i - 1); }
    } else {
      HeldMoved(groups, i, k - 1);
    }
  }

  /** renameIfExists from slot i to i + 1. */
  function Moved<T>(files: map<nat, seq<T>>, i: nat): map<nat, seq<T>> {
    if i in files then (files - {i})[i + 1 := files[i]] else files
  }

  lemma SuffixOfSuffix<T>(a: seq<T>, b: seq<T>, all: seq<T>)
    requires IsSuffix(a + b, all)
    ensures IsSuffix(b, all)
  {
    assert all[|all| - |b|..] == (a + b)[|a|..];
  }

  lemma HeldUnfold(groups: map<nat, seq<Bytes>>, k: nat)
    ensures HeldFrom(groups, k) == At(groups, k) + if k == 0 then [] else HeldFrom(groups, k - 1)
  {
  }

  /** Only the oldest archive is ever dropped. */
  lemma HeldDropped(groups: map<nat, seq<Bytes>>, k: nat, all: seq<Bytes>)
    requires IsSuffix(HeldFrom(groups, k), all)
    ensures IsSuffix(HeldFrom(groups - {k}, k), all)
  {
    hide HeldFrom, IsSuffix;
    HeldUnfold(groups, k);
    HeldUnfold(groups - {k}, k);
    var rest := if k == 0 then [] else HeldFrom(groups, k - 1);
    if k > 0 { HeldSame(groups, groups - {k}, k - 1); }
    assert HeldFrom(groups - {k}, k) == rest;
    SuffixOfSuffix(At(groups, k), rest, all);
  }

  lemma {:induction false} HeldAppended(groups: map<nat, seq<Bytes>>, k: nat, r: Bytes)
    ensures HeldFrom(groups[0 := At(groups, 0) + [r]], k) == HeldFrom(groups, k) + [r]
  {
    if k > 0 { HeldAppended(groups, k - 1, r); }
  }

  /** Every archive one slot on, the base file in the first, and what was in the last gone. */
  ghost predicate Rotated<T(!new)>(before: map<nat, seq<T>>, after: map<nat, seq<T>>, last: nat) {
    ShiftedTo(before, after, last, -1)
  }

  /** Half-way through a rotation: slots above i have been shifted, and slot i + 1 is free. */
  ghost predicate ShiftedTo<T(!new)>(before: map<nat, seq<T>>, now: map<nat, seq<T>>, last: nat, i: int) {
    && (forall k :: k in before && k < last ==>
      var to := if k <= i then k else k + 1; to in now && now[to] == before[k])
    && (forall k :: k in now ==> k <= last && ComesFrom(before, last, i, k))
  }

  /** Slot k holds what was there, or what was in the slot before. */
  ghost predicate ComesFrom<T>(before: map<nat, seq<T>>, last: nat, i: int, k: nat) {
    if k <= i then k < last && k in before else k >= i + 2 && k - 1 in before
  }

  lemma ShiftStart(files: map<nat, Bytes>, last: nat)
    requires last > 0 && forall k :: k in files ==> k <= last
    ensures ShiftedTo(files, files - {last}, last, last - 1)
  {
  }

  lemma ShiftStep(before: map<nat, Bytes>, now: map<nat, Bytes>, last: nat, i: nat)
    requires i < last && ShiftedTo(before, now, last, i)
    ensures i + 1 !in now && ShiftedTo(before, Moved(now, i), last, i - 1)
  {
    SlotsShifted(before, now, last, i);
    var moved := Moved(now, i);
    forall k | k in moved
      ensures k <= last && ComesFrom(before, last, i - 1, k)
    {
      if k != i + 1 { assert k in now && k != i; }
    }
  }

  /** Every record is where it goes. */
  lemma SlotsShifted(before: map<nat, Bytes>, now: map<nat, Bytes>, last: nat, i: nat)
    requires i < last && ShiftedTo(before, now, last, i)
    ensures i + 1 !in now
    ensures forall k :: k in before && k < last ==>
      var to := if k <= i - 1 then k else k + 1; to in Moved(now, i) && Moved(now, i)[to] == before[k]
  {
    assert !ComesFrom(before, last, i, i + 1);
    forall k | k in before && k < last
      ensures var to := if k <= i - 1 then k else k + 1; to in Moved(now, i) && Moved(now, i)[to] == before[k]
    {
      hide ComesFrom;
    }
  }

  // --- The writer ---

  /** Within the limit, or holding no more than one record that is not empty. */
  ghost predicate Sized(records: seq<Bytes>, maxBytes: int) {
    maxBytes > 0 && |Concat(records)| > maxBytes ==> exists i :: 0 <= i < |records| && Lone(records, i)
  }

  ghost predicate Lone(records: seq<Bytes>, i: nat) { forall j :: 0 <= j < |records| && j != i ==> records[j] == [] }

  class Writer {
    const maxBytes: int
    const maxArchives: int
    var open: bool
    var stale: bool                          // the handle has been closed
    var n: nat
    var files: map<nat, Bytes>               // 0 is the base file, k the archive .k

    ghost var groups: map<nat, seq<Bytes>>   // the writes each file is made of
    ghost var written: seq<Bytes>            // every write that succeeded

    ghost const last: nat := if maxArchives > 0 then maxArchives else 0

    /** The records the files hold, from the oldest archive to the base file. */
    ghost function Held(): seq<Bytes>
      reads this
    {
      HeldFrom(groups, last)
    }

    /** No record is split, the files hold the newest records in order, and none is larger than it may be. */
    ghost predicate Valid()
      reads this
    {
      && files.Keys == groups.Keys && (forall k :: k in files ==> k <= last && files[k] == Concat(groups[k]))
      && IsSuffix(Held(), written)
      && (forall k :: k in groups ==> Sized(groups[k], maxBytes))
      && (open ==> 0 in files && n == |files[0]|) && (stale ==> open)
    }

    constructor (maxBytes: int, maxArchives: int)
      ensures this.maxBytes == maxBytes && this.maxArchives == maxArchives
      ensures Valid() && files == map[] && written == []
    {
      this.maxBytes, this.maxArchives := maxBytes, maxArchives;
      open, stale, n, files := false, false, 0, map[];
      groups, written := map[], [];
      new;
      NothingHeld(last);
    }

    /** openLocked; like every file operation it may fail. */
    method OpenLocked() returns (ok: bool)
      requires Valid() && !open
      modifies this`open, this`stale, this`n, this`files, this`groups
      ensures Valid() && (ok ==> open && !stale && files == if 0 in old(files) then old(files) else old(files)[0 := []])
      ensures ok ==> groups == if 0 in old(groups) then old(groups) else old(groups)[0 := []]
    {
      ok := *;
      if !ok { return; }
      if 0 !in files {
        HeldSame(groups, groups[0 := []], last);
        files, groups := files[0 := []], groups[0 := []];
      }
      ok := *;   // the size of the file
      if !ok { return; }
      open, stale, n := true, false, |files[0]|;
    }

    method RemoveIfExists(k: nat) returns (ok: bool)
      requires Valid() && !open && k == last
      modifies this`files, this`groups
      ensures Valid() && (ok ==> files == old(files) - {k})
    {
      ok := *;
      if !ok { return; }
      HeldDropped(groups, k, written);
      files, groups := files - {k}, groups - {k};
    }

    /** renameIfExists into the next slot, which is free. */
    method ShiftIfExists(i: nat) returns (ok: bool)
      requires Valid() && !open && i < last && i + 1 !in files
      modifies this`files, this`groups
      ensures Valid() && (ok ==> files == Moved(old(files), i))
    {
      ok := *;
      if !ok { return; }
      HeldMoved(groups, i, last);
      files, groups := Moved(files, i), Moved(groups, i);
    }

    /** rotateLocked. When closing the old file fails, its handle stays, and is of no more use. */
    method RotateLocked() returns (ok: bool)
      requires Valid() && open
      modifies this`open, this`stale, this`n, this`files, this`groups
      ensures old(stale) ==> !ok && stale && files == old(files)
      ensures Valid() &&
        (ok ==> open && !stale && 0 in files && files[0] == [] && Rotated(old(files), files - {0}, last))
    {
      hide ShiftedTo, HeldFrom, Moved, Concat, Sized, IsSuffix;
      ok := *;
      if stale || !ok {
        stale := true;
        return false;
      }
      open, n := false, 0;
      if maxArchives > 0 {
        ShiftStart(files, last);
        ok := RemoveIfExists(maxArchives);
        if !ok { return; }
      }
      var i := maxArchives - 1;
      while i >= 1
        invariant Valid() && !open && !stale && (maxArchives > 0 ==> 0 <= i) && i < maxArchives
        invariant if maxArchives > 0 then ShiftedTo(old(files), files, last, i) else files == old(files)
      {
        ShiftStep(old(files), files, last, i);
        ok := ShiftIfExists(i);
        if !ok { return; }
        i := i - 1;
      }
      if maxArchives > 0 {
        ShiftStep(old(files), files, last, 0);
        ok := ShiftIfExists(0);
      } else {
        NoArchives(files);
        ok := RemoveIfExists(0);
      }
      if !ok { return; }
      assert Rotated(old(files), files, last);
      ShiftedNoBase(old(files), files, last);
      ok := OpenLocked();
    }

    /** Write; `lines` are the calls of OnLine, and `rotated` tells of OnRotate. Appending to a usable handle is
      taken to succeed; a stale one is never written to again. */
    method Write(p: Bytes) returns (ok: bool, lines: seq<Line>, rotated: bool)
      requires Valid()
      modifies this
      ensures Valid()
      ensures !ok ==> written == old(written) && lines == []
      ensures old(stale) ==> !ok && stale && files == old(files)
      ensures ok ==> 0 in files && written == old(written) + [p] && Held() != [] && Held()[|Held()| - 1] == p
      ensures ok ==> (rotated <==> maxBytes > 0 && |At(old(files), 0)| > 0 && |At(old(files), 0)| + |p| > maxBytes)
      ensures ok ==> files[0] == (if rotated then [] else At(old(files), 0)) + p
      ensures ok && rotated ==> Rotated(old(files), files - {0}, last)
      ensures ok && !rotated ==> files == old(files)[0 := At(old(files), 0) + p]
      ensures ok ==> lines == Lines(p, 0, |files[0]| - |p|)
    {
      hide ShiftedTo, Rotated, HeldFrom, Moved, Concat, Sized, IsSuffix, Lines;
      ok, lines, rotated := true, [], false;
      if !open {
        ok := OpenLocked();
        if !ok { return; }
      }
      if maxBytes > 0 && n > 0 && n + |p| > maxBytes {
        assert files == old(files);
        ok := RotateLocked();
        if !ok { return; }
        rotated := true;
        assert files[0 := files[0] + p] - {0} == files - {0};
      }
      if stale { return false, lines, rotated; }
      NoLines(n);
      Append(p);
      if |p| > 0 {
        lines := EmitLines(p, n - |p|);
      }
    }

    method Append(p: Bytes)
      requires Valid() && open && !stale
      requires maxBytes > 0 && n > 0 ==> n + |p| <= maxBytes
      modifies this`n, this`files, this`groups, this`written
      ensures Valid() && n == old(n) + |p| && files == old(files)[0 := old(files)[0] + p]
      ensures written == old(written) + [p] && Held() != [] && Held()[|Held()| - 1] == p
    {
      hide HeldFrom, Concat, Sized, IsSuffix;
      Appended(groups, last, p, written, maxBytes);
      files := files[0 := files[0] + p];
      groups, written := groups[0 := groups[0] + [p]], written + [p];
      n := n + |p|;
    }

    method Close()
      requires Valid()
      modifies this`open, this`stale, this`n
      ensures Valid() && !open
    {
      open, stale, n := false, false, 0;
    }
  }

  lemma NoArchives(files: map<nat, Bytes>)
    requires forall k :: k in files ==> k <= 0
    ensures Rotated(files, files - {0}, 0)
  {
  }

  lemma ShiftedNoBase(before: map<nat, Bytes>, after: map<nat, Bytes>, last: nat)
    requires Rotated(before, after, last)
    ensures 0 !in after && after[0 := []] - {0} == after
  {
    assert forall k :: k in after ==> ComesFrom(before, last, -1, k);
  }

  lemma {:induction false} NothingHeld(k: nat)
    ensures HeldFrom(map[], k) == []
  {
    if k > 0 { NothingHeld(k - 1); }
  }

  lemma NoLines(start: nat)
    ensures Lines([], 0, start) == []
  {
  }

  lemma {:induction false} ConcatEmpty(records: seq<Bytes>)
    ensures Concat(records) == [] <==> forall i :: 0 <= i < |records| ==> records[i] == []
  {
    if records != [] {
      ConcatEmpty(records[..|records| - 1]);
    }
  }

  /** Appending a record keeps the order, and the sizes when the record fits or is the first that is not empty. */
  lemma Appended(groups: map<nat, seq<Bytes>>, last: nat, p: Bytes, written: seq<Bytes>, maxBytes: int)
    requires 0 in groups && IsSuffix(HeldFrom(groups, last), written)
    requires maxBytes > 0 && |Concat(groups[0])| > 0 ==> |Concat(groups[0])| + |p| <= maxBytes
    ensures HeldFrom(groups[0 := groups[0] + [p]], last) == HeldFrom(groups, last) + [p]
    ensures IsSuffix(HeldFrom(groups, last) + [p], written + [p])
    ensures Concat(groups[0] + [p]) == Concat(groups[0]) + p
    ensures Sized(groups[0] + [p], maxBytes)
  {
    hide HeldFrom;
    HeldAppended(groups, last, p);
    ConcatSnoc(groups[0], p);
    ConcatEmpty(groups[0]);
    if Concat(groups[0]) == [] {
      assert Lone(groups[0] + [p], |groups[0]|);
    }
  }
}
