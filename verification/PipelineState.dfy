/**
  Moving the records a pipeline keeps under its name
  (internal/pipelinestate/pipelinestate.go).
 */
module PipelineState {
  import opened Strconv

  type Key = string

  /** A field of a record, by the types the merge rules read. */
  datatype Field = Text(text: string) | Time(t: nat) | Quality(q: int) | Other(id: int)

  /** A stored record: a JSON object, or bytes that are not one. */
  datatype Row = Record(fields: map<string, Field>) | Broken(raw: int)

  datatype Kind = Seen | Movies | Discover | SeriesGaps

  const KINDS: seq<Kind> := [Seen, Movies, Discover, SeriesGaps]

  function Prefix(k: Kind): string {
    match k
    case Seen => "seen"
    case Movies => "movies"
    case Discover => "discover"
    case SeriesGaps => "series_gaps"
  }

  function BucketName(k: Kind, pipeline: string): string { Prefix(k) + ":" + pipeline }

  /** No two buckets share a name. */
  lemma BucketNamesDiffer(j: Kind, a: string, k: Kind, b: string)
    ensures BucketName(j, a) == BucketName(k, b) <==> j == k && a == b
  {
    var x, y := BucketName(j, a), BucketName(k, b);
    if x == y {
      assert x[0] == Prefix(j)[0] && y[0] == Prefix(k)[0];
      assert x[2] == Prefix(j)[2] && y[2] == Prefix(k)[2];
      assert j == k;
      assert a == x[|Prefix(j)| + 1..] && b == y[|Prefix(k)| + 1..];
    }
  }

  // --- The rules by which two records combine ---

  predicate Mergeable(k: Kind) { !k.SeriesGaps? }

  /** A film's quality as recorded; a record without one has none. */
  function QualityOf(r: Row): Option<int> {
    if r.Broken? then None
    else if "quality" !in r.fields then Some(0)
    else if r.fields["quality"].Quality? then Some(r.fields["quality"].q)
    else None
  }

  /** When a title was last searched; zero when it was not. */
  function SearchedAt(r: Row): Option<nat> {
    if r.Broken? then None
    else if "last_searched" !in r.fields then Some(0)
    else if r.fields["last_searched"].Time? then Some(r.fields["last_searched"].t)
    else None
  }

  /** The record kept of two with one key, if both can be read; `better` is the order of qualities. */
  function Merge(better: (int, int) -> bool, k: Kind, dst: Row, src: Row): Option<Row> {
    match k
    case Movies =>
      if QualityOf(dst).None? || QualityOf(src).None? then None
      else if better(QualityOf(src).value, QualityOf(dst).value) then Some(src) else Some(dst)
    case Discover =>
      if SearchedAt(dst).None? || SearchedAt(src).None? then None
      else if SearchedAt(src).value > SearchedAt(dst).value then Some(src) else Some(dst)
    case _ => Some(dst)
  }

  /** A seen record that names its pipeline is made to name the new one; it must be readable. */
  function Retag(k: Kind, r: Row, pipeline: string): Option<Row> {
    if !k.Seen? then Some(r)
    else if r.Broken? then None
    else if "task" !in r.fields then Some(r)
    else Some(Record(r.fields["task" := Text(pipeline)]))
  }

  // --- What a move does to one pair of buckets ---

  type Rows = map<Key, Row>

  datatype Prefer = Unset | Source | Dest

  datatype Step = Step(kind: Kind, moved: nat, conflicts: nat, sourceWon: nat, deleted: nat)

  /** What planning one pair of buckets comes to. */
  datatype Part = Skip | Did(step: Step) | NeedPrefer | BadMerge

  /** What becomes of one key, before it is retagged. */
  function Kept(better: (int, int) -> bool, k: Kind, dst: Rows, src: Rows, key: Key): Option<Row>
    requires key in src
  {
    if key in dst then Merge(better, k, dst[key], src[key]) else Some(src[key])
  }

  ghost predicate MergesAll(better: (int, int) -> bool, k: Kind, dst: Rows, src: Rows) {
    forall key :: key in src ==> Kept(better, k, dst, src, key).Some?
  }

  /** What is written under one key; None when it cannot be. */
  function ToPut(better: (int, int) -> bool, k: Kind, dst: Rows, src: Rows, to: string, key: Key): Option<Row>
    requires key in src
  {
    var kept := Kept(better, k, dst, src, key);
    if kept.None? then None else Retag(k, kept.value, to)
  }

  ghost predicate PutsAll(better: (int, int) -> bool, k: Kind, dst: Rows, src: Rows, to: string) {
    forall key :: key in src ==> ToPut(better, k, dst, src, to, key).Some?
  }

  /** The destination after the keys in `done` have been written. */
  ghost function Written(better: (int, int) -> bool, k: Kind, dst: Rows, src: Rows, to: string, done: set<Key>): Rows
    requires done <= src.Keys && forall key :: key in done ==> ToPut(better, k, dst, src, to, key).Some?
  {
    map key | key in dst.Keys + done :: if key in done then ToPut(better, k, dst, src, to, key).value else dst[key]
  }

  /** The conflicts the source settles. */
  ghost function Won(better: (int, int) -> bool, k: Kind, dst: Rows, src: Rows, keys: set<Key>): set<Key> {
    set key | key in keys && key in src && key in dst && Kept(better, k, dst, src, key) != Some(dst[key])
  }

  ghost predicate MustChoose(k: Kind, dst: Rows) { !Mergeable(k) && dst != map[] }

  /** The planning of one kind. */
  ghost function PartOf(better: (int, int) -> bool, k: Kind, dst: Rows, src: Rows, prefer: Prefer): Part {
    if src == map[] then Skip
    else if MustChoose(k, dst) then
      match prefer
      case Unset => NeedPrefer
      case Source => Did(Step(k, |src|, |dst|, 0, |src|))
      case Dest => Did(Step(k, 0, |src|, 0, |src|))
    else if !MergesAll(better, k, dst, src) then BadMerge
    else Did(Step(k, |src.Keys - dst.Keys|, |src.Keys * dst.Keys|, |Won(better, k, dst, src, src.Keys)|, |src|))
  }

  /** What a move leaves at the destination. */
  ghost function DestAfter(better: (int, int) -> bool, k: Kind, dst: Rows, src: Rows, to: string, prefer: Prefer): Rows
    requires PutsAll(better, k, dst, src, to)
  {
    if src == map[] then dst
    else if MustChoose(k, dst) then if prefer.Source? then src else dst
    else Written(better, k, dst, src, to, src.Keys)
  }

  /** One kind's turn in a pass, and what came of it. */
  datatype KindMove = KindMove(better: (int, int) -> bool, k: Kind, from: string, to: string, prefer: Prefer,
    apply: bool, part: Part, failed: bool)

  // --- The store ---

  datatype Merged = Merged(step: Step) | CannotMerge | CannotRetag

  class Store {
    var buckets: map<string, Rows>

    function RowsOf(b: string): Rows
      reads this
    {
      if b in buckets then buckets[b] else map[]
    }

    method Put(b: string, key: Key, row: Row)
      modifies this
      ensures RowsOf(b) == old(RowsOf(b))[key := row] && forall c :: c != b ==> RowsOf(c) == old(RowsOf(c))
    {
      buckets := buckets[b := RowsOf(b)[key := row]];
    }

    method Delete(b: string, key: Key)
      modifies this
      ensures RowsOf(b) == old(RowsOf(b)) - {key} && forall c :: c != b ==> RowsOf(c) == old(RowsOf(c))
    {
      buckets := buckets[b := RowsOf(b) - {key}];
    }

    method Clear(b: string)
      modifies this
      ensures RowsOf(b) == map[] && forall c :: c != b ==> RowsOf(c) == old(RowsOf(c))
    {
      var left := RowsOf(b).Keys;
      while left != {}
        invariant RowsOf(b).Keys == left && forall c :: c != b ==> RowsOf(c) == old(RowsOf(c))
      {
        var key :| key in left;
        left := left - {key};
        Delete(b, key);
      }
      assert RowsOf(b).Keys == {};
    }

    /** The loop of move over the records of one kind. */
    method MergeRows(better: (int, int) -> bool, k: Kind, from: string, to: string, apply: bool) returns (r: Merged)
      requires from != to
      modifies this
      ensures forall c :: c != BucketName(k, to) ==> RowsOf(c) == old(RowsOf(c))
      ensures var src, dst := old(RowsOf(BucketName(k, from))), old(RowsOf(BucketName(k, to)));
        && (r.CannotMerge? ==> !MergesAll(better, k, dst, src))
        && (r.CannotRetag? ==>
          apply && k.Seen? && !PutsAll(better, k, dst, src, to) && dst.Keys <= RowsOf(BucketName(k, to)).Keys)
        && (r.Merged? ==>
              && MergesAll(better, k, dst, src) && (apply ==> PutsAll(better, k, dst, src, to))
              && r.step == Step(k, |src.Keys - dst.Keys|, |src.Keys * dst.Keys|, |Won(better, k, dst, src, src.Keys)|,
                |src|)
              && RowsOf(BucketName(k, to)) == if apply then Written(better, k, dst, src, to, src.Keys) else dst)
        && (!apply ==> RowsOf(BucketName(k, to)) == dst)
    {
      hide Kept, Retag, ToPut, BucketName, Written, Won, PutsAll, Counted;
      var srcName, dstName := BucketName(k, from), BucketName(k, to);
      BucketNamesDiffer(k, from, k, to);
      var srcRows, dstRows := RowsOf(srcName), RowsOf(dstName);
      var moved, conflicts, sourceWon := 0, 0, 0;
      var left := srcRows.Keys;
      ghost var done: set<Key> := {};
      NothingDone(better, k, dstRows, srcRows, to, apply);
      while left != {}
        invariant left == srcRows.Keys - done && done <= srcRows.Keys
        invariant forall c :: c != dstName ==> RowsOf(c) == old(RowsOf(c))
        invariant forall key :: key in done ==> Kept(better, k, dstRows, srcRows, key).Some?
        invariant Stands(better, k, dstRows, srcRows, to, done, apply, RowsOf(dstName))
        invariant Counted(better, k, dstRows, srcRows, done, moved, conflicts, sourceWon)
        decreases left
      {
        var key :| key in left;
        left := left - {key};
        CountedMore(better, k, dstRows, srcRows, done, key, moved, conflicts, sourceWon);
        var kept := Kept(better, k, dstRows, srcRows, key);
        if key in dstRows {
          conflicts := conflicts + 1;
          if kept.None? {
            Unmergeable(better, k, dstRows, srcRows, key);
            return CannotMerge;
          }
          if kept.value != dstRows[key] { sourceWon := sourceWon + 1; }
        } else {
          moved := moved + 1;
        }
        KeptAlone(better, k, dstRows, srcRows, key);
        if apply {
          var tagged := Retag(k, kept.value, to);
          if tagged.None? {
            CannotPut(better, k, dstRows, srcRows, to, key);
            NoKeyLost(better, k, dstRows, srcRows, to, done, RowsOf(dstName));
            return CannotRetag;
          }
          StandsMore(better, k, dstRows, srcRows, to, done, RowsOf(dstName), key);
          this.Put(dstName, key, tagged.value);
        }
        done := done + {key};
      }
      assert done == srcRows.Keys;
      if apply {
        AllDone(better, k, dstRows, srcRows, to, RowsOf(dstName), moved, conflicts, sourceWon);
      } else {
        PlannedAll(better, k, dstRows, srcRows, to, RowsOf(dstName), moved, conflicts, sourceWon);
      }
      r := Merged(Step(k, moved, conflicts, sourceWon, |srcRows|));
    }

    /** copyInto */
    method CopyInto(b: string, rows: Rows, k: Kind, to: string) returns (ok: bool)
      modifies this
      ensures forall c :: c != b ==> RowsOf(c) == old(RowsOf(c))
      ensures ok <==> forall key :: key in rows ==> Retag(k, rows[key], to).Some?
      ensures ok && (forall key :: key in rows ==> Retag(k, rows[key], to) == Some(rows[key])) ==>
        RowsOf(b) == old(RowsOf(b)) + rows
    {
      hide Retag;
      var left := rows.Keys;
      ghost var before := RowsOf(b);
      while left != {}
        invariant left <= rows.Keys
        invariant forall c :: c != b ==> RowsOf(c) == old(RowsOf(c))
        invariant forall key :: key in rows && key !in left ==> Retag(k, rows[key], to).Some?
        invariant (forall key :: key in rows ==> Retag(k, rows[key], to) == Some(rows[key])) ==>
          RowsOf(b) == before + map key | key in rows && key !in left :: rows[key]
      {
        var key :| key in left;
        var tagged := Retag(k, rows[key], to);
        if tagged.None? { return false; }
        left := left - {key};
        this.Put(b, key, tagged.value);
      }
      return true;
    }

    /** Both sides hold a bucket that cannot be merged: one of them is chosen. */
    method Choose(k: Kind, from: string, to: string, source: bool)
      requires from != to && k.SeriesGaps?
      modifies this
      ensures forall c :: c != BucketName(k, from) && c != BucketName(k, to) ==> RowsOf(c) == old(RowsOf(c))
      ensures RowsOf(BucketName(k, from)) == map[]
      ensures RowsOf(BucketName(k, to)) == old(RowsOf(if source then BucketName(k, from) else BucketName(k, to)))
    {
      hide BucketName;
      var srcName, dstName := BucketName(k, from), BucketName(k, to);
      BucketNamesDiffer(k, from, k, to);
      if source {
        var srcRows := RowsOf(srcName);
        Clear(dstName);
        var ok := CopyInto(dstName, srcRows, k, to);
        assert map[] + srcRows == srcRows;
      }
      Clear(srcName);
    }

    /** What a pass does to one kind's buckets: nothing when it plans, and what the plan says when it applies. */
    twostate predicate KindMoved(m: KindMove)
      reads this
    {
      var src, dst := old(RowsOf(BucketName(m.k, m.from))), old(RowsOf(BucketName(m.k, m.to)));
      var newSrc, newDst := RowsOf(BucketName(m.k, m.from)), RowsOf(BucketName(m.k, m.to));
      && (forall c :: c != BucketName(m.k, m.from) && c != BucketName(m.k, m.to) ==> RowsOf(c) == old(RowsOf(c)))
      && if m.failed then
           && m.apply && m.k.Seen? && !PutsAll(m.better, m.k, dst, src, m.to)
           && newSrc == src && dst.Keys <= newDst.Keys && m.part == Skip
         else
           && m.part == PartOf(m.better, m.k, dst, src, m.prefer)
           && if m.apply && m.part.Did? then
                && PutsAll(m.better, m.k, dst, src, m.to) && newSrc == map[]
                && newDst == DestAfter(m.better, m.k, dst, src, m.to, m.prefer)
              else newSrc == src && newDst == dst
    }

    /** One kind's turn in move. The applying pass comes after a planning pass that found no bad merge. */
    method MoveKind(better: (int, int) -> bool, k: Kind, from: string, to: string, prefer: Prefer, apply: bool)
      returns (part: Part, failed: bool)
      requires from != to
      requires apply ==> !PartOf(better, k, RowsOf(BucketName(k, to)), RowsOf(BucketName(k, from)), prefer).BadMerge?
      modifies this
      ensures KindMoved(KindMove(better, k, from, to, prefer, apply, part, failed))
    {
      hide Retag, BucketName, Written, Won, PutsAll, MergesAll, Kept, ToPut;
      var srcName, dstName := BucketName(k, from), BucketName(k, to);
      BucketNamesDiffer(k, from, k, to);
      failed := false;
      var srcRows, dstRows := RowsOf(srcName), RowsOf(dstName);
      if srcRows == map[] { return Skip, failed; }
      NeverFails(better, k, dstRows, srcRows, to);
      if !Mergeable(k) && dstRows != map[] {
        if prefer.Unset? { return NeedPrefer, failed; }
        part := Did(if prefer.Source? then Step(k, |srcRows|, |dstRows|, 0, |srcRows|)
          else Step(k, 0, |srcRows|, 0, |srcRows|));
        if apply { Choose(k, from, to, prefer.Source?); }
        return;
      }
      var r := MergeRows(better, k, from, to, apply);
      match r {
        case CannotMerge => part := BadMerge;
        case CannotRetag => failed, part := true, Skip;
        case Merged(step) =>
          part := Did(step);
          if apply { Clear(srcName); }
      }
    }

    ghost function PartAt(mv: Moving, k: Kind): Part
      reads this
    {
      PartOf(mv.better, k, RowsOf(BucketName(k, mv.to)), RowsOf(BucketName(k, mv.from)), mv.prefer)
    }

    /** The first `upTo` kinds have been moved, and nothing else has changed. */
    twostate predicate MovedUpTo(mv: Moving)
      reads this
    {
      && (forall i :: 0 <= i < |KINDS| ==> if i < mv.upTo then this.Moved(mv, KINDS[i]) else this.Unmoved(mv, KINDS[i]))
      && (forall c :: Foreign(mv.from, mv.to, c) ==> RowsOf(c) == old(RowsOf(c)))
    }

    twostate predicate Moved(mv: Moving, k: Kind)
      reads this
    {
      var src, dst := old(RowsOf(BucketName(k, mv.from))), old(RowsOf(BucketName(k, mv.to)));
      && PutsAll(mv.better, k, dst, src, mv.to) && RowsOf(BucketName(k, mv.from)) == map[]
      && RowsOf(BucketName(k, mv.to)) == DestAfter(mv.better, k, dst, src, mv.to, mv.prefer)
    }

    twostate predicate Unmoved(mv: Moving, k: Kind)
      reads this
    {
      && RowsOf(BucketName(k, mv.from)) == old(RowsOf(BucketName(k, mv.from)))
      && RowsOf(BucketName(k, mv.to)) == old(RowsOf(BucketName(k, mv.to)))
    }

    /** The whole plan. */
    ghost function Planned(mv: Moving): Outline
      reads this
    {
      OutlineOf([PartAt(mv, Seen), PartAt(mv, Movies), PartAt(mv, Discover), PartAt(mv, SeriesGaps)])
    }

    /** The buckets of different kinds are different. */
    lemma KindsApart(mv: Moving, j: Kind, k: Kind)
      ensures j != k ==>
        && BucketName(j, mv.from) != BucketName(k, mv.from) && BucketName(j, mv.from) != BucketName(k, mv.to)
        && BucketName(j, mv.to) != BucketName(k, mv.from) && BucketName(j, mv.to) != BucketName(k, mv.to)
    {
      BucketNamesDiffer(j, mv.from, k, mv.from);
      BucketNamesDiffer(j, mv.from, k, mv.to);
      BucketNamesDiffer(j, mv.to, k, mv.from);
      BucketNamesDiffer(j, mv.to, k, mv.to);
    }

    /** One kind's turn, seen from the whole store: only its own buckets change. */
    method Turn(mv: Moving, i: nat, apply: bool) returns (part: Part, failed: bool)
      requires mv.from != mv.to && i < |KINDS|
      requires apply ==> !PartAt(mv, KINDS[i]).BadMerge?
      modifies this
      ensures failed ==> apply && i == 0 && OnlySeenWritten(mv)
      ensures !failed ==> part == old(PartAt(mv, KINDS[i]))
      ensures forall j :: 0 <= j < |KINDS| && j != i ==> this.Unmoved(mv, KINDS[j])
      ensures forall c :: Foreign(mv.from, mv.to, c) ==> RowsOf(c) == old(RowsOf(c))
      ensures !failed && apply && (part.Skip? || part.Did?) ==> this.Moved(mv, KINDS[i])
      ensures !failed && !(apply && part.Did?) ==> this.Unmoved(mv, KINDS[i])
    {
      hide BucketName, PartOf, DestAfter, PutsAll;
      part, failed := MoveKind(mv.better, KINDS[i], mv.from, mv.to, mv.prefer, apply);
      forall j | 0 <= j < |KINDS| && j != i ensures this.Unmoved(mv, KINDS[j]) {
        KindsApart(mv, KINDS[j], KINDS[i]);
      }
      if !failed && part.Skip? {
        SkipMoves(mv, KINDS[i], old(RowsOf(BucketName(KINDS[i], mv.to))), old(RowsOf(BucketName(KINDS[i], mv.from))));
      }
    }

    /** move: one pass over the kinds. */
    method Pass(mv: Moving, apply: bool) returns (o: Outline, failed: bool)
      requires mv.from != mv.to && mv.upTo == |KINDS|
      requires apply ==> Planned(mv).Steps?
      modifies this
      ensures !failed ==> o == old(Planned(mv))
      ensures !failed ==> MovedUpTo(if apply then mv else mv.(upTo := 0))
      ensures failed ==> apply && OnlySeenWritten(mv)
    {
      hide BucketName, PartOf, DestAfter, PutsAll, OutlineOf, Foreign;
      NothingPlanned();
      o, failed := Steps([]), false;
      ghost var parts := [PartAt(mv, Seen), PartAt(mv, Movies), PartAt(mv, Discover), PartAt(mv, SeriesGaps)];
      for i := 0 to |KINDS|
        invariant o == OutlineOf(parts[..i]) && o.Steps?
        invariant i == 0 ==> Unchanged()
        invariant MovedUpTo(mv.(upTo := if apply then i else 0))
      {
        OutlineNext(parts, i);
        assert PartAt(mv, KINDS[i]) == parts[i];
        var part;
        part, failed := Turn(mv, i, apply);
        if failed { return; }
        match part {
          case Skip =>
          case Did(step) => o := Steps(o.steps + [step]);
          case _ => return Stopped(part), failed;
        }
      }
      assert parts[..4] == parts;
    }

    twostate predicate Unchanged()
      reads this
    {
      forall c :: RowsOf(c) == old(RowsOf(c))
    }

    /**
      Move: planned first, applied second. A plan that cannot be carried out
      changes nothing, and what is applied is what was planned; only a seen
      record that cannot be read is found out too late.
     */
    method Move(better: (int, int) -> bool, from: string, to: string, prefer: Prefer, dryRun: bool) returns (o: Outcome)
      modifies this
      ensures o.BadNames? <==> from == "" || to == "" || from == to
      ensures !o.BadNames? ==>
        var mv := Moving(better, from, to, prefer, |KINDS|);
        var seenFits := PutsAll(better, Seen, old(RowsOf(BucketName(Seen, to))), old(RowsOf(BucketName(Seen, from))),
          to);
        o == match old(Planned(mv))
          case Stopped(part) => Refused(part)
          case Steps(steps) => if dryRun || seenFits then Report(steps) else HalfMoved
      ensures o.BadNames? || o.Refused? || dryRun ==> Unchanged()
      ensures o.Report? && !dryRun ==> MovedUpTo(Moving(better, from, to, prefer, |KINDS|))
      ensures o.HalfMoved? ==> OnlySeenWritten(Moving(better, from, to, prefer, |KINDS|))
    {
      hide BucketName, PartOf, DestAfter, PutsAll, OutlineOf;
      if from == "" || to == "" || from == to { return BadNames; }
      var mv := Moving(better, from, to, prefer, |KINDS|);
      var plan, failed := Pass(mv, false);
      forall c ensures RowsOf(c) == old(RowsOf(c)) {
        if !Foreign(from, to, c) {
          var k :| c == BucketName(k, from) || c == BucketName(k, to);
          KindListed(k);
        }
      }
      if plan.Stopped? { return Refused(plan.part); }
      if dryRun { return Report(plan.steps); }
      label Planned:
      assert Planned(mv) == plan;
      plan, failed := Pass(mv, true);
      if failed { return HalfMoved; }
      assert this.Moved@Planned(mv, KINDS[0]);
      return Report(plan.steps);
    }

    /** No kind has anything under this name. */
    ghost predicate Free(name: string)
      reads this
    {
      forall k: Kind :: RowsOf(BucketName(k, name)) == map[]
    }

    /** Nothing stands in the way of a move to a free name but a seen record that cannot be read. */
    lemma FreePlan(mv: Moving)
      requires Free(mv.to)
      ensures Planned(mv).Steps?
    {
      hide BucketName, PartOf, OutlineOf;
      forall k: Kind ensures PartAt(mv, k).Skip? || PartAt(mv, k).Did? {
        FreePart(mv.better, k, RowsOf(BucketName(k, mv.from)), mv.prefer);
      }
      NeverStops([PartAt(mv, Seen), PartAt(mv, Movies), PartAt(mv, Discover), PartAt(mv, SeriesGaps)]);
    }

    /** Two moves: to a name nothing is kept under, and back, if the first one came through. */
    method MoveThereAndBack(better: (int, int) -> bool, from: string, to: string, prefer: Prefer)
      returns (there: Outcome, back: Outcome)
      requires from != "" && to != "" && from != to && Free(to)
      modifies this
      ensures there.Report? || there.HalfMoved?
      ensures there.Report? ==> back.Report? && Free(to)
      ensures there.Report? ==> forall c :: Foreign(from, to, c) ==> RowsOf(c) == old(RowsOf(c))
      ensures there.Report? ==>
        forall k: Kind :: Restored(k, from, old(RowsOf(BucketName(k, from))), RowsOf(BucketName(k, from)))
    {
      hide *;
      ghost var mv, vm := Moving(better, from, to, prefer, |KINDS|), Moving(better, to, from, prefer, |KINDS|);
      FreePlan(mv);
      there := Move(better, from, to, prefer, false);
      back := there;
      if !there.Report? { return; }
      label There:
      MovedAway(mv);
      FreePlan(vm);
      assert Arrived(mv, Seen, old(RowsOf(BucketName(Seen, from))), RowsOf(BucketName(Seen, to)));
      BackFits(mv, Seen, old(RowsOf(BucketName(Seen, from))), RowsOf(BucketName(Seen, to)));
      NothingUnder(from, Seen);
      back := Move(better, to, from, prefer, false);
      MovedAway@There(vm);
      ForeignBothWays(from, to);
      forall k: Kind ensures Restored(k, from, old(RowsOf(BucketName(k, from))), RowsOf(BucketName(k, from))) {
        assert Arrived(mv, k, old(RowsOf(BucketName(k, from))), old@There(RowsOf(BucketName(k, to))));
        assert Arrived(vm, k, old@There(RowsOf(BucketName(k, to))), RowsOf(BucketName(k, from)));
        BackAgain(mv, k, old(RowsOf(BucketName(k, from))), old@There(RowsOf(BucketName(k, to))),
          RowsOf(BucketName(k, from)));
      }
    }

    lemma NothingUnder(name: string, k: Kind)
      requires Free(name)
      ensures RowsOf(BucketName(k, name)) == map[]
    {
    }

    /** A move to a free name, once it has come through. */
    twostate lemma MovedAway(mv: Moving)
      requires MovedUpTo(mv) && mv.upTo == |KINDS| && old(Free(mv.to))
      ensures Free(mv.from) &&
        forall k: Kind :: Arrived(mv, k, old(RowsOf(BucketName(k, mv.from))), RowsOf(BucketName(k, mv.to)))
      ensures forall c :: Foreign(mv.from, mv.to, c) ==> RowsOf(c) == old(RowsOf(c))
    {
      hide BucketName, DestAfter, PutsAll, Foreign;
      MovedKinds(mv);
      forall k: Kind
        ensures RowsOf(BucketName(k, mv.from)) == map[]
        ensures Arrived(mv, k, old(RowsOf(BucketName(k, mv.from))), RowsOf(BucketName(k, mv.to)))
      {
        assert this.Moved(mv, k);
        assert old(RowsOf(BucketName(k, mv.to))) == map[];
      }
    }

    twostate lemma MovedKinds(mv: Moving)
      requires MovedUpTo(mv) && mv.upTo == |KINDS|
      ensures forall k: Kind :: this.Moved(mv, k)
    {
      hide Moved, Unmoved, Foreign;
      forall k: Kind ensures this.Moved(mv, k) {
        KindListed(k);
        var j :| 0 <= j < |KINDS| && KINDS[j] == k;
        assert this.Moved(mv, KINDS[j]);
      }
    }

    /** A failed move has left every record to be moved where it was, and only added to the seen records at the
      destination. */
    twostate predicate OnlySeenWritten(mv: Moving)
      reads this
    {
      var src, dst := old(RowsOf(BucketName(Seen, mv.from))), old(RowsOf(BucketName(Seen, mv.to)));
      && !PutsAll(mv.better, Seen, dst, src, mv.to)
      && (forall c :: c != BucketName(Seen, mv.to) ==> RowsOf(c) == old(RowsOf(c)))
      && dst.Keys <= RowsOf(BucketName(Seen, mv.to)).Keys
    }
  }

  lemma KindListed(k: Kind)
    ensures exists j :: 0 <= j < |KINDS| && KINDS[j] == k
  {
    var j := match k case Seen => 0 case Movies => 1 case Discover => 2 case SeriesGaps => 3;
    assert KINDS[j] == k;
  }

  lemma NothingPlanned()
    ensures OutlineOf([]) == Steps([])
  {
  }

  /** One more part of a plan. */
  lemma OutlineNext(parts: seq<Part>, i: nat)
    requires i < |parts| && OutlineOf(parts[..i]).Steps?
    ensures parts[i].Skip? ==> OutlineOf(parts[..i + 1]) == OutlineOf(parts[..i])
    ensures parts[i].Did? ==> OutlineOf(parts[..i + 1]) == Steps(OutlineOf(parts[..i]).steps + [parts[i].step])
    ensures parts[i].NeedPrefer? || parts[i].BadMerge? ==> OutlineOf(parts) == Stopped(parts[i])
  {
    assert parts[..i + 1][..i] == parts[..i];
    if parts[i].NeedPrefer? || parts[i].BadMerge? { StopsHere(parts, i); }
  }

  /** What arrives under a free name. */
  ghost predicate Arrived(mv: Moving, k: Kind, src: Rows, dst: Rows) {
    PutsAll(mv.better, k, map[], src, mv.to) && dst == DestAfter(mv.better, k, map[], src, mv.to, mv.prefer)
  }

  /** A bucket is as it was if and only if none of its records named another pipeline. */
  ghost predicate Restored(k: Kind, name: string, was: Rows, now: Rows) {
    now == was <==> forall key :: key in was ==> NamesOnly(k, was[key], name)
  }

  lemma BackFits(mv: Moving, k: Kind, src: Rows, dst: Rows)
    requires Arrived(mv, k, src, dst)
    ensures PutsAll(mv.better, k, map[], dst, mv.from)
  {
    hide DestAfter, PutsAll, NamesOnly;
    ThereAndBack(mv.better, k, src, mv.from, mv.to, mv.prefer);
  }

  lemma BackAgain(mv: Moving, k: Kind, src: Rows, dst: Rows, back: Rows)
    requires Arrived(mv, k, src, dst) && Arrived(mv.(from := mv.to, to := mv.from), k, dst, back)
    ensures Restored(k, mv.from, src, back)
  {
    hide DestAfter, PutsAll, NamesOnly;
    ThereAndBack(mv.better, k, src, mv.from, mv.to, mv.prefer);
  }

  lemma ForeignBothWays(from: string, to: string)
    ensures forall c :: Foreign(from, to, c) <==> Foreign(to, from, c)
  {
    hide BucketName;
  }

  lemma FreePart(better: (int, int) -> bool, k: Kind, src: Rows, prefer: Prefer)
    ensures PartOf(better, k, map[], src, prefer).Skip? || PartOf(better, k, map[], src, prefer).Did?
  {
  }

  lemma {:induction false} NeverStops(parts: seq<Part>)
    requires forall p :: p in parts ==> p.Skip? || p.Did?
    ensures OutlineOf(parts).Steps?
  {
    if parts != [] {
      NeverStops(parts[..|parts| - 1]);
      assert parts[|parts| - 1] in parts;
    }
  }

  lemma SkipMoves(mv: Moving, k: Kind, dst: Rows, src: Rows)
    requires PartOf(mv.better, k, dst, src, mv.prefer).Skip?
    ensures src == map[] && PutsAll(mv.better, k, dst, src, mv.to) &&
      DestAfter(mv.better, k, dst, src, mv.to, mv.prefer) == dst
  {
  }

  lemma {:induction false} StopsHere(parts: seq<Part>, i: nat)
    requires i < |parts| && OutlineOf(parts[..i]).Steps? && (parts[i].NeedPrefer? || parts[i].BadMerge?)
    ensures OutlineOf(parts) == Stopped(parts[i])
    decreases |parts|
  {
    var n := |parts| - 1;
    if i == n {
      assert parts[..n] == parts[..i];
    } else {
      assert parts[..n][..i] == parts[..i];
      StopsHere(parts[..n], i);
    }
  }

  datatype Outcome = BadNames | Refused(part: Part) | Report(steps: seq<Step>) | HalfMoved

  /** A move from one name to another. */
  datatype Moving = Moving(better: (int, int) -> bool, from: string, to: string, prefer: Prefer, upTo: nat)

  /** A bucket no kind of either name lives in. */
  ghost predicate Foreign(from: string, to: string, c: string) {
    forall k: Kind :: c != BucketName(k, from) && c != BucketName(k, to)
  }

  datatype Outline = Steps(steps: seq<Step>) | Stopped(part: Part)

  /** A plan stops at the first kind it cannot move. */
  function OutlineOf(parts: seq<Part>): Outline {
    if parts == [] then Steps([])
    else
      var rest, last := OutlineOf(parts[..|parts| - 1]), parts[|parts| - 1];
      if rest.Stopped? then rest
      else match last
        case Skip => rest
        case Did(step) => Steps(rest.steps + [step])
        case _ => Stopped(last)
  }

  /** Only seen records are retagged, and cursors are not merged. */
  lemma NeverFails(better: (int, int) -> bool, k: Kind, dst: Rows, src: Rows, to: string)
    ensures !k.Seen? && MergesAll(better, k, dst, src) ==> PutsAll(better, k, dst, src, to)
    ensures k.SeriesGaps? ==> MergesAll(better, k, dst, src) && forall key :: key in src ==>
      Retag(k, src[key], to) == Some(src[key])
    ensures k.Seen? ==> MergesAll(better, k, dst, src)
  {
  }

  ghost predicate Counted(better: (int, int) -> bool, k: Kind, dst: Rows, src: Rows, done: set<Key>, moved: nat,
                          conflicts: nat, sourceWon: nat) {
    moved == |done - dst.Keys| && conflicts == |done * dst.Keys| && sourceWon == |Won(better, k, dst, src, done)|
  }

  ghost predicate Stands(better: (int, int) -> bool, k: Kind, dst: Rows, src: Rows, to: string, done: set<Key>,
                         apply: bool, now: Rows)
    requires done <= src.Keys
  {
    if apply then
      (forall key :: key in done ==> ToPut(better, k, dst, src, to, key).Some?) &&
        now == Written(better, k, dst, src, to, done)
    else now == dst
  }

  lemma NothingDone(better: (int, int) -> bool, k: Kind, dst: Rows, src: Rows, to: string, apply: bool)
    ensures Stands(better, k, dst, src, to, {}, apply, dst) && Counted(better, k, dst, src, {}, 0, 0, 0)
  {
    assert Written(better, k, dst, src, to, {}) == dst;
    assert Won(better, k, dst, src, {}) == {};
    assert {} - dst.Keys == {} && {} * dst.Keys == {};
  }

  /** One more key, written when this is not the planning pass. */
  lemma StandsMore(better: (int, int) -> bool, k: Kind, dst: Rows, src: Rows, to: string, done: set<Key>, now: Rows,
                   key: Key)
    requires done <= src.Keys && key in src && Stands(better, k, dst, src, to, done, true, now)
    requires Kept(better, k, dst, src, key).Some? && Retag(k, Kept(better, k, dst, src, key).value, to).Some?
    ensures Stands(better, k, dst, src, to, done + {key}, true,
      now[key := Retag(k, Kept(better, k, dst, src, key).value, to).value])
  {
    hide Kept, Retag, Written;
    WrittenMore(better, k, dst, src, to, done, key);
  }

  lemma AllDone(better: (int, int) -> bool, k: Kind, dst: Rows, src: Rows, to: string, now: Rows, moved: nat,
                conflicts: nat, sourceWon: nat)
    requires (forall key :: key in src ==> Kept(better, k, dst, src, key).Some?) &&
      Stands(better, k, dst, src, to, src.Keys, true, now)
    requires Counted(better, k, dst, src, src.Keys, moved, conflicts, sourceWon)
    ensures PutsAll(better, k, dst, src, to) && now == Written(better, k, dst, src, to, src.Keys)
    ensures moved == |src.Keys - dst.Keys| && conflicts == |src.Keys * dst.Keys| &&
      sourceWon == |Won(better, k, dst, src, src.Keys)|
  {
  }

  lemma NoKeyLost(better: (int, int) -> bool, k: Kind, dst: Rows, src: Rows, to: string, done: set<Key>, now: Rows)
    requires done <= src.Keys && Stands(better, k, dst, src, to, done, true, now)
    ensures dst.Keys <= now.Keys
  {
  }

  lemma CannotPut(better: (int, int) -> bool, k: Kind, dst: Rows, src: Rows, to: string, key: Key)
    requires key in src && Kept(better, k, dst, src, key).Some? &&
      Retag(k, Kept(better, k, dst, src, key).value, to).None?
    ensures k.Seen? && !PutsAll(better, k, dst, src, to)
  {
    assert ToPut(better, k, dst, src, to, key).None?;
  }

  lemma Unmergeable(better: (int, int) -> bool, k: Kind, dst: Rows, src: Rows, key: Key)
    requires key in src && Kept(better, k, dst, src, key).None?
    ensures !MergesAll(better, k, dst, src)
  {
  }

  lemma PlannedAll(better: (int, int) -> bool, k: Kind, dst: Rows, src: Rows, to: string, now: Rows, moved: nat,
                   conflicts: nat, sourceWon: nat)
    requires Stands(better, k, dst, src, to, src.Keys, false, now) &&
      Counted(better, k, dst, src, src.Keys, moved, conflicts, sourceWon)
    ensures now == dst && moved == |src.Keys - dst.Keys| && conflicts == |src.Keys * dst.Keys|
    ensures sourceWon == |Won(better, k, dst, src, src.Keys)|
  {
  }

  lemma KeptAlone(better: (int, int) -> bool, k: Kind, dst: Rows, src: Rows, key: Key)
    requires key in src
    ensures key !in dst ==> Kept(better, k, dst, src, key) == Some(src[key])
  {
  }

  lemma CountedMore(better: (int, int) -> bool, k: Kind, dst: Rows, src: Rows, done: set<Key>, key: Key, moved: nat,
                    conflicts: nat, sourceWon: nat)
    requires key in src && key !in done && Counted(better, k, dst, src, done, moved, conflicts, sourceWon)
    ensures key in dst ==> Counted(better, k, dst, src, done + {key}, moved, conflicts + 1,
                                   sourceWon + if Kept(better, k, dst, src, key) != Some(dst[key]) then 1 else 0)
    ensures key !in dst ==> Counted(better, k, dst, src, done + {key}, moved + 1, conflicts, sourceWon)
  {
    hide Kept, Won;
    CountSplit(done, dst.Keys, key);
    WonMore(better, k, dst, src, done, key);
  }

  lemma CountSplit(done: set<Key>, keys: set<Key>, key: Key)
    requires key !in done
    ensures |done + {key} - keys| == |done - keys| + if key in keys then 0 else 1
    ensures |(done + {key}) * keys| == |done * keys| + if key in keys then 1 else 0
  {
    if key in keys {
      assert done + {key} - keys == done - keys;
      assert (done + {key}) * keys == done * keys + {key};
    } else {
      assert done + {key} - keys == (done - keys) + {key};
      assert (done + {key}) * keys == done * keys;
    }
  }

  lemma WonMore(better: (int, int) -> bool, k: Kind, dst: Rows, src: Rows, done: set<Key>, key: Key)
    requires key in src && key !in done
    ensures |Won(better, k, dst, src, done + {key})| ==
      |Won(better, k, dst, src, done)| + if key in dst && Kept(better, k, dst, src, key) != Some(dst[key]) then 1 else 0
  {
    hide Kept;
    var won, more := Won(better, k, dst, src, done), Won(better, k, dst, src, done + {key});
    if key in dst && Kept(better, k, dst, src, key) != Some(dst[key]) {
      assert more == won + {key};
    } else {
      assert more == won;
    }
  }

  lemma WrittenMore(better: (int, int) -> bool, k: Kind, dst: Rows, src: Rows, to: string, done: set<Key>, key: Key)
    requires done <= src.Keys && key in src && forall x :: x in done + {key} ==> ToPut(better, k, dst, src, to, x).Some?
    ensures Written(better, k, dst, src, to, done + {key})
      == Written(better, k, dst, src, to, done)[key := ToPut(better, k, dst, src, to, key).value]
  {
    hide ToPut;
  }

  // --- There and back ---

  /** A record that names no pipeline but this one. */
  predicate NamesOnly(k: Kind, r: Row, pipeline: string) {
    k.Seen? && r.Record? && "task" in r.fields ==> r.fields["task"] == Text(pipeline)
  }

  /** Of two records that collide, the one kept: of films the better, of searches the later; else the destination's. */
  ghost predicate KeptRightly(better: (int, int) -> bool, k: Kind, dst: Row, src: Row, kept: Row) {
    match k
    case Movies =>
      && kept in {dst, src} && QualityOf(kept).Some? && QualityOf(dst).Some? && QualityOf(src).Some?
      && !better(QualityOf(dst).value, QualityOf(kept).value) && !better(QualityOf(src).value, QualityOf(kept).value)
      && (kept != dst ==> better(QualityOf(kept).value, QualityOf(dst).value))
    case Discover =>
      && kept in {dst, src} && SearchedAt(kept).Some? && SearchedAt(dst).Some? && SearchedAt(src).Some?
      && SearchedAt(dst).value <= SearchedAt(kept).value && SearchedAt(src).value <= SearchedAt(kept).value
      && (kept != dst ==> SearchedAt(dst).value < SearchedAt(kept).value)
    case _ => kept == dst
  }

  /** The same record, but that a seen record which names its pipeline names this one. */
  ghost predicate Renamed(k: Kind, r: Row, pipeline: string, after: Row) {
    if k.Seen? && r.Record? && "task" in r.fields then
      && after.Record? && after.fields.Keys == r.fields.Keys && after.fields["task"] == Text(pipeline)
      && forall f :: f in r.fields && f != "task" ==> after.fields[f] == r.fields[f]
    else after == r
  }

  /** What a move leaves in a bucket that can be combined, given an order of qualities that prefers neither of two both
    ways. */
  lemma CombinedBucket(better: (int, int) -> bool, k: Kind, dst: Rows, src: Rows, to: string, prefer: Prefer)
    requires Mergeable(k) && PutsAll(better, k, dst, src, to) && forall a, b :: better(a, b) ==> !better(b, a)
    ensures var after := DestAfter(better, k, dst, src, to, prefer);
      && after.Keys == dst.Keys + src.Keys
      && (forall key :: key in dst && key !in src ==> after[key] == dst[key])
      && (forall key :: key in src && key !in dst ==> Renamed(k, src[key], to, after[key]))
      && forall key :: key in src && key in dst ==>
           exists kept :: KeptRightly(better, k, dst[key], src[key], kept) && Renamed(k, kept, to, after[key])
  {
    var after := DestAfter(better, k, dst, src, to, prefer);
    forall key | key in src
      ensures key !in dst ==> Renamed(k, src[key], to, after[key])
      ensures key in dst ==>
        exists kept :: KeptRightly(better, k, dst[key], src[key], kept) && Renamed(k, kept, to, after[key])
    {
      assert ToPut(better, k, dst, src, to, key) == Some(after[key]);
      var kept := Kept(better, k, dst, src, key).value;
      assert Renamed(k, kept, to, after[key]);
      if key in dst { assert KeptRightly(better, k, dst[key], src[key], kept); }
    }
  }

  /** A bucket that cannot be combined is chosen between; without a choice nothing is done. */
  lemma ChosenBucket(better: (int, int) -> bool, dst: Rows, src: Rows, to: string, prefer: Prefer)
    requires src != map[] && dst != map[] && PutsAll(better, SeriesGaps, dst, src, to)
    ensures PartOf(better, SeriesGaps, dst, src, prefer).NeedPrefer? <==> prefer.Unset?
    ensures prefer.Source? ==> DestAfter(better, SeriesGaps, dst, src, to, prefer) == src
    ensures prefer.Dest? ==> DestAfter(better, SeriesGaps, dst, src, to, prefer) == dst
  {
  }

  /** And it can be combined unless a record on either side of a collision, or a seen record, cannot be read. */
  lemma CombinesIff(better: (int, int) -> bool, k: Kind, dst: Rows, src: Rows, to: string)
    requires Mergeable(k)
    ensures PutsAll(better, k, dst, src, to) <==>
      && (k.Movies? ==> forall key :: key in src && key in dst ==>
            QualityOf(dst[key]).Some? && QualityOf(src[key]).Some?)
      && (k.Discover? ==> forall key :: key in src && key in dst ==>
            SearchedAt(dst[key]).Some? && SearchedAt(src[key]).Some?)
      && (k.Seen? ==> forall key :: key in src ==> (if key in dst then dst[key] else src[key]).Record?)
  {
    if PutsAll(better, k, dst, src, to) {
      forall key | key in src ensures ToPut(better, k, dst, src, to, key).Some? {
      }
    }
  }

  /** Moving a bucket to a free name and back restores it exactly when none of its records named another pipeline. */
  lemma ThereAndBack(better: (int, int) -> bool, k: Kind, src: Rows, from: string, to: string, prefer: Prefer)
    requires PutsAll(better, k, map[], src, to)
    ensures var there := DestAfter(better, k, map[], src, to, prefer);
      && PutsAll(better, k, map[], there, from)
      && (DestAfter(better, k, map[], there, from, prefer) == src <==>
        forall key :: key in src ==> NamesOnly(k, src[key], from))
  {
    var there := DestAfter(better, k, map[], src, to, prefer);
    assert there.Keys == src.Keys;
    forall key | key in src
      ensures ToPut(better, k, map[], src, to, key) == Some(there[key]) &&
        ToPut(better, k, map[], there, from, key).Some?
      ensures ToPut(better, k, map[], there, from, key).value == src[key] <==> NamesOnly(k, src[key], from)
    {
      TwiceTagged(k, src[key], from, to);
    }
    var back := DestAfter(better, k, map[], there, from, prefer);
    assert back.Keys == src.Keys;
    assert forall key :: key in src ==> back[key] == ToPut(better, k, map[], there, from, key).value;
  }

  lemma TwiceTagged(k: Kind, r: Row, from: string, to: string)
    requires Retag(k, r, to).Some?
    ensures Retag(k, Retag(k, r, to).value, from).Some?
    ensures Retag(k, Retag(k, r, to).value, from).value == r <==> NamesOnly(k, r, from)
  {
    if k.Seen? && "task" in r.fields {
      var once := r.fields["task" := Text(to)];
      assert once["task" := Text(from)] == r.fields["task" := Text(from)];
      if r.fields["task"] == Text(from) {
        assert r.fields["task" := Text(from)] == r.fields;
      } else {
        assert r.fields["task" := Text(from)]["task"] != r.fields["task"];
      }
    }
  }
}
