/**
 The four-way merge that rebuilds GPS fixes from per-field columns
 (`tools/extract_gps_trace.py`, `merge_fixes`).

 The merge is characterised completely for columns in timestamp order, repeated
 stamps included: a stamp is yielded as often as the column that has it least
 often has it. For columns without repeats that is "present in all four".
 */
module FixMerge {

  /** One field's points, in timestamp order (`_Column.ordered`). */
  datatype Column = Column(times: seq<int>, values: seq<real>) {
    ghost predicate Ordered() {
      && |times| == |values|
      && forall i, j :: 0 <= i < j < |times| ==> times[i] <= times[j]
    }

    ghost predicate NoRepeats() {
      forall i, j :: 0 <= i < j < |times| ==> times[i] < times[j]
    }

    /** How often stamp `t` occurs at or after position `i`. */
    ghost function Left(i: nat, t: int): (n: nat)
      requires i <= |times|
      decreases |times| - i
    {
      if i == |times| then 0 else (if times[i] == t then 1 else 0) + Left(i + 1, t)
    }
  }

  const FIELDS := 4

  datatype Fix = Fix(stamp: int, values: seq<real>)

  type Cursor = s: seq<nat> | |s| == FIELDS witness [0, 0, 0, 0]

  ghost predicate Ready(columns: seq<Column>) {
    |columns| == FIELDS && forall c :: 0 <= c < FIELDS ==> columns[c].Ordered()
  }

  ghost predicate InRange(columns: seq<Column>, at: Cursor)
    requires Ready(columns)
  {
    forall c :: 0 <= c < FIELDS ==> at[c] <= |columns[c].times|
  }

  function Total(at: Cursor): nat { at[0] + at[1] + at[2] + at[3] }

  function Lengths(columns: seq<Column>): Cursor
    requires |columns| == FIELDS
  {
    [|columns[0].times|, |columns[1].times|, |columns[2].times|, |columns[3].times|]
  }

  function Min(a: nat, b: nat): nat { if a <= b then a else b }

  /** How often `t` is still available in every column at once. */
  ghost function Whole(columns: seq<Column>, at: Cursor, t: int): nat
    requires Ready(columns) && InRange(columns, at)
  {
    Min(Min(columns[0].Left(at[0], t), columns[1].Left(at[1], t)),
        Min(columns[2].Left(at[2], t), columns[3].Left(at[3], t)))
  }

  /** How often the fixes yielded so far carry stamp `t`. */
  ghost function Yielded(fixes: seq<Fix>, t: int): nat
  {
    if |fixes| == 0 then 0
    else Yielded(fixes[..|fixes| - 1], t) + (if fixes[|fixes| - 1].stamp == t then 1 else 0)
  }

  /** A stamp below the head of an ordered column no longer occurs in it. */
  lemma {:induction false} NoneBelowHead(column: Column, i: nat, t: int)
    requires column.Ordered() && i <= |column.times|
    requires forall k :: i <= k < |column.times| ==> t < column.times[k]
    ensures column.Left(i, t) == 0
    decreases |column.times| - i
  {
    if i < |column.times| {
      NoneBelowHead(column, i + 1, t);
    }
  }

  /** The cursor after every column behind `newest` moves on by one. */
  ghost predicate Advanced(columns: seq<Column>, at: Cursor, next: Cursor, newest: int)
    requires Ready(columns) && Open(columns, at)
  {
    forall c :: 0 <= c < FIELDS ==>
      next[c] == if columns[c].times[at[c]] < newest then at[c] + 1 else at[c]
  }

  ghost predicate Open(columns: seq<Column>, at: Cursor)
    requires Ready(columns)
  {
    forall c :: 0 <= c < FIELDS ==> at[c] < |columns[c].times|
  }

  /** Moving the laggards on loses no whole fix: the newest column has none of their stamps. */
  lemma AdvanceKeepsWhole(columns: seq<Column>, at: Cursor, next: Cursor, newest: int, d: nat, t: int)
    requires Ready(columns) && Open(columns, at) && Advanced(columns, at, next, newest)
    requires d < FIELDS && columns[d].times[at[d]] == newest
    ensures InRange(columns, next) && Whole(columns, next, t) == Whole(columns, at, t)
  {
    if t < newest {
      NoneBelowHead(columns[d], at[d], t);
    } else {
      forall c | 0 <= c < FIELDS ensures columns[c].Left(next[c], t) == columns[c].Left(at[c], t) {
      }
    }
  }

  /** Everything the outer loop has established at cursor `at`. */
  ghost predicate Merged(columns: seq<Column>, at: Cursor, fixes: seq<Fix>, from: seq<Cursor>, partial: int)
  {
    && Ready(columns) && InRange(columns, at)
    && FIELDS * |fixes| + partial == Total(at)
    && Sourced(columns, fixes, from)
    && Rising(from, at)
    && forall t :: Yielded(fixes, t) + Whole(columns, at, t) == Whole(columns, [0, 0, 0, 0], t)
  }

  /** Fix `k` carries, field by field, the values found at cursor `from[k]`, where all four stamps agree. */
  ghost predicate Sourced(columns: seq<Column>, fixes: seq<Fix>, from: seq<Cursor>)
    requires Ready(columns)
  {
    && |from| == |fixes|
    && forall k, c :: 0 <= k < |fixes| && 0 <= c < FIELDS ==> (
         && from[k][c] < |columns[c].times| && |fixes[k].values| == FIELDS
         && columns[c].times[from[k][c]] == fixes[k].stamp
         && columns[c].values[from[k][c]] == fixes[k].values[c])
  }

  /** The cursors rise strictly in every column and stay below `at`. */
  ghost predicate Rising(from: seq<Cursor>, at: Cursor) {
    && (forall k, l, c :: 0 <= k < l < |from| && 0 <= c < FIELDS ==> from[k][c] < from[l][c])
    && (forall k, c :: 0 <= k < |from| && 0 <= c < FIELDS ==> from[k][c] < at[c])
  }

  lemma MergedAdvance(columns: seq<Column>, at: Cursor, next: Cursor, newest: int, d: nat,
                      fixes: seq<Fix>, from: seq<Cursor>, partial: int)
    requires Merged(columns, at, fixes, from, partial) && Open(columns, at)
    requires Advanced(columns, at, next, newest) && d < FIELDS && columns[d].times[at[d]] == newest
    ensures Merged(columns, next, fixes, from, partial + Total(next) - Total(at))
  {
    forall t ensures InRange(columns, next) && Whole(columns, next, t) == Whole(columns, at, t) {
      AdvanceKeepsWhole(columns, at, next, newest, d, t);
    }
    assert Rising(from, next);
  }

  lemma MergedYield(columns: seq<Column>, at: Cursor, next: Cursor, fix: Fix,
                    fixes: seq<Fix>, from: seq<Cursor>, partial: int)
    requires Merged(columns, at, fixes, from, partial) && Open(columns, at)
    requires |fix.values| == FIELDS
    requires forall c :: 0 <= c < FIELDS ==>
               columns[c].times[at[c]] == fix.stamp && columns[c].values[at[c]] == fix.values[c] && next[c] == at[c] + 1
    ensures Merged(columns, next, fixes + [fix], from + [at], partial)
  {
    forall t
      ensures InRange(columns, next)
      ensures Yielded(fixes + [fix], t) + Whole(columns, next, t) == Whole(columns, [0, 0, 0, 0], t)
    {
      StepTakesOneEach(columns, at, next, fix.stamp, t);
      assert (fixes + [fix])[..|fixes|] == fixes;
    }
    SourcedOneMore(columns, at, fix, fixes, from);
    assert Rising(from + [at], next);
  }

  /** A step over one stamp in all four columns takes one whole occurrence of it, and of no other. */
  lemma StepTakesOneEach(columns: seq<Column>, at: Cursor, next: Cursor, stamp: int, t: int)
    requires Ready(columns) && Open(columns, at)
    requires forall c :: 0 <= c < FIELDS ==> columns[c].times[at[c]] == stamp && next[c] == at[c] + 1
    ensures InRange(columns, at) && InRange(columns, next)
    ensures Whole(columns, at, t) == Whole(columns, next, t) + if stamp == t then 1 else 0
  {
    assert forall c :: 0 <= c < FIELDS ==>
        columns[c].Left(at[c], t) == columns[c].Left(next[c], t) + (if stamp == t then 1 else 0);
  }

  lemma SourcedOneMore(columns: seq<Column>, at: Cursor, fix: Fix, fixes: seq<Fix>, from: seq<Cursor>)
    requires Ready(columns) && Open(columns, at) && Sourced(columns, fixes, from) && |fix.values| == FIELDS
    requires forall c :: 0 <= c < FIELDS ==> columns[c].times[at[c]] == fix.stamp && columns[c].values[at[c]] == fix.values[c]
    ensures Sourced(columns, fixes + [fix], from + [at])
  {
  }

  lemma MergedDone(columns: seq<Column>, at: Cursor, fixes: seq<Fix>, from: seq<Cursor>, partial: int)
    requires Merged(columns, at, fixes, from, partial) && !Open(columns, at)
    ensures forall t :: Yielded(fixes, t) == Whole(columns, [0, 0, 0, 0], t)
    ensures Rising(from, Lengths(columns))
  {
    forall t ensures Yielded(fixes, t) == Whole(columns, [0, 0, 0, 0], t) {
      NothingWhole(columns, at, t);
      assert Yielded(fixes, t) + Whole(columns, at, t) == Whole(columns, [0, 0, 0, 0], t);
    }
    RisingToEnd(columns, at, from);
  }

  lemma NothingWhole(columns: seq<Column>, at: Cursor, t: int)
    requires Ready(columns) && InRange(columns, at) && !Open(columns, at)
    ensures Whole(columns, at, t) == 0
  {
  }

  lemma RisingToEnd(columns: seq<Column>, at: Cursor, from: seq<Cursor>)
    requires Ready(columns) && InRange(columns, at) && Rising(from, at)
    ensures Rising(from, Lengths(columns))
  {
    forall c | 0 <= c < FIELDS ensures at[c] <= Lengths(columns)[c] {
    }
  }

  lemma {:induction false} LeftAtMostOnce(column: Column, i: nat, t: int)
    requires column.Ordered() && column.NoRepeats() && i <= |column.times|
    ensures column.Left(i, t) == if t in column.times[i..] then 1 else 0
    decreases |column.times| - i
  {
    if i < |column.times| {
      LeftAtMostOnce(column, i + 1, t);
      assert column.times[i..] == [column.times[i]] + column.times[i + 1..];
      if column.times[i] == t {
        NoneBelowHead(column, i + 1, t);
      }
    }
  }

  /** Without repeats, the available stamps are those present in all four columns. */
  lemma WholeIsPresentInAll(columns: seq<Column>, t: int)
    requires Ready(columns) && forall c :: 0 <= c < FIELDS ==> columns[c].NoRepeats()
    ensures Whole(columns, [0, 0, 0, 0], t) ==
            if forall c :: 0 <= c < FIELDS ==> t in columns[c].times then 1 else 0
  {
    forall c | 0 <= c < FIELDS
      ensures columns[c].Left(0, t) == if t in columns[c].times then 1 else 0
    {
      LeftAtMostOnce(columns[c], 0, t);
      assert columns[c].times[0..] == columns[c].times;
    }
  }

  function Newest(stamps: seq<int>): (m: int)
    requires |stamps| > 0
    ensures m in stamps && forall i :: 0 <= i < |stamps| ==> stamps[i] <= m
  {
    if |stamps| == 1 then stamps[0]
    else
      assert stamps == [stamps[0]] + stamps[1..];
      var rest := Newest(stamps[1..]);
      if stamps[0] <= rest then rest else stamps[0]
  }

  /** The inner loop over the fields: only columns behind `newest` move, and each move is counted. */
  method AdvanceLaggards(stamps: seq<int>, newest: int, at: Cursor) returns (next: Cursor, moved: nat)
    requires |stamps| == FIELDS
    ensures forall b :: 0 <= b < FIELDS ==> next[b] == if stamps[b] < newest then at[b] + 1 else at[b]
    ensures moved == Total(next) - Total(at)
    ensures moved == 0 ==> forall b :: 0 <= b < FIELDS ==> newest <= stamps[b]
  {
    next, moved := at, 0;
    for c := 0 to FIELDS
      invariant |next| == FIELDS && moved == Total(next) - Total(at)
      invariant moved == 0 ==> forall b :: 0 <= b < c ==> newest <= stamps[b]
      invariant forall b :: 0 <= b < c ==> next[b] == if stamps[b] < newest then at[b] + 1 else at[b]
      invariant forall b :: c <= b < FIELDS ==> next[b] == at[b]
    {
      if stamps[c] < newest {
        next := next[c := next[c] + 1];
        moved := moved + 1;
      }
    }
  }

  /** The closing loop: the points no column can pair any more. */
  method Leftovers(columns: seq<Column>, at: Cursor) returns (left: nat)
    requires Ready(columns) && InRange(columns, at)
    ensures left == Total(Lengths(columns)) - Total(at)
  {
    left := 0;
    for c := 0 to FIELDS
      invariant left == (if c > 0 then |columns[0].times| - at[0] else 0) + (if c > 1 then |columns[1].times| - at[1] else 0) +
                        (if c > 2 then |columns[2].times| - at[2] else 0) + (if c > 3 then |columns[3].times| - at[3] else 0)
    {
      left := left + (|columns[c].times| - at[c]);
    }
  }

  /** Stamps that disagree: the columns behind the newest move on. */
  method Resync(columns: seq<Column>, at: Cursor, stamps: seq<int>, newest: int,
                fixes: seq<Fix>, partial: int, ghost from: seq<Cursor>)
    returns (at': Cursor, partial': int)
    requires Merged(columns, at, fixes, from, partial) && Open(columns, at) && |stamps| == FIELDS
    requires forall c :: 0 <= c < FIELDS ==> stamps[c] == columns[c].times[at[c]] && stamps[c] <= newest
    requires (exists d :: 0 <= d < FIELDS && stamps[d] == newest) && exists d :: 0 <= d < FIELDS && stamps[d] != newest
    ensures Merged(columns, at', fixes, from, partial')
    ensures Total(at') > Total(at)
  {
    ghost var d :| 0 <= d < FIELDS && stamps[d] == newest;
    var moved;
    at', moved := AdvanceLaggards(stamps, newest, at);
    assert Advanced(columns, at, at', newest);
    partial' := partial + moved;
    MergedAdvance(columns, at, at', newest, d, fixes, from, partial);
  }

  /** One pass of the outer loop: every pass moves at least one index on. */
  method MergePass(columns: seq<Column>, at: Cursor, fixes: seq<Fix>, partial: int, ghost from: seq<Cursor>)
    returns (at': Cursor, fixes': seq<Fix>, partial': int, ghost from': seq<Cursor>)
    requires Merged(columns, at, fixes, from, partial) && Open(columns, at)
    ensures Merged(columns, at', fixes', from', partial')
    ensures Total(at') > Total(at)
  {
    var stamps := [columns[0].times[at[0]], columns[1].times[at[1]], columns[2].times[at[2]], columns[3].times[at[3]]];
    var newest := Newest(stamps);
    at', fixes', partial', from' := at, fixes, partial, from;
    if stamps[0] != newest || stamps[1] != newest || stamps[2] != newest || stamps[3] != newest {
      at', partial' := Resync(columns, at, stamps, newest, fixes, partial, from);
    } else {
      var fix := Fix(newest, [columns[0].values[at[0]], columns[1].values[at[1]],
                              columns[2].values[at[2]], columns[3].values[at[3]]]);
      at' := [at[0] + 1, at[1] + 1, at[2] + 1, at[3] + 1];
      MergedYield(columns, at, at', fix, fixes, from, partial);
      fixes', from' := fixes + [fix], from + [at];
    }
  }

  /**
   `merge_fixes`: `fixes` in the order yielded and the `partial_fixes` counter,
   which starts at zero. `from[k]` is where fix `k` stood in the four columns.
   */
  method MergeFixes(columns: seq<Column>) returns (fixes: seq<Fix>, partial: int, ghost from: seq<Cursor>)
    requires Ready(columns)
    ensures Sourced(columns, fixes, from)
    ensures Rising(from, Lengths(columns))
    ensures forall t :: Yielded(fixes, t) == Whole(columns, [0, 0, 0, 0], t)
    ensures FIELDS * |fixes| + partial == Total(Lengths(columns))
  {
    var at: Cursor := [0, 0, 0, 0];
    fixes, partial, from := [], 0, [];
    while at[0] < |columns[0].times| && at[1] < |columns[1].times| &&
          at[2] < |columns[2].times| && at[3] < |columns[3].times|
      invariant Merged(columns, at, fixes, from, partial)
      decreases Total(Lengths(columns)) - Total(at)
    {
      at, fixes, partial, from := MergePass(columns, at, fixes, partial, from);
    }
    MergedDone(columns, at, fixes, from, partial);
    var left := Leftovers(columns, at);
    partial := partial + left;
  }

  /** For columns without repeats the fixes are exactly the stamps all four columns carry, each once. */
  lemma FixesArePresentInAll(columns: seq<Column>, fixes: seq<Fix>, t: int)
    requires Ready(columns) && forall c :: 0 <= c < FIELDS ==> columns[c].NoRepeats()
    requires forall s :: Yielded(fixes, s) == Whole(columns, [0, 0, 0, 0], s)
    ensures Yielded(fixes, t) == if forall c :: 0 <= c < FIELDS ==> t in columns[c].times then 1 else 0
  {
    WholeIsPresentInAll(columns, t);
  }

  /** The fixes come out in timestamp order, strictly so where no column repeats a stamp. */
  lemma FixesInOrder(columns: seq<Column>, fixes: seq<Fix>, from: seq<Cursor>, k: nat, l: nat)
    requires Ready(columns) && Sourced(columns, fixes, from) && Rising(from, Lengths(columns))
    requires k < l < |fixes|
    ensures fixes[k].stamp <= fixes[l].stamp
    ensures columns[0].NoRepeats() ==> fixes[k].stamp < fixes[l].stamp
  {
    assert from[k][0] < from[l][0] < |columns[0].times|;
  }
}
