/**
 * A one-row pandas DataFrame and the three operations the prediction page
 * applies to it: `astype(int)` on a column, `get_dummies` and `reindex`.
 * With a single row, a frame is its columns in order, each holding the
 * row's one cell.
 */
module Frames {
  import opened Wrappers

  /** A cell, in the dtypes the page's frame holds. */
  datatype Cell = Text(s: string) | Int(i: int) | Real(r: real) | Bool(b: bool)

  datatype Column = Column(name: string, value: Cell)

  /** A one-row frame: the columns in order with the row's cells. */
  type Frame = seq<Column>

  function Names(f: Frame): seq<string> {
    seq(|f|, i requires 0 <= i < |f| => f[i].name)
  }

  predicate Distinct(names: seq<string>) {
    forall i, j :: 0 <= i < j < |names| ==> names[i] != names[j]
  }

  lemma NamesCons(f: Frame)
    requires f != []
    ensures Names(f) == [f[0].name] + Names(f[1..])
  {
    assert Names(f)[1..] == Names(f[1..]);
  }

  /** The cell of the first column with the given label, if any. */
  function Lookup(f: Frame, name: string): (r: Option<Cell>)
    ensures r.Some? <==> name in Names(f)
    ensures r.Some? ==> Column(name, r.value) in f
  {
    if f == [] then None
    else
      NamesCons(f);
      if f[0].name == name then Some(f[0].value) else Lookup(f[1..], name)
  }

  /** When labels are unique, looking a column up by its label finds that column's cell. */
  lemma {:induction false} LookupDistinct(f: Frame, x: Column)
    requires Distinct(Names(f)) && x in f
    ensures Lookup(f, x.name) == Some(x.value)
  {
    if f[0] != x {
      var k :| 0 <= k < |f| && f[k] == x;
      assert k != 0;
      assert Names(f)[0] != Names(f)[k];
      assert Names(f[1..]) == Names(f)[1..];
      assert x in f[1..];
      LookupDistinct(f[1..], x);
    }
  }

  // ---------------------------------------------------------------------
  // astype(int)

  /** Python's int() on a cell: booleans become 0 or 1, floats are truncated toward zero. */
  function AsInt(c: Cell): (r: Cell)
    requires !c.Text?
    ensures r.Int?
    ensures c.Bool? ==> (r.i == 1 <==> c.b) && (r.i == 0 <==> !c.b)
    ensures c.Int? ==> r == c
    ensures c.Real? && 0.0 <= c.r ==> 0 <= r.i && r.i as real <= c.r < r.i as real + 1.0
    ensures c.Real? && c.r < 0.0 ==> r.i <= 0 && r.i as real - 1.0 < c.r <= r.i as real
  {
    match c
    case Bool(b) => Int(if b then 1 else 0)
    case Int(_) => c
    case Real(x) => Int(if 0.0 <= x then x.Floor else -((-x).Floor))
  }

  /**
   * `df[name] = v`: every column with that label now holds v; a label the
   * frame lacks is appended as a new last column.
   */
  function AssignColumn(f: Frame, name: string, v: Cell): Frame {
    if name in Names(f) then Overwrite(f, name, v) else f + [Column(name, v)]
  }

  /** The frame with every column labelled name holding v. */
  function Overwrite(f: Frame, name: string, v: Cell): Frame {
    seq(|f|, i requires 0 <= i < |f| => if f[i].name == name then Column(name, v) else f[i])
  }

  /** Looking up a label in a frame with one more column at the end. */
  lemma {:induction false} LookupAppend(f: Frame, x: Column, other: string)
    ensures Lookup(f + [x], other) ==
              if other in Names(f) then Lookup(f, other) else if other == x.name then Some(x.value) else None
  {
    if f == [] {
      assert [x][1..] == [];
    } else {
      var g := f + [x];
      assert g[0] == f[0];
      assert g[1..] == f[1..] + [x];
      NamesCons(f);
      LookupAppend(f[1..], x, other);
    }
  }

  /** Overwriting every column of a label changes the cell found under it and no other. */
  lemma {:induction false} LookupAfterOverwrite(f: Frame, name: string, v: Cell)
    ensures Names(Overwrite(f, name, v)) == Names(f)
    ensures forall other :: Lookup(Overwrite(f, name, v), other) ==
              if other == name && name in Names(f) then Some(v) else Lookup(f, other)
  {
    var g := Overwrite(f, name, v);
    assert Names(g) == Names(f);
    if f != [] {
      assert g[1..] == Overwrite(f[1..], name, v);
      NamesCons(f);
      LookupAfterOverwrite(f[1..], name, v);
    }
  }

  /**
   * After `df[name] = v` the label holds v, every other label keeps its cell,
   * and the labels are the old ones, with name appended if it was missing.
   */
  lemma LookupAfterAssign(f: Frame, name: string, v: Cell)
    ensures Names(AssignColumn(f, name, v)) == if name in Names(f) then Names(f) else Names(f) + [name]
    ensures forall other :: Lookup(AssignColumn(f, name, v), other) ==
              if other == name then Some(v) else Lookup(f, other)
  {
    if name in Names(f) {
      LookupAfterOverwrite(f, name, v);
    } else {
      assert Names(f + [Column(name, v)]) == Names(f) + [name];
      forall other
        ensures Lookup(AssignColumn(f, name, v), other) == if other == name then Some(v) else Lookup(f, other)
      {
        LookupAppend(f, Column(name, v), other);
      }
    }
  }

  // ---------------------------------------------------------------------
  // get_dummies

  /**
   * Where get_dummies takes a column's levels from. A plain column of a
   * one-row frame has exactly one observed level, its own cell (pandas sorts
   * the observed levels; one level is already sorted). A column given a
   * categorical dtype has the declared categories, whatever the row holds.
   */
  datatype LevelSource = ObservedInRow | Declared(categories: map<string, seq<Cell>>)

  function Levels(f: Frame, col: string, src: LevelSource): seq<Cell> {
    if src.Declared? && col in src.categories then src.categories[col]
    else match Lookup(f, col)
      case Some(v) => [v]
      case None => []
  }

  /** The levels that get an indicator column: with drop_first, all but the first. */
  function KeptLevels(f: Frame, col: string, dropFirst: bool, src: LevelSource): (kept: seq<Cell>)
    ensures forall l :: l in kept ==> l in Levels(f, col, src)
    ensures |kept| == if dropFirst && |Levels(f, col, src)| > 0 then |Levels(f, col, src)| - 1 else |Levels(f, col, src)|
  {
    var levels := Levels(f, col, src);
    if dropFirst && |levels| > 0 then levels[1..] else levels
  }

  /** A column get_dummies can expand: it exists and none of its levels is a float. */
  predicate Expandable(f: Frame, col: string, src: LevelSource) {
    col in Names(f) && forall l :: l in Levels(f, col, src) ==> !l.Real?
  }

  function DigitChar(d: nat): char
    requires d < 10
  {
    ('0' as int + d) as char
  }

  function NatText(n: nat): string {
    if n < 10 then [DigitChar(n)] else NatText(n / 10) + [DigitChar(n % 10)]
  }

  function IntText(i: int): string {
    if i < 0 then "-" + NatText(-i) else NatText(i)
  }

  /** Python's str() of a level, as it appears in an indicator column's label. */
  function LevelText(c: Cell): string
    requires !c.Real?
  {
    match c
    case Text(s) => s
    case Int(i) => IntText(i)
    case Bool(b) => if b then "True" else "False"
  }

  /** The label of the indicator column of a level: `<column>_<level>`. */
  function IndicatorName(col: string, level: Cell): string
    requires !level.Real?
  {
    col + "_" + LevelText(level)
  }

  /** One indicator column per level, 1 where the row's cell is that level. */
  function Indicators(col: string, cell: Cell, levels: seq<Cell>): Frame
    requires forall l :: l in levels ==> !l.Real?
  {
    seq(|levels|, i requires 0 <= i < |levels| =>
      Column(IndicatorName(col, levels[i]), Int(if cell == levels[i] then 1 else 0)))
  }

  function DummyBlock(f: Frame, col: string, dropFirst: bool, src: LevelSource): Frame
    requires Expandable(f, col, src)
  {
    Indicators(col, Lookup(f, col).value, KeptLevels(f, col, dropFirst, src))
  }

  function DummyBlocks(f: Frame, cols: seq<string>, dropFirst: bool, src: LevelSource): Frame
    requires forall c :: c in cols ==> Expandable(f, c, src)
  {
    if cols == [] then []
    else DummyBlock(f, cols[0], dropFirst, src) + DummyBlocks(f, cols[1..], dropFirst, src)
  }

  /** The columns get_dummies leaves alone, in their original order. */
  function DropColumns(f: Frame, cols: seq<string>): (r: Frame)
    ensures forall x :: x in r <==> x in f && x.name !in cols
    ensures |r| <= |f|
    ensures forall n :: n in Names(r) <==> n in Names(f) && n !in cols
  {
    if f == [] then []
    else
      var rest := DropColumns(f[1..], cols);
      NamesCons(f);
      NamesAppend([f[0]], rest);
      assert Names([f[0]]) == [f[0].name];
      if f[0].name in cols then rest else [f[0]] + rest
  }

  /** Dropping columns keeps labels unique. */
  lemma {:induction false} DropKeepsDistinct(f: Frame, cols: seq<string>)
    requires Distinct(Names(f))
    ensures Distinct(Names(DropColumns(f, cols)))
  {
    if f != [] {
      var rest := DropColumns(f[1..], cols);
      assert Names(f[1..]) == Names(f)[1..];
      DropKeepsDistinct(f[1..], cols);
      if f[0].name !in cols {
        NamesCons(f);
        NamesAppend([f[0]], rest);
        DistinctAppend([f[0].name], Names(rest));
      }
    }
  }

  /**
   * `get_dummies(f, columns=cols, drop_first=dropFirst)`: the other columns
   * first, then for each listed column in turn its indicator columns.
   */
  function GetDummies(f: Frame, cols: seq<string>, dropFirst: bool, src: LevelSource): Frame
    requires forall c :: c in cols ==> Expandable(f, c, src)
  {
    DropColumns(f, cols) + DummyBlocks(f, cols, dropFirst, src)
  }

  /**
   * The single-row defect: with drop_first, a column whose levels are only
   * the ones observed in a one-row frame loses its only level, so no
   * indicator column is produced at all.
   */
  lemma {:induction false} ObservedDropFirstLeavesNoIndicators(f: Frame, cols: seq<string>)
    requires forall c :: c in cols ==> Expandable(f, c, ObservedInRow)
    ensures DummyBlocks(f, cols, true, ObservedInRow) == []
    ensures GetDummies(f, cols, true, ObservedInRow) == DropColumns(f, cols)
  {
    if cols != [] {
      assert |KeptLevels(f, cols[0], true, ObservedInRow)| == 0;
      ObservedDropFirstLeavesNoIndicators(f, cols[1..]);
    }
  }

  /** Without drop_first the observed level of a one-row column does get its indicator, set to 1. */
  lemma ObservedLevelKeptWithoutDropFirst(f: Frame, col: string)
    requires Expandable(f, col, ObservedInRow)
    ensures DummyBlock(f, col, false, ObservedInRow) ==
            [Column(IndicatorName(col, Lookup(f, col).value), Int(1))]
  {
  }

  /** Every kept level of every expanded column has its indicator column, 1 exactly on the row's own level. */
  lemma {:induction false} IndicatorPresent(f: Frame, cols: seq<string>, dropFirst: bool, src: LevelSource,
                                            col: string, level: Cell)
    requires forall c :: c in cols ==> Expandable(f, c, src)
    requires col in cols && level in KeptLevels(f, col, dropFirst, src)
    ensures !level.Real?
    ensures Column(IndicatorName(col, level), Int(if Lookup(f, col) == Some(level) then 1 else 0))
              in DummyBlocks(f, cols, dropFirst, src)
  {
    var x := Column(IndicatorName(col, level), Int(if Lookup(f, col) == Some(level) then 1 else 0));
    if cols[0] == col {
      var kept := KeptLevels(f, col, dropFirst, src);
      var k :| 0 <= k < |kept| && kept[k] == level;
      assert DummyBlock(f, col, dropFirst, src)[k] == x;
    } else {
      IndicatorPresent(f, cols[1..], dropFirst, src, col, level);
    }
  }

  /** x is the indicator column of a kept level of one of the encoded columns. */
  predicate IsIndicator(f: Frame, cols: seq<string>, dropFirst: bool, src: LevelSource, x: Column)
    requires forall c :: c in cols ==> Expandable(f, c, src)
  {
    exists c, l :: c in cols && l in KeptLevels(f, c, dropFirst, src) && !l.Real? &&
      x == Column(IndicatorName(c, l), Int(if Lookup(f, c) == Some(l) then 1 else 0))
  }

  /** The indicator blocks hold nothing but indicator columns of kept levels. */
  lemma {:induction false} IndicatorOnly(f: Frame, cols: seq<string>, dropFirst: bool, src: LevelSource, x: Column)
    requires forall c :: c in cols ==> Expandable(f, c, src)
    requires x in DummyBlocks(f, cols, dropFirst, src)
    ensures IsIndicator(f, cols, dropFirst, src, x)
  {
    var first := DummyBlock(f, cols[0], dropFirst, src);
    if x in first {
      var kept := KeptLevels(f, cols[0], dropFirst, src);
      var k :| 0 <= k < |first| && first[k] == x;
      assert kept[k] in kept;
      assert cols[0] in cols;
    } else {
      IndicatorOnly(f, cols[1..], dropFirst, src, x);
      var c, l :| c in cols[1..] && l in KeptLevels(f, c, dropFirst, src) && !l.Real? &&
        x == Column(IndicatorName(c, l), Int(if Lookup(f, c) == Some(l) then 1 else 0));
      assert c in cols;
    }
  }

  /**
   * The columns of get_dummies, both ways: a column is in the result exactly
   * when it is an unencoded column of the frame or the indicator of a kept level.
   */
  lemma GetDummiesColumns(f: Frame, cols: seq<string>, dropFirst: bool, src: LevelSource, x: Column)
    requires forall c :: c in cols ==> Expandable(f, c, src)
    ensures x in GetDummies(f, cols, dropFirst, src) <==>
              (x in f && x.name !in cols) || IsIndicator(f, cols, dropFirst, src, x)
  {
    if x in DummyBlocks(f, cols, dropFirst, src) {
      IndicatorOnly(f, cols, dropFirst, src, x);
    }
    if IsIndicator(f, cols, dropFirst, src, x) {
      var c, l :| c in cols && l in KeptLevels(f, c, dropFirst, src) && !l.Real? &&
        x == Column(IndicatorName(c, l), Int(if Lookup(f, c) == Some(l) then 1 else 0));
      IndicatorPresent(f, cols, dropFirst, src, c, l);
    }
  }

  // ---------------------------------------------------------------------
  // Unique labels after get_dummies. Labels are told apart by their first
  // two characters (their head) across columns, and by the level's text
  // within one column.

  /** s and t have at least two characters and agree on the first two. */
  predicate SameHead(s: string, t: string) {
    |s| >= 2 && |t| >= 2 && s[0] == t[0] && s[1] == t[1]
  }

  predicate DistinctHeads(cols: seq<string>) {
    && (forall c :: c in cols ==> |c| >= 2)
    && forall i, j :: 0 <= i < j < |cols| ==> !SameHead(cols[i], cols[j])
  }

  predicate DistinctLevelTexts(levels: seq<Cell>)
    requires forall l :: l in levels ==> !l.Real?
  {
    forall i, j :: 0 <= i < j < |levels| ==> LevelText(levels[i]) != LevelText(levels[j])
  }

  lemma NamesAppend(a: Frame, b: Frame)
    ensures Names(a + b) == Names(a) + Names(b)
  {
  }

  lemma DistinctAppend(a: seq<string>, b: seq<string>)
    requires Distinct(a) && Distinct(b)
    requires forall x :: x in a ==> x !in b
    ensures Distinct(a + b)
  {
    forall i, j | 0 <= i < j < |a + b|
      ensures (a + b)[i] != (a + b)[j]
    {
      if i < |a| && |a| <= j {
        assert (a + b)[i] in a && (a + b)[j] in b;
      }
    }
  }

  /** An indicator label starts with its column's head, and determines its level's text. */
  lemma IndicatorNameParts(col: string, l1: Cell, l2: Cell)
    requires |col| >= 2 && !l1.Real? && !l2.Real?
    ensures SameHead(IndicatorName(col, l1), col)
    ensures IndicatorName(col, l1) == IndicatorName(col, l2) ==> LevelText(l1) == LevelText(l2)
  {
    assert IndicatorName(col, l1)[|col| + 1..] == LevelText(l1);
    assert IndicatorName(col, l2)[|col| + 1..] == LevelText(l2);
  }

  lemma BlockLabels(f: Frame, col: string, dropFirst: bool, src: LevelSource)
    requires Expandable(f, col, src) && |col| >= 2
    requires DistinctLevelTexts(KeptLevels(f, col, dropFirst, src))
    ensures Distinct(Names(DummyBlock(f, col, dropFirst, src)))
    ensures forall n :: n in Names(DummyBlock(f, col, dropFirst, src)) ==> SameHead(n, col)
  {
    var kept := KeptLevels(f, col, dropFirst, src);
    var names := Names(DummyBlock(f, col, dropFirst, src));
    forall i, j | 0 <= i < j < |names|
      ensures names[i] != names[j]
    {
      IndicatorNameParts(col, kept[i], kept[j]);
    }
    forall n | n in names
      ensures SameHead(n, col)
    {
      var i :| 0 <= i < |names| && names[i] == n;
      IndicatorNameParts(col, kept[i], kept[i]);
    }
  }

  /** The indicator labels of columns with distinct heads and distinct level texts are all different. */
  lemma {:induction false} BlocksLabels(f: Frame, cols: seq<string>, dropFirst: bool, src: LevelSource)
    requires forall c :: c in cols ==> Expandable(f, c, src) && DistinctLevelTexts(KeptLevels(f, c, dropFirst, src))
    requires DistinctHeads(cols)
    ensures Distinct(Names(DummyBlocks(f, cols, dropFirst, src)))
    ensures forall n :: n in Names(DummyBlocks(f, cols, dropFirst, src)) ==>
              exists c :: c in cols && SameHead(n, c)
  {
    if cols != [] {
      var first := DummyBlock(f, cols[0], dropFirst, src);
      var rest := DummyBlocks(f, cols[1..], dropFirst, src);
      BlockLabels(f, cols[0], dropFirst, src);
      assert DistinctHeads(cols[1..]) by {
        forall i, j | 0 <= i < j < |cols[1..]|
          ensures !SameHead(cols[1..][i], cols[1..][j])
        {
          assert cols[1..][i] == cols[i + 1] && cols[1..][j] == cols[j + 1];
        }
      }
      BlocksLabels(f, cols[1..], dropFirst, src);
      forall n | n in Names(first)
        ensures n !in Names(rest)
      {
      }
      NamesAppend(first, rest);
      DistinctAppend(Names(first), Names(rest));
    }
  }

  // ---------------------------------------------------------------------
  // reindex

  datatype ReindexError = DuplicateLabels

  function CellOrZero(o: Option<Cell>): Cell {
    match o
    case Some(v) => v
    case None => Int(0)
  }

  /** The target labels with, for each, the frame's cell under it or the fill value 0. */
  function Fill(f: Frame, schema: seq<string>): (r: Frame)
    ensures Names(r) == schema
    ensures forall i :: 0 <= i < |schema| ==> r[i].value == CellOrZero(Lookup(f, schema[i]))
  {
    if schema == [] then []
    else [Column(schema[0], CellOrZero(Lookup(f, schema[0])))] + Fill(f, schema[1..])
  }

  /** In a frame with distinct labels every column is found under its own label. */
  lemma LookupEachColumn(f: Frame)
    requires Distinct(Names(f))
    ensures forall i :: 0 <= i < |f| ==> Lookup(f, f[i].name) == Some(f[i].value)
  {
    forall i | 0 <= i < |f|
      ensures Lookup(f, f[i].name) == Some(f[i].value)
    {
      LookupDistinct(f, f[i]);
    }
  }

  /**
   * `reindex(columns=schema, fill_value=0)`: a target equal to the frame's own
   * labels gives the frame back; otherwise pandas refuses a frame whose labels
   * repeat, and builds exactly the schema's columns from a frame whose do not.
   */
  function Reindex(f: Frame, schema: seq<string>): (r: Result<Frame, ReindexError>)
    ensures r.Failure? <==> !Distinct(Names(f)) && Names(f) != schema
    ensures r.Success? ==> Names(r.value) == schema && |r.value| == |schema|
    ensures Names(f) == schema ==> r == Success(f)
    ensures Distinct(Names(f)) ==> r.Success? && forall i :: 0 <= i < |schema| ==>
              r.value[i].value == (if schema[i] in Names(f) then Lookup(f, schema[i]).value else Int(0))
  {
    if Names(f) == schema then
      if Distinct(Names(f)) then
        LookupEachColumn(f);
        assert forall i :: 0 <= i < |schema| ==> f[i].name == schema[i];
        Success(f)
      else Success(f)
    else if Distinct(Names(f)) then Success(Fill(f, schema))
    else Failure(DuplicateLabels)
  }
}
