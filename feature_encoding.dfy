/**
 * The encode-and-align block of the prediction handler: the form's values
 * become a one-row frame, its two boolean columns are cast to int in place,
 * six columns go through get_dummies with drop_first, and the result is
 * reindexed against the training feature list with fill value 0.
 */
module FeatureEncoding {
  import opened Wrappers
  import opened Frames

  /** The form's values when the button is pressed. */
  datatype RawInput = RawInput(
    region: string,
    soilType: string,
    crop: string,
    rainfallMm: real,
    temperatureCelsius: real,
    fertilizerUsed: bool,
    irrigationUsed: bool,
    weatherCondition: string,
    daysToHarvest: int)

  /** The values the form's widgets can produce. */
  predicate FromForm(input: RawInput) {
    && input.region in ["West", "East", "North", "South"]
    && input.weatherCondition in ["Sunny", "Cloudy", "Rainy"]
    && 0.0 <= input.rainfallMm
    && 0.0 <= input.temperatureCelsius
    && input.soilType in ["Sandy", "Loamy", "Clay"]
    && input.crop in ["Wheat", "Rice", "Cotton", "Maize"]
    && 1 <= input.daysToHarvest
  }

  /** `pd.DataFrame(input_data)`: one row, the columns in the order of the dict literal. */
  function InputFrame(input: RawInput): Frame {
    [ Column("Region", Text(input.region)),
      Column("Soil_Type", Text(input.soilType)),
      Column("Crop", Text(input.crop)),
      Column("Rainfall_mm", Real(input.rainfallMm)),
      Column("Temperature_Celsius", Real(input.temperatureCelsius)),
      Column("Fertilizer_Used", Bool(input.fertilizerUsed)),
      Column("Irrigation_Used", Bool(input.irrigationUsed)),
      Column("Weather_Condition", Text(input.weatherCondition)),
      Column("Days_to_Harvest", Int(input.daysToHarvest)) ]
  }

  /** The labels of the input frame, in order. */
  const InputLabels: seq<string> := ["Region", "Soil_Type", "Crop", "Rainfall_mm", "Temperature_Celsius",
                                     "Fertilizer_Used", "Irrigation_Used", "Weather_Condition", "Days_to_Harvest"]

  /** The columns cast with astype(int), in loop order. */
  const BoolColumns: seq<string> := ["Fertilizer_Used", "Irrigation_Used"]

  /** The columns handed to get_dummies. */
  const CategoricalColumns: seq<string> :=
    ["Region", "Soil_Type", "Crop", "Fertilizer_Used", "Irrigation_Used", "Weather_Condition"]

  /** The columns get_dummies leaves alone. */
  const NumericColumns: seq<string> := ["Rainfall_mm", "Temperature_Celsius", "Days_to_Harvest"]

  /** The cell of a numeric column in the input frame. */
  function NumericCell(input: RawInput, name: string): Cell
    requires name in NumericColumns
  {
    if name == "Rainfall_mm" then Real(input.rainfallMm)
    else if name == "Temperature_Celsius" then Real(input.temperatureCelsius)
    else Int(input.daysToHarvest)
  }

  /** The cell of a categorical column after the astype(int) loop. */
  function CategoricalCell(input: RawInput, name: string): Cell
    requires name in CategoricalColumns
  {
    if name == "Region" then Text(input.region)
    else if name == "Soil_Type" then Text(input.soilType)
    else if name == "Crop" then Text(input.crop)
    else if name == "Fertilizer_Used" then Int(if input.fertilizerUsed then 1 else 0)
    else if name == "Irrigation_Used" then Int(if input.irrigationUsed then 1 else 0)
    else Text(input.weatherCondition)
  }

  /** The input frame's labels are the dict literal's keys, all different. */
  lemma InputFrameLabels(input: RawInput)
    ensures Names(InputFrame(input)) == InputLabels
    ensures Distinct(Names(InputFrame(input)))
  {
  }

  /** Each column of the input frame is found under its label. */
  lemma InputFrameColumns(input: RawInput)
    ensures Names(InputFrame(input)) == InputLabels
    ensures Distinct(Names(InputFrame(input)))
    ensures forall x :: x in InputFrame(input) ==> Lookup(InputFrame(input), x.name) == Some(x.value)
  {
    InputFrameLabels(input);
    forall x | x in InputFrame(input)
      ensures Lookup(InputFrame(input), x.name) == Some(x.value)
    {
      LookupDistinct(InputFrame(input), x);
    }
  }

  // ---------------------------------------------------------------------
  // The astype(int) loop

  /** A column astype(int) accepts: present and not text. */
  predicate Convertible(f: Frame, name: string) {
    Lookup(f, name).Some? && !Lookup(f, name).value.Text?
  }

  /** `f[name] = f[name].astype(int)`. */
  function AsIntColumn(f: Frame, name: string): (r: Frame)
    requires Convertible(f, name)
    ensures Names(r) == Names(f)
    ensures Lookup(r, name) == Some(AsInt(Lookup(f, name).value))
    ensures forall other :: other != name ==> Lookup(r, other) == Lookup(f, other)
  {
    LookupAfterAssign(f, name, AsInt(Lookup(f, name).value));
    AssignColumn(f, name, AsInt(Lookup(f, name).value))
  }

  /**
   * The frame after casting the given columns in order. Each cast column
   * holds the integer of its original cell (casting twice changes nothing),
   * every other column is untouched, and no column is added or removed.
   */
  function CoerceColumns(f: Frame, cols: seq<string>): (r: Frame)
    requires forall c :: c in cols ==> Convertible(f, c)
    ensures Names(r) == Names(f)
    ensures forall c :: c in cols ==> Convertible(f, c) && Lookup(r, c) == Some(AsInt(Lookup(f, c).value))
    ensures forall c :: c !in cols ==> Lookup(r, c) == Lookup(f, c)
    decreases |cols|
  {
    if cols == [] then f
    else
      var init := cols[..|cols| - 1];
      var last := cols[|cols| - 1];
      assert forall c :: c in init ==> c in cols;
      assert forall c :: c in cols ==> c in init || c == last;
      var g := CoerceColumns(f, init);
      assert Convertible(f, last) by { assert last in cols; }
      assert Convertible(g, last);
      AsIntColumn(g, last)
  }

  /** Casting one more column extends the frame of the columns cast so far. */
  lemma CoerceSnoc(f: Frame, done: seq<string>, c: string)
    requires forall x :: x in done + [c] ==> Convertible(f, x)
    ensures Convertible(CoerceColumns(f, done), c)
    ensures CoerceColumns(f, done + [c]) == AsIntColumn(CoerceColumns(f, done), c)
  {
    assert (done + [c])[..|done|] == done;
    assert c in done + [c];
  }

  /** One more turn of the cast loop: the next column is still castable, and casting it extends the prefix. */
  lemma CoerceStep(f: Frame, cols: seq<string>, i: nat)
    requires i < |cols|
    requires forall c :: c in cols ==> Convertible(f, c)
    ensures Convertible(CoerceColumns(f, cols[..i]), cols[i])
    ensures CoerceColumns(f, cols[..i + 1]) == AsIntColumn(CoerceColumns(f, cols[..i]), cols[i])
  {
    assert cols[..i + 1] == cols[..i] + [cols[i]];
    CoerceSnoc(f, cols[..i], cols[i]);
  }

  /** The pandas frame `input_df`, whose columns the handler casts in place. */
  class InputTable {
    var columns: Frame

    constructor (input: RawInput)
      ensures columns == InputFrame(input)
    {
      columns := InputFrame(input);
    }

    /** `input_df[name] = input_df[name].astype(int)`. */
    method AsTypeInt(name: string)
      requires Convertible(columns, name)
      modifies this
      ensures columns == AsIntColumn(old(columns), name)
      ensures Names(columns) == Names(old(columns))
    {
      var cell := Lookup(columns, name).value;
      columns := AssignColumn(columns, name, AsInt(cell));
    }
  }

  /** The cell a label holds once the loop has cast the booleans. */
  function CastCell(input: RawInput, name: string): Cell
    requires name in InputLabels
  {
    if name in NumericColumns then NumericCell(input, name) else CategoricalCell(input, name)
  }

  /** The input frame after the astype(int) loop, column by column. */
  function CoercedInput(input: RawInput): Frame {
    seq(|InputLabels|, i requires 0 <= i < |InputLabels| => Column(InputLabels[i], CastCell(input, InputLabels[i])))
  }

  /** The cast frame has the input frame's labels, and each column is found under its label. */
  lemma CoercedInputColumns(input: RawInput)
    ensures Names(CoercedInput(input)) == InputLabels
    ensures Distinct(Names(CoercedInput(input)))
  {
  }

  /** Every column of the cast frame, by label. */
  lemma CoercedInputLookup(input: RawInput, name: string)
    ensures name in CategoricalColumns ==> Lookup(CoercedInput(input), name) == Some(CategoricalCell(input, name))
    ensures name in NumericColumns ==> Lookup(CoercedInput(input), name) == Some(NumericCell(input, name))
    ensures name !in CategoricalColumns && name !in NumericColumns ==> Lookup(CoercedInput(input), name) == None
  {
    var f := CoercedInput(input);
    CoercedInputColumns(input);
    if name in InputLabels {
      var k :| 0 <= k < |InputLabels| && InputLabels[k] == name;
      LookupDistinct(f, f[k]);
    }
  }

  /** The k-th column of the input frame holds the form value its label names. */
  lemma InputCellAt(input: RawInput, k: nat)
    requires k < |InputLabels|
    ensures InputFrame(input)[k].name == InputLabels[k]
    ensures InputLabels[k] !in BoolColumns ==> InputFrame(input)[k].value == CastCell(input, InputLabels[k])
    ensures InputLabels[k] in BoolColumns ==> AsInt(InputFrame(input)[k].value) == CastCell(input, InputLabels[k])
  {
  }

  /** Both boolean columns hold a bool, which astype(int) accepts. */
  lemma BoolColumnsConvertible(input: RawInput)
    ensures forall c :: c in BoolColumns ==> Convertible(InputFrame(input), c)
  {
    var f := InputFrame(input);
    InputFrameColumns(input);
    assert f[5] in f && f[6] in f;
  }

  /** Column k of the frame the loop leaves behind. */
  lemma CastLoopColumn(input: RawInput, k: nat)
    requires k < |InputLabels|
    requires forall c :: c in BoolColumns ==> Convertible(InputFrame(input), c)
    ensures |CoerceColumns(InputFrame(input), BoolColumns)| == |InputLabels|
    ensures CoerceColumns(InputFrame(input), BoolColumns)[k] == CoercedInput(input)[k]
  {
    var f := InputFrame(input);
    var g := CoerceColumns(f, BoolColumns);
    var name := InputLabels[k];
    InputFrameLabels(input);
    assert Names(g) == InputLabels;
    assert g[k].name == Names(g)[k] == name;
    LookupDistinct(g, g[k]);
    InputCellAt(input, k);
    assert f[k].name == Names(f)[k];
    LookupDistinct(f, f[k]);
  }

  /** The astype(int) loop over the boolean columns yields the cast frame. */
  lemma CastLoopResult(input: RawInput)
    ensures forall c :: c in BoolColumns ==> Convertible(InputFrame(input), c)
    ensures CoerceColumns(InputFrame(input), BoolColumns) == CoercedInput(input)
  {
    BoolColumnsConvertible(input);
    var g := CoerceColumns(InputFrame(input), BoolColumns);
    var h := CoercedInput(input);
    CastLoopColumn(input, 0);
    forall k | 0 <= k < |InputLabels|
      ensures g[k] == h[k]
    {
      CastLoopColumn(input, k);
    }
  }

  /** No declared category is a float. */
  lemma DeclaredCategoriesNotReal(c: string)
    requires c in FormCategories
    ensures forall l :: l in FormCategories[c] ==> !l.Real?
  {
  }

  /** Each categorical column can be expanded, by its observed level or by the form's categories. */
  lemma CategoricalColumnsExpandable(input: RawInput)
    ensures forall c :: c in CategoricalColumns ==> Expandable(CoercedInput(input), c, ObservedInRow)
    ensures forall c :: c in CategoricalColumns ==> Expandable(CoercedInput(input), c, Declared(FormCategories))
  {
    forall c | c in CategoricalColumns
      ensures Expandable(CoercedInput(input), c, ObservedInRow)
      ensures Expandable(CoercedInput(input), c, Declared(FormCategories))
    {
      CoercedInputLookup(input, c);
      assert c in FormCategories;
      DeclaredCategoriesNotReal(c);
    }
  }

  // ---------------------------------------------------------------------
  // Encoding and alignment as the page does it

  /** `pd.get_dummies(input_df, columns=categorical_cols, drop_first=True)` on the one-row frame. */
  function Encode(input: RawInput): Frame {
    CategoricalColumnsExpandable(input);
    GetDummies(CoercedInput(input), CategoricalColumns, true, ObservedInRow)
  }

  /** `input_processed.reindex(columns=X_train_cols, fill_value=0)`. */
  function Align(input: RawInput, schema: seq<string>): Result<Frame, ReindexError> {
    Reindex(Encode(input), schema)
  }

  /** With drop_first on one row the encoding is the cast frame minus its categorical columns. */
  lemma EncodeIsDrop(input: RawInput)
    ensures Encode(input) == DropColumns(CoercedInput(input), CategoricalColumns)
    ensures Distinct(Names(Encode(input)))
  {
    CategoricalColumnsExpandable(input);
    ObservedDropFirstLeavesNoIndicators(CoercedInput(input), CategoricalColumns);
    CoercedInputColumns(input);
    DropKeepsDistinct(CoercedInput(input), CategoricalColumns);
  }

  /** A column that survives dropping the categorical columns is numeric and holds its form value. */
  lemma SurvivorIsNumeric(input: RawInput, name: string, v: Cell)
    requires Lookup(DropColumns(CoercedInput(input), CategoricalColumns), name) == Some(v)
    ensures name in NumericColumns && v == NumericCell(input, name)
  {
    var f := CoercedInput(input);
    CoercedInputColumns(input);
    assert Column(name, v) in f;
    LookupDistinct(f, Column(name, v));
    CoercedInputLookup(input, name);
  }

  /** Every numeric column survives dropping the categorical columns. */
  lemma NumericSurvives(input: RawInput, name: string)
    requires name in NumericColumns
    ensures Lookup(DropColumns(CoercedInput(input), CategoricalColumns), name).Some?
  {
    var f := CoercedInput(input);
    assert name !in CategoricalColumns;
    assert name in Names(f) by {
      CoercedInputLookup(input, name);
    }
    assert name in Names(DropColumns(f, CategoricalColumns));
  }

  /** After the page's encoding a numeric label holds the form's number and every other label is gone. */
  lemma EncodedLookup(input: RawInput, name: string)
    ensures Lookup(Encode(input), name) == if name in NumericColumns then Some(NumericCell(input, name)) else None
  {
    EncodeIsDrop(input);
    var r := Lookup(DropColumns(CoercedInput(input), CategoricalColumns), name);
    if r.Some? {
      SurvivorIsNumeric(input, name, r.value);
    } else if name in NumericColumns {
      NumericSurvives(input, name);
    }
  }

  /** Encoding keeps the three numeric columns and produces no indicator column at all. */
  lemma EncodedColumns(input: RawInput)
    ensures Distinct(Names(Encode(input)))
    ensures forall name :: Lookup(Encode(input), name) ==
              if name in NumericColumns then Some(NumericCell(input, name)) else None
  {
    EncodeIsDrop(input);
    forall name
      ensures Lookup(Encode(input), name) == if name in NumericColumns then Some(NumericCell(input, name)) else None
    {
      EncodedLookup(input, name);
    }
  }

  /**
   * The aligned frame has exactly the schema's columns, in order; a numeric
   * schema column holds the form's value and every other schema column,
   * every indicator column included, holds 0.
   */
  lemma AlignedFeatures(input: RawInput, schema: seq<string>)
    ensures Align(input, schema).Success?
    ensures Names(Align(input, schema).value) == schema
    ensures forall i :: 0 <= i < |schema| ==>
              Align(input, schema).value[i].value ==
                if schema[i] in NumericColumns then NumericCell(input, schema[i]) else Int(0)
  {
    EncodedColumns(input);
    var e := Encode(input);
    forall i | 0 <= i < |schema|
      ensures Align(input, schema).value[i].value ==
              if schema[i] in NumericColumns then NumericCell(input, schema[i]) else Int(0)
    {
      assert Lookup(e, schema[i]).Some? <==> schema[i] in Names(e);
    }
  }

  /** The features the model sees depend only on rainfall, temperature and days to harvest. */
  lemma AlignedIgnoresCategories(a: RawInput, b: RawInput, schema: seq<string>)
    requires a.rainfallMm == b.rainfallMm
    requires a.temperatureCelsius == b.temperatureCelsius
    requires a.daysToHarvest == b.daysToHarvest
    ensures Align(a, schema) == Align(b, schema)
  {
    AlignedFeatures(a, schema);
    AlignedFeatures(b, schema);
    var fa, fb := Align(a, schema).value, Align(b, schema).value;
    assert |fa| == |schema| == |fb|;
    forall i | 0 <= i < |schema|
      ensures fa[i] == fb[i]
    {
      assert Names(fa)[i] == Names(fb)[i];
    }
    assert fa == fb;
  }

  /** A sample pair of farms, West and East, equal in everything else, are indistinguishable to the model. */
  lemma AsWrittenConflatesRegions(schema: seq<string>)
    ensures Align(RawInput("West", "Loamy", "Wheat", 100.0, 25.0, true, true, "Sunny", 90), schema)
         == Align(RawInput("East", "Loamy", "Wheat", 100.0, 25.0, true, true, "Sunny", 90), schema)
  {
    AlignedIgnoresCategories(RawInput("West", "Loamy", "Wheat", 100.0, 25.0, true, true, "Sunny", 90),
                             RawInput("East", "Loamy", "Wheat", 100.0, 25.0, true, true, "Sunny", 90), schema);
  }

  // ---------------------------------------------------------------------
  // Encoding against a fixed vocabulary

  /**
   * The form's choices for each categorical column in sorted order, the order
   * in which pandas numbers levels; the first is the baseline drop_first drops.
   */
  const FormCategories: map<string, seq<Cell>> := map[
    "Region" := [Text("East"), Text("North"), Text("South"), Text("West")],
    "Soil_Type" := [Text("Clay"), Text("Loamy"), Text("Sandy")],
    "Crop" := [Text("Cotton"), Text("Maize"), Text("Rice"), Text("Wheat")],
    "Fertilizer_Used" := [Int(0), Int(1)],
    "Irrigation_Used" := [Int(0), Int(1)],
    "Weather_Condition" := [Text("Cloudy"), Text("Rainy"), Text("Sunny")]]

  /** get_dummies with each categorical column given the form's categories. */
  function EncodeWithCategories(input: RawInput): Frame {
    CategoricalColumnsExpandable(input);
    GetDummies(CoercedInput(input), CategoricalColumns, true, Declared(FormCategories))
  }

  function AlignWithCategories(input: RawInput, schema: seq<string>): Result<Frame, ReindexError> {
    Reindex(EncodeWithCategories(input), schema)
  }

  /** Every value the form offers is one of the declared categories of its column. */
  lemma FormValuesDeclared(input: RawInput, col: string)
    requires FromForm(input) && col in CategoricalColumns
    ensures col in FormCategories && CategoricalCell(input, col) in FormCategories[col]
  {
  }

  /** Under the form's categories every categorical column expands into distinctly named indicators. */
  lemma DeclaredBlocksReady(input: RawInput)
    ensures forall c :: c in CategoricalColumns ==>
              Expandable(CoercedInput(input), c, Declared(FormCategories)) &&
              DistinctLevelTexts(KeptLevels(CoercedInput(input), c, true, Declared(FormCategories)))
  {
    CategoricalColumnsExpandable(input);
    forall c | c in CategoricalColumns
      ensures DistinctLevelTexts(KeptLevels(CoercedInput(input), c, true, Declared(FormCategories)))
    {
      assert c in FormCategories;
    }
  }

  /** The six categorical columns start with six different two-letter prefixes. */
  lemma CategoricalHeadsDistinct()
    ensures DistinctHeads(CategoricalColumns)
  {
    var cs := CategoricalColumns;
    assert cs[0][0] == 'R' && cs[1][0] == 'S' && cs[2][0] == 'C';
    assert cs[3][0] == 'F' && cs[4][0] == 'I' && cs[5][0] == 'W';
  }

  /** No numeric column shares its two-letter prefix with a categorical one. */
  lemma NumericHeadsApart(n: string, c: string)
    requires n in NumericColumns && c in CategoricalColumns
    ensures !SameHead(n, c)
  {
    var ns := NumericColumns;
    assert ns[0][1] == 'a' && ns[1][0] == 'T' && ns[2][0] == 'D';
    var cs := CategoricalColumns;
    assert cs[0][0] == 'R' && cs[0][1] == 'e';
    assert cs[1][0] == 'S' && cs[2][0] == 'C';
    assert cs[3][0] == 'F' && cs[4][0] == 'I' && cs[5][0] == 'W';
  }

  /** Dropping the categorical columns leaves only numeric ones. */
  lemma KeptAreNumeric(input: RawInput)
    ensures forall n :: n in Names(DropColumns(CoercedInput(input), CategoricalColumns)) ==> n in NumericColumns
  {
    CoercedInputColumns(input);
  }

  /** With declared categories the encoded labels are unique, so reindex succeeds. */
  lemma CategoriesLabelsDistinct(input: RawInput)
    ensures Distinct(Names(EncodeWithCategories(input)))
  {
    var f := CoercedInput(input);
    var src := Declared(FormCategories);
    CoercedInputColumns(input);
    CategoricalHeadsDistinct();
    DeclaredBlocksReady(input);
    var kept := DropColumns(f, CategoricalColumns);
    var blocks := DummyBlocks(f, CategoricalColumns, true, src);
    DropKeepsDistinct(f, CategoricalColumns);
    BlocksLabels(f, CategoricalColumns, true, src);
    KeptAreNumeric(input);
    forall n | n in Names(kept)
      ensures n !in Names(blocks)
    {
      if n in Names(blocks) {
        var c :| c in CategoricalColumns && SameHead(n, c);
        NumericHeadsApart(n, c);
      }
    }
    NamesAppend(kept, blocks);
    DistinctAppend(Names(kept), Names(blocks));
  }

  /** The cell of an indicator column after alignment: 1 exactly when the form chose that level. */
  lemma CategoriesIndicator(input: RawInput, schema: seq<string>, i: int, col: string, level: Cell)
    requires col in CategoricalColumns && col in FormCategories
    requires |FormCategories[col]| > 0 && level in FormCategories[col][1..] && !level.Real?
    requires 0 <= i < |schema| && schema[i] == IndicatorName(col, level)
    ensures AlignWithCategories(input, schema).Success?
    ensures AlignWithCategories(input, schema).value[i].value ==
              Int(if CategoricalCell(input, col) == level then 1 else 0)
  {
    var f := CoercedInput(input);
    var src := Declared(FormCategories);
    CategoriesLabelsDistinct(input);
    CategoricalColumnsExpandable(input);
    assert KeptLevels(f, col, true, src) == FormCategories[col][1..];
    IndicatorPresent(f, CategoricalColumns, true, src, col, level);
    CoercedInputLookup(input, col);
    var x := Column(IndicatorName(col, level), Int(if CategoricalCell(input, col) == level then 1 else 0));
    var e := EncodeWithCategories(input);
    assert x in e;
    LookupDistinct(e, x);
  }

  /** The numeric features pass through the fixed-vocabulary encoding unchanged. */
  lemma CategoriesNumeric(input: RawInput, schema: seq<string>, i: int)
    requires 0 <= i < |schema| && schema[i] in NumericColumns
    ensures AlignWithCategories(input, schema).Success?
    ensures AlignWithCategories(input, schema).value[i].value == NumericCell(input, schema[i])
  {
    var f := CoercedInput(input);
    CategoriesLabelsDistinct(input);
    CoercedInputLookup(input, schema[i]);
    var x := Column(schema[i], NumericCell(input, schema[i]));
    assert x in f;
    assert x in DropColumns(f, CategoricalColumns);
    var e := EncodeWithCategories(input);
    assert x in e;
    LookupDistinct(e, x);
  }

  /**
   * With every indicator of a column in the schema, two form inputs that pick
   * different values for that column reach the model as different rows.
   */
  lemma CategoriesSeparate(a: RawInput, b: RawInput, schema: seq<string>, col: string)
    requires FromForm(a) && FromForm(b) && col in CategoricalColumns
    requires CategoricalCell(a, col) != CategoricalCell(b, col)
    requires col in FormCategories && |FormCategories[col]| > 0
    requires forall l :: l in FormCategories[col][1..] ==> !l.Real? && IndicatorName(col, l) in schema
    ensures AlignWithCategories(a, schema) != AlignWithCategories(b, schema)
  {
    FormValuesDeclared(a, col);
    FormValuesDeclared(b, col);
    var cats := FormCategories[col];
    var level := if CategoricalCell(a, col) != cats[0] then CategoricalCell(a, col) else CategoricalCell(b, col);
    assert level != cats[0];
    assert level in cats[1..] by {
      var k :| 0 <= k < |cats| && cats[k] == level;
      assert cats[1..][k - 1] == level;
    }
    var i :| 0 <= i < |schema| && schema[i] == IndicatorName(col, level);
    CategoriesIndicator(a, schema, i, col, level);
    CategoriesIndicator(b, schema, i, col, level);
  }

  /** The same sample pair under the fixed vocabulary: the West and East farms are told apart. */
  lemma CategoriesSeparateRegions(schema: seq<string>)
    requires "Region_North" in schema && "Region_South" in schema && "Region_West" in schema
    ensures AlignWithCategories(RawInput("West", "Loamy", "Wheat", 100.0, 25.0, true, true, "Sunny", 90), schema)
         != AlignWithCategories(RawInput("East", "Loamy", "Wheat", 100.0, 25.0, true, true, "Sunny", 90), schema)
  {
    var west := RawInput("West", "Loamy", "Wheat", 100.0, 25.0, true, true, "Sunny", 90);
    var east := RawInput("East", "Loamy", "Wheat", 100.0, 25.0, true, true, "Sunny", 90);
    assert FromForm(west) && FromForm(east);
    assert IndicatorName("Region", Text("North")) == "Region_North";
    assert IndicatorName("Region", Text("South")) == "Region_South";
    assert IndicatorName("Region", Text("West")) == "Region_West";
    CategoriesSeparate(west, east, schema, "Region");
  }

  /** name is the indicator label of a non-baseline category l of column c. */
  predicate KeptIndicator(c: string, l: Cell, name: string) {
    c in FormCategories && |FormCategories[c]| > 0 && l in FormCategories[c][1..] && !l.Real? &&
    name == IndicatorName(c, l)
  }

  /** name is the indicator label of the non-baseline value the form chose for column c. */
  predicate ChosenIndicator(input: RawInput, c: string, name: string) {
    c in CategoricalColumns && KeptIndicator(c, CategoricalCell(input, c), name)
  }

  /** Every column of the fixed-vocabulary encoding is numeric or the indicator of a non-baseline category. */
  lemma CategoriesColumnKinds(input: RawInput, x: Column)
    requires x in EncodeWithCategories(input)
    ensures x.name in NumericColumns || exists c, l :: c in CategoricalColumns && KeptIndicator(c, l, x.name)
  {
    var f := CoercedInput(input);
    var src := Declared(FormCategories);
    CategoricalColumnsExpandable(input);
    GetDummiesColumns(f, CategoricalColumns, true, src, x);
    if x in f && x.name !in CategoricalColumns {
      CoercedInputColumns(input);
      assert x.name in Names(f);
    } else {
      var c, l :| c in CategoricalColumns && l in KeptLevels(f, c, true, src) && !l.Real? &&
        x == Column(IndicatorName(c, l), Int(if Lookup(f, c) == Some(l) then 1 else 0));
      assert KeptLevels(f, c, true, src) == FormCategories[c][1..];
      assert KeptIndicator(c, l, x.name);
    }
  }

  /**
   * Under the fixed vocabulary a label that is neither numeric nor the
   * indicator of a non-baseline category (a baseline such as Region_East,
   * or a label foreign to the form) is absent from the encoded frame.
   */
  lemma CategoriesAbsent(input: RawInput, name: string)
    requires name !in NumericColumns
    requires forall c, l :: c in CategoricalColumns ==> !KeptIndicator(c, l, name)
    ensures Lookup(EncodeWithCategories(input), name) == None
  {
    var e := EncodeWithCategories(input);
    if Lookup(e, name).Some? {
      CategoriesColumnKinds(input, Column(name, Lookup(e, name).value));
    }
  }

  /**
   * The row the model sees under the fixed vocabulary, for every feature
   * list: the features are the list's labels; a numeric feature holds the
   * form's number; every other feature is 1 exactly when it is the indicator
   * of the non-baseline value the form chose for some column, and 0 otherwise.
   */
  lemma AlignedFeaturesWithCategories(input: RawInput, schema: seq<string>)
    ensures AlignWithCategories(input, schema).Success?
    ensures Names(AlignWithCategories(input, schema).value) == schema
    ensures forall i :: 0 <= i < |schema| ==>
              AlignWithCategories(input, schema).value[i].value ==
                if schema[i] in NumericColumns then NumericCell(input, schema[i])
                else Int(if exists c :: c in CategoricalColumns && ChosenIndicator(input, c, schema[i]) then 1 else 0)
  {
    CategoriesLabelsDistinct(input);
    var r := AlignWithCategories(input, schema).value;
    forall i | 0 <= i < |schema|
      ensures r[i].value ==
                if schema[i] in NumericColumns then NumericCell(input, schema[i])
                else Int(if exists c :: c in CategoricalColumns && ChosenIndicator(input, c, schema[i]) then 1 else 0)
    {
      var name := schema[i];
      if name in NumericColumns {
        CategoriesNumeric(input, schema, i);
      } else if exists c :: c in CategoricalColumns && ChosenIndicator(input, c, name) {
        var c :| c in CategoricalColumns && ChosenIndicator(input, c, name);
        CategoriesIndicator(input, schema, i, c, CategoricalCell(input, c));
      } else if exists c, l :: c in CategoricalColumns && KeptIndicator(c, l, name) {
        var c, l :| c in CategoricalColumns && KeptIndicator(c, l, name);
        CategoriesIndicator(input, schema, i, c, l);
        assert CategoricalCell(input, c) != l;
      } else {
        CategoriesAbsent(input, name);
      }
    }
  }

  /** Region_East, the label of Region's baseline category, is no kept indicator. */
  lemma RegionBaselineNotKept(c: string, l: Cell)
    requires c in CategoricalColumns
    ensures !KeptIndicator(c, l, "Region_East")
  {
    if KeptIndicator(c, l, "Region_East") {
      IndicatorNameParts(c, l, l);
      var cs := CategoricalColumns;
      assert cs[1][0] == 'S' && cs[2][0] == 'C' && cs[3][0] == 'F' && cs[4][0] == 'I' && cs[5][0] == 'W';
      assert c == "Region";
      assert IndicatorName("Region", Text("East")) == "Region_East";
      IndicatorNameParts("Region", l, Text("East"));
    }
  }

  /** A baseline category's indicator (here Region_East) aligns to 0 whatever the form chose. */
  lemma CategoriesBaselineZero(input: RawInput, schema: seq<string>, i: int)
    requires 0 <= i < |schema| && schema[i] == "Region_East"
    ensures AlignWithCategories(input, schema).Success?
    ensures AlignWithCategories(input, schema).value[i].value == Int(0)
  {
    AlignedFeaturesWithCategories(input, schema);
    forall c | c in CategoricalColumns
      ensures !ChosenIndicator(input, c, "Region_East")
    {
      RegionBaselineNotKept(c, CategoricalCell(input, c));
    }
  }
}
