# Crop yield predictor: a verified model of the prediction page

This project models the core of the crop-yield Streamlit page in `app.py`.

- **Thresholds.** The page loads a (low, high) threshold pair at start-up and falls back to (2.0, 5.0) when the artifact cannot be used.
- **Encoding.** When the button is pressed, the page turns the form into a one-row frame. It casts the two boolean columns to int in place, one-hot encodes six columns with `get_dummies(drop_first=True)`, and reindexes the row against the training feature list with fill value 0.
- **Prediction.** The regressor's yield is cut into Low, Medium or High. That category's label picks one of three advisory messages.

Modules:

- `Wrappers`: `Option` and `Result`.
- `YieldCategory`: `classify_yield`, the three labels and messages, and `yield_advice` as a real substring test.
- `Artifacts`: the threshold loader with its bare-`except` fallback.
- `Frames`: the slice of pandas the page relies on, for a one-row frame. This covers column lookup, `astype(int)`, `get_dummies` with or without `drop_first`, and `reindex(columns=…, fill_value=0)`, which raises on duplicate labels unless the target is exactly the frame's own labels.
- `FeatureEncoding`: the form's row and the in-place cast loop. The class `InputTable` stands for `input_df`. The module also holds the encoding as written and an encoding against the form's fixed vocabulary.
- `Prediction`: the button handler. `CastInputFrame` runs the `for` loop of casts on an `InputTable` object. `Predict` is the page as written, and `PredictWithCategories` is the same handler with the corrected encoding.

The trained model is a parameter of `Prediction.Predict`, an arbitrary function from the aligned frame to a yield. The unpickled artifacts are parameters too: the feature list is a `seq<string>`, and the threshold file is an `Option<seq<real>>`. In that option, `None` stands for a missing, unreadable or non-pickle file, and `Some(xs)` for the numbers it held.

The thresholds are meant as an ordered pair with low < high, but the loader never checks this, and the model follows the code. `Artifacts.InvertedArtifactNeverMedium` shows the consequence: with an inverted pair, no yield is classified Medium.

## Model

| member | source | states |
|---|---|---|
| YieldCategory.Label | app.py:41-45 | definition: the three label strings classify_yield returns; properties in LabelHoldsOnlyItsKeyword |
| YieldCategory.Advice | app.py:50-54 | definition: the three advisory messages; properties in AdviceDistinct and AdviceMatchesCategory |
| YieldCategory.ClassifyYield | app.py:39-45 | Low exactly when value < low; Medium exactly when low ≤ value < high; High exactly when value ≥ low and value ≥ high |
| YieldCategory.LowThresholdIsMedium | app.py:39-45 | a value equal to the low threshold is Medium whenever low < high (the boundary belongs to the upper band) |
| YieldCategory.MediumUnreachableWhenInverted | app.py:39-45 | when high ≤ low no value is Medium: below low is Low, everything else is High |
| YieldCategory.ClassifyMonotone | app.py:39-45 | a larger yield never gets a lower category |
| YieldCategory.IsSubstring | app.py:49-51 | definition of Python's `k in s` on strings: k occurs as a contiguous piece of s; used by YieldAdvice, properties in MissingCharNotSubstring and LabelHoldsOnlyItsKeyword |
| YieldCategory.YieldAdvice | app.py:48-54 | the advice is always one of the three messages, and it is the Low message exactly when the label contains "Low" |
| YieldCategory.MissingCharNotSubstring | app.py:49-52 | a keyword that contains a character missing from the label is not found in it |
| YieldCategory.LabelHoldsOnlyItsKeyword | app.py:39-52 | each label returned by classify_yield contains its own category's keyword and neither of the other two |
| YieldCategory.AdviceMatchesCategory | app.py:136-137 | feeding classify_yield's label to yield_advice yields the message of that same category: the substring dispatch never misroutes |
| YieldCategory.AdviceDistinct | app.py:48-54 | the three messages are non-empty and pairwise different, so the message identifies the category |
| Artifacts.DefaultThresholds | app.py:33-34 | definition: the fallback pair (2.0, 5.0); properties in LoadThresholds and DefaultScenarios |
| Artifacts.LoadThresholds | app.py:30-34 | exactly two loaded numbers are used unchanged as (low, high); a missing or unreadable artifact, or any other count, gives exactly (2.0, 5.0); no other pair can result |
| Artifacts.InvertedArtifactNeverMedium | app.py:30-45 | an artifact holding an inverted pair is accepted, and then no yield is classified Medium |
| Artifacts.DefaultScenarios | app.py:32-45 | with the fallback thresholds 6.0 is High, 1.5 Low, 3.0 Medium, 2.0 Medium and 5.0 High |
| Frames.Lookup | app.py:117-118 | a label is found exactly when the frame has a column of that name, and what is found is that column's cell |
| Frames.LookupDistinct | app.py:117-118 | in a frame with distinct labels, looking up a column's label returns that column's cell |
| Frames.AsInt | app.py:117-118 | astype(int) maps True to 1 and False to 0, keeps integers, and truncates floats toward zero |
| Frames.AssignColumn | app.py:118 | definition of `df[name] = v`: overwrite the label's column, or append a new column when the label is missing; properties in LookupAfterAssign |
| Frames.LookupAppend | app.py:118 | in a frame with one more column at the end, an old label finds its old cell, the new label its new cell, any other label nothing |
| Frames.LookupAfterOverwrite | app.py:118 | overwriting a label's columns keeps the labels and changes only the cell found under that label |
| Frames.LookupAfterAssign | app.py:118 | after the assignment the label holds the new cell and every other label keeps its cell; the labels are unchanged when the label existed, and the label is appended otherwise |
| Frames.GetDummies | app.py:126-128 | definition: the columns not encoded, then each encoded column's indicators in order; its columns are characterised both ways in GetDummiesColumns, and further properties are in DropColumns, ObservedDropFirstLeavesNoIndicators and BlocksLabels |
| Frames.IndicatorName | app.py:126-128 | definition: the `<column>_<level>` label get_dummies gives an indicator; properties in IndicatorNameParts and BlocksLabels |
| Frames.IsIndicator | app.py:126-128 | definition: a column is the indicator of a kept level of an encoded column, holding 1 exactly on the row's level; used by IndicatorOnly and GetDummiesColumns |
| Frames.IndicatorOnly | app.py:126-128 | the indicator blocks hold nothing but indicator columns of kept levels (the converse of IndicatorPresent) |
| Frames.GetDummiesColumns | app.py:126-128 | a column is in get_dummies' result exactly when it is an unencoded column of the frame or the indicator of a kept level, holding 1 exactly on the row's level |
| Frames.KeptLevels | app.py:126-128 | the levels that get an indicator come from the column's levels, and drop_first removes exactly one of them when there is any |
| Frames.DropColumns | app.py:126-128 | get_dummies keeps exactly the columns not being encoded, and no others |
| Frames.DropKeepsDistinct | app.py:126-128 | keeping a subset of distinctly named columns leaves distinct names |
| Frames.ObservedDropFirstLeavesNoIndicators | app.py:126-128 | on a one-row frame, drop_first drops each column's only observed level, so get_dummies yields no indicator column and equals dropping the encoded columns |
| Frames.ObservedLevelKeptWithoutDropFirst | app.py:126-128 | without drop_first, the one observed level becomes a single indicator column holding 1 |
| Frames.IndicatorPresent | app.py:126-128 | every kept level of an encoded column yields a column named column_level, holding 1 exactly when the row's cell is that level |
| Frames.BlocksLabels | app.py:126-128 | indicator names are pairwise distinct when the columns' two-letter prefixes are distinct and the level texts are distinct; each indicator name shares its two-letter prefix with one of the encoded columns |
| Frames.Fill | app.py:130-132 | the filled frame has exactly the requested labels in order; each cell is the source cell under that label, or 0 if absent |
| Frames.LookupEachColumn | app.py:130-132 | in a frame with distinct labels every column is found under its own label |
| Frames.Reindex | app.py:130-132 | a target equal to the frame's own labels returns the frame unchanged; otherwise reindex fails exactly when the source has a duplicate label; on success the columns are exactly the schema, and on a frame with distinct labels each cell is the source's cell under that label, or 0 |
| FeatureEncoding.FromForm | app.py:69-93 | definition: the values the widgets can produce (their option lists and minimum values); used by FormValuesDeclared and CategoriesSeparate |
| FeatureEncoding.InputFrame | app.py:102-114 | definition: the one-row frame built from the dict literal; properties in InputFrameLabels and InputFrameColumns |
| FeatureEncoding.BoolColumns | app.py:117 | definition: the list the cast loop runs over, in loop order; used by CastInputFrame and CastLoopResult |
| FeatureEncoding.CategoricalColumns | app.py:120-124 | definition: `categorical_cols`, the six columns handed to get_dummies; used by Encode, EncodeWithCategories and CategoricalHeadsDistinct |
| FeatureEncoding.InputFrameLabels | app.py:102-114 | the input frame has the nine labels of the dictionary in order, all distinct |
| FeatureEncoding.InputFrameColumns | app.py:102-114 | every column of the input frame is found under its own label |
| FeatureEncoding.AsIntColumn | app.py:118 | casting one column keeps all labels, replaces that column's cell by its integer and leaves every other column as it was |
| FeatureEncoding.CoerceColumns | app.py:117-118 | after casting a list of columns in order, each listed column holds the integer of its original cell, others are untouched, and no label is added or removed |
| FeatureEncoding.CoerceSnoc | app.py:117-118 | casting one more column extends the frame cast so far by one AsIntColumn step |
| FeatureEncoding.CoerceStep | app.py:117-118 | at each turn of the loop the next column is still castable, and casting it extends the prefix already cast |
| FeatureEncoding.InputTable.constructor | app.py:114 | the new table holds the input frame |
| FeatureEncoding.InputTable.AsTypeInt | app.py:118 | the table's columns become the old columns with that one column cast; the labels are unchanged |
| FeatureEncoding.CoercedInput | app.py:116-118 | definition, independent of the loop: each label with its form value, the booleans as 0/1; CastLoopResult proves the loop yields it |
| FeatureEncoding.CoercedInputColumns | app.py:116-118 | after the loop the frame still has the nine labels, all distinct |
| FeatureEncoding.CoercedInputLookup | app.py:116-118 | after the loop, each categorical label holds the form's value (fertilizer and irrigation as 0/1), each numeric label its number, and no other label exists |
| FeatureEncoding.InputCellAt | app.py:102-118 | column k of the input frame carries label k, and after the cast it holds the value the cast frame has there |
| FeatureEncoding.BoolColumnsConvertible | app.py:108-118 | both boolean columns hold a bool, which astype(int) accepts |
| FeatureEncoding.CastLoopColumn | app.py:116-118 | column k after the loop is column k of the cast frame |
| FeatureEncoding.CastLoopResult | app.py:116-118 | the loop over Fertilizer_Used and Irrigation_Used yields exactly the cast frame |
| FeatureEncoding.DeclaredCategoriesNotReal | app.py:69-93 | no option of the form's categorical widgets is a float |
| FeatureEncoding.CategoricalColumnsExpandable | app.py:120-128 | all six categorical columns exist and can be encoded, from the observed row or from the form's categories |
| FeatureEncoding.Encode | app.py:126-128 | definition: the page's get_dummies call on the cast frame, levels taken from the row; properties in EncodeIsDrop and EncodedColumns |
| FeatureEncoding.Align | app.py:130-132 | definition: the page's reindex of the encoded frame onto the feature list; properties in AlignedFeatures and AlignedIgnoresCategories |
| FeatureEncoding.EncodeIsDrop | app.py:126-128 | the page's get_dummies call only deletes the six categorical columns |
| FeatureEncoding.SurvivorIsNumeric | app.py:126-128 | every column that survives encoding is a numeric column holding the form's number |
| FeatureEncoding.NumericSurvives | app.py:126-128 | each numeric column survives encoding with the form's number |
| FeatureEncoding.EncodedLookup | app.py:126-128 | after encoding, a numeric label holds the form's number and every other label is absent |
| FeatureEncoding.EncodedColumns | app.py:126-128 | the encoded frame's labels are distinct, and lookups find exactly the numeric columns |
| FeatureEncoding.AlignedFeatures | app.py:130-132 | alignment never fails; the aligned columns are exactly the feature list; each cell is the form's number for the three numeric features and 0 for every other feature |
| FeatureEncoding.AlignedIgnoresCategories | app.py:102-132 | two inputs with equal rainfall, temperature and days to harvest reach the model as the same row, whatever their region, soil, crop, fertilizer, irrigation and weather |
| FeatureEncoding.AsWrittenConflatesRegions | app.py:120-132 | a West farm and an East farm, equal in every other field, give the same aligned row |
| FeatureEncoding.FormCategories | app.py:69-93 | definition: the option lists of the six categorical widgets, sorted as pandas orders levels, so the first is the baseline drop_first drops; properties in FormValuesDeclared and DeclaredCategoriesNotReal |
| FeatureEncoding.EncodeWithCategories | app.py:126-128 | definition of the corrected encoding: get_dummies with drop_first against the form's sorted categories; properties in CategoriesLabelsDistinct, CategoriesColumnKinds, CategoriesAbsent and CategoriesIndicator |
| FeatureEncoding.AlignWithCategories | app.py:130-132 | definition: reindex of the corrected encoding onto the feature list; fully characterised in AlignedFeaturesWithCategories |
| FeatureEncoding.FormValuesDeclared | app.py:69-93 | every value a categorical widget offers is among that column's declared categories |
| FeatureEncoding.DeclaredBlocksReady | app.py:120-128 | with the form's categories, each categorical column can be encoded and its kept levels have distinct names |
| FeatureEncoding.CategoricalHeadsDistinct | app.py:120-124 | the six categorical column names start with six different two-letter prefixes |
| FeatureEncoding.NumericHeadsApart | app.py:102-124 | no numeric column shares its two-letter prefix with a categorical column |
| FeatureEncoding.KeptAreNumeric | app.py:126-128 | the columns get_dummies keeps are numeric ones |
| FeatureEncoding.CategoriesLabelsDistinct | app.py:126-132 | encoding against the form's categories yields distinct labels, so the reindex cannot fail |
| FeatureEncoding.CategoriesIndicator | app.py:126-132 | against the form's categories, each aligned indicator column is 1 exactly when the form chose that level, and 0 otherwise |
| FeatureEncoding.CategoriesNumeric | app.py:126-132 | against the form's categories, the numeric features still pass through unchanged |
| FeatureEncoding.KeptIndicator | app.py:126-128 | definition: a label is the indicator of a non-baseline category of a column; used by CategoriesAbsent and AlignedFeaturesWithCategories |
| FeatureEncoding.ChosenIndicator | app.py:126-128 | definition: a label is the indicator of the non-baseline value the form chose for a column; used by AlignedFeaturesWithCategories |
| FeatureEncoding.CategoriesColumnKinds | app.py:126-128 | every column of the corrected encoding is a numeric column or the indicator of a non-baseline category |
| FeatureEncoding.CategoriesAbsent | app.py:126-128 | under the corrected encoding, a label that is neither numeric nor a non-baseline indicator (a baseline, or a label foreign to the form) is absent |
| FeatureEncoding.AlignedFeaturesWithCategories | app.py:126-132 | for every feature list, the corrected alignment succeeds with exactly the list's labels; a numeric feature holds the form's number; every other feature is 1 exactly when it is the indicator of the form's chosen non-baseline value for some column, and 0 otherwise |
| FeatureEncoding.RegionBaselineNotKept | app.py:126-128 | Region_East, the label of Region's baseline category, is no kept indicator of any categorical column |
| FeatureEncoding.CategoriesBaselineZero | app.py:126-132 | under the corrected encoding, a Region_East feature aligns to 0 whatever the form chose |
| FeatureEncoding.CategoriesSeparate | app.py:126-132 | when the feature list holds a column's indicators, two form inputs that choose different values for it reach the model as different rows |
| FeatureEncoding.CategoriesSeparateRegions | app.py:126-132 | with Region_North, Region_South and Region_West among the features, those same West and East farms are told apart |
| Prediction.CastInputFrame | app.py:114-118 | the for loop leaves `input_df` holding the cast frame: both boolean columns become 0/1, every other column is unchanged |
| Prediction.Predict | app.py:100-137 | one press of the button: alignment succeeds; the result is the model applied to the aligned row; the label is the category of that result; the advice is that category's message |
| Prediction.PredictWithCategories | app.py:100-137 | the same press with the corrected encoding: alignment succeeds, the result is the model applied to the fixed-vocabulary row, and label and advice follow the result's category |

## Left out

- The Streamlit user interface: widgets, session state, page layout, output cards and number formatting (`{result:.2f}`). The form's values enter as a `RawInput`. `FeatureEncoding.FromForm` states the widget options and the minimum values.
- The progress bar at app.py:151-152. It is a display-only value. The code computes `min(result / (high * 1.2), 1.0)`, which clamps only from above, although the value is meant to lie in [0, 1]. The division by zero when high is 0 is not guarded either.
- Pickle I/O for the model, the feature list and the thresholds. They are parameters. The threshold artifact is taken to hold real numbers. A pickle holding two non-numeric values would be unpacked by the page and then fail at comparison time; that case is not modelled.
- `model.predict`: the trained regressor is an arbitrary function parameter of `Prediction.Predict`. Nothing about its output is assumed.
- Floating point: yields, thresholds, rainfall and temperature are mathematical reals. NaN, infinities and rounding are not modelled.
- pandas dtypes: an indicator column is an integer cell here, where recent pandas builds a bool column; the value it carries is the same. Float-valued levels would need pandas' float-to-text rendering for their indicator names, so columns with such levels are not encodable in `Frames`. No form column has float levels.
- Frames of more than one row: the page only ever builds a one-row frame, so a frame here is one cell per column.

## Findings

| source | as written | input that shows it | evidently intended | confidence | as-written member | corrected member |
|---|---|---|---|---|---|---|
| app.py:120-132 | `get_dummies(..., drop_first=True)` on the one-row input frame sees one level per column and drops it. No indicator column survives, and reindex fills every categorical feature with 0, so the model sees only rainfall, temperature and days to harvest. | Region=West vs Region=East, Loamy, Wheat, rainfall 100.0, 25.0 °C, fertilizer and irrigation on, Sunny, 90 days: the same aligned row | encode each categorical column against the full set of the form's categories, sorted, dropping only the first, so that the indicators reflect the chosen values | high, not executed | FeatureEncoding.AsWrittenConflatesRegions | FeatureEncoding.CategoriesSeparateRegions |
