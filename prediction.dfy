/**
 * The prediction handler run when the button is pressed: build the one-row
 * frame, cast the two boolean columns to int in place, encode and align the
 * row, ask the model for a yield, and turn the yield into a category label
 * and a piece of advice.
 */
module Prediction {
  import opened Wrappers
  import opened YieldCategory
  import opened Frames
  import opened FeatureEncoding

  /**
   * Builds `input_df` from the form and runs the loop that casts
   * Fertilizer_Used and Irrigation_Used to int in place.
   */
  method CastInputFrame(input: RawInput) returns (table: InputTable)
    ensures table.columns == CoercedInput(input)
  {
    table := new InputTable(input);
    CastLoopResult(input);
    ghost var f := InputFrame(input);
    for i := 0 to |BoolColumns|
      invariant table.columns == CoerceColumns(f, BoolColumns[..i])
    {
      CoerceStep(f, BoolColumns, i);
      table.AsTypeInt(BoolColumns[i]);
    }
    assert BoolColumns[..|BoolColumns|] == BoolColumns;
  }

  /**
   * One press of the button. The trained regressor is the parameter `model`,
   * applied to the aligned one-row frame; `features` is the training column
   * list and `t` the thresholds loaded at start-up.
   */
  method Predict(input: RawInput, features: seq<string>, t: Thresholds, model: Frame -> real)
    returns (result: real, shown: string, advice: string)
    ensures Align(input, features).Success?
    ensures result == model(Align(input, features).value)
    ensures shown == Label(ClassifyYield(result, t))
    ensures advice == Advice(ClassifyYield(result, t))
  {
    var table := CastInputFrame(input);
    CategoricalColumnsExpandable(input);
    var processed := GetDummies(table.columns, CategoricalColumns, true, ObservedInRow);
    var aligned := Reindex(processed, features);
    AlignedFeatures(input, features);
    result := model(aligned.value);

    var category := ClassifyYield(result, t);
    shown := Label(category);
    advice := YieldAdvice(shown);
    AdviceMatchesCategory(category);
  }

  /**
   * The same press with the categorical columns encoded against the form's
   * categories, so that the indicators the model sees follow the choices made.
   */
  method PredictWithCategories(input: RawInput, features: seq<string>, t: Thresholds, model: Frame -> real)
    returns (result: real, shown: string, advice: string)
    ensures AlignWithCategories(input, features).Success?
    ensures result == model(AlignWithCategories(input, features).value)
    ensures shown == Label(ClassifyYield(result, t))
    ensures advice == Advice(ClassifyYield(result, t))
  {
    var table := CastInputFrame(input);
    CategoricalColumnsExpandable(input);
    var processed := GetDummies(table.columns, CategoricalColumns, true, Declared(FormCategories));
    CategoriesLabelsDistinct(input);
    var aligned := Reindex(processed, features);
    result := model(aligned.value);

    var category := ClassifyYield(result, t);
    shown := Label(category);
    advice := YieldAdvice(shown);
    AdviceMatchesCategory(category);
  }
}
