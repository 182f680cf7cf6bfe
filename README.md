# Irrigation water-requirement pipeline: a Dafny model

This project models the deterministic core of an irrigation-prediction system.
The system synthesises a water requirement (litres per hectare) for crop and
weather observations, prepares feature frames for scikit-learn and Keras
regressors, checks and plots a saved model against the formula, and serves
predictions over HTTP.

The model covers:

- **the crop base-water table** and its two lookups: `get` with the default
  4000, and `map`, which has no default;
- **the `calculate_water` formula** in its three variants:
  - noisy, truncated and floored at 500;
  - noiseless;
  - clipped to [500, 10000];
- **the data-preparation scripts**, step by step, from the frame read to the
  `X`/`y` handed to training:
  - `adapt_data.py`, and its newer copy `src/ml/adapt_data.py`;
  - `verify_data.py` and `generate_scatter.py`;
  - `retrain_model.py`;
  - `train_model_advanced.py` and `compare_models.py`;
  - `fix_model.py`.

  The steps covered are the rename, the crop clean-up, the numeric coercion,
  the mean imputation, the synthetic moisture, the `crop_water_base` column, the
  target, the duplicated-header removal, `dropna`, the unit scaling, the label
  encoding, the ten `create_features` columns and the column selection;
- **`predict()` and `crop_info()`** of the Flask server `app.py`;
- **the feature-importance table** of `src/ml/generate_feature_importance.py`;
- **the scalar reports**: the R² grade, the accuracy formulas, the results
  table of the model comparison and the perfect-fit line of the scatter plot.

A pandas DataFrame is the value `Frames.Frame`: column names in order, plus rows
of cells. A cell is a number, NaN, or `Text`. `Text` stands for text that does not
parse as a number; text that does parse is given as its number. The scripts
reassign or update `df` in place. The model writes each step as a method or
function that returns the new frame. Nothing else refers to these frames, so the
two are the same thing. The coercion loops of the scripts are `for` loops with
invariants.

Each script is a method ending in a `Result<Training, Stop>`. A `Stop` carries
the exit status and the error:

| How the script stops | Status |
|---|---|
| a caught error that the script ends with `exit()` or `return` | 0 |
| `exit(1)` | 1 |
| an uncaught exception | 1 |

Its postcondition traces every row of `X` and `y` back to the rows of the frame
that was read.

The model takes these as parameters:

- the random draws: the moisture stream, the normal noise, and the raw draws of
  `fix_model.py`;
- what `LabelEncoder.fit_transform` returns;
- the fitted pipeline, and the metrics it is scored by;
- the contents of the files;
- `float()` of a string.

Lemmas connect the scripts:

- every script uses the same crop table and the same six inputs;
- the checking script's labels are the training labels with a zero draw;
- the conditional rename agrees with the unconditional one on the frames that
  matter, and differs on a witness;
- a capitalised crop is mapped by the training table after normalisation, but
  dropped by the retraining script, which only strips.

## Model

| member | source | states |
|---|---|---|
| CropTable.GetOr | src/ml/adapt_data.py:72 | `table.get(crop, default)`: the listed value for a listed crop, the default for any other |
| CropTable.MapLookup | retrain_model.py:60 | `Series.map(table)` on one crop: a value exactly for listed crops, and then the table's value |
| CropTable.DefaultIffUnlisted | src/ml/adapt_data.py:61-67 | when no listed value equals the default, the base is the default exactly for unlisted crops |
| CropTable.Outcomes | src/ml/adapt_data.py:61-67 | every looked-up base is a table value or the default, and every such value is reachable |
| Target.Trunc | src/ml/adapt_data.py:91 | Python `int()` on a float truncates toward zero: the result lies between 0 and `x`, less than 1 away |
| Target.CalculateWater | src/ml/adapt_data.py:71-93 | the noisy target is at least 500; it is the floor of formula + noise when that is at least 500, otherwise exactly 500 |
| Target.NoiselessWater | verify_data.py:60-66 | the noiseless target is at least 500 |
| Target.NoiselessIsZeroNoise | verify_data.py:60-66 | the noiseless target equals the noisy target with a zero draw |
| Target.Clip | fix_model.py:43 | `np.clip`: the result lies in [lo, hi], equals `v` inside, and equals the bound it passes outside |
| Target.ClippedWater | fix_model.py:35-43 | the clipped target lies in [500, 10000] and equals formula + noise whenever that lies within the bounds |
| Target.RiceScenario | src/ml/adapt_data.py:81-87 | rice at 25 °C, 50 % moisture, 2 mm rain and 70 % humidity needs 6475 L/ha in all three variants |
| Text.LowerChar | src/ml/adapt_data.py:40 | folding one character: the result is never a capital; a capital moves by 32, and anything else is kept |
| Text.Lower | src/ml/adapt_data.py:40 | `str.lower()`: same length, each character folded, no capital left |
| Text.StripStart | src/ml/adapt_data.py:40 | `lstrip`: a suffix of the input, with only whitespace removed, not starting with whitespace |
| Text.StripEnd | src/ml/adapt_data.py:40 | `rstrip`: a prefix of the input, with only whitespace removed, not ending with whitespace |
| Text.Strip | retrain_model.py:59 | `str.strip()`: a slice of the input with only whitespace cut from either end, and no whitespace at its ends |
| Text.StripSlice | retrain_model.py:59 | `lstrip` followed by `rstrip` yields a trimmed slice, with whitespace cut from both sides |
| Text.Normalise | src/ml/adapt_data.py:40 | `.str.lower().str.strip()` leaves no capital and no whitespace at either end |
| Text.StripKeepsNoUpper | src/ml/adapt_data.py:40 | stripping a name without capitals adds none |
| Text.SliceKeepsNoUpper | src/ml/adapt_data.py:40 | a slice of a name without capitals has none |
| Text.LowerOfLowercase | src/ml/adapt_data.py:40 | lowering a name without capitals changes nothing (proof by induction) |
| Text.StripOfTrimmed | src/ml/adapt_data.py:40 | stripping a trimmed name changes nothing |
| Text.NormaliseIdempotent | src/ml/adapt_data.py:40 | normalising twice is normalising once |
| Text.FindSep | src/ml/generate_feature_importance.py:58-59 | the first "__" at or after a position, or none at all from there |
| Text.Join | src/ml/generate_feature_importance.py:59 | `"__".join` of a single piece is that piece |
| Text.Split | src/ml/generate_feature_importance.py:59 | `str.split("__")`: at least one piece, several exactly when the name holds "__", no piece holding "__", and joining the pieces with "__" gives back the name |
| Text.NoSepBefore | src/ml/generate_feature_importance.py:59 | the text before the first "__" holds none |
| Text.SecondPiece | src/ml/generate_feature_importance.py:59 | `name.split("__")[1]`: the second piece of `Text.Split`, which holds no "__" |
| Text.FirstSepFound | src/ml/generate_feature_importance.py:58 | a name holding "__" has a first one |
| Text.SecondPieceIsSplit | src/ml/generate_feature_importance.py:59 | the text from the end of the first "__" to the next one, or to the end, is the second piece |
| Text.NoSepBetween | src/ml/generate_feature_importance.py:59 | the text between the end of one separator and the next holds no "__" |
| Text.SepShifted | src/ml/generate_feature_importance.py:59 | the separators of a suffix are those of the whole name, shifted |
| Text.SplitAfter | src/ml/generate_feature_importance.py:59 | a text whose first "__" starts at `q`, or which has none, splits first into its first `q` characters |
| Text.CleanName | src/ml/generate_feature_importance.py:58-61 | a name holding "__" becomes its second piece, and any other name is kept; the result holds no "__" |
| Text.CleanNameOfPrefixed | src/ml/generate_feature_importance.py:55-61 | a generated name `prefix__feature` cleans to `feature` when neither part holds "__" and the prefix does not end in '_' |
| Text.FindSepFirst | src/ml/generate_feature_importance.py:58-59 | the first separator at or after a position is the one found |
| Text.CleanNameExamples | src/ml/generate_feature_importance.py:55-59 | "num__soil_moisture_percent" cleans to "soil_moisture_percent" |
| Text.NoSepInExample | src/ml/generate_feature_importance.py:59 | neither part of that example name holds "__" |
| Text.NoSep | src/ml/generate_feature_importance.py:58 | a name in which no '_' is followed by another holds no "__" |
| Frames.IndexOf | src/ml/adapt_data.py:99-108 | the position of the first occurrence of a name |
| Frames.IndexOfAt | src/ml/adapt_data.py:99-108 | in distinct names, the position of the name at `k` is `k` |
| Frames.Column | src/ml/adapt_data.py:95 | `df[n]` holds the cell of column `n` in every row |
| Frames.RenameAll | src/ml/adapt_data.py:32-37 | the renamed header: each name renamed in its place |
| Frames.Rename | src/ml/adapt_data.py:32-37 | `df.rename(columns=m)`: every column keeps its place and values under its new name; a rename that merges two names is an error |
| Frames.MapColumn | src/ml/adapt_data.py:40 | one column is rewritten cell by cell, and nothing else changes |
| Frames.Added | src/ml/adapt_data.py:57 | the header after assigning a column holds the old names and the new one, and nothing else |
| Frames.Assign | src/ml/adapt_data.py:57 | `df[n] = c`: column `n` holds `c`, every other column keeps its cells, and a new name is appended |
| Frames.AssignAll | train_model_advanced.py:67-82 | assigning columns in turn: each holds its values, the others keep theirs, and new names are appended in order |
| Frames.AssignedInTurn | train_model_advanced.py:67-82 | the first assignment followed by the rest meets the contract of `AssignAll` |
| Frames.FirstMissing | src/ml/adapt_data.py:108 | the first listed name that is not a column, or none when every listed name is a column |
| Frames.Select | src/ml/adapt_data.py:108 | `df[ns]`: exactly the columns `ns`, in order, with the same rows; a KeyError naming a missing column |
| Frames.DropColumn | src/ml/adapt_data.py:117 | `drop(columns=[n])`: `n` is gone and the other columns keep their order and values; a KeyError without `n` |
| Frames.DropColumnFacts | src/ml/adapt_data.py:117 | cutting position `k` from the header and from every row keeps the frame well formed, and keeps each other column's cells |
| Frames.DroppedCell | src/ml/adapt_data.py:117 | a kept column's cell is found under its name after the cut |
| Frames.DroppedNames | src/ml/adapt_data.py:117 | cutting one name keeps the names distinct and shifts the later ones down by one |
| Frames.KeptFrom | generate_scatter.py:46 | the rows a filter accepts, in increasing order: every accepted row and no other |
| Frames.Where | retrain_model.py:66 | a row filter keeps exactly the accepted rows, in their order |
| Frames.Positions | generate_scatter.py:46 | the column positions of a subset of names |
| Frames.DropNa | generate_scatter.py:46 | `dropna(subset=ns)`: exactly the rows with a value in every column of `ns` survive, in order; a KeyError for a missing column |
| Frames.DropFirstRow | retrain_model.py:37 | `drop(0).reset_index(drop=True)`: the first row goes, and the others keep their order |
| Frames.ToNumeric | src/ml/adapt_data.py:48 | `pd.to_numeric(errors='coerce')` on a cell: never text; a number is kept, and anything else becomes NaN |
| Frames.NumCountPositive | src/ml/adapt_data.py:51 | a column has numbers to average exactly when one of its cells is a number |
| Frames.ColumnMean | src/ml/adapt_data.py:51 | a column's mean exists exactly for a column with no text and at least one number, and is the average of its numbers |
| Frames.FillNaMeans | src/ml/adapt_data.py:51 | `fillna(df.mean(numeric_only=True))`: NaNs of numeric columns become the column mean, and every other cell is kept |
| Frames.SumBounds | src/ml/adapt_data.py:51 | numbers within [lo, hi] sum to between lo and hi times their count (proof by induction) |
| Frames.MeanWithinRange | src/ml/adapt_data.py:51 | the mean that fills a gap lies between the smallest and largest number of its column |
| Frames.QuotientBounds | src/ml/adapt_data.py:51 | a sum bounded by lo·n and hi·n gives a quotient by n within [lo, hi] |
| Cleaning.RenameIfLabelled | verify_data.py:15-21 | only a frame with a `label` column is renamed; any other is kept as read |
| Cleaning.RenameWithoutRawNames | verify_data.py:15-21 | a frame holding none of the raw names leaves the rename unchanged |
| Cleaning.RenamingsAgree | verify_data.py:15-21 | the conditional and unconditional renames agree on a labelled frame and on a frame without raw names |
| Cleaning.RenamingsDiffer | verify_data.py:15-21 | they disagree on a frame with a raw `temperature` column and no `label` |
| Cleaning.Deduplicated | compare_models.py:41-43 | a duplicated header row (crop `crop_type`) is removed, and no other row is; otherwise the frame is unchanged |
| Cleaning.CleanCell | src/ml/adapt_data.py:40 | a `.str` method rewrites text and keeps numbers and NaN |
| Cleaning.CleanCrops | src/ml/adapt_data.py:40 | the crop column is cleaned; a KeyError without it; an AttributeError when a non-empty column holds no text |
| Cleaning.FirstMissingAt | src/ml/adapt_data.py:46-48 | the first missing name is the one at the first position that misses |
| Cleaning.CoerceColumns | src/ml/adapt_data.py:46-48 | the coercion loop: listed columns are coerced and the others kept; a KeyError for the first missing column |
| Cleaning.FirstText | train_model_advanced.py:41 | the first row holding text, or none when no row does |
| Cleaning.ParseColumns | retrain_model.py:39-41 | the strict `to_numeric` loop: the frame is unchanged when every listed column parses; otherwise a ValueError at the first text of the first failing column |
| Cleaning.ScaleCell | train_model_advanced.py:41 | a number is multiplied by the factor, and NaN stays |
| Cleaning.ScaleColumn | train_model_advanced.py:41 | `df[n] * factor`: only column `n` changes; a KeyError without it, a TypeError at its first text |
| Cleaning.MappedBase | retrain_model.py:60 | `map(table)` on a cell, through `CropTable.MapLookup`: a number exactly for a listed crop name, then the table's value, and NaN otherwise |
| Cleaning.FillDefault | src/ml/adapt_data.py:67 | `fillna(default)`: NaN becomes the default, any other value is kept, so no NaN is left |
| Cleaning.FormulaBase | src/ml/adapt_data.py:72 | `get` on the row's crop: the table's value for listed text, and the default for anything else |
| Cleaning.ColumnBaseIsFormulaBase | src/ml/adapt_data.py:67-72 | the `crop_water_base` column (`map` plus `fillna`) holds exactly the base that `calculate_water` looks up with `get` |
| Cleaning.WithBase | src/ml/adapt_data.py:67 | the base column holds each row's looked-up base, and nothing else changes |
| Cleaning.WithMappedBase | retrain_model.py:60 | the base column holds each row's mapped base or NaN, and nothing else changes |
| Cleaning.WithNumbers | src/ml/adapt_data.py:57 | the moisture column holds the draws, and nothing else changes |
| Cleaning.FloatOf | src/ml/adapt_data.py:75-78 | `float(row[n])`: text raises a ValueError at that row, and a number or NaN passes |
| Cleaning.RowWater | src/ml/adapt_data.py:71-93 | one row's target succeeds exactly when its readings convert; it is then `CalculateWater` over the row's base and readings; `int()` of NaN raises |
| Cleaning.Collect | src/ml/adapt_data.py:95 | rows processed in order: all values when every row succeeds, otherwise the first failing row's error |
| Cleaning.Targets | src/ml/adapt_data.py:95 | `df.apply(calculate_water, axis=1)`: one target per row when every row is computable, otherwise the first failing row's error |
| Cleaning.IntCells | src/ml/adapt_data.py:95 | the target column holds one integer per row |
| Cleaning.Standardise | src/ml/adapt_data.py:40-48 | the crop clean-up and coercion loop change the crop only through the clean-up and the listed columns only through coercion |
| Cleaning.NoiselessLabels | verify_data.py:60-66 | labels without noise are the labels with a zero draw for every row |
| Cleaning.SameDraws | src/ml/adapt_data.py:90-91 | labelling depends on the noise only through each row's draw |
| Cleaning.Engineer | src/ml/adapt_data.py:57-95 | moisture, base and target succeed exactly when there are rows and every row has its three readings as numbers; over no rows `apply` fails; the other columns are kept and each target is the formula over its row |
| Cleaning.EngineeredHasInputs | src/ml/adapt_data.py:99-108 | a cleaned frame with the engineered columns holds all six inputs |
| Cleaning.EngineeredColumns | src/ml/adapt_data.py:57-67 | after the moisture and base assignments each row holds its draw and its base; a row can be computed exactly when it is measured |
| Cleaning.EngineeredTargets | src/ml/adapt_data.py:95 | the computed targets label the rows of the engineered frame |
| Cleaning.CoercedColumn | src/ml/adapt_data.py:48 | a column after coercion: each cell through `to_numeric` |
| Cleaning.Imputed | src/ml/adapt_data.py:51 | after `fillna`, each row holds its cleaned crop, and each coerced reading keeps its number or takes its column's mean |
| Cleaning.KeptInputs | src/ml/adapt_data.py:57-67 | adding the engineered columns keeps the cleaned crop and readings |
| Cleaning.ComposeInputs | src/ml/adapt_data.py:108-117 | the inputs selected from a frame keep its cleaned crop and readings |
| Cleaning.ComposeTargets | src/ml/adapt_data.py:108-118 | the inputs selected from a labelled frame are labelled the same way |
| Cleaning.InputsDistinct | src/ml/adapt_data.py:99-107 | no model input is named twice |
| Cleaning.Features | verify_data.py:79-82 | `X` keeps each row's six inputs and `y` holds the targets |
| Cleaning.CleanAndImpute | src/ml/adapt_data.py:40-51 | the crop ends up cleaned, and each coerced column holds its number or its coerced mean |
| Cleaning.ImputedMeasured | src/ml/adapt_data.py:44-51 | after the imputation every row has its readings as numbers exactly when each reading has a number somewhere in its column |
| Cleaning.MeanExists | src/ml/adapt_data.py:51 | a coerced column has a mean exactly when one of its values is a number |
| Cleaning.CleanAndEngineer | src/ml/adapt_data.py:40-95 | the shared clean-up and engineering: succeeds exactly when the crop column holds a name and each reading has a row that parses, and fails in `apply` without rows; on success the six inputs, the cleaned crop and readings of each row, and the labels |
| Cleaning.Derive | verify_data.py:33-82 | from the renamed frame to `X` and `y`: succeeds exactly when `CleanAndEngineer` does; cleaned inputs and labels, row by row |
| AdaptData.Prepare | src/ml/adapt_data.py:24-118 | the whole preparation: a missing file exits with status 0 and other errors with 1; succeeds exactly when the rename succeeds, the crop column holds a name and each reading has a row that parses, so a file without rows fails; on success no row is lost, the inputs are cleaned and imputed, and the targets follow the formula with the row's draws |
| AdaptData.FinalColumnsLayout | src/ml/adapt_data.py:99-117 | `final_columns` without the target is the six inputs, in order, and the coerced columns are the three readings |
| AdaptData.Split | src/ml/adapt_data.py:95-118 | `X` is `final_columns` without the target, keeping every row's six inputs, and `Y` is the target |
| AdaptData.Selected | src/ml/adapt_data.py:108-118 | selecting and dropping the target keeps each feature and the target of every row |
| AdaptData.TransformerCoversFeatures | src/ml/adapt_data.py:124-136 | the scaled and encoded columns together are the six features, each once |
| AdaptData.TransformerPartitionsFeatures | adapt_data.py:122-134 | no feature is both scaled and encoded, and none is left to `passthrough` |
| AdaptData.OneHot | adapt_data.py:131 | the one-hot encoding: one indicator per category, 1 exactly at the crop |
| AdaptData.TotalOfOneHot | adapt_data.py:131 | the indicators sum to 1 for a seen crop and 0 for an unseen one (proof by induction) |
| AdaptData.OneHotIgnoresUnknown | adapt_data.py:131 | `handle_unknown='ignore'`: an unseen crop is the all-zero vector, and a seen crop has exactly one indicator set, at its position |
| AdaptData.Grade | src/ml/adapt_data.py:186-197 | the grades: EXCELLENT iff R² ≥ 0.95, VERY GOOD iff 0.85 ≤ R² < 0.95, GOOD iff 0.70 ≤ R² < 0.85, otherwise NEEDS IMPROVEMENT |
| AdaptData.GradeMonotone | src/ml/adapt_data.py:186-197 | a better score never gets a worse grade |
| AdaptData.SpacedCapitalCropFindsBase | src/ml/adapt_data.py:40-72 | " Rice " normalises to "rice" and finds base 6500 |
| AdaptData.NormaliseRice | src/ml/adapt_data.py:40 | " Rice " normalises to "rice" |
| AdaptData.RiceRule | src/ml/adapt_data.py:61-72 | the rule for "rice" is 6500 |
| AdaptData.LowerRice | src/ml/adapt_data.py:40 | lowering " Rice " gives " rice " |
| AdaptData.StripRice | src/ml/adapt_data.py:40 | stripping " rice " gives "rice" |
| VerifyData.Prepare | verify_data.py:10-86 | the check's preparation: every failure exits with status 0; succeeds exactly when the rename succeeds, the crop column holds a name and each reading has a row that parses, so a file without rows fails; on success no row is lost, the inputs are cleaned and imputed, and `y_true` is the noiseless formula |
| VerifyData.Layout | verify_data.py:37-81 | `X` is the six inputs and the coerced columns are the readings |
| VerifyData.AgreesWithTraining | verify_data.py:53-81 | the check uses training's table, coerced columns and inputs |
| VerifyData.LabelsAreNoiseless | verify_data.py:60-66 | the check's labels are the training labels with every draw zero |
| GenerateScatter.Layout | generate_scatter.py:41-72 | `X` is the six inputs and the `dropna` subset is the readings |
| GenerateScatter.AgreesWithCheck | generate_scatter.py:53-72 | the plot uses the check's table, columns and inputs |
| GenerateScatter.Prepare | generate_scatter.py:22-79 | fails (returning, status 0) exactly without a crop column, without a reading, without a crop name, or with no row whose readings parse; on success `X` holds the rows whose readings parse, in order, with cleaned crop and readings as read, and noiseless labels |
| GenerateScatter.Label | generate_scatter.py:39-73 | from the renamed frame: clean-up, `dropna`, imputation, features and labels; succeeds exactly when the crop column holds a name, the readings exist and some row's readings parse, and fails in `apply` when none does |
| GenerateScatter.LabelKept | generate_scatter.py:49-73 | over the rows `dropna` kept: fails in `apply` exactly when there are none; otherwise `X` and `y` traced to the kept rows and labelled |
| GenerateScatter.SomeKept | generate_scatter.py:46 | some row survives `dropna` exactly when some row's readings parse |
| GenerateScatter.Drop | generate_scatter.py:39-47 | the rows left are exactly the rows whose readings parse, with the cleaned crop and readings as read |
| GenerateScatter.Dropped | generate_scatter.py:46 | `dropna` after coercion keeps exactly the rows whose readings parse |
| GenerateScatter.Filled | generate_scatter.py:47 | imputation after `dropna` leaves every kept row's crop and readings |
| GenerateScatter.Carried | generate_scatter.py:50-68 | adding the engineered columns keeps the crop and readings |
| GenerateScatter.Selected | generate_scatter.py:72 | selecting the inputs keeps the crop and readings |
| GenerateScatter.Min | generate_scatter.py:107 | `min()`: a member no greater than any element |
| GenerateScatter.Max | generate_scatter.py:108 | `max()`: a member no smaller than any element |
| GenerateScatter.Diagonal | generate_scatter.py:107-109 | the perfect-fit line exists exactly when both series are non-empty; it spans every point on both axes, and both ends are values drawn |
| RetrainModel.Layout | retrain_model.py:39-78 | `feature_cols` is the six inputs, and the header columns are moisture, readings and target |
| RetrainModel.SameInputsAsTraining | retrain_model.py:70-77 | the retraining inputs are training's |
| RetrainModel.SameTableAsTraining | retrain_model.py:16-24 | the retraining table is training's table |
| RetrainModel.CapitalisedCropUnmapped | retrain_model.py:59-66 | "Rice" stays unmapped after strip (its row is dropped), while training maps " Rice " after normalisation |
| RetrainModel.StrippedRiceUnmapped | retrain_model.py:59-60 | the stripped "Rice" finds no value |
| RetrainModel.NormalisedRiceMapped | src/ml/adapt_data.py:40-67 | the normalised " Rice " finds a value in training's table |
| RetrainModel.StripRiceKeepsCapital | retrain_model.py:59 | stripping "Rice" keeps it capitalised |
| RetrainModel.RiceUnlisted | retrain_model.py:16-24 | "Rice" is not a key of the table |
| RetrainModel.Load | retrain_model.py:33-51 | the `try` block fails exactly for a frame that cannot be loaded; otherwise the deduplicated frame with only the target scaled by 5.5 |
| RetrainModel.ScaledKeepsCrop | retrain_model.py:50 | scaling the target leaves the crop column as it was |
| RetrainModel.DropUnmapped | retrain_model.py:60-66 | exactly the rows with a listed crop stay, in order, each with its table value |
| RetrainModel.UnmappedDropped | retrain_model.py:63-66 | `dropna` on the base keeps exactly the mapped rows |
| RetrainModel.NoneUnmapped | retrain_model.py:63 | with no unmapped crop, every row stays in place |
| RetrainModel.Prepare | retrain_model.py:59-81 | strip, map, drop and select: fails when `.str` finds no crop name or an input column is missing; otherwise rows traced to the loaded frame |
| RetrainModel.Prepared | retrain_model.py:59-81 | what stripping, mapping and selecting leave, traced back to the loaded frame |
| RetrainModel.Selectable | retrain_model.py:80 | with the crop present, the selection finds its columns exactly when the moisture and readings are there |
| RetrainModel.ReadingNames | retrain_model.py:70-77 | moisture and readings are inputs other than crop and base |
| RetrainModel.StrippedPicks | retrain_model.py:59-66 | the rows picked by stripped crop are those whose crop strips to a listed name |
| RetrainModel.Traced | retrain_model.py:59-81 | the selected rows trace back to the loaded frame |
| RetrainModel.TracedCrops | retrain_model.py:59-81 | each selected row's crop, base and target come from its source row |
| RetrainModel.TracedReadings | retrain_model.py:80 | each selected row's moisture and readings are those of its source row |
| RetrainModel.Train | retrain_model.py:31-81 | errors in the `try` block return (status 0) and later ones are uncaught (status 1); on success `X` holds the mapped rows of the scaled frame, in order, and `y` their scaled targets |
| AdvancedFeatures.Ratio | train_model_advanced.py:67-68 | `a / (b + 1e-6)`: a number exactly when both cells are numbers and the shifted denominator is nonzero; that number times the shifted denominator is `a` |
| AdvancedFeatures.Times | train_model_advanced.py:71-73 | a product is a number exactly when both factors are |
| AdvancedFeatures.Minus | train_model_advanced.py:78 | a difference is a number exactly when both operands are |
| AdvancedFeatures.From | train_model_advanced.py:76-77 | `k - a` is a number exactly when `a` is |
| AdvancedFeatures.Over | train_model_advanced.py:76-78 | `a / k` is a number exactly when `a` is |
| AdvancedFeatures.DerivedRow | train_model_advanced.py:59-84 | one derived value per derived name, for any four cells |
| AdvancedFeatures.DerivedRatios | train_model_advanced.py:67-68 | for non-negative readings, each climate ratio times its shifted denominator gives back the numerator |
| AdvancedFeatures.DerivedProducts | train_model_advanced.py:71-73 | the three interactions are the products of their readings, and the saturation deficit is (100 − humidity) · temperature / 25 |
| AdvancedFeatures.DerivedSquares | train_model_advanced.py:81-82 | the squares are never negative |
| AdvancedFeatures.DerivedBalances | train_model_advanced.py:77-78 | the soil deficit brings the moisture to 100; net input plus a fifth of the temperature is the rainfall |
| AdvancedFeatures.Square | train_model_advanced.py:81-82 | a real squared is not negative |
| AdvancedFeatures.DerivedNaN | train_model_advanced.py:59-84 | a missing reading makes the derived values that use it missing; four numbers, with humidity and rainfall not negative, give ten numbers |
| AdvancedFeatures.FirstFailing | train_model_advanced.py:67-77 | the first step, in evaluation order, that raises, or none when all go through |
| AdvancedFeatures.Unusable | train_model_advanced.py:67-82 | the error on an unusable column: a KeyError when it is missing, otherwise a TypeError at its first text |
| AdvancedFeatures.Raised | train_model_advanced.py:67-71 | a lookup raises a KeyError; arithmetic on a column with text raises a TypeError at its first text |
| AdvancedFeatures.DerivedColumns | train_model_advanced.py:67-82 | ten columns, each holding one derived value of every row |
| AdvancedFeatures.CreateFeatures | train_model_advanced.py:59-84 | succeeds exactly when all four readings are usable; otherwise fails with the error of the first step that raises in Python's evaluation order (temperature and humidity looked up, humidity then temperature computed with, then rainfall, then moisture); keeps the other columns; the derived columns hold each row's derived values; on a fresh frame exactly ten names are appended |
| AdvancedFeatures.WithDerived | train_model_advanced.py:67-82 | the ten assignments keep the other columns, hold each row's derived values, and append the ten names to a fresh frame |
| AdvancedFeatures.FirstFails | train_model_advanced.py:67-71 | the first step that raises is where `create_features` fails |
| AdvancedFeatures.ChecksAreRaw | train_model_advanced.py:67-77 | every step goes through exactly when the four readings are usable |
| AdvancedFeatures.Created | train_model_advanced.py:64-84 | the ten assignments keep the other columns and append the ten to a frame without them |
| AdvancedFeatures.CreatedCells | train_model_advanced.py:67-82 | columns assigned under the derived names derive the row's values |
| AdvancedFeatures.DerivedDistinct | train_model_advanced.py:91-109 | the ten derived names are distinct |
| AdvancedFeatures.InputsLayout | train_model_advanced.py:91-109 | the fifteen inputs are distinct: the code, then the four readings, then the ten derived names |
| AdvancedFeatures.NamesApart | train_model_advanced.py:91-112 | the target, crop, code, readings and derived names are pairwise apart |
| AdvancedFeatures.SameColumn | train_model_advanced.py:112 | frames that agree on a column's cells have the same column |
| AdvancedFeatures.CodeCells | train_model_advanced.py:52 | the encoder's codes as a column of numbers |
| AdvancedFeatures.Assemble | train_model_advanced.py:41-112 | scale, encode, derive and select: succeeds exactly for an assemblable frame; fails with the first error pandas raises: the target missing or holding text, the crop column missing, then the first `create_features` step that raises; on success `X` and `y` are `Designed` row by row |
| AdvancedFeatures.Design | train_model_advanced.py:86-112 | `create_features` then selection: fails with the first step that raises; otherwise builds `X` with code, readings and derived values, and `y` with the target |
| AdvancedFeatures.BuiltBySelecting | train_model_advanced.py:111-112 | selecting the fifteen inputs from what `create_features` made gives `X` and `y` |
| AdvancedFeatures.DerivesSelected | train_model_advanced.py:111 | a selection that includes the derived names keeps their derived values |
| AdvancedFeatures.DerivesSameReadings | train_model_advanced.py:59-84 | the derived values depend only on the readings |
| AdvancedFeatures.ReadingsKept | train_model_advanced.py:41-52 | a frame agreeing on the readings can use the same readings, and passes and fails the same steps with the same errors |
| AdvancedFeatures.Composed | train_model_advanced.py:41-112 | the steps of `Assemble` compose to `Designed` |
| TrainAdvanced.Layout | train_model_advanced.py:91-109 | `feature_columns` is fifteen distinct names: the code, the readings and the derived values |
| TrainAdvanced.Prepare | train_model_advanced.py:34-112 | a missing file exits with status 1, and so does every uncaught error; success exactly for an assemblable frame, whose `X` and `y` are `Designed` with scale 20; failures in pandas' order: target, crop column, then the first `create_features` step that raises |
| TrainAdvanced.Accuracy | train_model_advanced.py:203 | `max(0, (1 - mape/100)·100)`: never negative; 100 − MAPE up to 100 %, then 0 |
| CompareModels.Layout | compare_models.py:46-49 | the coerced columns are moisture, readings and target, and exclude the crop |
| CompareModels.SameDesignAsAdvanced | compare_models.py:56-99 | the same fifteen columns and the same scale as the advanced training |
| CompareModels.ResolveDataset | compare_models.py:29-35 | the primary path when it exists, else the local file when that exists, else `exit(1)` |
| CompareModels.Coerce | compare_models.py:50-51 | a coerced column holds no text; other columns are unchanged |
| CompareModels.Clean | compare_models.py:50-53 | coercion then `dropna()`: a KeyError for the first missing column; otherwise the surviving rows, in order, coerced, with no text in the coerced columns |
| CompareModels.Dropped | compare_models.py:53 | `dropna()` keeps exactly the rows complete after coercion |
| CompareModels.Prepare | compare_models.py:29-102 | every failure has status 1; success exactly when a dataset exists and the frame read is loadable; `X` and `y` are `Designed` over the cleaned rows |
| CompareModels.Accuracy | compare_models.py:133 | `max(0, 100 - mape)` |
| CompareModels.AccuracyAgrees | compare_models.py:133 | over the reals the comparison's accuracy equals the advanced training's (train_model_advanced.py:203) |
| CompareModels.Evaluate | compare_models.py:112-142 | one entry per regressor, in the dict's order, with its metrics and a non-negative accuracy |
| App.RequiredAreModelInputs | app.py:38-45 | `required_fields` is the six inputs every preparation trains on, in the same order |
| App.CropInfoIsTrainingTable | app.py:76-86 | `/crop-info` serves the training table |
| App.LoadModel | app.py:13-20 | a missing file leaves no model, an unreadable one stops start-up, and a pickled one is loaded |
| App.Missing | app.py:47 | `field not in data` for a dict (its keys), a list (its elements) or a str (its substrings): the required fields the body lacks, in required order |
| App.Float | app.py:54-58 | `float()` of a JSON value: a number is kept, a boolean is 1 or 0, and null, a list or a dict raises |
| App.FirstNotFloat | app.py:54-58 | the first field that `float()` refuses, or none |
| App.InputRow | app.py:52-59 | the one-row frame: the six fields in order, the crop as sent, the rest through `float()`; otherwise the first field it refuses |
| App.Predict | app.py:29-72 | without a model, 500; a body that is not JSON, or a number, boolean or null that `in` cannot search, 500; missing fields, 400, listing them, for a dict, list or str body alike; a list or str with every field cannot be indexed, 500; a refused value or a failed prediction, 500; otherwise the prediction and the body |
| App.EmptyListBody | app.py:47-49 | an empty JSON list gets 400, listing all six fields |
| App.MissingAll | app.py:47 | a body containing none of the fields lacks all of them, in order |
| App.NoneMissing | app.py:47 | a body containing every field lacks none |
| App.StringBodyWithEveryField | app.py:47-53 | a str body that spells out every field passes the check and then fails indexing: 500 |
| App.CapitalisedCropUnknown | app.py:53 | "Rice" reaches the model unnormalised and encodes as an unknown crop |
| FeatureImportance.CleanNames | src/ml/generate_feature_importance.py:55-61 | one cleaned name per feature name, in order, none with "__" |
| FeatureImportance.Table | src/ml/generate_feature_importance.py:75 | `df_imp` pairs each name with its importance |
| FeatureImportance.Insert | src/ml/generate_feature_importance.py:76 | inserting into a descending table keeps it descending and adds exactly one row |
| FeatureImportance.NoneAbove | src/ml/generate_feature_importance.py:76 | inserting below the head leaves nothing above it |
| FeatureImportance.Rank | src/ml/generate_feature_importance.py:76 | `sort_values(ascending=False)`: the same rows, from highest to lowest importance |
| FeatureImportance.Head | src/ml/generate_feature_importance.py:86 | `head(n)`: the first `n` rows, or all of them |
| FeatureImportance.ShownAreBest | src/ml/generate_feature_importance.py:86 | no row left out is more important than a row shown |
| FeatureImportance.Generate | src/ml/generate_feature_importance.py:19-86 | each early return (no file, failed load, failed extraction, length mismatch) exactly in its case; otherwise the ranked rows and the top ten |
| FixModel.Uniform | fix_model.py:25-28 | `uniform(lo, hi)` lies in [lo, hi) |
| FixModel.Portion | fix_model.py:25-28 | a fraction of a width lies in [0, width) |
| FixModel.RandInt | fix_model.py:24 | `randint(lo, hi)` lies in [lo, hi) |
| FixModel.Choice | fix_model.py:29 | `choice(options)` is one of the options |
| FixModel.Row | fix_model.py:24-31 | a row of `X`: six columns, each within its drawing range, and the base one of the choices |
| FixModel.Label | fix_model.py:35-43 | the target lies in [500, 10000] and equals formula + noise whenever that lies within the bounds |
| FixModel.Samples | fix_model.py:24-43 | one row and one bounded target per draw |
| FixModel.BaseChoicesAreTableOutcomes | fix_model.py:29 | the base choices are exactly the table's values plus the default |
| FixModel.OneCodePerCrop | fix_model.py:24 | seven crop codes for the seven listed crops |
| FixModel.NoiselessNeverClipped | fix_model.py:35-43 | without noise the requirement lies strictly in (2600, 7525), so the clip never binds |

## Left out

- File I/O is not modelled: reading CSVs, pickling and unpickling, writing JSON
  and the TensorFlow.js export. The files' contents are parameters.
- Plotting (matplotlib, seaborn) and the console output are not modelled. The
  scatter plot keeps only its perfect-fit line; the feature-importance plot keeps
  only the rows it shows.
- `src/ml/generate_heatmap.py`, `test_model.py` and `test_tensorflow.py` are not
  part of this model.
- Model fitting is not modelled:
  - `train_test_split`, `GridSearchCV`, the random forest, the Keras network,
    `StandardScaler` and the scikit-learn metrics;
  - the fitted regressor, and the metrics in `compare_models.py`, are parameters;
  - `src/ml/adapt_data.py` grades an R² score passed to it.
- `fix_model.py`: fitting the random forest, pickling it and printing its score
  are left out. The data it trains on is modelled.
- `LabelEncoder.fit_transform` is a parameter `encoder`: any code column of the
  right length. That its codes follow the sorted crop names is not modelled.
- Randomness is a parameter: the moisture draws, the normal noise, and the raw
  draws of `fix_model.py`. That seed 42 fixes them is not modelled.
  - `Cleaning.Engineer` takes the moisture values as given, so the range
    [30, 70) of the `uniform` draw and its `np.round(..., 1)` are not stated.
- Floating point is modelled as exact reals. This leaves out:
  - rounding in the formula and in the derived features;
  - `round(prediction, 2)` in the response of `app.py`;
  - overflow and infinities;
  - that `1e-6` is not exactly representable. The model uses the real 0.000001.
- `Target.NoiselessWater`: its contract states only the floor of 500. The
  formula is connected to the noisy variant by `Target.NoiselessIsZeroNoise`.
- String-to-number parsing is not modelled:
  - in frames, a cell that parses is given as `Num`, and `Text` means text that
    does not parse;
  - in `app.py`, `float()` of a string is a parameter `parse`.
- pandas dtypes are approximated. A column is numeric when it holds no text; the
  crop column after `.str` is treated as `object` whatever it holds.
- `Frames.Rename` treats a rename that makes two column names equal as an
  error. pandas accepts it and fails at the next access to the repeated name.
- `FeatureImportance.Rank`: `sort_values` uses an unstable sort. The contract
  claims only that the result is a permutation, in non-increasing order; the
  order of equal importances is not stated.
- Text case folding covers ASCII letters only. Python's `str.lower()` also folds
  other letters.
- Flask routing, CORS, `render_template` and `jsonify` are not modelled.
  - `app.py`'s global model is loaded once at start-up and passed to
    `App.Predict` as a parameter.
  - A request body is a parsed JSON value (a number, a string, a boolean,
    null, a list or a dict), or none when `request.json` raises. Which
    exception Flask raises for a body that is not JSON is not modelled; any
    of them gives 500.
- Concurrency between requests is not modelled.
