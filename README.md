# UFC fighter pipeline, modelled in Dafny

This project models the fighter pipeline of a UFC fight-prediction system. The pipeline
appears in several hand-copied variants, and each is modelled as its source file writes it.
The variants are not unified. Every variant does the same four things:

- it resolves a typed fighter name against a roster table;
- it normalises one raw roster row into the fixed numeric feature record the classifier
  was trained on;
- it builds the Blue-then-Red feature vector from two such records;
- it maps the classifier's 0/1 answer back to a winner, a loser and a confidence.

Supporting table logic is modelled with it: the crawler-stats merge, the fight-card batch,
the roster check, and the crawler's two web endpoints.

The modules follow the source files:

| module | file | what it holds |
|---|---|---|
| `Wrappers` | — | `Option` and `Result`; a `Result` error is the Python exception raised |
| `Text` | — | ASCII versions of the `str` methods the code calls: `strip`, `lower`, `split`, `replace`, `isdigit`, the regex removal of non-word characters, string order |
| `Numerals` | — | `float()` of a string, restricted to decimal numerals |
| `Frames` | — | cells (`Str`, `Num`, `Missing` for NaN), rows, tables, insertion-ordered dicts, the classifier as two opaque functions, the Blue/Red side-by-side layout |
| `Schema` | — | the column names the model was trained on, and the stance one-hot encoding |
| `LegacyApp` | `UFC-Prediction/app/app/app.py` | the three unit converters, the crawler-to-legacy row mapping of `load_live_data`, `predictMatchByID`, the Predict button |
| `LiveApp` | `UFC-Prediction/app/app/app_live.py` | `convert_to_prediction_format`, `predict_fight`, the Predict button |
| `LivePredictor` | `UFC-Prediction/app/ufc320_live_predictions.py` | the `UFC_Live_Predictor` class: `load_system`, `find_fighter`, `convert_crawler_to_prediction_format`, `predict_fight` |
| `StatsApi` | `ufc-stats-crawler/api.py` | `_load_fighter_table` and the `/fighter` endpoint |
| `SearchApi` | `ufc-stats-crawler/api_app/main.py` | `latest_csv` and the `/search` endpoint |
| `Upcoming` | `UFC-Prediction/app/test_upcoming_fights.py` | the `UFC_Predictor` class: `get_fighter_stats`, `analyze_fighter_comparison`, `predict_fight`, `predict_fight_card` |
| `Integrate` | `UFC-Prediction/app/integrate_crawler_data.py` | the merge loop of `integrate_crawler_data` |
| `CheckFighters` | `UFC-Prediction/app/check_fighters.py` | the found/missing partition and the similar-name search |

Code that changes state step by step is modelled imperatively:

- the column-by-column and key-by-key builders, with their fill loops;
- the rename loop with its `break`;
- the merge loop over crawler rows;
- the card loop;
- the partition loop.

Each such method is proved equal to a specification function. The properties the source
promises are proved about that function as lemmas. Where the source object keeps state
(`UFC_Live_Predictor`, `UFC_Predictor`), the model is a class with those fields.

The variants differ from one another in ways the model keeps:

- `app.py` writes wins and losses right after the fighter's name, before Height_cms.
  `app_live.py` and `ufc320_live_predictions.py` write them after Weight_lbs.
- `convert_reach` in `app.py`, and the inline reach in `app_live.py`, raise ValueError on
  a reach such as `7-2`. The digits check drops the hyphen, but the conversion keeps it.
- `app_live.py` passes every statistic through `float()`, which raises ValueError on a
  non-numeric string. `app.py` copies statistics as they are, with NaN read as 0.
- `ufc320_live_predictions.py` sets age to 0, where `app.py` and `app_live.py` use 30.
- The table `load_live_data` builds from the crawler has no `ID` column, so with live data
  `predictMatchByID` always raises and the Predict button of `app.py` can only report its
  generic error (`LegacyApp.LiveTableNeverPredicts`).

## Model

| member | source | states |
|---|---|---|
| Schema.StanceIndex | UFC-Prediction/app/app/app.py:137-140 | the label's column is one of the four, and it is one of the first three exactly for Orthodox, Southpaw or Switch |
| Schema.StanceOneHotExactlyOne | UFC-Prediction/app/app/app.py:137-140 | exactly one stance value is 1, the one at the label's own column, and the rest are 0 |
| Frames.Get | UFC-Prediction/app/app/app_live.py:107 | `get(key, default)` gives the row's value when the key is present and the default otherwise |
| Frames.FillNa | UFC-Prediction/app/app/app.py:154 | `fillna(v)` replaces NaN by v and keeps every other cell |
| Frames.Take | UFC-Prediction/app/check_fighters.py:37 | a Python slice `[:n]` is a prefix of the list, at most n long when n is not negative |
| Frames.ColumnsFrom | UFC-Prediction/app/app/app.py:181 | `iloc[:, k:]` keeps the columns from index k on, in order |
| Frames.RowValues | UFC-Prediction/app/app/app.py:190 | a row's values under the given columns are in column order, with NaN for a missing key |
| Frames.Prefixed | UFC-Prediction/app/app/app.py:182 | each renamed column is the prefix followed by the original name, in the same order |
| Frames.PrefixedDistinct | UFC-Prediction/app/app/app.py:182-185 | prefixing keeps distinct names distinct |
| Frames.BlueRedDisjoint | UFC-Prediction/app/app/app.py:182-185 | no B_ name equals an R_ name |
| Frames.Max | UFC-Prediction/app/app/app_live.py:220 | the maximum of a non-empty list is one of its elements and is at least every element |
| Frames.Confidence | UFC-Prediction/app/app/app_live.py:218-222 | a confidence exists exactly when the probability list exists and is non-empty, and it is 100 times one of the probabilities |
| Frames.SideBySide | UFC-Prediction/app/app/app.py:187-190 | `concat(axis=1)` after `reset_index` has as many rows as the longer side, and each row holds the Blue cells then the Red cells, with NaN padding the shorter side |
| Frames.SideBySideAt | UFC-Prediction/app/app/app.py:187-190 | cell k of row i is the Blue cell on the left half and the Red cell on the right half, or NaN where that side has no row i |
| Frames.PairSampleValues | UFC-Prediction/app/app/app.py:181-190 | each row of the sample holds the Blue row's feature values, then the Red row's, with NaN where one side has fewer rows |
| Frames.RowsWhere | UFC-Prediction/app/app/app.py:181 | `df[df[col] == v]` keeps no more rows than the table has, and each kept row's cell equals v, with NaN equal to nothing |
| Frames.RowsWhereMembers | UFC-Prediction/app/app/app.py:181 | a row is kept exactly when it is a row of the table whose cell equals v |
| Frames.RowsWhereFirst | UFC-Prediction/app/app/app.py:208-209 | the first selected row is the first row of the table whose cell equals v |
| Frames.FirstMissing | UFC-Prediction/app/ufc320_live_predictions.py:76-95 | the first needed column absent from the table, None when all are present |
| Numerals.ParseDigits | UFC-Prediction/app/app/app.py:91 | `float()` of a digit run inside whitespace is that integer |
| Numerals.ParseFloat | UFC-Prediction/app/app/app.py:83-91 | `float()` of a string; specified by ParseDigits, ParseNeedsDigit and ParseIntegerNotDigits |
| Numerals.ParseNeedsDigit | UFC-Prediction/app/app/app.py:98-100 | `float()` raises on a string without any digit, so `float('')` goes to the except branch |
| Numerals.ParseIntegerNotDigits | UFC-Prediction/app/app/app.py:91 | a trimmed string that starts with a digit, has no decimal point and is not all digits does not parse |
| Text.Lower | ufc-stats-crawler/api.py:38 | `lower()` keeps the length and lowers each ASCII letter |
| Text.Strip | ufc-stats-crawler/api.py:38 | `strip()` gives a substring of the input that neither starts nor ends with whitespace |
| Text.StripKeeps | ufc-stats-crawler/api.py:38 | stripping removes only whitespace |
| Text.Split | UFC-Prediction/app/app/app.py:82 | `split(d)` yields at least one piece |
| Text.SplitJoin | UFC-Prediction/app/app/app.py:82 | splitting `a + d + b`, where a holds no separator, gives a followed by the pieces of b |
| Text.SplitCount | UFC-Prediction/app/app/app.py:82 | `split(d)` yields one more piece than there are separators |
| Text.RemoveChar | UFC-Prediction/app/app/app.py:82 | `replace(c, '')` leaves no c, and changes nothing when there is no c |
| Text.RemoveCharMembers | UFC-Prediction/app/app/app.py:90 | removing c keeps every other character and only those |
| Text.FilterDigits | UFC-Prediction/app/app/app.py:98 | `''.join(filter(str.isdigit, s))` holds only digits, and is s itself when s is all digits |
| Text.FilterDigitsMembers | UFC-Prediction/app/app/app.py:98 | the digits filter keeps exactly the digits of s |
| Text.KeepWordAndSpace | UFC-Prediction/app/ufc320_live_predictions.py:36 | `re.sub(r'[^\w\s]', '', s)` keeps only word and whitespace characters |
| Text.KeepWordAndSpaceMembers | UFC-Prediction/app/ufc320_live_predictions.py:36 | that substitution keeps exactly the word and whitespace characters of s |
| Text.RemoveLiteral | UFC-Prediction/app/ufc320_live_predictions.py:50 | a literal `replace` changes nothing when the pattern does not occur |
| Text.FirstToken | UFC-Prediction/app/ufc320_live_predictions.py:59 | `split()[0]` raises exactly on an all-whitespace string, and otherwise gives a non-empty token that occurs in the string |
| Text.FirstDigitRun | UFC-Prediction/app/ufc320_live_predictions.py:80-81 | `(\d+)` finds nothing exactly when there is no digit, and otherwise a digit run inside the string |
| Text.FirstDigitRunAt | UFC-Prediction/app/ufc320_live_predictions.py:80-81 | the run found is the maximal digit run starting at the first digit |
| Text.HeightMatch | UFC-Prediction/app/ufc320_live_predictions.py:77 | a match of `(\d+)' (\d+)` consists of two digit runs |
| Text.HeightMatchOccurs | UFC-Prediction/app/ufc320_live_predictions.py:77 | what the height pattern matches occurs in the string as feet, apostrophe, space and inches |
| Text.HeightMatchForm | UFC-Prediction/app/ufc320_live_predictions.py:77 | a string `F' I` followed by no further digit matches with F and I |
| Text.LexLeTotal | ufc-stats-crawler/api_app/main.py:17-19 | Python string order is total |
| Text.LexLeTransitive | ufc-stats-crawler/api_app/main.py:17-19 | Python string order is transitive |
| Text.LexLeAntisymmetric | ufc-stats-crawler/api_app/main.py:17-19 | Python string order is antisymmetric |
| LegacyApp.HeightPieces | UFC-Prediction/app/app/app.py:80-83 | a height that reads `F'I` once inch marks are dropped, with one apostrophe, converts from its two pieces |
| LegacyApp.FeetInchesValue | UFC-Prediction/app/app/app.py:83 | two numeric pieces give F feet plus I inches in centimetres, with the inches stripped first |
| LegacyApp.HeightFeetInches | UFC-Prediction/app/app/app.py:80-83 | a height `F'I` with numeric parts converts to F * 30.48 + I * 2.54 |
| LegacyApp.HeightNeedsOneApostrophe | UFC-Prediction/app/app/app.py:80-86 | without exactly one apostrophe, none at all or two or more, the height is 180.0 |
| LegacyApp.HeightNeedsNumbers | UFC-Prediction/app/app/app.py:82-85 | when either piece does not parse, empty included, the height is 180.0 |
| LegacyApp.ConvertHeight | UFC-Prediction/app/app/app.py:78-86 | `convert_height`; specified by HeightPieces, HeightFeetInches, HeightNeedsOneApostrophe and HeightNeedsNumbers |
| LegacyApp.ReachDigits | UFC-Prediction/app/app/app.py:90-91 | a reach made of digits, with inch marks and surrounding blanks allowed, is that many inches times 2.54 |
| LegacyApp.ReachHyphenRaises | UFC-Prediction/app/app/app.py:90-91 | a hyphen between two digit runs passes the digits check, which drops hyphens, and then makes the parse, which keeps them, raise ValueError |
| LegacyApp.ConvertReach | UFC-Prediction/app/app/app.py:88-92 | `convert_reach`; specified by ReachDigits and ReachHyphenRaises, and set against the live reach by LiveApp.LiveReachAgainstLegacy |
| LegacyApp.WeightDigits | UFC-Prediction/app/app/app.py:96-101 | a string's weight is the number all its digits spell, so `5.5` gives 55, and a string with no digit gives 170.0 |
| LegacyApp.ConvertWeight | UFC-Prediction/app/app/app.py:94-101 | `convert_weight`; specified by WeightDigits |
| LegacyApp.LegacyPairs | UFC-Prediction/app/app/app.py:115-151 | the assignments `load_live_data` makes have exactly the thirty legacy columns, in order |
| LegacyApp.LegacyPairsAt | UFC-Prediction/app/app/app.py:116-151 | assignment by assignment: the name, wins and losses (0 when the crawler has no such column), the three converters, the statistics with NaN as 0, the stance one-hot, and the twelve constants |
| LegacyApp.LegacyRowOf | UFC-Prediction/app/app/app.py:115-154 | the column-by-column build of one crawler row, then `fillna(0)`, gives that row's legacy row |
| LegacyApp.WriteColumns | UFC-Prediction/app/app/app.py:115-151 | all thirty assignments, in order, give the row of the planned pairs |
| LegacyApp.WriteHead | UFC-Prediction/app/app/app.py:116-123 | the first six assignments give the first six planned pairs |
| LegacyApp.WriteStats | UFC-Prediction/app/app/app.py:126-133 | the eight statistic assignments extend the row through position 13 |
| LegacyApp.WriteStance | UFC-Prediction/app/app/app.py:136-140 | the four stance assignments extend the row through position 17 |
| LegacyApp.WriteTail | UFC-Prediction/app/app/app.py:143-151 | the `default_cols` loop extends the row to all thirty columns |
| LegacyApp.LoadLiveData | UFC-Prediction/app/app/app.py:104-169 | without the crawler file, or when building from it raises, the static fallback is returned (an empty table when that fails too); otherwise the table has the legacy columns and one legacy row per crawler row, in order |
| LegacyApp.LegacyRowAt | UFC-Prediction/app/app/app.py:115-154 | legacy column k holds the k-th assignment, with NaN filled as 0 |
| LegacyApp.LegacyRowComplete | UFC-Prediction/app/app/app.py:115-154 | a legacy row has exactly the legacy columns and no missing value |
| LegacyApp.LegacyStanceOneHot | UFC-Prediction/app/app/app.py:136-140 | exactly the label's stance column is 1, with Open for any other label; without a stance column every row is Orthodox |
| LegacyApp.LegacyStanceAt | UFC-Prediction/app/app/app.py:137-140 | stance column i holds 1 exactly when i is the label's index |
| LegacyApp.LegacyTailDefaults | UFC-Prediction/app/app/app.py:143-151 | the twelve tail columns hold their constants whatever the crawler holds: age 30, the rest 0 |
| LegacyApp.LegacyRowRecord | UFC-Prediction/app/app/app.py:116-120 | the name and the two counts are copied, as 0 when the crawler lacks the column or the cell is NaN |
| LegacyApp.LegacyRowPhysical | UFC-Prediction/app/app/app.py:121-123 | height, reach and weight are the three converters applied to the crawler's strings, with the empty string for absent keys |
| LegacyApp.LegacyRowStats | UFC-Prediction/app/app/app.py:126-133 | each statistic is copied from the crawler row, with NaN or absent read as 0 |
| LegacyApp.PredictMatchByIdColumns | UFC-Prediction/app/app/app.py:180-191 | without an ID column the lookup raises KeyError; otherwise the sample has 2 * (ncols - 3) columns: the B_ names of the columns from index 3 on, then their R_ names |
| LegacyApp.PredictMatchByIdSample | UFC-Prediction/app/app/app.py:180-191 | with an ID column, the sample is built from the rows whose ID is B and the rows whose ID is R, side by side |
| LegacyApp.PredictMatchById | UFC-Prediction/app/app/app.py:180-191 | `predictMatchByID`; specified by PredictMatchByIdColumns, PredictMatchByIdSample and LiveTableNeverPredicts |
| LegacyApp.PredictMainDecision | UFC-Prediction/app/app/app.py:198-220 | equal names are rejected before anything else; otherwise Blue wins exactly when the model answers 1, Red exactly when it answers 0, and anything else is the generic error |
| LegacyApp.PredictMain | UFC-Prediction/app/app/app.py:193-220 | the Predict button; specified by PredictMainDecision and LiveTableNeverPredicts |
| LegacyApp.LiveTableNeverPredicts | UFC-Prediction/app/app/app.py:104-154 | a table with only the legacy columns has no ID column, so with live data the button can never name a winner |
| LegacyApp.LegacyColumnsDistinct | UFC-Prediction/app/app/app.py:116-151 | the thirty legacy columns are distinct |
| LiveApp.ToFloat | UFC-Prediction/app/app/app_live.py:135-146 | `float()` never returns a string, and it raises ValueError exactly on a string that is not a numeral |
| LiveApp.FieldValues | UFC-Prediction/app/app/app_live.py:139-146 | the values written by a fill loop sit under the loop's own keys, in order, and none of them is a string |
| LiveApp.HeadPairs | UFC-Prediction/app/app/app_live.py:106-136 | a converted head has the five keys Height_cms, Reach_cms, Weight_lbs, wins and losses, in that order |
| LiveApp.HeadDict | UFC-Prediction/app/app/app_live.py:111-136 | the head keys are in assignment order, and the head holds no string when wins and losses hold none |
| LiveApp.StancePairs | UFC-Prediction/app/app/app_live.py:149-153 | the four stance keys are in order, and their values are the one-hot encoding of the label, with anything unrecognised counting as Open |
| LiveApp.PredictionFormat | UFC-Prediction/app/app/app_live.py:102-166 | a converted record has 29 entries |
| LiveApp.ConvertToPredictionFormat | UFC-Prediction/app/app/app_live.py:102-166 | filling the dict key by key, including both fill loops, gives the converted record or the ValueError it raises |
| LiveApp.ConvertHead | UFC-Prediction/app/app/app_live.py:106-136 | the five head assignments give the head pairs or their ValueError |
| LiveApp.WriteHead | UFC-Prediction/app/app/app_live.py:104-136 | the five head assignments into the empty dict keep assignment order |
| LiveApp.PutFloats | UFC-Prediction/app/app/app_live.py:139-146 | the `float(get(key, default))` loop appends every field's value in order, or raises ValueError when some field does not convert |
| LiveApp.PutFieldStep | UFC-Prediction/app/app/app_live.py:163-164 | one pass of the fill loop appends the next field, whose key is new, and keeps the loop invariant |
| LiveApp.PutStance | UFC-Prediction/app/app/app_live.py:149-153 | the four stance assignments append the one-hot pairs |
| LiveApp.WriteStance | UFC-Prediction/app/app/app_live.py:150-153 | the four stance keys are appended in source order |
| LiveApp.LiveColumnsBlocks | UFC-Prediction/app/app/app_live.py:104-164 | the statistic and default keys are the fixed column lists, and each block's keys are new to the dict, so no assignment overwrites |
| LiveApp.StatFieldsZero | UFC-Prediction/app/app/app_live.py:139-146 | every statistic defaults to 0 |
| LiveApp.LiveDefaultsKeys | UFC-Prediction/app/app/app_live.py:156-161 | the defaults cover the twelve tail columns, with 30 for age and 0 for the rest |
| LiveApp.FieldsOkIff | UFC-Prediction/app/app/app_live.py:139-146 | a fill loop raises exactly when one of its keys is present and holds a non-numeral string |
| LiveApp.HeadPairsRaises | UFC-Prediction/app/app/app_live.py:117-136 | the head raises ValueError exactly when the reach passes the digits check but does not parse, or `n_win` or `n_loss` does not convert |
| LiveApp.PredictionFormatErr | UFC-Prediction/app/app/app_live.py:102-166 | the conversion fails with ValueError exactly when the head or one of the two fill loops does |
| LiveApp.PredictionFormatRaises | UFC-Prediction/app/app/app_live.py:102-166 | the conversion raises ValueError exactly when the reach parse breaks or a present record, statistic or tail field holds a non-numeral |
| LiveApp.PredictionFormatKeys | UFC-Prediction/app/app/app_live.py:104-166 | a converted record always has the same 29 keys in the fixed insertion order |
| LiveApp.PredictionFormatParts | UFC-Prediction/app/app/app_live.py:104-166 | a converted record is the head, then the statistics, then the stance, then the tail |
| LiveApp.HeadPairsValue | UFC-Prediction/app/app/app_live.py:106-136 | a successful head holds the converted height, the live reach computed from that height, the converted weight, and wins and losses read from `n_win` and `n_loss` through `float()` with 0 when absent |
| LiveApp.PredictionFormatHead | UFC-Prediction/app/app/app_live.py:106-136 | the first five entries of a converted record are that head |
| LiveApp.PredictionFormatStats | UFC-Prediction/app/app/app_live.py:139-146 | entries 5 to 12 are the eight statistics, each the source value through `float()`, 0 when absent |
| LiveApp.StatPairAt | UFC-Prediction/app/app/app_live.py:139-146 | statistic i is column i, read through `float()` with default 0 |
| LiveApp.StatField | UFC-Prediction/app/app/app_live.py:139-146 | statistic i is read under column i with default 0 |
| LiveApp.PredictionFormatStance | UFC-Prediction/app/app/app_live.py:149-153 | entries 13 to 16 are 1.0 exactly at the label's column; an absent stance is Orthodox and the empty string is Open |
| LiveApp.StancePairAt | UFC-Prediction/app/app/app_live.py:150-153 | stance pair i is column i, and it is 1.0 exactly when i is the label's index |
| LiveApp.PredictionFormatTail | UFC-Prediction/app/app/app_live.py:155-164 | entries 17 to 28 are the twelve tail fields, each the source value through `float()`, or its default (30 for age, 0 otherwise) when absent |
| LiveApp.TailPairAt | UFC-Prediction/app/app/app_live.py:163-164 | tail pair i is tail column i, read through `float()` with its own default |
| LiveApp.TailField | UFC-Prediction/app/app/app_live.py:156-164 | tail field i is read under tail column i with its default |
| LiveApp.PredictionFormatNumeric | UFC-Prediction/app/app/app_live.py:102-166 | every converted value is a number or NaN, never a string |
| LiveApp.LiveReachAgainstLegacy | UFC-Prediction/app/app/app_live.py:118-122 | the inline reach agrees with `convert_reach` when the digits check passes; otherwise it is 1.1 times the height where `convert_reach` answers 180.0 |
| LiveApp.LiveReach | UFC-Prediction/app/app/app_live.py:118-122 | the inline reach conversion; specified by LiveReachAgainstLegacy, HeadPairsValue and PredictionFormatHead |
| LiveApp.FeatureVectorLayout | UFC-Prediction/app/app/app_live.py:205-210 | the merged keys are every B_ key in record order, then every R_ key; the single row is fighter 1's values followed by fighter 2's, unchanged, 58 in all |
| LiveApp.PredictRecords | UFC-Prediction/app/app/app_live.py:199-233 | with both records found, the answer is never "Fighter data not found" |
| LiveApp.PredictFightNotFound | UFC-Prediction/app/app/app_live.py:193-197 | "Fighter data not found" is the answer exactly when a lookup gives nothing or an empty record, and then the model is irrelevant |
| LiveApp.PredictFightOutcome | UFC-Prediction/app/app/app_live.py:199-233 | with both records found, the prediction fails exactly when a conversion raises or the classifier raises, and the failure is a ValueError or a model error |
| LiveApp.PredictFight | UFC-Prediction/app/app/app_live.py:188-233 | `predict_fight`; specified by PredictFightNotFound, PredictFightOutcome and PredictFightPredicted, and by PredictRecords for two found records |
| LiveApp.PredictFightPredicted | UFC-Prediction/app/app/app_live.py:199-230 | a prediction's vector is fighter 1's values then fighter 2's; the winner is fighter 1 exactly when the model answers 1 and the loser is the other; the confidence is the largest probability times 100, or None when the probabilities raise; both found records are returned |
| LiveApp.LiveMainCorner | UFC-Prediction/app/app/app_live.py:286-306 | equal selections are rejected before any prediction; otherwise the Blue corner wins exactly when the model answers 1 on the Blue-then-Red vector, and the name shown is that corner's fighter |
| LiveApp.LiveMain | UFC-Prediction/app/app/app_live.py:286-306 | the Predict button; specified by LiveMainCorner |
| LivePredictor.StripCell | UFC-Prediction/app/ufc320_live_predictions.py:35 | stripping keeps a string a string, and any other cell becomes NaN |
| LivePredictor.SearchKey | UFC-Prediction/app/ufc320_live_predictions.py:36 | the search key of a string holds only word characters and whitespace, and no upper-case letter; a non-string gives NaN |
| LivePredictor.StripNames | UFC-Prediction/app/ufc320_live_predictions.py:35 | every row keeps its other cells and gets its name trimmed; the columns are unchanged |
| LivePredictor.AddSearchKeys | UFC-Prediction/app/ufc320_live_predictions.py:36 | `name_search` becomes the last column (or keeps its place if it was already there), and each row's value is the search key of its name |
| LivePredictor.CleanRoster | UFC-Prediction/app/ufc320_live_predictions.py:35-36 | after cleaning, each row has its trimmed name and the search key of that trimmed name, and every other cell unchanged |
| LivePredictor.Predictor.constructor | UFC-Prediction/app/ufc320_live_predictions.py:9-15 | without the CSV both fields stay None; otherwise the model is whatever was unpickled, and the roster is cleaned only when loading fully succeeded, which needs a name column holding some string |
| LivePredictor.Predictor.LoadSystem | UFC-Prediction/app/ufc320_live_predictions.py:17-42 | answers True exactly when the CSV and the model both load and the roster has a name column holding some string (otherwise `.str.strip()` raises AttributeError, caught as False); the raw roster is stored before the model loads, so it stays after a later failure |
| LivePredictor.Predictor.FightFeatures | UFC-Prediction/app/ufc320_live_predictions.py:121-145 | on success both found rows come from the lookup, and the feature row has 58 cells, none of them NaN |
| LivePredictor.Predictor.PredictFight | UFC-Prediction/app/ufc320_live_predictions.py:117-191 | the result always echoes both fighter names, and a pick's winner and loser are the two fighters |
| LivePredictor.SearchQuery | UFC-Prediction/app/ufc320_live_predictions.py:50 | `str.replace` takes the pattern literally, so a query without that literal text is just lower-cased and stripped, punctuation included |
| LivePredictor.Find | UFC-Prediction/app/ufc320_live_predictions.py:44-67 | a hit is a one-row frame with the roster's columns whose row is a roster row |
| LivePredictor.FindPartialTier | UFC-Prediction/app/ufc320_live_predictions.py:58-67 | a partial hit is a one-row frame taken from the roster |
| LivePredictor.PartialRows | UFC-Prediction/app/ufc320_live_predictions.py:58-61 | the partial matches are roster rows |
| LivePredictor.ExactRowsEmpty | UFC-Prediction/app/ufc320_live_predictions.py:53-54 | no exact match exists exactly when no search key equals the query |
| LivePredictor.FindExact | UFC-Prediction/app/ufc320_live_predictions.py:53-55 | when some key equals the query, the lookup returns the first such row and nothing else |
| LivePredictor.FindPartial | UFC-Prediction/app/ufc320_live_predictions.py:57-65 | with no exact key, the lookup returns the first row whose key contains the query's first token, or whose name contains the raw name's first token ignoring case |
| LivePredictor.FindFallback | UFC-Prediction/app/ufc320_live_predictions.py:53-58 | without an exact key, the lookup falls through to the partial tier |
| LivePredictor.PartialTierFails | UFC-Prediction/app/ufc320_live_predictions.py:59-67 | the partial tier fails exactly on a blank query, a missing name column or no partial hit, with IndexError for a blank query and "not found" when nothing matches |
| LivePredictor.PartialRowsEmpty | UFC-Prediction/app/ufc320_live_predictions.py:58-63 | the partial matches are empty exactly when no row passes the mask |
| LivePredictor.FindFails | UFC-Prediction/app/ufc320_live_predictions.py:46-47 | without a roster the lookup raises "Crawler data not loaded"; without the search-key column it raises KeyError; any failure past that point means no key equals the query |
| LivePredictor.Column | UFC-Prediction/app/ufc320_live_predictions.py:76 | a column holds one cell per row, where a row without the column gives NaN |
| LivePredictor.MapCells | UFC-Prediction/app/ufc320_live_predictions.py:84-95 | an element-wise operation keeps the length and applies the operation to each cell |
| LivePredictor.Zeros | UFC-Prediction/app/ufc320_live_predictions.py:113 | a default column is n zeros |
| LivePredictor.HeadColumns | UFC-Prediction/app/ufc320_live_predictions.py:76-85 | the first six columns are fighter, height, reach, weight, wins and losses, each with one cell per found row |
| LivePredictor.StatColumnsOf | UFC-Prediction/app/ufc320_live_predictions.py:88-95 | the eight statistic columns are in source order, with one cell per row |
| LivePredictor.StanceColumnsOf | UFC-Prediction/app/ufc320_live_predictions.py:98-101 | the four stance columns are in source order, with one cell per row |
| LivePredictor.DefaultColumns | UFC-Prediction/app/ufc320_live_predictions.py:104-113 | the twelve default columns, age included, hold only zeros |
| LivePredictor.CrawlerFormat | UFC-Prediction/app/ufc320_live_predictions.py:69-115 | a converted frame has exactly the 30 converted columns in order, each with one cell per source row; its failures are stated by CrawlerFormatCases and CrawlerFormatFails |
| LivePredictor.ConvertCrawler | UFC-Prediction/app/ufc320_live_predictions.py:69-115 | the step-by-step conversion, with its column-by-column writes and the default loop, equals the converted frame |
| LivePredictor.CrawlerFormatCases | UFC-Prediction/app/ufc320_live_predictions.py:76-101 | the conversion raises the first error of the head assignments (a KeyError, or the AttributeError of `.str` on height, reach or weight), else a KeyError for the first missing statistic, else for `stance`; otherwise it returns the four blocks in order |
| LivePredictor.HeadError | UFC-Prediction/app/ufc320_live_predictions.py:76-85 | the head assignments in the order they run, each KeyError and `.str` AttributeError at its place; specified by HeadErrorNone, HeadErrorCause and HeadErrorKeyError |
| LivePredictor.HeadErrorNone | UFC-Prediction/app/ufc320_live_predictions.py:76-85 | the head goes through exactly when the six columns are present and `.str` works on height, reach and weight |
| LivePredictor.HeadErrorCause | UFC-Prediction/app/ufc320_live_predictions.py:76-85 | a head error is a KeyError naming an absent head column, or an AttributeError from a present height, reach or weight column on which `.str` fails |
| LivePredictor.HeadErrorKeyError | UFC-Prediction/app/ufc320_live_predictions.py:76-85 | where `.str` works on all three text columns, the head error is the KeyError of the first absent column in reading order |
| LivePredictor.ConvertedBlocks | UFC-Prediction/app/ufc320_live_predictions.py:76-113 | the head, statistic, stance and default blocks together have exactly the 30 converted columns, each with one cell per row |
| LivePredictor.CrawlerFormatOk | UFC-Prediction/app/ufc320_live_predictions.py:69-115 | a successful conversion is the four blocks in order |
| LivePredictor.ConvertedKeys | UFC-Prediction/app/ufc320_live_predictions.py:76-113 | after each block the keys are distinct and share nothing with the next block's keys, so every assignment adds a new column |
| LivePredictor.ConvertHead | UFC-Prediction/app/ufc320_live_predictions.py:76-85 | the six head assignments raise the first head error, a KeyError for an absent column or an AttributeError from `.str`, and otherwise give the head block |
| LivePredictor.WriteHead | UFC-Prediction/app/ufc320_live_predictions.py:73-85 | writing the six head columns into an empty frame gives them in assignment order |
| LivePredictor.PutStatColumns | UFC-Prediction/app/ufc320_live_predictions.py:88-95 | the eight statistic assignments raise KeyError for the first absent column, and otherwise append the statistic block |
| LivePredictor.FillDefaults | UFC-Prediction/app/ufc320_live_predictions.py:111-113 | the loop appends every default column as zeros, since none of them is present yet |
| LivePredictor.CrawlerFormatFails | UFC-Prediction/app/ufc320_live_predictions.py:76-101 | the conversion fails exactly when a column it reads is absent or `.str` fails on height, reach or weight (a roster column without any string, or found cells that are numbers only); the error is a KeyError naming an absent column or that AttributeError |
| LivePredictor.CrawlerDefaultsZero | UFC-Prediction/app/ufc320_live_predictions.py:104-113 | column 29 is age, and columns 18 to 29 hold only zeros |
| LivePredictor.CrawlerStance | UFC-Prediction/app/ufc320_live_predictions.py:98-101 | row i's four stance cells are the one-hot encoding of its stance, with NaN or any other label counting as Open Stance |
| LivePredictor.BlocksDefaultsZero | UFC-Prediction/app/ufc320_live_predictions.py:104-113 | in the four blocks, column 29 is age and columns 18 to 29 hold only zeros |
| LivePredictor.BlocksStance | UFC-Prediction/app/ufc320_live_predictions.py:98-101 | in the four blocks, row i's stance cells are the one-hot encoding of its stance |
| LivePredictor.HeightCellForm | UFC-Prediction/app/ufc320_live_predictions.py:77-79 | a height of the form `F' I`, followed by nothing or a non-digit, converts to F * 30.48 + I * 2.54 cm |
| LivePredictor.HeightCellSound | UFC-Prediction/app/ufc320_live_predictions.py:77-79 | a converted height comes from an `F' I` pattern inside the text, and anything else is NaN |
| LivePredictor.ReachWeightCells | UFC-Prediction/app/ufc320_live_predictions.py:80-81 | reach is the first digit run times 2.54, and weight is the first digit run itself |
| LivePredictor.RowOf | UFC-Prediction/app/ufc320_live_predictions.py:145 | a frame's row i is cell i of every column, in column order |
| LivePredictor.Features | UFC-Prediction/app/ufc320_live_predictions.py:131-145 | the feature row is one row with both frames' cells, minus the fighter columns, and holds no NaN |
| LivePredictor.StatsOf | UFC-Prediction/app/ufc320_live_predictions.py:161-173 | draws are read from `n_draw` when the roster has that column, and are 0 otherwise |
| LivePredictor.FightFeaturesFails | UFC-Prediction/app/ufc320_live_predictions.py:121-128 | the features fail with the first error raised: no roster, then the first lookup, then the second, then a conversion |
| LivePredictor.FightFeaturesParts | UFC-Prediction/app/ufc320_live_predictions.py:121-145 | a successful feature step found one row per fighter, converted both and combined the two conversions |
| LivePredictor.FeaturesLayout | UFC-Prediction/app/ufc320_live_predictions.py:131-142 | Blue's 29 values come before Red's, under the live model's B_ and R_ columns, NaN reads as 0, and every default column is 0 on both sides |
| LivePredictor.FeaturesHalves | UFC-Prediction/app/ufc320_live_predictions.py:131-142 | the first half of the feature row is Blue's cells and the second half Red's, with NaN as 0 |
| LivePredictor.FeaturesZeros | UFC-Prediction/app/ufc320_live_predictions.py:104-113 | zero default columns give zeros at positions 17–28 and 46–57 of the feature row |
| LivePredictor.TailKeys | UFC-Prediction/app/ufc320_live_predictions.py:131 | dropping the fighter column leaves the live model's 29 columns |
| LivePredictor.PredictFightOutcome | UFC-Prediction/app/ufc320_live_predictions.py:117-191 | the result is an error exactly when a step raised, naming that step's error. Otherwise prediction 1 makes fighter1 the winner, the confidence is the largest probability as a percentage (absent when the probabilities raise), and the stats come from the two found roster rows |
| LivePredictor.TextFreeColumnFails | UFC-Prediction/app/ufc320_live_predictions.py:77-81 | a roster whose height, reach or weight column holds no string makes every prediction end in the error result, whatever the two names |
| LivePredictor.ReachWeightMissing | UFC-Prediction/app/ufc320_live_predictions.py:80-81 | reach and weight are NaN exactly for a non-string or for text without any digit |
| StatsApi.FirstPresent | ufc-stats-crawler/api.py:30-33 | the first candidate the columns contain: it is present, none before it is, and None means none is present |
| StatsApi.RenameColumn | ufc-stats-crawler/api.py:32 | the renamed column keeps its position and its cells under the new label; the other columns and the number of rows are unchanged |
| StatsApi.JoinName | ufc-stats-crawler/api.py:36-37 | the joined name is text exactly when both parts are text |
| StatsApi.NameFromParts | ufc-stats-crawler/api.py:34-37 | without a `name` column, `name` is appended as the last column |
| StatsApi.LoadFighterTable | ufc-stats-crawler/api.py:23-39 | no CSV gives FileNotFoundError; otherwise the rename loop, which stops at the first alias, the name assignments and the numeric-name check give exactly the normalised table or its error |
| StatsApi.FirstPresentAt | ufc-stats-crawler/api.py:30-33 | the loop stops at the first alias present: with alias i present and none before it, i is the one renamed |
| StatsApi.NormalizedClash | ufc-stats-crawler/api.py:30-38 | loading fails with two columns labelled `name` exactly when `fighter` or `fighter_name` is the first alias and a `name` column already exists; otherwise it fails exactly when the resulting name column holds a number in every row, where `.str` raises AttributeError |
| StatsApi.NormalizedTable | ufc-stats-crawler/api.py:29-39 | the table `_load_fighter_table` returns after `read_csv`; specified by NormalizedClash, NumericAliasNames, NormalizedAliasColumns, NormalizedFromAlias, AliasRenamed, NormalizedFromParts and PartsNamed, and computed by LoadFighterTable |
| StatsApi.NumericAliasNames | ufc-stats-crawler/api.py:30-38 | in a well-formed table renamed from an alias, the numeric-name error happens exactly when there are rows and every alias cell is a number |
| StatsApi.PartsNamed | ufc-stats-crawler/api.py:34-38 | without any alias the name is built from the parts, which is never a numeric column, so the load succeeds |
| StatsApi.NormalizedAliasColumns | ufc-stats-crawler/api.py:30-38 | after renaming the first alias present, the table has `name`, `name_norm` and the same rows, and every later alias column is untouched |
| StatsApi.NormalizedFromAlias | ufc-stats-crawler/api.py:30-38 | `name` holds the first alias's cells, `name_norm` their trimmed lower-cased form (missing read as ""), and every other column is unchanged |
| StatsApi.AliasRenamed | ufc-stats-crawler/api.py:30-38 | with an alias present nothing is built from First Name and Last Name: the table is the rename plus `name_norm` |
| StatsApi.RelabelCells | ufc-stats-crawler/api.py:32 | relabelling moves only the renamed cell; every other label keeps its cell |
| StatsApi.NormalizedFromParts | ufc-stats-crawler/api.py:34-38 | without any alias, `name` is added as the trimmed `First Name + " " + Last Name` (a missing column read as ""), `name_norm` after it when new, and the rows keep their number |
| StatsApi.SubstringRows | ufc-stats-crawler/api.py:55 | the substring filter never returns more rows than the table holds |
| StatsApi.NameCells | ufc-stats-crawler/api.py:68 | the `name` cell of every row, in row order |
| StatsApi.Unique | ufc-stats-crawler/api.py:68 | `dropna().unique()` holds every non-missing cell of the input, only those, and each of them once |
| StatsApi.UniqueOrder | ufc-stats-crawler/api.py:68 | the distinct names come in order of first appearance |
| StatsApi.FirstNamed | ufc-stats-crawler/api.py:69 | the row returned for a name is the first row carrying it |
| StatsApi.SubstringResultsRows | ufc-stats-crawler/api.py:67-69 | the substring answer holds one row per name in the `[:limit]` slice (so at most `limit` for limit >= 0), each a qualifying row of the table |
| StatsApi.SubstringResults | ufc-stats-crawler/api.py:67-69 | the substring tier's rows; specified by SubstringResultsRows, SubstringResultsNames and SubstringResultsComplete |
| StatsApi.SubstringResultsNames | ufc-stats-crawler/api.py:67-69 | the answered rows carry distinct, non-missing names, in order of first appearance, each the first qualifying row with its name |
| StatsApi.SubstringResultsComplete | ufc-stats-crawler/api.py:67-69 | with a limit at least the number of distinct names, every named qualifying row has its name answered |
| StatsApi.BestIn | ufc-stats-crawler/api.py:59 | the best-scoring position not yet taken, the earliest among equal scores; None exactly when all are taken |
| StatsApi.TopK | ufc-stats-crawler/api.py:59 | `process.extract(limit=k)` gives at most k distinct positions ranked best first, with no left-out position scoring above the last; fewer than k only when every position is listed |
| StatsApi.RankedExtend | ufc-stats-crawler/api.py:59 | appending the best position not yet listed keeps a ranking |
| StatsApi.Trunc | ufc-stats-crawler/api.py:63 | `int(score)` truncates toward zero |
| StatsApi.Choices | ufc-stats-crawler/api.py:58 | one fuzzy candidate per row |
| StatsApi.Scores | ufc-stats-crawler/api.py:59 | candidate i's score is the scorer's verdict on the raw query and candidate i |
| StatsApi.FuzzyRows | ufc-stats-crawler/api.py:60-64 | the fuzzy loop returns, in rank order, the row of each ranked position with `_match_score` set to its truncated score |
| StatsApi.FuzzyAnswer | ufc-stats-crawler/api.py:57-65 | the fuzzy tier's rows; the contract of Fighter states the answer with it, and TopK and FuzzyRows state the ranking and the rows |
| StatsApi.Fighter | ufc-stats-crawler/api.py:45-70 | no table gives the 404 with the loader's message; a failing load (duplicate or numeric name column) gives a 500; otherwise the answer is the rows of the tier (Tier), and it is a 500 exactly when those rows hold NaN, since FastAPI renders JSON with `allow_nan=False`; any other answer echoes the query, says which tier answered and holds its rows, none with NaN |
| StatsApi.FuzzyResults | ufc-stats-crawler/api.py:57-65 | the fuzzy rows as a list, which FuzzyAnswer accepts |
| StatsApi.Tier | ufc-stats-crawler/api.py:53-70 | which tier answers and with what rows; specified by TierAnswer |
| StatsApi.TierAnswer | ufc-stats-crawler/api.py:53-70 | the answer is exact exactly when some row's `name_norm` contains the trimmed, lower-cased query; it then holds the substring results, otherwise the fuzzy answer for the raw query; a table with no NaN answers none |
| StatsApi.SubstringTierServes | ufc-stats-crawler/api.py:67-70 | on a table with no NaN cell, the substring answer holds none, because each answered row is a row of the table |
| StatsApi.FuzzyTierServes | ufc-stats-crawler/api.py:61-65 | on a table with no NaN cell, the fuzzy answer holds none: the rows are the table's, plus a numeric `_match_score` |
| StatsApi.SubstringHitName | ufc-stats-crawler/api.py:38-55 | on a served row a text name qualifies exactly when, trimmed and lower-cased, it contains the query (query in name); a missing name qualifies only for the empty query; a numeric name never does; so the empty query matches every row without a numeric name |
| SearchApi.LatestCsv | ufc-stats-crawler/api_app/main.py:17-19 | the newest CSV is None exactly when the folder has no CSV; otherwise it is one of the files and no file sorts after it in Python string order |
| SearchApi.LexLeAfter | ufc-stats-crawler/api_app/main.py:18-19 | string order is transitive over a whole list, which makes the greatest file the greatest of all |
| SearchApi.Familiar | ufc-stats-crawler/api_app/main.py:35-39 | a column is kept exactly when its lower-cased name is in the fixed set; none is kept exactly when no column name is in it |
| SearchApi.ProjectionColumns | ufc-stats-crawler/api_app/main.py:35-41 | when some column is familiar, the projection holds exactly the familiar columns; when none is, it keeps all columns unchanged |
| SearchApi.Record | ufc-stats-crawler/api_app/main.py:42 | a record has exactly the projected columns, in order, each holding the row's cell with a missing one rendered as "" |
| SearchApi.KeptRows | ufc-stats-crawler/api_app/main.py:32-33 | the mask as written never returns more rows than the table holds; KeptRowsMembers states which rows it keeps |
| SearchApi.Records | ufc-stats-crawler/api_app/main.py:42 | one record per kept row, in row order |
| SearchApi.SearchOutcome | ufc-stats-crawler/api_app/main.py:26-42 | a query shorter than two characters is refused; with no fighter CSV the answer is the 503; a table whose first column is not text is a 500 (`apply` returns a Series and `.any(axis=1)` raises ValueError); otherwise `count` equals the number of records and of rows the mask as written keeps, record i renders kept row i under exactly the projected columns, and no value in it is missing |
| SearchApi.Search | ufc-stats-crawler/api_app/main.py:25-42 | `/search` as written; specified by SearchOutcome, SearchKept, KeptRowsMembers, NoTextColumnRaises, HeaderOnlyRaises, TextFirstColumnResults and FindingSearch |
| SearchApi.SearchIntended | ufc-stats-crawler/api_app/main.py:25-42 | `/search` with the mask as intended, a missing cell never matching; specified by SearchKept, KeptRowsIntendedMembers, AsWrittenAgainstIntended, HeaderOnlyRaises and FindingSearch |
| SearchApi.KeptRowsMembers | ufc-stats-crawler/api_app/main.py:32-33 | as written, a row is kept exactly when it is a table row and the `astype(str)` form of one of its text-typed cells ("nan" for a missing one) contains the query, ignoring case |
| SearchApi.NoTextColumnRaises | ufc-stats-crawler/api_app/main.py:32 | a table with no text column, with or without data rows, answers the 500 for every query of two or more characters, because its first column is not text |
| SearchApi.HeaderOnlyRaises | ufc-stats-crawler/api_app/main.py:32 | a table without data rows (a header-only CSV) answers the 500 under both masks: pandas' empty-result path of `apply` gives a Series and `.any(axis=1)` raises ValueError |
| SearchApi.TextFirstColumnResults | ufc-stats-crawler/api_app/main.py:32-42 | a table whose first column is text gets results for any query of two or more characters |
| SearchApi.SearchKept | ufc-stats-crawler/api_app/main.py:32-42 | when the mask does not raise, the answer counts and renders exactly the kept rows, for the mask as written and as intended |
| SearchApi.KeptRowsIntended | ufc-stats-crawler/api_app/main.py:32 | the mask as intended never returns more rows than the table holds |
| SearchApi.KeptRowsIntendedMembers | ufc-stats-crawler/api_app/main.py:32 | as intended (`na=False`), a row is kept exactly when it is a table row with a text cell containing the query, ignoring case |
| SearchApi.AsWrittenAgainstIntended | ufc-stats-crawler/api_app/main.py:32 | every row the intended mask keeps is kept as written, and a table row kept only as written has a missing text cell and a query that "nan" contains |
| SearchApi.FindingSearch | ufc-stats-crawler/api_app/main.py:26-42 | on a table of "Jon Jones" and a missing name, the query "na" answers one record with an empty name as written, and no record as intended |
| SearchApi.MissingCellMatchesAsWritten | ufc-stats-crawler/api_app/main.py:32 | as written, a missing cell in a text column reads "nan" after `astype(str)`, so the query "na" keeps that row; the intended mask does not |
| SearchApi.MissingNeverMatches | ufc-stats-crawler/api_app/main.py:32 | with `na=False` as intended, a row with no text cell is never kept, whatever the query |
| Upcoming.Greater | UFC-Prediction/app/test_upcoming_fights.py:65 | `f1_val > f2_val` raises TypeError exactly for a string against a non-string; numbers compare by value, and NaN is greater than nothing and nothing is greater than NaN |
| Upcoming.GreaterStrings | UFC-Prediction/app/test_upcoming_fights.py:65 | on two strings `>` holds exactly when the second comes strictly before the first in code-point order |
| Upcoming.GreaterIrreflexive | UFC-Prediction/app/test_upcoming_fights.py:65 | no value is greater than itself |
| Upcoming.Entry | UFC-Prediction/app/test_upcoming_fights.py:61-70 | an entry holds both fighters' values, and its advantage is fighter1 exactly when fighter 1's value is greater |
| Upcoming.Labels | UFC-Prediction/app/test_upcoming_fights.py:48-57 | one description per metric, in order |
| Upcoming.KeyStatsErrSticks | UFC-Prediction/app/test_upcoming_fights.py:59-70 | a comparison that raises ends the metric loop: the whole loop raises that error |
| Upcoming.KeyStatsRaises | UFC-Prediction/app/test_upcoming_fights.py:59-70 | the loop raises exactly when some compared metric holds a string against a non-string, and then with TypeError |
| Upcoming.KeyStats | UFC-Prediction/app/test_upcoming_fights.py:59-70 | the key-metric loop of `analyze_fighter_comparison`; specified by KeyStatsErrSticks, KeyStatsRaises, KeyStatsEntries and KeyStatsLabels |
| Upcoming.KeyStatsEntries | UFC-Prediction/app/test_upcoming_fights.py:59-70 | with distinct descriptions and no comparison raising, each description holds its metric's entry when the metric is compared and is absent otherwise |
| Upcoming.KeyStatsLabels | UFC-Prediction/app/test_upcoming_fights.py:59-70 | every key the loop writes is the description of one of the metrics |
| Upcoming.KeyMetricsLabels | UFC-Prediction/app/test_upcoming_fights.py:48-57 | the eight metric descriptions are distinct |
| Upcoming.NameValue | UFC-Prediction/app/test_upcoming_fights.py:136-137 | `fight.get(key, '')` reads "" for an absent key |
| Upcoming.MissingNames | UFC-Prediction/app/test_upcoming_fights.py:140-143 | the entry for a fight without both names has exactly the keys error and fight, holding "Missing fighter names" and the fight |
| Upcoming.AsDict | UFC-Prediction/app/test_upcoming_fights.py:115-129 | a prediction dict has the keys winner, loser, confidence, fighter1, fighter2 and analysis in that order; an error dict has error, fighter1 and fighter2 |
| Upcoming.AsDictFields | UFC-Prediction/app/test_upcoming_fights.py:105-129 | both kinds of result carry both names, an error result and only an error result has "error", and a prediction carries its winner, its loser and its confidence, "N/A" when there is none |
| Upcoming.UfcPredictor.constructor | UFC-Prediction/app/test_upcoming_fights.py:7-27 | the predictor holds the loaded table and model |
| Upcoming.UfcPredictor.GetFighterStats | UFC-Prediction/app/test_upcoming_fights.py:29-34 | a table without a fighter column raises KeyError; no matching row raises ValueError naming the fighter; the found rows keep every column and all have exactly that fighter name |
| Upcoming.UfcPredictor.Analysis | UFC-Prediction/app/test_upcoming_fights.py:36-72 | a comparison that does not raise names both fighters, and both lookups succeeded |
| Upcoming.UfcPredictor.AnalyzeFighterComparison | UFC-Prediction/app/test_upcoming_fights.py:36-72 | the metric loop computes exactly the specified comparison, including the lookup errors and the TypeError of a comparison |
| Upcoming.UfcPredictor.Prediction | UFC-Prediction/app/test_upcoming_fights.py:74-129 | the result carries both names, and a prediction's winner and loser are the two fighters |
| Upcoming.UfcPredictor.PredictFight | UFC-Prediction/app/test_upcoming_fights.py:74-129 | the straight-line method computes exactly the specified prediction |
| Upcoming.UfcPredictor.PredictFightCard | UFC-Prediction/app/test_upcoming_fights.py:131-150 | one entry per fight, in input order, each the card entry for that fight |
| Upcoming.UfcPredictor.FightEntry | UFC-Prediction/app/test_upcoming_fights.py:136-148 | the loop body gives the missing-names entry or the merged prediction, as the card entry specifies |
| Upcoming.GetFighterStatsRows | UFC-Prediction/app/test_upcoming_fights.py:29-34 | the lookup succeeds exactly when some row's fighter cell is that exact name; it returns exactly the rows that have it, the first of them first |
| Upcoming.AnalysisEntries | UFC-Prediction/app/test_upcoming_fights.py:36-72 | with both fighters found, the analysis raises exactly when a compared metric holds a string against a non-string, with TypeError; otherwise each description holds its entry exactly when the metric's column exists and both first-row values are present, and no other description appears |
| Upcoming.EntryAdvantage | UFC-Prediction/app/test_upcoming_fights.py:65 | for numbers the advantage is fighter1 exactly when f1 > f2, and equal values favour fighter2 |
| Upcoming.PredictionOutcome | UFC-Prediction/app/test_upcoming_fights.py:74-129 | a failing lookup gives its error; with both found the classifier sees fighter 1's columns from index 3 on, prefixed `B_`, before fighter 2's prefixed `R_`; the result fails exactly when the classifier or the analysis raises; otherwise fighter 1 wins exactly on the answer 1, the other fighter loses, the confidence is `max(probabilities) * 100` or none, and the analysis is included |
| Upcoming.FightSampleValues | UFC-Prediction/app/test_upcoming_fights.py:82-97 | the features have as many rows as the longer side; each row holds fighter 1's cells under the columns from index 3 on, then fighter 2's, NaN where one side has fewer rows |
| Upcoming.CardEntryMissing | UFC-Prediction/app/test_upcoming_fights.py:139-144 | a fight without both names gets the "Missing fighter names" entry whatever the table and model, so no prediction is made |
| Upcoming.CardEntryMerge | UFC-Prediction/app/test_upcoming_fights.py:146-148 | in a merged entry each fight key reads the fight's value and every other key reads the prediction's |
| Upcoming.UfcPredictor.CardEntry | UFC-Prediction/app/test_upcoming_fights.py:136-148 | one fight's entry in `predict_fight_card`; specified by CardEntryMissing and CardEntryMerge, and computed by FightEntry |
| Upcoming.UfcPredictor.Merged | UFC-Prediction/app/test_upcoming_fights.py:146-148 | the prediction updated with the fight's keys; specified by CardEntryMerge |
| Integrate.WithNaNColumns | UFC-Prediction/app/integrate_crawler_data.py:32-33 | adding the NaN columns keeps the number of rows |
| Integrate.WithNaNColumnsColumns | UFC-Prediction/app/integrate_crawler_data.py:29-33 | the enhanced table keeps every prediction column in place, and its columns are exactly the old ones plus the new stat columns |
| Integrate.WithNaNColumnsRows | UFC-Prediction/app/integrate_crawler_data.py:32-33 | every row keeps its cells and gets NaN under each new stat column |
| Integrate.AddNaNColumns | UFC-Prediction/app/integrate_crawler_data.py:32-33 | the column loop computes exactly the table with the eight NaN columns added in order |
| Integrate.Lowered | UFC-Prediction/app/integrate_crawler_data.py:40 | `.str.lower()` gives a string exactly for a string cell, and then its lower-cased text |
| Integrate.FirstMatch | UFC-Prediction/app/integrate_crawler_data.py:40-42 | `matches.index[0]` is the first row whose lower-cased fighter name equals the key; None means no row has it |
| Integrate.Stats | UFC-Prediction/app/integrate_crawler_data.py:44-51 | the cells copied from a crawler row are keyed by exactly the eight stat columns |
| Integrate.CopyStats | UFC-Prediction/app/integrate_crawler_data.py:44-51 | the eight stat assignments into the matched row; specified by Step and MergedState |
| Integrate.MatchOf | UFC-Prediction/app/integrate_crawler_data.py:38-51 | a lookup that does not raise names a row of the enhanced table, or no row |
| Integrate.Step | UFC-Prediction/app/integrate_crawler_data.py:37-52 | one crawler row keeps the number of rows and adds at most one match |
| Integrate.Merged | UFC-Prediction/app/integrate_crawler_data.py:36-52 | after n crawler rows the table has as many rows as before and at most n matches were counted |
| Integrate.Integrate | UFC-Prediction/app/integrate_crawler_data.py:9-64 | the result is the no-data outcome exactly when the crawler CSV fails to load; an integrated result has as many rows as the prediction table and at most one match per crawler row |
| Integrate.IntegrateCrawlerData | UFC-Prediction/app/integrate_crawler_data.py:9-64 | the loops over the new columns and the crawler rows compute exactly the specified integration, including the first exception the merge loop raises |
| Integrate.MergedNext | UFC-Prediction/app/integrate_crawler_data.py:37-52 | the state after n + 1 crawler rows is one step on the state after n |
| Integrate.MergedErrSticks | UFC-Prediction/app/integrate_crawler_data.py:37-52 | an exception on one crawler row ends the loop: every longer run gives that same error |
| Integrate.NaNMap | UFC-Prediction/app/integrate_crawler_data.py:33 | the NaN cells are keyed by exactly the given columns |
| Integrate.LastWriter | UFC-Prediction/app/integrate_crawler_data.py:42-51 | the last of the first n crawler rows that writes row i: it targets row i and no later one does; None means none of them does |
| Integrate.MatchCount | UFC-Prediction/app/integrate_crawler_data.py:52 | the number of matched crawler rows is at most the number of crawler rows |
| Integrate.MergedState | UFC-Prediction/app/integrate_crawler_data.py:36-52 | after n crawler rows the columns are unchanged, a row no crawler row wrote is its base row, a written row is the base row with the stats of the last crawler row that matched it first, and `matched_count` is the number of crawler rows that found a match |
| Integrate.MergedKeepsFighters | UFC-Prediction/app/integrate_crawler_data.py:44-51 | no copied stat is a fighter cell, so the merge keeps every row's fighter name |
| Integrate.MatchOfTarget | UFC-Prediction/app/integrate_crawler_data.py:40-42 | while the fighter cells stay those of the original rows, each lookup finds the row it would find in the original table |
| Integrate.FirstMatchSameKeys | UFC-Prediction/app/integrate_crawler_data.py:40-42 | the first match depends only on the rows' fighter cells |
| Integrate.IntegrationResult | UFC-Prediction/app/integrate_crawler_data.py:9-64 | the result is the no-data outcome exactly when the crawler CSV did not load; an integrated table keeps all prediction columns and adds the eight, and each row is the prediction row plus NaN when no crawler row matched it first, else plus the stats of the last crawler row that did; the count is the number of crawler rows that matched, at most all of them |
| Integrate.TargetFirst | UFC-Prediction/app/integrate_crawler_data.py:38-42 | a row is written only by a crawler row with a string name equal, lower-cased, to the row's lower-cased fighter name, and no earlier row has that name |
| Integrate.MergedErrors | UFC-Prediction/app/integrate_crawler_data.py:37-51 | the loop fails only on a non-empty crawler table with KeyError on name, fighter or a stat column, or AttributeError; a crawler table without a name column fails with KeyError("name") |
| Integrate.MergedErrCause | UFC-Prediction/app/integrate_crawler_data.py:37-51 | a failed loop's error is one that a single row's lookup raises |
| CheckFighters.FighterValues | UFC-Prediction/app/check_fighters.py:22 | `df['fighter'].values` holds one cell per row, in row order, NaN for a row without the column |
| CheckFighters.SimilarNames | UFC-Prediction/app/check_fighters.py:35-37 | a successful similar-name search shows at most three names |
| CheckFighters.Shown | UFC-Prediction/app/check_fighters.py:33-37 | a search that does not raise gives one line of similar names per missing fighter |
| CheckFighters.CheckUfc320Fighters | UFC-Prediction/app/check_fighters.py:8-39 | the two loops (membership over the UFC 320 card, then the similar-name search over the missing fighters) return exactly the specified check of that card, including the KeyError for a table without a fighter column and the first error of the search |
| CheckFighters.ShownErrSticks | UFC-Prediction/app/check_fighters.py:33-37 | once the search for one missing fighter raises, the search over the whole list raises that error, so stopping the loop there is faithful |
| CheckFighters.InValues | UFC-Prediction/app/check_fighters.py:22 | `fighter in df['fighter'].values` holds exactly when some row's fighter cell is that exact string |
| CheckFighters.PartitionSplits | UFC-Prediction/app/check_fighters.py:21-27 | every card fighter lands in exactly one list (the multisets add up to the card); the found list holds exactly the roster names and the missing list exactly the others |
| CheckFighters.Partition | UFC-Prediction/app/check_fighters.py:21-27 | the found/missing loop; specified by PartitionSplits and PartitionConcat |
| CheckFighters.PartitionConcat | UFC-Prediction/app/check_fighters.py:21-27 | splitting a joined card gives the joined splits: both lists keep card order |
| CheckFighters.SimilarMembers | UFC-Prediction/app/check_fighters.py:35 | a name is in the similarity mask's result exactly when it is a fighter string of the roster that contains the token, ignoring case |
| CheckFighters.Similar | UFC-Prediction/app/check_fighters.py:35 | the similarity mask's fighter list; specified by SimilarMembers and SimilarShown |
| CheckFighters.SimilarShown | UFC-Prediction/app/check_fighters.py:35-37 | the names shown are the first three similar names in roster order (all of them when fewer), each a roster name containing the missing name's first word, ignoring case |
| CheckFighters.CheckResult | UFC-Prediction/app/check_fighters.py:18-39 | with a fighter listed and no fighter column the check raises KeyError; otherwise it raises exactly when some missing fighter's search raises, and when it returns, the found and missing lists are the split and line k is the shown names of missing fighter k |
| CheckFighters.Check | UFC-Prediction/app/check_fighters.py:18-39 | `check_ufc320_fighters`; specified by CheckResult, NoStringsRaises, CardErrors and Ufc320Errors, and computed by CheckUfc320Fighters |
| CheckFighters.ShownEntries | UFC-Prediction/app/check_fighters.py:33-37 | the search over the missing list raises exactly when one fighter's search raises; otherwise entry k is fighter k's shown names |
| CheckFighters.NoStringsRaises | UFC-Prediction/app/check_fighters.py:35 | on a table whose fighter column holds no strings, a non-empty card raises AttributeError from `.str` |
| CheckFighters.CardErrors | UFC-Prediction/app/check_fighters.py:21-37 | for a non-empty card of names that each have a first word, the check raises only KeyError("fighter") or AttributeError, and raises exactly when the column is absent, or holds no strings while some fighter is missing |
| CheckFighters.Ufc320Errors | UFC-Prediction/app/check_fighters.py:8-37 | on the UFC 320 card the check raises only KeyError("fighter") or AttributeError, never IndexError |
| CheckFighters.ShownFirstError | UFC-Prediction/app/check_fighters.py:33-35 | on a fighter column without strings, the search over a non-empty missing list raises AttributeError |

## Left out

- User interface and printing: the Streamlit pages, CSS, images, `st.cache_data`, the
  progress and summary prints, and the printed partial-match list of `find_fighter`. None
  of them changes a result.
- `predict_ufc320_main_card` in `ufc320_live_predictions.py`, and the UFC 320 buttons of
  `app.py` and `app_live.py`. Each runs the modelled `predict_fight` over a hard-coded card
  and prints the results.
- File and network I/O are inputs of the model:
  - the tables `pd.read_csv` would return;
  - the model `pickle.load` would return (None where the file is missing or the load raises);
  - the file list `glob` would return;
  - the record `get_fighter_data` in `app_live.py` would return, from the stats API or its
    CSV fallback. It is the `lookup` parameter of `LiveApp.PredictFight`.
- `get_all_fighters` in `app_live.py` and `load_model` are left out. They only read files,
  and their results reach the model as the selected names and the classifier.
- `to_csv` in `integrate_crawler_data.py` is left out, because it writes a file.
- Reading the prediction CSV in `integrate_crawler_data.py` (line 20) is outside the `try`,
  so a failure there would raise from the function. The model takes that table as given.
- `_latest_file` in `api.py` chooses the newest file by modification time, which is a clock.
  `StatsApi.LoadFighterTable` takes the chosen CSV, or None, as its input.
- The `/health` and `/upcoming` endpoints of both APIs, and `_run_scrapy` with the
  `/scrape/*` routes, are left out. They hold no fighter logic, or they run subprocesses.
- The rapidfuzz `WRatio` scorer is a parameter `(string, Cell) -> real`.
  `process.extract` is modelled as the `limit` best scores in ranked order (`StatsApi.TopK`),
  with the earlier position first among equal scores. A negative `limit` gives no fuzzy
  rows, while the substring tier follows Python slicing (`[:-1]` drops the last name).
- The trained classifier is two opaque functions over the feature matrix: `predict` gives
  the first label or None where it raises, and `proba` gives the first probability row or
  None where it raises. Whether a real model accepts NaN or string features is part of
  those functions.
- Text is ASCII only:
  - `lower()` changes only A to Z;
  - `\w` is ASCII letters, digits and `_`, plus every non-ASCII character, so accented
    names keep their letters;
  - `isspace` is the ASCII whitespace set;
  - `str.isdigit` and the regex `\d` accept only `0` to `9` (Text.IsDigitString,
    Text.FilterDigits, Text.FirstDigitRun). Python also accepts other Unicode digits: for
    `"²"`, `isdigit()` is True and `float()` then raises inside `convert_reach`, where the
    model converts the digit run it finds.
- pandas `str.contains` is regex by default. It is modelled as a literal substring test,
  assuming queries hold no regex metacharacters.
- Python `float()` is restricted to decimal numerals, with an optional sign and surrounding
  whitespace. Exponents, `inf`, `nan` and underscores are not accepted.
- Arithmetic is exact: `real` numbers stand for floats, and binary rounding is not
  modelled. For example `5' 11"` gives exactly 180.34.
- pandas dtypes are not modelled as such. A column counts as text (`object` dtype) when it
  holds some string and no number, and `.str` on a number in a text column gives NaN.
  Where `.str` runs on a whole column that pandas would read as numbers, the model says
  when that raises AttributeError: `CheckFighters` and `Integrate` for a column without any
  string, `LivePredictor.Predictor.LoadSystem` for a name column without any string, and
  `StatsApi.NormalizedTable` for a name column holding a number in every row.
- `LivePredictor.CrawlerFormat` judges `.str` on the one-row frame `find_fighter` returns
  by the roster the row was cut from, since `iloc[0:1]` keeps its column types. It raises
  AttributeError for a roster column without any string, and for a text column whose found
  cell is a number, where pandas infers an integer or float array; a found NaN in a text
  column passes, as pandas infers an empty array. This follows pandas' accessor check as
  read from its source.
- `StatsApi.JoinName`: `First Name + " " + Last Name` on a number would raise TypeError in
  pandas. The model gives NaN in that case.
- `StatsApi.NormalizedTable`: renaming an alias to `name` when a `name` column already
  exists would leave pandas with two `name` columns. The model reports this as the
  `DuplicateName` error instead of modelling duplicate columns.
- `LiveApp.LiveMain` shows the confidence line when the confidence is present and not 0,
  which is Python truthiness; `:.1f` formatting is not modelled.
- `LivePredictor.Features` requires both converted frames to hold exactly one row, which
  `find_fighter` guarantees (`iloc[0:1]`).
- `Upcoming.UfcPredictor.PredictFightCard`: each fight name that is present and truthy must
  be a string, as `predict_fight`'s `str` parameters assume. A non-string name would fail
  inside pandas in ways the model does not follow.
- `Upcoming.UfcPredictor.constructor`: when the CSV or the model fails to load, `__init__`
  raises and there is no predictor, so the model takes both as given.
- `Integrate.IntegrateCrawlerData` returns `matched_count` as an output instead of printing it.
- `CheckFighters.CheckUfc320Fighters`: the similar names are printed only when the list is
  non-empty. The model returns every missing fighter's list, empty ones included.

## Findings

| source | as written | input that shows it | evidently intended | confidence | as-written member | corrected member |
|---|---|---|---|---|---|---|
| ufc-stats-crawler/api_app/main.py:32 | `col.astype(str)` turns a missing cell into the text `"nan"` before `str.contains(..., na=False)` runs, so `na=False` never applies | a table of the names "Jon Jones" and a missing one, and the query `"na"`: `Search` returns the missing one, rendered as an empty name (`MissingCellMatchesAsWritten` shows the cell matching) | missing cells never match (`na=False`) | not executed | SearchApi.FindingSearch | SearchApi.MissingNeverMatches |
