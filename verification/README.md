# WeRateDogs cleaning pipeline, modelled in Dafny

This project models the cleaning part of the WeRateDogs data-wrangling notebook
(`wrangle_act.py`). The notebook turns three loaded tables into one master
table:

- the tweet archive;
- the image predictions;
- the engagement counts.

Each table is a `seq` of immutable rows. A nullable column is an `Option`
whose empty case is called `Null`, so it never reads like the string `"None"`.
Each notebook cell is a pure function. `Pipeline.BuildMaster` composes the cells
in the notebook's order:

1. stage collapse;
2. both inner merges;
3. image filter;
4. placeholder names;
5. reshare filter;
6. `drop_duplicates`;
7. retweet-column drop;
8. source labels;
9. `str.capitalize`;
10. the five keyed denominator fixes.

Modules:

- `Nullable`: the nullable cell.
- `Seqs`: column maps, row filters, subsequences, first-occurrence deduplication.
- `Join`: the inner merge on an integer key.
- `Text`: ASCII case mapping, `str.capitalize` and `str.islower`.
- `Stages`: the leftmost-keyword search behind `str.extract`.
- `Records`: one datatype per frame schema.
- `Tidiness`: the two tidiness cells.
- `Quality`: the quality cells.
- `Pipeline`: the composition and the end-to-end facts.

The main end-to-end facts are these:

- `Pipeline.MasterRows`: a row is in the master table exactly when it is the
  finished form of an archive row, a prediction row and an engagement row that
  meet three conditions. They share one id, the archive row has an
  `expanded_urls` value, and it is not a reshare.
- `Pipeline.MasterUnique`: if ids are unique in the three inputs, they are
  unique in the output. The output is then no longer than any input.

The model states what the code does in these cases, which the notebook's
cell headings leave open:

- `str.capitalize` lower-cases everything after the first character
  (`Text.Capitalize`).
- The placeholder test is exact and case-sensitive. A name that was already
  `"None"` also becomes null (`Quality.CleanName`).
- The heading at wrangle_act.py:441 names every denominator other than 10, and
  the cell at wrangle_act.py:453-458 corrects five listed rows. So
  denominator 10 is set only for those five ids.
  `Pipeline.DenominatorNotAlwaysTen` shows that any other row keeps its
  denominator.
- The placeholder step runs before capitalization. A name spelled `"none"`
  therefore comes out as `"None"` (`Pipeline.LowerCaseNoneComesBack`). Likewise
  `"THE"` comes out as `"The"`. After capitalization no name equals `"a"`,
  `"the"` or `"an"`.
- The check at line 422 counts names that `str.islower` accepts. Capitalization
  does not make that count zero. A capitalized name is still lower-case exactly
  when it contains a letter but does not start with one, as in `"'bob"`
  (`Text.CapitalizedIsLowercaseIff`).
- Rows are distinct right after `drop_duplicates`. Dropping the reshare columns
  afterwards can make two rows equal again
  (`Quality.ColumnDropCanRepeatRows`). So distinct rows in the master
  table follow only from unique ids (`Pipeline.MasterUnique`).
- When ids repeat, the model orders a merge left row by left row. For one left
  row, the matching right rows keep their own order. Each matching pair of
  rows gives exactly one merged row (`Join.InnerJoinCount`,
  `Tidiness.MergeCount`).

## Model

| member | source | states |
|---|---|---|
| `Stages.KeywordsExclusive` | wrangle_act.py:278 | at one position at most one of doggo/floofer/pupper/puppo can start, so the alternation order never decides |
| `Stages.MatchAt` | wrangle_act.py:278 | the pattern tried at one position yields a stage only if its keyword starts there, and null only if none does |
| `Stages.SearchFrom` | wrangle_act.py:278 | scanning from position i finds a keyword that starts at or after i with none before it, or null when none starts at or after i |
| `Stages.ExtractStage` | wrangle_act.py:278 | the extracted stage is a keyword occurring in the text with no keyword starting earlier; null exactly when no keyword occurs |
| `Stages.ExtractStageIsLeftmost` | wrangle_act.py:278 | conversely, the keyword that starts leftmost is the one extracted |
| `Tidiness.CollapseStages` | wrangle_act.py:278-280 | one row per archive row with all other columns kept; `stage` is the leftmost keyword of the text or null; the flag columns are gone |
| `Join.Matches` | wrangle_act.py:296 | the rows paired with one left row are exactly the right rows with its key; the result is that left row paired with each row of the key-filtered right table, one pair per right row, in right-row order |
| `Join.MatchesCount` | wrangle_act.py:296 | a matching right row gives as many pairs with the left row as it has copies in the right table; any other pair occurs zero times |
| `Join.InnerJoin` | wrangle_act.py:296-297 | a pair is in the inner join exactly when both rows are in their tables and their keys agree |
| `Join.InnerJoinCount` | wrangle_act.py:296-297 | a pair with agreeing keys occurs in the join as often as the left row's copies times the right row's copies; a pair whose keys differ never occurs |
| `Join.InnerJoinAppend` | wrangle_act.py:296-297 | left-row order is kept: joining concatenated left tables concatenates the joins |
| `Join.MatchesNone` | wrangle_act.py:296 | a left row whose key no right row has pairs with nothing |
| `Join.MatchesAtMostOne` | wrangle_act.py:296 | with unique right keys a left row pairs with at most one right row |
| `Join.InnerJoinNoLongerThanLeft` | wrangle_act.py:296-297 | with unique right keys the join is no longer than the left table |
| `Join.InnerJoinUniqueKeys` | wrangle_act.py:296-297 | with unique keys on both sides the joined table has unique keys |
| `Join.InnerJoinNoLongerThanRight` | wrangle_act.py:296-297 | with unique keys on both sides the join is no longer than the right table |
| `Tidiness.Merge` | wrangle_act.py:296-297 | a merged row is in the result exactly when its archive, prediction and engagement parts come from the three tables and share one `tweet_id` |
| `Tidiness.MergeCount` | wrangle_act.py:296-297 | a merged row with one shared `tweet_id` occurs as often as the product of its three parts' copies in their tables; any other merged row occurs zero times |
| `Tidiness.MergeAppend` | wrangle_act.py:296-297 | both merges keep archive-row order |
| `Tidiness.MergeUnique` | wrangle_act.py:296-297 | unique ids in all three inputs give unique ids in the merged table, no longer than any input |
| `Seqs.Filter` | wrangle_act.py:313 | the kept rows are exactly the rows satisfying the predicate, with their multiplicities, as a subsequence |
| `Seqs.FilterAppend` | wrangle_act.py:313 | filtering keeps order: it distributes over concatenation |
| `Quality.DropImageless` | wrangle_act.py:313 | the result holds exactly the input rows with non-null `expanded_urls`, each as often as in the input, in input order |
| `Quality.MarkPlaceholders` | wrangle_act.py:329-331 | after the replace loop a listed name has become "None" and every other value is unchanged |
| `Quality.CleanName` | wrangle_act.py:329-332 | the cleaned name is null exactly when it was null, "a", "the", "an" or "None"; otherwise it is unchanged |
| `Quality.NullPlaceholderNames` | wrangle_act.py:329-332 | row by row, the name is null exactly for null/"a"/"the"/"an"/"None", and no other field changes |
| `Quality.DropReshares` | wrangle_act.py:367 | the result holds exactly the input rows with null `retweeted_status_id`, each with its input multiplicity, as a subsequence of the input |
| `Seqs.DropDuplicates` | wrangle_act.py:370 | the result has no repeated row, holds every input row value and is a subsequence of the input |
| `Seqs.DropDuplicatesKeepsFirstOrder` | wrangle_act.py:370 | the kept rows are ordered by the position of their first occurrence |
| `Seqs.DropDuplicatesOfDistinct` | wrangle_act.py:370 | a table without repeated rows is left unchanged |
| `Seqs.DropDuplicatesIdempotent` | wrangle_act.py:370 | deduplicating twice equals deduplicating once |
| `Seqs.DropDuplicatesScan` | wrangle_act.py:370 | the one-pass scan with a seen-set computes the first-occurrence deduplication |
| `Quality.ColumnDropCanRepeatRows` | wrangle_act.py:370-375 | two distinct non-reshare rows that differ only in `retweeted_status_user_id` become equal once the reshare columns are dropped |
| `Quality.DropRetweetColumns` | wrangle_act.py:373-375 | one row per input row, every column except the three reshare columns kept |
| `Quality.HumanizeSource` | wrangle_act.py:392-399 | the four replacements map each known markup string to its label and leave any other value unchanged; no markup string remains |
| `Quality.HumanizeSourceIdempotent` | wrangle_act.py:392-399 | applying the source mapping twice equals applying it once |
| `Quality.HumanizeSources` | wrangle_act.py:392-399 | row by row only `source` changes, to the label of a known markup or not at all |
| `Text.ToUpper` | wrangle_act.py:415 | upper-casing keeps letters letters, leaves other characters alone and never yields a lower-case letter |
| `Text.ToLower` | wrangle_act.py:415 | lower-casing keeps letters letters, leaves other characters alone and never yields an upper-case letter |
| `Text.CaseMapsAgree` | wrangle_act.py:415 | upper- then lower-casing a character equals lower-casing it |
| `Text.CharCanonical` | wrangle_act.py:415 | two characters equal up to case and alike in not being lower-case (or upper-case) are the same |
| `Text.Capitalize` | wrangle_act.py:415 | the result is capitalized (no lower-case first, no upper-case later character) and equals the input up to case |
| `Text.CapitalizeCanonical` | wrangle_act.py:415 | the capitalized form is the only capitalized string equal to the input up to case |
| `Text.CapitalizeIdempotent` | wrangle_act.py:415 | capitalizing twice equals capitalizing once |
| `Text.CapitalizeEqualIff` | wrangle_act.py:415 | two names capitalize alike exactly when they differ only in case |
| `Text.CapitalizedIsLowercaseIff` | wrangle_act.py:415-422 | `str.islower` still holds after capitalizing exactly when the name has a letter but does not start with one |
| `Quality.CapitalizeName` | wrangle_act.py:415 | null stays null; a name becomes capitalized and equal to the old one up to case |
| `Quality.CapitalizeNameIdempotent` | wrangle_act.py:415 | capitalizing a nullable name twice equals once |
| `Quality.CapitalizeNames` | wrangle_act.py:415 | row by row only `name` changes, only in case, and null stays null |
| `Quality.CapitalizeNamesIdempotent` | wrangle_act.py:415 | the column step is idempotent |
| `Quality.PatchAll` | wrangle_act.py:454-458 | the assignments in turn amount to one keyed patch: rows with a listed id get denominator 10, all others unchanged |
| `Quality.PatchDenominators` | wrangle_act.py:454-458 | the five listed tweets get denominator 10, all other rows and fields and the row count are unchanged |
| `Quality.PatchDenominatorsIdempotent` | wrangle_act.py:454-458 | the patch is idempotent |
| `Pipeline.FinalizeIsRowwise` | wrangle_act.py:373-458 | the column steps after deduplication act row by row |
| `Pipeline.CleanMergedOrigin` | wrangle_act.py:313-370 | each row the filters keep is the name-cleaned form of an image-bearing, non-reshare merged row |
| `Pipeline.CleanMergedKeeps` | wrangle_act.py:313-370 | each image-bearing, non-reshare merged row survives the filters in name-cleaned form |
| `Pipeline.CleanMergedUnique` | wrangle_act.py:313-370 | the filters keep ids unique and never add rows |
| `Pipeline.MergedOrigin` | wrangle_act.py:278-297 | each merged row is a collapsed archive row with a prediction and an engagement row of the same id |
| `Pipeline.MasterRowsSound` | wrangle_act.py:278-458 | every master row is the finished form of a qualifying archive/prediction/engagement triple |
| `Pipeline.MasterRowsComplete` | wrangle_act.py:278-458 | every qualifying triple's finished form is a master row |
| `Pipeline.MasterRows` | wrangle_act.py:278-458 | membership in the master table holds exactly for finished qualifying triples |
| `Pipeline.FinishProperties` | wrangle_act.py:278-458 | a finished row keeps id, text, timestamp, numerator, image and engagement data. It has a URL, the leftmost stage, a source that is the label of its known markup and otherwise unchanged and a cleaned capitalized name, and denominator 10 exactly for listed ids |
| `Pipeline.MasterInvariants` | wrangle_act.py:278-458 | every master row has matching ids, a URL, no raw markup source, no name "a"/"the"/"an", and denominator 10 if listed |
| `Pipeline.MasterUnique` | wrangle_act.py:278-458 | unique input ids give unique master ids and a master table no longer than any input |
| `Pipeline.ReshareExcluded` | wrangle_act.py:367 | with unique archive ids a reshare's id never appears in the master table |
| `Pipeline.DenominatorNotAlwaysTen` | wrangle_act.py:454-465 | a qualifying row with an unlisted id reaches the master table with its original non-10 denominator |
| `Pipeline.CapitalizeNone` | wrangle_act.py:415 | "none" capitalizes to "None" |
| `Pipeline.LowerCaseNoneComesBack` | wrangle_act.py:329-415 | a qualifying row named "none" reaches the master table named "None" |
| `Pipeline.ArticleNameScenario` | wrangle_act.py:278-332 | a row named "a" whose text has no stage keyword ends with null name and null stage |
| `Pipeline.DenominatorPatchScenario` | wrangle_act.py:454 | tweet 820690176645140481 rated 11/15 reaches the master table rated 11/10 |

## Left out

- Loading the three tables (lines 35, 53, 114-122): CSV/TSV reading and JSON-line parsing are file I/O and library parsing. The model starts from loaded rows. The loader's error cases belong to that step.
- The image-prediction download (lines 44-46): network I/O.
- The Twitter API collection (lines 61-105): it sits in a string literal and never runs. It is also network code.
- Inspection cells (`info`, `head`, `tail`, `describe`, `isnull().sum()`, `value_counts()`): they only display and change no data.
- `pd.to_datetime` (line 348): an opaque date parser. `timestamp` is an uninterpreted string. Two effects on the modelled steps are therefore left out. The parse runs before `drop_duplicates` (line 370) and raises on a malformed value, which stops the notebook. It can also map two different timestamp strings to the same instant, so pandas then drops as duplicates rows that `Seqs.DropDuplicates` keeps apart, and the notebook's master table can hold fewer rows than the model's.
- The `category` and `float` conversions (lines 279, 349-351): they change no values. Ratings stay integers and categories are plain values.
- Writing and re-reading the master CSV (lines 474-487): file I/O.
- The display option (line 431) and the plots (lines 499-537): presentation only.
- A general regular-expression engine: only the one alternation pattern at line 278 is modelled, as a leftmost keyword search.
- Non-ASCII case mapping: `Text.Capitalize` and `Text.IsLowercase` treat only ASCII letters as cased. Python also maps other Unicode letters.
- In-place `replace` on a selected column (line 331) is modelled as updating the table. That is its effect in the pandas versions the notebook targets. Under copy-on-write pandas it would update only a temporary copy.
- `Join.InnerJoinAppend`, `Tidiness.MergeAppend`: the order of merged rows when left-side ids repeat is modelled as left-major (left rows in their order). pandas before 2.2 groups the rows of a repeated left key together instead, even with unique right keys: left keys `[1, 2, 1]` against right keys `[1, 2]` give `[1, 1, 2]` there and `[1, 2, 1]` here. With unique archive ids, the rows of one id are adjacent after each merge, so grouping a repeated key changes no order; the multiplicities (`Join.InnerJoinCount`, `Tidiness.MergeCount`) agree in every version.
