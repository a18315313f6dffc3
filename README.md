# multiversum, modelled in Dafny

multiversum runs a multiverse analysis. A set of *dimensions* (a name and a
list of options for each analytic decision) spans a grid of *universes*, one
per combination of options. Constraints can remove combinations that make no
sense. Every universe gets a content-addressed ID: the MD5 digest of its
`json.dumps(..., sort_keys=True)` text. A numbered *run* then executes one
notebook per universe. Its files are named by run number and universe ID. A
reconciliation step compares the grid with the universe IDs that produced
data.

This project models the deterministic core of `multiversum/helpers.py` and
`multiversum/multiverse.py` and proves properties of the model:

- `Values`: JSON-like values and universes. A dict is a sequence of entries in
  insertion order. Python lists (`VList`) and tuples (`VTuple`) are distinct
  values, as they are for `==` in Python.
- `Text`: `str(int)` and the code-point order that `sorted()` uses on strings.
- `Json`: the text of `json.dumps(v, sort_keys=True)`. The model proves that
  the sorted form is unique and that the text is printable ASCII.
- `Grid`: `generate_multiverse_grid` in `helpers.py`. This covers the
  normalisation of list options to tuples, the duplicate and hashability
  checks, and the Cartesian product in `itertools.product` order.
- `Constraints`: `apply_constraints` and `is_allowed`, as recursive
  specifications and as the loops of the source.
- `Identity`: `generate_universe_id` and `add_ids_to_multiverse_grid`. MD5
  itself is a parameter, a function from bytes to text. Nothing is assumed
  about it. The ID map is stated for any ID function and is used with the
  program's own ID function.
- `ResultTable`: the shape `add_universe_info_to_df` gives a pandas
  DataFrame: which columns it gets, in which order, the row count, and the
  errors pandas raises.
- `FileSearch`: `search_files`. The set of existing files is a parameter.
- `Multiverse`: `multiverse.py`. This covers its plain grid, the persisted run
  counter, the run directories, the notebook call that `visit_universe`
  makes for a universe (input, output file and the `settings` text), and the
  reconciliation of `check_missing_universes`. `MultiverseAnalysis` and the
  output directory are classes whose fields the methods update, as the
  source's attributes and files are.
- `GridExamples`, `ConstraintExamples`: the grid and constraint examples of
  the package's tests, computed through the model.

Inputs the program takes from its environment are parameters of the model:

- the MD5 function;
- whether a file exists;
- the contents of `counter.txt`, as the `counter` field of `OutputDirectory`;
- the dimensions found in a loaded config file;
- the set of universe IDs found in the aggregated data.

`multiverse.py` repeats `generate_universe_id` (lines 231-245) with the same
body as `helpers.py` (lines 135-149). Both are `Identity.UniverseId`.

Where the behaviour described for the system and the code differ, the model
follows the code:

- Constraints are not validated. A constraint with both `allowed_if` and
  `forbidden_if` applies both checks. One with neither allows everything.
  Neither case raises an error.
- A constraint on a dimension a universe lacks raises `KeyError`
  (`universe[dimension]`, `helpers.py:122`). This happens only when the
  dimension has at least one constraint. The error stops the whole
  filtering.
- No dimensions at all is an error in both grid functions: a `ValueError` in
  `helpers.py` and a failed unpacking of `zip()` in `multiverse.py`. Neither
  returns an empty grid.
- `read_counter` writes the counter file back even when it does not
  increment. So a first run that resumes creates `counter.txt` holding 0.
- `__init__` reads and writes the counter before it checks that dimensions
  were given. A failed construction still advances the counter.
- Dimensions given neither directly nor in a config leave `self.dimensions`
  unset. The check at `multiverse.py:115` then raises `AttributeError`, not
  the intended `ValueError`. Both are modelled as the error
  `DimensionsUnset`.
- `examine_multiverse` falls back to generating the grid when `self.grid` is
  None *or empty* (`self.grid or ...`). An explicitly passed empty grid is
  used as is.

## Model

| member | source | states |
|---|---|---|
| Values.Lookup | multiversum/helpers.py:122 | Membership and indexing of a dict (`universe[dimension]`): the key is absent exactly when no entry has it. Otherwise the result is the value of an entry with that key, and the only one when keys are distinct. |
| Values.Get | multiversum/helpers.py:109 | `universe.get(key)`: the value stored under the key, or None when the key is absent. Defined through `Lookup`, whose contract characterises it. |
| Values.Normalise | multiversum/helpers.py:70-72 | A list option becomes the tuple of the same items (`tuple(v)`). Every other value is unchanged. No list remains. |
| Text.IntToString | multiversum/multiverse.py:130 | `str(n)` is non-empty and starts with `-` exactly for negative numbers. Every other character is a digit, and the digits have no leading zero. |
| Text.NatToString | multiversum/multiverse.py:130 | `str(n)` of a natural number is digits with no leading zero, one digit exactly below 10. |
| Text.IntToStringInjective | multiversum/multiverse.py:130 | Different numbers print differently. |
| Text.LessIrreflexive | multiversum/helpers.py:42 | The string order of `sorted()` is irreflexive. |
| Text.LessTransitive | multiversum/helpers.py:42 | The string order of `sorted()` is transitive. |
| Text.LessTotal | multiversum/helpers.py:42 | Any two different strings are ordered one way. |
| Text.LessAsymmetric | multiversum/helpers.py:42 | No two strings are ordered both ways. |
| Json.InsertByKey | multiversum/helpers.py:148 | One insertion step of the key sort adds exactly the new entry (as a multiset). |
| Json.InsertByKeySorted | multiversum/helpers.py:148 | Inserting an entry with a new key into key-sorted entries keeps them sorted. |
| Json.SortEntries | multiversum/helpers.py:148 | `sort_keys` permutes the entries of a dict. |
| Json.SortEntriesSorted | multiversum/helpers.py:148 | With distinct keys, `sort_keys` leaves the entries in ascending key order. |
| Json.SortedUnique | multiversum/helpers.py:148 | Two key-sorted entry lists with the same elements are equal. |
| Json.SortEntriesOrderFree | multiversum/helpers.py:148 | Dicts with the same entries in any insertion order sort to the same list. |
| Json.Canonical | multiversum/helpers.py:148 | The value that `sort_keys=True` prints: every dict's entries sorted by key, at every depth. Its contract lives in `SortEntriesSorted`, `CanonicalObjectOrderFree` and `SettingsSorted`. |
| Json.CanonicalItems | multiversum/helpers.py:148 | Every item of a list or tuple is put in sorted form, and the length is kept. |
| Json.CanonicalFields | multiversum/helpers.py:148 | Every value of a dict is put in sorted form, and keys and length are kept. |
| Json.CanonicalFieldsDistinct | multiversum/helpers.py:148 | Sorting nested values keeps a dict's keys distinct. |
| Json.CanonicalFieldsIncluded | multiversum/helpers.py:148 | Entry inclusion between dicts survives sorting nested values. |
| Json.CanonicalObjectOrderFree | multiversum/helpers.py:147-149 | Two dicts with the same entries in different insertion orders have the same sorted form, so `json.dumps(..., sort_keys=True)` prints them identically. |
| Json.Write | multiversum/helpers.py:148 | The JSON text of a value as it stands: `null`, `true`/`false`, `str(int)`, string literals, `[a, b]` for lists and tuples alike, `{"k": v}` for dicts. `WritePrintable` and `SettingsText` state its properties. |
| Json.Escape | multiversum/helpers.py:148 | The body of a JSON string literal with `ensure_ascii=True`: `EscapePrintable` proves it is printable ASCII. |
| Json.EscapeChar | multiversum/helpers.py:148 | Every character is escaped to non-empty printable ASCII (`ensure_ascii`). |
| Json.Quote | multiversum/helpers.py:148 | A JSON string literal starts and ends with a double quote. |
| Json.Dumps | multiversum/helpers.py:148 | The text of `json.dumps(v, sort_keys=True)` is printable ASCII. |
| Json.EscapePrintable | multiversum/helpers.py:148 | An escaped string is printable ASCII. |
| Json.QuotePrintable | multiversum/helpers.py:148 | A quoted string literal is printable ASCII. |
| Json.WritePrintable | multiversum/helpers.py:148 | The JSON text of any value is printable ASCII. |
| Json.WriteItemsPrintable | multiversum/helpers.py:148 | The JSON text of an array body is printable ASCII. |
| Json.WriteFieldsPrintable | multiversum/helpers.py:148 | The JSON text of an object body is printable ASCII. |
| Json.DumpsListTuple | multiversum/helpers.py:70-72 | A list and a tuple of the same items print the same JSON text. |
| Json.SortEntriesAlike | multiversum/helpers.py:148 | The key sort looks only at keys: entry lists with the same keys whose values print alike sort to lists that still print alike. |
| Json.WriteFieldsAlike | multiversum/helpers.py:148 | Entry lists with the same keys whose values print alike print the same dict body. |
| Json.DumpsNormalised | multiversum/helpers.py:70-72 | A dict whose values are normalised (lists turned into tuples) prints the same `json.dumps(..., sort_keys=True)` text as the original. |
| Grid.Product | multiversum/helpers.py:78 | `itertools.product` over the option lists, one dict per combination. `ProductLength`, `ProductOrder`, `ProductMembership` and `ProductDistinct` state what it is. |
| Grid.Prefixed | multiversum/helpers.py:78 | Fixing the first dimension's option puts that entry in front of every universe of the rest. |
| Grid.ExpandLength | multiversum/helpers.py:78 | One product step has as many universes as options times rest-universes. |
| Grid.ExpandAt | multiversum/helpers.py:78 | Position `q * |rest| + r` of one product step is option `q` followed by rest-universe `r`. |
| Grid.ExpandMembership | multiversum/helpers.py:78 | A universe is in one product step exactly when its first entry is an option of the dimension and the rest is a rest-universe. |
| Grid.ExpandDistinct | multiversum/helpers.py:74-78 | Distinct options and distinct rest-universes give distinct universes. |
| Grid.ProductLength | multiversum/helpers.py:78 | The grid has the product of the option counts as its length. |
| Grid.ProductOrder | multiversum/helpers.py:78 | `itertools.product` order: the first dimension varies slowest. Universe `q * |rest| + r` is option `q` of the first dimension followed by universe `r` of the rest. |
| Grid.ProductMembership | multiversum/helpers.py:78 | A universe is in the grid exactly when it has one entry per dimension, in order, each with an option of that dimension. |
| Grid.ProductDistinct | multiversum/helpers.py:74-78 | Without duplicate options no universe occurs twice. |
| Grid.FitsDistinctKeys | multiversum/helpers.py:78 | A universe of dimensions with distinct names has distinct keys, as a dict does. |
| Grid.Normalised | multiversum/helpers.py:70-72 | Names, order and option counts are kept, and every option is normalised. |
| Grid.OptionsError | multiversum/helpers.py:74-75 | No error exactly when every dimension's options are hashable and distinct. With only hashable options the error is `ValueError` for a duplicate. `TypeError` (unhashable) is reported only when some option is unhashable. |
| Grid.GenerateMultiverseGrid | multiversum/helpers.py:48-83 | No dimensions is exactly the first error. An option error raises. On success options are distinct, universes are distinct, and every universe fits the normalised dimensions. Without constraints the grid is the full product. With constraints it is exactly `apply_constraints` of the product (`Constrained`): it fails with `KeyError` exactly when a constrained dimension is not a key of the universes, and otherwise it is the ordered sub-list of the product whose universes pass them all. |
| Grid.SubsequenceDistinct | multiversum/helpers.py:117-132 | Filtering a grid without repeats yields one without repeats. |
| Grid.SubsequenceMembers | multiversum/helpers.py:117-132 | Filtering keeps only universes of the input grid. |
| Constraints.Allowed | multiversum/helpers.py:106-115 | `is_allowed` as a condition: every `allowed_if` pair matches `universe.get` and no `forbidden_if` pair does. `IsAllowed` proves the source's loops compute it. |
| Constraints.DimensionVerdict | multiversum/helpers.py:121-126 | The verdict of one dimension's constraints on a universe, or `KeyError` when the universe lacks the dimension. `DimensionVerdictMeaning` characterises it. |
| Constraints.Verdict | multiversum/helpers.py:119-128 | The verdict of all constraints on a universe, dimension by dimension, stopping at the first failure or error. `VerdictMeaning` characterises it. |
| Constraints.PassesAll | multiversum/helpers.py:117-132 | The independent reference: every constraint whose value the universe has allows it. |
| Constraints.Constrained | multiversum/helpers.py:117-132 | `apply_constraints` as a recursive function: the passing universes in order, or the first `KeyError`. `ConstrainedMeaning` characterises it. |
| Constraints.IsAllowed | multiversum/helpers.py:106-115 | The two loops of `is_allowed` return true exactly when every `allowed_if` pair matches and no `forbidden_if` pair matches. |
| Constraints.DimensionVerdictMeaning | multiversum/helpers.py:120-128 | A dimension's constraints raise `KeyError` exactly when there is one and the universe lacks the dimension. They pass exactly when every constraint whose value the universe has allows it. |
| Constraints.VerdictMeaning | multiversum/helpers.py:117-132 | An error comes from a missing constrained dimension. A universe with every constrained dimension gets a verdict. The verdict is true exactly when all constraints pass. |
| Constraints.ConstrainedMeaning | multiversum/helpers.py:117-132 | Filtering fails exactly when some universe raises, and then with `KeyError`. Otherwise it keeps, in order, exactly the universes that pass. |
| Constraints.ConstrainedFails | multiversum/helpers.py:122 | Filtering fails exactly when some universe of the grid raises `KeyError`. |
| Constraints.ConstrainedKeeps | multiversum/helpers.py:129-130 | A successful filtering is an ordered sub-list containing exactly the universes that pass. |
| Constraints.ConstrainedNoConstraints | multiversum/helpers.py:120-121 | Dimensions with empty constraint lists keep the grid unchanged. |
| Constraints.ConstrainedIdempotent | multiversum/helpers.py:86-132 | Filtering a filtered grid again changes nothing. |
| Constraints.AllPassKept | multiversum/helpers.py:129-130 | When every universe passes, the grid is kept whole. |
| Constraints.KeptUniversesPass | multiversum/helpers.py:129-130 | Every kept universe passes all constraints. |
| Constraints.ScanDimension | multiversum/helpers.py:121-126 | The inner loop, with its `break`, computes the dimension's verdict or `KeyError`. |
| Constraints.ScanUniverse | multiversum/helpers.py:119-128 | The loop over dimensions, with its `break`, computes the universe's verdict or `KeyError`. |
| Constraints.ApplyConstraints | multiversum/helpers.py:117-132 | The loop of `apply_constraints` computes the filtered grid or the first `KeyError`. |
| Constraints.ConstrainedErrorSticks | multiversum/helpers.py:122 | Once a universe raises, later universes do not change the outcome. |
| GridExamples.TwoByTwoProduct | multiversum/helpers.py:78 | The product of x in [1, 2] and y in [3, 4] is the four universes in `itertools` order. |
| GridExamples.TwoByTwo | tests/test_multiverse.py:26-32 | `generate_multiverse_grid({"x": [1, 2], "y": [3, 4]})` is the four universes the test expects. |
| ConstraintExamples.VerdictOf | tests/test_constraints.py:4-29 | For the nine scaler and feature-selector universes, the test's constraints remove no-scaler with a feature selection and MinMaxScaler with all features. |
| Identity.AsciiBytes | multiversum/helpers.py:148 | `.encode("utf-8")` of printable ASCII is one byte per character with the same code. |
| Identity.AsciiBytesInjective | multiversum/helpers.py:148 | Different printable texts encode to different bytes. |
| Identity.UniverseId | multiversum/helpers.py:135-149 | `generate_universe_id`: the digest of the UTF-8 bytes of `json.dumps(u, sort_keys=True)`. `multiverse.py:231-245` has the same body. `UniverseIdOrderFree` and `UniverseIdNormalised` state its properties. |
| Identity.IdOf | multiversum/multiverse.py:231-245 | The method `generate_universe_id` as a function value, the key function of the ID map. |
| Identity.UniverseIdNormalised | multiversum/helpers.py:70-72 | Turning list values into tuples, as grid generation does with its options, leaves a universe's ID unchanged. |
| Identity.UniverseIdOrderFree | multiversum/helpers.py:135-149 | The same dict built in a different insertion order gets the same ID. |
| Identity.IdMap | multiversum/helpers.py:152-164 | Every universe's ID is a key. Every key maps to a universe of the grid with that ID. |
| Identity.IdMapKeys | multiversum/helpers.py:164 | The keys are exactly the IDs of the grid's universes. |
| Identity.IdMapCollisionFree | multiversum/helpers.py:164 | Without ID collisions every universe is found under its own ID. |
| Identity.IdMapLastWins | multiversum/helpers.py:164 | On a collision the last universe with that ID wins. |
| Identity.IdMapSnoc | multiversum/helpers.py:164 | The map of a grid is the map of its prefix overwritten by the last universe. |
| ResultTable.Frame.Insert | multiversum/helpers.py:37-44 | `DataFrame.insert` raises for an existing column and changes nothing. Otherwise the column goes in at the position. The row count is kept. |
| ResultTable.Frame.SetSingleIndex | multiversum/helpers.py:34 | A one-label index fits a one-row table, or a table without columns, which then has one row. Any other table raises a length mismatch. |
| ResultTable.InfoColumns | multiversum/helpers.py:36-44 | The columns `add_universe_info_to_df` inserts, in order: `mv_universe_id`, `mv_run_no`, `mv_execution_time`, then the dimension columns. `InfoColumnsDistinct` and `TaggedColumns` state its properties. |
| ResultTable.DimensionColumns | multiversum/helpers.py:42-44 | There is one `mv_dim_` column per dimension. |
| ResultTable.DimensionColumnsCover | multiversum/helpers.py:42-44 | `mv_dim_<name>` is a column exactly when `name` is a dimension. |
| ResultTable.DimensionColumnsSorted | multiversum/helpers.py:42 | Dimension columns are in ascending order of dimension name. |
| ResultTable.InfoColumnsDistinct | multiversum/helpers.py:36-44 | The added column names are distinct. |
| ResultTable.FirstClash | multiversum/helpers.py:36-44 | The number of columns inserted before the first name that is already taken. |
| ResultTable.NoClash | multiversum/helpers.py:36-44 | Without a taken name, every column is inserted. |
| ResultTable.InsertAtFront | multiversum/helpers.py:36-44 | Counting inserts put the added columns in front, up to the first taken name, which raises. |
| ResultTable.AddUniverseInfoToDf | multiversum/helpers.py:13-45 | An empty table with columns raises a length mismatch. Otherwise an empty table gets one row, and the info columns go in front up to the first taken name. |
| ResultTable.TaggedColumns | multiversum/helpers.py:36-44 | On a table without reserved names the columns become the three `mv_` columns, the sorted dimension columns, then the old columns, all distinct. |
| FileSearch.FirstExisting | multiversum/helpers.py:175-178 | The first existing default file, or None exactly when none exists. |
| FileSearch.SearchFiles | multiversum/helpers.py:167-180 | A given path is returned when it exists and raises `FileNotFoundError` when it does not. Otherwise the result is the first existing default. |
| FileSearch.MissingDefaultsSkipped | multiversum/helpers.py:175-178 | Defaults that do not exist do not affect the result. |
| Multiverse.PlainGrid | multiversum/multiverse.py:28-41 | No dimensions fails to unpack. Otherwise the grid is the product in `itertools.product` order (first dimension slowest, by `Grid.ProductOrder`). It has the product of the option counts as its length and contains exactly the universes fitting the dimensions. |
| Multiverse.PlainGridAgrees | multiversum/multiverse.py:39-40 | Without list options and duplicates, the plain grid equals the grid of `helpers.py`. |
| Multiverse.NextRun | multiversum/multiverse.py:146-154 | The number `read_counter` returns: the stored number, or 0 without a file, plus one for a new run. |
| Multiverse.CounterRuns | multiversum/multiverse.py:135-158 | Successive counter reads return one number per read. |
| Multiverse.NewRunsCountUp | multiversum/multiverse.py:146-158 | New runs count up one at a time from the stored number. The first run in a fresh directory is 1. |
| Multiverse.ResumedRunsRepeat | multiversum/multiverse.py:146-158 | Reads without `increment` keep returning the stored number, or 0 without a file. |
| Multiverse.RunDirPath | multiversum/multiverse.py:120-133 | `get_run_dir`: `<output>/runs/<run_no>`, with the sub-directory appended when given. |
| Multiverse.RunDirInjective | multiversum/multiverse.py:120-133 | Different runs get different directories. |
| Multiverse.ArtifactName | multiversum/multiverse.py:291 | The notebook file name `m_<run_no>-<universe_id>.ipynb`. |
| Multiverse.ArtifactNameInjective | multiversum/multiverse.py:291 | The notebook file name determines its run number and universe ID. |
| Multiverse.Settings | multiversum/multiverse.py:297-303 | The settings dict has the keys `universe_id`, `dimensions`, `run_no`, `output_dir`, `seed`, distinct and in that order. |
| Multiverse.SettingsKeysDistinct | multiversum/multiverse.py:297-303 | The five settings keys are distinct. |
| Multiverse.SettingsKeyOrder | multiversum/multiverse.py:304 | Sorting the five settings keys gives `dimensions`, `output_dir`, `run_no`, `seed`, `universe_id`. |
| Multiverse.SettingsCanonical | multiversum/multiverse.py:304 | The sorted form of the settings sorts the keys of the settings with every value in sorted form. |
| Multiverse.SettingsFieldsCanonical | multiversum/multiverse.py:304 | Every settings value is put in sorted form in place. |
| Multiverse.SettingsSorted | multiversum/multiverse.py:297-304 | The printed settings are the five keys in sorted order with the universe's dimensions in sorted form. |
| Multiverse.SettingsBraced | multiversum/multiverse.py:304 | The settings text is the sorted fields between braces. |
| Multiverse.SettingsText | multiversum/multiverse.py:297-304 | The settings text, field by field. The value under `dimensions` is exactly the text whose digest is the universe ID. |
| Multiverse.NotebookFor | multiversum/multiverse.py:286-312 | `visit_universe`: the notebook, the output path in the run's `notebooks` directory, and the settings text of one universe. `NotebookOutputsDistinct` and `SettingsText` state its properties. |
| Multiverse.NotebookOutputsDistinct | multiversum/multiverse.py:287-291 | Within a run, two universes write the same notebook file exactly when their IDs agree. |
| Multiverse.Visits | multiversum/multiverse.py:267-270 | A run makes one notebook call per universe. |
| Multiverse.VisitsAt | multiversum/multiverse.py:267-270 | The k-th notebook call of a run is the one for the k-th universe. |
| Multiverse.Reconcile | multiversum/multiverse.py:215-223 | The missing and extra IDs as set differences, the grid entries of the missing IDs, and whether a warning is issued. `ReconcilePartition`, `ReconcileWarns` and `MissingUniverses` characterise it. |
| Multiverse.ReconcilePartition | multiversum/multiverse.py:215-216 | Missing and extra IDs are disjoint. Together with the common IDs they make up the grid's IDs and the data's IDs. |
| Multiverse.ReconcileWarns | multiversum/multiverse.py:219-223 | A warning is issued exactly when the data's IDs differ from the grid's. |
| Multiverse.MissingUniverses | multiversum/multiverse.py:205-217 | Reported universes come from the grid and have no data, one per missing ID. Without ID collisions they are exactly the grid universes without data. |
| Multiverse.CompleteRunReportsNothing | multiversum/multiverse.py:205-229 | When every grid universe produced data and nothing else did, nothing is reported and nothing is warned. |
| Multiverse.OneUniverseLost | multiversum/multiverse.py:205-229 | When exactly one universe's data is lost, exactly that universe is reported missing, nothing is extra, and a warning is issued. |
| Multiverse.OutputDirectory.ReadCounter | multiversum/multiverse.py:135-158 | Returns the stored number (0 without a file), plus one for a new run, and stores what it returns. |
| Multiverse.MultiverseAnalysis.Init | multiversum/multiverse.py:65-118 | Dimensions come directly or from the config, never both (an assertion error, counter untouched). With neither, construction fails after the counter was read. An explicit run number is used as is. Otherwise the counter supplies it and stores it. |
| Multiverse.MultiverseAnalysis.GenerateGrid | multiversum/multiverse.py:160-174 | Returns the plain grid and keeps it in `grid`, saved when asked. On failure nothing changes. |
| Multiverse.MultiverseAnalysis.ExamineMultiverse | multiversum/multiverse.py:247-270 | Visits the given grid, else `self.grid` unless it is None or empty, else a freshly generated unsaved grid. Makes one notebook call per universe, in order. |
| Multiverse.MultiverseAnalysis.VisitUniverses | multiversum/multiverse.py:272-312 | The loop makes, for each universe in order, the notebook call of `visit_universe`: the notebook, `runs/<n>/notebooks/m_<n>-<id>.ipynb` and the settings text. |
| Multiverse.MultiverseAnalysis.CheckMissingUniverses | multiversum/multiverse.py:196-229 | Regenerates the grid without saving, maps IDs to universes and reconciles them with the IDs in the data. A failing grid fails. |

## Left out

- Executing notebooks (`execute_notebook_via_api` and papermill) is not modelled. A visit yields the call it would make: input, output path and the `settings` text.
- The `joblib`/`tqdm` parallel fan-out of `examine_multiverse` is not modelled. Universes are visited in grid order; the calls do not depend on each other.
- `aggregate_data` reads CSV files with pandas and is not modelled. `check_missing_universes` takes the set of universe IDs in the aggregated data as an input. An empty data directory makes `pd.concat` raise; that case is not modelled.
- Loading TOML or JSON config files is not modelled. `Init` takes the dimensions found in a config (if any). An unsupported suffix (`ValueError`) and config files that fail to parse are out of scope.
- MD5 is a parameter. Its digest computation is not modelled, and no collision-freedom is assumed. The ID lemmas state what holds for any digest function.
- Floating-point values (including `execution_time`) are not modelled. Values are null, booleans, integers, strings, lists, tuples and dicts.
- Python's cross-type equality (`1 == True`, `1 == 1.0`) is not modelled. Values of different kinds are different.
- Constraints.Allowed: dict values are compared as entry sequences, so two dicts with the same pairs in different insertion orders count as different. Python's dict equality ignores order. The same holds for the `==` in `Constraints.DimensionVerdict`. Grid options and constraint values are compared this way only when they are themselves dicts.
- `Path` normalisation and `mkdir` in `get_run_dir` are not modelled. Paths are strings joined with `/`.
- Multiverse.OutputDirectory.ReadCounter: a `counter.txt` that does not hold an integer (a `ValueError` in `int()`) is not modelled.
- The `indent=2` text `generate_grid` writes to `multiverse_grid.json` is not modelled. The saved grid is kept as a value.
- ResultTable.AddUniverseInfoToDf: the values written into the new columns are not modelled, only the table's shape. A list-like dimension value is taken by pandas as a column of values and raises a length `ValueError` unless its length equals the row count. That error is not modelled.
- The command-line interface (`__main__.py`, `cli_helpers.py`) is outside the core.
- Multiverse.Reconcile: the order of `missing_universes` follows Python's set iteration order. It is modelled as a set.
- FileSearch.SearchFiles: the path carried by `FileNotFound` is not part of Python's bare `FileNotFoundError`.
- ConstraintExamples.VerdictOf: pins the verdict of each of the nine universes of the constraint test. The order of the filtered list is covered by `Constraints.ConstrainedKeeps`, not by a concrete six-element list.
