# Build tooling of the biomass-boiler digital twin, in Dafny

The repository packages a Modelica model of a biomass boiler as an FMU (a Functional
Mock-up Unit, the packaged co-simulation component). This project models the three
pieces of deterministic logic in its tooling and proves what they promise:

- **The build-script generator** (`build/build_fmu.py`). `load_config` checks the parsed
  `project.yaml`: the sections `project`, `modelica`, `files` and `fmu`, then
  `modelica.model_class` and `files.main`. `generate_build_script` writes the OpenModelica
  `.mos` script in a fixed order. It starts with an optional `installPackage` for the
  Modelica Standard Library (MSL), plus Complex for a 4.x MSL. It then loads the external
  libraries, the main file and the dependencies. It ends with `buildModelFMU(...)`, whose
  missing options get defaults. Every install and load line is followed by
  `getErrorString();`.
- **The validation-CSV splitter** (`build/split_validation_csv.py`). It projects the
  client's validation table onto `time` plus the configured input names the header has,
  and onto `time` plus the configured output names the header has. It warns about the
  configured names the header lacks, and it rejects a table without rows.
- **The time parser of the boiler test script**
  (`input/models/BiomassBoiler/test_data/test_script.py`). `parse_time` strips and
  lower-cases the text and reads one unit suffix (`h`, `m`, `s`). Anything it cannot
  read becomes 0.0. `run_test` picks the time column by priority: `Time`, then `time`,
  then `timestamp`.

Files:

- `wrappers.dfy`: module `Wrappers`, with `Option` and `Result`.
- `config.dfy`: module `Config`. It holds the YAML document (`Node`: strings, other
  scalars as the text `str()` gives them, lists and mappings), `LoadConfig` and `Extract`. `Extract` reads the values the generator uses into a `BuildConfig`.
- `build_script.dfy`: module `BuildScript`. `Script` is the specification: the script as
  its sequence of lines. `GenerateBuildScript` is the method that builds it with loops,
  as the source does. `Render` gives the text back, with a newline after each line.
  Readers (`LoadedFiles`, `InstallLines`, `ReadFmuCall`) take a script apart again, and
  the lemmas state the ordering, defaulting and error-check rules through them.
- `validation_split.dfy`: module `ValidationSplit`. The list and dict comprehensions are
  functions. `WriteRows` is the per-row writer loop, and `SplitValidationCsv` is the
  whole split.
- `time_parse.dfy`: module `TimeParse`. It holds `ParseTime`, the `strip()`/`lower()`
  model and `TimeColumn`. Python's `float()` is a parameter,
  `parse: string -> Option<real>`, where `None` stands for `ValueError`.

## Model

| member | source | states |
|---|---|---|
| `Config.FirstAbsent` | build/build_fmu.py:48-52 | the index of the first required section the document lacks; every earlier one is present |
| `Config.LoadConfig` | build/build_fmu.py:48-62 | accepted exactly when all four sections, `modelica.model_class` and `files.main` are present (Python `in` on a mapping, list or string), and then the document comes back unchanged; otherwise it reports the first missing section in check order, then a `modelica` section that is a number, boolean or null (the TypeError of `in`), then the missing model class, then the same two for `files` and `main` |
| `Config.Contains` | build/build_fmu.py:50-58 | Python's `key in value`: a key of a mapping, an element of a list, a substring of a string; its behaviour is stated through `Config.LoadConfig` |
| `Config.Extract` | build/build_fmu.py:100-109 | succeeds exactly on the documents the generator reads without raising (`Readable`: mapping sections, a renderable `model_class` and `main`, iterable lists whose items can be used, `msl_version` absent or a string, each fmu option absent or renderable); then the model class and main file are read as an f-string renders them (a number as its `str()`), the MSL version as the string it is, and each fmu option is absent in the result exactly when absent in the document, and otherwise is its rendered value |
| `Config.ReadableConfigIsAccepted` | build/build_fmu.py:54-62 | a document the generator can read, and that has a `project` section, passes `load_config` unchanged |
| `Config.Texts` | build/build_fmu.py:132-133 | a list of values is rendered exactly when each element is, and then element by element |
| `Config.Libraries` | build/build_fmu.py:120-122 | a list of entries is read exactly when each entry has a renderable `path` and `name`, and then entry by entry |
| `Config.LibraryOf` | build/build_fmu.py:121-122 | an entry is read exactly when it is a mapping with a renderable `path` and `name`, and then gives those two values |
| `Config.MinimalConfigDefaults` | build/build_fmu.py:100-109 | a document with the three sections, a model class and a main file and no optional key is read with no libraries, no dependencies and every option unset, so the script uses all of the generator's defaults |
| `Config.DependenciesRead` | build/build_fmu.py:102-133 | the dependencies are the rendered elements of a list, or the one-character strings of a string (Python loops over its characters), and none when the key is absent; a number, boolean or null there stops the generator |
| `Config.LibrariesRead` | build/build_fmu.py:103-122 | the libraries are the `path` and `name` of each list entry, in order; an absent key, an empty string or an empty mapping gives none, and any other string, mapping or scalar stops the generator |
| `Config.NonStringMslStopsTheBuild` | build/build_fmu.py:108-115 | an `msl_version` that is not a string (`4.0` loads as a float) makes the generator fail, since `.startswith` raises on it |
| `BuildScript.GenerateBuildScript` | build/build_fmu.py:97-155 | the step-by-step generator, with its two loops, produces exactly the specified script |
| `BuildScript.Script` | build/build_fmu.py:107-155 | the script as the source assembles it, block by block; what it holds is stated by `LoadOrder`, `StandardLibraryInstalls`, `InstallsBeforeLoads`, `EveryCommandChecked`, `FmuCallRoundTrip` and `ScriptFraming` |
| `BuildScript.Render` | build/build_fmu.py:107-155 | the script text, each line followed by a newline; stated by `ScriptTextEnding` |
| `BuildScript.StandardLibraryInstalls` | build/build_fmu.py:109-117 | there are no `installPackage` lines when `msl_version` is absent or `'default'`; otherwise Modelica is installed at that version, and Complex is installed, at the same version, exactly when the version starts with "4." |
| `BuildScript.StandardLibraryBlockInstalls` | build/build_fmu.py:109-117 | the MSL block alone loads nothing, is error-checked, and holds exactly those install lines |
| `BuildScript.InstallsBeforeLoads` | build/build_fmu.py:109-134 | no `installPackage` line comes after a `loadFile` line: the standard library is installed before any library, main or dependency file is loaded |
| `BuildScript.LoadOrder` | build/build_fmu.py:119-134 | the files loaded are every external library under `input/src/libraries/`, then the main file under `input/src/`, then every dependency under `input/src/`, each group in configuration order |
| `BuildScript.LibraryBlockLoads` | build/build_fmu.py:120-124 | the library block loads each library path, prefixed and in order, and installs nothing |
| `BuildScript.DependencyLinesLoad` | build/build_fmu.py:132-134 | the dependency loop loads each dependency, prefixed and in order, and its last line is `getErrorString();` |
| `BuildScript.MainBlockLoads` | build/build_fmu.py:127-129 | the main block loads exactly `input/src/<main>` |
| `BuildScript.EveryCommandChecked` | build/build_fmu.py:110-134 | every `installPackage` and `loadFile` line of the script is immediately followed by a `getErrorString();` line |
| `BuildScript.FmuCallRoundTrip` | build/build_fmu.py:139-155 | reading the closing `buildModelFMU` call back gives the model class verbatim and the fmu options, with the defaults "2.0", "cs", "DigitalTwin" and "static", the platform written inside braces |
| `BuildScript.ScriptFraming` | build/build_fmu.py:107-140 | the script opens with its banner, and exactly one blank line, after the last `getErrorString();`, separates the loads from the FMU block whether or not there are dependencies |
| `BuildScript.ScriptTextEnding` | build/build_fmu.py:153-155 | the script text always ends with "getErrorString();\n" |
| `BuildScript.UnwrapWrapped` | build/build_fmu.py:123-146 | each templated line gives back the value it was built around |
| `ValidationSplit.Present` | build/split_validation_csv.py:78 | the configured names the header has: a subsequence of the names (config order), holding each such name as often as the configuration does and nothing else |
| `ValidationSplit.Missing` | build/split_validation_csv.py:65-66 | the configured names the header lacks, in config order, each as often as configured, and nothing else |
| `ValidationSplit.Columns` | build/split_validation_csv.py:78-87 | the columns of a projection start with `time`, and the rest are exactly the configured names the header has |
| `ValidationSplit.PresentMissingPartition` | build/split_validation_csv.py:65-87 | the present and missing lists together hold every configured name exactly as often as it is configured |
| `ValidationSplit.ProjectRow` | build/split_validation_csv.py:83 | the projected row has exactly the selected columns as keys; each value is the source cell, or '' when the row lacks that column |
| `ValidationSplit.ProjectionOfTableRow` | build/split_validation_csv.py:78-92 | a table row keeps every configured column the header has, verbatim, and gets '' for `time` when the header has no `time` column |
| `ValidationSplit.Warnings` | build/split_validation_csv.py:68-71 | one warning for each non-empty list of missing inputs or outputs, and no other |
| `ValidationSplit.WriteRows` | build/split_validation_csv.py:82-84 | the writer loop emits one projected row per source row, in source order |
| `ValidationSplit.SplitValidationCsv` | build/split_validation_csv.py:57-93 | fails exactly when the table has no rows, and then produces nothing; otherwise missing names only give warnings, the columns are `time` plus the present names, and both projections keep every row in order |
| `TimeParse.TrimStart` | input/models/BiomassBoiler/test_data/test_script.py:21 | removes exactly the leading whitespace: a suffix of the input that does not start with whitespace |
| `TimeParse.TrimEnd` | input/models/BiomassBoiler/test_data/test_script.py:21 | removes exactly the trailing whitespace: a prefix of the input that does not end with whitespace |
| `TimeParse.Normalize` | input/models/BiomassBoiler/test_data/test_script.py:21 | `strip().lower()`; stated by `NormalizeShape` and `NormalizeIdempotent` |
| `TimeParse.NormalizeShape` | input/models/BiomassBoiler/test_data/test_script.py:21 | the normalised text is no longer than the input, has no whitespace at either end and no ASCII capital letter |
| `TimeParse.StripPadded` | input/models/BiomassBoiler/test_data/test_script.py:21 | stripping a text with whitespace around it gives the text back |
| `TimeParse.NormalizeIdempotent` | input/models/BiomassBoiler/test_data/test_script.py:21 | stripping and lower-casing twice is doing it once |
| `TimeParse.ParseTime` | input/models/BiomassBoiler/test_data/test_script.py:20-31 | `parse_time` itself; its behaviour is stated by `ParseTimeIgnoresCaseAndPadding`, `UnitSuffixScales`, `PlainNumber` and `FallbackToZero` |
| `TimeParse.ParseTimeIgnoresCaseAndPadding` | input/models/BiomassBoiler/test_data/test_script.py:21-29 | a text and its stripped, lower-cased form parse alike (" 2H " as "2h") |
| `TimeParse.UnitSuffixScales` | input/models/BiomassBoiler/test_data/test_script.py:23-28 | a number with one trailing unit letter, in either case and padded with whitespace, is the number times 3600 (`h`), 60 (`m`) or 1 (`s`), and 0.0 if the number is rejected |
| `TimeParse.PlainNumber` | input/models/BiomassBoiler/test_data/test_script.py:29-31 | text that does not end in a unit letter is read whole as a number, with 0.0 on failure |
| `TimeParse.FallbackToZero` | input/models/BiomassBoiler/test_data/test_script.py:22-31 | with a `float()`-like parser, blank text gives 0.0, and so does text ending in two unit letters ("5ms"), since only one suffix is stripped |
| `TimeParse.TimeColumn` | input/models/BiomassBoiler/test_data/test_script.py:94-96 | the time column is `Time` when the header has it, else `time` when the header has it, else `timestamp` |
| `TimeParse.RowTime` | input/models/BiomassBoiler/test_data/test_script.py:100-101 | the time of one row, `parse_time(row.get(time_col, '0'))`; stated by `RowWithoutTimeIsAtZero` |
| `TimeParse.RowWithoutTimeIsAtZero` | input/models/BiomassBoiler/test_data/test_script.py:100-101 | a row lacking the time column is read as "0", so it is at time 0 |

## Left out

- The boiler model itself (Modelica source, its equations and numerics) is not part of this model. Neither is anything that drives the compiled FMU: `fmpy` and `FMU2Slave` calls, the stepping loop and input mapping of `run_test`, `tests/`, the `_active` test script and its tolerance gates, and `twinctl.py`.
- `build_fmu.py`: `main`, `run_command`, `validate_files`, Docker and subprocess calls, the check that the config file exists (lines 39-42), reading the YAML (44-45) and writing the `.mos` file (158-160). The generator returns the script lines instead of the path of the written file.
- `Config.LoadConfig`: a YAML file whose top level is not a mapping (an empty file loads as `None`) is not modelled. The TypeError of `in` on a number, boolean or null section is reported as its own error, where Python stops with a traceback.
- `Config.Extract`: a non-string scalar is held as the text `str()` gives it, so the YAML parser's typing (which text loads as a number) is outside the model. A list or mapping used where an f-string renders a value makes `Extract` fail, where Python would write its `repr()` into the script. A non-empty mapping given as `dependencies` or `external_libraries` also makes it fail: Python would iterate its keys in insertion order, and the model's mapping has no order. For `dependencies` the keys would be loaded as files, while for `external_libraries` Python raises anyway.
- `BuildScript`: the script is modelled as its sequence of lines, each newline-terminated run of the text being one line. A piece the source appends with two newlines, such as `"getErrorString();\n\n"` or `");\n\n"`, becomes two lines, the second empty. `Render` gives back the identical text. A configured value that itself contains a newline still counts as part of one line for the readers.
- `split_validation_csv.py`: reading and writing the CSV files, the check that the file exists (38-41), the printed messages, and reading `interface.inputs` and `interface.outputs` from the config (44-45). The names come in as lists. Rows are maps from column name to cell text, so the `None` cells and the `None` key that `csv.DictReader` gives short and long rows are not modelled. A configured name listed twice yields a repeated `DictWriter` field name, while the projected row, being a map, holds it once. The data-directory constant (line 15) is file-system plumbing.
- `TimeParse`: `float()` is an abstract parameter. Its grammar, rounding, and `inf`/`nan` results are not modelled, and the multiplications are over the reals rather than floating point. `str.lower()` is modelled for ASCII letters only. No other character lowers to `h`, `m` or `s`, so the suffix dispatch is exact, but other letters reach the number parser un-lowered. Rows are maps from column name to text, so a short `csv.DictReader` row, which holds `None` under a missing column, is not modelled. For such a row `row.get(time_col, '0')` gives `None`, `None.strip()` raises AttributeError outside the `try` of `parse_time`, and the test stops with "Test Failed" (lines 100, 21 and 121-125).
- `TimeParse.RowTime`: a time cell that `csv.DictReader` fills with `None` makes `run_test` fail in the source, while the model always yields a time; the model row type cannot hold `None`.
- `TimeParse.TimeColumn`: the field names are always a list here. For an empty CSV file `csv.DictReader` has no field names (`None`), so `'time' in reader.fieldnames` raises TypeError at line 95 and the test stops with "Test Failed" (121-125); the model instead returns `timestamp`.
