# CXS configuration loader, modelled in Dafny

This project models `get_configuration` in `cxs/config/lib_config_cxs.py`. That function loads the startup configuration of the CXS correlation pipeline. It reads a parsed job-configuration table and resolves every field of the `ConfigCXS` record:
- It applies per-key fallbacks: the default file names, the "OUT" prefix, and no Spark home.
- It derives the experiment file paths as `folder + "/" + name`.
- It normalises the output directory so that it ends in `/`.
- It copies the optional Spark section's pairs in file order.
- It pins the retired flags and sentinels to constants.

Before the record is returned, it checks two things on the file system. First, the experiment folder must be an existing directory. Second, five of the six experiment files must exist, checked in a fixed order and stopping at the first missing one.

The model is written over abstract inputs:

- **the parsed file** is a `Table`: a map from each section name to that section's (key, value) pairs in file order (`raw_table.dfy`);
- **the section and key names** form a `Schema` parameter, because the constant modules that name them are not part of this model;
- **the file system** is a `FileSystem`: the set of existing directories and the set of existing regular files;
- **the outcome** is a `Result<ConfigCXS, Error>`. Each exception the Python code raises becomes one `Error` case:
  - `ConfigParserError`, carrying configparser's `NoSectionError`, `NoOptionError` or getboolean's `ValueError`;
  - `EmptyOutDir`, for the `IndexError` of `OUTPUT_DIR[-1]` on an empty value;
  - `MissingDirectory`, for the experiment folder;
  - `MissingFile`, for one of the five checked files.

Files:

- `wrappers.dfy`: `Option` and `Result`.
- `raw_table.dfy` (module `RawTable`) covers the lookups made on the table: `get` with and without a fallback, and `getboolean` with a fallback. The relation `Binds(t, section, key, v)` states declaratively that the table binds a key to `v`, and `Absent` states that it binds nothing. The lookup functions are proved against these two relations.
- `config_cxs.dfy` (module `LibConfigCxs`) holds the rest:
  - `Resolve`: every lookup, in source order, with no file-system access.
  - `Validate`: the folder check, then the five files.
  - `Load`: `Resolve` followed by `Validate`.
  - `GetConfiguration`: the loader as a method. It runs the file loop (`FindMissingFile`) and is proved equal to `Load`.

## Behaviour worth noting

- The out dir gets a `/` appended only when its last character is not one, so `"out//"` is returned unchanged (`NormaliseOutDir`).
- A missing required key raises configparser's `NoSectionError` when its section is missing and `NoOptionError` when only the key is missing (`AbsenceError`).
- A single-precision value that is not a boolean spelling raises `ValueError` before any other lookup is made (`ResolveErrorOrder`).

## Model

| member | source | states |
|---|---|---|
| `RawTable.FindKey` | cxs/config/lib_config_cxs.py:117-133 | The section's lookup finds nothing exactly when no pair has the key. Otherwise it returns the value that the first pair with the key binds, and no other. |
| `RawTable.GetOptional` | cxs/config/lib_config_cxs.py:129 | `get` with fallback None gives None exactly when the section or key is absent. Otherwise it gives Some of the bound value. |
| `RawTable.Get` | cxs/config/lib_config_cxs.py:117 | `get` without a fallback returns exactly the bound value. If the key is absent, it fails with NoSection when the section is missing and NoOption otherwise. |
| `RawTable.GetOr` | cxs/config/lib_config_cxs.py:118-123 | `get` with a fallback returns the bound value when one exists, and the fallback when the section or key is absent. |
| `RawTable.AbsenceError` | cxs/config/lib_config_cxs.py:117-130 | `get` without a fallback raises NoSection naming the section when the section is missing. Otherwise it raises NoOption naming the section and the key. |
| `RawTable.LowerChar` | cxs/config/lib_config_cxs.py:109 | Lower-casing maps A to Z onto a to z letter for letter and keeps every other character; no upper-case letter remains. |
| `RawTable.Lower` | cxs/config/lib_config_cxs.py:109 | Lower-casing a value keeps its length, lower-cases each character in place, and leaves no upper-case letter A to Z. |
| `RawTable.ParseBoolean` | cxs/config/lib_config_cxs.py:109 | A value converts to true exactly when its lower-cased form is 1/yes/true/on, and to false exactly when it is 0/no/false/off. Any other value is not a boolean. |
| `RawTable.ParseBooleanIgnoresCase` | cxs/config/lib_config_cxs.py:109 | Converting the lower-cased value gives the same answer as converting the value itself. |
| `RawTable.GetBoolean` | cxs/config/lib_config_cxs.py:109 | An absent single-precision key gives the fallback (false). A bound value gives its boolean, or a NotABoolean error naming section, key and value. |
| `LibConfigCxs.IniPath` | cxs/config/lib_config_cxs.py:118-123 | A derived path is the folder, then exactly one '/', then the name, with no separator de-duplication. |
| `LibConfigCxs.IniPathInjective` | cxs/config/lib_config_cxs.py:118-123 | Within one folder, two names give the same path only if they are equal. |
| `LibConfigCxs.NormaliseOutDir` | cxs/config/lib_config_cxs.py:130-132 | An empty out dir fails. Otherwise the result ends in '/', extends the input by at most one character, and equals the input if the input already ended in '/'. |
| `LibConfigCxs.NormaliseOutDirIdempotent` | cxs/config/lib_config_cxs.py:130-132 | Normalising an already normalised out dir changes nothing. |
| `LibConfigCxs.Resolve` | cxs/config/lib_config_cxs.py:90-140 | A resolved record always has fft_at_mapper, task_scaling_stations and one_baseline_per_task false. Its log levels are 0, its chunk sentinels -1, and its out dir ends in '/'. |
| `LibConfigCxs.ResolveSucceedsIff` | cxs/config/lib_config_cxs.py:109-133 | Resolution succeeds exactly when four things hold. The flag, if present, is a boolean spelling. Folder, data dir and out dir are all present. The out dir is not empty. |
| `LibConfigCxs.ResolvedFlag` | cxs/config/lib_config_cxs.py:109 | single_precision is false when the key is absent. Otherwise it is the converted table value. |
| `LibConfigCxs.ResolvedExperiment` | cxs/config/lib_config_cxs.py:117-125 | ini_folder and data_dir are the table's values. Each of the six ini paths equals `ini_folder + "/" + v`, where v is the table's name or the default ("stations.ini", …, "correlation.ini"). |
| `LibConfigCxs.ResolvedFiles` | cxs/config/lib_config_cxs.py:129-140 | out_dir is the normalised table value, and out_prefix is the table value or "OUT". spark_home is None exactly when its key is absent. spark_config_pairs is None exactly when the Spark section is absent, and otherwise is that section's pairs in file order, so an empty section gives an empty list. |
| `LibConfigCxs.ResolvedFields` | cxs/config/lib_config_cxs.py:90-140 | Every field of a resolved record is as the three lemmas above and the retired-constant clause state. |
| `LibConfigCxs.ResolveErrorOrder` | cxs/config/lib_config_cxs.py:109-131 | A failed resolution reports the first error in source order: a non-boolean flag, then a missing folder, a missing data dir, a missing out dir, and finally an empty out dir. |
| `LibConfigCxs.ValidatedFiles` | cxs/config/lib_config_cxs.py:145-152 | The checked files are stations, sources, delay model, media and correlation, in that order. The delays path is among them only when it equals one of those five paths. |
| `LibConfigCxs.FirstMissing` | cxs/config/lib_config_cxs.py:154-156 | The result is None exactly when every listed path is a file. Otherwise it is the path at the first index that is missing. |
| `LibConfigCxs.FirstMissingReadsOnlyListed` | cxs/config/lib_config_cxs.py:154-156 | Two file systems that agree on the listed paths give the same search result. |
| `LibConfigCxs.Validate` | cxs/config/lib_config_cxs.py:142-159 | A missing folder gives a directory error before any file is checked. Otherwise the check succeeds, returning the record unchanged, exactly when stations, sources, delay model, media and correlation all exist. When one is missing, the error names the first missing one in that order. |
| `LibConfigCxs.ValidateReadsOnlyChecked` | cxs/config/lib_config_cxs.py:142-159 | The checks depend only on whether the folder is a directory and whether the five listed files exist. |
| `LibConfigCxs.UncheckedPathIrrelevant` | cxs/config/lib_config_cxs.py:145-159 | Adding or removing any path other than the folder and the five checked files does not change the check's outcome. |
| `LibConfigCxs.Load` | cxs/config/lib_config_cxs.py:109-184 | Every lookup error comes before, and independently of, the file system. A record is returned exactly when the table resolves and every check passes. Every returned record has its fields determined by the table and passes the checks. When the table resolves, the outcome is exactly `Validate`'s on the resolved record: a directory error first, then the first missing checked file. |
| `LibConfigCxs.DelaysFileNeverChecked` | cxs/config/lib_config_cxs.py:120 | Whether the delays file exists never changes the load's outcome, unless its path coincides with one of the checked files. |
| `LibConfigCxs.DataDirNeverChecked` | cxs/config/lib_config_cxs.py:158-159 | Whether the data dir exists never changes the load's outcome, unless it is the folder or a checked file. |
| `LibConfigCxs.SparkHomeNeverChecked` | cxs/config/lib_config_cxs.py:129 | Whether the Spark home exists never changes the load's outcome, unless it is the folder or a checked file. |
| `LibConfigCxs.FindMissingFile` | cxs/config/lib_config_cxs.py:154-156 | The loop over the files, which returns at the first one that is not a file, computes `FirstMissing`. |
| `LibConfigCxs.GetConfiguration` | cxs/config/lib_config_cxs.py:18-184 | The loader's result, whether an error or a record, is exactly `Load`'s. |

## Left out

- Parsing the configuration text (`config.read`, lines 86-88) belongs to configparser. The model starts from the parsed table. Also outside the model:
  - configparser skipping unreadable files;
  - keys of the `[DEFAULT]` section showing up in every section's lookups and items;
  - `%`-interpolation of values.
- Duplicate keys within one section: configparser's strict mode rejects them while parsing. The model's lookups take the first pair with the key, which is the only one in any table the parser accepts.
- Lower-casing in `getboolean` is Python's Unicode `str.lower`. The model lower-cases only A to Z. No other character lower-cases into the letters of the eight accepted spellings, so the two give the same result.
- The choice of constant module through the `is_legacy` environment variable (lines 7-10): section and key names are the `Schema` parameter.
- The Python 2 `ConfigParser` import branch (lines 12-15) is not modelled. Under it, `get` and `getboolean` with `fallback=` raise `TypeError`. The model follows Python 3's configparser.
- `FileSystem` compares paths as plain strings. Aliases such as `a//b`, `a/./b` or a symbolic link count as distinct paths, so "coincides" in `DelaysFileNeverChecked`, `DataDirNeverChecked` and `SparkHomeNeverChecked` means string equality.
- The verbose message written to the log file (lines 93-94): output only.
- The real file system (`os.path.isdir`, `os.path.isfile`): it is the `FileSystem` parameter.
- `ConfigCXS`'s own class lives in a module that is not part of this model; the record is a plain immutable datatype.
- `OUTPUT_DIR += "/"` (lines 131-132) updates a local variable once. It is modelled as the function `NormaliseOutDir`, not as an assignment.
