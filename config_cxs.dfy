/**
 * Loading of the CXS job configuration: every field of the configuration record is
 * resolved from the parsed table (with per-key fallbacks), the experiment file paths
 * are derived from the experiment folder, and the folder and five of the experiment
 * files are checked on the file system before the record is returned.
 */
module LibConfigCxs {
  import opened Wrappers
  import opened RawTable

  /** Section and key names under which each setting is read. */
  datatype Schema = Schema(
    misc: string, singlePrecision: string,
    experiment: string, folder: string, stations: string, sources: string,
    delays: string, delayModel: string, media: string, correlation: string,
    mediaSpark: string,
    files: string, sparkHomeDir: string, outDir: string, prefixOutput: string,
    spark: string)

  /** The file system, as the existing directories and the existing regular files. */
  datatype FileSystem = FileSystem(dirs: set<string>, files: set<string>)

  /** The configuration record handed to the rest of the pipeline. */
  datatype ConfigCXS = ConfigCXS(
    fftAtMapper: bool,
    dataDir: string,
    iniFolder: string,
    iniStations: string,
    iniSources: string,
    iniDelayModel: string,
    iniDelays: string,
    iniMedia: string,
    iniCorrelation: string,
    internalLogMapper: int,
    internalLogReducer: int,
    fftsPerChunk: int,
    oneBaselinePerTask: bool,
    minMapperChunk: int,
    maxMapperChunk: int,
    taskScalingStations: bool,
    singlePrecision: bool,
    outDir: string,
    outPrefix: string,
    sparkConfigPairs: Option<seq<(string, string)>>,
    sparkHome: Option<string>)

  datatype Error =
    | ConfigParserError(cause: LookupError)   // raised by the table lookups
    | EmptyOutDir                             // the out dir value is "", so indexing its last character fails
    | MissingDirectory(path: string)          // "Cannot find experiment folder"
    | MissingFile(path: string)               // "Cannot find experiment configuration file"

  // Fallback file names and output prefix.
  const DefaultStations := "stations.ini"
  const DefaultSources := "sources.ini"
  const DefaultDelays := "delays.ini"
  const DefaultDelayModel := "delay_model.ini"
  const DefaultMedia := "media.ini"
  const DefaultCorrelation := "correlation.ini"
  const DefaultPrefix := "OUT"

  function Lift<T>(r: Result<T, LookupError>): Result<T, Error>
  {
    match r
    case Success(v) => Success(v)
    case Failure(e) => Failure(ConfigParserError(e))
  }

  /** The retired flags and sentinels, which are never read from the file. */
  predicate RetiredFieldsPinned(c: ConfigCXS)
  {
    && !c.fftAtMapper && !c.taskScalingStations && !c.oneBaselinePerTask
    && c.internalLogMapper == 0 && c.internalLogReducer == 0
    && c.fftsPerChunk == -1 && c.minMapperChunk == -1 && c.maxMapperChunk == -1
  }

  predicate EndsWithSeparator(s: string)
  {
    s != [] && s[|s| - 1] == '/'
  }

  /** The path of an experiment file: the folder, one separator, the file name. */
  function IniPath(folder: string, name: string): (p: string)
    ensures |p| == |folder| + 1 + |name|
    ensures p[..|folder|] == folder && p[|folder|] == '/' && p[|folder| + 1..] == name
  {
    folder + "/" + name
  }

  /** Two names give the same path in one folder only when they are the same name. */
  lemma IniPathInjective(folder: string, a: string, b: string)
    requires IniPath(folder, a) == IniPath(folder, b)
    ensures a == b
  {
    assert a == IniPath(folder, a)[|folder| + 1..];
  }

  /** The out dir with a separator appended unless it already ends with one. */
  function NormaliseOutDir(d: string): (r: Result<string, Error>)
    ensures r.Failure? <==> d == []
    ensures r.Failure? ==> r.error == EmptyOutDir
    ensures r.Success? ==> EndsWithSeparator(r.value)
    ensures r.Success? ==> |d| <= |r.value| <= |d| + 1 && r.value[..|d|] == d
    ensures EndsWithSeparator(d) ==> r == Success(d)
  {
    if d == [] then Failure(EmptyOutDir)
    else if d[|d| - 1] != '/' then Success(d + "/")
    else Success(d)
  }

  /** Normalising an already normalised out dir leaves it unchanged. */
  lemma NormaliseOutDirIdempotent(d: string)
    requires NormaliseOutDir(d).Success?
    ensures NormaliseOutDir(NormaliseOutDir(d).value) == NormaliseOutDir(d)
  {
  }

  /** `path` is `folder + "/" + v`, with `v` the table's value for the key or the fallback name. */
  ghost predicate DerivedFrom(t: Table, section: string, key: string, fallback: string, folder: string, path: string)
  {
    exists v :: ReadOr(t, section, key, fallback, v) && path == IniPath(folder, v)
  }

  /** What a table must hold for every field to resolve. */
  ghost predicate Resolvable(s: Schema, t: Table)
  {
    && (forall v :: Binds(t, s.misc, s.singlePrecision, v) ==> ParseBoolean(v).Some?)
    && !Absent(t, s.experiment, s.folder)
    && !Absent(t, s.experiment, s.mediaSpark)
    && !Absent(t, s.files, s.outDir)
    && !Binds(t, s.files, s.outDir, "")
  }

  /** The single-precision flag as the table determines it. */
  ghost predicate FlagFrom(s: Schema, t: Table, c: ConfigCXS)
  {
    && (Absent(t, s.misc, s.singlePrecision) ==> !c.singlePrecision)
    && (forall v :: Binds(t, s.misc, s.singlePrecision, v) ==> ParseBoolean(v) == Some(c.singlePrecision))
  }

  /** The experiment folder, the six derived paths and the data dir as the table determines them. */
  ghost predicate ExperimentFrom(s: Schema, t: Table, c: ConfigCXS)
  {
    && Binds(t, s.experiment, s.folder, c.iniFolder)
    && DerivedFrom(t, s.experiment, s.stations, DefaultStations, c.iniFolder, c.iniStations)
    && DerivedFrom(t, s.experiment, s.sources, DefaultSources, c.iniFolder, c.iniSources)
    && DerivedFrom(t, s.experiment, s.delays, DefaultDelays, c.iniFolder, c.iniDelays)
    && DerivedFrom(t, s.experiment, s.delayModel, DefaultDelayModel, c.iniFolder, c.iniDelayModel)
    && DerivedFrom(t, s.experiment, s.media, DefaultMedia, c.iniFolder, c.iniMedia)
    && DerivedFrom(t, s.experiment, s.correlation, DefaultCorrelation, c.iniFolder, c.iniCorrelation)
    && Binds(t, s.experiment, s.mediaSpark, c.dataDir)
  }

  /** The output and Spark fields as the table determines them. */
  ghost predicate FilesFrom(s: Schema, t: Table, c: ConfigCXS)
  {
    && (forall v :: Binds(t, s.files, s.outDir, v) ==> NormaliseOutDir(v) == Success(c.outDir))
    && ReadOr(t, s.files, s.prefixOutput, DefaultPrefix, c.outPrefix)
    && (c.sparkHome.None? <==> Absent(t, s.files, s.sparkHomeDir))
    && (forall v :: Binds(t, s.files, s.sparkHomeDir, v) <==> c.sparkHome == Some(v))
    && c.sparkConfigPairs == (if s.spark in t then Some(t[s.spark]) else None)
  }

  /** Each field of `c` as the table and the fallbacks determine it. */
  ghost predicate ResolvedFrom(s: Schema, t: Table, c: ConfigCXS)
  {
    RetiredFieldsPinned(c) && FlagFrom(s, t, c) && ExperimentFrom(s, t, c) && FilesFrom(s, t, c)
  }

  /** The lookups, in the order the loader makes them; no file system access. */
  function Resolve(s: Schema, t: Table): (r: Result<ConfigCXS, Error>)
    ensures r.Success? ==> RetiredFieldsPinned(r.value)
    ensures r.Success? ==> EndsWithSeparator(r.value.outDir)
  {
    var singlePrecision :- Lift(GetBoolean(t, s.misc, s.singlePrecision, false));
    var folder :- Lift(Get(t, s.experiment, s.folder));
    var stations := IniPath(folder, GetOr(t, s.experiment, s.stations, DefaultStations));
    var sources := IniPath(folder, GetOr(t, s.experiment, s.sources, DefaultSources));
    var delays := IniPath(folder, GetOr(t, s.experiment, s.delays, DefaultDelays));
    var delayModel := IniPath(folder, GetOr(t, s.experiment, s.delayModel, DefaultDelayModel));
    var media := IniPath(folder, GetOr(t, s.experiment, s.media, DefaultMedia));
    var correlation := IniPath(folder, GetOr(t, s.experiment, s.correlation, DefaultCorrelation));
    var dataDir :- Lift(Get(t, s.experiment, s.mediaSpark));
    var sparkHome := GetOptional(t, s.files, s.sparkHomeDir);
    var outDirRaw :- Lift(Get(t, s.files, s.outDir));
    var outDir :- NormaliseOutDir(outDirRaw);
    var prefix := GetOr(t, s.files, s.prefixOutput, DefaultPrefix);
    var sparkPairs := if s.spark in t then Some(t[s.spark]) else None;
    Success(ConfigCXS(
      fftAtMapper := false,
      dataDir := dataDir,
      iniFolder := folder,
      iniStations := stations,
      iniSources := sources,
      iniDelayModel := delayModel,
      iniDelays := delays,
      iniMedia := media,
      iniCorrelation := correlation,
      internalLogMapper := 0,
      internalLogReducer := 0,
      fftsPerChunk := -1,
      oneBaselinePerTask := false,
      minMapperChunk := -1,
      maxMapperChunk := -1,
      taskScalingStations := false,
      singlePrecision := singlePrecision,
      outDir := outDir,
      outPrefix := prefix,
      sparkConfigPairs := sparkPairs,
      sparkHome := sparkHome))
  }

  /** Resolution succeeds exactly when the required keys are present, the flag converts and the out dir is not empty. */
  lemma ResolveSucceedsIff(s: Schema, t: Table)
    ensures Resolve(s, t).Success? <==> Resolvable(s, t)
  {
  }

  /** A resolved record holds the flag as converted from the table, or false when absent. */
  lemma ResolvedFlag(s: Schema, t: Table)
    requires Resolve(s, t).Success?
    ensures FlagFrom(s, t, Resolve(s, t).value)
  {
  }

  /** A resolved record holds the folder and data dir of the table, and paths `folder + "/" + name`. */
  lemma ResolvedExperiment(s: Schema, t: Table)
    requires Resolve(s, t).Success?
    ensures ExperimentFrom(s, t, Resolve(s, t).value)
  {
  }

  /** A resolved record holds the normalised out dir, the prefix, the Spark home and the Spark pairs. */
  lemma ResolvedFiles(s: Schema, t: Table)
    requires Resolve(s, t).Success?
    ensures FilesFrom(s, t, Resolve(s, t).value)
  {
  }

  /** Every field of a resolved record is determined by the table and the fallbacks. */
  lemma ResolvedFields(s: Schema, t: Table)
    requires Resolve(s, t).Success?
    ensures ResolvedFrom(s, t, Resolve(s, t).value)
  {
    ResolvedFlag(s, t);
    ResolvedExperiment(s, t);
    ResolvedFiles(s, t);
  }

  /**
   * Which lookup error a failed resolution reports: the boolean conversion first,
   * then the experiment folder, the data dir and the out dir, in that order.
   */
  lemma ResolveErrorOrder(s: Schema, t: Table)
    ensures forall v :: Binds(t, s.misc, s.singlePrecision, v) && ParseBoolean(v).None? ==>
      Resolve(s, t) == Failure(ConfigParserError(NotABoolean(s.misc, s.singlePrecision, v)))
    ensures GetBoolean(t, s.misc, s.singlePrecision, false).Success? ==>
      && (Absent(t, s.experiment, s.folder) ==>
            Resolve(s, t) == Failure(ConfigParserError(AbsenceError(t, s.experiment, s.folder))))
      && (!Absent(t, s.experiment, s.folder) && Absent(t, s.experiment, s.mediaSpark) ==>
            Resolve(s, t) == Failure(ConfigParserError(AbsenceError(t, s.experiment, s.mediaSpark))))
      && (!Absent(t, s.experiment, s.folder) && !Absent(t, s.experiment, s.mediaSpark) ==>
            && (Absent(t, s.files, s.outDir) ==>
                  Resolve(s, t) == Failure(ConfigParserError(AbsenceError(t, s.files, s.outDir))))
            && (Binds(t, s.files, s.outDir, "") ==> Resolve(s, t) == Failure(EmptyOutDir)))
  {
  }

  /** The five experiment files whose existence is checked, in the order they are checked. */
  function ValidatedFiles(c: ConfigCXS): (r: seq<string>)
    ensures |r| == 5
    ensures r[0] == c.iniStations && r[1] == c.iniSources && r[2] == c.iniDelayModel
    ensures r[3] == c.iniMedia && r[4] == c.iniCorrelation
    ensures c.iniDelays in r <==>
      c.iniDelays in {c.iniStations, c.iniSources, c.iniDelayModel, c.iniMedia, c.iniCorrelation}
  {
    [c.iniStations, c.iniSources, c.iniDelayModel, c.iniMedia, c.iniCorrelation]
  }

  /** `paths[i]` is missing and every path before it exists. */
  ghost predicate IsFirstMissing(paths: seq<string>, files: set<string>, i: int)
  {
    0 <= i < |paths| && paths[i] !in files && forall j :: 0 <= j < i ==> paths[j] in files
  }

  /** The first of `paths` that is not an existing file, if any. */
  function FirstMissing(paths: seq<string>, files: set<string>): (r: Option<string>)
    ensures r.None? <==> forall i :: 0 <= i < |paths| ==> paths[i] in files
    ensures forall i :: IsFirstMissing(paths, files, i) ==> r == Some(paths[i])
  {
    if paths == [] then None
    else if paths[0] !in files then Some(paths[0])
    else
      assert forall i :: 1 <= i < |paths| ==> paths[i] == paths[1..][i - 1];
      assert forall i :: IsFirstMissing(paths, files, i) ==> IsFirstMissing(paths[1..], files, i - 1);
      FirstMissing(paths[1..], files)
  }

  /** Whether the result of the search depends on a file depends only on the listed paths. */
  lemma {:induction false} FirstMissingReadsOnlyListed(paths: seq<string>, f1: set<string>, f2: set<string>)
    requires forall i :: 0 <= i < |paths| ==> (paths[i] in f1 <==> paths[i] in f2)
    ensures FirstMissing(paths, f1) == FirstMissing(paths, f2)
  {
    if paths != [] && paths[0] in f1 {
      assert forall i :: 1 <= i < |paths| ==> paths[i] == paths[1..][i - 1];
      FirstMissingReadsOnlyListed(paths[1..], f1, f2);
    }
  }

  /** The folder is a directory and each validated file is a regular file. */
  ghost predicate ChecksPass(c: ConfigCXS, fs: FileSystem)
  {
    && c.iniFolder in fs.dirs
    && c.iniStations in fs.files
    && c.iniSources in fs.files
    && c.iniDelayModel in fs.files
    && c.iniMedia in fs.files
    && c.iniCorrelation in fs.files
  }

  lemma ChecksPassAsList(c: ConfigCXS, fs: FileSystem)
    ensures ChecksPass(c, fs) <==>
      c.iniFolder in fs.dirs && forall i :: 0 <= i < |ValidatedFiles(c)| ==> ValidatedFiles(c)[i] in fs.files
  {
    var paths := ValidatedFiles(c);
    if ChecksPass(c, fs) {
      forall i | 0 <= i < |paths| ensures paths[i] in fs.files {
        if i == 0 {} else if i == 1 {} else if i == 2 {} else if i == 3 {} else {}
      }
    }
    if forall i :: 0 <= i < |paths| ==> paths[i] in fs.files {
      assert paths[0] in fs.files && paths[1] in fs.files && paths[2] in fs.files;
      assert paths[3] in fs.files && paths[4] in fs.files;
    }
  }

  /** The file system checks: the folder first, then the five files, stopping at the first failure. */
  function Validate(c: ConfigCXS, fs: FileSystem): (r: Result<ConfigCXS, Error>)
    ensures c.iniFolder !in fs.dirs ==> r == Failure(MissingDirectory(c.iniFolder))
    ensures r.Success? <==> ChecksPass(c, fs)
    ensures r.Success? ==> r.value == c
    ensures c.iniFolder in fs.dirs ==>
      forall i :: IsFirstMissing(ValidatedFiles(c), fs.files, i) ==> r == Failure(MissingFile(ValidatedFiles(c)[i]))
  {
    if c.iniFolder !in fs.dirs then Failure(MissingDirectory(c.iniFolder))
    else
      ChecksPassAsList(c, fs);
      match FirstMissing(ValidatedFiles(c), fs.files)
      case Some(p) => Failure(MissingFile(p))
      case None => Success(c)
  }

  /** The checks look only at the folder and the five validated files. */
  lemma ValidateReadsOnlyChecked(c: ConfigCXS, fs1: FileSystem, fs2: FileSystem)
    requires c.iniFolder in fs1.dirs <==> c.iniFolder in fs2.dirs
    requires forall p :: p in ValidatedFiles(c) ==> (p in fs1.files <==> p in fs2.files)
    ensures Validate(c, fs1) == Validate(c, fs2)
  {
    FirstMissingReadsOnlyListed(ValidatedFiles(c), fs1.files, fs2.files);
  }

  /** A path that is neither the folder nor a validated file may exist or not: the result is the same. */
  lemma UncheckedPathIrrelevant(c: ConfigCXS, fs: FileSystem, p: string)
    requires p != c.iniFolder && p !in ValidatedFiles(c)
    ensures Validate(c, FileSystem(fs.dirs - {p}, fs.files - {p})) == Validate(c, FileSystem(fs.dirs + {p}, fs.files + {p}))
  {
    ValidateReadsOnlyChecked(c, FileSystem(fs.dirs - {p}, fs.files - {p}), FileSystem(fs.dirs + {p}, fs.files + {p}));
  }

  /** The whole load: resolution, then the file system checks, then the record. */
  function Load(s: Schema, t: Table, fs: FileSystem): (r: Result<ConfigCXS, Error>)
    ensures Resolve(s, t).Failure? ==> r == Failure(Resolve(s, t).error)
    ensures r.Success? <==> Resolvable(s, t) && ChecksPass(Resolve(s, t).value, fs)
    ensures r.Success? ==> ResolvedFrom(s, t, r.value) && ChecksPass(r.value, fs)
    ensures r.Success? ==> EndsWithSeparator(r.value.outDir)
    ensures Resolve(s, t).Success? ==> r == Validate(Resolve(s, t).value, fs)
  {
    ResolveSucceedsIff(s, t);
    if Resolve(s, t).Success? then ResolvedFields(s, t); Validate(Resolve(s, t).value, fs)
    else Failure(Resolve(s, t).error)
  }

  /** Whether the delays file exists never changes the outcome, unless its name is that of a validated file. */
  lemma DelaysFileNeverChecked(s: Schema, t: Table, fs: FileSystem)
    requires Resolve(s, t).Success?
    requires Resolve(s, t).value.iniDelays !in ValidatedFiles(Resolve(s, t).value)
    ensures var d := Resolve(s, t).value.iniDelays;
      Load(s, t, FileSystem(fs.dirs - {d}, fs.files - {d})) == Load(s, t, FileSystem(fs.dirs + {d}, fs.files + {d}))
  {
    var c := Resolve(s, t).value;
    assert |c.iniDelays| > |c.iniFolder|;
    UncheckedPathIrrelevant(c, fs, c.iniDelays);
  }

  /** Whether the data dir exists never changes the outcome, unless it is the folder or a validated file. */
  lemma DataDirNeverChecked(s: Schema, t: Table, fs: FileSystem)
    requires Resolve(s, t).Success?
    requires var c := Resolve(s, t).value; c.dataDir != c.iniFolder && c.dataDir !in ValidatedFiles(c)
    ensures var d := Resolve(s, t).value.dataDir;
      Load(s, t, FileSystem(fs.dirs - {d}, fs.files - {d})) == Load(s, t, FileSystem(fs.dirs + {d}, fs.files + {d}))
  {
    UncheckedPathIrrelevant(Resolve(s, t).value, fs, Resolve(s, t).value.dataDir);
  }

  /** Whether the Spark home exists never changes the outcome, unless it is the folder or a validated file. */
  lemma SparkHomeNeverChecked(s: Schema, t: Table, fs: FileSystem)
    requires Resolve(s, t).Success? && Resolve(s, t).value.sparkHome.Some?
    requires var c := Resolve(s, t).value; c.sparkHome.value != c.iniFolder && c.sparkHome.value !in ValidatedFiles(c)
    ensures var h := Resolve(s, t).value.sparkHome.value;
      Load(s, t, FileSystem(fs.dirs - {h}, fs.files - {h})) == Load(s, t, FileSystem(fs.dirs + {h}, fs.files + {h}))
  {
    UncheckedPathIrrelevant(Resolve(s, t).value, fs, Resolve(s, t).value.sparkHome.value);
  }

  /** The loop over the files to check, stopping at the first that is not an existing file. */
  method FindMissingFile(paths: seq<string>, files: set<string>) returns (missing: Option<string>)
    ensures missing == FirstMissing(paths, files)
  {
    for i := 0 to |paths|
      invariant forall j :: 0 <= j < i ==> paths[j] in files
    {
      if paths[i] !in files {
        assert IsFirstMissing(paths, files, i);
        return Some(paths[i]);
      }
    }
    return None;
  }

  /**
   * The loader: the lookups, then the folder check, then the loop over the five
   * files with an early failure; the record is returned only when every check passes.
   */
  method GetConfiguration(s: Schema, t: Table, fs: FileSystem) returns (r: Result<ConfigCXS, Error>)
    ensures r == Load(s, t, fs)
  {
    var c :- Resolve(s, t);
    if c.iniFolder !in fs.dirs {
      return Failure(MissingDirectory(c.iniFolder));
    }
    var missing := FindMissingFile(ValidatedFiles(c), fs.files);
    if missing.Some? {
      return Failure(MissingFile(missing.value));
    }
    return Success(c);
  }
}
