/** The import pipeline: uniqueness resolution of a file name inside a
    folder, the per-file step (classify the metadata lookup, create the dated
    folder, choose a stem, copy) and the batch loop with its abort policy.

    The pure functions here (`UniqueStem`, `ImportFile`, `ImportAll`) are the
    reference definitions; the class `FileSystem` holds the mutable state and
    its methods, which follow the source step by step, are proved to agree
    with them. */
module Importer {
  import opened Decimal
  import opened Naming

  /** The result of the metadata lookup for one source path: the capture
      timestamp with the format tag (used as the extension), or one of the
      three failures the importer tells apart. */
  datatype Metadata =
    | Ok(shot: Timestamp, format: string)
    | NoDate
    | Unidentified
    | NotFound

  /** The part of the file system the importer sees: the directories and the
      regular files, by path. */
  datatype Fs = Fs(dirs: set<string>, files: set<string>)

  /** The caller's arguments other than the file list. */
  datatype Settings = Settings(sourceDir: string, destDir: string, description: string, renameToDate: bool)

  /** `os.path.join` of a directory and a relative name. */
  function Join(dir: string, name: string): string
  {
    dir + "/" + name
  }

  function SourcePath(settings: Settings, file: string): string
  {
    Join(settings.sourceDir, file)
  }

  function FolderPath(settings: Settings, shot: Timestamp): string
  {
    Join(settings.destDir, DirName(shot, settings.description))
  }

  // ---------------------------------------------------------------------
  // Uniqueness resolution

  /** The `k`-th probe of the uniqueness loop: `{fullPath}_{k}.{ext}`. */
  function ProbePath(fullPath: string, k: nat, ext: string): string
  {
    fullPath + "_" + NatToDecimal(k) + "." + ext
  }

  /** Distinct counters probe distinct paths. */
  lemma ProbeInjective(fullPath: string, ext: string, j: nat, k: nat)
    requires ProbePath(fullPath, j, ext) == ProbePath(fullPath, k, ext)
    ensures j == k
  {
    var prefix := fullPath + "_";
    var p, q := ProbePath(fullPath, j, ext), ProbePath(fullPath, k, ext);
    assert p == prefix + (NatToDecimal(j) + ("." + ext));
    assert q == prefix + (NatToDecimal(k) + ("." + ext));
    assert p[|prefix|..] == NatToDecimal(j) + ("." + ext);
    assert q[|prefix|..] == NatToDecimal(k) + ("." + ext);
    DecimalPrefixCancel(j, k, "." + ext, "." + ext);
  }

  /** The counter the uniqueness loop stops at when it starts at `k`. Each
      probe that hits is taken out of `present`, which is what bounds the
      loop: `present` is finite. */
  function FreeCounter(present: set<string>, fullPath: string, ext: string, k: nat): nat
    decreases |present|
  {
    var probe := ProbePath(fullPath, k, ext);
    if probe in present then FreeCounter(present - {probe}, fullPath, ext, k + 1) else k
  }

  /** The loop stops at the least counter from `k` on whose probe is free,
      and after at most one probe per file already present. */
  lemma {:induction false} FreeCounterLeast(present: set<string>, fullPath: string, ext: string, k: nat)
    ensures var r := FreeCounter(present, fullPath, ext, k);
      k <= r <= k + |present| &&
      ProbePath(fullPath, r, ext) !in present &&
      forall j :: k <= j < r ==> ProbePath(fullPath, j, ext) in present
    decreases |present|
  {
    var probe := ProbePath(fullPath, k, ext);
    if probe in present {
      var rest := present - {probe};
      FreeCounterLeast(rest, fullPath, ext, k + 1);
      var r := FreeCounter(rest, fullPath, ext, k + 1);
      if ProbePath(fullPath, r, ext) == probe {
        ProbeInjective(fullPath, ext, r, k);
      }
    }
  }

  /** The stem `ensure_unique` returns for `name` in `folder`. */
  function UniqueStem(present: set<string>, folder: string, name: string, ext: string): string
  {
    var fullPath := Join(folder, name);
    if fullPath + "." + ext in present then name + "_" + NatToDecimal(FreeCounter(present, fullPath, ext, 1))
    else name
  }

  /** The path a stem and an extension give inside a folder. */
  function TargetPath(folder: string, stem: string, ext: string): string
  {
    Join(folder, stem + "." + ext)
  }

  lemma SuffixedTarget(folder: string, name: string, k: nat, ext: string)
    ensures TargetPath(folder, name + "_" + NatToDecimal(k), ext) == ProbePath(Join(folder, name), k, ext)
  {
  }

  /** The stem returned is free: its file does not exist in the folder. */
  lemma UniqueStemIsFree(present: set<string>, folder: string, name: string, ext: string)
    ensures TargetPath(folder, UniqueStem(present, folder, name, ext), ext) !in present
  {
    var fullPath := Join(folder, name);
    assert TargetPath(folder, name, ext) == fullPath + "." + ext;
    if fullPath + "." + ext in present {
      var k := FreeCounter(present, fullPath, ext, 1);
      FreeCounterLeast(present, fullPath, ext, 1);
      SuffixedTarget(folder, name, k, ext);
    }
  }

  /** When `name.ext` is free, the name is kept unchanged. */
  lemma UniqueStemKeepsFreeName(present: set<string>, folder: string, name: string, ext: string)
    requires TargetPath(folder, name, ext) !in present
    ensures UniqueStem(present, folder, name, ext) == name
  {
    assert TargetPath(folder, name, ext) == Join(folder, name) + "." + ext;
  }

  /** When `name.ext` is taken, the result is `name_k` for the least `k >= 1`
      whose file is free: with `name_1` to `name_{k-1}` all taken and
      `name_k` free, the result is `name_k`. */
  lemma UniqueStemMinimalSuffix(present: set<string>, folder: string, name: string, ext: string, k: nat)
    requires TargetPath(folder, name, ext) in present
    requires 1 <= k
    requires forall j :: 1 <= j < k ==> TargetPath(folder, name + "_" + NatToDecimal(j), ext) in present
    requires TargetPath(folder, name + "_" + NatToDecimal(k), ext) !in present
    ensures UniqueStem(present, folder, name, ext) == name + "_" + NatToDecimal(k)
  {
    var fullPath := Join(folder, name);
    assert TargetPath(folder, name, ext) == fullPath + "." + ext;
    var c := FreeCounter(present, fullPath, ext, 1);
    FreeCounterLeast(present, fullPath, ext, 1);
    SuffixedTarget(folder, name, k, ext);
    SuffixedTarget(folder, name, c, ext);
  }

  // ---------------------------------------------------------------------
  // The per-file step and the batch

  /** What happens to the file system for one file of the batch; `Abort`
      stands for the early `return False`. */
  datatype Step = Next(fs: Fs) | Abort

  /** The path the file is copied to, given the state before its step. */
  function CopyTarget(fs: Fs, settings: Settings, file: string, shot: Timestamp, ext: string): string
  {
    var folder := FolderPath(settings, shot);
    TargetPath(folder, UniqueStem(fs.files, folder, CandidateStem(file, shot, settings.renameToDate), ext), ext)
  }

  /** One iteration of the batch loop. */
  function ImportFile(fs: Fs, settings: Settings, file: string, lookup: string -> Metadata): Step
  {
    match lookup(SourcePath(settings, file))
    case NoDate => Next(fs)
    case Unidentified => Next(fs)
    case NotFound => Abort
    case Ok(shot, ext) =>
      Next(Fs(fs.dirs + {FolderPath(settings, shot)}, fs.files + {CopyTarget(fs, settings, file, shot, ext)}))
  }

  /** The whole batch, in list order; the flag is the value returned. */
  function ImportAll(fs: Fs, settings: Settings, files: seq<string>, lookup: string -> Metadata): (Fs, bool)
    decreases |files|
  {
    if files == [] then (fs, true)
    else
      match ImportFile(fs, settings, files[0], lookup)
      case Abort => (fs, false)
      case Next(fs') => ImportAll(fs', settings, files[1..], lookup)
  }

  /** The number of files processed before the first missing source file
      (all of them when none is missing). */
  function FirstMissing(settings: Settings, files: seq<string>, lookup: string -> Metadata): (k: nat)
    ensures k <= |files|
    ensures forall i :: 0 <= i < k ==> !lookup(SourcePath(settings, files[i])).NotFound?
    ensures k < |files| ==> lookup(SourcePath(settings, files[k])).NotFound?
  {
    if files == [] || lookup(SourcePath(settings, files[0])).NotFound? then 0
    else 1 + FirstMissing(settings, files[1..], lookup)
  }

  /** How many files of the list have a successful lookup. */
  function OkCount(settings: Settings, files: seq<string>, lookup: string -> Metadata): nat
  {
    if files == [] then 0
    else (if lookup(SourcePath(settings, files[0])).Ok? then 1 else 0) + OkCount(settings, files[1..], lookup)
  }

  /** The dated folders of the files of the list with a successful lookup. */
  ghost function DatedFolders(settings: Settings, files: seq<string>, lookup: string -> Metadata): set<string>
  {
    set i | 0 <= i < |files| && lookup(SourcePath(settings, files[i])).Ok? ::
      FolderPath(settings, lookup(SourcePath(settings, files[i])).shot)
  }

  /** One file: a skipped file changes nothing; a missing one aborts; a
      successful one gets its dated folder and exactly one new file, inside
      that folder, at a path that did not exist before, and nothing that
      existed is removed. */
  lemma ImportFileEffect(fs: Fs, settings: Settings, file: string, lookup: string -> Metadata)
    ensures ImportFile(fs, settings, file, lookup).Abort? <==> lookup(SourcePath(settings, file)).NotFound?
    ensures lookup(SourcePath(settings, file)).NoDate? || lookup(SourcePath(settings, file)).Unidentified? ==>
      ImportFile(fs, settings, file, lookup) == Next(fs)
    ensures lookup(SourcePath(settings, file)).Ok? ==>
      var meta := lookup(SourcePath(settings, file));
      var folder := FolderPath(settings, meta.shot);
      var target := CopyTarget(fs, settings, file, meta.shot, meta.format);
      var after := ImportFile(fs, settings, file, lookup);
      after.Next? && after.fs.dirs == fs.dirs + {folder} &&
      target !in fs.files && after.fs.files == fs.files + {target} &&
      |after.fs.files| == |fs.files| + 1 &&
      target[..|folder| + 1] == folder + "/"
  {
    var meta := lookup(SourcePath(settings, file));
    if meta.Ok? {
      var folder := FolderPath(settings, meta.shot);
      var stem := UniqueStem(fs.files, folder, CandidateStem(file, meta.shot, settings.renameToDate), meta.format);
      UniqueStemIsFree(fs.files, folder, CandidateStem(file, meta.shot, settings.renameToDate), meta.format);
      assert TargetPath(folder, stem, meta.format) == (folder + "/") + (stem + "." + meta.format);
    }
  }

  /** The batch returns `True` exactly when no file of the list is missing. */
  lemma {:induction false} ImportAllSucceedsIff(fs: Fs, settings: Settings, files: seq<string>, lookup: string -> Metadata)
    ensures ImportAll(fs, settings, files, lookup).1 <==>
      forall i :: 0 <= i < |files| ==> !lookup(SourcePath(settings, files[i])).NotFound?
    decreases |files|
  {
    if files != [] {
      var step := ImportFile(fs, settings, files[0], lookup);
      if step.Next? {
        ImportAllSucceedsIff(step.fs, settings, files[1..], lookup);
        assert forall i :: 1 <= i < |files| ==> files[i] == files[1..][i - 1];
      }
    }
  }

  /** The abort policy: at the first missing file the batch returns `False`
      with the state left by the files before it; no later file is touched. */
  lemma {:induction false} ImportAllStopsAtFirstMissing(fs: Fs, settings: Settings, files: seq<string>,
                                                         lookup: string -> Metadata, k: nat)
    requires k < |files|
    requires lookup(SourcePath(settings, files[k])).NotFound?
    requires forall i :: 0 <= i < k ==> !lookup(SourcePath(settings, files[i])).NotFound?
    ensures ImportAll(fs, settings, files, lookup) == (ImportAll(fs, settings, files[..k], lookup).0, false)
    decreases k
  {
    if k > 0 {
      var step := ImportFile(fs, settings, files[0], lookup);
      assert step.Next?;
      assert files[..k][1..] == files[1..][..k - 1];
      ImportAllStopsAtFirstMissing(step.fs, settings, files[1..], lookup, k - 1);
    }
  }

  /** Nothing that existed before the batch is removed. */
  lemma {:induction false} ImportAllKeepsExisting(fs: Fs, settings: Settings, files: seq<string>, lookup: string -> Metadata)
    ensures fs.dirs <= ImportAll(fs, settings, files, lookup).0.dirs
    ensures fs.files <= ImportAll(fs, settings, files, lookup).0.files
    decreases |files|
  {
    if files != [] {
      var step := ImportFile(fs, settings, files[0], lookup);
      if step.Next? {
        ImportAllKeepsExisting(step.fs, settings, files[1..], lookup);
      }
    }
  }

  /** No copy overwrites: every successful file processed before the first
      missing one adds one path that did not exist, so the number of files
      grows by exactly their count. */
  lemma {:induction false} ImportAllNeverOverwrites(fs: Fs, settings: Settings, files: seq<string>, lookup: string -> Metadata)
    ensures var k := FirstMissing(settings, files, lookup);
      |ImportAll(fs, settings, files, lookup).0.files| == |fs.files| + OkCount(settings, files[..k], lookup)
    decreases |files|
  {
    if files != [] {
      var step := ImportFile(fs, settings, files[0], lookup);
      ImportFileEffect(fs, settings, files[0], lookup);
      if step.Next? {
        var k := FirstMissing(settings, files, lookup);
        assert files[..k][1..] == files[1..][..k - 1];
        ImportAllNeverOverwrites(step.fs, settings, files[1..], lookup);
      }
    }
  }

  lemma DatedFoldersCons(settings: Settings, files: seq<string>, lookup: string -> Metadata)
    requires files != []
    ensures var meta := lookup(SourcePath(settings, files[0]));
      DatedFolders(settings, files, lookup) ==
        (if meta.Ok? then {FolderPath(settings, meta.shot)} else {}) + DatedFolders(settings, files[1..], lookup)
  {
    var meta := lookup(SourcePath(settings, files[0]));
    var head: set<string> := if meta.Ok? then {FolderPath(settings, meta.shot)} else {};
    var rest := files[1..];
    forall d | d in DatedFolders(settings, files, lookup)
      ensures d in head + DatedFolders(settings, rest, lookup)
    {
      var i :| 0 <= i < |files| && lookup(SourcePath(settings, files[i])).Ok? &&
        d == FolderPath(settings, lookup(SourcePath(settings, files[i])).shot);
      if i > 0 {
        assert files[i] == rest[i - 1];
      }
    }
    forall d | d in DatedFolders(settings, rest, lookup)
      ensures d in DatedFolders(settings, files, lookup)
    {
      var i :| 0 <= i < |rest| && lookup(SourcePath(settings, rest[i])).Ok? &&
        d == FolderPath(settings, lookup(SourcePath(settings, rest[i])).shot);
      assert rest[i] == files[i + 1];
    }
  }

  /** The directories after the batch are those before plus the dated
      folder of every successful file processed before the first missing
      one: each such folder exists afterwards and no other is created. */
  lemma {:induction false} ImportAllFolders(fs: Fs, settings: Settings, files: seq<string>, lookup: string -> Metadata)
    ensures var k := FirstMissing(settings, files, lookup);
      ImportAll(fs, settings, files, lookup).0.dirs == fs.dirs + DatedFolders(settings, files[..k], lookup)
    decreases |files|
  {
    var k := FirstMissing(settings, files, lookup);
    if files == [] {
      assert DatedFolders(settings, files[..k], lookup) == {};
    } else {
      var step := ImportFile(fs, settings, files[0], lookup);
      if step.Next? {
        assert files[..k][1..] == files[1..][..k - 1];
        ImportAllFolders(step.fs, settings, files[1..], lookup);
        DatedFoldersCons(settings, files[..k], lookup);
      } else {
        assert DatedFolders(settings, files[..k], lookup) == {};
      }
    }
  }

  /** Importing the same file twice into the same place keeps the first
      copy and puts the second under the `_1` suffix. */
  lemma ReimportUsesFirstSuffix(fs: Fs, settings: Settings, file: string, lookup: string -> Metadata)
    requires lookup(SourcePath(settings, file)).Ok?
    requires var meta := lookup(SourcePath(settings, file));
      var folder := FolderPath(settings, meta.shot);
      var stem := CandidateStem(file, meta.shot, settings.renameToDate);
      TargetPath(folder, stem, meta.format) !in fs.files &&
      TargetPath(folder, stem + "_" + NatToDecimal(1), meta.format) !in fs.files
    ensures var meta := lookup(SourcePath(settings, file));
      var folder := FolderPath(settings, meta.shot);
      var stem := CandidateStem(file, meta.shot, settings.renameToDate);
      var once := ImportAll(fs, settings, [file], lookup);
      var twice := ImportAll(once.0, settings, [file], lookup);
      once.1 && twice.1 &&
      twice.0.files == fs.files + {TargetPath(folder, stem, meta.format), TargetPath(folder, stem + "_1", meta.format)}
  {
    var meta := lookup(SourcePath(settings, file));
    var folder := FolderPath(settings, meta.shot);
    var stem := CandidateStem(file, meta.shot, settings.renameToDate);
    var first := TargetPath(folder, stem, meta.format);
    UniqueStemKeepsFreeName(fs.files, folder, stem, meta.format);
    assert CopyTarget(fs, settings, file, meta.shot, meta.format) == first;
    var fs1 := Fs(fs.dirs + {folder}, fs.files + {first});
    assert ImportFile(fs, settings, file, lookup) == Next(fs1);
    assert [file][0] == file && [file][1..] == [];
    assert ImportAll(fs, settings, [file], lookup) == (fs1, true);
    assert NatToDecimal(1) == "1";
    UniqueStemMinimalSuffix(fs1.files, folder, stem, meta.format, 1);
    var second := TargetPath(folder, stem + "_1", meta.format);
    assert CopyTarget(fs1, settings, file, meta.shot, meta.format) == second;
    assert ImportFile(fs1, settings, file, lookup) == Next(Fs(fs1.dirs + {folder}, fs1.files + {second}));
  }

  /** A lookup where `src/a.jpg` was shot on 2023-05-07 at 10:02:09 as a
      JPEG and every other path has no capture date. */
  function ExampleLookup(path: string): Metadata
  {
    if path == "src/a.jpg" then Ok(Timestamp(2023, 5, 7, 10, 2, 9), "JPEG") else NoDate
  }

  /** `a.jpg` goes to `2023_5_7` under the format tag as extension, as
      `a.JPEG`; `b.jpg` is skipped; the batch succeeds. */
  lemma ImportExample()
    ensures ImportAll(Fs({}, {}), Settings("src", "dest", "", false), ["a.jpg", "b.jpg"], ExampleLookup) ==
      (Fs({"dest/2023_5_7"}, {"dest/2023_5_7/a.JPEG"}), true)
  {
    var stem := CandidateStem("a.jpg", Timestamp(2023, 5, 7, 10, 2, 9), false);
    assert stem == "a" by { StemExamples(); }
    assert "dest/2023_5_7/" + stem + ".JPEG" == "dest/2023_5_7/a.JPEG";
    ExampleRun(false, "dest/2023_5_7/a.JPEG");
  }

  /** The same batch renaming to the date: the copy is `202357_1029.JPEG`. */
  lemma ImportExampleRenamed()
    ensures ImportAll(Fs({}, {}), Settings("src", "dest", "", true), ["a.jpg", "b.jpg"], ExampleLookup) ==
      (Fs({"dest/2023_5_7"}, {"dest/2023_5_7/202357_1029.JPEG"}), true)
  {
    var stem := CandidateStem("a.jpg", Timestamp(2023, 5, 7, 10, 2, 9), true);
    assert stem == "202357_1029" by { NamingExample(); }
    assert "dest/2023_5_7/" + stem + ".JPEG" == "dest/2023_5_7/202357_1029.JPEG";
    ExampleRun(true, "dest/2023_5_7/202357_1029.JPEG");
  }

  lemma ExampleRun(renameToDate: bool, copied: string)
    requires copied == "dest/2023_5_7/" + CandidateStem("a.jpg", Timestamp(2023, 5, 7, 10, 2, 9), renameToDate) + ".JPEG"
    ensures ImportAll(Fs({}, {}), Settings("src", "dest", "", renameToDate), ["a.jpg", "b.jpg"], ExampleLookup) ==
      (Fs({"dest/2023_5_7"}, {copied}), true)
  {
    var settings := Settings("src", "dest", "", renameToDate);
    var fs1 := Fs({"dest/2023_5_7"}, {copied});
    ExampleFirstFile(settings, Timestamp(2023, 5, 7, 10, 2, 9), copied);
    ExampleSecondFile(settings, fs1);
    TwoFileBatch(Fs({}, {}), settings, "a.jpg", "b.jpg", ExampleLookup, fs1);
  }

  lemma ExampleFirstFile(settings: Settings, shot: Timestamp, copied: string)
    requires settings.sourceDir == "src" && settings.destDir == "dest" && settings.description == ""
    requires shot == Timestamp(2023, 5, 7, 10, 2, 9)
    requires copied == "dest/2023_5_7/" + CandidateStem("a.jpg", shot, settings.renameToDate) + ".JPEG"
    ensures ImportFile(Fs({}, {}), settings, "a.jpg", ExampleLookup) == Next(Fs({"dest/2023_5_7"}, {copied}))
  {
    assert SourcePath(settings, "a.jpg") == "src/a.jpg";
    assert FolderPath(settings, shot) == "dest/2023_5_7" by {
      NamingExample();
    }
    var stem := CandidateStem("a.jpg", shot, settings.renameToDate);
    assert TargetPath("dest/2023_5_7", stem, "JPEG") == copied;
    FirstCopyIntoEmpty(settings, "a.jpg", ExampleLookup, shot, "JPEG");
  }

  /** Into an empty file system, a successful file keeps its candidate stem. */
  lemma FirstCopyIntoEmpty(settings: Settings, file: string, lookup: string -> Metadata, shot: Timestamp, ext: string)
    requires lookup(SourcePath(settings, file)) == Ok(shot, ext)
    ensures var folder := FolderPath(settings, shot);
      ImportFile(Fs({}, {}), settings, file, lookup) ==
        Next(Fs({folder}, {TargetPath(folder, CandidateStem(file, shot, settings.renameToDate), ext)}))
  {
  }

  lemma ExampleSecondFile(settings: Settings, fs: Fs)
    requires settings.sourceDir == "src"
    ensures ImportFile(fs, settings, "b.jpg", ExampleLookup) == Next(fs)
  {
    assert SourcePath(settings, "b.jpg") == "src/b.jpg";
    assert "src/b.jpg" != "src/a.jpg" by { assert "src/b.jpg"[4] != "src/a.jpg"[4]; }
  }

  lemma TwoFileBatch(fs: Fs, settings: Settings, first: string, second: string, lookup: string -> Metadata, after: Fs)
    requires ImportFile(fs, settings, first, lookup) == Next(after)
    requires ImportFile(after, settings, second, lookup) == Next(after)
    ensures ImportAll(fs, settings, [first, second], lookup) == (after, true)
  {
    var files := [first, second];
    assert files[0] == first && files[1..] == [second];
    assert [second][0] == second && [second][1..] == [];
    assert ImportAll(after, settings, [], lookup) == (after, true);
    assert ImportAll(after, settings, [second], lookup) == (after, true);
  }

  // ---------------------------------------------------------------------
  // The file system and the two operations that work on it

  /** The file-system state the importer reads and changes. */
  class FileSystem {
    var dirs: set<string>
    var files: set<string>

    constructor (dirs0: set<string>, files0: set<string>)
      ensures dirs == dirs0 && files == files0
    {
      dirs := dirs0;
      files := files0;
    }

    function State(): Fs
      reads this
    {
      Fs(dirs, files)
    }

    /** `os.path.isfile` */
    predicate IsFile(path: string)
      reads this
    {
      path in files
    }

    /** `os.path.isdir` */
    predicate IsDir(path: string)
      reads this
    {
      path in dirs
    }

    /** `os.makedirs`: the directory exists afterwards. */
    method MakeDirs(path: string)
      modifies this
      ensures dirs == old(dirs) + {path} && files == old(files)
    {
      dirs := dirs + {path};
    }

    /** `shutil.copy2`: a file exists at `dst` afterwards. */
    method Copy2(src: string, dst: string)
      modifies this
      ensures files == old(files) + {dst} && dirs == old(dirs)
    {
      files := files + {dst};
    }

    /** `ensure_unique`: probes `name.ext`, then `name_1.ext`, `name_2.ext`,
        ... in `destDir` and returns the first stem whose file is free. */
    method EnsureUnique(imgName: string, imgExtension: string, destDir: string) returns (r: string)
      ensures r == UniqueStem(files, destDir, imgName, imgExtension)
      ensures TargetPath(destDir, r, imgExtension) !in files
    {
      var fullPath := Join(destDir, imgName);
      if IsFile(fullPath + "." + imgExtension) {
        var counter: nat := 1;
        ghost var remaining := files;
        while IsFile(ProbePath(fullPath, counter, imgExtension))
          invariant remaining <= files
          invariant forall j :: counter <= j ==>
            (ProbePath(fullPath, j, imgExtension) in files <==> ProbePath(fullPath, j, imgExtension) in remaining)
          invariant FreeCounter(remaining, fullPath, imgExtension, counter) == FreeCounter(files, fullPath, imgExtension, 1)
          decreases |remaining|
        {
          var probe := ProbePath(fullPath, counter, imgExtension);
          forall j | counter + 1 <= j
            ensures ProbePath(fullPath, j, imgExtension) != probe
          {
            if ProbePath(fullPath, j, imgExtension) == probe {
              ProbeInjective(fullPath, imgExtension, j, counter);
            }
          }
          remaining := remaining - {probe};
          counter := counter + 1;
        }
        r := imgName + "_" + NatToDecimal(counter);
      } else {
        r := imgName;
      }
      UniqueStemIsFree(files, destDir, imgName, imgExtension);
    }

    /** `import_images`: the batch loop. The new state and the result are
        exactly those of `ImportAll`; the lemmas about `ImportAll` give the
        properties restated below. */
    method ImportImages(sourceDir: string, destDir: string, fileNames: seq<string>,
                        folderDescription: string, renameToDate: bool, lookup: string -> Metadata)
      returns (ok: bool)
      modifies this
      ensures (State(), ok) == ImportAll(old(State()), Settings(sourceDir, destDir, folderDescription, renameToDate), fileNames, lookup)
      ensures ok <==> forall i :: 0 <= i < |fileNames| ==> !lookup(Join(sourceDir, fileNames[i])).NotFound?
      ensures old(files) <= files && old(dirs) <= dirs
    {
      ghost var start := State();
      var settings := Settings(sourceDir, destDir, folderDescription, renameToDate);
      for i := 0 to |fileNames|
        invariant ImportAll(start, settings, fileNames, lookup) == ImportAll(State(), settings, fileNames[i..], lookup)
        invariant start.files <= files && start.dirs <= dirs
      {
        var file := fileNames[i];
        assert fileNames[i..][0] == file && fileNames[i..][1..] == fileNames[i + 1..];
        var srcPath := Join(sourceDir, file);
        match lookup(srcPath) {
          case NoDate =>
            continue;
          case Unidentified =>
            continue;
          case NotFound =>
            ok := false;
            ImportAllSucceedsIff(start, settings, fileNames, lookup);
            return;
          case Ok(dateShot, extension) =>
            ghost var before := State();
            var folderName := Join(destDir, DirName(dateShot, folderDescription));
            if !IsDir(folderName) {
              MakeDirs(folderName);
            }
            var newName;
            if renameToDate {
              newName := DateName(dateShot);
            } else {
              var decimalPosition := Find(file, '.');
              newName := PrefixSlice(file, decimalPosition);
            }
            newName := EnsureUnique(newName, extension, folderName);
            newName := newName + "." + extension;
            var newPath := Join(folderName, newName);
            assert newPath == CopyTarget(before, settings, file, dateShot, extension);
            Copy2(srcPath, newPath);
            assert ImportFile(before, settings, file, lookup) == Next(State());
        }
      }
      assert fileNames[|fileNames|..] == [];
      ok := true;
      ImportAllSucceedsIff(start, settings, fileNames, lookup);
    }
  }
}
