# Photo importer: a Dafny model of the import pipeline

PhotoTransferrer copies a batch of images from a source directory into a
destination tree. For each file it reads the capture timestamp and the format
tag from the image metadata. It puts the file in a folder named after the
capture date (`{year}_{month}_{day}`, plus `-{description}` when one is
given). It keeps the file's own stem or, on request, renames it to the capture
date (`{y}{m}{d}_{h}{mi}{s}`). The file takes the format tag as its
extension. If the name is already taken, it picks the first free `_1`, `_2`, …
suffix. A file with no capture date, or one that is not an image, is skipped.
A missing source file stops the batch, which then returns `False`.

The model has three modules:

- `Decimal` renders a natural number the way Python's f-strings do: unpadded
  decimal. It proves that reading the number back gives the original value,
  so a rendered number followed by a non-digit can always be split off again.
- `Naming` covers the folder name (`get_dir_name`), the date name
  (`get_image_date_name`) and the `file[:file.find('.')]` stem rule.
- `Importer` contains:
  - the reference definitions `UniqueStem` (for `ensure_unique`),
    `ImportFile` (one iteration of the loop) and `ImportAll` (the batch);
  - the lemmas about them;
  - the class `FileSystem`, which holds the directories and regular files as
    two sets of paths. Its method `EnsureUnique` runs the probing `while`
    loop. Its method `ImportImages` runs the batch `for` loop, with `continue`
    for skipped files and an early return for a missing one. Both are proved
    equal to the reference definitions.

Inputs from outside the program are parameters of the model:

- The metadata lookup is a total function from a source path to
  `Ok(timestamp, formatTag) | NoDate | Unidentified | NotFound`. The format
  tag only comes with a successful date lookup, as in the source, where the
  second lookup runs only after the first has succeeded. A failure of either
  lookup lands in one of the same three cases.
- `os.path.isfile` and `os.path.isdir` are membership tests on the two sets.
- `os.makedirs` adds the folder to the directories.
- `shutil.copy2` adds the destination path to the files.
- `os.path.join` is concatenation with `/`.

Where the written description of the system and the code differ, the model
follows the code:

- **The date name.** The description's example gives `20235_7_1029` for
  2023-05-07 10:02:09. The code gives `202357_1029` (`Naming.NamingExample`).
- **The extension.** The description's example says the folder ends up with
  `a.jpg`. The code takes the extension from the format tag, so the file is
  `a.JPEG` (`Importer.ImportExample`).

## Model

| member | source | states |
|---|---|---|
| `Decimal.NatToDecimal` | Utils/Importer.py:14 | an f-string number is a non-empty string of digits, with a leading `0` only for zero and one character exactly below ten |
| `Decimal.DecimalRoundTrip` | Utils/Importer.py:14 | reading the decimal rendering back gives the number, so no padding or loss happens |
| `Decimal.NatToDecimalInjective` | Utils/Importer.py:14 | distinct numbers render differently |
| `Decimal.DecimalPrefixCancel` | Utils/Importer.py:14-17 | a rendered number followed by a non-digit, or by nothing, splits off uniquely: both the number and the rest are determined |
| `Naming.DirNameFormat` | Utils/Importer.py:14-18 | the bare folder name contains only digits and exactly two `_` and no `-`; the name differs from the bare one if and only if the description is non-empty, and then it is the bare name, `-` and the description |
| `Naming.DirNameInjective` | Utils/Importer.py:14-18 | equal folder names mean equal year, month and day and equal descriptions |
| `Naming.DateNameFormat` | Utils/Importer.py:27 | the date name contains exactly one `_`, right after the year, month and day digits; every other character is a digit |
| `Naming.DateNameNotInjective` | Utils/Importer.py:21-27 | without padding, 2023-01-11 and 2023-11-01 at the same time give the same date name |
| `Naming.NamingExample` | Utils/Importer.py:14-27 | 2023-05-07 10:02:09 gives folder `2023_5_7` (with a description, `2023_5_7-Holiday`) and date name `202357_1029` |
| `Naming.Find` | Utils/Importer.py:88 | `str.find` returns -1 exactly when the character is absent; otherwise it returns the index of its first occurrence |
| `Naming.StemBeforeFirstDot` | Utils/Importer.py:88-89 | for a name with a dot, the stem is the prefix up to, but not including, the first dot, and contains no dot |
| `Naming.StemWithoutDot` | Utils/Importer.py:88-89 | for a name with no dot, the slice `file[:-1]` drops the last character; an empty name gives an empty stem |
| `Naming.StemExamples` | Utils/Importer.py:88-89 | `a.jpg` gives the stem `a`, and `img` gives `im` |
| `Importer.ProbeInjective` | Utils/Importer.py:41 | different counters probe different paths |
| `Importer.FreeCounterLeast` | Utils/Importer.py:40-42 | the probe loop started at `k` stops at the least counter `r >= k` whose probe is free, after at most as many hits as there are files, so it terminates |
| `Importer.UniqueStemIsFree` | Utils/Importer.py:30-45 | the folder holds no file at the returned stem plus `.` plus the extension |
| `Importer.UniqueStemKeepsFreeName` | Utils/Importer.py:38-45 | when `name.ext` is absent, the name is returned unchanged |
| `Importer.UniqueStemMinimalSuffix` | Utils/Importer.py:39-43 | when `name.ext` is present, and `name_1.ext` to `name_{k-1}.ext` are present while `name_k.ext` is absent, the result is `name_k` |
| `Importer.FileSystem.EnsureUnique` | Utils/Importer.py:30-45 | the probing loop returns the stem that `UniqueStem` gives for the current files, and that stem is free |
| `Importer.FirstMissing` | Utils/Importer.py:59-75 | the index of the first file whose lookup is `NotFound`, or the whole length; no earlier file is missing |
| `Importer.ImportFileEffect` | Utils/Importer.py:59-96 | for one file: the step aborts exactly on `NotFound`; `NoDate` and `Unidentified` leave the state unchanged; on `Ok`, the dated folder is added, and exactly one new path is added to the files, inside that folder and absent before |
| `Importer.ImportAllSucceedsIff` | Utils/Importer.py:59-97 | the batch returns `True` if and only if no file of the list has a `NotFound` lookup |
| `Importer.ImportAllStopsAtFirstMissing` | Utils/Importer.py:73-75 | at the first missing file the batch returns `False`, with exactly the state the files before it produce; no later file is touched |
| `Importer.ImportAllKeepsExisting` | Utils/Importer.py:79-96 | no directory and no file that existed before the batch is removed |
| `Importer.ImportAllNeverOverwrites` | Utils/Importer.py:90-96 | the number of files grows by exactly the number of successful lookups before the first missing file, so no copy lands on an existing path |
| `Importer.ImportAllFolders` | Utils/Importer.py:79-82 | afterwards, the directories are the old ones plus the dated folder of each successful file before the first missing one |
| `Importer.ReimportUsesFirstSuffix` | Utils/Importer.py:90-96 | importing the same file twice keeps the first copy and puts the second under `_1` |
| `Importer.ImportExample` | Utils/Importer.py:59-97 | `[a.jpg, b.jpg]`, where `a.jpg` was shot 2023-05-07 10:02:09 as JPEG and `b.jpg` has no date, creates `2023_5_7` holding `a.JPEG` only, and returns `True` |
| `Importer.ImportExampleRenamed` | Utils/Importer.py:83-85 | the same batch with renaming produces `2023_5_7/202357_1029.JPEG` |
| `Importer.FileSystem.MakeDirs` | Utils/Importer.py:81-82 | the folder is a directory afterwards, and the files are unchanged |
| `Importer.FileSystem.Copy2` | Utils/Importer.py:96 | exactly the destination path is added to the files, and the directories are unchanged |
| `Importer.FileSystem.ImportImages` | Utils/Importer.py:48-97 | the loop leaves the file system and returns the flag exactly as `ImportAll` gives them; it returns `True` iff no lookup is `NotFound`; nothing that existed is removed |

## Left out

- `Utils/Exif.py` is not part of this model. It wraps PIL's metadata reading and `datetime.strptime`. The lookup it provides is a parameter of the model, as described above.
- The `ValueError` that `strptime` raises on a malformed date string is not caught by the importer. It is not modelled.
- The lookup is fixed for the whole call. A change that copying makes to a later source path is not reflected. This can only happen when the destination tree overlaps the source directory.
- Exceptions from `os.makedirs` and `shutil.copy2` (permissions, a full disk, a regular file where the folder should be) are not handled by the code and are not modelled.
- MakeDirs: adds only the dated folder itself. The missing parent directories that `os.makedirs` also creates are not added.
- Copy2: adds the destination path as a file. If that path is an existing directory, `os.path.isfile` does not see it, and `shutil.copy2` would place the file inside that directory instead. That case is not modelled. File contents and the metadata that `copy2` preserves are not modelled either.
- Absolute second arguments and trailing separators in `os.path.join` are not modelled. A join is always `dir + "/" + name`.
- The `print` messages are presentational only.
- The range limits of `datetime`, such as months 1 to 12, are not modelled. Timestamp fields are natural numbers. No property depends on the limits.
- A `None` format tag from PIL is not modelled. The format tag is always a string.
- The check-then-act race between probing a name and copying under concurrent use is not modelled. The code is strictly sequential.
