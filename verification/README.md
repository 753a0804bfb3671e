# File organiser — a Dafny model

The repository is a small desktop utility. It looks at the top level of one
folder, maps every regular file to a category by its extension (Images,
Documents, PDFs, Videos, Audio, Archives, or the fallback Other), and moves
the file into a sub-folder of that name.
- If a file of the same name is already there, the file is renamed to
  `base (n)ext` using the least free counter `n`.
- A dry run only reports what would happen.
- A real run first creates the category folders, then counts the files it
  moves per category.

The logic exists twice, in `file_organizer/cli.py` and in the older script
`file_organizer.py`. The two share one model.

The modules follow the structure of the program:

- `Strings` (strings.dfy) covers three helpers:
  - ASCII lower-casing, the part of `str.lower` that file extensions use;
  - `str.rfind` of a single character;
  - decimal rendering of the counter in `f"{base} ({n}){ext}"`, with a parser that proves the rendering can be read back unambiguously.
- `PathName` (pathname.dfy) models `os.path.splitext` on one path component:
  - the extension runs from the last dot;
  - the extension is empty when the name has no dot, or when every character before the last dot is itself a dot (`.bashrc`).
- `Classifier` (classifier.dfy) models `get_category`. The category table is an ordered list of rows, in the dictionary's definition order. The lookup takes the first row, other than "Other", whose list holds the lower-cased extension, and otherwise answers "Other". `DefaultTable` is the built-in table.
- `Collision` (collision.dfy) models the probe loop that picks a destination name that is not in use:
  - `Resolve` is the functional definition and `ResolveDestination` is the loop as written;
  - the probe is proved to terminate, because a counter with more digits than the longest name in the folder is always free.
- `Organizer` (organizer.dfy) models the run.
  - The target folder is a map from top-level names to entries. An entry is a regular file, or a directory together with the set of names it holds.
  - Real mode first creates the missing category folders.
  - The listing is taken once and the run folds over it:
    - a dry run only collects plans;
    - a real run moves each regular file into its category folder under the resolved name and raises that category's counter.
  - `RunCli` adds the command-line check on the target path: missing, or not a directory.
- `Scenarios` (scenarios.dfy) holds worked examples on the built-in table:
  - the classification of `Photo.JPG`, `.bashrc` and `c.xyz`;
  - the numbered renaming of `report.txt`;
  - the dry-run preview suggesting one destination twice where the real run would not.

## Extension rule

A naive rule takes the substring from the last dot as the extension.
`os.path.splitext`, which the code calls, does not treat a leading dot as
the start of an extension. The model follows `os.path.splitext`:
- `.bashrc` has no extension and is classified as Other;
- `..x` has no extension either;
- `archive.tar.gz` has the extension `.gz`.

## Model

| member | source | states |
|---|---|---|
| Strings.Lower | file_organizer/cli.py:44 | lower-casing keeps the length, maps each character by itself, and leaves no upper-case ASCII letter |
| Strings.LowerIdempotent | file_organizer/cli.py:44 | lower-casing an already lower-cased extension changes nothing |
| Strings.RFind | file_organizer/cli.py:43 | the index found holds the character and no later index does, or -1 when the string does not hold it at all |
| Strings.DecimalRoundTrip | file_organizer/cli.py:142 | the counter rendered inside the new name reads back as the same counter |
| PathName.SplitExt | file_organizer/cli.py:43 | root and extension concatenate to the name; a non-empty extension starts with its only dot; the extension is non-empty exactly when some dot follows a character that is not a dot |
| PathName.SplitExtUnique | file_organizer/cli.py:139 | those three conditions determine the base and extension the renaming uses, so any split that meets them is the split |
| PathName.SplitAtLastDot | file_organizer/cli.py:43 | a name that does not start with a dot, followed by a dot-led suffix with no other dot, splits into exactly that root and that suffix |
| PathName.SplitExtLower | file_organizer/cli.py:43-44 | splitting a lower-cased name gives the lower-cased root and extension, so lower-casing before or after the split agrees |
| Classifier.FirstClaim | file_organizer/cli.py:45-49 | the row found claims the extension and no earlier row does; no row is found exactly when no row claims it |
| Classifier.Classify | file_organizer/cli.py:41-50 | the result is "Other" or a table key; it is "Other" exactly when no non-fallback row lists the extension; otherwise it is the first such row in table order |
| Classifier.ClassifyOwner | file_organizer.py:50-54 | in a table whose rows never share an extension, a file whose extension is listed goes to the row that lists it |
| Classifier.FallbackListIgnored | file_organizer/cli.py:46-47 | the fallback row's own list never influences the result |
| Classifier.ClassifyCaseInsensitive | file_organizer/cli.py:43-44 | two names equal up to ASCII case get the same category |
| Classifier.NoExtensionIsOther | file_organizer/cli.py:50 | a name without an extension (no dot, or only leading dots) is "Other" when no row lists the empty extension |
| Classifier.DefaultTableWellFormed | file_organizer/cli.py:110-118 | the built-in table has distinct category names and ends with the fallback row "Other", whose list is empty |
| Collision.CandidateInjective | file_organizer/cli.py:142 | different counters give different candidate names, so each probe asks about a new name |
| Collision.LongCandidateFresh | file_organizer/cli.py:141-146 | a counter with more digits than the longest existing name gives a free name, which bounds the loop |
| Collision.Probe | file_organizer/cli.py:140-146 | the counter found is free and every counter from 1 below it is taken |
| Collision.ProbeLeast | file_organizer.py:78-84 | a free counter whose smaller counters are all taken is exactly the counter the probe returns, so the chosen counter is the least free one |
| Collision.Resolve | file_organizer/cli.py:136-146 | the destination is never already present; it is the name itself exactly when that name is free; otherwise it is a numbered candidate whose smaller counters are all taken |
| Collision.ResolveDestination | file_organizer.py:74-84 | the probe loop computes the resolved name, and it renames exactly when the original name is taken |
| Organizer.MakeCategoryDirs | file_organizer/cli.py:123-127 | the folder afterwards has its old entries unchanged plus an empty directory for each category that was missing, and nothing else |
| Organizer.MakeCategoryDirsIdempotent | file_organizer.py:59-63 | creating the category folders a second time changes nothing |
| Organizer.MakeCategoryDirsReady | file_organizer/cli.py:120-127 | after creation every category folder exists, every counter starts at zero, and no regular file was touched |
| Organizer.ZeroSummary | file_organizer/cli.py:120 | the summary has a key for exactly the categories, each at zero |
| Organizer.Plan | file_organizer/cli.py:135-146 | the planned destination is free in the category folder, and the plan is a rename exactly when the name was taken there |
| Organizer.Move | file_organizer/cli.py:158-159 | the category folder gains exactly the destination, the source leaves the top level, every other entry is unchanged, and only the category's counter goes up, by one |
| Organizer.Step | file_organizer/cli.py:132-167 | an entry that is not a regular file is skipped; a dry step changes neither the folder nor the summary; a real step performs the move and never overwrites; no other regular file appears or disappears |
| Organizer.RunFrom | file_organizer.py:70-101 | the loop keeps the category folders and the summary keys in place throughout the run |
| Organizer.Organize | file_organizer/cli.py:110-169 | the summary of a run has a counter for exactly the table's categories |
| Organizer.RunCli | file_organizer/cli.py:101-108 | the target is checked before the run starts: a missing target aborts with "does not exist" and a target that is not a directory aborts with "not a directory", so neither reaches folder creation or any move; only a directory is organised |
| Organizer.PreviewsFaithful | file_organizer/cli.py:147-156 | the preview holds one plan per listed regular file, in listing order: the i-th plan is for the i-th listed regular file, and every listed regular file has a plan; each plan is classified by the file's own name and resolved against the unchanged folder |
| Organizer.RegularFiles | file_organizer/cli.py:132-134 | the names the loop acts on are exactly the listed names that are regular files, as many as there are such names |
| Organizer.DryRunFrom | file_organizer.py:85-92 | the dry loop leaves the folder and the summary as they were and appends exactly the previews |
| Organizer.DryRunChangesNothing | file_organizer/cli.py:120-156 | a dry run creates no folder, moves nothing, leaves every counter at zero, and reports the previews made against the initial folder |
| Organizer.StepCounts | file_organizer/cli.py:158-159 | one real step adds the file to the folder of its own category and to no other, and raises only that counter |
| Organizer.StepTotal | file_organizer.py:94-95 | one real step raises the total by one exactly when the listed entry is a regular file |
| Organizer.RealRunFromCounts | file_organizer.py:95 | each counter grows by the number of listed regular files classified into its category, and that folder gains exactly that many new names |
| Organizer.RealRunFromFiles | file_organizer.py:94 | after a real loop the regular files at the top level are exactly the ones that were there and were not listed |
| Organizer.RealRunFromKeepsDirs | file_organizer/cli.py:132-134 | a directory that is not a category folder is left exactly as it was |
| Organizer.RealRunMovesEveryFile | file_organizer/cli.py:132-159 | after a real run each counter equals the number of regular files of its category; each category folder keeps what it had and gains that many names; no regular file is left at the top level |
| Organizer.RealRunTotal | file_organizer/cli.py:169 | the total reported as moved equals the number of regular files in the listing |
| Organizer.MissingFolderRealRun | file_organizer.py:59-63 | a real run of the script on a folder that does not exist creates it with its category folders, moves nothing, and leaves every counter at zero |
| Scenarios.ClassifyImages | file_organizer/cli.py:43-44 | `Photo.JPG` and `photo.jpg` both go to Images |
| Scenarios.SplitExamples | file_organizer/cli.py:43 | `Photo.JPG` splits into `Photo` and `.JPG`, keeping the case, and `archive.tar.gz` has the extension `.gz` |
| Scenarios.ClassifyDotfile | file_organizer/cli.py:43 | `.bashrc` has no extension and goes to Other |
| Scenarios.ClassifyPdf | file_organizer/cli.py:113 | `b.pdf` goes to PDFs |
| Scenarios.ClassifyUnknown | file_organizer/cli.py:50 | an extension that is in no list, `.xyz`, goes to Other |
| Scenarios.ResolveExamples | file_organizer/cli.py:138-146 | `report.txt` stays as it is in an empty folder, becomes `report (1).txt` when taken, and `report (2).txt` when that is taken too |
| Scenarios.PreviewSuggestsOneNameTwice | file_organizer/cli.py:147-150 | with `Images` holding `a.jpg`, the preview suggests `a (1).jpg` for both `a.jpg` and `a (1).jpg` |
| Scenarios.RealRunDiffersFromPreview | file_organizer/cli.py:158 | in the real run, once `a.jpg` has been moved, `a (1).jpg` becomes `a (1) (1).jpg`, not its preview |

## Left out

- Logging to `organizer.log`, all printing, ANSI colours and the quiet/normal/verbose modes: these are output only and do not change what the run computes.
- Command-line parsing, `os.getcwd`, `exit(1)` and the fixed Windows path in `file_organizer.py`: the target and the mode are parameters. An abort is the `Aborted` outcome.
- `file_organizer.py` has no check on the target path. In real mode `os.makedirs` creates a missing folder together with its category folders, which is the empty-folder case of `Organize` (see `MissingFolderRealRun`). Only a dry run on a missing path raises, from `os.listdir`. A target that is a regular file also raises: from `os.makedirs` in a real run (file_organizer.py line 63) and from `os.listdir` in a dry run (line 70). Those exceptions are not modelled.
- Directory listing: the order of `os.listdir` is a parameter. The listing must enumerate the folder exactly once, as it stands after the category folders are made.
- `shutil.move`: cross-device copies, permission errors and failures midway through a run are not modelled. A move is one atomic map update.
- Unicode `str.lower`: the model lower-cases only ASCII letters. Path separators and `os.path.join` are not modelled, because listed names are single path components.
- Organizer.RunCli, Organizer.Organize, Organizer.RealRunMovesEveryFile and Organizer.RealRunTotal: the model requires that no top-level regular file has a category's name, in real mode. Such a file makes the real run fail only when a file classified into that category is moved, because the move's target folder is then a regular file, or is missing once that file has itself been moved to Other. A run with such a file and no file of that category completes: the file `PDFs` with no `.pdf` file present is itself moved to `Other/PDFs`. The precondition excludes those successful runs too.
- Names are compared exactly, as on a case-sensitive (POSIX) file system. On a case-insensitive file system such as the Windows one `file_organizer.py` targets, `os.path.exists` ignores case. There, `Photo.JPG` collides with an existing `photo.jpg`, and an existing `images` folder stops `Images` from being created. Those file systems are not modelled.
- Entries that are neither a regular file nor a directory, such as a FIFO, a socket or a dangling symbolic link, are not modelled. `os.path.isfile` skips them, which a `Dir` entry also gets. Named like a category, they break the real run just as a regular file does: a FIFO named `Images` stops the folder from being created and the move into it fails, and a dangling link named `Images` makes `os.makedirs` raise. The category-name precondition of `Organize` cannot exclude them, so the model completes such runs where the program fails.
- Concurrent runs, and changes made to the folder by others during a run.
- Classifier: the model does not state that the built-in table's extension lists are pairwise disjoint.
- Strings.Decimal: the model does not prove that the rendering has no leading zeros. Only its round trip is proved.
