# photoprism-scripts: the sidecar/media reconciliation core

PhotoPrism keeps one YAML sidecar per photo or video under a sidecar root
(`storage/sidecar/`). The sidecars mirror the folder layout of the originals
root. The scripts in `src/fileSystem.ts` reconcile the two trees:

- they find the media files ("the stack") that belong to a sidecar;
- they choose the primary file of a stack;
- they propose renames to `yyyyMMdd_HHmmss_<CRC32C in hex>`;
- they move private or archived media into a folder of their own;
- they find sidecars without media (orphans);
- they list sidecars that are not in their `year/month` folder.

Every batch operation runs a three-way confirmation: do it, don't, or do it and all the
rest. An answer outside the three throws.

This project models that core in Dafny.

- The file system is a value:
  - a listing maps each folder to its entries, where an entry is a file, a directory, or an entry whose `stat` throws;
  - a tree of nodes stands in for `recursiveSearch`;
  - a map gives the decoded sidecar records;
  - a map gives the CRC32C checksums of media files;
  - a set holds the folders that exist.
- The prompts read a sequence of answers.
- The effects of a batch are the renames or moves it carries out, recorded in order.
- Configuration (the originals and sidecar roots) is a parameter.
- Each loop of the source is a method proved against a specification function. The
  properties are lemmas about those functions.

The modules follow the source:

| module | what it holds |
|---|---|
| `Sequences` | subsequences: what a filtering loop keeps of its input, in order |
| `Paths` | `lastIndexOf`, `replace`, `split('.')[0]`, `removeExtension`, and the POSIX `path.basename`/`dirname`/`extname`/`join` |
| `Numbers` | decimal text, luxon's zero padding, and the upper-case hex of a checksum |
| `Sidecar` | the decoded record |
| `Dates` | the rename date prefix and the `year/month` folder |
| `Media` | `recursiveSearch`, `findMediaPath`, `findImagePaths` |
| `Primary` | `findPrimaryImage` |
| `Gate` | the confirmation loop |
| `Rename` | `renameFileWithPrompt`, `renameMediaFilesWithPrompt` |
| `Move` | `moveFilesWithPrompt`, `findImages`, `findImagesAndMoveToTarget` |
| `Organise` | `organiseMedia` |
| `Orphans` | `findOrphanedYamlFiles` |

The model shows the following behaviour of the code as written:

- **`jpeg` without its dot.** `findPrimaryImage` compares the lower-cased extension with
  `'jpeg'`, which has no dot. A `.jpeg` file is therefore never taken as a JPEG.
  - A stack made only of `.jpeg` files has no primary: `Primary.JpegOnlyStackHasNoPrimary`.
  - For such a stack, renaming fails when the program reads the checksum of `null`: `Rename.JpegStackThrows`.
- **The "already there" filter of `moveFilesWithPrompt` depends on a trailing '/'.** It
  compares `path.dirname` of a file with the target folder. That folder ends in '/' only
  for a file directly under `/`, where it is `/` itself.
  - The orphan flow (`src/index.ts:50`, the lost-and-found folder) and the organise flow
    (`src/index.ts:57`, the originals root) pass targets ending in '/'. For them the
    filter never drops a file, since neither target is `/`: `Move.TrailingSlashTargetKeepsAll`.
  - The private and archived flows pass `path.join(originalsPath, targetFolderName)`
    (`src/fileSystem.ts:243`), which has no trailing '/'. There the filter drops the files
    already in the target folder: `Move.NothingToMove`, `Move.FlattenIsIdempotent`.
- **Organising with the same root as target and old root.** The organise flow in
  `src/index.ts:53-57` moves the media of the listed sidecars with the originals root as
  both the target and the old root.
  - For a root that `path.join` leaves as it is (an absolute root such as
    `/photos/originals/`), each destination is the file's own path:
    `Move.SameRootMoveKeepsPath`.
  - The configured root `./photoprism-test/data/originals/` starts with `./`, which
    `path.join` strips from the media paths it builds. `replace(oldDir, '')` then finds
    nothing, and the whole path is rebuilt below the target:
    `photoprism-test/data/originals/2021/07/a.jpg` goes to
    `photoprism-test/data/originals/photoprism-test/data/originals/2021/07/a.jpg`.
    See `Move.DotRootIsDoubled`. The model's `Join` does not normalise, so there the
    destination keeps the leading `./`; it names the same file.
- **Burst frames are not found for renaming or moving.** The comment at
  `src/fileSystem.ts:84-86` expects `NAME.00002.jpg` to match the sidecar `NAME.yml`.
  `removeExtension` strips only the last extension, so the comparison sees `NAME.00002`
  and the frame is not in the stack: `Media.BurstFramesAreMissed`. The orphan search
  compares the text before the first '.', so it does count such a frame as the
  sidecar's media: `Orphans.BurstFramesHaveTheirSidecar`.
- **`move` is a stub.** Its body is commented out in `src/fileSystem.ts:127-129`. The
  model records the moves the program offers and accepts, not changes on disk.

## Model

| member | source | states |
|---|---|---|
| Paths.RemoveExtension | src/fileSystem.ts:10-12 | The path up to its last '.', or the whole path when that '.' is missing or first; specified by the three lemmas below. |
| Paths.RemoveExtensionSpec | src/fileSystem.ts:10-12 | The result is a prefix of the path. It is the whole path exactly when no '.' follows the first character. Otherwise the cut is at the last '.', which is not the first character. |
| Paths.RemoveExtensionExamples | src/fileSystem.test.ts:16-35 | The test cases: `file.png`→`file`, `./path/to/file.png`→`./path/to/file`, `/path/to/file.png`→`/path/to/file`, `file`→`file`, `file.png.zip`→`file.png`; a leading-dot name is kept. |
| Paths.RemoveExtensionNoDot | src/fileSystem.ts:10-12 | A name without '.' comes back unchanged (the fallback to the whole path). |
| Paths.StemAndExtension | src/fileSystem.ts:10-12 | A dot-free stem followed by an extension is a file name: `extname` gives the extension and `removeExtension` gives the stem. |
| Paths.BeforeFirstDot | src/fileSystem.ts:208 | `split('.')[0]` is a prefix of the text with no '.'. It is the whole text, or the character after it is '.'. |
| Paths.ReplaceFirstOfPrefix | src/fileSystem.ts:443 | `replace(root, '')` on a path starting with the root leaves the rest of the path. |
| Paths.PrefixReplaced | src/fileSystem.ts:150 | Removing a root from `root + rest` leaves `rest`. |
| Paths.ReplaceFirstMissesDotSlash | src/fileSystem.ts:150 | A root written with a leading `./` is not found in a path without `./`, and `replace` leaves the path as it is. |
| Paths.RelativeSplit | src/fileSystem.ts:147-151 | `path.dirname` of `folder/name` is the folder. |
| Numbers.Decimal | src/fileSystem.ts:434 | `toString()` of a natural number gives one or more digits that read back as the number. |
| Numbers.PadStartExact | src/fileSystem.ts:379 | Luxon's zero-padded field of a number below 10^w has exactly w digits that read back as the number. |
| Numbers.ChecksumHexRoundTrip | src/fileSystem.ts:382-385 | `toString(16).toUpperCase()` gives one or more upper-case hex digits that read back as the checksum. |
| Numbers.ChecksumHexLength | src/fileSystem.ts:382-385 | A 32-bit checksum gives at most 8 hex digits. |
| Dates.DatePrefix | src/fileSystem.ts:379 | `toFormat('yyyyMMdd_HHmmss_')`, or `Invalid DateTime` for an invalid time; specified by the round trip below. |
| Dates.PathShouldBe | src/fileSystem.ts:432-438 | `path.join(year, month)`, the month zero-padded below 10; specified by the lemmas below. |
| Dates.DatePrefixRoundTrip | src/fileSystem.ts:379 | For a valid time with a year from 0 to 9999, `toFormat('yyyyMMdd_HHmmss_')` has 16 characters with '_' at positions 8 and 15, and it parses back to the same time. |
| Dates.DatePrefixHasNoSeparators | src/fileSystem.ts:379 | The date prefix, valid or `Invalid DateTime`, holds no '.' and no '/'. |
| Dates.PathShouldBeIsTwoLevels | src/fileSystem.ts:432-438 | `pathShouldBe` is always `year/month`: two non-empty segments without '/', including `NaN/NaN` for an invalid time. |
| Dates.MonthTextIsPadded | src/fileSystem.ts:435-437 | For months 1 to 12, `month < 10 ? '0' + month : month.toString()` is luxon's two-digit month. |
| Dates.PathShouldBeMatchesPrefix | src/fileSystem.ts:432-438 | The month folder is the month field of the rename prefix. For years from 1000 to 9999 the whole folder is the prefix's year and month joined by '/'. |
| Dates.FourDigitYear | src/fileSystem.ts:434 | From the year 1000 on, `year.toString()` is the four-digit `yyyy` field. |
| Media.StackIn | src/fileSystem.ts:78-91 | The files of one folder whose name without extension is the sidecar's, in listing order, up to the first failing `stat`; never more than the entries. |
| Media.MediaPathsOf | src/fileSystem.ts:58-102 | The stack of one sidecar: an error outside the sidecar root, empty when the media folder is missing, else `StackIn` of that folder. |
| Media.FindMediaPath | src/fileSystem.ts:58-102 | The method computes the stack of one sidecar as the specification function does: an error outside the sidecar root, an empty stack when the folder is missing, otherwise the scan of the folder. |
| Media.ScanFolder | src/fileSystem.ts:78-91 | The loop over a folder's entries equals the stack specification, including the early stop at a failing `stat`. |
| Media.StackComplete | src/fileSystem.ts:78-91 | When no `stat` fails, every non-directory entry whose name without extension equals the sidecar's is in the stack. |
| Media.StackMembers | src/fileSystem.ts:78-91 | Every stack member is a non-directory entry, named like the sidecar, joined onto the folder. |
| Media.StackStopsAtStatFailure | src/fileSystem.ts:72-99 | A `stat` failure at entry k leaves the stack of the entries before k: the catch keeps what was found. |
| Media.StackOfSameNamedFiles | src/fileSystem.ts:84-90 | A folder of N files named like the sidecar, such as `IMG_1.jpg` and `IMG_1.heic` for `IMG_1.yml`, gives a stack of N. |
| Media.MediaPathsShareBase | src/fileSystem.ts:58-102 | The scan throws exactly when the sidecar is outside the sidecar root, and a missing folder gives an empty stack. Every found file has the sidecar's name without extension. |
| Media.BurstNameKeepsFrame | src/fileSystem.ts:10-12 | `removeExtension` of `stem.frame.ext` is not `stem`: only the last extension goes. |
| Media.BurstFramesAreMissed | src/fileSystem.ts:84-90 | No file named `stem.frame.ext` is ever in the stack of the sidecar `stem.yml`. |
| Media.MediaFileLocationTop | src/fileSystem.ts:64-70 | A sidecar directly under the sidecar root looks for its media directly under the originals root. |
| Media.MediaFileLocationNested | src/fileSystem.ts:64-70 | A sidecar in `relDir/` below the sidecar root looks for its media in the same `relDir/` below the originals root. |
| Media.FindImagePaths | src/fileSystem.ts:104-112 | The loop equals the concatenation of the stacks in sidecar order, or the first error. |
| Media.ImagePathsAppend | src/fileSystem.ts:104-112 | The stacks of two runs of sidecars, one after the other, are the stacks of the joined run. |
| Media.ImagePathsSnoc | src/fileSystem.ts:107-109 | One more sidecar appends its stack at the end, or its error. |
| Media.ImagePathsFail | src/fileSystem.ts:61-62 | `findImagePaths` throws exactly when some sidecar lies outside the sidecar root. |
| Media.Walk | src/fileSystem.ts:19-40 | The depth-first collection: each entry in listing order, a wanted file as its joined path and a folder as everything under it. |
| Media.WalkHasEntry | src/fileSystem.ts:24-33 | Everything an entry contributes is in its folder's walk. |
| Media.WalkComplete | src/fileSystem.ts:19-40 | Nothing is missed: every wanted file of every folder reached below the start, at any depth, is in the walk under the path its folders give it. |
| Media.RecursiveSearch | src/fileSystem.ts:19-40 | The recursive method equals the depth-first walk specification: the files in listing order, each folder's contents in place of the folder. |
| Media.SearchEntry | src/fileSystem.ts:24-33 | One entry contributes its path if it is a wanted file, everything under it if it is a folder, and nothing otherwise. |
| Media.WalkKeepsFilter | src/fileSystem.ts:28-30 | With an extension filter, every collected path has one of the listed extensions. |
| Media.EntryKeepsFilter | src/fileSystem.ts:28-32 | The same filter property for a single entry and everything under it. |
| Primary.Describe | src/fileSystem.ts:308-333 | What the loop reads of a path: the class of its lower-cased extension (JPEG, overriding, other) and the `.length` of its file name in UTF-16 code units. |
| Primary.Utf16LengthBounds | src/fileSystem.ts:333 | A name's `.length` is between its number of characters and twice that, and equals it exactly when no character lies outside the Basic Multilingual Plane. |
| Primary.AstralNameCountsTwice | src/fileSystem.ts:325-337 | `a\U{1F600}.jpg` is as long as `abc.jpg` (7 code units), so in the stack `[abc.jpg, a\U{1F600}.jpg]` the first file stays the primary. |
| Primary.EqualJpegsKeepFirst | src/fileSystem.ts:325-337 | Of two JPEGs whose names have the same `.length`, the first stays the primary: the comparison is strict. |
| Primary.Step | src/fileSystem.ts:310-337 | One turn of the loop: the first JPEG, any overriding file, or a JPEG with a strictly shorter name than the JPEG chosen so far replaces the choice. |
| Primary.Select | src/fileSystem.ts:304-359 | The steps applied to the stack's paths from first to last; its properties are the lemmas below. |
| Primary.FindPrimaryImage | src/fileSystem.ts:304-359 | The loop equals the step-by-step selection specification. |
| Primary.ExtIsNeverBareJpeg | src/fileSystem.ts:308-314 | The lower-cased extension never equals `jpeg`, so the JPEG test holds only for `.jpg`. |
| Primary.JpegMeansJpg | src/fileSystem.ts:310-314 | A stack member counts as a JPEG exactly when its lower-cased extension is `.jpg`. |
| Primary.ChooseInStack | src/fileSystem.ts:304-359 | The choice is one of the candidates, and there is none for an empty stack. |
| Primary.SelectIsChoose | src/fileSystem.ts:304-359 | Choosing among paths is choosing among their descriptions (extension class, name length). |
| Primary.SelectInStack | src/fileSystem.ts:304-359 | The primary is one of the stack's paths, and an empty stack has none. |
| Primary.LastOverridingWins | src/fileSystem.ts:317-324 | When the stack holds a raw, heif, png, gif, mp4, webm or mkv file, the last of them is the primary. |
| Primary.ShortestJpegWins | src/fileSystem.ts:325-337 | Without such files, the first JPEG with the shortest file name (in UTF-16 code units) is the primary. There is none exactly when the stack has no JPEG. |
| Primary.JpegOnlyStackHasNoPrimary | src/fileSystem.ts:310-314 | A stack made only of `.jpeg` files has no primary. |
| Gate.Offer | src/fileSystem.ts:162-188 | One prompt: under auto the operation is done; otherwise the first answer is read and decides done, skipped, done with auto set, or the thrown answer. |
| Gate.Run | src/fileSystem.ts:142-191 | The prompts applied to the operations in order, stopping at the first failure. |
| Gate.RunBatch | src/fileSystem.ts:142-191 | The confirmation loop equals the batch specification: offers in order until one fails. |
| Gate.Ask | src/fileSystem.ts:162-188 | One turn: carried out under auto; otherwise the answer decides, an unknown answer throws, and no answer left is an error. |
| Gate.ChoicesAreDistinct | src/fileSystem.ts:120-124 | Each of the three labels of each prompt selects its own case of the `switch`. |
| Gate.RunDoesSubsequence | src/fileSystem.ts:142-191 | A batch only appends to what was done, and what it appends is the offered operations with some left out, in order. |
| Gate.RunReadsAnswersInOrder | src/fileSystem.ts:162-188 | The prompts read answers from the front, at most one per operation. The answers left are a suffix, and a failed batch stays failed. |
| Gate.OfferReadsOne | src/fileSystem.ts:162-188 | A prompt reads exactly the first answer. Auto mode and a missing answer read none. |
| Gate.AutoAppliesAll | src/fileSystem.ts:162-163 | Once auto is set, every remaining operation is carried out and nothing is asked. |
| Gate.ApplyAllEndsPrompts | src/fileSystem.ts:180-183 | Answering "all" at the first prompt carries out the whole batch after reading one answer. |
| Gate.UnhandledAnswerThrows | src/fileSystem.ts:184-185 | An answer outside the choices ends the batch with that answer as the error, before the operation is carried out. |
| Gate.AnswerDecidesOne | src/fileSystem.ts:173-186 | Without auto, an operation is carried out exactly when its answer is "do it" or "all", and skipped exactly otherwise. |
| Gate.SkipAllDoesNothing | src/fileSystem.ts:177-179 | Answering "don't" every time carries out nothing and reads one answer per operation. |
| Rename.TargetName | src/fileSystem.ts:379-387 | The date prefix followed by the checksum in upper-case hex; specified by the lemmas below. |
| Rename.NewPath | src/fileSystem.ts:265-267 | The new name plus the old extension, joined onto the old folder. |
| Rename.PlanOne | src/fileSystem.ts:368-400 | Planning one sidecar: a scan error, an empty stack, an unreadable sidecar, no primary, an unreadable checksum, or the proposals. |
| Rename.ProposeRenames | src/fileSystem.ts:391-400 | The inner loop equals the proposals for the members whose name without extension differs from the target. |
| Rename.MismatchedSound | src/fileSystem.ts:391-400 | Every proposal names a stack member whose current name differs from the target, with that target. |
| Rename.MismatchedComplete | src/fileSystem.ts:391-400 | Every stack member whose current name differs from the target is proposed. |
| Rename.NothingMismatched | src/fileSystem.ts:391-400 | A stack already carrying the target name gives no proposals. |
| Rename.PlanFor | src/fileSystem.ts:368-400 | Planning one sidecar equals its specification: a scan error, an empty stack (orphan), an unreadable sidecar, no primary, an unreadable primary, or the proposals. |
| Rename.PlanRenames | src/fileSystem.ts:368-401 | The planning loop equals the fold of the per-sidecar plans, stopping at the first error or orphan. |
| Rename.GatherProposedIff | src/fileSystem.ts:368-401 | The fold gives proposals exactly when every step planned successfully with a non-empty stack. |
| Rename.ProposedIffAllPlanned | src/fileSystem.ts:368-372 | Planning reaches the confirmation loop exactly when every sidecar has a non-empty stack and plans without error. |
| Rename.OrphanMeansNoRename | src/fileSystem.ts:371-372 | If any sidecar has an empty stack, nothing is renamed: the run throws or returns false. |
| Rename.OrphanReturnsFalse | src/fileSystem.ts:371-372 | An empty stack after sidecars that all planned makes the whole run return false. |
| Rename.TargetNameRoundTrip | src/fileSystem.ts:379-387 | For a valid time, the target name is the 16-character date prefix, which parses back to the time, followed by upper-case hex that reads back as the checksum. It holds no '.' and no '/'. |
| Rename.TargetHasNoSeparators | src/fileSystem.ts:379-387 | Whatever the time, the target name is non-empty with no '.' and no '/'. |
| Rename.TargetNameLength | src/fileSystem.ts:382-387 | With a 32-bit checksum, the target name has at most 24 characters. |
| Rename.NewPathKeepsFolderAndExtension | src/fileSystem.ts:265-267 | The new path keeps the file's folder and extension, and its name without extension is the new name. |
| Rename.RenamingIsIdempotent | src/fileSystem.ts:391-400 | After a stack is renamed to the target, planning it again proposes nothing. |
| Rename.JpegStackThrows | src/fileSystem.ts:374-381 | A readable sidecar whose stack is all `.jpeg` fails planning with "no primary". |
| Rename.PlannedRenameShape | src/fileSystem.ts:391-400 | Every proposal renames a file of the sidecar's stack whose name differs from the target, and the target is a dot-free, slash-free name. |
| Rename.RenameFileWithPrompt | src/fileSystem.ts:246-302 | One rename is offered to the gate with the new path built at lines 265-267. |
| Rename.RenameMediaFilesWithPrompt | src/fileSystem.ts:361-421 | The whole operation equals its specification: the planning error, `false` for an orphan, or the confirmation run over all proposals. |
| Rename.ConfirmRenames | src/fileSystem.ts:403-416 | The second loop equals the gate run over the proposed renames, starting without auto. |
| Move.NeedsMoving | src/fileSystem.ts:136-138 | The files whose `path.dirname` differs from the target folder, in order. |
| Move.Destination | src/fileSystem.ts:144-154 | The target joined with the folder left after removing the old root (none without an old root), then the file's base name. |
| Move.MoveFilesWithPrompt | src/fileSystem.ts:119-196 | The method equals its specification: whether the target folder is created, and the gate run over the moves of the files that pass the filter. |
| Move.NeedsMovingExactly | src/fileSystem.ts:136-138 | The filter keeps exactly the files whose folder is not the target, in order. |
| Move.NothingToMove | src/fileSystem.ts:136-138 | Files already in the target folder are all dropped. |
| Move.TrailingSlashTargetKeepsAll | src/fileSystem.ts:136-138 | With a target ending in '/', the filter keeps every file. |
| Move.FlattenDestination | src/fileSystem.ts:144-154 | Without an old root, a file goes directly into the target folder under its own name. |
| Move.FlattenIsIdempotent | src/fileSystem.ts:136-154 | Files already flattened into a target without a trailing '/' need no move, and the batch asks nothing. |
| Move.StructuredDestination | src/fileSystem.ts:144-154 | With an old root, a file in `relDir/` below it goes to the same `relDir/` below the target. |
| Move.StructuredDestinationTop | src/fileSystem.ts:144-154 | With an old root, a file directly under it goes directly under the target. |
| Move.DestinationBelowRoot | src/fileSystem.ts:146-151 | With an old root, the destination keeps the folder of what follows the root. |
| Move.SameRootMoveKeepsPath | src/fileSystem.ts:144-154 | Moving with the same root as target and old root sends every file to its own path. |
| Move.UnmatchedRootRebuilt | src/fileSystem.ts:144-154 | When the old root is not found in a path, the path's whole folder is rebuilt below the target. |
| Move.DotRootIsDoubled | src/fileSystem.ts:144-154 | With the same `./R/` root as target and old root, a path `R/D/N` that `path.join` built goes to `./R/R/D/N`. |
| Move.SelectSidecars | src/fileSystem.ts:220-227 | The first loop of `findImages` equals its specification. |
| Move.SelectedExactly | src/fileSystem.ts:220-227 | The loop throws exactly when some sidecar does not read. Otherwise it keeps exactly the sidecars the filter selects, in order. |
| Move.FindImages | src/fileSystem.ts:217-238 | The stacks of the selected sidecars, or the first error. |
| Move.FindImagesAndMoveToTarget | src/fileSystem.ts:240-244 | The selected stacks are moved, flattened, into `originalsRoot/targetFolderName`. |
| Organise.OrganiseMedia | src/fileSystem.ts:423-452 | The loop equals the organise specification. |
| Organise.Misplaced | src/fileSystem.ts:429-448 | A medium neither private nor archived whose sidecar folder below the root is not `pathShouldBe`. |
| Organise.RelevantExactly | src/fileSystem.ts:426-449 | The scan throws exactly when some sidecar does not read. Otherwise it returns exactly the misplaced sidecars of visible media, in order. |
| Organise.MisplacedIff | src/fileSystem.ts:429-448 | A sidecar in `folder/` below the sidecar root is listed exactly when its medium is neither private nor archived and the folder is not its `year/month`. |
| Organise.FiledSidecarStays | src/fileSystem.ts:432-448 | A sidecar already in its `year/month` folder is never listed. |
| Organise.ShallowSidecarIsFlagged | src/fileSystem.ts:440-448 | A visible medium's sidecar directly under the root, or one folder deep (as in `example/IMG_….yml`), is always listed. |
| Orphans.Key | src/fileSystem.ts:208 | The base name up to its first '.'. |
| Orphans.FindOrphanedYamlFiles | src/fileSystem.ts:198-215 | The method equals the orphan specification over the walk of the originals root, which holds every file at any depth (`Media.WalkComplete`). |
| Orphans.HasMediaIff | src/fileSystem.ts:208 | A sidecar has media exactly when some media file has the same base name up to the first '.'. |
| Orphans.OrphanedExactly | src/fileSystem.ts:204-212 | The orphans are exactly the sidecars without media, in order. |
| Orphans.OrphansDependOnKeysOnly | src/fileSystem.ts:200-212 | Only the set of media keys matters. Their order, repetition and folders do not. |
| Orphans.KeyOfName | src/fileSystem.ts:208 | The key of `folder/stem.ext` is the stem, whatever the folder. |
| Orphans.BurstFramesHaveTheirSidecar | src/fileSystem.ts:205-208 | The frame `stem.00002.jpg` of a burst keeps `stem.yml` from being an orphan, even when the two are in different folders. |

## Left out

- File-system access (`readdir`, `stat`, `access`, `readFile`, `existsSync`) is replaced by the listing, tree and maps described above. YAML decoding (`readYamlFile`) is a map from sidecar path to decoded record; a missing key is a sidecar that does not read.
- The CRC32C computation is not modelled. The checksum of a media file is a given number.
- Luxon time zones and the conversion from `Date` are not modelled. A time is its calendar fields, or None for an invalid time.
- Dates.DatePrefix: the fields of `toFormat('yyyyMMdd_HHmmss_')` are written with ASCII digits, as luxon writes them for a locale with Latin digits. Luxon formats numbers through `Intl.NumberFormat` in the DateTime's locale, which here is the system default (`src/types/sidecarFile.ts:47` gives none). Under a locale with other default digits (such as `ar-EG` or `fa-IR`) the program writes those digits instead, while `year.toString()` in `organiseMedia` stays ASCII. `Rename.TargetName`, `Dates.DatePrefixRoundTrip` and `Dates.PathShouldBeMatchesPrefix` inherit this assumption.
- `path.join` normalisation is not modelled: no removal of `./` or `..`, and no collapsing of repeated '/'. Join puts one '/' between two parts unless the first ends in '/'. The roots are parameters, and the model assumes them normalised, so that the paths built from a root start with the root as written. The program's configured originals root `./photoprism-test/data/originals/` is not normalised: `path.join` drops its `./` from the media paths, and the organise flow then doubles the root (`Move.DotRootIsDoubled`).
- `recursiveSearch` logs and swallows errors from `readdir`/`stat`; the tree model has no failing entries. A node that is neither a file nor a folder contributes nothing.
- `mkdir` failure in `moveFilesWithPrompt` is not modelled. The outcome only records whether the target folder was missing.
- The renames of `renameFileWithPrompt` are un-awaited calls of an `async` function (`src/fileSystem.ts:261-263`, called at lines 276, 288 and 295), with no `.catch` and no handler for unhandled rejections. A failed rename therefore rejects a promise nobody handles; on Node 15 and later this ends the program, at a point of the batch that depends on timing. The model records every started rename as done and goes on.
- A prompt with no answer left blocks forever in the program. The model ends the batch with `NoAnswer`.
- Console output and the progress counters are left out.
- `src/index.ts` (the menu), `src/copy.ts`, `copy.ts` and `src/config.ts` are not part of this model. The flows of the menu are cited above only as the callers that fix the arguments.
- Primary.FindPrimaryImage: the extension is lower-cased for ASCII letters only. `toLocaleLowerCase` also lowers other Unicode capitals and follows the locale (a Turkish locale turns `.GIF` into `.gıf`, and KELVIN SIGN lowers to `k`), so such extensions may be classified differently by the program. The name length is counted in UTF-16 code units, as `.length` does.
- Primary.ShortestJpegWins: the JPEG test it relies on uses the same ASCII-only lower-casing of the extension; name lengths are UTF-16 code units.
- Primary.Describe / Paths.Lower: `Lower` lowers A-Z and keeps every other character; the Unicode and locale-dependent case mappings of `toLocaleLowerCase` are not modelled.
- Integers are unbounded. The 32-bit range of the checksum appears only as a hypothesis of `Rename.TargetNameLength`.
