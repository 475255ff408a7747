# hfdownloader → Aliyun Drive uploader: artifact resolution, in Dafny

The program wraps an external downloader (`hfdownloader`) and uploads what
it downloaded to Aliyun Drive. Its logic is small and lives in `main.py`:

- the **explicit storage-path scan** (`explicit_storage_path`) looks for `-s`
  and then `--storage` among the arguments forwarded to the downloader;
- the **snapshot difference** (`detect_new_items`, with the pre-download
  snapshot taken in `main`) finds the visible top-level entries the download
  created, sorted by name;
- the **selection** in `main` picks the explicit path, else the single new
  entry, else the working directory, and exits with 1 when that path does not
  exist;
- around this, `main` runs in a fixed order: make sure the downloader is on
  `PATH` (installing it if needed), log in, snapshot, download, resolve, check
  existence, log in again, and upload as a folder or a file.

The model is functional. Arguments are `seq<string>`, directory listings
are `seq<string>` in whatever order `iterdir` yields them, snapshots are
`set<string>`, and the whole of `main` is a pure function (`Pipeline.Main`)
from oracle results (`Pipeline.World`) to the list of outside interactions
it starts (install, login, download) and its outcome: `Exit(code)`,
`Crash(ToolUnavailable)` (the uncaught `EnvironmentError`, exit status 1),
`UploadFolder(path, …)` or `UploadFile(path, …)`.

Files, one module each:

| file | module | contents |
|---|---|---|
| `wrappers.dfy` | `Wrappers` | `Option` |
| `name_order.dfy` | `NameOrder` | Python's string order on names, proved a strict total order; sorting into a strictly increasing sequence; uniqueness of such a sequence |
| `storage_flag.dfy` | `StorageFlag` | `explicit_storage_path` |
| `snapshot.dfy` | `Snapshot` | hidden names, the pre-download snapshot, `detect_new_items` |
| `resolution.dfy` | `Resolution` | the choice of `to_upload` |
| `pipeline.dfy` | `Pipeline` | the run of `main` and the properties of its step order |
| `scenarios.dfy` | `Scenarios` | worked examples: one new folder, explicit path, two new entries, Null identity |

Notes on reading the code:

- `if explicit_path:` tests a `Path` object, and every `Path` is truthy, so
  the test means "the scan found something"; the model uses `Some?`.
- The scan only recognises the flag as a token of its own followed by the
  value as the next token. Forms such as `--storage=/x` are not recognised by
  the scan, and the run then falls back to the directory difference.
- Python sorts with `key=p.name`. The names in one directory are distinct, so
  sorting the set equals building a strictly increasing sequence
  (`NameOrder.SortNames`), and the result is the same whatever the order of the
  listing (`Snapshot.DetectNewItemsOrderFree`).
- The paths in the pre-snapshot and in the later listing are all
  `Path.cwd() / name`. On POSIX systems two such paths are equal exactly when
  their names are, so the model keeps names in the snapshots, compares them
  exactly, and turns the chosen name into a path with `PathOps.entryPath`.

## Model

| member | source | states |
|---|---|---|
| `StorageFlag.FirstIndex` | main.py:27-28 | `None` exactly when the flag is absent; otherwise an index holding the flag with no earlier occurrence (`list.index`) |
| `StorageFlag.FlagValue` | main.py:27-34 | `None` exactly when the flag is absent or its first occurrence is the last token; otherwise the token right after that first occurrence |
| `StorageFlag.ExplicitStoragePath` | main.py:25-35 | stated over positions in the argument list: when the first `-s` is followed by a token, the result is that token normalised, whatever it looks like and whatever `--storage` holds; when `-s` is absent or its first occurrence is last, the first `--storage` decides in the same way, and no `--storage` gives `None`; `None` exactly when neither flag's first occurrence is followed by a token |
| `NameOrder.NameLess` | main.py:41 | agrees with the non-recursive lexicographic order on code points: a proper prefix is smaller, otherwise the first differing character decides |
| `NameOrder.NameLessTotal` | main.py:41 | two different names are ordered one way or the other, so sorting by name is deterministic |
| `NameOrder.NameLessTransitive` | main.py:41 | the name order is transitive |
| `NameOrder.SortNames` | main.py:41 | the result is strictly increasing by name and holds exactly the input names |
| `NameOrder.StrictlySortedUnique` | main.py:41 | a strictly increasing sequence is determined by its set of names |
| `Snapshot.IsHidden` | main.py:40 | a name is hidden exactly when it has the prefix "." |
| `Snapshot.Unseen` | main.py:40-41 | holds exactly the listed names that are visible and not in the start snapshot |
| `Snapshot.DetectNewItems` | main.py:38-41 | the result is strictly increasing by name (sorted, no duplicates), holds exactly the listed visible names missing from the start snapshot, and holds no hidden name |
| `Snapshot.DetectNewItemsIsDifference` | main.py:40-41 | the result's names are the set difference post − pre of visible names, and its length is that set's size |
| `Snapshot.DetectNewItemsIgnoresHidden` | main.py:40 | two starts and two listings that agree on visible names give the same result |
| `Snapshot.HiddenEntriesChangeNothing` | main.py:38-41 | adding dot-prefixed names to the start snapshot or to the listing changes nothing |
| `Snapshot.DetectNewItemsOrderFree` | main.py:40-41 | the order in which the directory is listed does not change the result |
| `Resolution.ResolveTarget` | main.py:177-185 | an explicit path wins; otherwise exactly one new entry means that entry's path; zero or several new entries mean the working directory |
| `Resolution.ExplicitIgnoresDiff` | main.py:180-181 | with an explicit path, the snapshots do not affect the choice |
| `Resolution.FallbackIff` | main.py:182-185 | without an explicit path, and when no new entry's path is the working directory itself, the working directory is chosen if and only if the number of new entries is not one |
| `Pipeline.EnsureToolAvailable` | main.py:44-52 | the installer runs exactly when the tool is not on `PATH`; the stage raises `ToolUnavailable`, uncaught, exactly when the tool is missing and the installation fails |
| `Pipeline.EnsureLogin` | main.py:66-77 | one login attempt; the run goes on exactly when the probe gives an identity; a Null identity and an exception both end it with `Exit(1)` |
| `Pipeline.ExitStatus` | main.py:198-199 | a normal return from `main` (after an upload) is status 0, an exception escaping `main` is status 1, and `Exit(c)` is the value `c` passed to `sys.exit` |
| `Pipeline.Main` | main.py:162-195 | exit status 0 exactly for an upload; an uploaded path exists; the folder upload is used exactly for directories; every download is immediately preceded by a login |
| `Pipeline.BeforeListingVisibleOnly` | main.py:170-171 | only the visible names listed before the download matter: hidden entries there, and the listing order, change neither the chosen path nor the run |
| `Pipeline.ToolFailureStopsBeforeLogin` | main.py:165-168 | tool missing and install failed: the only interaction is the install attempt, the run crashes with `ToolUnavailable` (status 1), no login, no download |
| `Pipeline.LoginFailureStopsBeforeDownload` | main.py:167-174 | a Null identity or an exception at the early login gives `Exit(1)` and the downloader never runs |
| `Pipeline.DownloaderFailurePropagates` | main.py:55-63 | a non-zero downloader return code `c` gives `Exit(c)` and no upload |
| `Pipeline.MissingArtifactNeverUploads` | main.py:187-191 | a resolved path that does not exist gives `Exit(1)`; the last interaction is the download, so the transfer stage and its login never start |
| `Pipeline.UploadLoginFailureExits` | main.py:80-82 | the path exists but the login inside the transfer stage gives a Null identity or an exception: `Exit(1)`, after login, download and the second login, with no upload |
| `Pipeline.UploadIff` | main.py:80-96 | an upload happens if and only if the tool is ready, both logins give an identity, the downloader returns 0 and the resolved path exists; it sends that path with the given parent folder and drive, after login, download and login in that order |
| `Scenarios.SingleNewFolderIsUploaded` | main.py:180-185 | empty directory, download creates `llama-7b` (and a hidden `.cache`): folder `llama-7b` is uploaded |
| `Scenarios.ExplicitPathBeatsNewFile` | main.py:180-181 | `-s /tmp/out` is chosen although a new `cache.tmp` appeared, and `/tmp/out` is uploaded as a folder |
| `Scenarios.TwoNewEntriesUploadWorkingDir` | main.py:182-185 | two new entries: the working directory is uploaded |
| `Scenarios.NullIdentityExitsBeforeDownload` | main.py:70-77 | a Null identity at the early login: one login, then `Exit(1)` |

## Left out

- The Aliyun Drive client (`Aligo` construction, `get_personal_info`, `upload_file`, `upload_folder`): a foreign library. Its identity probe is the `LoginProbe` oracle; the uploads are the outcome values. Faults raised by the upload calls are not modelled.
- `install_hfdownloader` (main.py:131-159): platform dispatch, shells and network scripts. Its result is the `installSucceeds` boolean.
- The downloader subprocess (main.py:55-63): only its return code is modelled. A downloader missing from `PATH` at that point would raise an uncaught `FileNotFoundError`; that is not modelled.
- `parse_args` (main.py:100-128), including the help path that prints usage and exits 0: argparse behaviour. The model takes the known options (`Known`) and the forwarded arguments as given.
- `Path.expanduser().resolve()`, `Path.cwd()`, `Path.cwd() / name`, `exists()` and `is_dir()`: filesystem queries, modelled as uninterpreted functions in `PathOps` and `World`. Nothing relates an explicit path to the entry paths.
- Windows path comparison: `WindowsPath` equality ignores case, so there `current - start_snapshot` treats `Model` before the download and `model` after it as one entry, while `Snapshot.DetectNewItems` compares names exactly and reports `model` as new. The model follows POSIX semantics.
- StorageFlag.ExplicitStoragePath: normalisation is a total function, so the model does not represent `expanduser()` raising `RuntimeError` (a token such as `~nosuchuser/x` after `-s` or `--storage`). In the program that exception escapes `main` after the download, the status is 1 and nothing is uploaded; in the model the run goes on to the existence check.
- The fixed e-mail credential configuration (main.py:15-22): configuration, no behaviour.
- Logging and printed messages.
- Pipeline.ExitStatus: `Exit(c)` maps to the value given to `sys.exit`, not to the status the operating system reports, which keeps only the low 8 bits (a downloader killed by SIGKILL returns -9, and `sys.exit(-9)` is reported as 247 on POSIX).
- Pipeline.Main: `Exit(c)` carries the value given to `sys.exit`; the operating system's truncation of the status to its low 8 bits is not modelled.
- NameOrder.NameLess: compares Dafny characters (Unicode scalar values); Python strings may also hold lone surrogates (from `surrogateescape` file names), which the model does not represent.
