# karx: resource guardian, code-map store and access gate in Dafny

This project models the parts of karx that hold state and carry invariants:

- the **resource guardian** (`GuardianAngel`), which samples CPU and memory load, keeps a rolling history that every check cuts to the newest 100 snapshots (a history loaded from disk may be longer until then), saves it whenever the new length is a multiple of 10 (so on every check once the history is full), reports breaches of strict limits, and computes the average and peak over a trailing window;
- the **code-map store** (`MemoryManager`), which is one JSON file with a `.json.bak` backup and a `.tmp` file used for an atomic replace, and loads through a three-tier fallback;
- the **access gate** (`SecureConfig`), which keeps settings on disk, stores a SHA-256 digest of the access token, and checks paths against allowed directories by whole path components;
- the pure **helpers** `sanitize_filename`, `get_file_type` and `get_relative_path`;
- the **line explainer**, which numbers the code lines of a file and labels each one by the first keyword it contains.

Modules:

- `Wrappers`: `Option` and `Result`.
- `Storage`: the abstract file. A file slot holds a document that decodes (`Doc`), holds text that does not decode (`Malformed`), or cannot be read (`Unreadable`). A missing file is `None`. A write is `Written`, `Refused` (nothing changes, an exception is raised) or `Torn` (the file is left undecodable, an exception is raised). Which outcome each step has is an input, so every contract is exact rather than nondeterministic. Serialisation is the `Doc` constructor itself, so parsing what was written gives back the same value.
- `Strings` and `Paths`: the parts of `str` and of POSIX `pathlib` that the core uses. A path is whether it is absolute plus the sequence of its parts, and `is_relative_to` is a whole-part prefix test.
- `Monitor`, `Memory`, `Config`, `Helpers` and `Explainer`: the five core files. Each class keeps the fields the Python object updates, and its methods are proved equal to pure specification functions. The properties are proved about those functions.

The sampler (`psutil`), the clock, the working directory seen by `resolve()`, the outcome of `stat()`, the verdict of `ast.parse` and the hash function are all parameters.

Places where what the code does differs from what it announces:

- The docstring of `check_resources` (karx/monitor/guardian_angel.py:58-59) says it raises `ResourceThresholdError` when a limit is exceeded. In the code, that error is raised at karx/monitor/guardian_angel.py:84, inside the `try` opened at :61, so the handler at :88-90 catches it. The method then returns the all-zero status, and the breaching sample stays in the history. The model returns `Idle(now)` and reports what the handler logs as a separate `logged` value.
- `get_average_usage` and `get_peak_usage` call `sum(...) / len(...)` (:125) and `max(...)` (:149) on the window `self.snapshots[-last_n:]`. When `last_n <= -len(history)` that window is empty, and the division or `max` raises. The model returns `Err(EmptyWindow)` for it.
- The comment at karx/monitor/guardian_angel.py:79 says the history is saved every 10 snapshots. The test at :80 is that the length after the append is a multiple of 10. Once eviction holds the length at 100, every check saves (`FullHistorySavesEveryTime`), and a loaded history of 105 snapshots saves on the first check.
- The docstring of `_load_memory` (karx/memory/memory_manager.py:18) promises backup handling. Only a `JSONDecodeError` (karx/memory/memory_manager.py:24) reaches the backup tier. A main file that cannot be read as text, for example through `UnicodeDecodeError` or `PermissionError` at :23, goes to the outer handler at :46-48, which returns an empty map without trying the backup. The next successful save then copies that file over the good backup (`UnreadablePrimaryLosesBackup`).

## Model

| member | source | states |
|---|---|---|
| Monitor.TailSlice | karx/monitor/guardian_angel.py:44 | Python's `xs[-n:]`: the result is a suffix of `xs`; for `n > 0` it has `min(n, len)` elements, for `n == 0` it is all of `xs`, for `n < 0` the first `-n` are dropped |
| Monitor.RecordKeepsNewest | karx/monitor/guardian_angel.py:74-77 | appending gives `min(old length + 1, 100)` snapshots from any starting length, and they are the newest of `history + [s]` in order, with `s` last |
| Monitor.FullHistorySavesEveryTime | karx/monitor/guardian_angel.py:76-81 | once the history holds 99 or more snapshots, the length after an append is 100, so every check triggers a save |
| Monitor.RecordAllKeepsNewest | karx/monitor/guardian_angel.py:74-77 | after any non-empty run of checks, the history is exactly the newest 100 snapshots of the old history followed by all new samples |
| Monitor.Record | karx/monitor/guardian_angel.py:74-77 | appending one snapshot gives between 1 and 100 snapshots, with the new one last |
| Monitor.Total | karx/monitor/guardian_angel.py:125 | the sum of non-negative values is non-negative |
| Monitor.TotalAtMostPeak | karx/monitor/guardian_angel.py:125 | when every value is at most a bound, the sum is at most the count times that bound |
| Monitor.Peak | karx/monitor/guardian_angel.py:149-150 | `max`: the result is at least every element and equal to one of them |
| Monitor.Mean | karx/monitor/guardian_angel.py:125-126 | `sum / len`: the mean times the number of values is their sum |
| Monitor.MeanAtMostPeak | karx/monitor/guardian_angel.py:125-126 | the mean of a non-empty window is at most its peak |
| Monitor.PeakSnapshot | karx/monitor/guardian_angel.py:149-156 | the peak snapshot's CPU and memory values are each at least every value in the window and equal to one of them, read independently |
| Monitor.LoadHistory | karx/monitor/guardian_angel.py:28-36 | the stored snapshots when the history file decodes, and no snapshots when it is missing or does not decode |
| Monitor.SavedHistoryReloads | karx/monitor/guardian_angel.py:25-47 | reloading after a completed save gives the saved snapshots; after a torn save it gives none; after a refused save it gives what the old file held |
| Monitor.GuardianAngel.constructor | karx/monitor/guardian_angel.py:16-25 | the limits are the given configuration, and the history is what `LoadHistory` finds in the file |
| Monitor.GuardianAngel.Default | karx/monitor/guardian_angel.py:16-25 | with no arguments the limits are 90% CPU and 85% memory, the interval is one second, and the history is what `LoadHistory` finds in the file |
| Monitor.GuardianAngel.SamplingInterval | karx/monitor/guardian_angel.py:63 | the interval given to the sampler is the configured one, capped at one second |
| Monitor.GuardianAngel.Breaches | karx/monitor/guardian_angel.py:99-108 | a CPU message exists iff cpu > max_cpu and a memory message iff memory > max_memory (a value equal to the limit is not a breach); no other messages; CPU comes before memory; the list is empty iff both are within their limits |
| Monitor.GuardianAngel.CheckThresholds | karx/monitor/guardian_angel.py:92-108 | the message list built by appending is exactly `Breaches(status)` |
| Monitor.GuardianAngel.SaveHistory | karx/monitor/guardian_angel.py:38-49 | the file is written with the last 100 in-memory snapshots and the timestamp; a failed write leaves the in-memory history alone |
| Monitor.GuardianAngel.CheckResources | karx/monitor/guardian_angel.py:51-90 | a failed sample, or a negative sampling interval (on which `cpu_percent` raises), gives the zero status and changes nothing; otherwise the sample is recorded with eviction, the file is written with the whole history iff the new length is a multiple of 10, the sample is returned when within limits, and the zero status is returned when over a limit, with the breaches logged and the sample kept in the history |
| Monitor.GuardianAngel.Window | karx/monitor/guardian_angel.py:120-123 | the window is a suffix of the history; `None`, 0 and any `n >= len` give the whole history; `0 < n <= len` gives `n` snapshots |
| Monitor.GuardianAngel.AverageUsage | karx/monitor/guardian_angel.py:110-132 | an empty history gives the zero status; an empty window is an error; otherwise each field times the window length is the window's sum for that field |
| Monitor.GuardianAngel.PeakUsage | karx/monitor/guardian_angel.py:134-156 | an empty history gives the zero status; an empty window is an error; otherwise each field is the maximum of that field over the window |
| Monitor.GuardianAngel.AverageAtMostPeak | karx/monitor/guardian_angel.py:110-156 | whenever the average is defined, the peak is defined too, and the average's CPU and memory values are at most the peak's |
| Storage.Write | karx/memory/memory_manager.py:75 | `write_text` with outcome `w`: a completed write of a document reads back as that document, a torn write leaves a file that does not decode, a refused write leaves the slot as it was, and every write that is not refused leaves a file |
| Memory.EmptyMemory | karx/memory/memory_manager.py:38-58 | the fresh map has empty `files`, `functions`, `classes` and `variables`, stamped with the current time |
| Memory.Load | karx/memory/memory_manager.py:17-48 | a decodable primary is returned and the disk is left alone; the backup and temp files are never written; an unreadable primary gives the empty map with the backup untried and nothing written; a missing or malformed primary with a good backup has the backup written over it, and the result is the backup's map when that write completes and the empty map otherwise; the primary changes only in that case; the result comes from the primary, the backup or the empty map; afterwards the primary decodes to the result unless the result is the empty map |
| Memory.LoadRestoresBackup | karx/memory/memory_manager.py:27-34 | with a missing or corrupt primary and a good backup, a successful restore rewrites the primary with the backup's map and returns that map |
| Memory.LoadFallsBackToEmpty | karx/memory/memory_manager.py:38-48 | when neither file decodes, the load returns the empty map and writes nothing |
| Memory.Save | karx/memory/memory_manager.py:60-84 | true iff the directory exists, the copy succeeds when there is a primary, and the temp write and the replace succeed; a failed `mkdir` changes nothing; once the directory exists, an existing primary is copied to the backup with the copy's outcome, whatever its bytes hold and whether or not a later step fails; the map is stamped and the temp file written exactly when the copy was not needed or completed; a successful save leaves the stamped map in the primary, the old primary in the backup (the backup is unchanged when there was no primary) and no temp file; the map changes only in `last_updated`; a failed save never changes the primary |
| Memory.SaveOverUnreadablePrimary | karx/memory/memory_manager.py:66-80 | a primary that cannot be read as text is still copied byte for byte, so a save over it can succeed: the backup then holds the unreadable file and the primary holds the stamped map |
| Memory.UnreadablePrimaryLosesBackup | karx/memory/memory_manager.py:17-84 | with an unreadable primary and a good backup, the load gives the empty map, and a successful save then leaves the unreadable file in the backup |
| Memory.SaveThenLoad | karx/memory/memory_manager.py:71-78 | after a successful save, a load returns the saved map, with its refreshed stamp, and writes nothing |
| Memory.SaveKeepsGoodPrimary | karx/memory/memory_manager.py:60-84 | when the primary decoded before a save, the next load returns either the newly saved map or the old primary's map |
| Memory.SaveBacksUpCorruptPrimary | karx/memory/memory_manager.py:66-68 | the copy does not check what it copies: once the directory exists and the copy completes, a save over a corrupt primary replaces a good backup with a corrupt one, even when the temp write or the replace then fails |
| Memory.WithFile | karx/memory/memory_manager.py:105 | the entry for the key is the new record; every other file entry, the other maps and the stamp are unchanged |
| Memory.RecordFor | karx/memory/memory_manager.py:96-102 | the record has `size = len(content)`, the given modification time and empty symbol lists |
| Memory.MemoryManager.constructor | karx/memory/memory_manager.py:12-15 | the map and the disk are those `Load` gives |
| Memory.MemoryManager.LoadMemory | karx/memory/memory_manager.py:17-48 | the step-by-step load returns the map and leaves the disk that `Load` gives |
| Memory.MemoryManager.SaveMemory | karx/memory/memory_manager.py:60-84 | the step-by-step save, with no early return for an unreadable primary, returns the result and leaves the map and disk that `Save` gives |
| Memory.MemoryManager.AddFile | karx/memory/memory_manager.py:86-111 | a missing file, or one whose `stat` fails, gives false and changes nothing; otherwise the map gets the record under the resolved path and the result is that of the save |
| Memory.AddedEntryStays | karx/memory/memory_manager.py:105-107 | after adding, the new entry and all other entries are in memory, whether or not the save succeeds |
| Config.DefaultConfig | karx/config/secure_config.py:26-39 | the default has no output path, no token, every permission off and no allowed directories |
| Config.LoadConfig | karx/config/secure_config.py:16-24 | the stored settings when the file decodes, and the default when it is missing, unreadable or does not decode |
| Config.Save | karx/config/secure_config.py:41-51 | true iff the directory, the write and the `chmod` all succeed; a failed `mkdir` changes nothing; otherwise the stamp is refreshed and the file is written with the stamped settings, even when `chmod` then fails |
| Config.SaveThenLoad | karx/config/secure_config.py:41-48 | after a successful save, the next load returns the saved settings |
| Config.TornSaveFailsClosed | karx/config/secure_config.py:19-24 | a write torn half-way fails the save, and the next load gets the all-denying default |
| Config.AllowedUnder | karx/config/secure_config.py:98-99 | the `any(...)` is true iff some allowed directory is the resolved path or one of its ancestors; it is false for an empty list |
| Config.SecureConfig.constructor | karx/config/secure_config.py:12-14 | the settings are what `LoadConfig` finds in the file |
| Config.SecureConfig.SaveConfig | karx/config/secure_config.py:41-51 | the step-by-step save returns the result and leaves the settings and file that `Save` gives |
| Config.SecureConfig.VerifyAccess | karx/config/secure_config.py:76-84 | access is granted iff the stored token equals the digest of the given token; it is always refused when no token or the empty token is stored |
| Config.SecureConfig.SetAccessToken | karx/config/secure_config.py:66-74 | the digest of the token is stored, so a token whose length is not 64 is never stored as itself; the stored digest grants access for that token even when the save fails; the result is that of the save |
| Config.SecureConfig.GetOutputPath | karx/config/secure_config.py:86-92 | `None` iff the stored path is missing or empty, otherwise the parsed path |
| Config.SecureConfig.SetOutputPath | karx/config/secure_config.py:53-64 | a failed directory preparation gives false and changes nothing; otherwise the resolved path is stored, `get_output_path` returns it even when the save fails, and the result is that of the save |
| Config.SecureConfig.IsPathAllowed | karx/config/secure_config.py:94-101 | true iff the resolved path equals an allowed directory or lies below one by whole parts; false when no directory is allowed |
| Config.DefaultDeniesEverything | karx/config/secure_config.py:26-39 | with the default settings, no token is accepted, there is no output path and no path is allowed |
| Config.WholePartContainment | karx/config/secure_config.py:99 | `/a/bc` is not under `/a/b`, while `/a/b/c` is |
| Helpers.Sanitized | karx/utils/helpers.py:53-59 | the length is kept, no invalid character is left, each invalid character becomes `_`, and every other character is unchanged |
| Helpers.SanitizedIdempotent | karx/utils/helpers.py:53-59 | sanitizing twice is sanitizing once, and a name without invalid characters is left as it is |
| Helpers.SanitizeFilename | karx/utils/helpers.py:53-59 | the loop of per-character replacements computes `Sanitized(filename)` |
| Helpers.GetFileType | karx/utils/helpers.py:32-34 | `""` iff there is no suffix; otherwise the suffix without its dot, lower-cased, taken from the end of the name, with no dot and no upper-case letter |
| Helpers.GetRelativePath | karx/utils/helpers.py:44-51 | when the base (the working directory by default) is a whole-part prefix, the result is relative and joining the base back gives the path; otherwise the path comes back unchanged |
| Paths.KeepParts | karx/config/secure_config.py:90 | a piece is kept iff it is a real path part, that is neither empty nor `.` |
| Paths.KeepPartsSingle | karx/config/secure_config.py:90 | a lone piece is kept iff it is a real part |
| Paths.KeepPartsConcat | karx/config/secure_config.py:90 | filtering a concatenation is concatenating the filtered halves, so kept pieces stay in their order |
| Paths.Parse | karx/config/secure_config.py:89-90 | `Path(s)` is absolute iff `s` starts with `/`, and a string is one of its parts iff it is a piece between slashes that is neither empty nor `.` |
| Paths.Format | karx/config/secure_config.py:60 | `str(path)` is never empty, and it starts with `/` iff the path is absolute |
| Paths.IsRelativeTo | karx/config/secure_config.py:99 | `is_relative_to` holds iff both paths are absolute or both relative and the base's parts are a prefix of the path's parts |
| Paths.Name | karx/utils/helpers.py:34 | the name is empty iff the path has no parts; it never holds a slash and is never `.` |
| Paths.Resolve | karx/config/secure_config.py:56 | `resolve()` gives an absolute path with no `..`, and leaves an already resolved path alone |
| Paths.ParseFormat | karx/config/secure_config.py:89-90 | parsing a printed path gives the same path, so a stored output path reads back as itself |
| Paths.RelativeTo | karx/utils/helpers.py:50 | `relative_to` succeeds iff the base is a whole-part prefix, and then joining the base and the result gives the path |
| Paths.RelativeToJoin | karx/utils/helpers.py:50 | a relative path appended to a base comes back out of `relative_to` |
| Paths.Suffix | karx/utils/helpers.py:34 | the suffix starts at the last dot of the name, has no other dot, and is empty iff the name has no dot, or its last dot is the first or the last character of the name |
| Strings.Split | karx/core/explainer.py:31 | the pieces are at least one, none holds the separator, and joining them gives the text back |
| Strings.SplitJoin | karx/core/explainer.py:31 | splitting joined separator-free pieces gives the pieces back |
| Strings.Strip | karx/core/explainer.py:34 | the stripped text is a slice of the line with only `str.isspace` characters outside it, and it neither starts nor ends with such a character |
| Strings.JoinSnoc | karx/core/explainer.py:31 | joining with one more piece at the end adds the separator and that piece |
| Strings.Contains | karx/core/explainer.py:51-60 | `sub in s` iff `sub` occurs at some position of `s` |
| Strings.Lower | karx/utils/helpers.py:34 | the length is kept; each upper-case ASCII letter becomes its lower-case letter and every other character is unchanged; no upper-case ASCII letter is left |
| Strings.LowerIdempotent | karx/utils/helpers.py:34 | lower-casing a second time changes nothing |
| Strings.LowerTail | karx/utils/helpers.py:34 | lower-casing and then dropping the dot is dropping the dot and then lower-casing |
| Strings.ReplaceChar | karx/utils/helpers.py:58 | `str.replace` of one character: the length is kept, each occurrence becomes the replacement, every other character stays, and none of the replaced character is left when the two differ |
| Strings.LastIndexOf | karx/utils/helpers.py:34 | the position of the last occurrence of the character, or none when it does not occur |
| Explainer.ExplanationsDistinct | karx/core/explainer.py:51-62 | the six answers are pairwise different, one per marker plus the fallback |
| Explainer.ExplainLinePriority | karx/core/explainer.py:47-62 | the answer is that of the first marker the line contains, in the order `=`, `def `, `class `, `return `, `import `, and the fallback when it contains none |
| Explainer.AssignmentBeatsDefinition | karx/core/explainer.py:51-54 | a line with both `=` and `def ` is explained as an assignment |
| Explainer.ExplainLine | karx/core/explainer.py:47-62 | the answer is one of the six explanations, and it is the assignment text iff the line contains `=` |
| Explainer.Lines | karx/core/explainer.py:31 | empty text has no lines; otherwise no line holds a line break, and joining the lines with `\n`, plus one final `\n` when the text ends with one, gives the text back |
| Explainer.Explained | karx/core/explainer.py:33-39 | the first `n` lines give at most `n` entries |
| Explainer.ExplainedDescribes | karx/core/explainer.py:33-39 | after `n` lines there are at most `n` entries, each with a 1-based number within `[1, n]`, the stripped non-blank, non-comment text of that line and its explanation |
| Explainer.ExplainedIncreasing | karx/core/explainer.py:33-39 | the line numbers of the entries strictly increase |
| Explainer.ExplainedComplete | karx/core/explainer.py:34-39 | every kept line has an entry |
| Explainer.Explain | karx/core/explainer.py:12-45 | unreadable or unparsable content gives no entries; otherwise the loop's entries are exactly the reference list for all lines of the file |

## Left out

- Paths.Parse: the contract states which strings are parts. It does not state their order. The order follows from the definition, which filters the split pieces through `KeepParts`, and from `KeepPartsSingle` and `KeepPartsConcat`.
- Sampling, clocks and timing: `psutil.cpu_percent` and `psutil.virtual_memory` (karx/monitor/guardian_angel.py:63, 66) are the input `Sample`, and `datetime.now` is an input. All calls to `datetime.now` within one operation are taken to be one instant. The blocking sampling interval has no effect on the model beyond `SamplingInterval`, except that a negative one fails the check as `cpu_percent` does.
- Concurrency: the `threading.Lock` of the guardian plays no part in a sequential model, and the unlocked length read at karx/monitor/guardian_angel.py:80 is not modelled as a race.
- Floating point: percentages are `real`, and the average is an exact division with no rounding, so its contract is stated as `mean * count == sum`.
- JSON: documents that decode into the wrong shape (a list instead of an object, missing keys, wrong field types) are not modelled. A file either decodes to the model's record or is `Malformed`. So `data.get('snapshots', [])` on a document without that key is not represented.
- Extractors: `_extract_functions`, `_extract_classes` and `_extract_variables` are stubs that return `[]`, so `RecordFor` uses empty lists directly. `get_suggestions` is a stub that returns `[]` and is not modelled.
- Filesystem details: `shutil.copy2` metadata, the atomicity of `replace`, `mkdir` races and the `os.chmod` permission bits are not modelled. The `chmod` only contributes its success or failure. The three files of the code-map store are assumed distinct. A primary that is itself named `*.tmp` would alias the temp file, and that case is not modelled.
- `Path.resolve`: symbolic links and the POSIX special case of a leading `//` are not modelled. The working directory is an absolute input without `..`, and `resolve()` or `exists()` raising is folded into the `FileProbe` and `ready` inputs.
- `hashlib.sha256` is an uninterpreted function from string to a 64-character digest, and the UTF-8 encoding of the token is folded into it.
- Text: `str.strip` removes exactly the characters `str.isspace` accepts. `str.lower` is modelled on ASCII letters only, so Unicode case mapping is not modelled. `str.splitlines` is modelled for `\n` line breaks only; the other line separators (`\r\n`, `\r`, `\x0b`, `\x1c`, …) are not modelled.
- `ast.parse` is the boolean input `parses`, and reading the file is `content`, with `None` for a read error. The syntax tree handed to `_explain_line` is unused there and is dropped.
- Thin I/O wrappers in karx/utils/helpers.py (`ensure_directory`, `load_json_file`, `save_json_file`, `list_files`) are not modelled. They only forward to the filesystem.
- File names: the history file, the code-map file and the settings file are given by their contents, so the default name `monitor/resource_history.json` (karx/monitor/guardian_angel.py:24) has no counterpart.
- Logging is not modelled. The guardian's `logged` output names what its handler logs.
- karx/main.py, karx/app.py, karx/secure_init.py, karx/config/api_config.py, karx/clipboard/clipboard_listener.py, karx/core/linker.py, karx/core/smartfix.py and karx/core/code_writer.py are not part of this model. They are command-line glue, a web front end, an interactive setup, environment reading, a polling thread and placeholder code generators.
