# VegaOptimizer core, modelled in Dafny

VegaOptimizer is a Windows system-maintenance desktop application.  Its
back end is a set of Rust modules that read PowerShell, `reg`, `sc`,
`wmic` and `driverquery` output, walk folders, classify what they find
and refuse dangerous requests.  This project models the decision, parsing
and bookkeeping logic of those modules and proves what it promises.

- **Duplicate finder** (`duplicates.dfy`, module `Duplicates`).  The
  directory walk is a recursive method over a listing tree: hidden,
  `node_modules` and `AppData` directories are pruned and the depth is
  bounded.  It fills a map of size buckets and counts the files.  Phase 2
  fingerprints every bucket of two or more files, reading the size, the
  first 8 KiB and, above 16 KiB, the last 8 KiB.  The hasher is a function
  parameter about which nothing is assumed.  One fingerprint map serves
  every bucket, so files of different sizes whose fingerprints collide
  share a group; when the files found have no such collision, every group
  holds files of one size.  Phase 3 builds the groups, which
  are then ranked by wasted space; the totals are taken before the cut to
  100.  `delete_duplicate` refuses system directories.
- **Commands** (`lib.dfy`, module `Commands`).  The guard chain of
  `cmd_delete_file`, and the process-suggestion engine of
  `cmd_get_process_suggestions`: name tallies, the protected list, the
  bloated, idle-hog, duplicate and background rules, the severity sort and
  the cut to 50.
- **Scanner** (`scanner.dfy`, `categories.dfy`).  The bounded large-file
  walk, the extension categories, the age label, the driver CSV parsers,
  browser detection with the cache folders `clean_browser_cache` empties,
  and the privacy-item ids `clean_privacy_item` accepts.
- **Services, AppX packages, startup entries** (`services.dfy`,
  `debloater.dfy`, `startup.dfy`).  Table classification with
  first-match priority, line parsers, sorts and refusal guards.
- **Registry, network, battery, disk health, health score**
  (`registry.dfy`, `network.dfy`, `battery.dfy`, `disk_health.dfy`,
  `monitor.dfy`).  Line parsers with field-count gates, per-key tallies,
  code-to-label mappings, score bands and caps.
- Shared modules:
  - `Wrappers`: Option and Result;
  - `Text`: split, join, trim, replace, decimal and hexadecimal text;
  - `Parsing`: lines and the parse-and-collect loop;
  - `Sorting`: a stable sort by a (tier, weight) key, take, sums;
  - `Maps`: iteration order of a map;
  - `Shell`: the outcome of a command;
  - `Fs`: a volume of files with `remove_file` and `rename`.

Every command the program runs is an input: its outcome (`Shell.Outcome`,
the exit status and standard output) is a parameter.  The state-changing
operations return the commands they would run, so a guard can be stated
as "no command is run".  Folder listings are `Listing` trees, what
`read_dir` would yield.  Iteration over a `HashMap` or a sysinfo process
table happens in an order the model does not fix.  It is an input sequence
(process tables, connection counts) or any order of the map's keys
(`Maps.KeysInSomeOrder`), and every property is proved for all orders.
Sizes and memory are whole bytes.  The program's floating-point megabyte
thresholds are exact byte thresholds, because 1048576 is a power of two.

Imperative code is kept imperative.  Each loop that pushes into a `Vec`,
increments a `HashMap` entry or overwrites a field in place becomes a
`method` with a `while` or `for` loop.  Its invariants tie the loop's
state to a specification function of the input read so far.  The
properties are then proved about that function.

## Model

| member | source | states |
|---|---|---|
| Duplicates.ScanDirs | src-tauri/src/duplicates.rs:39-47 | the six folders under the user profile, with `C:\Users\Default` when `USERPROFILE` is unset |
| Duplicates.BucketsOf | src-tauri/src/duplicates.rs:50-165 | bucket `k` holds exactly the bucketed files of size `k`, in order; there is a bucket only for a size some file has |
| Duplicates.WalkDirReached | src-tauri/src/duplicates.rs:154-186 | a file is bucketed by the walk exactly when it is at least `min_bytes` long and reached without passing a pruned directory (leading '.', `node_modules`, `AppData`), an unreadable one, or depth above 4 |
| Duplicates.DiscoveredReached | src-tauri/src/duplicates.rs:53-186 | `files_scanned` counts, and the buckets hold, exactly the qualifying files reached from some top-level folder at depth 0 |
| Duplicates.ScanDirectory | src-tauri/src/duplicates.rs:146-187 | the recursive walk adds to the counter and the buckets exactly the files the walk specification describes |
| Duplicates.ScanEntry | src-tauri/src/duplicates.rs:158-182 | one entry's turn of the loop adds to the counter and the buckets exactly what the walk specification says that entry contributes |
| Duplicates.ScanFolders | src-tauri/src/duplicates.rs:49-55 | phase 1: the buckets and count of all six folders' walks |
| Duplicates.SampleOf | src-tauri/src/duplicates.rs:196-213 | the hashed sample is the size, the first `min(8192, size)` bytes and, only above 16384 bytes, the last 8192 |
| Duplicates.QuickHash | src-tauri/src/duplicates.rs:190-216 | a fingerprint exactly for a readable file, 16 characters long |
| Duplicates.FingerprintIsHex | src-tauri/src/duplicates.rs:215 | the fingerprint is 16 hex digits spelling the hasher's 64-bit value |
| Duplicates.FingerprintDeterminesHash | src-tauri/src/duplicates.rs:198-215 | two fingerprints agree iff both files are readable and the hasher gives their samples the same 64-bit value |
| Duplicates.MiddleIgnored | src-tauri/src/duplicates.rs:199-213 | two files of one size that agree on the sampled bytes collide, however their middles differ |
| Duplicates.HashBucket | src-tauri/src/duplicates.rs:65-72 | the inner loop of phase 2 appends to each fingerprint's group exactly the bucket's readable files with that fingerprint, in order |
| Duplicates.HashPhase | src-tauri/src/duplicates.rs:57-73 | phase 2, in some order of the size buckets: each fingerprint's entry holds the readable files of every bucket of two or more with that fingerprint, bucket after bucket in the visiting order, each tagged with its bucket's size; buckets of one file are never hashed |
| Duplicates.GatheredMembers | src-tauri/src/duplicates.rs:60-72 | every file gathered under a fingerprint is readable, has that fingerprint and comes from a visited bucket of two or more, tagged with its size |
| Duplicates.GatheredComplete | src-tauri/src/duplicates.rs:60-72 | every readable file of a visited bucket of two or more is gathered under its fingerprint |
| Duplicates.PhaseStep | src-tauri/src/duplicates.rs:60-73 | one bucket's pass appends that bucket's contributions to the entries of the one shared map, and a bucket of one file changes nothing |
| Duplicates.BucketsDisjoint | src-tauri/src/duplicates.rs:58-72 | when the found files have no cross-size fingerprint collision, no two size buckets contribute to one fingerprint |
| Duplicates.GatheredSingle | src-tauri/src/duplicates.rs:57-73 | without cross-size collisions, what the shared map holds under a fingerprint is exactly the one contributing bucket's files |
| Duplicates.GroupedWithoutCollision | src-tauri/src/duplicates.rs:57-73 | without cross-size collisions, in any visiting order, every map entry is one bucket's contribution and every contribution is an entry |
| Duplicates.CollisionMergesSizes | src-tauri/src/duplicates.rs:58-83 | when the fingerprints of two sizes collide, in either bucket order their four files form one group whose size is its first member's and which holds a file of the other size |
| Duplicates.RoundDiv | src-tauri/src/duplicates.rs:94-96 | the `{:.0}` rendering of a day count divided by 365 or 30: nearest integer, ties to even |
| Duplicates.AgeLabel | src-tauri/src/duplicates.rs:87-103 | "Unknown" exactly when there is no modification time, "Today" exactly for less than one day after the epoch |
| Duplicates.AgeLabelUnits | src-tauri/src/duplicates.rs:90-101 | the label is in years iff days > 365, in months iff 30 < days <= 365, in days iff 0 < days <= 30, and then shows the day count; days are counted from the epoch, not from now |
| Duplicates.LastDot | src-tauri/src/duplicates.rs:105-108 | the position of the last '.' of a name, or none |
| Duplicates.Extension | src-tauri/src/duplicates.rs:105-108 | the text after a dot that is not the name's first character, itself free of dots; none for a dot-free name |
| Duplicates.ToDuplicateFiles | src-tauri/src/duplicates.rs:84-117 | one file entry per member, in order, with its path and size |
| Duplicates.MakeGroupShape | src-tauri/src/duplicates.rs:83-125 | a group holds its 16-character hash, the first member's size, `count` = number of members and `wasted = size × (count − 1)` |
| Duplicates.BuildGroups | src-tauri/src/duplicates.rs:75-126 | phase 3: one group per fingerprint with two or more members, each once; groups of one member are dropped |
| Duplicates.GroupingOfPhases | src-tauri/src/duplicates.rs:57-126 | phases 2 and 3 together list, once each, the group of every fingerprint under which the shared map gathered two or more files, and no other group |
| Duplicates.MergedGroupsShaped | src-tauri/src/duplicates.rs:78-125 | every group has at least 2 members, the first member's size, the count and `size × (count − 1)` waste, and no file below `min_bytes` |
| Duplicates.MergedIsGrouping | src-tauri/src/duplicates.rs:57-126 | without cross-size collisions, the groups are exactly the sets of two or more files of one size bucket sharing a fingerprint |
| Duplicates.GroupsWellFormed | src-tauri/src/duplicates.rs:61-125 | in a per-bucket grouping every group has at least 2 members all of one size, at least `min_bytes`, and the right count and waste |
| Duplicates.Ranked | src-tauri/src/duplicates.rs:128-138 | sorting keeps both totals; the first 100 are sorted by waste, largest first, and drawn from the groups |
| Duplicates.ScanDuplicates | src-tauri/src/duplicates.rs:35-144 | `files_scanned` counts the qualifying files; the groups are the first 100, by waste, of the groups of the shared fingerprint map in some bucket order; the totals `Σ(count − 1)` and `Σ wasted` are over all groups; every returned group is shaped and at least `min_bytes`; without cross-size collisions the groups are the per-bucket grouping and every copy in a group has one size |
| Duplicates.DeleteDuplicate | src-tauri/src/duplicates.rs:219-233 | a path whose lower-case text contains `\windows\`, `\program files` or `\system32` is refused and nothing is removed; otherwise `Ok("Deleted: " + path)` exactly when `remove_file` succeeds, which removes only that file |
| Commands.DeleteFile | src-tauri/src/lib.rs:98-118 | in order: "File not found", "Not a file", "Cannot delete system files" for a lower-case path starting with `c:\windows` or `c:\program files`, each leaving the volume unchanged; otherwise one `remove_file`, Ok exactly when it succeeds |
| Commands.SystemPathIgnoresCase | src-tauri/src/lib.rs:108-109 | upper-case letters do not get a path past the system-path guard |
| Commands.DeleteFileTouchesOnlyPath | src-tauri/src/lib.rs:112-116 | whatever the outcome, no path other than the given one gains or loses a file |
| Commands.LowerNames | src-tauri/src/lib.rs:233 | the lower-cased name of each process, in order |
| Commands.TallyNames | src-tauri/src/lib.rs:229-236 | the tally loop computes `name_counts` and `name_memory` |
| Commands.CountsStep | src-tauri/src/lib.rs:234 | one process adds 1 to its lower-case name's count, leaving every other name's count unchanged |
| Commands.MemoryStep | src-tauri/src/lib.rs:235 | one process adds its memory to its name's total, leaving every other total unchanged |
| Commands.NameCountsMeaning | src-tauri/src/lib.rs:229-236 | a name has a tally exactly when some process has that lower-case name, with a count of at least 1 and a memory total |
| Commands.PushFor | src-tauri/src/lib.rs:239-313 | the body of the second loop appends exactly the suggestions the rules give for one process |
| Commands.PushedFor | src-tauri/src/lib.rs:244-313 | at most two suggestions per process, none for a protected name or under 2 MiB, each carrying the process's own figures and meeting its rule |
| Commands.PushedFirst | src-tauri/src/lib.rs:252-278 | "bloated" iff mem > 200 MiB and cpu < 2; "idle_hog" iff not bloated, mem > 50 MiB and cpu < 1; never both |
| Commands.PushedDuplicate | src-tauri/src/lib.rs:281-298 | "duplicate" iff instances > 3, name memory > 100 MiB, mem > 20 MiB and no duplicate suggestion for that name exists yet |
| Commands.PushedBackground | src-tauri/src/lib.rs:301-313 | "background" iff mem > 30 MiB, cpu < 0.5 and no earlier suggestion carries the pid, and then is the process's only suggestion |
| Commands.CandidatesSound | src-tauri/src/lib.rs:238-314 | every collected suggestion is for an eligible process of the table and its kind's rule holds |
| Commands.CandidatesComplete | src-tauri/src/lib.rs:238-314 | an eligible process meeting the bloated or idle-hog rule gets that suggestion; one meeting the duplicate rule has a duplicate suggestion for its name |
| Commands.DuplicatesPerName | src-tauri/src/lib.rs:284-285 | at most one "duplicate" suggestion per lower-case name |
| Commands.BackgroundAlone | src-tauri/src/lib.rs:301 | with distinct pids, a "background" suggestion is the only one for its process |
| Commands.RankBySeverity | src-tauri/src/lib.rs:317-321 | the sort key puts high (bloated) before medium (idle_hog, duplicate) before low (background), then more memory first |
| Commands.SuggestionsShape | src-tauri/src/lib.rs:316-323 | at most 50 suggestions, sorted by that key, drawn from the collected ones (all of them when there are at most 50), none for a protected or small process |
| Commands.SuggestFor | src-tauri/src/lib.rs:226-324 | both loops, the sort and the truncation compute the specified suggestion list |
| Commands.GetProcessSuggestions | src-tauri/src/lib.rs:196-326 | the same with `PROTECTED_PROCESSES` |
| Scanner.DaysAgo | src-tauri/src/scanner.rs:100-106 | whole days from the modification time to now, for a time not after now |
| Scanner.AgeLabel | src-tauri/src/scanner.rs:95-115 | "Unknown" iff no time, "Today" iff 0 days, "Yesterday" iff 1, otherwise "{n} days ago" |
| Scanner.AgeLabelsDistinct | src-tauri/src/scanner.rs:107-113 | different day counts give different labels |
| Scanner.ScanDirRecursive | src-tauri/src/scanner.rs:48-128 | the recursive walk appends exactly what the walk specification gives |
| Scanner.WalkGrown | src-tauri/src/scanner.rs:55-90 | the walk only appends, never past `max`, only regular files of at least `min_bytes` |
| Scanner.DirContentsIgnored | src-tauri/src/scanner.rs:59-89 | the contents of a skipped directory, or of any directory at the last level, never affect the result |
| Scanner.ScanLargeFiles | src-tauri/src/scanner.rs:19-46 | `scan_large_files` computes the specified list |
| Sorting.SortBy | src-tauri/src/scanner.rs:39-43 | the sort used by every `sort_by`: sorted by the key, a permutation of its input |
| Sorting.SortByStable | src-tauri/src/scanner.rs:39-43 | the sort is stable: the elements of any one key keep their input order |
| Sorting.TakeSorted | src-tauri/src/scanner.rs:44 | `truncate` keeps a sorted list sorted |
| Scanner.LargeFilesShape | src-tauri/src/scanner.rs:19-94 | at most `max_results` files, largest first, a permutation of every file the walks found, each at least the minimum size and categorised by its extension |
| Categories.UnlistedOther | src-tauri/src/scanner.rs:130-144 | an extension on none of the lists is "Other" |
| Categories.ListedCategorised | src-tauri/src/scanner.rs:130-144 | a listed extension is never "Other" |
| Categories.VideoCategory | src-tauri/src/scanner.rs:132 | the video extensions are "Video" |
| Categories.AudioCategory | src-tauri/src/scanner.rs:133 | the audio extensions are "Audio" |
| Categories.ImageCategory | src-tauri/src/scanner.rs:134 | the image extensions are "Image" |
| Categories.ArchiveCategory | src-tauri/src/scanner.rs:135 | the archive extensions are "Archive" |
| Categories.DiskImageCategory | src-tauri/src/scanner.rs:136 | the disk-image extensions are "Disk Image" |
| Categories.ApplicationCategory | src-tauri/src/scanner.rs:137 | the installer extensions are "Application" |
| Categories.TextCategory | src-tauri/src/scanner.rs:138 | the log and text extensions are "Log/Text" |
| Categories.DocumentCategory | src-tauri/src/scanner.rs:139 | the document extensions are "Document" |
| Categories.BackupCategory | src-tauri/src/scanner.rs:142 | the backup and temporary extensions are "Backup/Temp" |
| Scanner.DriverRecord | src-tauri/src/scanner.rs:404-442 | a driverquery line is kept iff it has 6 fields and a non-empty module name; status "OK" iff the state contains "Running", else "Stopped" |
| Scanner.PnpRecord | src-tauri/src/scanner.rs:454-472 | a PnP line is kept iff it has 5 fields and a device name; signed iff the flag contains "True" |
| Scanner.ListDrivers | src-tauri/src/scanner.rs:388-481 | `list_drivers` computes the specified list; the PnP query runs only after driverquery started |
| Scanner.DriversShape | src-tauri/src/scanner.rs:394-481 | no drivers when driverquery cannot start; otherwise its drivers, headers skipped, then the PnP devices |
| Scanner.DetectBrowsers | src-tauri/src/scanner.rs:158-205 | six browsers with their cache folders, installed iff the folder exists |
| Scanner.BrowserCachePaths | src-tauri/src/scanner.rs:207-239 | "Unknown browser: …" for any name but the four handled; Firefox cleans `cache2` under each profile |
| Scanner.DetectedBrowsersCleanable | src-tauri/src/scanner.rs:162-238 | of the detected browsers, Opera and Vivaldi are refused by the clean command |
| Scanner.CleanPrivacyItem | src-tauri/src/scanner.rs:331-371 | an unknown id gives "Unknown privacy item: …" and touches nothing |
| Scanner.PrivacyItemsAccepted | src-tauri/src/scanner.rs:281-369 | the clean command accepts exactly the ids the listing offers |
| Services.EssentialIffUnsafe | src-tauri/src/services.rs:21-243 | in the table, a row is "essential" exactly when it is not safe to disable |
| Services.FirstMatch | src-tauri/src/services.rs:280-287 | the first row whose pattern occurs in the name, ignoring case, or none |
| Services.ClassifyService | src-tauri/src/services.rs:276-287 | the loop gives the first match's category, flag and advice, or ("unknown", false, "") |
| Services.UnsafeUnlessListedSafe | src-tauri/src/services.rs:276-287 | an essential or unknown service is never safe to disable |
| Services.ParseService | src-tauri/src/services.rs:262-300 | a line is kept iff it has 5 fields; memory is looked up by pid; the verdict is the table's |
| Services.ParseServiceFields | src-tauri/src/services.rs:263-271 | a line of clean fields gives those fields back, with "" for a missing description and 0 for a pid that is not a `u32` |
| Services.ShortServiceLine | src-tauri/src/services.rs:264 | a line of fewer than 5 fields is skipped |
| Services.ReadServiceLine | src-tauri/src/services.rs:262-300 | the loop body reads one line into the record the parser specifies |
| Services.ListServicesBy | src-tauri/src/services.rs:246-316 | the loop and the sort compute the specified listing |
| Services.ListServices | src-tauri/src/services.rs:246-316 | the same with `SERVICE_CLASSIFICATIONS` |
| Services.ListedServicesOrder | src-tauri/src/services.rs:304-313 | the listing is a permutation of the parsed services, running ones first, memory non-increasing within each part |
| Services.UnsafeMatch | src-tauri/src/services.rs:330-331 | some row that is not safe to disable matches the name |
| Services.StopService | src-tauri/src/services.rs:328-340 | no command and "… is an essential system service" iff an unsafe row matches; otherwise one `sc stop` |
| Services.EssentialNotStopped | src-tauri/src/services.rs:276-334 | a service classified as essential is never stopped |
| Services.RefusedThoughListedSafe | src-tauri/src/services.rs:280-334 | a name can be listed as safe to disable and still be refused by the stop guard |
| Services.ScStartType | src-tauri/src/services.rs:344-349 | Automatic or Auto give auto, Manual gives demand, Disabled gives disabled, nothing else is accepted |
| Services.SetServiceStartup | src-tauri/src/services.rs:343-358 | an unknown type is refused before any command; otherwise one `sc config` |
| Debloater.BloatMatch | src-tauri/src/debloater.rs:125-133 | the first bloatware row whose pattern occurs in the name, ignoring case |
| Debloater.IsProtected | src-tauri/src/debloater.rs:136-200 | some protected entry occurs in the name, case kept |
| Debloater.LastSegmentSuffix | src-tauri/src/debloater.rs:120 | the default display name is the dot-free last segment of the name |
| Debloater.VerdictRules | src-tauri/src/debloater.rs:120-143 | removable iff a bloatware row matches and no protected entry does; a protected name is "system"; otherwise the match's display name and category, or the defaults |
| Debloater.FirstBloatVerdict | src-tauri/src/debloater.rs:125-133 | the bloatware loop |
| Debloater.ClassifyPackage | src-tauri/src/debloater.rs:119-143 | both classification loops |
| Debloater.PublisherOfDistinguishedName | src-tauri/src/debloater.rs:155 | a publisher `CN=x, …` shows as `x` |
| Debloater.ParsePackage | src-tauri/src/debloater.rs:105-164 | a kept line has 6 fields, a name and no framework flag; a removable package is never protected |
| Debloater.PackageLineKept | src-tauri/src/debloater.rs:107-150 | a line of clean fields is kept iff it has 6 fields, field 4 is not "True" and the name is non-empty, and then carries those fields and the folder's size |
| Debloater.ReadPackageLine | src-tauri/src/debloater.rs:106-164 | the per-line loop step |
| Debloater.PackageOf | src-tauri/src/debloater.rs:119-164 | the record has the line's name and system flag, is no framework, is never removable when protected, and carries the classification's verdict |
| Debloater.BuildPackage | src-tauri/src/debloater.rs:119-164 | the classification loops and the record-building compute that record |
| Debloater.ListAppxPackagesBy | src-tauri/src/debloater.rs:97-180 | the loop and the sort compute the specified listing |
| Debloater.ListAppxPackages | src-tauri/src/debloater.rs:97-180 | the same with `BLOATWARE_PATTERNS` and `PROTECTED_PACKAGES` |
| Debloater.ListedPackagesOrder | src-tauri/src/debloater.rs:169-177 | the listing is a permutation of the parsed packages, removable first, larger first within each part, none removable and protected |
| Debloater.RemoveAppxPackage | src-tauri/src/debloater.rs:197-219 | no command and "… is a protected system component" iff a protected entry occurs; otherwise one removal command, Ok iff it succeeds, else the trimmed standard error or the spawn error |
| Debloater.RemovableExactly | src-tauri/src/debloater.rs:226 | the filter keeps exactly the removable packages |
| Debloater.RemoveEach | src-tauri/src/debloater.rs:224-233 | the bulk loop reports one entry per removable package |
| Debloater.Removals | src-tauri/src/debloater.rs:224-233 | the bulk result has one entry per package given, the i-th being that package's removal |
| Debloater.RemoveOne | src-tauri/src/debloater.rs:225-232 | one package's bulk entry runs its removal through the guarded command |
| Debloater.RemoveAllBloatwareBy | src-tauri/src/debloater.rs:222-234 | the bulk result is the removal of every removable package of the listing, in order |
| Debloater.RemoveAllBloatware | src-tauri/src/debloater.rs:222-234 | `remove_all_bloatware` computes the specified results |
| Debloater.BulkRemovalRunsEveryCommand | src-tauri/src/debloater.rs:222-234 | one entry per removable package, in listing order; the guard never refuses one; removed iff its command succeeded |
| Startup.EstimateImpact | src-tauri/src/startup.rs:94-120 | always High, Medium or Low, never Unknown |
| Startup.SecurityRatedLow | src-tauri/src/startup.rs:97-116 | a security product is Low iff it carries no High or Medium keyword |
| Startup.ImpactIgnoresCase | src-tauri/src/startup.rs:95 | the estimate does not depend on letter case |
| Startup.ParseRegistryLine | src-tauri/src/startup.rs:65-89 | a kept line is no header and has 3 columns split on four spaces; its name is neither empty nor "(Default)"; the entry is enabled under its key |
| Startup.RegistryLineRoundTrip | src-tauri/src/startup.rs:66-88 | an indented value line gives the entry with its name and command |
| Startup.AddRegistryEntries | src-tauri/src/startup.rs:62-92 | the loop appends the entries of one key's listing, in order |
| Startup.FolderEntry | src-tauri/src/startup.rs:42-54 | `desktop.ini` is no entry; others are enabled, named without `.lnk` and `.url` |
| Startup.ShortcutShownName | src-tauri/src/startup.rs:47 | a shortcut `stem.lnk` is listed as `stem` |
| Startup.AddFolderEntries | src-tauri/src/startup.rs:40-56 | the folder loop appends the entries of the files, in order |
| Startup.ListStartupPrograms | src-tauri/src/startup.rs:17-60 | HKCU entries, then HKLM, then the Startup folder |
| Startup.StartupProgramsListed | src-tauri/src/startup.rs:17-120 | every entry is enabled, of unknown publisher, and rated High, Medium or Low |
| Startup.ToggleStartup | src-tauri/src/startup.rs:122-159 | folder entries rename base ↔ `.disabled` and fail without change; registry enable does nothing; registry disable runs `reg delete`, Ok iff it succeeds |
| Startup.DisableThenEnable | src-tauri/src/startup.rs:129-141 | disabling then enabling a folder entry restores the volume |
| Startup.FolderEntriesNameStartup | src-tauri/src/startup.rs:36-123 | the folder's path names `Startup` |
| Startup.RegistryEntriesToggleAsValues | src-tauri/src/startup.rs:23-125 | entries of the Run keys toggle through the registry |
| Startup.ShortcutToggleMissesFile | src-tauri/src/startup.rs:47-141 | with only `stem.lnk` in the folder, disabling the listed entry `stem` fails: the rename looks for a file without the extension |
| Registry.ParseOrphaned | src-tauri/src/registry.rs:77-89 | kept iff 3 fields; key, value, "orphaned_software", "medium" |
| Registry.ParseAssociation | src-tauri/src/registry.rs:110-122 | kept iff 2 fields; the Classes key of the extension, "broken_shortcut", "low" |
| Registry.ParseSharedDll | src-tauri/src/registry.rs:139-151 | kept iff the trimmed line is non-empty; "invalid_path", "low" |
| Registry.ParseAppPath | src-tauri/src/registry.rs:169-181 | kept iff 2 fields; "orphaned_software", "medium" |
| Registry.LastComponent | src-tauri/src/registry.rs:207 | the last `\` piece, a suffix free of `\` |
| Registry.ParseMui | src-tauri/src/registry.rs:200-212 | kept iff the trimmed line is non-empty; "orphaned_software", "low" |
| Registry.ScanInto | src-tauri/src/registry.rs:60-214 | one scanner's loop appends the issues of its lines, in order |
| Registry.CollectIssues | src-tauri/src/registry.rs:29-42 | the five scanners in order |
| Registry.TypeCounts | src-tauri/src/registry.rs:45-49 | `type_counts` has exactly the types that occur, each with its number of issues |
| Registry.TallyByType | src-tauri/src/registry.rs:45-50 | each type once, with its count, every issue's type present, counts summing to the number of issues |
| Registry.ScanRegistry | src-tauri/src/registry.rs:25-58 | `total_issues` counts all issues, the list is the first 200, `by_type` as above |
| Registry.TallyTotal | src-tauri/src/registry.rs:45-53 | per-type counts for distinct types covering every issue add up to the number of issues |
| Registry.ScannedIssuesFixable | src-tauri/src/registry.rs:83-224 | every issue found is of a type the fix command accepts |
| Registry.FixRegistryIssue | src-tauri/src/registry.rs:217-250 | other types refused with no command; keys without `SharedDLLs` only marked; SharedDLLs values removed by one command, Ok iff it succeeds |
| Registry.PsPathWithoutHive | src-tauri/src/registry.rs:235-237 | a path naming no hive passes unchanged |
| Registry.PsPathOfMachineKey | src-tauri/src/registry.rs:235-237 | `HKLM\rest` becomes `HKLM:\rest` |
| Registry.DriveNotUser | src-tauri/src/registry.rs:235-237 | rewriting a machine key never makes it name the user hive |
| Network.ParseTcp | src-tauri/src/network.rs:60-71 | kept iff 4 fields; TCP, pid a `u32`, no name yet |
| Network.ParseUdp | src-tauri/src/network.rs:84-94 | kept iff 4 fields; UDP with state "Active" |
| Network.TcpLineRoundTrip | src-tauri/src/network.rs:60-71 | a TCP line of clean fields gives them back |
| Network.UdpLineRoundTrip | src-tauri/src/network.rs:84-94 | a UDP line gives them back, state "Active" |
| Network.PidCounts | src-tauri/src/network.rs:72-95 | `proc_conn_count[pid]` is the number of connections with that pid |
| Network.ReadConnections | src-tauri/src/network.rs:59-97 | one listing loop pushes the parsed connections and keeps the counts |
| Network.PidCountsSnoc | src-tauri/src/network.rs:72-95 | one connection adds 1 to its pid's count and changes no other pid's count |
| Network.ReadListings | src-tauri/src/network.rs:53-98 | TCP lines, then UDP lines |
| Network.FillNames | src-tauri/src/network.rs:108-113 | the in-place name loop, "System" for an unknown pid |
| Network.NamedCounts | src-tauri/src/network.rs:108-174 | naming changes no state or protocol count |
| Network.UdpAndListenCounts | src-tauri/src/network.rs:91-174 | `udp_active` counts the UDP lines; only TCP entries are in state "Listen" |
| Network.ParseIo | src-tauri/src/network.rs:148-156 | kept iff 3 fields and the id parses; counters fall back to 0 |
| Network.IoMapLastWins | src-tauri/src/network.rs:147-157 | an id has figures iff some line reports it, those of the last such line |
| Network.Status | src-tauri/src/network.rs:130-136 | "Heavy" iff over 10, "Light" iff at most 3 |
| Network.BuildTalkers | src-tauri/src/network.rs:116-139 | one talker per pid other than 0, with its count, status and name ("Unknown" if none) |
| Network.FillTraffic | src-tauri/src/network.rs:159-164 | the in-place traffic loop |
| Network.TrafficFilled | src-tauri/src/network.rs:159-164 | after the loop the talkers carry their traffic |
| Network.TalkersPermuted | src-tauri/src/network.rs:167 | reordering keeps the talker set |
| Network.RankTalkers | src-tauri/src/network.rs:116-167 | the talkers with their traffic, busiest first |
| Network.GetNetworkConnections | src-tauri/src/network.rs:48-185 | the counts cover every parsed connection; the first 200 connections and the 30 busiest talkers are returned; `processes_with_network` is the talker count before the cut |
| Network.TopTalkersLead | src-tauri/src/network.rs:167-182 | every returned talker has at least as many connections as every talker cut off |
| Network.ConnectionHasTalker | src-tauri/src/network.rs:116-139 | every connection of a pid other than 0 has its talker |
| Network.TalkersAccountForAll | src-tauri/src/network.rs:116-139 | the talkers share out all connections but those of pid 0 |
| Battery.StatusLabel | src-tauri/src/battery.rs:93-102 | Charging iff on charge with code 2 or a code outside 1-5; Unknown iff not on charge with a code outside 1-5; Discharging iff code 1 |
| Battery.ChemistryName | src-tauri/src/battery.rs:105-116 | Li-ion iff code 6 or outside 1-8; "Unknown" iff code 2 |
| Battery.HealthPct | src-tauri/src/battery.rs:119-120 | at most 100, in exact arithmetic |
| Battery.HealthPctMeaning | src-tauri/src/battery.rs:119-120 | in exact arithmetic: below the cap, the whole percentage of the design capacity the full capacity holds; 100 iff full ≥ design |
| Battery.ChargedShare | src-tauri/src/battery.rs:124 | the current capacity is the whole number of mWh of the charged share |
| Battery.Filtered | src-tauri/src/battery.rs:88-89 | a kept value lies in the filter's range |
| Battery.GetBatteryHealth | src-tauri/src/battery.rs:26-130 | the record is updated field by field into the specified report, health and wear in exact arithmetic |
| Battery.ReadReport | src-tauri/src/battery.rs:82-124 | the field-by-field updates of the default record give the specified record of an accepted line, health and wear in exact arithmetic |
| Battery.WithDerived | src-tauri/src/battery.rs:119-124 | working out health, wear and current capacity changes no other field |
| Battery.ReportShape | src-tauri/src/battery.rs:28-124 | the default record unless the trimmed output starts with `FOUND\|` and has 13 fields; otherwise the filters, health and wear hold |
| Battery.ReportRoundTrip | src-tauri/src/battery.rs:69-116 | a report line carries its readings through, each filter applied |
| Battery.ReportLineShape | src-tauri/src/battery.rs:69-81 | a `FOUND` line of 13 pipe-free fields splits back into those fields, is left unchanged by trimming and is recognised as a report |
| Battery.PartsReadings | src-tauri/src/battery.rs:82-116 | the fields that parse give the record those readings, with runtime and cycle counts filtered and the codes mapped to their labels |
| DiskHealth.StatusHealth | src-tauri/src/disk_health.rs:69-74 | Healthy 95, Warning 60, Degraded 40, else 80 |
| DiskHealth.PsDisk | src-tauri/src/disk_health.rs:60-97 | kept iff 8 fields and a model; health from the status when the wear is empty; hours a `u64` |
| DiskHealth.PsLineRoundTrip | src-tauri/src/disk_health.rs:53-97 | a clean PowerShell line gives the disk it describes |
| DiskHealth.WmicDisk | src-tauri/src/disk_health.rs:113-144 | kept iff 8 fields and a model; OK gives Healthy and 90, else the status with 50 |
| DiskHealth.WmicLineRoundTrip | src-tauri/src/disk_health.rs:113-144 | a clean wmic line gives the disk it describes |
| DiskHealth.GetDiskHealth | src-tauri/src/disk_health.rs:33-150 | the wmic query runs exactly when the PowerShell pass found no disk |
| DiskHealth.DiskReportShape | src-tauri/src/disk_health.rs:33-150 | every disk has a model; wmic disks only when PowerShell found none, rated 90 or 50 |
| Monitor.Band | src-tauri/src/monitor.rs:158-235 | a score in {100, 80, 60, 30, 10}: 100 iff below the first cut-off, 10 iff at or above the last |
| Monitor.BandMonotone | src-tauri/src/monitor.rs:158-235 | a higher reading never scores better |
| Monitor.ScoresMonotone | src-tauri/src/monitor.rs:158-235 | the same for the memory, CPU and disk cut-offs |
| Monitor.MemoryScore | src-tauri/src/monitor.rs:158-168 | the memory score is one of the band scores |
| Monitor.CpuScore | src-tauri/src/monitor.rs:190-200 | the CPU score is one of the band scores |
| Monitor.DiskScore | src-tauri/src/monitor.rs:225-235 | the disk score is one of the band scores |
| Monitor.StartupScore | src-tauri/src/monitor.rs:249-257 | 100 iff under 100 processes, 40 iff at least 300 |
| Monitor.UptimeScore | src-tauri/src/monitor.rs:271-280 | 100 iff under 3 days, 30 iff at least 14 |
| Monitor.CountScoresMonotone | src-tauri/src/monitor.rs:249-280 | more processes or more uptime never score better |
| Monitor.WorstPct | src-tauri/src/monitor.rs:214-224 | the largest used percentage over disks with space, or 0 |
| Monitor.WorstDiskPct | src-tauri/src/monitor.rs:214-224 | the loop computes it |
| Monitor.GetHealthScore | src-tauri/src/monitor.rs:150-303 | the five scores, `overall` their integer mean in [20, 100], five details in order Memory, CPU, Disk, Startup, Uptime |
| Monitor.ScoreSum | src-tauri/src/monitor.rs:292 | the five scores add up to between 100 and 500 |
| Monitor.Average | src-tauri/src/monitor.rs:292 | the integer mean of such a sum lies in [20, 100] and is its floor quotient by 5 |

## Left out

- Operating-system effects are not performed: commands, `read_dir`, `metadata`, `remove_file`, `rename`, environment variables and the clock are parameters. `Fs.Volume` records only which paths are files, directories or locked.
- The hasher: `DefaultHasher` is a parameter, with no assumption about it. The one-size guarantees of the duplicate groups (`Duplicates.MergedIsGrouping`, `Duplicates.GroupsWellFormed` and the last two clauses of `Duplicates.ScanDuplicates`) hold only when the files found have no cross-size fingerprint collision (`NoCrossSizeCollision`); otherwise groups mix sizes, as `Duplicates.CollisionMergesSizes` shows.
- `HashMap` and sysinfo iteration order is not fixed. It is an input sequence, or any order of the keys.
- Floating point:
  - megabyte figures (`size_mb`, `file_size_mb`, `total_wasted_mb`, `memory_mb`, `data_size_mb`) are whole bytes;
  - `estimated_savings_mb` and CPU percentages are exact reals (NaN is not modelled);
  - battery health and wear are integers, worked out in exact arithmetic (see `Battery.HealthPct`);
  - the disk health from a wear reading is the `wearHealth` parameter;
  - disk size, temperature and read and write totals are not modelled.
- Battery.HealthPct: computed as the exact floor of `100 × full / design`. The program divides in `f64`, multiplies by 100.0 and truncates, so it can report one less where the exact percentage is a whole number: for full 29000 and design 50000 it gives 57, the model 58. For capacities above 2^53, the `f64` conversions round as well, which the model does not follow.
- Battery.HealthPctMeaning: its bounds hold of the exact percentage; the program's figure can be one below them, as under `Battery.HealthPct`.
- Battery.GetBatteryHealth: `health_pct` and `wear_pct` are those of `Battery.HealthPct`, so they can be one above and one below the program's.
- Battery.ReadReport: the same for the record of one report line.
- Commands.DeleteFile: the megabyte size in the success message is the `sizeText` parameter.
- Explanatory strings (`reason`, `description`, labels of the health details) are not modelled, except where a property mentions them.
- Lower-casing is ASCII only.
- Duplicates.AgeLabel: `u64` wrap-around does not arise; a time before the epoch counts as 0 days.
- Scanner.DaysAgo: for a file dated after now, the `u64` subtraction wraps modulo 2^64 as in a release build.
- `duration_ms` is left out, because it reads the clock.
- Sorts are modelled on values, as a stable insertion sort, not in place.
- `DuplicateFile.modified` is computed from the input modification time, not from `metadata` at group-building time.
- `start_service` (services.rs:319-325) is left out: a single command with no rule to check.
- The thin Tauri commands other than `cmd_delete_file` and `cmd_get_process_suggestions` are left out; they only forward to the modules modelled.
- `clean_browser_cache` is left out after its folder choice:
  - which files it deletes;
  - the freed-megabyte message;
  - `dir_size`.
- `clean_windows_update` is left out.
- Browser cache sizes are not modelled.
- `clean_privacy_item` does not model the number of files removed or the `cmd` and `reg` side commands.
- The PowerShell script texts are abbreviated in the model's command records.
- `get_live_metrics` and `get_hardware_info` (hardware telemetry) are left out, as are optimizer.rs and benchmark.rs.
- `ping_test` is left out; it parses a floating-point figure from `ping`.
