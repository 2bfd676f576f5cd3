# Autopsy case lifecycle, modelled in Dafny

This project models the case module of Autopsy (`Case.java`). It covers:

- the process-wide current case;
- the single transition point `changeCase`, and the `create`, `open`, `closeCase` and `deleteCase` sequences built on it;
- the persist-then-mutate field updaters;
- the cached `hasData` flag;
- the case directory layout: `createCaseDirectory`, `clearTempFolder` and `checkSubFolders`;
- the image-path checks;
- the pure name, path and time-zone helpers.

Listeners, dialogs, log redirections, recent-case updates and the closing of a case's parts are all outward effects. They are recorded in one append-only trace (`CaseTrace.Effect`), so their order can be stated and proved. A property-change event is suppressed, as `PropertyChangeSupport` suppresses it, when old and new are equal and non-null.

The collaborators are reduced to the behaviour the case module relies on. These are the configuration file (`XMLCaseManagement`), the SleuthKit database, the services, and the file system as a set of directories and files. A one-shot outcome is a parameter of the operation that causes it:

- whether the configuration file was written;
- what a configuration read returned;
- whether a database could be created or opened;
- which close threw;
- whether a setter persisted.

Files:

- `wrappers.dfy`: `Option`, `Result` and `Outcome`.
- `case_names.dfy`: constants, `isValidName`, `isPhysicalDrive` and `isPartition`.
- `time_zones.dfy`: `convertTimeZone` with Java's truncating `/` and `%`, and a corrected POSIX form.
- `collaborators.dfy`: disk values, `FileSystem`, `ConfigStore`, `CaseDatabase` and `Services`.
- `case_errors.dfy`: the `CaseActionException` causes.
- `case_trace.dfy`: events, effects, the transition effects of `changeCase`, and the replay invariant of the current case.
- `case_folders.dfy`: `createCaseDirectory`, `clearTempFolder` and `checkSubFolders`.
- `image_paths.dfy`: `getImagePaths` and `checkImagesExist`.
- `case_lifecycle.dfy`: the `Case` class and `CaseManager`, which holds the static state.

Behaviour of the code worth noting:

- `changeCase` from one case to another fires four events: `CURRENT_CASE(old, null)`, `NAME(old, "")`, `CURRENT_CASE(null, new)` and `NAME("", new)`. It never fires a single `CURRENT_CASE(old, new)`.
- `create` does not check the case name with `isValidName`.
- `createCaseDirectory` always fails when the directory already exists, because `mkdirs` returns false then.
- `changeCase` sets the current case before it fires. Listeners of the leaving case's events find no case open, and listeners of the arriving case's events find the arriving case. Each `Fired` effect records the case `getCurrentCase` returns at that moment. The replay invariant refuses a trace where this does not hold.
- `clearTempFolder` dereferences the result of `listFiles`, which is null for a temp folder that exists but cannot be read. The exception escapes `changeCase` after `CURRENT_CASE(null, new)`: the new case stays current, but its `NAME` event, the recent-cases entry, the module output folder and the data refresh never come. `create` lets the exception out (`TempFolderUnlisted`). `open` catches it and closes the newly opened case. Such a folder is one of the file system's `unreadable` paths; a folder that is only unwritable is listed, and its deletions simply fail.
- `open` recovers from a failure through `CaseCloseAction`. That action is not part of this model. It is modelled as closing the case that is current at that point, if any, as `closeCase` does, with the close error dropped.

## Model

| member | source | states |
|---|---|---|
| CaseNames.IsValidName | Core/src/org/sleuthkit/autopsy/casemodule/Case.java:1040-1044 | a name is valid exactly when none of its characters is one of `\ / : * ? " < > \|`, so the empty name is valid |
| CaseNames.IsPhysicalDrive | Core/src/org/sleuthkit/autopsy/casemodule/Case.java:850-860 | true exactly when the path begins, ignoring letter case, with `\\.\physicaldrive` or `/dev/` |
| CaseNames.IsPartition | Core/src/org/sleuthkit/autopsy/casemodule/Case.java:865-868 | true exactly when the lower-cased path begins with `\\.\` and ends with `:`; such a path is longer than the prefix |
| TimeZones.JavaDiv | Core/src/org/sleuthkit/autopsy/casemodule/Case.java:909-911 | Java's `/`: the remainder left over has the dividend's sign and is smaller than the divisor |
| TimeZones.JavaRem | Core/src/org/sleuthkit/autopsy/casemodule/Case.java:911 | Java's `%`: the result has the dividend's sign and is smaller than the divisor |
| TimeZones.OffsetFields | Core/src/org/sleuthkit/autopsy/casemodule/Case.java:909-911 | the hour and minute fields share the offset's sign, the minutes stay within one hour, and together they give the offset truncated toward zero to whole minutes |
| TimeZones.DigitsRoundTrip | Core/src/org/sleuthkit/autopsy/casemodule/Case.java:918-919 | `Integer.toString` of a natural number reads back as the number |
| TimeZones.ConvertTimeZone | Core/src/org/sleuthkit/autopsy/casemodule/Case.java:906-928 | the result starts with the first three letters of the zone's name on 1 February 2010, and when the zone uses daylight time ends with the first three of its name on 6 July 2011. South of the equator the February name is the daylight one, so the string starts with it |
| TimeZones.AsWrittenSplits | Core/src/org/sleuthkit/autopsy/casemodule/Case.java:918-925 | the string is the February name, then the offset field, then the July name only for a daylight zone, both for the code as written and for the corrected form |
| TimeZones.PosixTimeZone | Core/src/org/sleuthkit/autopsy/casemodule/Case.java:906-928 | the corrected string keeps the same abbreviation framing |
| TimeZones.ClockRoundTrip | Core/src/org/sleuthkit/autopsy/casemodule/Case.java:918-922 | an unsigned "h[:m]" clock reads back as its seconds |
| TimeZones.SignedClockRoundTrip | Core/src/org/sleuthkit/autopsy/casemodule/Case.java:918-922 | a signed clock reads back as its signed seconds |
| TimeZones.PosixOffsetRoundTrip | Core/src/org/sleuthkit/autopsy/casemodule/Case.java:909-922 | the corrected offset field reads back as the raw offset, negated and truncated to whole minutes |
| TimeZones.OffsetsAgree | Core/src/org/sleuthkit/autopsy/casemodule/Case.java:909-922 | the as-written and corrected offset fields agree exactly when the minutes are zero or the zone is at least an hour east of UTC |
| TimeZones.AsWrittenAgreesWithPosix | Core/src/org/sleuthkit/autopsy/casemodule/Case.java:906-928 | the same agreement, stated for the whole time-zone string |
| TimeZones.NegativeHalfHourZone | Core/src/org/sleuthkit/autopsy/casemodule/Case.java:909-922 | at an offset of -12600 s, the code as written gives "NST3:-30NDT" and the corrected form "NST3:30NDT" |
| TimeZones.WholeHourZone | Core/src/org/sleuthkit/autopsy/casemodule/Case.java:906-928 | at -18000 s with daylight time the result is "EST5EDT" |
| CaseFolders.CreateCaseDirectory | Core/src/org/sleuthkit/autopsy/casemodule/Case.java:955-998 | the outcome and the new disk are those of `DirectoryPlan`: an existing file, a directory that cannot be read or cannot be written, a failed root, a failed sub-folder or a failed module output folder each end the chain with its own error |
| CaseFolders.DirectoryPlanSucceeds | Core/src/org/sleuthkit/autopsy/casemodule/Case.java:955-998 | creation succeeds exactly when the root, export, log, temp, cache and ModuleOutput folders can all be created, and then exactly those are added |
| CaseFolders.ExistingRootFails | Core/src/org/sleuthkit/autopsy/casemodule/Case.java:957-973 | anything already at the path makes creation fail: a file, a directory that cannot be read or cannot be written, and any other directory each with its own error, and the disk does not change |
| CaseFolders.DirectoryPlanOnlyAdds | Core/src/org/sleuthkit/autopsy/casemodule/Case.java:955-998 | a failure removes nothing: only case folders are added, files are untouched, and every error names the case directory |
| CaseFolders.MakeDirsEffect | Core/src/org/sleuthkit/autopsy/casemodule/Case.java:975-984 | the sub-folder chain succeeds exactly when every folder can be made, and then adds all of them |
| CaseFolders.FoldersDistinct | Core/src/org/sleuthkit/autopsy/casemodule/Case.java:975-987 | the five folders created below the case root are distinct, and none of them is the root |
| CaseFolders.ClearTempFolder | Core/src/org/sleuthkit/autopsy/casemodule/Case.java:1046-1060 | reports whether the folder could be listed: it could not exactly when it is a directory that cannot be read, and then the disk is unchanged. Otherwise the disk afterwards is `ClearedTemp`: each entry listed in the temp folder is deleted, a directory recursively |
| CaseFolders.ClearedTempEffect | Core/src/org/sleuthkit/autopsy/casemodule/Case.java:1046-1060 | clearing only removes entries, and nothing outside the temp folder; when nothing inside is undeletable, every listed entry and everything below it is gone |
| CaseFolders.ChildrenApart | Core/src/org/sleuthkit/autopsy/casemodule/Case.java:1049-1056 | two entries listed in one folder that have a path below both are the same entry, so the recursive deletions do not interfere |
| CaseFolders.CheckSubFolders | Core/src/org/sleuthkit/autopsy/casemodule/Case.java:1067-1081 | the module output folder is made only when nothing exists there, and a failure changes nothing |
| Collaborators.RemoveTreeEffect | Core/src/org/sleuthkit/autopsy/casemodule/Case.java:1007-1010 | a successful recursive delete leaves nothing at or below the root |
| Collaborators.FileSystem.DeleteDir | Core/src/org/sleuthkit/autopsy/casemodule/Case.java:1007-1010 | removes the tree except what lies above an undeletable entry, and reports success exactly when nothing was undeletable |
| ImagePaths.GetImagePaths | Core/src/org/sleuthkit/autopsy/casemodule/Case.java:371-385 | an id is in the result exactly when the database answers and lists at least one path for it, and then its value is the first path; a failed query gives the empty map |
| ImagePaths.CheckImagesExist | Core/src/org/sleuthkit/autopsy/casemodule/Case.java:389-415 | one prompt for each image whose first path is neither a file nor a readable device, and no prompt for any other image or twice for one id |
| CaseTrace.TransitionReplays | Core/src/org/sleuthkit/autopsy/casemodule/Case.java:200-261 | the `CURRENT_CASE` events of one `changeCase` take the reported current case from the leaving case to the arriving one, and every event is seen with the singleton already at its new value, also when the arrival is cut short |
| CaseTrace.TransitionObserved | Core/src/org/sleuthkit/autopsy/casemodule/Case.java:203-247 | listeners of the leaving case's events see no current case; listeners of the arriving case's events see the arriving case |
| CaseTrace.TransitionEvents | Core/src/org/sleuthkit/autopsy/casemodule/Case.java:200-261 | firing begins for `CURRENT_CASE(old, null)` and `NAME(old, "")`, then `CURRENT_CASE(null, new)` and, unless the temp folder could not be listed, `NAME("", new)`. A throwing listener does not stop the sequence, though listeners after it miss that one event |
| CaseTrace.ReplayAppend | Core/src/org/sleuthkit/autopsy/casemodule/Case.java:200-261 | replaying a trace in two parts is replaying it whole |
| CaseTrace.ReplayQuiet | Core/src/org/sleuthkit/autopsy/casemodule/Case.java:547-615 | effects without a `CURRENT_CASE` event leave the reported current case alone |
| CaseTrace.EventsFire | Core/src/org/sleuthkit/autopsy/casemodule/Case.java:208-216 | firing of an event begins exactly when its old and new values differ or one is null, and a listener that throws adds one notice. `Fired` records that firing began, not that every listener ran |
| CaseLifecycle.CaseManager.GetCurrentCase | Core/src/org/sleuthkit/autopsy/casemodule/Case.java:176-191 | the current case when one is open, and otherwise the no-case error |
| CaseLifecycle.CaseManager.ChangeCase | Core/src/org/sleuthkit/autopsy/casemodule/Case.java:200-261 | the trace grows by exactly the transition effects, in order. Afterwards the new case is current, and `IsCaseOpen` holds exactly when it is given. The log goes to its folder. If its temp folder cannot be listed, the result is that failure, and the disk and the data flag are unchanged. Otherwise the temp folder is cleared, the module output folder restored and the data flag refreshed. |
| CaseLifecycle.CaseManager.Leave | Core/src/org/sleuthkit/autopsy/casemodule/Case.java:202-260 | `changeCase(null)`: the leaving case's effects, then the log back in the application's folder; no case is current |
| CaseLifecycle.CaseManager.Enter | Core/src/org/sleuthkit/autopsy/casemodule/Case.java:202-257 | `changeCase(c)`: the leaving case's effects, then `c`'s. The disk and data flag change only when the temp folder could be listed |
| CaseLifecycle.CaseManager.Create | Core/src/org/sleuthkit/autopsy/casemodule/Case.java:277-310 | the directory is prepared only when nothing is at the path. A failure there, of the configuration file or of the database ends with its error and nothing fired. Otherwise a fresh case with `caseDir/autopsy.db` becomes current, consistent with its configuration file, with fresh services, configuration store and database all open and no data; an unlistable temp folder then is the error, with the case still current. |
| CaseLifecycle.CaseManager.NewCase | Core/src/org/sleuthkit/autopsy/casemodule/Case.java:285-306 | the new case mirrors the name, number and examiner it was created with; its configuration file is `caseDir/name.aut`, its database the empty `caseDir/autopsy.db` that reports errors to it, and every part is fresh and open |
| CaseLifecycle.CaseManager.EnterCreated | Core/src/org/sleuthkit/autopsy/casemodule/Case.java:305-308 | the created case is current afterwards whatever happens, consistent and with every part open; the result is the temp-folder failure exactly when that folder cannot be listed, and only a listed folder changes the disk |
| CaseLifecycle.CaseManager.Open | Core/src/org/sleuthkit/autopsy/casemodule/Case.java:318-369 | an unreadable file, a blank name or an unopenable database fails and closes the previous case in `closeCase`'s order. Otherwise an upgrade notice and one prompt per missing image come before the new case becomes current, and the previous case's services, configuration file and database are left as they were. On success the new case is consistent with its configuration file, its fresh services, configuration store and database are open, and it has data exactly when the database answers with at least one root. If its temp folder cannot be listed, that new case is closed again after its `CURRENT_CASE` events and no case is current. Each failure gives the ".aut"-dependent error. |
| CaseLifecycle.CaseManager.OpenStored | Core/src/org/sleuthkit/autopsy/casemodule/Case.java:335-361 | the guarded block once the file is read: the notices, then the transition to the loaded case. On success that case is current, consistent, open and its data flag refreshed; otherwise it is closed again after the transition and its parts are recorded as released in order |
| CaseLifecycle.CaseManager.EnterOpened | Core/src/org/sleuthkit/autopsy/casemodule/Case.java:355-358 | the opened case becomes current, stays consistent with every part open, and has data exactly when its database answers with a root; or, when its temp folder cannot be listed, it is made current and then closed in `closeCase`'s order, the releases following the `CURRENT_CASE` events |
| CaseLifecycle.CaseManager.AbandonOpen | Core/src/org/sleuthkit/autopsy/casemodule/Case.java:358-368 | after a failed open no case is current, and the case that was current had its services, configuration file and database closed in order up to the first that failed, each release recorded after the leaving events |
| CaseLifecycle.CaseManager.LoadCase | Core/src/org/sleuthkit/autopsy/casemodule/Case.java:335-353 | the database path is the case directory plus "autopsy.db", and the case mirrors the configuration file it was read from |
| CaseLifecycle.Case.CloseCase | Core/src/org/sleuthkit/autopsy/casemodule/Case.java:499-509 | no case is current whatever fails, and the `CURRENT_CASE`/`NAME` events of that change come first. Then services, configuration file and database are closed in order up to the first that throws, each release recorded after those events, and that one failure is the error. |
| CaseLifecycle.Case.ReleaseParts | Core/src/org/sleuthkit/autopsy/casemodule/Case.java:501-507 | services, configuration file and database are closed in that order up to the first that throws, each close recorded in the trace as it happens; nothing fires and the current case is untouched |
| CaseLifecycle.ReleasedIffClosed | Core/src/org/sleuthkit/autopsy/casemodule/Case.java:501-507 | a part of a case that was open is recorded as released exactly when the close sequence left it closed |
| CaseLifecycle.Case.DeleteCase | Core/src/org/sleuthkit/autopsy/casemodule/Case.java:518-537 | if the configuration file cannot be closed, nothing changes. Otherwise its release is recorded first, then the directory is deleted, the recent entry removed and no case is current, even when the delete fails, which is then the error. |
| CaseLifecycle.Case.RemoveClosed | Core/src/org/sleuthkit/autopsy/casemodule/Case.java:523-526 | the directory is deleted as far as it can be, the recent entry removal is recorded before the transition to no case, and the answer is whether the whole tree went |
| CaseLifecycle.Case.UpdateCaseName | Core/src/org/sleuthkit/autopsy/casemodule/Case.java:547-567 | only after the configuration file accepts the name: the field changes, the recent entry moves and `NAME` fires with the caller's pair. Otherwise nothing changes and nothing fires. |
| CaseLifecycle.Case.UpdateExaminer | Core/src/org/sleuthkit/autopsy/casemodule/Case.java:574-591 | the same for the examiner and `EXAMINER` |
| CaseLifecycle.Case.UpdateCaseNumber | Core/src/org/sleuthkit/autopsy/casemodule/Case.java:598-615 | the same for the number and `NUMBER` |
| CaseLifecycle.Case.GetDataSources | Core/src/org/sleuthkit/autopsy/casemodule/Case.java:806-810 | one query; on success the data flag becomes "at least one root" |
| CaseLifecycle.Case.HasData | Core/src/org/sleuthkit/autopsy/casemodule/Case.java:1184-1193 | once true it is answered without a query. While false, each call queries, and a failed query leaves it false. A true answer means the database holds a root. |
| CaseLifecycle.Case.GetTimeZone | Core/src/org/sleuthkit/autopsy/casemodule/Case.java:817-831 | the set of time zones of the image data sources, empty when the query fails |
| CaseLifecycle.Case.AddImage | Core/src/org/sleuthkit/autopsy/casemodule/Case.java:425-444 | succeeds exactly when the database finds the image by id, and then announces it as a new data source |
| CaseLifecycle.Case.NotifyNewDataSource | Core/src/org/sleuthkit/autopsy/casemodule/Case.java:465-477 | `DATA_SOURCE_ADDED(null, source)` fires, and a throwing listener adds a notice |
| CaseLifecycle.Case.ReceiveError | Core/src/org/sleuthkit/autopsy/casemodule/Case.java:1150-1152 | a database error becomes one user notification |
| CaseLifecycle.Case.AddReport | Core/src/org/sleuthkit/autopsy/casemodule/Case.java:1165-1173 | a stored report is announced by `REPORT_ADDED(null, report)`, and a throwing listener is only logged. A store failure adds nothing and fires nothing. |
| CaseLifecycle.Case.Init | Core/src/org/sleuthkit/autopsy/casemodule/Case.java:165-167 | the case is registered as an error observer of its database |

## Left out

- The Swing and NetBeans side effects are not modelled: dialogs, menus, core windows, window titles, `System.gc` and memory logging. The dialogs `open` and `checkImagesExist` show become notices in the trace. The user's answer to the missing-image prompt (`MissingImageDialog`) is not modelled.
- `PropertyChangeSupport` listener registration and its `synchronized` methods are not modelled. Listeners are reduced to the set of event kinds some listener of which throws.
- `XMLCaseManagement` internals are not part of this model. The names of the export, log, temp and cache folders are fixed constants, and `writeFile` in `open` is taken to succeed.
- `RecentCases` is recorded as calls in the trace. Its own failures and its list are not modelled.
- `SleuthkitCase` internals are not part of this model. Database files on disk are not modelled, and the database is its query results. `getAllReports` is a pass-through to it (`CaseDatabase.AllReports`).
- `TimeZone.getTimeZone` and `SimpleDateFormat` are library calls. `convertTimeZone` takes the raw offset, the zone's two "z" names (on 1 February 2010 and 6 July 2011) and the daylight flag as inputs. `getTimeZone` keeps zone IDs as strings.
- File system: `mkdirs` is modelled without making missing parents. `pathExists` and `driveExists` are modelled as membership of the path in the files or in a set of readable paths (devices and non-empty files, from which a first byte can be read). File contents, permissions beyond "cannot be read" and "cannot be written" and concurrent changes are not modelled.
- `CaseNames.Lower`: `String.toLowerCase` is modelled for ASCII letters only.
- `ImagePaths.CheckImagesExist`: the prompts follow the order in which the loop picks ids, not the order of Java's `HashMap`.
- Listener chains: `PropertyChangeSupport` stops delivering an event at the first listener that throws. Listeners are not modelled one by one, so a `Fired` effect means that delivery began.
- `TimeZones.ConvertTimeZone`: requires both names to have at least three characters, so the `substring(0, 3)` exception at Case.java:915-916 is not modelled. The names come from `SimpleDateFormat` with the "z" pattern, which gives a three-or-more-character name or a "GMT+hh:mm" form.
- `CaseLifecycle.CaseManager.Open`: the behaviour of `CaseCloseAction` is assumed to be `closeCase` on the current case.
- The separator is the POSIX `/`.
- Deprecated wrappers and process-level helpers are not modelled: `addLocalDataSource`, `runAddImageAction`, `makeAddImageProcess`, `invokeStartupDialog` and `getAppName`.

## Findings

| source | as written | input that shows it | evidently intended | confidence | as-written member | corrected member |
|---|---|---|---|---|---|---|
| Core/src/org/sleuthkit/autopsy/casemodule/Case.java:909-922 | the minute field of `convertTimeZone` keeps the sign of the offset and the hour field is negated separately | raw offset -12600000 ms, "NST"/"NDT" with daylight time gives "NST3:-30NDT" | a POSIX TZ string "NST3:30NDT", with the sign once before the hours | not executed | TimeZones.NegativeHalfHourZone | TimeZones.PosixOffsetRoundTrip |
