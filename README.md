# Autopsy: image gallery events, results viewer paging, report filter, localisation update script

This project is a Dafny model of four pieces of the Autopsy forensic browser.
Proofs about each piece sit beside its model.

- **Image gallery module** (`image_gallery.dfy`, module `ImageGallery`). This covers:
  - the single controller slot and `getController`;
  - the per-case "enabled" policy;
  - the drawable-and-not-known classifier;
  - the three event listeners, which turn ingest, case and ingest-job events into database tasks, tag notices, stale flags and rebuild requests for the controller.

  The controller is a class whose fields record what the module hands it.
- **Results content viewer** (`artifact_viewer.dfy`, module `ArtifactViewer`). This covers:
  - choosing which artifact page to show for a selected node, following an associated-artifact attribute;
  - the page number, the page labels and the next/previous buttons;
  - replacing and cancelling background tasks, and applying their view updates.
- **Report filter panel** (`report_filter.dfy`, module `ReportFilter`). This covers:
  - the generate button, which registers artifact types with the report configuration and rebuilds the static filter list of type codes from five check boxes;
  - the cancel flag;
  - the progress-bar increment.
- **Localisation update script** (`prop_update.dfy`, module `PropUpdate`). This covers:
  - CSV rows becoming property entries;
  - the delete-column test, which uses Python `str.strip`;
  - grouping entries by properties file;
  - merging or overwriting each file's key/value map;
  - renaming a properties file path with POSIX `os.path.split`/`join`.

`wrappers.dfy` holds the `Option` and `Result` types shared by the modules.

Inputs the code reads from its environment are parameters of the model. These are:
- the GUI/headless flag;
- whether the gallery window is open;
- the operator's dialog answer (JOptionPane codes);
- whether the controller could be constructed;
- the supported extensions;
- the types the report configuration refuses;
- the existing properties files.

## Model

| member | source | states |
|---|---|---|
| `ImageGallery.IsDrawableAndNotKnown` | ImageGallery/src/org/sleuthkit/autopsy/imagegallery/ImageGalleryModule.java:148-150 | A KNOWN file is rejected without consulting type detection. Otherwise the result is true exactly for drawable files and an error exactly when detection fails. |
| `ImageGallery.IsEnabledForCase` | ImageGallery/src/org/sleuthkit/autopsy/imagegallery/ImageGalleryModule.java:113-120 | No case means disabled. A non-blank per-case setting decides (true only for "true" in any letter case). A blank or missing setting falls back to the global default. |
| `ImageGallery.PerCaseSettingOverridesDefault` | ImageGallery/src/org/sleuthkit/autopsy/imagegallery/ImageGalleryModule.java:116 | "TRUE"/"True" enable and "false"/"yes" disable, whatever the default. |
| `ImageGallery.BlankSettingUsesDefault` | ImageGallery/src/org/sleuthkit/autopsy/imagegallery/ImageGalleryModule.java:116 | An all-white-space or missing setting yields the default. |
| `ImageGallery.FileDoneTask` | ImageGallery/src/org/sleuthkit/autopsy/imagegallery/ImageGalleryModule.java:189-209 | A FILE_DONE task is queued only for a local event with a listening controller and an actual file. The task is an update or a removal of that file. |
| `ImageGallery.KnownFileNeverUpdated` | ImageGallery/src/org/sleuthkit/autopsy/imagegallery/ImageGalleryModule.java:196-203 | A KNOWN file is never queued for update. It is queued for removal exactly when its extension is supported and the gates pass. |
| `ImageGallery.ClassificationFailureQueuesNothing` | ImageGallery/src/org/sleuthkit/autopsy/imagegallery/ImageGalleryModule.java:205-209 | A detection failure queues nothing. |
| `ImageGallery.FileDoneDecision` | ImageGallery/src/org/sleuthkit/autopsy/imagegallery/ImageGalleryModule.java:189-209 | The complete decision, both directions: update iff gated, not known and drawable; removal iff gated, classified out and the extension is supported. |
| `ImageGallery.OnAnalysisCompleted` | ImageGallery/src/org/sleuthkit/autopsy/imagegallery/ImageGalleryModule.java:300-328 | A remote completion marks an existing controller stale. A rebuild happens iff the event is remote, a controller exists and listens, the gallery is open and the answer is YES. A rebuild implies stale. |
| `ImageGallery.OnlyYesRebuilds` | ImageGallery/src/org/sleuthkit/autopsy/imagegallery/ImageGalleryModule.java:317-325 | NO, CANCEL and a closed dialog never rebuild; only the stale flag remains. |
| `ImageGallery.GalleryModule.constructor` | ImageGallery/src/org/sleuthkit/autopsy/imagegallery/ImageGalleryModule.java:77-84 | Start-up registers all three listeners, with no controller yet. |
| `ImageGallery.GalleryModule.GetController` | ImageGallery/src/org/sleuthkit/autopsy/imagegallery/ImageGalleryModule.java:58-69 | An existing controller is returned unchanged. Otherwise a fresh controller is bound to the current case and stored. With no case or a failing construction the result is an error and the slot stays empty. |
| `ImageGallery.GalleryModule.IsDrawableDBStale` | ImageGallery/src/org/sleuthkit/autopsy/imagegallery/ImageGalleryModule.java:129-137 | False with no controller, else the controller's data-sources-table staleness. The case argument is ignored. |
| `ImageGallery.GalleryModule.OnIngestModuleEvent` | ImageGallery/src/org/sleuthkit/autopsy/imagegallery/ImageGalleryModule.java:155-217 | Headless delivery unsubscribes the listener and changes nothing else. Otherwise the controller's queue grows by exactly the task `FileDoneTask` decides for FILE_DONE, and by nothing for other events. |
| `ImageGallery.GalleryModule.OnCaseEvent` | ImageGallery/src/org/sleuthkit/autopsy/imagegallery/ImageGalleryModule.java:223-283 | Headless delivery unsubscribes. CURRENT_CASE shuts the old controller down, changing nothing else in it, and binds a fresh one to the new case, or leaves the slot empty. A local DATA_SOURCE_ADDED queues one prepopulation task when listening. Tag events are forwarded iff the content is in the database. Nothing else changes. |
| `ImageGallery.GalleryModule.OnIngestJobEvent` | ImageGallery/src/org/sleuthkit/autopsy/imagegallery/ImageGalleryModule.java:298-333 | The controller's new state is its old state with the stale flag and rebuild count changed as `OnAnalysisCompleted` decides. Nothing else changes. |
| `ArtifactViewer.FirstWithId` | Core/src/org/sleuthkit/autopsy/corecomponents/DataContentViewerArtifact.java:471 | `indexOf` by artifact id: either the first position holding that id, or -1 exactly when no position does. |
| `ArtifactViewer.FirstAssociation` | Core/src/org/sleuthkit/autopsy/corecomponents/DataContentViewerArtifact.java:477-478 | Either the first associated-artifact attribute, or -1 exactly when there is none. |
| `ArtifactViewer.SelectedIndex` | Core/src/org/sleuthkit/autopsy/corecomponents/DataContentViewerArtifact.java:468-497 | The chosen index is never negative, and it lies within a non-empty list. The lemmas below state which index it is in each case. |
| `ArtifactViewer.SelectArtifactIndex` | Core/src/org/sleuthkit/autopsy/corecomponents/DataContentViewerArtifact.java:468-497 | The attribute scan stops at the first associated-artifact attribute. The inner scan looks up its target. Together they compute `SelectedIndex`. |
| `ArtifactViewer.SelectsFirstWhenArtifactAbsent` | Core/src/org/sleuthkit/autopsy/corecomponents/DataContentViewerArtifact.java:468-473 | Without a node artifact, or when it is not in the list, page index 0 is chosen. |
| `ArtifactViewer.SelectsListedArtifact` | Core/src/org/sleuthkit/autopsy/corecomponents/DataContentViewerArtifact.java:470-491 | When the node's artifact is listed, the choice is in range and shows either that artifact or the one named by its first associated-artifact attribute. It is always that id's first position. |
| `ArtifactViewer.RedirectsToFirstAssociation` | Core/src/org/sleuthkit/autopsy/corecomponents/DataContentViewerArtifact.java:477-489 | When the node's artifact is listed and its first associated-artifact attribute names a listed artifact, the chosen index is that artifact's first position. |
| `ArtifactViewer.KeepsOwnPositionWithoutAssociation` | Core/src/org/sleuthkit/autopsy/corecomponents/DataContentViewerArtifact.java:474-496 | When the node's artifact is listed but reading its attributes fails, or it has no associated-artifact attribute, the chosen index is its own first position. |
| `ArtifactViewer.OnlyFirstAssociationCounts` | Core/src/org/sleuthkit/autopsy/corecomponents/DataContentViewerArtifact.java:477-491 | If the first associated-artifact attribute names no listed artifact, the node's own artifact stays selected. Later attributes are never consulted. |
| `ArtifactViewer.NodeTaskShowsSelectedArtifact` | Core/src/org/sleuthkit/autopsy/corecomponents/DataContentViewerArtifact.java:501-519 | A node task that is not cancelled and has artifacts yields one page per artifact. The current page is the selected index + 1 and shows that artifact. |
| `ArtifactViewer.PageShowsCachedArtifact` | Core/src/org/sleuthkit/autopsy/corecomponents/DataContentViewerArtifact.java:553-566 | Page p shows cached artifact p-1, and the page count is the cache size. A cancelled page task returns nothing. |
| `ArtifactViewer.PageOutsideCacheFails` | Core/src/org/sleuthkit/autopsy/corecomponents/DataContentViewerArtifact.java:553-554 | A missing cache or a page outside it makes the page task throw. |
| `ArtifactViewer.IsSupported` | Core/src/org/sleuthkit/autopsy/corecomponents/DataContentViewerArtifact.java:316-331 | Only a present node with content can be supported. |
| `ArtifactViewer.SupportedNodesShowAnArtifact` | Core/src/org/sleuthkit/autopsy/corecomponents/DataContentViewerArtifact.java:316-331 | A node is supported iff its node task would fill the cache. Then an uncancelled task produces a view update. An unsupported node with content never renders an artifact. |
| `ArtifactViewer.IsPreferred` | Core/src/org/sleuthkit/autopsy/corecomponents/DataContentViewerArtifact.java:334-342 | The rank is 5 iff the node is itself an artifact, else 3. |
| `ArtifactViewer.ContentViewer.constructor` | Core/src/org/sleuthkit/autopsy/corecomponents/DataContentViewerArtifact.java:59-69 | A new viewer shows the empty view on page 1, with no cache and no task. |
| `ArtifactViewer.ContentViewer.ResetComponents` | Core/src/org/sleuthkit/autopsy/corecomponents/DataContentViewerArtifact.java:258-266 | Page 1, blank labels and pane, both buttons disabled, no current node. The buttons then agree with the labels. |
| `ArtifactViewer.ContentViewer.UpdateView` | Core/src/org/sleuthkit/autopsy/corecomponents/DataContentViewerArtifact.java:363-380 | Next is enabled iff page < pages, previous iff page > 1. The page, labels and text become the update's. |
| `ArtifactViewer.ContentViewer.StartNewTask` | Core/src/org/sleuthkit/autopsy/corecomponents/DataContentViewerArtifact.java:386-400 | Shows the wait text, cancels the previous task and installs a fresh task. A previous task whose background part is still running becomes cancelled; one whose background part has returned keeps its flag, as `SwingWorker.cancel` fails then. Every task but the current one is cancelled or finished. |
| `ArtifactViewer.ContentViewer.SetNode` | Core/src/org/sleuthkit/autopsy/corecomponents/DataContentViewerArtifact.java:269-288 | The same node, no node or a node without content starts no task; any other node starts a node task. The current node is always the one passed. A started task is fresh, uncancelled and without outcome, and it joins the tasks. The previous task is cancelled if its background part is still running, and otherwise keeps its flag. When no task starts, the current task, its flag and its outcome are unchanged. |
| `ArtifactViewer.ContentViewer.NextPage` | Core/src/org/sleuthkit/autopsy/corecomponents/DataContentViewerArtifact.java:209-213 | The page goes up by exactly 1 and a page task for it starts, with `startNewTask`'s effects: the wait text, a fresh uncancelled task without outcome, and the previous task cancelled if still running. When the button was legitimately enabled, the new page is within the page count. |
| `ArtifactViewer.ContentViewer.PrevPage` | Core/src/org/sleuthkit/autopsy/corecomponents/DataContentViewerArtifact.java:215-219 | The page goes down by exactly 1 and a page task for it starts, with `startNewTask`'s effects: the wait text, a fresh uncancelled task without outcome, and the previous task cancelled if still running. When the button was legitimately enabled, the new page is at least 1. |
| `ArtifactViewer.ContentViewer.RunTask` | Core/src/org/sleuthkit/autopsy/corecomponents/DataContentViewerArtifact.java:434-520 | The task's outcome is its kind's outcome function. Only a successful node task replaces the cache, so a cancelled task never touches it. |
| `ArtifactViewer.ContentViewer.RunNodeTask` | Core/src/org/sleuthkit/autopsy/corecomponents/DataContentViewerArtifact.java:434-520 | Covers the error view, the cancellation points, the empty-list failure and the cache update. |
| `ArtifactViewer.ContentViewer.RunArtifactTask` | Core/src/org/sleuthkit/autopsy/corecomponents/DataContentViewerArtifact.java:550-567 | Looks up the page in the cache, with a failure when the cache is missing or the page is out of range. |
| `ArtifactViewer.ContentViewer.Done` | Core/src/org/sleuthkit/autopsy/corecomponents/DataContentViewerArtifact.java:523-535 | A cancelled task, a failure or a null result leaves the screen unchanged. Otherwise the screen shows the update. A superseded task changes the screen only if it was not cancelled, because it had finished before it was superseded. |
| `ReportFilter.AddInt` | Report/src/org/sleuthkit/autopsy/report/reportFilter.java:295 | Java int addition: the result stays in range, equals the true sum when that fits, and otherwise differs from it by 2^32. |
| `ReportFilter.Clamp` | Report/src/org/sleuthkit/autopsy/report/reportFilter.java:296 | The progress bar's bounded range: the value is kept in [min, max] and left alone inside it. |
| `ReportFilter.ReportFilterPanel.constructor` | Report/src/org/sleuthkit/autopsy/report/reportFilter.java:39-61 | `cancel` is false after construction. The static filter list keeps what it held, and the configuration is what the `getAllTypes` call left. |
| `ReportFilter.ReportFilterPanel.SetGenArtifactType` | Report/src/org/sleuthkit/autopsy/report/reportFilter.java:207 | The call succeeds iff the type is not refused, and then enables that type. |
| `ReportFilter.ReportFilterPanel.RegisterAll` | Report/src/org/sleuthkit/autopsy/report/reportFilter.java:206-211 | A try block's calls succeed iff no type of the group is refused. The configuration is changed up to the first refusal. |
| `ReportFilter.ReportFilterPanel.ApplyBox` | Report/src/org/sleuthkit/autopsy/report/reportFilter.java:205-219 | A box appends its codes only when selected and every registration in its try block succeeded. |
| `ReportFilter.ReportFilterPanel.BuildFilters` | Report/src/org/sleuthkit/autopsy/report/reportFilter.java:204-255 | The list is cleared, then becomes the five contributions in box order. The configuration is updated group by group. |
| `ReportFilter.ReportFilterPanel.Generate` | Report/src/org/sleuthkit/autopsy/report/reportFilter.java:197-255 | Disables generate and enables progress and cancel. Resets progress to 0 (within range) and rebuilds the filters. |
| `ReportFilter.ReportFilterPanel.Cancel` | Report/src/org/sleuthkit/autopsy/report/reportFilter.java:280-283 | `cancel` is true afterwards. |
| `ReportFilter.ReportFilterPanel.ProgBarSet` | Report/src/org/sleuthkit/autopsy/report/reportFilter.java:288-307 | The new value is old + count in int arithmetic, clamped to the range, and exactly old + count when that is in range. The range invariant is kept. |
| `ReportFilter.AllSelected` | Report/src/org/sleuthkit/autopsy/report/reportFilter.java:205-255 | All boxes with nothing refused give 2,3,4,5,1,9,10,6,8,11 in that order. |
| `ReportFilter.NoneSelected` | Report/src/org/sleuthkit/autopsy/report/reportFilter.java:204 | No box selected gives an empty list, whatever the list held before. |
| `ReportFilter.FiltersExactly` | Report/src/org/sleuthkit/autopsy/report/reportFilter.java:204-255 | A code is listed iff its box is selected and its whole group was accepted. |
| `ReportFilter.FiltersNoDuplicates` | Report/src/org/sleuthkit/autopsy/report/reportFilter.java:204-255 | The rebuilt list never holds a code twice. |
| `ReportFilter.RegisteredEffect` | Report/src/org/sleuthkit/autopsy/report/reportFilter.java:206-211 | Registration enables every type of an accepted group and leaves types outside the group untouched. |
| `PropUpdate.IdxBounded` | release_scripts/localization_scripts/updatepropsscript.py:88-89 | True iff 0 <= num < max. |
| `PropUpdate.Field` | release_scripts/localization_scripts/updatepropsscript.py:114 | The cell is present iff the index is in range, and then it is that column. |
| `PropUpdate.GetPropEntry` | release_scripts/localization_scripts/updatepropsscript.py:92-121 | Each column is present iff its index is in range. The path goes through the converter when there is one. should_delete is false without a converter. |
| `PropUpdate.GetPropEntries` | release_scripts/localization_scripts/updatepropsscript.py:124-148 | One entry per row, in order, each as `GetPropEntry` parses it. |
| `PropUpdate.StripNonEmpty` | release_scripts/localization_scripts/updatepropsscript.py:161 | `strip()` leaves something iff the string holds a character that is not white space. |
| `PropUpdate.GetShouldDeleted` | release_scripts/localization_scripts/updatepropsscript.py:151-164 | True iff the index is in range and that cell has a character that is not white space. |
| `PropUpdate.GetByFile` | release_scripts/localization_scripts/updatepropsscript.py:58-85 | The grouping loop computes the in-order fold `ByFile`. |
| `PropUpdate.ByFileKeys` | release_scripts/localization_scripts/updatepropsscript.py:72-78 | The groups are exactly the entries' paths. |
| `PropUpdate.ByFileDeletes` | release_scripts/localization_scripts/updatepropsscript.py:80-81 | A group's delete list holds its deleting entries' keys, in input order, duplicates kept. |
| `PropUpdate.ByFileUpdates` | release_scripts/localization_scripts/updatepropsscript.py:82-83 | A group sets a key iff some non-deleting entry for that path sets it, and the value is the last such entry's. |
| `PropUpdate.MergeProps` | release_scripts/localization_scripts/updatepropsscript.py:48-53 | The two loops compute the existing map minus the deleted keys, overridden by the updates. |
| `PropUpdate.MergedUpdates` | release_scripts/localization_scripts/updatepropsscript.py:52-53 | Updated keys hold their new values, even if also deleted. |
| `PropUpdate.MergedKeepsOthers` | release_scripts/localization_scripts/updatepropsscript.py:42-53 | Keys neither deleted nor updated keep their old values. |
| `PropUpdate.MergedDeletes` | release_scripts/localization_scripts/updatepropsscript.py:48-50 | A deleted key that is not set again is absent. |
| `PropUpdate.DeletingAbsentKeysIsNoOp` | release_scripts/localization_scripts/updatepropsscript.py:49 | Deleting keys the file lacks changes nothing. |
| `PropUpdate.UpdatePropEntries` | release_scripts/localization_scripts/updatepropsscript.py:29-55 | Each grouped file is read (empty when missing), merged and written back. Other files keep their contents. |
| `PropUpdate.WritePropEntries` | release_scripts/localization_scripts/updatepropsscript.py:14-26 | Each grouped file is replaced by its updates. Other files keep their contents. |
| `PropUpdate.OverwriteIgnoresDeletes` | release_scripts/localization_scripts/updatepropsscript.py:14-26 | An overwritten file holds a key iff some entry sets it. Old keys and delete lists play no part. |
| `PropUpdate.UnmentionedFilesUntouched` | release_scripts/localization_scripts/updatepropsscript.py:14-55 | Files no entry names are left as they were by both the update and the overwrite runs. |
| `PropUpdate.NewRelPathEndsWithName` | release_scripts/localization_scripts/updatepropsscript.py:167-180 | For a plain file name, the new path's last component is that name. |
| `PropUpdate.GetNewRelPath` | release_scripts/localization_scripts/updatepropsscript.py:167-180 | The new path always ends with the new name. An absolute new name replaces the whole path. |
| `PropUpdate.SplitOfJoin` | release_scripts/localization_scripts/updatepropsscript.py:178 | Splitting "dir/name" gives the name as tail. The head is `dir` without trailing slashes, or `dir/` when `dir` is only slashes. |
| `PropUpdate.NewRelPathReplacesBareFileName` | release_scripts/localization_scripts/updatepropsscript.py:178-180 | A bare "name.ext" with no directory becomes the new name. |
| `PropUpdate.NewRelPathReplacesFileName` | release_scripts/localization_scripts/updatepropsscript.py:178-180 | For every "dir/name.ext", the file name is replaced. The result is `dir` without its trailing slashes, then "/" and the new name; a `dir` made only of slashes (or empty) is kept, so "/a.b" gives "/new". |
| `PropUpdate.NewRelPathAppendsUnderDirectory` | release_scripts/localization_scripts/updatepropsscript.py:178-180 | For every path whose last component has no '.', the path is kept whole and the new name is added under it. A '/' is inserted unless the path is empty or already ends in one. |

## Left out

- Concurrency. The source's locks, SwingWorker threads and `invokeLater` hops are not modelled.
  - Each listener call, background run and completion is one atomic step.
  - Cancellation is a flag read once per background run.
  - In the ingest-job listener the dialog is answered in the same step as the stale flag is set, although the source defers it to the event thread.
- `ImageGallery.GalleryModule.OnCaseEvent`: it requires a controller for local DATA_SOURCE_ADDED and for tag events. The source dereferences the controller there without a check, so a missing controller throws a NullPointerException, which is not modelled.
- Closing the gallery window on CURRENT_CASE is not modelled. The close makes the window-open query false, but `OnIngestJobEvent` takes the window's state as a free input, so the model does not tie it to CURRENT_CASE.
- The dialog step of the ingest-job listener runs later on the event thread and re-reads the controller slot. By then the slot may be empty or hold a different controller. The model answers in the same step, with the controller whose stale flag it set.
- Notifications and logging are not modelled.
- ImageGalleryController is not part of this model. Its database, queue worker, tag manager and rebuild are recorded only as the tasks, notices and requests handed to them.
- Controller construction and file type detection appear as inputs: `ControllerInit` and `TypeDetection`.
- `FileTypeUtils.getAllSupportedExtensions` is an input set.
- `ImageGallery.IsEnabledForCase`: reading the per-case properties file and the global preference is I/O. The setting and the default are inputs.
- Letter-case folding in `Boolean.valueOf` covers only the ASCII letters of "true". That is all it can match.
- Artifact rendering (`ArtifactStringContent.getString`, HTML) is not modelled: a page shows the artifact itself. The pane's caret, the cursor and the right-click menu are left out.
- `ArtifactViewer.IsSupported`: the count query and the list query on the content are one input, so they cannot fail independently.
- Artifacts are compared by artifact id, as the data model library's `equals` does. The associated-artifact attribute type number is a constant of that library and is left unspecified.
- `ArtifactViewer.ContentViewer.StartNewTask`: a superseded task whose background part had already returned is not cancelled and still applies its update when it completes, as in the source. The model does not promise that only the current task changes the screen.
- `ArtifactViewer.ContentViewer.NextPage`: `currentPage + 1` is unbounded here. Java `int` overflow would need 2^31 pages.
- `ReportFilter.ReportFilterPanel.Generate`: starting report generation (`getReports`) and the progress bar's text, painting and visibility are not modelled.
- `ReportFilter.ReportFilterPanel.ProgBarSet`: the `getPercentComplete() == 1.0` floating-point check and the indeterminate mode it switches on are left out. `progBarCount` and `progBarDone` are outside the modelled core.
- `ReportFilter.ReportFilterPanel.constructor`: the effect of the configuration's `getAllTypes` call on the shared configuration is not modelled. The configuration as that call leaves it is an input. The exception it may throw is caught and logged.
- Reading and writing properties files, CSV parsing and argument handling are I/O. A properties file is a map from key to value, and the repository a map from relative path to file.
- `PropUpdate.UpdatePropEntries`: distinct relative paths that name the same file on disk (such as "a" and "./a") are treated as different files.
- Path operations use '/' as the separator (POSIX `os.path`). A `None` relative path is a key like any other, whereas the script would fail in `os.path.join`.
- Python dictionaries' insertion order, which only decides the order files are written, is not modelled.
