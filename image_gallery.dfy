/**
 * The image gallery's module-level logic: the single controller slot, the
 * classifier that decides whether a file belongs in the drawable database,
 * the per-case enable policy, and the three event listeners that turn
 * ingest, case and ingest-job events into tasks for the controller.
 *
 * Each listener call is one atomic step (the source holds one lock around
 * it); the controller's own work is left to the controller and recorded
 * here only as what was handed to it.
 */
module ImageGallery {
  import opened Wrappers

  /** A file's hash-set status (TskData.FileKnown). */
  datatype FileKnown = Unknown | Known | Bad

  /** Whether an event was raised on this node or replicated from another. */
  datatype SourceType = Local | Remote

  /** What file type detection says about a file; detection itself can fail. */
  datatype TypeDetection = Drawable | NotDrawable | DetectionFails

  /** A file of the case, with what the classifier asks of it. */
  datatype AbstractFile = AbstractFile(
    id: int,
    isFile: bool,
    known: FileKnown,
    nameExtension: string,
    detection: TypeDetection)

  /** A case, with its per-case "enabled" configuration value, if any. */
  datatype Case = Case(id: int, enabledSetting: Option<string>)

  /** The classifier's failure (a core or file-type-detector exception). */
  datatype ClassifyError = ClassifyError

  /** `getController`'s failure: no current case, or the controller could not open. */
  datatype NoCurrentCase = NoCurrentCase

  /** A task handed to the controller's database queue. */
  datatype DBTask =
    | UpdateFile(fileId: int)
    | RemoveFile(fileId: int)
    | PrePopulateDataSource(dataSourceId: int)

  /** A tag notification forwarded to the controller's tags manager. */
  datatype TagNotice = TagAdded(contentId: int) | TagDeleted(contentId: int)

  /** Ingest module events the module listener sees. */
  datatype IngestModuleEvent =
    | ContentChanged
    | DataAdded
    | FileDone(source: SourceType, file: AbstractFile)

  /** Case events the case listener sees (any other name is ignored). */
  datatype CaseEvent =
    | CurrentCase(newCase: Option<Case>)
    | DataSourceAdded(source: SourceType, dataSourceId: int)
    | ContentTagAdded(taggedContentId: int)
    | ContentTagDeleted(deletedContentId: int)
    | OtherCaseEvent

  /** Ingest job events the job listener sees. */
  datatype IngestJobEvent =
    | DataSourceAnalysisCompleted(source: SourceType)
    | OtherJobEvent

  /**
   * What constructing a controller for a case yields: an exception, or a
   * controller whose initial state the controller itself determines.
   */
  datatype ControllerInit =
    | InitFails
    | Opens(listening: bool, stale: bool, dataSourcesStale: bool, drawableIds: set<int>)

  /** The option the operator picks in the rebuild dialog (JOptionPane codes). */
  const YES_OPTION: int := 0
  const NO_OPTION: int := 1
  const CANCEL_OPTION: int := 2
  const CLOSED_OPTION: int := -1

  // ---------------------------------------------------------------------
  // Pure predicates

  /**
   * A file belongs in the drawable database when it is not KNOWN and its
   * type is drawable. The known check comes first and short-circuits, so a
   * known file is rejected without asking type detection, which cannot fail
   * for it.
   */
  function IsDrawableAndNotKnown(f: AbstractFile): (r: Result<bool, ClassifyError>)
    ensures f.known == Known ==> r == Ok(false)
    ensures r == Ok(true) <==> f.known != Known && f.detection == Drawable
    ensures r.Err? <==> f.known != Known && f.detection == DetectionFails
  {
    if f.known == Known then Ok(false)
    else match f.detection
      case Drawable => Ok(true)
      case NotDrawable => Ok(false)
      case DetectionFails => Err(ClassifyError)
  }

  /** `Character.isWhitespace`: the characters Java treats as white space. */
  predicate JavaWhitespace(ch: char)
  {
    || ch == ' ' || ('\t' <= ch <= '\r') || ('\U{001C}' <= ch <= '\U{001F}')
    || ch == '\U{1680}' || ('\U{2000}' <= ch <= '\U{2006}') || ('\U{2008}' <= ch <= '\U{200A}')
    || ch == '\U{2028}' || ch == '\U{2029}' || ch == '\U{205F}' || ch == '\U{3000}'
  }

  /** True iff every character of `s` is white space (vacuously for ""). */
  predicate AllWhitespace(s: string)
  {
    forall i :: 0 <= i < |s| ==> JavaWhitespace(s[i])
  }

  /** `StringUtils.isNotBlank`: present, and not empty or all white space. */
  predicate IsNotBlank(s: Option<string>)
  {
    s.Some? && !AllWhitespace(s.value)
  }

  /** One character compared ignoring case against a lower-case ASCII letter. */
  predicate SameLetterIgnoringCase(ch: char, lower: char)
    requires 'a' <= lower <= 'z'
  {
    ch == lower || ch as int == lower as int - 32
  }

  /** `Boolean.valueOf(String)`: true exactly for "true" in any letter case. */
  predicate BooleanValueOf(s: string)
  {
    && |s| == 4
    && SameLetterIgnoringCase(s[0], 't')
    && SameLetterIgnoringCase(s[1], 'r')
    && SameLetterIgnoringCase(s[2], 'u')
    && SameLetterIgnoringCase(s[3], 'e')
  }

  /**
   * Whether the gallery listens for the given case: never for a missing case;
   * otherwise the per-case setting when it is not blank, else the global
   * default.
   */
  function IsEnabledForCase(c: Option<Case>, enabledByDefault: bool): (r: bool)
    ensures c.None? ==> !r
    ensures c.Some? && IsNotBlank(c.value.enabledSetting) ==> r == BooleanValueOf(c.value.enabledSetting.value)
    ensures c.Some? && !IsNotBlank(c.value.enabledSetting) ==> r == enabledByDefault
  {
    match c
    case None => false
    case Some(theCase) =>
      if IsNotBlank(theCase.enabledSetting) then BooleanValueOf(theCase.enabledSetting.value)
      else enabledByDefault
  }

  /** An explicit per-case "true"/"false" overrides the default either way. */
  lemma PerCaseSettingOverridesDefault(id: int, enabledByDefault: bool)
    ensures IsEnabledForCase(Some(Case(id, Some("TRUE"))), enabledByDefault)
    ensures IsEnabledForCase(Some(Case(id, Some("True"))), enabledByDefault)
    ensures !IsEnabledForCase(Some(Case(id, Some("false"))), enabledByDefault)
    ensures !IsEnabledForCase(Some(Case(id, Some("yes"))), enabledByDefault)
  {
    assert !JavaWhitespace('T') && !JavaWhitespace('f') && !JavaWhitespace('y');
    assert "TRUE"[0] == 'T' && "True"[0] == 'T' && "false"[0] == 'f' && "yes"[0] == 'y';
  }

  /** A blank or missing per-case setting falls back to the default. */
  lemma BlankSettingUsesDefault(id: int, enabledByDefault: bool, blank: string)
    requires AllWhitespace(blank)
    ensures IsEnabledForCase(Some(Case(id, Some(blank))), enabledByDefault) == enabledByDefault
    ensures IsEnabledForCase(Some(Case(id, None)), enabledByDefault) == enabledByDefault
  {
  }

  /**
   * The task a local FILE_DONE event queues: none unless a controller exists,
   * it is listening and the item is a file; then an update for a drawable,
   * not-known file, else a removal when the extension is a supported one,
   * else nothing. A classification failure queues nothing.
   */
  function FileDoneTask(source: SourceType, hasController: bool, listening: bool,
                        file: AbstractFile, supportedExtensions: set<string>): (r: Option<DBTask>)
    ensures r.Some? ==> source == Local && hasController && listening && file.isFile
    ensures r.Some? ==> r.value.UpdateFile? || r.value.RemoveFile?
    ensures r.Some? ==> r.value.fileId == file.id
  {
    if source == Local && hasController && listening && file.isFile then
      match IsDrawableAndNotKnown(file)
      case Err(_) => None
      case Ok(true) => Some(UpdateFile(file.id))
      case Ok(false) =>
        if file.nameExtension in supportedExtensions then Some(RemoveFile(file.id)) else None
    else None
  }

  /** A KNOWN file is never added, whatever its type or detection outcome. */
  lemma KnownFileNeverUpdated(source: SourceType, hasController: bool, listening: bool,
                              file: AbstractFile, supportedExtensions: set<string>)
    requires file.known == Known
    ensures FileDoneTask(source, hasController, listening, file, supportedExtensions)
            != Some(UpdateFile(file.id))
    ensures FileDoneTask(source, hasController, listening, file, supportedExtensions).Some?
            <==> source == Local && hasController && listening && file.isFile
                 && file.nameExtension in supportedExtensions
  {
  }

  /** When type detection fails for a file that is not known, nothing is queued. */
  lemma ClassificationFailureQueuesNothing(source: SourceType, hasController: bool, listening: bool,
                                           file: AbstractFile, supportedExtensions: set<string>)
    requires file.known != Known && file.detection == DetectionFails
    ensures FileDoneTask(source, hasController, listening, file, supportedExtensions) == None
  {
  }

  /**
   * The full decision table: an update exactly for a drawable, not-known file
   * under the gating conditions; a removal exactly for a supported extension
   * whose file was classified out.
   */
  lemma FileDoneDecision(source: SourceType, hasController: bool, listening: bool,
                         file: AbstractFile, supportedExtensions: set<string>)
    ensures var gate := source == Local && hasController && listening && file.isFile;
      && (FileDoneTask(source, hasController, listening, file, supportedExtensions) == Some(UpdateFile(file.id))
          <==> gate && file.known != Known && file.detection == Drawable)
      && (FileDoneTask(source, hasController, listening, file, supportedExtensions) == Some(RemoveFile(file.id))
          <==> gate && (file.known == Known || file.detection == NotDrawable)
               && file.nameExtension in supportedExtensions)
  {
  }

  /**
   * What a remote DATA_SOURCE_ANALYSIS_COMPLETED event does: it marks an
   * existing controller stale, and it asks for a rebuild only when the
   * controller is listening, the gallery is open and the operator says yes.
   */
  datatype AnalysisReaction = AnalysisReaction(setsStale: bool, rebuilds: bool)

  function OnAnalysisCompleted(source: SourceType, hasController: bool, listening: bool,
                               galleryOpen: bool, answer: int): (r: AnalysisReaction)
    ensures r.rebuilds ==> r.setsStale
    ensures r.setsStale <==> source == Remote && hasController
    ensures r.rebuilds <==> source == Remote && hasController && listening && galleryOpen && answer == YES_OPTION
  {
    if source == Remote && hasController then
      AnalysisReaction(true, listening && galleryOpen && answer == YES_OPTION)
    else AnalysisReaction(false, false)
  }

  /** "No", "cancel" and a closed dialog leave only the stale flag behind. */
  lemma OnlyYesRebuilds(hasController: bool, listening: bool, galleryOpen: bool, answer: int)
    requires answer in {NO_OPTION, CANCEL_OPTION, CLOSED_OPTION}
    ensures !OnAnalysisCompleted(Remote, hasController, listening, galleryOpen, answer).rebuilds
    ensures OnAnalysisCompleted(Remote, hasController, listening, galleryOpen, answer).setsStale == hasController
  {
  }

  // ---------------------------------------------------------------------
  // The controller, as far as the module sees it

  /** A controller's observable state. */
  datatype ControllerState = ControllerState(
    listeningEnabled: bool,
    stale: bool,
    dataSourcesTableStale: bool,
    drawableIds: set<int>,
    queue: seq<DBTask>,
    tagNotices: seq<TagNotice>,
    rebuildRequests: nat,
    isShutDown: bool)

  /**
   * The image gallery controller bound to one case. Its internals (the
   * database, the queue worker, rebuilding) are not part of this model: the
   * fields record what the module asks of it.
   */
  class Controller {
    const boundCase: Case
    var listeningEnabled: bool
    var stale: bool
    var dataSourcesTableStale: bool
    /** The ids the drawable database holds (`isInDB`). */
    var drawableIds: set<int>
    /** Tasks handed to `queueDBTask`, in order. */
    var queue: seq<DBTask>
    /** Tag events forwarded to the tags manager, in order. */
    var tagNotices: seq<TagNotice>
    /** How many times `rebuildDB` was called. */
    var rebuildRequests: nat
    var isShutDown: bool

    ghost function State(): ControllerState
      reads this
    {
      ControllerState(listeningEnabled, stale, dataSourcesTableStale, drawableIds,
                      queue, tagNotices, rebuildRequests, isShutDown)
    }

    /** A controller freshly opened for `c`: nothing queued yet. */
    constructor (c: Case, listening: bool, isStale: bool, dsStale: bool, ids: set<int>)
      ensures boundCase == c
      ensures State() == ControllerState(listening, isStale, dsStale, ids, [], [], 0, false)
    {
      boundCase := c;
      listeningEnabled, stale, dataSourcesTableStale := listening, isStale, dsStale;
      drawableIds := ids;
      queue, tagNotices, rebuildRequests, isShutDown := [], [], 0, false;
    }

    function IsInDB(id: int): bool
      reads this
    {
      id in drawableIds
    }

    method QueueDBTask(t: DBTask)
      modifies this`queue
      ensures queue == old(queue) + [t]
    {
      queue := queue + [t];
    }

    method SetStale(b: bool)
      modifies this`stale
      ensures stale == b
    {
      stale := b;
    }

    method RebuildDB()
      modifies this`rebuildRequests
      ensures rebuildRequests == old(rebuildRequests) + 1
    {
      rebuildRequests := rebuildRequests + 1;
    }

    method FireTagNotice(n: TagNotice)
      modifies this`tagNotices
      ensures tagNotices == old(tagNotices) + [n]
    {
      tagNotices := tagNotices + [n];
    }

    method ShutDown()
      modifies this`isShutDown
      ensures State() == old(State()).(isShutDown := true)
    {
      isShutDown := true;
    }
  }

  function TaskSeq(t: Option<DBTask>): seq<DBTask>
  {
    match t
    case None => []
    case Some(task) => [task]
  }

  // ---------------------------------------------------------------------
  // The module: one controller slot and three listeners

  class GalleryModule {
    /** The single controller slot; null while no controller is bound. */
    var controller: Controller?
    /** Whether each listener is still registered with its event source. */
    var moduleListenerSubscribed: bool
    var caseListenerSubscribed: bool
    var jobListenerSubscribed: bool

    /** Start-up registers the three listeners; no controller exists yet. */
    constructor ()
      ensures controller == null
      ensures moduleListenerSubscribed && caseListenerSubscribed && jobListenerSubscribed
    {
      controller := null;
      moduleListenerSubscribed, caseListenerSubscribed, jobListenerSubscribed := true, true, true;
    }

    /**
     * Returns the controller, creating one for the current case when the slot
     * is empty. No current case, or a failing construction, is reported as an
     * error and leaves the slot empty.
     */
    method GetController(currentCase: Option<Case>, init: ControllerInit)
      returns (r: Result<Controller, NoCurrentCase>)
      modifies this`controller
      ensures old(controller) != null ==> r == Ok(old(controller)) && controller == old(controller)
      ensures old(controller) == null && currentCase.Some? && init.Opens? ==>
        && r.Ok? && controller == r.value && fresh(r.value)
        && r.value.boundCase == currentCase.value
        && r.value.State() == ControllerState(init.listening, init.stale, init.dataSourcesStale,
                                              init.drawableIds, [], [], 0, false)
      ensures old(controller) == null && (currentCase.None? || init.InitFails?) ==>
        r.Err? && controller == null
    {
      if controller == null {
        if currentCase.Some? && init.Opens? {
          controller := new Controller(currentCase.value, init.listening, init.stale,
                                       init.dataSourcesStale, init.drawableIds);
        } else {
          return Err(NoCurrentCase);
        }
      }
      r := Ok(controller);
    }

    /**
     * Whether the drawable database is out of date: false with no controller,
     * otherwise the controller's data-sources-table staleness. The case
     * argument is not consulted.
     */
    function IsDrawableDBStale(c: Option<Case>): (r: bool)
      reads this, controller
      ensures controller == null ==> !r
      ensures controller != null ==> r == controller.dataSourcesTableStale
    {
      controller != null && controller.dataSourcesTableStale
    }

    /**
     * The ingest module listener. In headless mode the first delivery
     * unregisters it; otherwise a FILE_DONE event queues what FileDoneTask
     * decides and every other event is ignored.
     */
    method OnIngestModuleEvent(evt: IngestModuleEvent, runningWithGui: bool,
                               supportedExtensions: set<string>)
      modifies this`moduleListenerSubscribed, controller
      ensures controller == old(controller)
      ensures caseListenerSubscribed == old(caseListenerSubscribed)
      ensures jobListenerSubscribed == old(jobListenerSubscribed)
      ensures moduleListenerSubscribed == (old(moduleListenerSubscribed) && runningWithGui)
      ensures controller != null ==>
        controller.State() == old(controller.State()).(queue := old(controller.queue) +
          if old(moduleListenerSubscribed) && runningWithGui && evt.FileDone?
          then TaskSeq(FileDoneTask(evt.source, true, old(controller.listeningEnabled),
                                    evt.file, supportedExtensions))
          else [])
    {
      if !moduleListenerSubscribed {
        return;
      }
      if !runningWithGui {
        moduleListenerSubscribed := false;
        return;
      }
      match evt {
        case ContentChanged =>
        case DataAdded =>
        case FileDone(source, file) =>
          if source == Local && controller != null && controller.listeningEnabled && file.isFile {
            match IsDrawableAndNotKnown(file) {
              case Err(_) =>
              case Ok(drawable) =>
                if drawable {
                  controller.QueueDBTask(UpdateFile(file.id));
                } else if file.nameExtension in supportedExtensions {
                  controller.QueueDBTask(RemoveFile(file.id));
                }
            }
          }
      }
    }

    /**
     * The case listener. In headless mode the first delivery unregisters it.
     * CURRENT_CASE shuts down and drops the old controller, then binds a new
     * one to the new case when there is one and construction succeeds.
     * DATA_SOURCE_ADDED (local) queues one prepopulation task when listening;
     * tag events are forwarded when the tagged content is in the database.
     * The latter three use the controller without checking it, so it must
     * exist when they arrive.
     */
    method OnCaseEvent(evt: CaseEvent, runningWithGui: bool, init: ControllerInit)
      requires caseListenerSubscribed && runningWithGui ==>
        ((evt.DataSourceAdded? && evt.source == Local) || evt.ContentTagAdded? || evt.ContentTagDeleted?)
        ==> controller != null
      modifies this`controller, this`caseListenerSubscribed, controller
      ensures moduleListenerSubscribed == old(moduleListenerSubscribed)
      ensures jobListenerSubscribed == old(jobListenerSubscribed)
      ensures caseListenerSubscribed == (old(caseListenerSubscribed) && runningWithGui)
      // Not delivered, or headless: nothing else changes.
      ensures !(old(caseListenerSubscribed) && runningWithGui) ==>
        controller == old(controller) && (controller != null ==> controller.State() == old(controller.State()))
      // CURRENT_CASE: the old controller is shut down and replaced.
      ensures old(caseListenerSubscribed) && runningWithGui && evt.CurrentCase? ==>
        && (old(controller) != null ==> old(controller).State() == old(controller.State()).(isShutDown := true))
        && (if evt.newCase.Some? && init.Opens? then
              && controller != null && fresh(controller)
              && controller.boundCase == evt.newCase.value
              && controller.State() == ControllerState(init.listening, init.stale, init.dataSourcesStale,
                                                        init.drawableIds, [], [], 0, false)
            else controller == null)
      // Every other case event keeps the controller and changes only what is listed.
      ensures old(caseListenerSubscribed) && runningWithGui && !evt.CurrentCase? ==>
        controller == old(controller) &&
        (controller != null ==> controller.State() == old(controller.State()).(
          queue := old(controller.queue) +
            if evt.DataSourceAdded? && evt.source == Local && old(controller.listeningEnabled)
            then [PrePopulateDataSource(evt.dataSourceId)] else [],
          tagNotices := old(controller.tagNotices) +
            if evt.ContentTagAdded? && evt.taggedContentId in old(controller.drawableIds)
            then [TagAdded(evt.taggedContentId)]
            else if evt.ContentTagDeleted? && evt.deletedContentId in old(controller.drawableIds)
            then [TagDeleted(evt.deletedContentId)]
            else []))
    {
      if !caseListenerSubscribed {
        return;
      }
      if !runningWithGui {
        caseListenerSubscribed := false;
        return;
      }
      match evt {
        case CurrentCase(newCase) =>
          if controller != null {
            controller.ShutDown();
            controller := null;
          }
          if newCase.Some? {
            match init {
              case InitFails =>
              case Opens(listening, isStale, dsStale, ids) =>
                controller := new Controller(newCase.value, listening, isStale, dsStale, ids);
            }
          }
        case DataSourceAdded(source, dataSourceId) =>
          if source == Local {
            if controller.listeningEnabled {
              controller.QueueDBTask(PrePopulateDataSource(dataSourceId));
            }
          }
        case ContentTagAdded(contentId) =>
          if controller.IsInDB(contentId) {
            controller.FireTagNotice(TagAdded(contentId));
          }
        case ContentTagDeleted(contentId) =>
          if controller.IsInDB(contentId) {
            controller.FireTagNotice(TagDeleted(contentId));
          }
        case OtherCaseEvent =>
      }
    }

    /**
     * The ingest job listener (which has no headless check). A remote
     * DATA_SOURCE_ANALYSIS_COMPLETED marks an existing controller stale and,
     * when it is listening and the gallery is open, asks the operator; only
     * a yes answer triggers a rebuild.
     */
    method OnIngestJobEvent(evt: IngestJobEvent, galleryOpen: bool, answer: int)
      modifies controller
      ensures controller != null ==>
        var reaction := OnAnalysisCompleted(
          if evt.DataSourceAnalysisCompleted? then evt.source else Local,
          true, old(controller.listeningEnabled), galleryOpen, answer);
        controller.State() == old(controller.State()).(
          stale := reaction.setsStale || old(controller.stale),
          rebuildRequests := old(controller.rebuildRequests) + if reaction.rebuilds then 1 else 0)
    {
      match evt {
        case DataSourceAnalysisCompleted(source) =>
          if source == Remote {
            if controller != null {
              controller.SetStale(true);
              if controller.listeningEnabled && galleryOpen {
                if answer == YES_OPTION {
                  controller.RebuildDB();
                }
              }
            }
          }
        case OtherJobEvent =>
      }
    }
  }
}
