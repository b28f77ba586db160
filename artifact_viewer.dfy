/**
 * The results content viewer: it shows the blackboard artifacts of the
 * selected node's content one page per artifact, and keeps its page number,
 * page labels and next/previous buttons in step with the view updates that
 * its background tasks produce.
 *
 * A background task is modelled in two steps, as a SwingWorker runs: `RunTask`
 * is `doInBackground` (it may fill the artifact cache and leaves its outcome
 * on the task), `Done` is `done` (it applies the outcome to the view unless
 * the task was cancelled). Cancellation is a flag on the task that
 * `StartNewTask` sets; as with `SwingWorker.cancel`, it has no effect on a task
 * whose background part has already returned.
 */
module ArtifactViewer {
  import opened Wrappers

  /**
   * The attribute type id of an associated artifact, as the data model
   * library numbers it; no proof depends on its value.
   */
  const AssociatedArtifactType: int

  datatype Attribute = Attribute(typeId: int, valueLong: int)

  /**
   * A blackboard artifact. The data model compares artifacts by id; its
   * attributes are None when reading them fails.
   */
  datatype Artifact = Artifact(artifactId: int, attributes: Option<seq<Attribute>>)

  /** The content behind a node; its artifacts are None when reading them fails. */
  datatype Content = Content(artifacts: Option<seq<Artifact>>)

  /** A selected node and what its lookup yields. */
  datatype Node = Node(nodeId: int, content: Option<Content>, artifact: Option<Artifact>)

  /** What the output pane shows. */
  datatype Display = Blank | WaitText | ErrorText | Rendered(artifact: Artifact)

  datatype ViewUpdate = ViewUpdate(numberOfPages: int, currentPage: int, text: Display)

  /**
   * How `doInBackground` ends: it throws (Failed, which `done` logs), returns
   * null (NoUpdate) or returns a view update.
   */
  datatype Outcome = Failed | NoUpdate | Update(update: ViewUpdate)

  /** The two kinds of task: a new node was selected, or another page was asked for. */
  datatype TaskKind = NodeChanged(node: Node) | ArtifactChanged(pageIndex: int)

  /** Everything on screen, as one value. */
  datatype ScreenState = ScreenState(currentPage: int, currentPageLabel: Option<int>, totalPageLabel: Option<int>,
                                     text: Display, prevEnabled: bool, nextEnabled: bool)

  // ---------------------------------------------------------------------
  // Choosing the artifact to show

  /** `indexOf` on an artifact list: the first position with artifact id `id`, or -1. */
  function FirstWithId(artifacts: seq<Artifact>, id: int): (r: int)
    ensures -1 <= r < |artifacts|
    ensures r >= 0 ==> artifacts[r].artifactId == id
    ensures r >= 0 ==> forall j :: 0 <= j < r ==> artifacts[j].artifactId != id
    ensures r == -1 <==> forall j :: 0 <= j < |artifacts| ==> artifacts[j].artifactId != id
  {
    if artifacts == [] then -1
    else if artifacts[0].artifactId == id then 0
    else
      var r := FirstWithId(artifacts[1..], id);
      if r == -1 then -1 else r + 1
  }

  /** The position of the first associated-artifact attribute, or -1. */
  function FirstAssociation(attributes: seq<Attribute>): (r: int)
    ensures -1 <= r < |attributes|
    ensures r >= 0 ==> attributes[r].typeId == AssociatedArtifactType
    ensures r >= 0 ==> forall j :: 0 <= j < r ==> attributes[j].typeId != AssociatedArtifactType
    ensures r == -1 <==> forall j :: 0 <= j < |attributes| ==> attributes[j].typeId != AssociatedArtifactType
  {
    if attributes == [] then -1
    else if attributes[0].typeId == AssociatedArtifactType then 0
    else
      var r := FirstAssociation(attributes[1..]);
      if r == -1 then -1 else r + 1
  }

  /**
   * The index of the artifact to show: 0 without a node artifact or when it
   * is not in the list; otherwise its position, unless its first
   * associated-artifact attribute names an artifact of the list, in which
   * case that artifact's position.
   */
  function SelectedIndex(artifacts: seq<Artifact>, nodeArtifact: Option<Artifact>): (r: int)
    ensures 0 <= r
    ensures artifacts != [] ==> r < |artifacts|
  {
    match nodeArtifact
    case None => 0
    case Some(a) =>
      var pos := FirstWithId(artifacts, a.artifactId);
      if pos == -1 then 0
      else match a.attributes
        case None => pos
        case Some(attrs) =>
          var k := FirstAssociation(attrs);
          if k == -1 then pos
          else
            var assoc := FirstWithId(artifacts, attrs[k].valueLong);
            if assoc >= 0 then assoc else pos
  }

  /**
   * The index selection of the node task, with its loops: the artifact's
   * position, then a scan of its attributes that stops at the first
   * associated-artifact attribute and looks its target up in the list.
   */
  method SelectArtifactIndex(artifacts: seq<Artifact>, nodeArtifact: Option<Artifact>) returns (index: int)
    ensures index == SelectedIndex(artifacts, nodeArtifact)
  {
    index := 0;
    if nodeArtifact.Some? {
      var artifact := nodeArtifact.value;
      index := FirstWithId(artifacts, artifact.artifactId);
      if index == -1 {
        index := 0;
      } else if artifact.attributes.Some? {
        var attrs := artifact.attributes.value;
        var i := 0;
        while i < |attrs|
          invariant 0 <= i <= |attrs|
          invariant forall j :: 0 <= j < i ==> attrs[j].typeId != AssociatedArtifactType
          invariant index == FirstWithId(artifacts, artifact.artifactId)
        {
          if attrs[i].typeId == AssociatedArtifactType {
            var assocArtifactId := attrs[i].valueLong;
            var assocArtifactIndex := -1;
            var n := 0;
            while n < |artifacts|
              invariant 0 <= n <= |artifacts|
              invariant assocArtifactIndex == -1
              invariant forall j :: 0 <= j < n ==> artifacts[j].artifactId != assocArtifactId
            {
              if assocArtifactId == artifacts[n].artifactId {
                assocArtifactIndex := FirstWithId(artifacts, artifacts[n].artifactId);
                break;
              }
              n := n + 1;
            }
            assert assocArtifactIndex == FirstWithId(artifacts, assocArtifactId);
            if assocArtifactIndex >= 0 {
              index := assocArtifactIndex;
            }
            break;
          }
          i := i + 1;
        }
      }
    }
  }

  /** Without a node artifact in the list, the first page is chosen. */
  lemma SelectsFirstWhenArtifactAbsent(artifacts: seq<Artifact>, nodeArtifact: Option<Artifact>)
    requires nodeArtifact.None? || forall j :: 0 <= j < |artifacts| ==> artifacts[j].artifactId != nodeArtifact.value.artifactId
    ensures SelectedIndex(artifacts, nodeArtifact) == 0
  {
  }

  /**
   * When the node's artifact is listed, the choice is that artifact's first
   * position, or the first position of the artifact its first
   * associated-artifact attribute names when that one is listed.
   */
  lemma SelectsListedArtifact(artifacts: seq<Artifact>, a: Artifact, p: int)
    requires 0 <= p < |artifacts| && artifacts[p].artifactId == a.artifactId
    ensures var r := SelectedIndex(artifacts, Some(a));
      && 0 <= r < |artifacts|
      && (|| artifacts[r].artifactId == a.artifactId
          || (&& a.attributes.Some?
              && FirstAssociation(a.attributes.value) >= 0
              && artifacts[r].artifactId
                 == a.attributes.value[FirstAssociation(a.attributes.value)].valueLong))
      && forall j :: 0 <= j < r ==> artifacts[j].artifactId != artifacts[r].artifactId
  {
  }

  /**
   * The redirect: when the node's artifact is listed and its first
   * associated-artifact attribute names a listed artifact, that artifact's
   * first position is chosen.
   */
  lemma RedirectsToFirstAssociation(artifacts: seq<Artifact>, a: Artifact)
    requires FirstWithId(artifacts, a.artifactId) >= 0
    requires a.attributes.Some? && FirstAssociation(a.attributes.value) >= 0
    requires FirstWithId(artifacts, a.attributes.value[FirstAssociation(a.attributes.value)].valueLong) >= 0
    ensures SelectedIndex(artifacts, Some(a))
      == FirstWithId(artifacts, a.attributes.value[FirstAssociation(a.attributes.value)].valueLong)
  {
  }

  /**
   * When the node's artifact is listed but its attributes cannot be read, or
   * it has no associated-artifact attribute, its own first position is chosen.
   */
  lemma KeepsOwnPositionWithoutAssociation(artifacts: seq<Artifact>, a: Artifact)
    requires FirstWithId(artifacts, a.artifactId) >= 0
    requires a.attributes.None? || FirstAssociation(a.attributes.value) == -1
    ensures SelectedIndex(artifacts, Some(a)) == FirstWithId(artifacts, a.artifactId)
  {
  }

  /**
   * Only the first associated-artifact attribute is looked at: when it names
   * no listed artifact, the node's own artifact is shown even if a later one
   * would name a listed artifact.
   */
  lemma OnlyFirstAssociationCounts(artifacts: seq<Artifact>, a: Artifact, k: int)
    requires FirstWithId(artifacts, a.artifactId) >= 0
    requires a.attributes.Some? && 0 <= k < |a.attributes.value|
    requires a.attributes.value[k].typeId == AssociatedArtifactType
    requires forall j :: 0 <= j < k ==> a.attributes.value[j].typeId != AssociatedArtifactType
    requires FirstWithId(artifacts, a.attributes.value[k].valueLong) == -1
    ensures SelectedIndex(artifacts, Some(a)) == FirstWithId(artifacts, a.artifactId)
  {
  }

  // ---------------------------------------------------------------------
  // What the background tasks compute

  /**
   * `SelectedNodeChangedTask.doInBackground`: an error view when the content
   * or its artifacts cannot be had (which throws when there is no cache yet
   * to count), nothing once cancelled, and otherwise the selected artifact's
   * page; an empty artifact list makes the page lookup throw.
   */
  function NodeTaskOutcome(node: Node, cache: Option<seq<Artifact>>, currentPage: int, cancelled: bool): Outcome
  {
    if node.content.None? || node.content.value.artifacts.None? then
      if cache.None? then Failed else Update(ViewUpdate(|cache.value|, currentPage, ErrorText))
    else if cancelled then NoUpdate
    else
      var artifacts := node.content.value.artifacts.value;
      var index := SelectedIndex(artifacts, node.artifact);
      if |artifacts| <= index then Failed
      else Update(ViewUpdate(|artifacts|, index + 1, Rendered(artifacts[index])))
  }

  /** Whether the node task replaces the artifact cache: only on its success path. */
  predicate NodeTaskSetsCache(node: Node, cancelled: bool)
  {
    && node.content.Some? && node.content.value.artifacts.Some?
    && node.content.value.artifacts.value != [] && !cancelled
  }

  /**
   * `SelectedArtifactChangedTask.doInBackground`: page `pageIndex` shows
   * cached artifact `pageIndex - 1`; a missing cache or a page outside it
   * throws, and a cancelled task returns nothing.
   */
  function ArtifactTaskOutcome(pageIndex: int, cache: Option<seq<Artifact>>, cancelled: bool): Outcome
  {
    if cache.None? || !(0 <= pageIndex - 1 < |cache.value|) then Failed
    else if cancelled then NoUpdate
    else Update(ViewUpdate(|cache.value|, pageIndex, Rendered(cache.value[pageIndex - 1])))
  }

  function TaskOutcome(kind: TaskKind, cache: Option<seq<Artifact>>, currentPage: int, cancelled: bool): Outcome
  {
    match kind
    case NodeChanged(node) => NodeTaskOutcome(node, cache, currentPage, cancelled)
    case ArtifactChanged(pageIndex) => ArtifactTaskOutcome(pageIndex, cache, cancelled)
  }

  /**
   * A node task that is not cancelled and finds artifacts shows the selected
   * one: as many pages as artifacts, and the page of the selected index.
   */
  lemma NodeTaskShowsSelectedArtifact(node: Node, cache: Option<seq<Artifact>>, currentPage: int)
    requires NodeTaskSetsCache(node, false)
    ensures var artifacts := node.content.value.artifacts.value;
      var o := NodeTaskOutcome(node, cache, currentPage, false);
      && o.Update?
      && o.update.numberOfPages == |artifacts|
      && 1 <= o.update.currentPage <= |artifacts|
      && o.update.currentPage - 1 == SelectedIndex(artifacts, node.artifact)
      && o.update.text == Rendered(artifacts[o.update.currentPage - 1])
  {
  }

  /** A page task shows cached artifact p - 1 on page p, out of as many pages as cached artifacts. */
  lemma PageShowsCachedArtifact(pageIndex: int, cache: seq<Artifact>)
    requires 1 <= pageIndex <= |cache|
    ensures ArtifactTaskOutcome(pageIndex, Some(cache), false)
      == Update(ViewUpdate(|cache|, pageIndex, Rendered(cache[pageIndex - 1])))
    ensures ArtifactTaskOutcome(pageIndex, Some(cache), true) == NoUpdate
  {
  }

  /** A page outside the cache, or no cache at all, makes the page task fail. */
  lemma PageOutsideCacheFails(pageIndex: int, cache: Option<seq<Artifact>>, cancelled: bool)
    requires cache.None? || pageIndex < 1 || |cache.value| < pageIndex
    ensures ArtifactTaskOutcome(pageIndex, cache, cancelled) == Failed
  {
  }

  /** Whether the viewer can show anything for `node`: its content has artifacts. */
  function IsSupported(node: Option<Node>): (r: bool)
    ensures r ==> node.Some? && node.value.content.Some?
  {
    match node
    case None => false
    case Some(n) =>
      match n.content
      case None => false
      case Some(c) => c.artifacts.Some? && |c.artifacts.value| > 0
  }

  /**
   * A supported node, once selected, leads to a task that shows one of its
   * artifacts unless it is cancelled; an unsupported one with content never does.
   */
  lemma SupportedNodesShowAnArtifact(node: Node, cache: Option<seq<Artifact>>, currentPage: int)
    ensures IsSupported(Some(node)) <==> NodeTaskSetsCache(node, false)
    ensures IsSupported(Some(node)) ==> NodeTaskOutcome(node, cache, currentPage, false).Update?
    ensures var o := NodeTaskOutcome(node, cache, currentPage, false);
      node.content.Some? && !IsSupported(Some(node)) ==> !(o.Update? && o.update.text.Rendered?)
  {
  }

  /** Preference rank: 5 for a node that is itself an artifact, 3 otherwise. */
  function IsPreferred(node: Node): (r: int)
    ensures r == 3 || r == 5
    ensures r == 5 <==> node.artifact.Some?
  {
    if node.artifact.None? then 3 else 5
  }

  // ---------------------------------------------------------------------
  // The viewer

  class ViewTask {
    const kind: TaskKind
    var cancelled: bool
    /** What `doInBackground` returned, once it has run. */
    var outcome: Option<Outcome>

    constructor (k: TaskKind)
      ensures kind == k && !cancelled && outcome == None
    {
      kind := k;
      cancelled := false;
      outcome := None;
    }
  }

  class ContentViewer {
    var currentNode: Option<Node>
    var currentPage: int
    var currentPageLabel: Option<int>
    var totalPageLabel: Option<int>
    var text: Display
    var prevEnabled: bool
    var nextEnabled: bool
    /** The rendered artifacts of the last node shown; null until a node task succeeds. */
    var cache: Option<seq<Artifact>>
    var currentTask: ViewTask?
    /** Every task this viewer started. */
    ghost var tasks: set<ViewTask>

    ghost function Screen(): ScreenState
      reads this
    {
      ScreenState(currentPage, currentPageLabel, totalPageLabel, text, prevEnabled, nextEnabled)
    }

    /**
     * Every task but the current one has been cancelled, unless its
     * background part had already returned when it was superseded.
     */
    ghost predicate Valid()
      reads this, tasks
    {
      && (currentTask != null ==> currentTask in tasks)
      && forall t :: t in tasks && t != currentTask ==> t.cancelled || t.outcome.Some?
    }

    /**
     * The buttons agree with the page labels: both off before any update,
     * and afterwards next on iff a later page exists, previous on iff an
     * earlier one does.
     */
    predicate PagingConsistent()
      reads this
    {
      match totalPageLabel
      case None => !nextEnabled && !prevEnabled
      case Some(n) => nextEnabled == (currentPage < n) && prevEnabled == (currentPage > 1)
    }

    constructor ()
      ensures Valid() && PagingConsistent()
      ensures currentNode == None && cache == None && currentTask == null && tasks == {}
      ensures Screen() == ScreenState(1, None, None, Blank, false, false)
    {
      currentTask := null;
      tasks := {};
      cache := None;
      new;
      ResetComponents();
    }

    /** Back to the empty view: page 1, blank labels and pane, both buttons off, no node. */
    method ResetComponents()
      modifies this`currentPage, this`currentPageLabel, this`totalPageLabel, this`text,
               this`prevEnabled, this`nextEnabled, this`currentNode
      ensures Screen() == ScreenState(1, None, None, Blank, false, false)
      ensures currentNode == None
      ensures PagingConsistent()
    {
      currentPage := 1;
      currentPageLabel := None;
      totalPageLabel := None;
      text := Blank;
      prevEnabled := false;
      nextEnabled := false;
      currentNode := None;
    }

    /** Applies a view update; the buttons then agree with its page and page count. */
    method UpdateView(viewUpdate: ViewUpdate)
      modifies this`currentPage, this`currentPageLabel, this`totalPageLabel, this`text,
               this`prevEnabled, this`nextEnabled
      ensures nextEnabled <==> viewUpdate.currentPage < viewUpdate.numberOfPages
      ensures prevEnabled <==> viewUpdate.currentPage > 1
      ensures currentPage == viewUpdate.currentPage
      ensures currentPageLabel == Some(viewUpdate.currentPage)
      ensures totalPageLabel == Some(viewUpdate.numberOfPages)
      ensures text == viewUpdate.text
      ensures PagingConsistent()
    {
      nextEnabled := viewUpdate.currentPage < viewUpdate.numberOfPages;
      prevEnabled := viewUpdate.currentPage > 1;
      currentPage := viewUpdate.currentPage;
      totalPageLabel := Some(viewUpdate.numberOfPages);
      currentPageLabel := Some(currentPage);
      text := viewUpdate.text;
    }

    /**
     * Shows the wait text, cancels the previous task and makes a new task the
     * current one. The cancellation only takes when the previous task's
     * background part has not returned yet; a finished task keeps its flag.
     */
    method StartNewTask(kind: TaskKind) returns (task: ViewTask)
      requires Valid()
      modifies this`text, this`currentTask, this`tasks, currentTask
      ensures Valid()
      ensures fresh(task) && task.kind == kind && !task.cancelled && task.outcome == None
      ensures currentTask == task && tasks == old(tasks) + {task}
      ensures text == WaitText
      ensures old(currentTask) != null ==> old(currentTask).outcome == old(currentTask.outcome)
      ensures old(currentTask) != null && old(currentTask.outcome).None? ==> old(currentTask).cancelled
      ensures old(currentTask) != null && old(currentTask.outcome).Some? ==>
        old(currentTask).cancelled == old(currentTask.cancelled)
    {
      text := WaitText;
      if currentTask != null && currentTask.outcome.None? {
        currentTask.cancelled := true;
      }
      task := new ViewTask(kind);
      currentTask := task;
      tasks := tasks + {task};
    }

    /**
     * Selecting a node: the same node again, no node, or a node without
     * content starts nothing; any other node gets a node task.
     */
    method SetNode(selectedNode: Option<Node>) returns (started: ViewTask?)
      requires Valid()
      modifies this`currentNode, this`text, this`currentTask, this`tasks, currentTask
      ensures Valid()
      ensures currentNode == selectedNode
      ensures started == null <==>
        old(currentNode) == selectedNode || selectedNode.None? || selectedNode.value.content.None?
      ensures started == null ==>
        && text == old(text) && currentTask == old(currentTask) && tasks == old(tasks)
        && (old(currentTask) != null ==>
              && old(currentTask).cancelled == old(currentTask.cancelled)
              && old(currentTask).outcome == old(currentTask.outcome))
      ensures started != null ==>
        && fresh(started) && started.kind == NodeChanged(selectedNode.value)
        && !started.cancelled && started.outcome == None
        && currentTask == started && tasks == old(tasks) + {started} && text == WaitText
        && (old(currentTask) != null ==> old(currentTask).outcome == old(currentTask.outcome))
        && (old(currentTask) != null && old(currentTask.outcome).None? ==> old(currentTask).cancelled)
        && (old(currentTask) != null && old(currentTask.outcome).Some? ==>
              old(currentTask).cancelled == old(currentTask.cancelled))
    {
      started := null;
      if currentNode == selectedNode {
        return;
      }
      currentNode := selectedNode;
      if selectedNode.None? {
        return;
      }
      if selectedNode.value.content.None? {
        return;
      }
      started := StartNewTask(NodeChanged(selectedNode.value));
    }

    /**
     * The next-page button: one page on, and a page task for it. Pressed
     * while the buttons agree with the labels, the new page is still one
     * of the pages shown.
     */
    method NextPage() returns (task: ViewTask)
      requires Valid()
      modifies this`currentPage, this`currentPageLabel, this`text, this`currentTask, this`tasks,
               currentTask
      ensures Valid()
      ensures currentPage == old(currentPage) + 1 && currentPageLabel == Some(currentPage)
      ensures fresh(task) && task.kind == ArtifactChanged(currentPage) && currentTask == task
      ensures !task.cancelled && task.outcome == None && tasks == old(tasks) + {task}
      ensures text == WaitText
      ensures old(currentTask) != null ==> old(currentTask).outcome == old(currentTask.outcome)
      ensures old(currentTask) != null && old(currentTask.outcome).None? ==> old(currentTask).cancelled
      ensures old(currentTask) != null && old(currentTask.outcome).Some? ==>
        old(currentTask).cancelled == old(currentTask.cancelled)
      ensures old(PagingConsistent() && nextEnabled) ==>
        old(totalPageLabel).Some? && currentPage <= old(totalPageLabel).value
    {
      currentPage := currentPage + 1;
      currentPageLabel := Some(currentPage);
      task := StartNewTask(ArtifactChanged(currentPage));
    }

    /**
     * The previous-page button: one page back, and a page task for it.
     * Pressed while the buttons agree with the labels, the new page is at
     * least 1.
     */
    method PrevPage() returns (task: ViewTask)
      requires Valid()
      modifies this`currentPage, this`currentPageLabel, this`text, this`currentTask, this`tasks,
               currentTask
      ensures Valid()
      ensures currentPage == old(currentPage) - 1 && currentPageLabel == Some(currentPage)
      ensures fresh(task) && task.kind == ArtifactChanged(currentPage) && currentTask == task
      ensures !task.cancelled && task.outcome == None && tasks == old(tasks) + {task}
      ensures text == WaitText
      ensures old(currentTask) != null ==> old(currentTask).outcome == old(currentTask.outcome)
      ensures old(currentTask) != null && old(currentTask.outcome).None? ==> old(currentTask).cancelled
      ensures old(currentTask) != null && old(currentTask.outcome).Some? ==>
        old(currentTask).cancelled == old(currentTask.cancelled)
      ensures old(PagingConsistent() && prevEnabled) ==> 1 <= currentPage
    {
      currentPage := currentPage - 1;
      currentPageLabel := Some(currentPage);
      task := StartNewTask(ArtifactChanged(currentPage));
    }

    /**
     * The background part of a task. Only a node task that succeeds replaces
     * the cache, so a cancelled task leaves it alone.
     */
    method RunTask(task: ViewTask)
      modifies this`cache, task`outcome
      ensures task.outcome == Some(TaskOutcome(task.kind, old(cache), currentPage, task.cancelled))
      ensures task.kind.NodeChanged? && NodeTaskSetsCache(task.kind.node, task.cancelled) ==>
        cache == task.kind.node.content.value.artifacts
      ensures !(task.kind.NodeChanged? && NodeTaskSetsCache(task.kind.node, task.cancelled)) ==>
        cache == old(cache)
      ensures task.cancelled ==> cache == old(cache)
    {
      match task.kind
      case ArtifactChanged(pageIndex) =>
        var o := RunArtifactTask(pageIndex, task.cancelled);
        task.outcome := Some(o);
      case NodeChanged(node) =>
        var o := RunNodeTask(node, task.cancelled);
        task.outcome := Some(o);
    }

    method RunNodeTask(node: Node, cancelled: bool) returns (o: Outcome)
      modifies this`cache
      ensures o == NodeTaskOutcome(node, old(cache), currentPage, cancelled)
      ensures cache == if NodeTaskSetsCache(node, cancelled) then node.content.value.artifacts else old(cache)
    {
      if node.content.None? || node.content.value.artifacts.None? {
        if cache.None? {
          return Failed;
        }
        return Update(ViewUpdate(|cache.value|, currentPage, ErrorText));
      }
      if cancelled {
        return NoUpdate;
      }
      var artifacts := node.content.value.artifacts.value;
      var index := SelectArtifactIndex(artifacts, node.artifact);
      if |artifacts| <= index {
        return Failed;
      }
      var viewUpdate := ViewUpdate(|artifacts|, index + 1, Rendered(artifacts[index]));
      cache := Some(artifacts);
      return Update(viewUpdate);
    }

    method RunArtifactTask(pageIndex: int, cancelled: bool) returns (o: Outcome)
      ensures o == ArtifactTaskOutcome(pageIndex, cache, cancelled)
    {
      if cache.None? || !(0 <= pageIndex - 1 < |cache.value|) {
        return Failed;
      }
      var artifactString := Rendered(cache.value[pageIndex - 1]);
      if cancelled {
        return NoUpdate;
      }
      return Update(ViewUpdate(|cache.value|, pageIndex, artifactString));
    }

    /**
     * The completion of a task: its update is applied only when the task was
     * not cancelled; a failure or a null result changes nothing. Since every
     * superseded task whose background part was still running is cancelled,
     * a superseded task changes the view only if it had already finished.
     */
    method Done(task: ViewTask)
      requires task.outcome.Some?
      modifies this`currentPage, this`currentPageLabel, this`totalPageLabel, this`text,
               this`prevEnabled, this`nextEnabled
      ensures !task.cancelled && task.outcome.value.Update? ==>
        var u := task.outcome.value.update;
        Screen() == ScreenState(u.currentPage, Some(u.currentPage), Some(u.numberOfPages), u.text,
                                u.currentPage > 1, u.currentPage < u.numberOfPages)
      ensures task.cancelled || !task.outcome.value.Update? ==> Screen() == old(Screen())
      ensures Valid() && task in tasks && task != currentTask && Screen() != old(Screen()) ==>
        !task.cancelled && task.outcome.value.Update?
    {
      if !task.cancelled {
        match task.outcome.value
        case Update(viewUpdate) =>
          UpdateView(viewUpdate);
        case _ =>
      }
    }
  }
}
