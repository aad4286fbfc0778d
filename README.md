# code_compass diagram core in Dafny

This project models the two diagram programs of code_compass and proves
properties about the model.

- **`layout.py`, the live radial diagram.** A background emitter walks a
  directory tree and emits subtopic and detail events, each key only once.
  The view keeps an insertion-ordered map from topics to their details, plus
  a map of responses. It then places the topics on a circle around a central
  node, and each topic's details on an arc around that topic. Each node
  animates between a collapsed and an expanded size, depending on the view
  scale. The view also zooms in, zooms out, and fits the scene.
- **`main.py`, the static file-circle view.** Each file is a node that
  expands and collapses through an expander circle. Each node has a filename
  label that runs an explanation session. A session streams Markdown chunks
  from a worker, can be stopped, and can later be reopened. The view scales
  within zoom limits, fits its items, sizes the circle of nodes, and moves a
  cursor that explains the nodes one after another.

The modules follow the two programs:

| Module | File | What it holds |
|---|---|---|
| `Basics` | `basics.dfy` | `Option`, points and rectangles, `Min`/`Max`/`Abs`/`Clamp`, substrings |
| `LayoutIngestion` | `layout_ingestion.dfy` | `read_file_content`, `file_system_generator`, `process_directory` |
| `LayoutNode` | `layout_node.dfy` | `TextNodeItem` of `layout.py`: sizes, animation, anchors |
| `LayoutDiagram` | `layout_diagram.dfy` | `ClusterDiagramWidget` of `layout.py`: `handle_new_data`, `update_scene`, zoom |
| `MainWorker` | `main_worker.dfy` | `ExplanationWorker` |
| `MainNode` | `main_node.dfy` | `ScrollableTextWidget`, `ExpanderCircle`, `FilenameLabelWidget`, `TextNodeItem` of `main.py` |
| `MainView` | `main_view.dfy` | `ClusterDiagramWidget` of `main.py` |

Modelling choices:

- **Floating point** is modelled as exact `real` arithmetic.
- **Angles** are kept in degrees. The radial layout is returned in polar form
  (angle and radius). Turning a polar point into a scene point takes the
  cosine and sine of degrees as function parameters. π is a positive
  parameter of `CalculateRadius`.
- **The file system** is an abstract tree of `Dir` and `FileRecord` values. A
  file's size and its UTF-8 read are given as outcomes that may fail.
- **The random summary** of `FakeAPIHandler.process_file` is a function
  parameter `summarize`.
- **Qt text measurement** (`QTextDocument`) is a function parameter
  `measure`.
- **Markdown rendering** (mistune) is a function field `markdown` of the
  label.
- **Qt's view transform.** The scale it applies is a `real` field. Where the
  source reads back the scale Qt's `fitInView` produced, that scale is a
  parameter.
- **Streaming.** The worker's completion stream is a given sequence of
  chunks, plus the way the stream ends. A `stop()` that arrives during the
  stream is the index `stopAt` of the first chunk the loop sees after it.
- **Mutable objects.** Objects whose fields the source updates are classes
  whose methods are proved against specification functions. The emitter, the
  views, the nodes, the label, the expander and the worker are classes. Pure
  decisions are functions. Each explanation session is also modelled as a
  `Session` value, so that sequences of transitions can be stated as lemmas.

Where the program's own documentation and the code disagree, the model
follows the code:

- **Root files.** Files directly in the walked root directory get the root's
  base name as their parent. A subtopic for the root was emitted just
  before, so these files land under that topic. The `"Root Files"` topic is
  only reached when the root is walked as `"."`.
- **Dedup key.** The key is the colon-joined string `type:parent:content`. It
  is not the triple, so different events can collide (`KeyNotInjective`).
- **A single detail** sits at its topic's angle + 60°. It is not centred on
  the topic's direction.
- **Detail radius.** Detail j sits at radius 300 + 750·j from its topic,
  because the spacing is 1.5 × the detail width of 500.
- **Empty scene.** `calculate_optimal_scale` returns 1.0 when the scene is
  empty. `fit_in_view` of `main.py` has no lower bound.

## Model

| member | source | states |
|---|---|---|
| LayoutIngestion.Extension | layout.py:97 | The suffix is empty, or it starts with the last dot and holds no other dot. Dots that lead the name do not start an extension. A name without a dot has no extension. |
| LayoutIngestion.Lower | layout.py:97 | Lower-casing keeps the length and maps every character through ASCII lower-casing. |
| LayoutIngestion.Take | layout.py:107-109 | The read is a prefix of the text. It is exactly `max_size` characters long when the text is longer, and the whole text otherwise. |
| LayoutIngestion.ReadFileContent | layout.py:64-113 | The result is None exactly when the lower-cased extension is not one of the 27 text extensions. For a text file: a failing size check gives the error text. A file over `max_size` gives the fixed too-large notice. Otherwise the result is at most `max_size` characters of the content, or the error text when the read fails. |
| LayoutIngestion.Prune | layout.py:130-134 | The walk descends exactly into the listed sub-directories whose names are not excluded. A single directory is kept exactly when its name is not excluded. |
| LayoutIngestion.PruneKeepsOrder | layout.py:130-134 | Pruning a concatenation prunes each part and keeps them in order, so the kept directories stay in their listed order. |
| LayoutIngestion.StepEvents | layout.py:136-159 | An excluded directory yields nothing. Otherwise a step yields one subtopic event first, when the name is neither empty nor ".", with the given parent label. It then yields exactly one detail event per file, in file order, with the directory as parent. A subtopic event can only come first. |
| LayoutIngestion.WalkSkipsExcluded | layout.py:128-159 | Over the whole walk: no subtopic names an excluded directory, and no detail has an excluded directory as its parent. |
| LayoutIngestion.ChildrenSkipExcluded | layout.py:132-134 | The same holds for the walks of the kept sub-directories. |
| LayoutIngestion.RootEventFirst | layout.py:136-144 | For a root with an ordinary base name, the first event is the root's subtopic, with parent "Main Topic". |
| LayoutIngestion.WalkKeysIgnoreSummaries | layout.py:149-159 | The random summaries never change which dedup keys a walk produces. |
| LayoutIngestion.ChildKeysIgnoreSummaries | layout.py:132-159 | The same holds for the walks of the sub-directories. |
| LayoutIngestion.DedupPassEmitsNewKeysOnce | layout.py:178-184 | A pass emits only events of the input whose key was not already processed. It emits each key at most once, and it emits every new key. |
| LayoutIngestion.DedupPassKnownKeys | layout.py:179 | A pass whose keys were all processed before emits nothing. |
| LayoutIngestion.SecondPassEmitsNothing | layout.py:169-186 | A second pass of `process_directory` over an unchanged tree emits nothing, whatever the second pass's summaries are. |
| LayoutIngestion.KeyNotInjective | layout.py:178 | Two different detail events can share one key, so dedup works on strings, not on triples. |
| LayoutIngestion.FileSystemEmitter.constructor | layout.py:121-126 | The emitter starts running, with an empty processed set. |
| LayoutIngestion.FileSystemEmitter.Stop | layout.py:188-189 | `stop` clears the running flag and keeps the processed set. |
| LayoutIngestion.DedupPassStep | layout.py:176-184 | One loop step: the event is emitted exactly when its key is not yet in the processed set, and its key then joins the set. |
| LayoutIngestion.FileSystemEmitter.ProcessPass | layout.py:171-184 | After a pass, the processed set is the old set plus every key of the pass. The emitted events are those with new keys, in order, each key once. |
| LayoutNode.CollapsedSize | layout.py:211-212 | The collapsed size is 0.8 × and 0.4 × the smaller minimum dimension, a 2:1 rectangle inside the minimum size. |
| LayoutNode.Interpolate | layout.py:329-336 | The size is the collapsed size at progress 0 and the expanded size at progress 1, and it lies between them for progress in [0, 1]. |
| LayoutNode.FirstLine | layout.py:202-203 | A detail node displays the text up to its first newline: a prefix that contains no newline and stops at a newline or at the end. |
| LayoutNode.CollapsedLabel | layout.py:364-366 | A label longer than 15 characters becomes its first 12 characters and "...". A shorter label is kept. The result is never longer than 15. |
| LayoutNode.WidenSteps | layout.py:266-274 | The number of 50-pixel widenings is the first count at which the text fits in 3 × the minimum height, or reaches 3 × the minimum width. Every earlier width fails both tests. |
| LayoutNode.ExpandedSize | layout.py:265-282 | The expanded size is never below the minimum size. |
| LayoutNode.TargetProgress | layout.py:318-322 | The target is 0 exactly when the node is a detail and the scale is below 0.5, and 1 otherwise. |
| LayoutNode.TickValue | layout.py:425-432 | A gap under 0.01 snaps to the target. Otherwise the gap shrinks to exactly 0.85 of its old value. |
| LayoutNode.TickMovesTowardTarget | layout.py:425-432 | A tick moves progress strictly toward the target without overshooting, and keeps progress in [0, 1]. |
| LayoutNode.TicksGap | layout.py:425-432 | Starting at most 1 away from the target, after k ticks the gap is at most 0.85^k. |
| LayoutNode.ConvergesWithin30Ticks | layout.py:425-432 | From progress and target in [0, 1], after 30 or more ticks the progress equals the target. |
| LayoutNode.StaysAtTarget | layout.py:426-428 | Once at the target, further ticks leave the progress unchanged. |
| LayoutNode.CollapsedAnchor | layout.py:439-472 | The anchor is an edge midpoint of the current rectangle. It is on the left or right edge exactly when abs(dx) > abs(dy). |
| LayoutNode.CollapsedAnchorFacesTarget | layout.py:439-472 | The collapsed anchor lies on the side of the centre facing the target, horizontally and vertically. |
| LayoutNode.RectAnchor | layout.py:474-514 | With a current width and height > 0, the anchor lies on the boundary of the current rectangle and on the ray from the centre through the target. Its x side follows the target's, and a vertically aligned target gives the top or bottom midpoint. |
| LayoutNode.RectOffset | layout.py:490-512 | The exit point, taken as an offset from the centre, is on the rectangle boundary and along the target direction: same slope, same quadrant. A target offset with dx = 0 gives the top or bottom midpoint. |
| LayoutNode.TextNodeItem.constructor | layout.py:193-250 | A new node keeps its text. A detail node displays only the first line. The node has the collapsed and expanded sizes given by the rules above, and starts expanded at scale 1 with the timer idle. |
| LayoutNode.TextNodeItem.UpdateExpandedDimensions | layout.py:252-285 | The widening loop settles on the expanded size defined by `WidenSteps`. |
| LayoutNode.TextNodeItem.BoundingRect | layout.py:405-409 | The rectangle is centred on the item origin and contains the animated rectangle at every progress. |
| LayoutNode.TextNodeItem.SceneCenter | layout.py:441-442 | The scene centre of a node is its position, because its bounding rectangle is centred on the origin. |
| LayoutNode.TextNodeItem.GetConnectionPoint | layout.py:437-514 | A collapsed detail node anchors at an edge midpoint. Any other node anchors on its boundary, on the ray toward the target. |
| LayoutNode.TextNodeItem.Paint | layout.py:312-367 | `paint` records the scale and sets the target by the scale rule. It starts the timer when the target changes. It draws the interpolated rectangle centred on the origin, with the truncated label below half progress and the full text otherwise. |
| LayoutNode.TextNodeItem.UpdateAnimation | layout.py:425-432 | One tick sets the progress to `TickValue`, and the timer stops exactly when the gap was under 0.01. |
| LayoutDiagram.AddTopic | layout.py:746-747 | After adding, the name is a topic. |
| LayoutDiagram.SubtopicEvent | layout.py:734-736 | A subtopic event appends a new name with an empty list and changes nothing else. It never resets an existing list. |
| LayoutDiagram.DetailOfKnownTopic | layout.py:738-740 | A detail of a known topic is appended at the end of that topic's list. The order and every other list are unchanged. |
| LayoutDiagram.DetailOfCentralTopic | layout.py:745-749 | A detail of "Main Topic" is appended to "Root Files". That topic is created at the end of the order when missing. |
| LayoutDiagram.DetailOfUnknownTopic | layout.py:737-753 | A detail with any other parent changes nothing. |
| LayoutDiagram.ResponseOfEvent | layout.py:741-753 | For an accepted detail, non-empty file text sets the response to "File contents:" and that text, overriding the summary. Otherwise a non-empty summary sets the response. Otherwise the entry is untouched. Other entries never change. |
| LayoutDiagram.ApplyEventWellFormed | layout.py:733-753 | Every event keeps the topic order duplicate-free and equal to the map's keys. |
| LayoutDiagram.TopicsOnlyGrow | layout.py:733-753 | Over any event sequence, topics are never removed or reordered, and a topic's list only grows at its end. |
| LayoutDiagram.TopicAnglesEvenlySpaced | layout.py:786-793 | Topic 0 is at 90°. Consecutive topics are exactly 360/n apart. All n topics lie in (−270°, 90°]. |
| LayoutDiagram.TopicAngleWithinTurn | layout.py:786-793 | Each of the n topic angles lies in (−270°, 90°]. |
| LayoutDiagram.DetailAngles | layout.py:845-863 | One detail sits at the topic angle + 60°. With m > 1 details, they run in equal steps of −120/(m−1), from +60° to −60°. |
| LayoutDiagram.DetailRadiiIncrease | layout.py:856-868 | The first detail is at 300, and detail radii strictly increase. |
| LayoutDiagram.DetailLayouts | layout.py:860-895 | One placement is made per detail. |
| LayoutDiagram.SceneLayout | layout.py:763-868 | The scene has the central topic and one placement per topic in insertion order, each with one placement per detail. |
| LayoutDiagram.SceneContents | layout.py:786-878 | With no subtopics only the central node is placed. A detail node's text is its name, a newline and its response when a response is stored, and just its name otherwise. |
| LayoutDiagram.PolarToScene | layout.py:796-797 | When cos² + sin² = 1, the scene point is at the given radius from the origin. |
| LayoutDiagram.PlacedNodeMissesTarget | layout.py:810-814 | As written, a node placed by subtracting half its size is centred half its size away from the point its connectors aim at. |
| LayoutDiagram.NodePosition | layout.py:405-409 | The corrected position puts the node's bounding-rectangle centre on the target. |
| LayoutDiagram.PlacedNodeCentredOnTarget | layout.py:816-830 | With the corrected position, the node's centre is the point the connectors aim at. |
| LayoutDiagram.PlacedAsWrittenOffPolarPoint | layout.py:796-814 | As written, a node placed at a polar point is centred half its size up and left of that point, never on it. |
| LayoutDiagram.PlaceNode | layout.py:405-409 | The corrected placement: a node placed at a polar angle and radius has its centre at that polar point. |
| LayoutDiagram.PlacedNodeAtRadius | layout.py:405-409 | The corrected placement puts the node's centre at the given radius from its origin. |
| LayoutDiagram.ZoomedIn | layout.py:638-641 | Zooming in never exceeds 3.0, stays in [0.1, 3.0] from inside it, and grows the scale when not capped. |
| LayoutDiagram.ZoomedOut | layout.py:643-646 | Zooming out never goes below 0.1, stays in [0.1, 3.0] from inside it, and shrinks the scale when not floored. |
| LayoutDiagram.ZoomOutUndoesZoomIn | layout.py:638-646 | Away from the limits, zooming out undoes zooming in. |
| LayoutDiagram.OptimalScale | layout.py:695-711 | The optimal scale is 1.0 for an empty scene and always lies in [0.1, 3.0]. |
| LayoutDiagram.OptimalScaleFits | layout.py:704-711 | Above the floor, the content fits in the viewport less 100, and strictly between the limits it fills it in one direction. The floor 0.1 is taken only when one of the two (viewport − 100)/content ratios is at most 0.1, and the cap 3.0 only when both are at least 3.0. Together these fix the scale as the smaller ratio clamped to [0.1, 3.0]. |
| LayoutDiagram.ClusterDiagramWidget.constructor | layout.py:518-556 | The widget starts with no topics and no responses, at scale 1. |
| LayoutDiagram.ClusterDiagramWidget.StoreResponse | layout.py:741-744 | The summary is stored first, then the file text over it. |
| LayoutDiagram.ClusterDiagramWidget.HandleNewData | layout.py:733-761 | The fields become `ApplyEvent` of the old model, stay well formed, and the rebuilt scene is `SceneLayout` of the new model. |
| LayoutDiagram.ClusterDiagramWidget.UpdateScene | layout.py:786-868 | The nested placement loops build exactly `SceneLayout` of the model. |
| LayoutDiagram.ClusterDiagramWidget.PlaceDetails | layout.py:845-895 | The inner loop builds exactly `DetailLayouts` of one topic. |
| LayoutDiagram.ClusterDiagramWidget.ZoomIn | layout.py:638-641 | The scale becomes `ZoomedIn` of the old scale. |
| LayoutDiagram.ClusterDiagramWidget.ZoomOut | layout.py:643-646 | The scale becomes `ZoomedOut` of the old scale. |
| LayoutDiagram.ClusterDiagramWidget.ResetZoom | layout.py:648-650 | The scale becomes 1.0. |
| LayoutDiagram.ClusterDiagramWidget.AnimateZoom | layout.py:623-636 | The animation runs from the current scale to the target, clamped to [0.1, 3.0]. |
| LayoutDiagram.ClusterDiagramWidget.MousePress | layout.py:675-681 | A shift click starts a rubber-band selection: both flags are set. Any other press leaves them. |
| LayoutDiagram.ClusterDiagramWidget.MouseRelease | layout.py:683-692 | Releasing during a selection clears both flags. Over a non-empty selection the scale becomes the fitted transform scale, with no clamp. Otherwise the scale is kept, and outside a selection nothing changes. |
| LayoutDiagram.ClusterDiagramWidget.AutoFit | layout.py:713-716 | The scale becomes the optimal scale. |
| MainWorker.ChunkText | main.py:80-83 | A chunk contributes one text exactly when it has a non-empty `choices` whose first delta has content, and that text is the content. |
| MainWorker.ChunkTextsAppend | main.py:76-83 | The texts of two consecutive stretches of stream are the texts of each, concatenated. |
| MainWorker.ChunkTextsFromChunks | main.py:76-83 | Every text handed on is some chunk's content, and there are never more texts than chunks. |
| MainWorker.Cut | main.py:76-78 | The loop stops at the first chunk after a stop, or at the end: with a stop after chunk k it reads min(k, n) chunks. With the flag already cleared, it reads nothing. |
| MainWorker.LaterStopEmitsMore | main.py:76-83 | A later stop never hands on less: the earlier output is a prefix of the later one. |
| MainWorker.StoppedRunHasNoError | main.py:87-91 | A stopped run reports no error: its output is only the texts read before the stop. |
| MainWorker.ExplanationWorker.constructor | main.py:51-54 | A worker holds its code and starts running. |
| MainWorker.ExplanationWorker.Stop | main.py:56-58 | `stop` clears the running flag. |
| MainWorker.ExplanationWorker.Run | main.py:60-91 | The chunk loop hands on exactly `RunOutput`: the texts read before the stop, then "**Error:** " and the message when the stream failed and was not stopped. The flag is cleared exactly when the stop came. |
| MainNode.ExpanderPosition | main.py:628-633 | The expander overhangs the right edge by 5. It rises 5 above the top when expanded, and is centred vertically when collapsed. |
| MainNode.LabelPosition | main.py:634-641 | The label sits 5 above the node when expanded, and is centred on the node when collapsed. |
| MainNode.CollapsedControlsAligned | main.py:625-641 | On a collapsed node, the expander and the label share one vertical centre, and both fit inside the node. |
| MainNode.TransitionsKeepInvariant | main.py:326-515 | Every transition keeps the invariant: a worker is held exactly while one runs, and while it runs the explanation is hidden and the button is disabled and hidden. |
| MainNode.ChunkAppends | main.py:483-489 | A chunk is appended exactly, the pane renders the whole accumulation, and nothing else changes. |
| MainNode.FinishedIdempotent | main.py:499-515 | Finishing twice has the effect of finishing once. |
| MainNode.StopEffect | main.py:326-335 | A stop while running appends exactly one interruption marker. It also sets running false and showing true, clears the worker, and shows the "Code" button. Otherwise a stop changes nothing. |
| MainNode.MarkerBlocksReuse | main.py:446-449 | An accumulation that ends with the interruption marker contains the interruption phrase and is never reused. |
| MainNode.ReceiveAllAppends | main.py:483-489 | Receiving a run of chunks appends exactly their concatenation to the accumulation. |
| MainNode.LateChunksStayBlocked | main.py:326-335 | After a stop, chunks that still arrive never make the accumulation reusable again. |
| MainNode.ClickCases | main.py:439-481 | While showing, a click flips back to the code with "Explain". While running, it only stops. A non-empty, uninterrupted accumulation is reused with no new worker. Otherwise the accumulation is reset and a new worker runs, with the button disabled and hidden. |
| MainNode.StopThenReopenRestarts | main.py:326-481 | After a stop, going back to the code and clicking again always starts a fresh request. |
| MainNode.FinishThenReopenReuses | main.py:446-454 | After a complete explanation, going back and clicking again shows the same text with no request. |
| MainNode.ScrollableTextWidget.constructor | main.py:95-100 | The widget holds the file name and the code, and shows the code pane. |
| MainNode.ScrollableTextWidget.SwitchToSecond | main.py:141-145 | The explanation pane is shown, with its content replaced when one is given. |
| MainNode.ScrollableTextWidget.SwitchToFirst | main.py:147-149 | The code pane is shown. |
| MainNode.ExpanderCircle.constructor | main.py:167-176 | A new circle is collapsed. |
| MainNode.ExpanderCircle.ToggleExpanded | main.py:221-223 | `toggle_expanded` flips the circle's flag. |
| MainNode.ExpanderCircle.MousePress | main.py:204-211 | A left click on a circle of a node flips both flags and leaves them equal. Any other click changes neither the circle, nor its node, nor the node's label. |
| MainNode.FilenameLabelWidget.constructor | main.py:261-297 | A new label has no text, no worker, no explanation, and an enabled "Explain" button. |
| MainNode.FilenameLabelWidget.SetText | main.py:495-497 | `set_text` sets the text. |
| MainNode.FilenameLabelWidget.SetCurrentlyExplaining | main.py:337-340 | `set_currently_explaining` sets the highlight flag. |
| MainNode.FilenameLabelWidget.HandleExplanationFinished | main.py:499-515 | The session becomes `Finished`: not running, showing, no worker, and a visible, enabled "Code" button. |
| MainNode.FilenameLabelWidget.HandleChunkReceived | main.py:483-489 | On a node, the session becomes `ChunkReceived`. Without a node, nothing changes. |
| MainNode.FilenameLabelWidget.StopExplanation | main.py:326-335 | The session becomes `Stopped`, and a running worker's flag is cleared. |
| MainNode.FilenameLabelWidget.OnExplainClicked | main.py:427-481 | The node is expanded first. The session becomes `Clicked`, and a new worker runs on the node's code. Without a node, nothing changes. |
| MainNode.FilenameLabelWidget.ShowExplanation | main.py:445-476 | With no explanation showing and no worker running, the session becomes `Clicked`: the explanation reused, or a new worker started on the node's code. |
| MainNode.FilenameLabelWidget.ShowCode | main.py:477-481 | With the explanation showing, the session becomes `Clicked`: back to the code, button "Explain". |
| MainNode.TextNodeItem.constructor | main.py:524-572 | A new node is collapsed at height 40, with its text pane hidden and its label showing the path. Its session is the initial one, and the circle and the label are placed for the collapsed state. |
| MainNode.TextNodeItem.BoundingRect | main.py:656-657 | The rectangle starts at the origin, with the full width and the current height. |
| MainNode.TextNodeItem.UpdateCirclePosition | main.py:625-641 | The circle and the label move to `ExpanderPosition` and `LabelPosition` of the current state. |
| MainNode.TextNodeItem.SetCurrentHeight | main.py:577-581 | One animation frame sets the height and re-places the circle and the label. |
| MainNode.TextNodeItem.SetExpanded | main.py:587-609 | Setting the current state is a no-op. Otherwise the node flag, the expander flag and the pane visibility take the new value, and the label is lifted above the node. The height animates from the current height to the expanded height or to 40. |
| MainNode.TextNodeItem.ToggleExpanded | main.py:611-612 | The node's flag flips, the expander follows it, and the animation ends at the matching height. |
| MainView.ScaleViewFactor | main.py:923-932 | The applied factor brings the scale to exactly clamp(current · factor, 0.1, 10). |
| MainView.Zoomed | main.py:917-921 | A zoom step always lands in [0.1, 10]. |
| MainView.ZoomStaysInRange | main.py:917-932 | Any sequence of zoom steps from inside [0.1, 10] stays inside it. |
| MainView.ZoomOutUndoesZoomIn | main.py:917-932 | Away from the limits, zooming out undoes zooming in. |
| MainView.ZoomToRectScale | main.py:888-896 | A fitted scale above 10 becomes 10, one below 0.1 becomes 0.1, and one within the limits is kept. |
| MainView.ZoomToRectIsClamp | main.py:888-896 | That rule is the clamp to [0.1, 10]. |
| MainView.FitScale | main.py:801-823 | The fit scale is never above 1, and no lower bound is applied. |
| MainView.FitScaleFits | main.py:803-819 | At the fit scale, the padded items fit in the viewport. Unless the cap of 1 applies, they fill it in one direction. |
| MainView.CalculateRadius | main.py:934-942 | The radius is never below 200. |
| MainView.RadiusMonotone | main.py:939-942 | For a node width ≥ 0, more files never give a smaller radius. |
| MainView.RadiusLeavesRoom | main.py:939-942 | The circumference leaves every node its width plus 100. |
| MainView.ExplainSession | main.py:736-738 | A node whose explanation is shown keeps its session. Any other node's session is clicked. |
| MainView.ExplainSessionCases | main.py:733-738 | Explaining a node keeps the session invariant. An idle node that is not showing ends up showing its explanation, or waiting for a fresh one with an empty accumulation. A running node is stopped. |
| MainView.ClusterDiagramWidget.constructor | main.py:667-706 | The view holds the given nodes, with the cursor at the first node and no previous node. Its scale is `FitScale` of the items and the viewport, as `fit_in_view` leaves it. |
| MainView.ClusterDiagramWidget.ScaleView | main.py:923-932 | The scale becomes clamp(old · factor, 0.1, 10). |
| MainView.ClusterDiagramWidget.ZoomIn | main.py:917-918 | The scale becomes one zoom step in. |
| MainView.ClusterDiagramWidget.ZoomOut | main.py:920-921 | The scale becomes one zoom step out. |
| MainView.ClusterDiagramWidget.ZoomToRect | main.py:880-896 | The scale becomes `ZoomToRectScale` of the fitted scale. |
| MainView.ClusterDiagramWidget.FitInView | main.py:801-823 | The scale becomes `FitScale` of the item and viewport sizes. |
| MainView.ClusterDiagramWidget.ClearPreviousHighlight | main.py:719-722 | The previous node, if any, is no longer highlighted. Every other highlight and every session is kept. |
| MainView.ClusterDiagramWidget.ExplainNode | main.py:733-738 | The node is highlighted, and its session becomes `ExplainSession` of the old one. A node whose explanation was not shown ends up expanded; a shown one keeps its expansion. Every other node keeps its session and its highlight. |
| MainView.ClusterDiagramWidget.HighlightNode | main.py:733 | Only the node's highlight changes, to true. |
| MainView.ClusterDiagramWidget.OpenNode | main.py:736-738 | The node ends up expanded (main.py:431-432), and its session becomes `Clicked` of the old one. No other session and no highlight changes. |
| MainView.ClusterDiagramWidget.ExplainAtCursor | main.py:729-741 | The node under the cursor is explained and becomes the previous node, and the cursor advances by one. That node ends up expanded unless its explanation was shown, in which case it keeps its expansion. Every other node keeps its session and its highlight. |
| MainView.ClusterDiagramWidget.MoveCursor | main.py:734-740 | The node becomes the previous node and the cursor advances by one. No session or highlight changes. |
| MainView.ClusterDiagramWidget.ExplainNextNode | main.py:724-745 | The method returns true exactly when the cursor was before the end. The old previous node is un-highlighted in every case. On advance, the cursor moves by one, the node at the old cursor is highlighted and becomes the previous node, and its session becomes `ExplainSession` of the old one. That node ends up expanded unless its explanation was shown, in which case it keeps its expansion. Otherwise the cursor and the previous node are unchanged. Every other session and highlight is kept, and the cursor never passes the number of nodes. |

## Left out

- Qt painting, fonts, colours, brushes, rounded corners, cursors and z-order are left out. They are framework calls whose only effect is on screen.
- The glow animation and hover scaling of `main.py` are left out: they are visual only.
- `QPropertyAnimation` timing and easing (OutCubic, 300 ms) are left out. Only each animation's start and end values are modelled.
- `update_zoom` and `on_zoom_changed` are left out: they only install the transform and repaint.
- Stopping a running zoom animation before a new one is left out, because there is no animation clock.
- Threads, queued signal delivery, time.sleep, `QTimer.singleShot` and `worker.wait()` are left out. The outer `while self.running` loop of `process_directory` is left to the caller: each pass is one call of `ProcessPass`.
- The timing of chunks that arrive after a stop is not modelled: signals queued by the worker thread reach the label at times that depend on the threads. What any such chunks do to reuse is stated by `LateChunksStayBlocked`.
- `os.walk`, `open` and `os.path.getsize` are replaced by the abstract tree and file record. `relpath`/`dirname` corner cases, such as a root path with a trailing slash, are not modelled.
- `FakeAPIHandler.process_file` returns random text, so it is the `summarize` parameter.
- The litellm `completion` call is a given chunk sequence and ending. pygments highlighting and mistune rendering are left out, because they are foreign libraries; `markdown` is a function field for the latter.
- `display_file_nodes` and `MainWindow` are not part of this model. `display_file_nodes` does file I/O and trigonometric placement. `MainWindow` is window plumbing.
- `adjust_scroll_bars`, `centerOn`, `ensureVisible` and the internals of `fitInView` are left out. They are Qt viewport framework calls. The scale `fitInView` produces is a parameter of `ZoomToRect`.
- Mouse drag and pan are left out, and so is the geometry of the rubber band. In `main.py` the rubber band only feeds `zoom_to_rect`, whose clamp is modelled. In `layout.py` the release stores the fitted transform scale without a clamp (`MouseRelease`), so [0.1, 3.0] is not an invariant of that widget's scale.
- A zero-size viewport is not modelled past `FitInView`. `resizeEvent` (main.py:828-831) refits the view, and with a zero viewport width or height `FitScale` is 0. The next `zoom_in` or `zoom_out` then divides by that zero scale (main.py:929-930) and raises ZeroDivisionError. `ScaleView`, `ZoomIn` and `ZoomOut` require a positive scale, so that error path is not part of the model.
- Keyboard shortcuts and `keyPressEvent` are left out: they only dispatch to the modelled zoom methods.
- The connector line items are left out. The connectors' end points are `GetConnectionPoint`, and `update_connectors` only re-evaluates it.
- `shape()` is left out, because it only serves Qt hit-testing.
- `deleteLater` of the worker is left out. The label's reference is cleared, which is modelled.
- `explanation_worker_finished` is left out: it is emitted to listeners outside the core.
- LayoutIngestion.Lower: lower-cases ASCII letters only, where `str.lower` covers all of Unicode. Membership in the text-extension set is not affected. The only non-ASCII capitals that lower-case to ASCII are the Kelvin sign (to `k`), which no text extension contains, and the dotted capital I, which lower-cases to two characters, one of them non-ASCII.
- LayoutDiagram.ClusterDiagramWidget.UpdateScene: returns placements in polar form (angle and radius). Scene coordinates need cos and sin, which come in through `PolarToScene`. The as-written placement is `PositionAsWritten` (see Findings), and `PlaceNode` is the corrected one.
- LayoutNode.TextNodeItem.UpdateExpandedDimensions: the text-measurement function is a parameter. The loop's termination relies on the 50-pixel steps, and no Qt layout behaviour is modelled.

## Findings

| source | as written | input that shows it | evidently intended | confidence | as-written member | corrected member |
|---|---|---|---|---|---|---|
| layout.py:810-814 | `update_scene` places each node at its polar point minus half its bounding size. This treats the bounding rectangle as if it began at the item origin, but `boundingRect` (layout.py:405-409) is centred on the origin. | Any node: its centre lands at (x − w/2, y − h/2), while the connectors (layout.py:816-830) aim at (x, y). | The node should be centred on the polar point where its connectors aim. | medium, not executed | LayoutDiagram.PlacedNodeMissesTarget | LayoutDiagram.PlacedNodeCentredOnTarget |
