/** ClusterDiagramWidget of the static variant (main.py): the view scale, the
    fit and circle-radius formulas, and the cursor that explains the file nodes
    one after another. */
module MainView {
  import opened Basics
  import opened MainNode

  const MinZoom: real := 0.1
  const MaxZoom: real := 10.0
  const ZoomFactor: real := 1.15

  /** Padding added on every side of the items when fitting them in the view. */
  const FitPadding: real := 50.0

  /** The gap wanted between neighbouring nodes on the circle, and the smallest radius. */
  const NodeSpacing: real := 100.0
  const MinimumRadius: real := 200.0

  // ---------------------------------------------------------------------------
  // Scale arithmetic
  // ---------------------------------------------------------------------------

  /** The factor scale_view applies: the requested one, or the one that lands exactly
      on the zoom limit it would cross. */
  function ScaleViewFactor(current: real, factor: real): (f: real)
    requires current > 0.0
    ensures current * f == Clamp(current * factor, MinZoom, MaxZoom)
  {
    var newScale := current * factor;
    if newScale > MaxZoom then MaxZoom / current
    else if newScale < MinZoom then MinZoom / current
    else factor
  }

  /** The view scale after one zoom step: in when `zoomIn`, out otherwise. */
  function Zoomed(current: real, zoomIn: bool): (r: real)
    requires current > 0.0
    ensures MinZoom <= r <= MaxZoom
  {
    current * ScaleViewFactor(current, if zoomIn then ZoomFactor else 1.0 / ZoomFactor)
  }

  /** The view scale after a sequence of zoom steps. */
  function ZoomSteps(current: real, steps: seq<bool>): real
    requires current > 0.0
  {
    if steps == [] then current
    else
      var before := ZoomSteps(current, steps[..|steps| - 1]);
      if before > 0.0 then Zoomed(before, steps[|steps| - 1]) else before
  }

  /** However the user zooms in and out, a scale inside the limits stays inside them. */
  lemma {:induction false} ZoomStaysInRange(current: real, steps: seq<bool>)
    requires MinZoom <= current <= MaxZoom
    ensures MinZoom <= ZoomSteps(current, steps) <= MaxZoom
  {
    if steps != [] {
      ZoomStaysInRange(current, steps[..|steps| - 1]);
    }
  }

  /** Away from the limits, a zoom in followed by a zoom out gives back the scale. */
  lemma ZoomOutUndoesZoomIn(current: real)
    requires MinZoom <= current && current * ZoomFactor <= MaxZoom
    ensures Zoomed(Zoomed(current, true), false) == current
  {
    var up := Zoomed(current, true);
    assert up == current * ZoomFactor;
    assert up * (1.0 / ZoomFactor) == current;
  }

  /** The scale zoom_to_rect keeps after fitting the selection: the fitted scale,
      replaced by the limit it crosses. */
  function ZoomToRectScale(fitted: real): (r: real)
    ensures fitted > MaxZoom ==> r == MaxZoom
    ensures fitted < MinZoom ==> r == MinZoom
    ensures MinZoom <= fitted <= MaxZoom ==> r == fitted
  {
    if fitted > MaxZoom then MaxZoom
    else if fitted < MinZoom then MinZoom
    else fitted
  }

  /** zoom_to_rect's rule is the clamp to the zoom limits. */
  lemma ZoomToRectIsClamp(fitted: real)
    ensures ZoomToRectScale(fitted) == Clamp(fitted, MinZoom, MaxZoom)
  {
  }

  /** The scale fit_in_view applies: the smaller viewport-to-padded-items ratio, never
      above 1. The padded rectangle is at least 100 on each side, so both divisions are
      defined; there is no lower limit. */
  function FitScale(itemsWidth: real, itemsHeight: real, viewWidth: real, viewHeight: real): (r: real)
    requires itemsWidth >= 0.0 && itemsHeight >= 0.0
    ensures r <= 1.0
    ensures viewWidth >= 0.0 && viewHeight >= 0.0 ==> r >= 0.0
    ensures viewWidth > 0.0 && viewHeight > 0.0 ==> r > 0.0
  {
    var paddedWidth := itemsWidth + 2.0 * FitPadding;
    var paddedHeight := itemsHeight + 2.0 * FitPadding;
    var s := Min(viewWidth / paddedWidth, viewHeight / paddedHeight);
    if s > 1.0 then 1.0 else s
  }

  /** At the fitted scale the padded items fit in the viewport, and unless the cap of 1
      applies they fill it in one direction. */
  lemma FitScaleFits(itemsWidth: real, itemsHeight: real, viewWidth: real, viewHeight: real)
    requires itemsWidth >= 0.0 && itemsHeight >= 0.0
    ensures var r := FitScale(itemsWidth, itemsHeight, viewWidth, viewHeight);
            r * (itemsWidth + 2.0 * FitPadding) <= viewWidth && r * (itemsHeight + 2.0 * FitPadding) <= viewHeight
    ensures var r := FitScale(itemsWidth, itemsHeight, viewWidth, viewHeight);
            r < 1.0 ==> r * (itemsWidth + 2.0 * FitPadding) == viewWidth || r * (itemsHeight + 2.0 * FitPadding) == viewHeight
  {
    var pw, ph := itemsWidth + 2.0 * FitPadding, itemsHeight + 2.0 * FitPadding;
    var wr, hr := viewWidth / pw, viewHeight / ph;
    var r := FitScale(itemsWidth, itemsHeight, viewWidth, viewHeight);
    assert wr * pw == viewWidth && hr * ph == viewHeight;
    assert r <= wr && r <= hr;
    MulLe(pw, r, wr);
    MulLe(ph, r, hr);
  }

  /** The circumference that gives every node its width plus the spacing. */
  function RequiredCircumference(numFiles: nat, nodeWidth: real): real
  {
    numFiles as real * (nodeWidth + NodeSpacing)
  }

  /** calculate_radius with `pi` for the circle constant. */
  function CalculateRadius(numFiles: nat, nodeWidth: real, pi: real): (r: real)
    requires pi > 0.0
    ensures r >= MinimumRadius
  {
    Max(MinimumRadius, RequiredCircumference(numFiles, nodeWidth) / (2.0 * pi))
  }

  /** More files never give a smaller circle. */
  lemma RadiusMonotone(m: nat, n: nat, nodeWidth: real, pi: real)
    requires pi > 0.0 && m <= n && nodeWidth >= 0.0
    ensures CalculateRadius(m, nodeWidth, pi) <= CalculateRadius(n, nodeWidth, pi)
  {
    MulRightLe(nodeWidth + NodeSpacing, m as real, n as real);
    MaxOfQuotientLe(MinimumRadius, RequiredCircumference(m, nodeWidth), RequiredCircumference(n, nodeWidth), 2.0 * pi);
  }

  /** Multiplying both sides of `x <= y` on the right by a non-negative factor keeps the order. */
  lemma MulRightLe(w: real, x: real, y: real)
    requires w >= 0.0 && x <= y
    ensures x * w <= y * w
  {
    MulLe(w, x, y);
  }

  /** `max(lo, a / d)` grows with `a` for a positive divisor. */
  lemma MaxOfQuotientLe(lo: real, a: real, b: real, d: real)
    requires d > 0.0 && a <= b
    ensures Max(lo, a / d) <= Max(lo, b / d)
  {
    DivLe(a, b, d);
  }

  /** The circle's circumference leaves each node its width plus the spacing. */
  lemma RadiusLeavesRoom(numFiles: nat, nodeWidth: real, pi: real)
    requires pi > 0.0
    ensures 2.0 * pi * CalculateRadius(numFiles, nodeWidth, pi) >= numFiles as real * (nodeWidth + NodeSpacing)
  {
    var c := numFiles as real * (nodeWidth + NodeSpacing);
    var r := CalculateRadius(numFiles, nodeWidth, pi);
    assert r >= c / (2.0 * pi);
    MulLe(2.0 * pi, c / (2.0 * pi), r);
  }

  /** What explain_next_node does to the session of the node under the cursor: a
      click, unless its explanation is already shown. */
  function ExplainSession(s: Session, markdown: string -> string): (r: Session)
    ensures s.showing ==> r == s
    ensures !s.showing ==> r == Clicked(s, markdown)
  {
    if s.showing then s else Clicked(s, markdown)
  }

  /** Explaining a node keeps the session invariant. A node that is idle and not
      showing is left showing its explanation or waiting for a new one; a node whose
      stream is still running is stopped instead. */
  lemma ExplainSessionCases(s: Session, markdown: string -> string)
    requires SessionInvariant(s)
    ensures SessionInvariant(ExplainSession(s, markdown))
    ensures !s.showing && !s.running ==>
              var r := ExplainSession(s, markdown);
              r.pane == ExplanationPane && (r.showing || (r.running && r.acc == ""))
    ensures s.running ==> ExplainSession(s, markdown) == Stopped(s, markdown)
  {
    TransitionsKeepInvariant(s, "", markdown);
  }

  // ---------------------------------------------------------------------------
  // The view
  // ---------------------------------------------------------------------------

  /** ClusterDiagramWidget (main.py). The view scale stands for the transform's m11. */
  class ClusterDiagramWidget {
    var scale: real
    const nodes: seq<TextNodeItem>
    var currentExplanationIndex: nat
    var previousNode: TextNodeItem?

    /** The file nodes with their labels and expanders. */
    ghost function NodeObjects(): set<object>
    {
      (set n | n in nodes :: n as object) + (set n | n in nodes :: n.filenameLabel as object) +
      (set n | n in nodes :: n.expander as object)
    }

    ghost function Labels(): set<FilenameLabelWidget>
    {
      set n | n in nodes :: n.filenameLabel
    }

    ghost function Widgets(): set<ScrollableTextWidget>
    {
      set n | n in nodes :: n.textWidget
    }

    ghost predicate NodesValid()
      reads (set n | n in nodes :: n)`isExpanded
      reads Labels()`parentNode
      reads (set n | n in nodes :: n.expander)`parentNode, (set n | n in nodes :: n.expander)`isExpanded
    {
      forall n :: n in nodes ==> n.Valid()
    }

    /** The explanation session of every node. */
    ghost function Sessions(): map<TextNodeItem, Session>
      reads Labels()`isWorkerRunning, Labels()`isShowingExplanation, Labels()`accumulatedMarkdown,
            Labels()`explanationWorker, Labels()`buttonText, Labels()`buttonEnabled, Labels()`buttonVisible
      reads Widgets()`showingSecond, Widgets()`secondHtml
    {
      map n | n in nodes :: n.filenameLabel.SessionOf(n.textWidget)
    }

    /** Whether each node's label is highlighted as the one being explained. */
    ghost function Highlights(): map<TextNodeItem, bool>
      reads Labels()
    {
      map n | n in nodes :: n.filenameLabel.isCurrentlyExplaining
    }

    /** Every node has a text widget of its own. */
    ghost predicate DistinctWidgets()
    {
      forall m, n :: m in nodes && n in nodes && m != n ==> m.textWidget != n.textWidget
    }

    ghost predicate Valid()
      reads this, NodeObjects()
    {
      && scale > 0.0
      && currentExplanationIndex <= |nodes|
      && (previousNode != null ==> previousNode in nodes)
      && NodesValid()
      && DistinctWidgets()
    }

    /** A view over the given file nodes, fitted to the viewport by fit_in_view, before
        any explanation. The items' bounding size and the viewport size are parameters. */
    constructor (nodes: seq<TextNodeItem>, itemsWidth: real, itemsHeight: real, viewWidth: real, viewHeight: real)
      requires forall n :: n in nodes ==> n.Valid()
      requires forall m, n :: m in nodes && n in nodes && m != n ==> m.textWidget != n.textWidget
      requires itemsWidth >= 0.0 && itemsHeight >= 0.0 && viewWidth > 0.0 && viewHeight > 0.0
      ensures Valid()
      ensures this.nodes == nodes && scale == FitScale(itemsWidth, itemsHeight, viewWidth, viewHeight)
      ensures currentExplanationIndex == 0 && previousNode == null
    {
      this.nodes := nodes;
      scale := 1.0;
      currentExplanationIndex := 0;
      previousNode := null;
      new;
      FitInView(itemsWidth, itemsHeight, viewWidth, viewHeight);
    }

    /** scale_view: scale by `factor`, stopping exactly at the zoom limits. */
    method ScaleView(factor: real)
      requires scale > 0.0
      modifies this`scale
      ensures scale == Clamp(old(scale) * factor, MinZoom, MaxZoom)
    {
      var currentScale := scale;
      var newScale := currentScale * factor;
      var applied := factor;
      if newScale > MaxZoom {
        applied := MaxZoom / currentScale;
      } else if newScale < MinZoom {
        applied := MinZoom / currentScale;
      }
      assert applied == ScaleViewFactor(currentScale, factor);
      scale := scale * applied;
    }

    method ZoomIn()
      requires scale > 0.0
      modifies this`scale
      ensures scale == Zoomed(old(scale), true)
    {
      ScaleView(ZoomFactor);
    }

    method ZoomOut()
      requires scale > 0.0
      modifies this`scale
      ensures scale == Zoomed(old(scale), false)
    {
      ScaleView(1.0 / ZoomFactor);
    }

    /** zoom_to_rect, given the scale that fitting the selection produced. */
    method ZoomToRect(fitted: real)
      modifies this`scale
      ensures scale == ZoomToRectScale(fitted)
    {
      scale := fitted;
      if scale > MaxZoom {
        scale := MaxZoom;
      } else if scale < MinZoom {
        scale := MinZoom;
      }
    }

    /** fit_in_view, given the items' bounding size and the viewport size. */
    method FitInView(itemsWidth: real, itemsHeight: real, viewWidth: real, viewHeight: real)
      requires itemsWidth >= 0.0 && itemsHeight >= 0.0
      modifies this`scale
      ensures scale == FitScale(itemsWidth, itemsHeight, viewWidth, viewHeight)
    {
      var paddedWidth := itemsWidth + 2.0 * FitPadding;
      var paddedHeight := itemsHeight + 2.0 * FitPadding;
      var scaleFactor := Min(viewWidth / paddedWidth, viewHeight / paddedHeight);
      if scaleFactor > 1.0 {
        scaleFactor := 1.0;
      }
      scale := scaleFactor;
    }

    /** clear_previous_highlight. */
    method ClearPreviousHighlight()
      requires previousNode != null ==> previousNode in nodes
      requires NodesValid()
      modifies (if previousNode != null then {previousNode.filenameLabel} else {})`isCurrentlyExplaining
      ensures NodesValid()
      ensures previousNode != null ==> !previousNode.filenameLabel.isCurrentlyExplaining
      ensures Sessions() == old(Sessions())
      ensures Highlights() == if previousNode != null then old(Highlights())[previousNode := false] else old(Highlights())
    {
      if previousNode != null {
        previousNode.filenameLabel.SetCurrentlyExplaining(false);
      }
    }

    /** The part of explain_next_node that highlights a node and opens its
        explanation unless it is already shown. */
    method ExplainNode(node: TextNodeItem)
      requires node in nodes && NodesValid() && DistinctWidgets()
      modifies node, node.filenameLabel, node.expander, node.textWidget
      modifies if node.filenameLabel.explanationWorker != null then {node.filenameLabel.explanationWorker} else {}
      ensures NodesValid()
      ensures !old(node.filenameLabel.isShowingExplanation) ==> node.isExpanded
      ensures old(node.filenameLabel.isShowingExplanation) ==> node.isExpanded == old(node.isExpanded)
      ensures Sessions() == old(Sessions())[node := ExplainSession(old(Sessions())[node], node.filenameLabel.markdown)]
      ensures Highlights() == old(Highlights())[node := true]
    {
      var nodeLabel := node.filenameLabel;
      HighlightNode(node);
      if !nodeLabel.isShowingExplanation {
        OpenNode(node);
      } else {
        ghost var sessions := Sessions();
        assert sessions[node := ExplainSession(sessions[node], nodeLabel.markdown)] == sessions;
      }
    }

    /** set_currently_explaining(True) on a node's label. */
    method HighlightNode(node: TextNodeItem)
      requires node in nodes && NodesValid()
      modifies node.filenameLabel`isCurrentlyExplaining
      ensures NodesValid()
      ensures Sessions() == old(Sessions())
      ensures Highlights() == old(Highlights())[node := true]
    {
      node.filenameLabel.SetCurrentlyExplaining(true);
      forall n | n in nodes && n != node
        ensures n.filenameLabel.isCurrentlyExplaining == old(n.filenameLabel.isCurrentlyExplaining)
      {
        assert n.filenameLabel.parentNode == n;
      }
    }

    /** The click explain_next_node makes on a node whose explanation is not shown. */
    method OpenNode(node: TextNodeItem)
      requires node in nodes && NodesValid() && DistinctWidgets()
      modifies node, node.filenameLabel, node.expander, node.textWidget
      modifies if node.filenameLabel.explanationWorker != null then {node.filenameLabel.explanationWorker} else {}
      ensures NodesValid() && node.isExpanded
      ensures Sessions() == old(Sessions())[node := Clicked(old(Sessions())[node], node.filenameLabel.markdown)]
      ensures Highlights() == old(Highlights())
    {
      var nodeLabel := node.filenameLabel;
      ghost var before := Sessions();
      assert before[node] == nodeLabel.CurrentSession();
      nodeLabel.OnExplainClicked();
      forall n | n in nodes
        ensures n.Valid()
        ensures n != node ==> unchanged(n.filenameLabel, n.textWidget)
      {
        if n != node {
          assert old(n.filenameLabel.parentNode) == n && old(n.expander.parentNode) == n;
          assert n.filenameLabel != nodeLabel && n.expander != node.expander;
          assert n.textWidget != node.textWidget;
        }
      }
      assert nodeLabel.SessionOf(node.textWidget) == Clicked(before[node], nodeLabel.markdown);
      SessionsFrame(node);
    }

    /** When only `node`'s label and text widget may have changed, every other node keeps
        its session and its highlight. */
    twostate lemma SessionsFrame(node: TextNodeItem)
      requires node in nodes
      requires forall n | n in nodes && n != node :: unchanged(n.filenameLabel, n.textWidget)
      requires node.filenameLabel.isCurrentlyExplaining == old(node.filenameLabel.isCurrentlyExplaining)
      ensures Sessions() == old(Sessions())[node := Sessions()[node]]
      ensures Highlights() == old(Highlights())
    {
    }

    /** explain_next_node: clear the previous highlight; then either highlight the node
        under the cursor, open its explanation unless it is already shown, make it the
        previous node and advance, or, at the end, clear the highlight again. Every
        other session and highlight is kept. */
    method ExplainNextNode() returns (advanced: bool)
      requires Valid()
      modifies this`currentExplanationIndex, this`previousNode
      modifies (if previousNode != null then {previousNode.filenameLabel} else {})`isCurrentlyExplaining
      modifies if currentExplanationIndex < |nodes| then
                 var n := nodes[currentExplanationIndex];
                 {n, n.filenameLabel, n.expander, n.textWidget} +
                 (if n.filenameLabel.explanationWorker != null then {n.filenameLabel.explanationWorker} else {})
               else {}
      ensures Valid()
      ensures advanced == (old(currentExplanationIndex) < |nodes|)
      ensures advanced ==>
                && currentExplanationIndex == old(currentExplanationIndex) + 1
                && previousNode == nodes[old(currentExplanationIndex)]
      ensures !advanced ==>
                && currentExplanationIndex == old(currentExplanationIndex)
                && previousNode == old(previousNode)
      ensures advanced ==>
                var node := nodes[old(currentExplanationIndex)];
                if old(node.filenameLabel.isShowingExplanation) then node.isExpanded == old(node.isExpanded)
                else node.isExpanded
      ensures Sessions() ==
                if advanced then
                  var node := nodes[old(currentExplanationIndex)];
                  old(Sessions())[node := ExplainSession(old(Sessions())[node], node.filenameLabel.markdown)]
                else old(Sessions())
      ensures var cleared := if old(previousNode) != null then old(Highlights())[old(previousNode) := false] else old(Highlights());
              Highlights() == if advanced then cleared[nodes[old(currentExplanationIndex)] := true] else cleared
    {
      ClearPreviousHighlight();
      ghost var cleared := Highlights();
      if currentExplanationIndex < |nodes| {
        ghost var node := nodes[currentExplanationIndex];
        assert node.filenameLabel.isShowingExplanation == old(node.filenameLabel.isShowingExplanation);
        assert node.isExpanded == old(node.isExpanded);
        ExplainAtCursor();
        advanced := true;
      } else {
        ClearPreviousHighlight();
        assert previousNode != null ==> cleared[previousNode := false] == cleared;
        advanced := false;
      }
    }

    /** The advancing branch of explain_next_node: the node under the cursor is
        explained and becomes the previous node, and the cursor moves on. */
    method ExplainAtCursor()
      requires Valid() && currentExplanationIndex < |nodes|
      modifies this`currentExplanationIndex, this`previousNode
      modifies nodes[currentExplanationIndex], nodes[currentExplanationIndex].filenameLabel,
               nodes[currentExplanationIndex].expander, nodes[currentExplanationIndex].textWidget
      modifies var w := nodes[currentExplanationIndex].filenameLabel.explanationWorker; if w != null then {w} else {}
      ensures Valid()
      ensures currentExplanationIndex == old(currentExplanationIndex) + 1
      ensures previousNode == nodes[old(currentExplanationIndex)]
      ensures var node := nodes[old(currentExplanationIndex)];
              if old(node.filenameLabel.isShowingExplanation) then node.isExpanded == old(node.isExpanded)
              else node.isExpanded
      ensures var node := nodes[old(currentExplanationIndex)];
              && Sessions() == old(Sessions())[node := ExplainSession(old(Sessions())[node], node.filenameLabel.markdown)]
              && Highlights() == old(Highlights())[node := true]
    {
      var node := nodes[currentExplanationIndex];
      assert node in nodes;
      MoveCursor(node);
      ExplainNode(node);
    }

    /** The cursor part of explain_next_node: `node` becomes the previous node and the
        cursor moves on; no node is touched. */
    method MoveCursor(node: TextNodeItem)
      modifies this`previousNode, this`currentExplanationIndex
      ensures previousNode == node && currentExplanationIndex == old(currentExplanationIndex) + 1
      ensures Sessions() == old(Sessions()) && Highlights() == old(Highlights())
    {
      previousNode, currentExplanationIndex := node, currentExplanationIndex + 1;
    }
  }
}
