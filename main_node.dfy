/** The file node of the static variant (main.py): TextNodeItem with its expand
    and collapse state, the ExpanderCircle that toggles it, the two-pane
    ScrollableTextWidget, and the FilenameLabelWidget that runs the explanation
    session of the node. */
module MainNode {
  import opened Basics
  import opened MainWorker

  /** Height of a collapsed node. */
  const CollapsedHeight: real := 40.0

  /** Height of the filename label. */
  const LabelHeight: real := 25.0

  /** Radius of the expander circle (its padding is 0). */
  const CircleRadius: real := 8.0

  /** Appended to the explanation when a running stream is stopped. */
  const InterruptionMarker: string := "\n\n*Explanation interrupted.*"

  /** An explanation containing this text is not reused. */
  const InterruptedPhrase: string := "Explanation interrupted"

  // ---------------------------------------------------------------------------
  // Geometry: boundingRect and update_circle_position
  // ---------------------------------------------------------------------------

  /** Where the expander sits: its circle overhangs the node's right edge by 5; it rises
      5 above the top when expanded and is centred vertically when collapsed. */
  function ExpanderPosition(bounds: Rect, expanded: bool): (p: Point)
    ensures p.x + 2.0 * CircleRadius == bounds.Right() + 5.0
    ensures expanded ==> p.y == bounds.top - 5.0
    ensures !expanded ==> p.y + CircleRadius == bounds.height / 2.0
  {
    Point(bounds.Right() - CircleRadius * 2.0 + 5.0,
          if expanded then bounds.top - 5.0 else (bounds.height - CircleRadius * 2.0) / 2.0)
  }

  /** Where the filename label sits: 5 above the node when expanded, centred on it when collapsed. */
  function LabelPosition(height: real, expanded: bool): (p: Point)
    ensures p.x == 0.0
    ensures expanded ==> p.y + LabelHeight == -5.0
    ensures !expanded ==> p.y + LabelHeight / 2.0 == height / 2.0
  {
    if expanded then Point(0.0, -LabelHeight - 5.0) else Point(0.0, (height - LabelHeight) / 2.0)
  }

  /** On a collapsed node the expander and the label share one vertical centre, and
      both fit inside the node once it is at least as high as the label. */
  lemma CollapsedControlsAligned(width: real, height: real)
    requires height >= LabelHeight
    ensures var e := ExpanderPosition(Rect(0.0, 0.0, width, height), false);
            var l := LabelPosition(height, false);
            && e.y + CircleRadius == l.y + LabelHeight / 2.0
            && 0.0 <= l.y && l.y + LabelHeight <= height
            && 0.0 <= e.y && e.y + 2.0 * CircleRadius <= height
  {
  }

  // ---------------------------------------------------------------------------
  // The explanation session of a label, as a value
  // ---------------------------------------------------------------------------

  /** Which pane of the node's text widget is on top. */
  datatype Pane = CodePane | ExplanationPane

  /** The explain button: its text, whether it is enabled, whether it is shown. */
  datatype Button = Button(text: string, enabled: bool, visible: bool)

  /** What the explanation session consists of: the label's flags and accumulated
      Markdown, whether it holds a worker, its button, and the node's text widget. */
  datatype Session = Session(running: bool, showing: bool, acc: string, hasWorker: bool,
                             button: Button, pane: Pane, html: string)

  const DoneButton: Button := Button("Code", true, true)
  const BusyButton: Button := Button("...", false, false)

  /** The state of a new label on a new node. */
  const InitialSession: Session := Session(false, false, "", false, Button("Explain", true, true), CodePane, "")

  /** handle_explanation_finished. */
  function Finished(s: Session): Session
  {
    s.(running := false, button := DoneButton, showing := true, hasWorker := false)
  }

  /** handle_chunk_received. */
  function ChunkReceived(s: Session, chunk: string, markdown: string -> string): Session
  {
    var acc := s.acc + chunk;
    s.(acc := acc, html := markdown(acc))
  }

  /** stop_explanation. */
  function Stopped(s: Session, markdown: string -> string): Session
  {
    if s.hasWorker && s.running then
      var f := Finished(s);
      var acc := f.acc + InterruptionMarker;
      f.(acc := acc, html := markdown(acc), button := f.button.(visible := true))
    else s
  }

  /** An accumulated explanation that may be shown again without a new request. */
  predicate Reusable(acc: string)
  {
    acc != "" && !IsSubstring(InterruptedPhrase, acc)
  }

  /** on_explain_clicked, for a label on a node. */
  function Clicked(s: Session, markdown: string -> string): Session
  {
    if s.showing then
      s.(pane := CodePane, button := s.button.(text := "Explain"), showing := false)
    else if s.running then
      Stopped(s, markdown)
    else if Reusable(s.acc) then
      s.(pane := ExplanationPane, html := markdown(s.acc), button := s.button.(text := "Code", enabled := true), showing := true)
    else
      s.(pane := ExplanationPane, html := "", running := true, button := BusyButton, acc := "", hasWorker := true)
  }

  /** A worker is held exactly while it runs; while it runs the explanation is not
      shown and the button is disabled and hidden. */
  predicate SessionInvariant(s: Session)
  {
    && (s.running <==> s.hasWorker)
    && (s.running ==> !s.showing && s.button == BusyButton)
  }

  /** Every transition keeps the session invariant. */
  lemma TransitionsKeepInvariant(s: Session, chunk: string, markdown: string -> string)
    requires SessionInvariant(s)
    ensures SessionInvariant(InitialSession)
    ensures SessionInvariant(Finished(s))
    ensures SessionInvariant(ChunkReceived(s, chunk, markdown))
    ensures SessionInvariant(Stopped(s, markdown))
    ensures SessionInvariant(Clicked(s, markdown))
  {
  }

  /** A chunk is appended to the accumulated Markdown exactly, and the explanation
      pane shows the rendering of the whole accumulation. */
  lemma ChunkAppends(s: Session, chunk: string, markdown: string -> string)
    ensures var r := ChunkReceived(s, chunk, markdown);
            && r.acc == s.acc + chunk && |r.acc| == |s.acc| + |chunk|
            && r.html == markdown(r.acc)
            && r.(acc := s.acc, html := s.html) == s
  {
  }

  /** The concatenation of a sequence of chunks. */
  function Concat(chunks: seq<string>): string
  {
    if chunks == [] then "" else Concat(chunks[..|chunks| - 1]) + chunks[|chunks| - 1]
  }

  /** handle_chunk_received for each chunk in turn. */
  function ReceiveAll(s: Session, chunks: seq<string>, markdown: string -> string): Session
  {
    if chunks == [] then s else ChunkReceived(ReceiveAll(s, chunks[..|chunks| - 1], markdown), chunks[|chunks| - 1], markdown)
  }

  /** Receiving a run of chunks appends their concatenation to the accumulation. */
  lemma {:induction false} ReceiveAllAppends(s: Session, chunks: seq<string>, markdown: string -> string)
    ensures ReceiveAll(s, chunks, markdown).acc == s.acc + Concat(chunks)
  {
    if chunks != [] {
      ReceiveAllAppends(s, chunks[..|chunks| - 1], markdown);
    }
  }

  /** A finish notification received twice has the effect of one. */
  lemma FinishedIdempotent(s: Session)
    ensures Finished(Finished(s)) == Finished(s)
  {
  }

  /** Stopping a running session appends exactly one interruption marker, shows the
      explanation, clears the worker and shows the button; otherwise it does nothing. */
  lemma StopEffect(s: Session, markdown: string -> string)
    ensures var r := Stopped(s, markdown);
            s.hasWorker && s.running ==>
              && r.acc == s.acc + InterruptionMarker
              && !r.running && r.showing && !r.hasWorker
              && r.html == markdown(r.acc)
              && r.button == DoneButton
              && r.pane == s.pane
    ensures !(s.hasWorker && s.running) ==> Stopped(s, markdown) == s
  {
  }

  /** The interruption marker contains the phrase that blocks reuse. */
  lemma MarkerBlocksReuse(acc: string)
    ensures IsSubstring(InterruptedPhrase, acc + InterruptionMarker)
    ensures !Reusable(acc + InterruptionMarker)
  {
    var m := InterruptionMarker;
    assert m == "\n\n*" + InterruptedPhrase + ".*";
    assert m[3..3 + |InterruptedPhrase|] == InterruptedPhrase;
    assert OccursAt(InterruptedPhrase, m, 3);
    SuffixIsSubstring(acc, m, InterruptedPhrase);
  }

  /** Chunks that still arrive after a stop are appended behind the marker, so the
      interrupted explanation stays blocked from reuse. */
  lemma LateChunksStayBlocked(s: Session, chunks: seq<string>, markdown: string -> string)
    requires s.hasWorker && s.running
    ensures !Reusable(ReceiveAll(Stopped(s, markdown), chunks, markdown).acc)
  {
    var stopped := Stopped(s, markdown);
    MarkerBlocksReuse(s.acc);
    ReceiveAllAppends(stopped, chunks, markdown);
    SubstringOfPrefix(InterruptedPhrase, stopped.acc, Concat(chunks));
  }

  /** The four cases of a click. */
  lemma ClickCases(s: Session, markdown: string -> string)
    ensures var r := Clicked(s, markdown);
            s.showing ==> r.pane == CodePane && !r.showing && r.button.text == "Explain"
                          && r.running == s.running && r.acc == s.acc && r.hasWorker == s.hasWorker
    ensures !s.showing && s.running ==> Clicked(s, markdown) == Stopped(s, markdown)
    ensures var r := Clicked(s, markdown);
            !s.showing && !s.running && Reusable(s.acc) ==>
              r.pane == ExplanationPane && r.html == markdown(s.acc) && r.showing && r.acc == s.acc
              && r.hasWorker == s.hasWorker && !r.running && r.button.enabled && r.button.text == "Code"
    ensures var r := Clicked(s, markdown);
            !s.showing && !s.running && !Reusable(s.acc) ==>
              r.pane == ExplanationPane && r.acc == "" && r.running && r.hasWorker && !r.showing
              && !r.button.enabled && !r.button.visible
  {
  }

  /** An interrupted explanation is never reused: after a stop, going back to the code
      and clicking again starts a fresh request. */
  lemma StopThenReopenRestarts(s: Session, markdown: string -> string)
    requires s.running && s.hasWorker
    ensures var r := Clicked(Clicked(Stopped(s, markdown), markdown), markdown);
            r.running && r.hasWorker && r.acc == "" && r.pane == ExplanationPane
  {
    MarkerBlocksReuse(s.acc);
  }

  /** A completed explanation is reused: after it finishes, going back to the code and
      clicking again shows the same text with no new request. */
  lemma FinishThenReopenReuses(s: Session, markdown: string -> string)
    requires Reusable(s.acc)
    ensures var r := Clicked(Clicked(Finished(s), markdown), markdown);
            !r.running && !r.hasWorker && r.showing && r.acc == s.acc && r.html == markdown(s.acc)
  {
  }

  // ---------------------------------------------------------------------------
  // The objects
  // ---------------------------------------------------------------------------

  /** ScrollableTextWidget: the highlighted code on the first pane, the rendered
      explanation on the second. */
  class ScrollableTextWidget {
    const filename: string
    const text: string
    var showingSecond: bool
    var secondHtml: string

    constructor (filename: string, text: string)
      ensures this.filename == filename && this.text == text
      ensures !showingSecond && secondHtml == ""
    {
      this.filename := filename;
      this.text := text;
      showingSecond := false;
      secondHtml := "";
    }

    /** switch_to_second_text_edit: set the explanation when given, then show it. */
    method SwitchToSecond(content: Option<string>)
      modifies this
      ensures showingSecond
      ensures secondHtml == if content.Some? then content.value else old(secondHtml)
    {
      if content.Some? {
        secondHtml := content.value;
      }
      showingSecond := true;
    }

    method SwitchToFirst()
      modifies this`showingSecond
      ensures !showingSecond
    {
      showingSecond := false;
    }
  }

  /** ExpanderCircle: the plus/minus button of a node. */
  class ExpanderCircle {
    var isExpanded: bool
    var pos: Point
    var parentNode: TextNodeItem?

    constructor ()
      ensures !isExpanded && parentNode == null && pos == Point(0.0, 0.0)
    {
      isExpanded := false;
      pos := Point(0.0, 0.0);
      parentNode := null;
    }

    method ToggleExpanded()
      modifies this`isExpanded
      ensures isExpanded == !old(isExpanded)
    {
      isExpanded := !isExpanded;
    }

    /** mousePressEvent: a left click toggles the circle and then its node, which
        leaves both flags equal and flipped. */
    method MousePress(leftButton: bool)
      requires parentNode != null ==> parentNode.Valid() && parentNode.expander == this
      modifies this`isExpanded
      modifies if parentNode != null then {parentNode, parentNode.filenameLabel} else {}
      ensures parentNode == old(parentNode)
      ensures parentNode != null ==> parentNode.Valid()
      ensures leftButton && parentNode != null ==>
                isExpanded == parentNode.isExpanded && parentNode.isExpanded == !old(parentNode.isExpanded)
      ensures !(leftButton && parentNode != null) ==> isExpanded == old(isExpanded)
      ensures !leftButton && parentNode != null ==> unchanged(parentNode, parentNode.filenameLabel)
    {
      if leftButton && parentNode != null {
        ToggleExpanded();
        parentNode.ToggleExpanded();
      }
    }
  }

  /** FilenameLabelWidget: the path above a node, with the explain button and the
      explanation session. */
  class FilenameLabelWidget {
    var text: string
    var pos: Point
    var parentNode: TextNodeItem?
    var isShowingExplanation: bool
    var isWorkerRunning: bool
    var isCurrentlyExplaining: bool
    var accumulatedMarkdown: string
    var explanationWorker: ExplanationWorker?
    var buttonText: string
    var buttonEnabled: bool
    var buttonVisible: bool
    /** The Markdown renderer, to HTML. */
    const markdown: string -> string

    constructor (markdown: string -> string)
      ensures this.markdown == markdown && parentNode == null
      ensures text == "" && pos == Point(0.0, 0.0) && !isCurrentlyExplaining
      ensures !isShowingExplanation && !isWorkerRunning && accumulatedMarkdown == "" && explanationWorker == null
      ensures buttonText == "Explain" && buttonEnabled && buttonVisible
    {
      this.markdown := markdown;
      text := "";
      pos := Point(0.0, 0.0);
      parentNode := null;
      isShowingExplanation, isWorkerRunning, isCurrentlyExplaining := false, false, false;
      accumulatedMarkdown := "";
      explanationWorker := null;
      buttonText, buttonEnabled, buttonVisible := "Explain", true, true;
    }

    /** The session of this label together with the text widget `w` of its node. */
    function SessionOf(w: ScrollableTextWidget): Session
      reads this`isWorkerRunning, this`isShowingExplanation, this`accumulatedMarkdown,
            this`explanationWorker, this`buttonText, this`buttonEnabled, this`buttonVisible
      reads w`showingSecond, w`secondHtml
    {
      Session(isWorkerRunning, isShowingExplanation, accumulatedMarkdown, explanationWorker != null,
              Button(buttonText, buttonEnabled, buttonVisible),
              if w.showingSecond then ExplanationPane else CodePane, w.secondHtml)
    }

    /** The session of a label that sits on a node. */
    function CurrentSession(): Session
      requires parentNode != null
      reads this`parentNode, this`isWorkerRunning, this`isShowingExplanation, this`accumulatedMarkdown,
            this`explanationWorker, this`buttonText, this`buttonEnabled, this`buttonVisible
      reads parentNode.textWidget`showingSecond, parentNode.textWidget`secondHtml
    {
      SessionOf(parentNode.textWidget)
    }

    method SetText(t: string)
      modifies this`text
      ensures text == t
    {
      text := t;
    }

    method SetCurrentlyExplaining(explaining: bool)
      modifies this`isCurrentlyExplaining
      ensures isCurrentlyExplaining == explaining
    {
      isCurrentlyExplaining := explaining;
    }

    /** handle_explanation_finished. */
    method HandleExplanationFinished()
      modifies this`isWorkerRunning, this`buttonText, this`buttonEnabled, this`buttonVisible,
               this`isShowingExplanation, this`explanationWorker
      ensures parentNode != null ==> CurrentSession() == Finished(old(CurrentSession()))
      ensures !isWorkerRunning && isShowingExplanation && explanationWorker == null
      ensures Button(buttonText, buttonEnabled, buttonVisible) == DoneButton
    {
      isWorkerRunning := false;
      buttonVisible := true;
      buttonText := "Code";
      buttonEnabled := true;
      isShowingExplanation := true;
      if explanationWorker != null {
        explanationWorker := null;
      }
    }

    /** handle_chunk_received: append the chunk and render the whole explanation. */
    method HandleChunkReceived(chunk: string)
      modifies this`accumulatedMarkdown
      modifies if parentNode != null then {parentNode.textWidget} else {}
      ensures parentNode != null ==> CurrentSession() == ChunkReceived(old(CurrentSession()), chunk, markdown)
      ensures parentNode != null ==> parentNode.textWidget.showingSecond == old(parentNode.textWidget.showingSecond)
      ensures parentNode == null ==> accumulatedMarkdown == old(accumulatedMarkdown)
    {
      var node := parentNode;
      if node != null {
        accumulatedMarkdown := accumulatedMarkdown + chunk;
        node.textWidget.secondHtml := markdown(accumulatedMarkdown);
      }
    }

    /** stop_explanation: stop a running worker, finish, and mark the explanation interrupted. */
    method StopExplanation()
      requires parentNode != null
      modifies this, parentNode.textWidget
      modifies if explanationWorker != null then {explanationWorker} else {}
      ensures parentNode == old(parentNode)
      ensures CurrentSession() == Stopped(old(CurrentSession()), markdown)
      ensures parentNode.textWidget.showingSecond == old(parentNode.textWidget.showingSecond)
      ensures text == old(text) && pos == old(pos) && isCurrentlyExplaining == old(isCurrentlyExplaining)
      ensures old(explanationWorker) != null && old(isWorkerRunning) ==> !old(explanationWorker).isRunning
    {
      var worker := explanationWorker;
      if worker != null && isWorkerRunning {
        worker.Stop();
        HandleExplanationFinished();
        accumulatedMarkdown := accumulatedMarkdown + InterruptionMarker;
        parentNode.textWidget.secondHtml := markdown(accumulatedMarkdown);
        buttonVisible := true;
      }
    }

    /** on_explain_clicked: expand the node, then flip back to the code, stop a running
        stream, reuse a complete explanation, or start a new worker on the node's code. */
    method OnExplainClicked()
      requires parentNode != null ==> parentNode.Valid() && parentNode.filenameLabel == this
      modifies this
      modifies if parentNode != null then {parentNode, parentNode.expander, parentNode.textWidget} else {}
      modifies if explanationWorker != null then {explanationWorker} else {}
      ensures parentNode == old(parentNode)
      ensures parentNode != null ==>
                && parentNode.Valid() && parentNode.isExpanded
                && CurrentSession() == Clicked(old(CurrentSession()), markdown)
      ensures parentNode != null && CurrentSession().running && !old(isWorkerRunning) ==>
                explanationWorker != null && fresh(explanationWorker)
                && explanationWorker.code == parentNode.content && explanationWorker.isRunning
      ensures parentNode == null ==> unchanged(this)
      ensures isCurrentlyExplaining == old(isCurrentlyExplaining)
    {
      var node := parentNode;
      if node != null {
        if !node.isExpanded {
          node.ToggleExpanded();
        }
        if !isShowingExplanation {
          if isWorkerRunning {
            StopExplanation();
            return;
          }
          ShowExplanation();
        } else {
          ShowCode();
        }
      }
    }

    /** The not-running branch of on_explain_clicked: show the explanation pane, then
        reuse a complete explanation or start a new worker on the node's code. */
    method ShowExplanation()
      requires parentNode != null && !isShowingExplanation && !isWorkerRunning
      modifies this`isWorkerRunning, this`buttonText, this`buttonEnabled, this`buttonVisible,
               this`accumulatedMarkdown, this`explanationWorker, this`isShowingExplanation, parentNode.textWidget
      ensures CurrentSession() == Clicked(old(CurrentSession()), markdown)
      ensures CurrentSession().running ==>
                explanationWorker != null && fresh(explanationWorker)
                && explanationWorker.code == parentNode.content && explanationWorker.isRunning
    {
      var node := parentNode;
      node.textWidget.SwitchToSecond(Some(""));
      if accumulatedMarkdown != "" && !IsSubstring(InterruptedPhrase, accumulatedMarkdown) {
        node.textWidget.secondHtml := markdown(accumulatedMarkdown);
        buttonText := "Code";
        buttonEnabled := true;
        isShowingExplanation := true;
      } else {
        isWorkerRunning := true;
        buttonEnabled := false;
        buttonText := "...";
        accumulatedMarkdown := "";
        buttonVisible := false;
        explanationWorker := new ExplanationWorker(node.content);
      }
    }

    /** The showing branch of on_explain_clicked: flip back to the code. */
    method ShowCode()
      requires parentNode != null && isShowingExplanation
      modifies this`buttonText, this`isShowingExplanation, parentNode.textWidget`showingSecond
      ensures CurrentSession() == Clicked(old(CurrentSession()), markdown)
    {
      parentNode.textWidget.SwitchToFirst();
      buttonText := "Explain";
      isShowingExplanation := false;
    }
  }

  /** TextNodeItem (main.py): a file node that expands from a 40-pixel bar to its full size. */
  class TextNodeItem {
    const filename: string
    const content: string
    /** The absolute form of the file name, shown by the label. */
    const displayPath: string
    const expandedWidth: real
    const expandedHeight: real
    var isExpanded: bool
    var currentHeight: real
    var proxyVisible: bool
    /** Start and end values of the height animation last set up. */
    var animationStart: real
    var animationEnd: real
    const textWidget: ScrollableTextWidget
    const filenameLabel: FilenameLabelWidget
    const expander: ExpanderCircle

    /** The label and the expander belong to this node. */
    ghost predicate Linked()
      reads filenameLabel`parentNode, expander`parentNode
    {
      filenameLabel.parentNode == this && expander.parentNode == this
    }

    ghost predicate Valid()
      reads this`isExpanded, filenameLabel`parentNode, expander`parentNode, expander`isExpanded
    {
      Linked() && expander.isExpanded == isExpanded
    }

    /** A new node is collapsed, with its label showing the path. */
    constructor (filename: string, content: string, displayPath: string, width: real, height: real,
                 markdown: string -> string)
      ensures Valid()
      ensures fresh(textWidget) && fresh(filenameLabel) && fresh(expander)
      ensures this.filename == filename && this.content == content && this.displayPath == displayPath
      ensures expandedWidth == width && expandedHeight == height
      ensures !isExpanded && currentHeight == CollapsedHeight && !proxyVisible
      ensures filenameLabel.text == displayPath && filenameLabel.markdown == markdown
      ensures filenameLabel.CurrentSession() == InitialSession
      ensures filenameLabel.pos == LabelPosition(CollapsedHeight, false)
      ensures expander.pos == ExpanderPosition(BoundingRect(), false)
    {
      this.filename := filename;
      this.content := content;
      this.displayPath := displayPath;
      expandedWidth, expandedHeight := width, height;
      isExpanded := false;
      currentHeight := CollapsedHeight;
      proxyVisible := false;
      animationStart, animationEnd := CollapsedHeight, CollapsedHeight;
      textWidget := new ScrollableTextWidget(filename, content);
      filenameLabel := new FilenameLabelWidget(markdown);
      expander := new ExpanderCircle();
      new;
      filenameLabel.parentNode := this;
      filenameLabel.SetText(displayPath);
      expander.parentNode := this;
      UpdateCirclePosition();
    }

    function BoundingRect(): (r: Rect)
      reads this
      ensures r.left == 0.0 && r.top == 0.0
      ensures r.width == expandedWidth && r.height == currentHeight
    {
      Rect(0.0, 0.0, expandedWidth, currentHeight)
    }

    /** update_circle_position. */
    method UpdateCirclePosition()
      modifies expander`pos, filenameLabel`pos
      ensures expander.pos == ExpanderPosition(BoundingRect(), isExpanded)
      ensures filenameLabel.pos == LabelPosition(currentHeight, isExpanded)
    {
      expander.pos := ExpanderPosition(BoundingRect(), isExpanded);
      if isExpanded {
        filenameLabel.pos := Point(0.0, -LabelHeight - 5.0);
      } else {
        filenameLabel.pos := Point(0.0, (BoundingRect().height - LabelHeight) / 2.0);
      }
    }

    /** set_current_height: one frame of the height animation. */
    method SetCurrentHeight(height: real)
      modifies this`currentHeight, expander`pos, filenameLabel`pos
      ensures currentHeight == height
      ensures BoundingRect() == Rect(0.0, 0.0, expandedWidth, height)
      ensures expander.pos == ExpanderPosition(BoundingRect(), isExpanded)
      ensures filenameLabel.pos == LabelPosition(height, isExpanded)
    {
      currentHeight := height;
      UpdateCirclePosition();
    }

    /** set_expanded: nothing when already in that state; otherwise set the node, the
        expander and the text pane to it, lift the label above the node and animate
        the height toward the full height or the collapsed one. */
    method SetExpanded(expanded: bool)
      requires Linked()
      modifies this`isExpanded, this`proxyVisible, this`animationStart, this`animationEnd,
               expander`isExpanded, filenameLabel`text, filenameLabel`pos
      ensures Linked()
      ensures old(isExpanded) == expanded ==>
                && isExpanded == expanded && expander.isExpanded == old(expander.isExpanded)
                && proxyVisible == old(proxyVisible) && filenameLabel.text == old(filenameLabel.text) && filenameLabel.pos == old(filenameLabel.pos)
                && animationStart == old(animationStart) && animationEnd == old(animationEnd)
      ensures old(isExpanded) != expanded ==>
                && isExpanded == expanded && expander.isExpanded == expanded && proxyVisible == expanded
                && filenameLabel.text == displayPath && filenameLabel.pos == LabelPosition(currentHeight, true)
                && animationStart == currentHeight
                && animationEnd == (if expanded then expandedHeight else CollapsedHeight)
    {
      if isExpanded == expanded {
        return;
      }
      isExpanded := expanded;
      expander.isExpanded := expanded;
      proxyVisible := expanded;
      filenameLabel.SetText(displayPath);
      filenameLabel.pos := Point(0.0, -LabelHeight - 5.0);
      var targetHeight := if expanded then expandedHeight else CollapsedHeight;
      animationStart := currentHeight;
      animationEnd := targetHeight;
    }

    method ToggleExpanded()
      requires Linked()
      modifies this`isExpanded, this`proxyVisible, this`animationStart, this`animationEnd,
               expander`isExpanded, filenameLabel`text, filenameLabel`pos
      ensures Linked()
      ensures isExpanded == !old(isExpanded) && expander.isExpanded == isExpanded
      ensures animationEnd == (if isExpanded then expandedHeight else CollapsedHeight)
    {
      SetExpanded(!isExpanded);
    }
  }
}
