/** ClusterDiagramWidget of the live variant (layout.py): the topic/detail model
    fed by ingestion events, the radial placement computed from it, and the
    zoom state of the view. */
module LayoutDiagram {
  import opened Basics
  import opened LayoutIngestion
  import opened LayoutNode

  /** The topic that collects details whose parent is the central topic. */
  const RootFilesTopic: string := "Root Files"

  /** Prefix of the response stored for a detail that carries file text. */
  const FileContentsPrefix: string := "File contents:\n\n"

  /** Distance from the scene centre to every topic node. */
  const DistanceFromCenter: real := 500.0

  /** Distance from a topic to its first detail. */
  const DetailDistance: real := 300.0

  /** Width of a detail node; consecutive details are 1.5 widths further out. */
  const DetailWidth: real := 500.0

  /** The angular span over which the details of one topic are spread, in degrees. */
  const DetailAngleSpan: real := 120.0

  const MinScale: real := 0.1
  const MaxScale: real := 3.0
  const ZoomFactor: real := 1.15

  /** Margin kept free, in viewport pixels, when fitting the scene. */
  const FitMargin: real := 100.0

  // ---------------------------------------------------------------------------
  // The diagram model: handle_new_data
  // ---------------------------------------------------------------------------

  /** The insertion-ordered dict `subtopics` as its key order plus a map, and `api_responses`. */
  datatype DiagramState = DiagramState(order: seq<string>, details: map<string, seq<string>>, responses: map<string, string>)

  predicate Distinct(s: seq<string>)
  {
    forall i, j :: 0 <= i < j < |s| ==> s[i] != s[j]
  }

  /** The key order lists every topic of the map exactly once. */
  ghost predicate WellFormed(s: DiagramState)
  {
    && (forall k :: k in s.details <==> k in s.order)
    && Distinct(s.order)
  }

  const EmptyDiagram: DiagramState := DiagramState([], map[], map[])

  /** The response recorded for an accepted detail: file text wins over the summary;
      with neither, the entry is left as it was. */
  function RecordResponse(responses: map<string, string>, e: Event): map<string, string>
  {
    if Truthy(e.fileText) then responses[e.content := FileContentsPrefix + e.fileText.value]
    else if Truthy(e.summary) then responses[e.content := e.summary.value]
    else responses
  }

  /** Append the event's detail to `topic` and record its response. */
  function AppendDetail(s: DiagramState, topic: string, e: Event): DiagramState
    requires topic in s.details
  {
    DiagramState(s.order, s.details[topic := s.details[topic] + [e.content]], RecordResponse(s.responses, e))
  }

  /** Add an empty topic unless it already exists. */
  function AddTopic(s: DiagramState, topic: string): (r: DiagramState)
    ensures topic in r.details
  {
    if topic in s.details then s
    else DiagramState(s.order + [topic], s.details[topic := []], s.responses)
  }

  /** handle_new_data on the model. */
  function ApplyEvent(s: DiagramState, e: Event): DiagramState
  {
    match e.kind
    case Subtopic => AddTopic(s, e.content)
    case Detail =>
      if e.parent in s.details then AppendDetail(s, e.parent, e)
      else if e.parent == MainTopic then AppendDetail(AddTopic(s, RootFilesTopic), RootFilesTopic, e)
      else s
  }

  /** A subtopic event creates an empty list only for a new name and never resets an existing one. */
  lemma SubtopicEvent(s: DiagramState, e: Event)
    requires e.kind == Subtopic
    ensures e.content in s.details ==> ApplyEvent(s, e) == s
    ensures e.content !in s.details ==>
              var r := ApplyEvent(s, e);
              && r.order == s.order + [e.content] && r.details == s.details[e.content := []]
              && r.responses == s.responses
  {
  }

  /** A detail is appended at the end of its known topic's list; the order and every
      other topic are unchanged. */
  lemma DetailOfKnownTopic(s: DiagramState, e: Event)
    requires e.kind == Detail && e.parent in s.details
    ensures var r := ApplyEvent(s, e);
            && r.order == s.order
            && r.details.Keys == s.details.Keys
            && r.details[e.parent] == s.details[e.parent] + [e.content]
            && (forall k :: k in s.details && k != e.parent ==> r.details[k] == s.details[k])
  {
  }

  /** A detail of the central topic goes to "Root Files", created at the end of the order when missing. */
  lemma DetailOfCentralTopic(s: DiagramState, e: Event)
    requires e.kind == Detail && e.parent !in s.details && e.parent == MainTopic
    ensures var r := ApplyEvent(s, e);
            && RootFilesTopic in r.details
            && r.details[RootFilesTopic] == (if RootFilesTopic in s.details then s.details[RootFilesTopic] else []) + [e.content]
            && r.order == (if RootFilesTopic in s.details then s.order else s.order + [RootFilesTopic])
            && (forall k :: k in s.details && k != RootFilesTopic ==> r.details[k] == s.details[k])
  {
  }

  /** A detail with any other parent changes nothing. */
  lemma DetailOfUnknownTopic(s: DiagramState, e: Event)
    requires e.kind == Detail && e.parent !in s.details && e.parent != MainTopic
    ensures ApplyEvent(s, e) == s
  {
  }

  /** The detail is accepted: its parent is a known topic or the central topic. */
  predicate Accepted(s: DiagramState, e: Event)
  {
    e.kind == Detail && (e.parent in s.details || e.parent == MainTopic)
  }

  /** For an accepted detail, a non-empty file text sets the response to the file-contents
      text, overriding the summary; otherwise a non-empty summary sets it; otherwise the
      entry is untouched. Other entries never change, and nothing else changes responses. */
  lemma ResponseOfEvent(s: DiagramState, e: Event)
    ensures var r := ApplyEvent(s, e);
            && (forall k :: k in s.responses && k != e.content ==> k in r.responses && r.responses[k] == s.responses[k])
            && (!Accepted(s, e) ==> r.responses == s.responses)
            && (Accepted(s, e) && Truthy(e.fileText) ==> r.responses == s.responses[e.content := FileContentsPrefix + e.fileText.value])
            && (Accepted(s, e) && !Truthy(e.fileText) && Truthy(e.summary) ==> r.responses == s.responses[e.content := e.summary.value])
            && (Accepted(s, e) && !Truthy(e.fileText) && !Truthy(e.summary) ==> r.responses == s.responses)
  {
  }

  /** Every event keeps the key order and the topic map in step. */
  lemma ApplyEventWellFormed(s: DiagramState, e: Event)
    requires WellFormed(s)
    ensures WellFormed(ApplyEvent(s, e))
  {
    AddTopicWellFormed(s, e.content);
    AddTopicWellFormed(s, RootFilesTopic);
  }

  lemma AddTopicWellFormed(s: DiagramState, topic: string)
    requires WellFormed(s)
    ensures WellFormed(AddTopic(s, topic))
  {
    if topic !in s.details {
      var o := s.order + [topic];
      forall i, j | 0 <= i < j < |o|
        ensures o[i] != o[j]
      {
        if j == |s.order| {
          assert o[i] == s.order[i];
        }
      }
    }
  }

  /** The model after a sequence of events, applied in order. */
  function ApplyEvents(s: DiagramState, es: seq<Event>): DiagramState
  {
    if es == [] then s else ApplyEvent(ApplyEvents(s, es[..|es| - 1]), es[|es| - 1])
  }

  /** Over any sequence of events, topics are never removed or reordered and a
      topic's detail list only grows at its end. */
  lemma {:induction false} TopicsOnlyGrow(s: DiagramState, es: seq<Event>)
    ensures var r := ApplyEvents(s, es);
            && s.order <= r.order
            && (forall k :: k in s.details ==> k in r.details && s.details[k] <= r.details[k])
  {
    if es != [] {
      var m := ApplyEvents(s, es[..|es| - 1]);
      TopicsOnlyGrow(s, es[..|es| - 1]);
      var r := ApplyEvent(m, es[|es| - 1]);
      assert m.order <= r.order;
      assert forall k :: k in m.details ==> k in r.details && m.details[k] <= r.details[k];
    }
  }

  // ---------------------------------------------------------------------------
  // Radial placement: update_scene
  // ---------------------------------------------------------------------------

  /** The angle of topic i of n, in degrees: start at 90 and step by -360/n. */
  function TopicAngle(i: nat, n: nat): real
    requires n > 0
  {
    90.0 + i as real * (-360.0 / n as real)
  }

  /** The angular step between the m details of one topic, in degrees. */
  function DetailStep(m: nat): real
  {
    if m > 1 then -DetailAngleSpan / (m - 1) as real else 0.0
  }

  /** The angle of detail j of m around a topic at `topicAngle`, in degrees. */
  function DetailAngle(topicAngle: real, j: nat, m: nat): real
  {
    topicAngle + DetailAngleSpan / 2.0 + j as real * DetailStep(m)
  }

  /** The distance of detail j from its topic. */
  function DetailRadius(j: nat): real
  {
    DetailDistance + j as real * (DetailWidth * 1.5)
  }

  /** Consecutive topics are exactly 360/n degrees apart, the first at 90 degrees,
      and all n lie within one turn below 90. */
  lemma TopicAnglesEvenlySpaced(i: nat, n: nat)
    requires n > 0
    ensures TopicAngle(0, n) == 90.0
    ensures TopicAngle(i, n) - TopicAngle(i + 1, n) == 360.0 / n as real
    ensures i < n ==> -270.0 < TopicAngle(i, n) <= 90.0
  {
    var step := -360.0 / n as real;
    assert TopicAngle(i + 1, n) == TopicAngle(i, n) + step by {
      assert (i + 1) as real * step == i as real * step + step;
    }
    if i < n {
      TopicAngleWithinTurn(i, n);
    }
  }

  /** Each of the n topics lies within one turn below 90 degrees. */
  lemma TopicAngleWithinTurn(i: nat, n: nat)
    requires i < n
    ensures -270.0 < TopicAngle(i, n) <= 90.0
  {
    var q := 360.0 / n as real;
    assert q > 0.0;
    assert TopicAngle(i, n) == 90.0 - i as real * q;
    MulLe(q, 0.0, i as real);
    MulLt(q, i as real, n as real);
    assert q * n as real == 360.0;
  }

  /** One detail sits at the topic angle + 60; m > 1 details run in equal steps from
      topic + 60 down to topic - 60. */
  lemma DetailAngles(topicAngle: real, j: nat, m: nat)
    ensures m == 1 ==> DetailAngle(topicAngle, 0, m) == topicAngle + 60.0
    ensures m > 1 ==> DetailAngle(topicAngle, 0, m) == topicAngle + 60.0
    ensures m > 1 ==> DetailAngle(topicAngle, m - 1, m) == topicAngle - 60.0
    ensures m > 1 && j + 1 < m ==>
              DetailAngle(topicAngle, j + 1, m) - DetailAngle(topicAngle, j, m) == -120.0 / (m - 1) as real
  {
  }

  /** Detail radii start at 300 and strictly increase. */
  lemma DetailRadiiIncrease(j: nat, k: nat)
    ensures DetailRadius(0) == 300.0
    ensures j < k ==> DetailRadius(j) < DetailRadius(k)
  {
  }

  /** The text of a detail node: the name, then the stored response on the next line. */
  function DetailText(detail: string, responses: map<string, string>): string
  {
    if detail in responses then detail + "\n" + responses[detail] else detail
  }

  /** A detail node, in polar coordinates around its topic node. */
  datatype DetailPlacement = DetailPlacement(text: string, angle: real, radius: real)

  /** A topic node at `angle` and DistanceFromCenter around the scene centre, with its details. */
  datatype TopicPlacement = TopicPlacement(name: string, angle: real, details: seq<DetailPlacement>)

  /** The nodes of the scene: the central topic and the placed topics. */
  datatype Scene = Scene(central: string, topics: seq<TopicPlacement>)

  function DetailLayout(topicAngle: real, details: seq<string>, j: nat, responses: map<string, string>): DetailPlacement
    requires j < |details|
  {
    DetailPlacement(DetailText(details[j], responses), DetailAngle(topicAngle, j, |details|), DetailRadius(j))
  }

  function TopicLayout(s: DiagramState, i: nat): TopicPlacement
    requires i < |s.order| && s.order[i] in s.details
  {
    var a := TopicAngle(i, |s.order|);
    TopicPlacement(s.order[i], a, DetailLayouts(a, s.details[s.order[i]], s.responses))
  }

  function DetailLayouts(topicAngle: real, details: seq<string>, responses: map<string, string>): (r: seq<DetailPlacement>)
    ensures |r| == |details|
  {
    seq(|details|, j requires 0 <= j < |details| => DetailLayout(topicAngle, details, j, responses))
  }

  /** The scene update_scene builds from the model. */
  function SceneLayout(s: DiagramState): (scene: Scene)
    requires WellFormed(s)
    ensures scene.central == MainTopic
    ensures |scene.topics| == |s.order|
    ensures forall i :: 0 <= i < |s.order| ==>
              scene.topics[i].name == s.order[i] && |scene.topics[i].details| == |s.details[s.order[i]]|
  {
    Scene(MainTopic, seq(|s.order|, i requires 0 <= i < |s.order| && s.order[i] in s.details => TopicLayout(s, i)))
  }

  /** A sequence holding TopicLayout at every index is the scene's topic sequence. */
  lemma SceneLayoutFromTopics(s: DiagramState, placed: seq<TopicPlacement>)
    requires WellFormed(s) && |placed| == |s.order|
    requires forall k :: 0 <= k < |placed| ==> placed[k] == TopicLayout(s, k)
    ensures SceneLayout(s) == Scene(MainTopic, placed)
  {
    assert SceneLayout(s).topics == placed;
  }

  /** With no subtopics only the central node is placed; every detail node shows its
      name, followed by a newline and its stored response when there is one. */
  lemma SceneContents(s: DiagramState, i: nat, j: nat)
    requires WellFormed(s)
    ensures s.order == [] ==> SceneLayout(s).topics == []
    ensures i < |s.order| && j < |s.details[s.order[i]]| ==>
              var d := s.details[s.order[i]][j];
              var text := SceneLayout(s).topics[i].details[j].text;
              && (d in s.responses ==> text == d + "\n" + s.responses[d])
              && (d !in s.responses ==> text == d)
  {
  }

  /** A polar position around `origin`, given the cosine and sine of degrees. */
  function PolarToScene(origin: Point, angle: real, radius: real, cosDeg: real -> real, sinDeg: real -> real): (r: Point)
    ensures cosDeg(angle) * cosDeg(angle) + sinDeg(angle) * sinDeg(angle) == 1.0 ==>
              (r.x - origin.x) * (r.x - origin.x) + (r.y - origin.y) * (r.y - origin.y) == radius * radius
  {
    var c, s := cosDeg(angle), sinDeg(angle);
    assert (radius * c) * (radius * c) + (radius * s) * (radius * s) == radius * radius * (c * c + s * s);
    Point(origin.x + radius * c, origin.y + radius * s)
  }

  /** Where update_scene puts a node whose centre should be `target`, as written:
      the target minus half the bounding size, as if the bounding rectangle began
      at the item origin. */
  function PositionAsWritten(target: Point, bounds: Rect): Point
  {
    Point(target.x - bounds.width / 2.0, target.y - bounds.height / 2.0)
  }

  /** The node is then centred half its size up and left of the point its connectors aim at. */
  lemma PlacedNodeMissesTarget(node: TextNodeItem, target: Point)
    requires node.Valid()
    ensures var b := node.BoundingRect();
            node.SceneCenter(PositionAsWritten(target, b)) == Point(target.x - b.width / 2.0, target.y - b.height / 2.0)
    ensures node.SceneCenter(PositionAsWritten(target, node.BoundingRect())) != target
  {
    var b := node.BoundingRect();
    assert b.width > 0.0;
  }

  /** The placement lines of update_scene as written: the node's centre lands half its
      size up and left of the polar point, so not on the point its connectors aim at. */
  lemma PlacedAsWrittenOffPolarPoint(node: TextNodeItem, origin: Point, angle: real, radius: real,
                                     cosDeg: real -> real, sinDeg: real -> real)
    requires node.Valid()
    ensures var p := PolarToScene(origin, angle, radius, cosDeg, sinDeg);
            var b := node.BoundingRect();
            var c := node.SceneCenter(PositionAsWritten(p, b));
            c == Point(p.x - b.width / 2.0, p.y - b.height / 2.0) && c != p
  {
    PlacedNodeMissesTarget(node, PolarToScene(origin, angle, radius, cosDeg, sinDeg));
  }

  /** The position that puts a node's bounding-rectangle centre on `target`. */
  function NodePosition(target: Point, bounds: Rect): (pos: Point)
    ensures Point(pos.x + bounds.Center().x, pos.y + bounds.Center().y) == target
  {
    Point(target.x - bounds.Center().x, target.y - bounds.Center().y)
  }

  /** With that position the node is centred exactly on its target. */
  lemma PlacedNodeCentredOnTarget(node: TextNodeItem, target: Point)
    ensures node.SceneCenter(NodePosition(target, node.BoundingRect())) == target
  {
  }

  /** The corrected position of a node placed at polar `angle` and `radius` around `origin`. */
  function PlaceNode(bounds: Rect, origin: Point, angle: real, radius: real,
                     cosDeg: real -> real, sinDeg: real -> real): (pos: Point)
    ensures Point(pos.x + bounds.Center().x, pos.y + bounds.Center().y) == PolarToScene(origin, angle, radius, cosDeg, sinDeg)
  {
    NodePosition(PolarToScene(origin, angle, radius, cosDeg, sinDeg), bounds)
  }

  /** A node placed at the corrected position has its centre at the radius from the
      origin, which is where the connectors of update_scene aim. */
  lemma PlacedNodeAtRadius(node: TextNodeItem, origin: Point, angle: real, radius: real,
                           cosDeg: real -> real, sinDeg: real -> real)
    requires cosDeg(angle) * cosDeg(angle) + sinDeg(angle) * sinDeg(angle) == 1.0
    ensures var c := node.SceneCenter(PlaceNode(node.BoundingRect(), origin, angle, radius, cosDeg, sinDeg));
            && c == PolarToScene(origin, angle, radius, cosDeg, sinDeg)
            && (c.x - origin.x) * (c.x - origin.x) + (c.y - origin.y) * (c.y - origin.y) == radius * radius
  {
  }

  // ---------------------------------------------------------------------------
  // Viewport
  // ---------------------------------------------------------------------------

  /** zoom_in: grow by the zoom factor, capped at the maximum scale. */
  function ZoomedIn(scale: real): (r: real)
    ensures r <= MaxScale
    ensures MinScale <= scale <= MaxScale ==> MinScale <= r <= MaxScale
    ensures scale > 0.0 && scale * ZoomFactor <= MaxScale ==> r > scale
  {
    Min(MaxScale, scale * ZoomFactor)
  }

  /** zoom_out: shrink by the zoom factor, floored at the minimum scale. */
  function ZoomedOut(scale: real): (r: real)
    ensures r >= MinScale
    ensures MinScale <= scale <= MaxScale ==> MinScale <= r <= MaxScale
    ensures scale / ZoomFactor >= MinScale ==> r < scale || scale <= 0.0
  {
    Max(MinScale, scale / ZoomFactor)
  }

  /** Away from the bounds, zooming in and then out returns to the same scale. */
  lemma ZoomOutUndoesZoomIn(scale: real)
    requires MinScale <= scale && scale * ZoomFactor <= MaxScale
    ensures ZoomedOut(ZoomedIn(scale)) == scale
  {
  }

  /** calculate_optimal_scale: 1 for an empty scene, else the smaller of the two
      viewport-minus-margin to content ratios, clamped to the zoom range. */
  function OptimalScale(empty: bool, sceneWidth: real, sceneHeight: real, viewWidth: real, viewHeight: real): (r: real)
    requires !empty ==> sceneWidth > 0.0 && sceneHeight > 0.0
    ensures MinScale <= r <= MaxScale
    ensures empty ==> r == 1.0
  {
    if empty then 1.0
    else
      var widthRatio := (viewWidth - FitMargin) / sceneWidth;
      var heightRatio := (viewHeight - FitMargin) / sceneHeight;
      Clamp(Min(widthRatio, heightRatio), MinScale, MaxScale)
  }

  /** Unless the minimum scale is forced, the content fits in the viewport minus the margin
      at the optimal scale, and touches it in one direction unless the maximum scale is forced.
      Each limit is taken only when a ratio forces it: the minimum when one ratio is at most
      the minimum, the maximum when both ratios are at least the maximum. */
  lemma OptimalScaleFits(sceneWidth: real, sceneHeight: real, viewWidth: real, viewHeight: real)
    requires sceneWidth > 0.0 && sceneHeight > 0.0
    ensures var r := OptimalScale(false, sceneWidth, sceneHeight, viewWidth, viewHeight);
            r > MinScale ==> r * sceneWidth <= viewWidth - FitMargin && r * sceneHeight <= viewHeight - FitMargin
    ensures var r := OptimalScale(false, sceneWidth, sceneHeight, viewWidth, viewHeight);
            MinScale < r < MaxScale ==> r * sceneWidth == viewWidth - FitMargin || r * sceneHeight == viewHeight - FitMargin
    ensures var r := OptimalScale(false, sceneWidth, sceneHeight, viewWidth, viewHeight);
            r == MinScale ==> (viewWidth - FitMargin) / sceneWidth <= MinScale || (viewHeight - FitMargin) / sceneHeight <= MinScale
    ensures var r := OptimalScale(false, sceneWidth, sceneHeight, viewWidth, viewHeight);
            r == MaxScale ==> (viewWidth - FitMargin) / sceneWidth >= MaxScale && (viewHeight - FitMargin) / sceneHeight >= MaxScale
  {
    var wr, hr := (viewWidth - FitMargin) / sceneWidth, (viewHeight - FitMargin) / sceneHeight;
    var r := OptimalScale(false, sceneWidth, sceneHeight, viewWidth, viewHeight);
    assert wr * sceneWidth == viewWidth - FitMargin;
    assert hr * sceneHeight == viewHeight - FitMargin;
    if r > MinScale {
      assert r <= wr && r <= hr;
      MulLe(sceneWidth, r, wr);
      MulLe(sceneHeight, r, hr);
    }
  }

  /** ClusterDiagramWidget (layout.py): the live diagram view. */
  class ClusterDiagramWidget {
    var topics: seq<string>
    var subtopics: map<string, seq<string>>
    var apiResponses: map<string, string>
    var scaleFactor: real
    /** Start and end values of the zoom animation last set up. */
    var zoomStart: real
    var zoomEnd: real
    /** The shift-drag selection flags of the mouse handlers. */
    var rubberbandSelection: bool
    var isSelecting: bool

    function State(): DiagramState
      reads this
    {
      DiagramState(topics, subtopics, apiResponses)
    }

    ghost predicate Valid()
      reads this
    {
      WellFormed(State())
    }

    /** A new widget starts with an empty diagram at scale 1, with no selection under way. */
    constructor ()
      ensures State() == EmptyDiagram && Valid()
      ensures scaleFactor == 1.0
      ensures !rubberbandSelection && !isSelecting
    {
      topics, subtopics, apiResponses := [], map[], map[];
      scaleFactor := 1.0;
      zoomStart, zoomEnd := 1.0, 1.0;
      rubberbandSelection, isSelecting := false, false;
    }

    /** The response bookkeeping of handle_new_data: the summary first, then the file text over it. */
    method StoreResponse(e: Event)
      modifies this`apiResponses
      ensures apiResponses == RecordResponse(old(apiResponses), e)
    {
      if Truthy(e.summary) {
        apiResponses := apiResponses[e.content := e.summary.value];
      }
      if Truthy(e.fileText) {
        apiResponses := apiResponses[e.content := FileContentsPrefix + e.fileText.value];
      }
    }

    /** handle_new_data: update the model in place and rebuild the scene. */
    method HandleNewData(e: Event) returns (scene: Scene)
      requires Valid()
      modifies this`topics, this`subtopics, this`apiResponses
      ensures Valid()
      ensures State() == ApplyEvent(old(State()), e)
      ensures scene == SceneLayout(State())
    {
      ApplyEventWellFormed(State(), e);
      if e.kind == Subtopic {
        if e.content !in subtopics {
          topics := topics + [e.content];
          subtopics := subtopics[e.content := []];
        }
      } else {
        if e.parent in subtopics {
          subtopics := subtopics[e.parent := subtopics[e.parent] + [e.content]];
          StoreResponse(e);
        } else if e.parent == MainTopic {
          if RootFilesTopic !in subtopics {
            topics := topics + [RootFilesTopic];
            subtopics := subtopics[RootFilesTopic := []];
          }
          subtopics := subtopics[RootFilesTopic := subtopics[RootFilesTopic] + [e.content]];
          StoreResponse(e);
        }
      }
      scene := UpdateScene();
    }

    /** update_scene: place every topic around the centre and its details around it. */
    method UpdateScene() returns (scene: Scene)
      requires Valid()
      ensures scene == SceneLayout(State())
    {
      ghost var s := State();
      var n := |topics|;
      var placed: seq<TopicPlacement> := [];
      for i := 0 to n
        invariant |placed| == i
        invariant forall k :: 0 <= k < i ==> placed[k] == TopicLayout(s, k)
      {
        var name := topics[i];
        assert name in s.details;
        var details := subtopics[name];
        var angleStep := -360.0 / n as real;
        var currentAngle := 90.0 + i as real * angleStep;
        var placedDetails := PlaceDetails(currentAngle, details);
        assert TopicPlacement(name, currentAngle, placedDetails) == TopicLayout(s, i);
        placed := placed + [TopicPlacement(name, currentAngle, placedDetails)];
      }
      scene := Scene(MainTopic, placed);
      SceneLayoutFromTopics(s, placed);
    }

    /** The inner loop of update_scene: the details of one topic, spread around it. */
    method PlaceDetails(currentAngle: real, details: seq<string>) returns (placed: seq<DetailPlacement>)
      ensures placed == DetailLayouts(currentAngle, details, apiResponses)
    {
      var m := |details|;
      var step := if m > 1 then -DetailAngleSpan / (m - 1) as real else 0.0;
      var baseAngle := currentAngle + DetailAngleSpan / 2.0;
      var spacing := DetailWidth * 1.5;
      placed := [];
      for j := 0 to m
        invariant |placed| == j
        invariant forall k :: 0 <= k < j ==> placed[k] == DetailLayout(currentAngle, details, k, apiResponses)
      {
        var text := details[j];
        if details[j] in apiResponses {
          text := details[j] + "\n" + apiResponses[details[j]];
        }
        placed := placed + [DetailPlacement(text, baseAngle + j as real * step, DetailDistance + j as real * spacing)];
      }
    }

    method ZoomIn()
      modifies this`scaleFactor
      ensures scaleFactor == ZoomedIn(old(scaleFactor))
    {
      scaleFactor := scaleFactor * ZoomFactor;
      scaleFactor := Min(MaxScale, scaleFactor);
    }

    method ZoomOut()
      modifies this`scaleFactor
      ensures scaleFactor == ZoomedOut(old(scaleFactor))
    {
      scaleFactor := scaleFactor / ZoomFactor;
      scaleFactor := Max(MinScale, scaleFactor);
    }

    method ResetZoom()
      modifies this`scaleFactor
      ensures scaleFactor == 1.0
    {
      scaleFactor := 1.0;
    }

    /** animate_zoom: animate from the current scale to the target clamped to the zoom range. */
    method AnimateZoom(target: real)
      modifies this`zoomStart, this`zoomEnd
      ensures zoomStart == scaleFactor
      ensures zoomEnd == Clamp(target, MinScale, MaxScale)
      ensures MinScale <= zoomEnd <= MaxScale
    {
      var clamped := Max(MinScale, Min(MaxScale, target));
      zoomStart := scaleFactor;
      zoomEnd := clamped;
    }

    /** mousePressEvent: a shift-click starts a rubber-band selection. */
    method MousePress(shift: bool)
      modifies this`rubberbandSelection, this`isSelecting
      ensures shift ==> rubberbandSelection && isSelecting
      ensures !shift ==> rubberbandSelection == old(rubberbandSelection) && isSelecting == old(isSelecting)
    {
      if shift {
        rubberbandSelection := true;
        isSelecting := true;
      }
    }

    /** mouseReleaseEvent: ending a selection over a non-empty rectangle fits it in the
        view and takes the resulting transform scale `fitted` as the scale factor. The
        zoom limits are not applied on this path. */
    method MouseRelease(selectionEmpty: bool, fitted: real)
      modifies this`rubberbandSelection, this`isSelecting, this`scaleFactor
      ensures old(rubberbandSelection && isSelecting) ==>
                && !rubberbandSelection && !isSelecting
                && scaleFactor == if selectionEmpty then old(scaleFactor) else fitted
      ensures !old(rubberbandSelection && isSelecting) ==>
                && rubberbandSelection == old(rubberbandSelection) && isSelecting == old(isSelecting)
                && scaleFactor == old(scaleFactor)
    {
      if rubberbandSelection && isSelecting {
        rubberbandSelection := false;
        isSelecting := false;
        if !selectionEmpty {
          scaleFactor := fitted;
        }
      }
    }

    /** auto_fit: take the optimal scale for the scene's bounding size and the viewport size. */
    method AutoFit(empty: bool, sceneWidth: real, sceneHeight: real, viewWidth: real, viewHeight: real)
      requires !empty ==> sceneWidth > 0.0 && sceneHeight > 0.0
      modifies this`scaleFactor
      ensures scaleFactor == OptimalScale(empty, sceneWidth, sceneHeight, viewWidth, viewHeight)
    {
      scaleFactor := OptimalScale(empty, sceneWidth, sceneHeight, viewWidth, viewHeight);
    }
  }
}
