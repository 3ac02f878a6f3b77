/**
 * The resize gesture of node-resize.js: a drag on one of eight handles around
 * the selected node. The size is recomputed on every pointer move from the
 * size and pointer position captured when the drag started, and is sent to the
 * server once, when the drag ends.
 */
module NodeResize {
  import opened Wrappers
  import opened Entities
  import opened Canvas

  datatype Handle = NW | N | NE | E | SE | S | SW | W

  predicate OnEastSide(h: Handle) { h.NE? || h.E? || h.SE? }
  predicate OnWestSide(h: Handle) { h.NW? || h.W? || h.SW? }
  predicate OnSouthSide(h: Handle) { h.SE? || h.S? || h.SW? }
  predicate OnNorthSide(h: Handle) { h.NW? || h.N? || h.NE? }

  /**
   * The gesture state. The script keeps it in five globals; it is idle exactly
   * when `isResizing` is false or no node is held, which this datatype makes
   * one case.
   */
  datatype Resize =
    | Idle
    | Resizing(node: Id, handle: Handle, startX: real, startY: real, startWidth: int, startHeight: int)

  const MinSize: int := 20
  const DefaultWidth: int := 80
  const DefaultHeight: int := 50

  /** `Math.round`: the nearest integer, halves rounded up. */
  function JsRound(v: real): (r: int)
    ensures v - 0.5 < r as real <= v + 0.5
  {
    (v + 0.5).Floor
  }

  /** `value || default` on a number: absent and zero are falsy. */
  function OrDefault(value: Option<int>, default: int): (r: int)
    ensures value.Some? && value.value != 0 ==> r == value.value
    ensures value.None? || value.value == 0 ==> r == default
  {
    if value.Some? && value.value != 0 then value.value else default
  }

  function Max(a: real, b: real): real
  {
    if a < b then b else a
  }

  /** One dragged dimension: `Math.round(Math.max(20, start + delta))`. */
  function Stretch(start: int, delta: real): (r: int)
    ensures r >= MinSize
    ensures start as real + delta >= MinSize as real ==> start as real + delta - 0.5 < r as real <= start as real + delta + 0.5
    ensures start as real + delta <= MinSize as real ==> r == MinSize
  {
    JsRound(Max(MinSize as real, start as real + delta))
  }

  /** A larger displacement never gives a smaller dimension. */
  lemma StretchMonotone(start: int, d1: real, d2: real)
    requires d1 <= d2
    ensures Stretch(start, d1) <= Stretch(start, d2)
  {
  }

  /** startResize: captures the handle, the pointer and the node's size (80 by 50 when unset). */
  function StartResize(g: Graph, nodeId: Id, handle: Handle, clientX: real, clientY: real): (r: Resize)
    requires nodeId in g.nodes
    ensures r.Resizing? && r.node == nodeId && r.handle == handle && r.startX == clientX && r.startY == clientY
    ensures r.startWidth == OrDefault(g.nodes[nodeId].width, DefaultWidth)
    ensures r.startHeight == OrDefault(g.nodes[nodeId].height, DefaultHeight)
  {
    Resizing(nodeId, handle, clientX, clientY,
             OrDefault(g.nodes[nodeId].width, DefaultWidth), OrDefault(g.nodes[nodeId].height, DefaultHeight))
  }

  /**
   * The size onResizeMove computes for a pointer at (clientX, clientY): the
   * displacement since the start, divided by the zoom, is added to the width
   * by east handles and subtracted by west handles, added to the height by
   * south handles and subtracted by north handles, never below 20; a dimension
   * the handle does not drag keeps its start value.
   */
  function NewSize(r: Resize, clientX: real, clientY: real, zoom: Zoom): (size: (int, int))
    requires r.Resizing?
    ensures var dx, dy := (clientX - r.startX) / zoom, (clientY - r.startY) / zoom;
      && (OnEastSide(r.handle) ==> size.0 == Stretch(r.startWidth, dx))
      && (OnWestSide(r.handle) ==> size.0 == Stretch(r.startWidth, -dx))
      && (!OnEastSide(r.handle) && !OnWestSide(r.handle) ==> size.0 == r.startWidth)
      && (OnSouthSide(r.handle) ==> size.1 == Stretch(r.startHeight, dy))
      && (OnNorthSide(r.handle) ==> size.1 == Stretch(r.startHeight, -dy))
      && (!OnSouthSide(r.handle) && !OnNorthSide(r.handle) ==> size.1 == r.startHeight)
  {
    var dx := (clientX - r.startX) / zoom;
    var dy := (clientY - r.startY) / zoom;
    var w := r.startWidth as real;
    var h := r.startHeight as real;
    var (newWidth, newHeight) :=
      match r.handle
      case NW => (Max(20.0, w - dx), Max(20.0, h - dy))
      case N => (w, Max(20.0, h - dy))
      case NE => (Max(20.0, w + dx), Max(20.0, h - dy))
      case E => (Max(20.0, w + dx), h)
      case SE => (Max(20.0, w + dx), Max(20.0, h + dy))
      case S => (w, Max(20.0, h + dy))
      case SW => (Max(20.0, w - dx), Max(20.0, h + dy))
      case W => (Max(20.0, w - dx), h);
    (JsRound(newWidth), JsRound(newHeight))
  }

  /**
   * onResizeMove: when a resize is under way, writes the new width and height
   * into the held node's data; otherwise, or when the node is no longer on the
   * canvas, the canvas is unchanged. Nothing else on the canvas changes.
   */
  function ResizeMove(r: Resize, g: Graph, clientX: real, clientY: real, zoom: Zoom): (g': Graph)
    ensures g'.edges == g.edges && g'.nodes.Keys == g.nodes.Keys
    ensures r.Idle? || r.node !in g.nodes ==> g' == g
    ensures forall k :: k in g.nodes && (r.Idle? || k != r.node) ==> g'.nodes[k] == g.nodes[k]
    ensures r.Resizing? && r.node in g.nodes ==>
      var size := NewSize(r, clientX, clientY, zoom);
      g'.nodes[r.node] == g.nodes[r.node].(width := Some(size.0), height := Some(size.1))
  {
    if r.Idle? || r.node !in g.nodes then g
    else
      var size := NewSize(r, clientX, clientY, zoom);
      g.(nodes := g.nodes[r.node := g.nodes[r.node].(width := Some(size.0), height := Some(size.1))])
  }

  /** Moving again to the same pointer position changes nothing more: the size depends
      only on the start and the total displacement. */
  lemma ResizeMoveIdempotent(r: Resize, g: Graph, clientX: real, clientY: real, zoom: Zoom)
    ensures ResizeMove(r, ResizeMove(r, g, clientX, clientY, zoom), clientX, clientY, zoom)
         == ResizeMove(r, g, clientX, clientY, zoom)
  {
    if r.Resizing? && r.node in g.nodes {
      var g1 := ResizeMove(r, g, clientX, clientY, zoom);
      assert g1.nodes[r.node := g1.nodes[r.node]] == g1.nodes;
    }
  }

  /** onResizeEnd: sends the held node's current width and height as one updateNode
      request and returns to idle; with no resize under way it does nothing. */
  function ResizeEnd(r: Resize, g: Graph): (result: (Resize, Option<Request>))
    ensures result.0 == Idle
    ensures r.Idle? ==> result.1.None?
    ensures r.Resizing? ==>
      && result.1.Some? && result.1.value.UpdateNodeRequest?
      && result.1.value.nodeId == r.node
      && result.1.value.input.(width := None, height := None) == EmptyNodeUpdate
      && (r.node in g.nodes ==>
            && result.1.value.input.width == g.nodes[r.node].width
            && result.1.value.input.height == g.nodes[r.node].height)
  {
    match r
    case Idle => (Idle, None)
    case Resizing(node, _, _, _, _, _) =>
      var width := if node in g.nodes then g.nodes[node].width else None;
      var height := if node in g.nodes then g.nodes[node].height else None;
      (Idle, Some(UpdateNodeRequest(node, EmptyNodeUpdate.(width := width, height := height))))
  }

  /** Every node's width and height, where set, is at least the minimum. */
  predicate SizesAtLeastMin(g: Graph)
  {
    forall k :: k in g.nodes ==>
      (g.nodes[k].width.None? || g.nodes[k].width.value >= MinSize)
      && (g.nodes[k].height.None? || g.nodes[k].height.value >= MinSize)
  }

  predicate StartAtLeastMin(r: Resize)
  {
    r.Resizing? ==> r.startWidth >= MinSize && r.startHeight >= MinSize
  }

  /**
   * Width and height only ever come from a resize, so they never drop below
   * 20: a resize started on such a canvas starts at 20 or more, and every move
   * keeps every node at 20 or more.
   */
  lemma ResizeKeepsMinSize(g: Graph, nodeId: Id, handle: Handle, clientX: real, clientY: real,
                           r: Resize, x: real, y: real, zoom: Zoom)
    requires SizesAtLeastMin(g) && StartAtLeastMin(r)
    ensures nodeId in g.nodes ==> StartAtLeastMin(StartResize(g, nodeId, handle, clientX, clientY))
    ensures SizesAtLeastMin(ResizeMove(r, g, x, y, zoom))
  {
  }
}
