/*
 * The fixed layout (src/Layout/fixed.js): every node sits at its given
 * position scaled by one side length, links are looked up by id, and the
 * graph rectangle is the bounding box of the node positions, folded from
 * an inverted default rectangle.
 *
 * The graph is seen through the order in which it hands out its nodes and
 * links; the side length, `Math.sqrt(nnodes / (1 / settings.width))`, is
 * passed in.
 */
module FixedLayout {
  import opened Geometry

  datatype Option<T> = None | Some(value: T)

  type NodeId = int
  type LinkId = int

  /** A graph link as the layout sees it: its id and the ids of its two ends. */
  datatype GraphLink = GraphLink(id: LinkId, fromId: NodeId, toId: NodeId)

  /** What getLinkPosition returns; an end with no position reads as `None` (undefined). */
  datatype LinkPosition = LinkPosition(from: Option<Point>, to: Option<Point>)

  /** A graph rectangle: `x1`, `y1` is the top left corner and `x2`, `y2` the bottom right one. */
  datatype Bounds = Bounds(x1: real, y1: real, x2: real, y2: real)

  /** defaultRect: turned inside out, so that the first point folded in sets all four sides. */
  const DEFAULT_RECT := Bounds(100000.0, 100000.0, -100000.0, -100000.0)

  predicate Contains(b: Bounds, p: Point)
  {
    b.x1 <= p.x <= b.x2 && b.y1 <= p.y <= b.y2
  }

  /** Every side of `c` lies at or beyond the same side of `b`. */
  predicate Within(b: Bounds, c: Bounds)
  {
    c.x1 <= b.x1 && b.x2 <= c.x2 && c.y1 <= b.y1 && b.y2 <= c.y2
  }

  /**
   * updateGraphRect on values: each side moves out just far enough to take
   * in `p`.  The result holds `p` and everything `b` held, and it is the
   * smallest rectangle around `b` that holds `p`.
   */
  function Extend(b: Bounds, p: Point): (r: Bounds)
    ensures Contains(r, p) && Within(b, r)
    ensures forall q :: Contains(b, q) ==> Contains(r, q)
    ensures forall c :: Within(b, c) && Contains(c, p) ==> Within(r, c)
  {
    Bounds(if p.x < b.x1 then p.x else b.x1,
           if p.y < b.y1 then p.y else b.y1,
           if p.x > b.x2 then p.x else b.x2,
           if p.y > b.y2 then p.y else b.y2)
  }

  /** updateGraphRect applied to the points in order, starting from `b`. */
  function FoldRect(b: Bounds, ps: seq<Point>): Bounds
  {
    if ps == [] then b else Extend(FoldRect(b, ps[..|ps| - 1]), ps[|ps| - 1])
  }

  /**
   * The folded rectangle is the bounding box of `b` and the points: it
   * holds every point, lies around `b`, and lies inside every rectangle
   * that does both.
   */
  lemma {:induction false} FoldRectIsBoundingBox(b: Bounds, ps: seq<Point>)
    ensures Within(b, FoldRect(b, ps))
    ensures forall i :: 0 <= i < |ps| ==> Contains(FoldRect(b, ps), ps[i])
    ensures forall c :: Within(b, c) && (forall i :: 0 <= i < |ps| ==> Contains(c, ps[i])) ==> Within(FoldRect(b, ps), c)
    decreases |ps|
  {
    if ps != [] {
      var init := ps[..|ps| - 1];
      FoldRectIsBoundingBox(b, init);
      assert forall i :: 0 <= i < |init| ==> init[i] == ps[i];
    }
  }

  /**
   * Each side of the folded rectangle is the matching side of `b` or the
   * coordinate of one of the points: `x1` is the least of `b.x1` and the
   * points' `x`, `x2` the greatest of `b.x2` and the points' `x`, and the
   * same for `y`.
   */
  lemma {:induction false} FoldRectSidesAttained(b: Bounds, ps: seq<Point>)
    ensures var r := FoldRect(b, ps);
      (r.x1 == b.x1 || exists i :: 0 <= i < |ps| && r.x1 == ps[i].x) &&
      (r.x2 == b.x2 || exists i :: 0 <= i < |ps| && r.x2 == ps[i].x) &&
      (r.y1 == b.y1 || exists i :: 0 <= i < |ps| && r.y1 == ps[i].y) &&
      (r.y2 == b.y2 || exists i :: 0 <= i < |ps| && r.y2 == ps[i].y)
    decreases |ps|
  {
    if ps != [] {
      var init := ps[..|ps| - 1];
      FoldRectSidesAttained(b, init);
      assert forall i :: 0 <= i < |init| ==> init[i] == ps[i];
    }
  }

  /** initializePosition on one stored position: both coordinates scaled by the side length. */
  function Scaled(p: Point, side: real): Point
  {
    Point(p.x * side, p.y * side)
  }

  /** The node positions after initializePosition has run over `ids` in order. */
  function Placed(ids: seq<NodeId>, positions: map<NodeId, Point>, side: real): map<NodeId, Point>
    requires forall i :: 0 <= i < |ids| ==> ids[i] in positions
  {
    if ids == [] then map[]
    else Placed(ids[..|ids| - 1], positions, side)[ids[|ids| - 1] := Scaled(positions[ids[|ids| - 1]], side)]
  }

  /** A node has a position exactly when it was visited, and the position is its stored one, scaled. */
  lemma {:induction false} PlacedLookup(ids: seq<NodeId>, positions: map<NodeId, Point>, side: real)
    requires forall i :: 0 <= i < |ids| ==> ids[i] in positions
    ensures forall n :: n in Placed(ids, positions, side) <==> n in ids
    ensures forall i :: 0 <= i < |ids| ==> ids[i] in Placed(ids, positions, side)
    ensures forall n :: n in Placed(ids, positions, side) ==> Placed(ids, positions, side)[n] == Scaled(positions[n], side)
    decreases |ids|
  {
    if ids != [] {
      var init := ids[..|ids| - 1];
      PlacedLookup(init, positions, side);
      assert ids == init + [ids[|ids| - 1]];
      forall i | 0 <= i < |ids|
        ensures ids[i] in Placed(ids, positions, side)
      {
        if i < |init| {
          assert ids[i] == init[i];
        }
      }
    }
  }

  /** The positions of the nodes `ids`, in order. */
  function PointsOf(ids: seq<NodeId>, nodes: map<NodeId, Point>): (ps: seq<Point>)
    requires forall i :: 0 <= i < |ids| ==> ids[i] in nodes
    ensures |ps| == |ids| && forall i :: 0 <= i < |ids| ==> ps[i] == nodes[ids[i]]
  {
    if ids == [] then [] else PointsOf(ids[..|ids| - 1], nodes) + [nodes[ids[|ids| - 1]]]
  }

  /** The link table after ensureLinkInitialized has run over `links` in order: a later link wins its id. */
  function Indexed(links: seq<GraphLink>): (edges: map<LinkId, GraphLink>)
    ensures forall id :: id in edges ==> edges[id].id == id && edges[id] in links
    ensures forall i :: 0 <= i < |links| ==> links[i].id in edges
  {
    if links == [] then map[] else Indexed(links[..|links| - 1])[links[|links| - 1].id := links[|links| - 1]]
  }

  /** initializePosition over the graph's nodes, in order. */
  method PlaceNodes(ids: seq<NodeId>, positions: map<NodeId, Point>, side: real) returns (nodes: map<NodeId, Point>)
    requires forall i :: 0 <= i < |ids| ==> ids[i] in positions
    ensures nodes == Placed(ids, positions, side)
    ensures forall i :: 0 <= i < |ids| ==> ids[i] in nodes
    ensures forall n :: n in nodes ==> n in ids
    ensures forall n :: n in nodes ==> nodes[n] == Scaled(positions[n], side)
  {
    nodes := map[];
    var i := 0;
    while i < |ids|
      invariant 0 <= i <= |ids|
      invariant nodes == Placed(ids[..i], positions, side)
    {
      assert ids[..i + 1][..i] == ids[..i];
      nodes := nodes[ids[i] := Scaled(positions[ids[i]], side)];
      i := i + 1;
    }
    assert ids[..i] == ids;
    PlacedLookup(ids, positions, side);
  }

  /** ensureLinkInitialized over the graph's links, in order. */
  method IndexLinks(links: seq<GraphLink>) returns (edges: map<LinkId, GraphLink>)
    ensures edges == Indexed(links)
  {
    edges := map[];
    var i := 0;
    while i < |links|
      invariant 0 <= i <= |links|
      invariant edges == Indexed(links[..i])
    {
      assert links[..i + 1][..i] == links[..i];
      edges := edges[links[i].id := links[i]];
      i := i + 1;
    }
    assert links[..i] == links;
  }

  /** The graph rectangle, whose corners updateGraphRect moves in place. */
  class Rect {
    var x1: real
    var y1: real
    var x2: real
    var y2: real

    function Corners(): Bounds
      reads this
    {
      Bounds(x1, y1, x2, y2)
    }

    /** defaultRect */
    constructor Default()
      ensures Corners() == DEFAULT_RECT
    {
      x1, y1, x2, y2 := 100000.0, 100000.0, -100000.0, -100000.0;
    }

    /** updateGraphRect: each side is pushed out to `p` when `p` lies beyond it. */
    method Update(p: Point)
      modifies this
      ensures Corners() == Extend(old(Corners()), p)
    {
      if p.x < x1 {
        x1 := p.x;
      }
      if p.x > x2 {
        x2 := p.x;
      }
      if p.y < y1 {
        y1 := p.y;
      }
      if p.y > y2 {
        y2 := p.y;
      }
    }

    /** ensureNodeInitialized over the graph's nodes: updateGraphRect with each position in turn. */
    method UpdateAll(ps: seq<Point>)
      modifies this
      ensures Corners() == FoldRect(old(Corners()), ps)
    {
      var i := 0;
      while i < |ps|
        invariant 0 <= i <= |ps|
        invariant Corners() == FoldRect(old(Corners()), ps[..i])
      {
        assert ps[..i + 1][..i] == ps[..i];
        Update(ps[i]);
        i := i + 1;
      }
      assert ps[..i] == ps;
    }
  }

  /** The layout object createLayout returns, with the dictionaries its closures fill. */
  class Layout {
    var nodes: map<NodeId, Point>
    var edges: map<LinkId, GraphLink>
    var graphRect: Rect
    const width: real
    const height: real

    /**
     * createLayout: place every graph node (in the graph's order), fold the
     * placed nodes into the default rectangle, then index the links.  Every
     * graph node needs a stored position.
     */
    constructor (graphNodes: seq<NodeId>, graphLinks: seq<GraphLink>, positions: map<NodeId, Point>, side: real)
      requires forall i :: 0 <= i < |graphNodes| ==> graphNodes[i] in positions
      ensures width == side && height == side
      ensures nodes == Placed(graphNodes, positions, side)
      ensures forall i :: 0 <= i < |graphNodes| ==> graphNodes[i] in nodes
      ensures graphRect.Corners() == FoldRect(DEFAULT_RECT, PointsOf(graphNodes, nodes))
      ensures forall n :: n in nodes ==> Contains(graphRect.Corners(), nodes[n])
      ensures edges == Indexed(graphLinks)
      ensures fresh(graphRect)
    {
      width, height := side, side;
      var placed := PlaceNodes(graphNodes, positions, side);
      var ps := PointsOf(graphNodes, placed);
      var rect := new Rect.Default();
      rect.UpdateAll(ps);
      FoldRectIsBoundingBox(DEFAULT_RECT, ps);
      var indexed := IndexLinks(graphLinks);
      nodes, graphRect, edges := placed, rect, indexed;
    }

    /** getNodePosition: the node's position, or `None` (undefined) when it has none. */
    function GetNodePosition(nodeId: NodeId): (r: Option<Point>)
      reads this
      ensures r.Some? <==> nodeId in nodes
      ensures r.Some? ==> r.value == nodes[nodeId]
    {
      if nodeId in nodes then Some(nodes[nodeId]) else None
    }

    /** getLinkPosition: the positions of the link's two ends; the link must be known. */
    function GetLinkPosition(linkId: LinkId): (r: LinkPosition)
      reads this
      requires linkId in edges
      ensures r.from.Some? <==> edges[linkId].fromId in nodes
      ensures r.to.Some? <==> edges[linkId].toId in nodes
      ensures r.from.Some? ==> r.from.value == nodes[edges[linkId].fromId]
      ensures r.to.Some? ==> r.to.value == nodes[edges[linkId].toId]
    {
      var edge := edges[linkId];
      LinkPosition(GetNodePosition(edge.fromId), GetNodePosition(edge.toId))
    }

    /** step: the layout never moves, so every step reports that it is stable. */
    function Step(linkId: LinkId): (stable: bool)
      ensures stable
    {
      true
    }

    /** isNodePinned: no node is ever pinned. */
    function IsNodePinned(nodeId: NodeId): (pinned: bool)
      ensures !pinned
    {
      false
    }
  }
}
