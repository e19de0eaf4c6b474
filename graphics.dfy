/**
 * webglGraphics: the renderer that owns the four WebGL programs and keeps,
 * for each of them, the list of UI objects whose records it stores.
 *
 * The lists `nodes`, `straightLinks`, `curvedLinks` and `arrows` mirror the
 * record slots of the node, straight-link, curved-link and arrow programs:
 * slot `i` of a list holds the UI object whose record sits in slot `i` of
 * the program, and that UI object remembers `i` in its `id` (or `arrowId`)
 * field.  Straight and curved links share the `id` field, so one map
 * `linkIds` models it for both lists.
 *
 * The graph's own node and link objects are reduced to their ids; the UI
 * objects the user's builders return are handles (see UiSlots) whose fields
 * are maps.  The camera is the canvas size and the 4x4 transform matrix.
 */
module WebglGraphics {
  import opened Buffers
  import opened Geometry
  import opened UiSlots
  import WebglNodeProgram
  import WebglLinkProgram
  import WebglCurvedLinkProgram
  import WebglArrowProgram

  /** The id of a graph node or link, the key of `allNodes` and `allLinks`. */
  type NodeId = int
  type LinkId = int

  datatype Option<T> = None | Some(value: T)

  /** The two endpoints `flipLinkCoordinates` returns. */
  datatype LinkEnds = LinkEnds(fromPos: Point, toPos: Point)

  /**
   * flipLinkCoordinates: fresh copies of both endpoints with y negated,
   * turning layout coordinates (y down) into WebGL ones (y up).
   */
  function FlipLinkCoordinates(from: Point, to: Point): (r: LinkEnds)
    ensures r.fromPos.x == from.x && r.fromPos.y + from.y == 0.0
    ensures r.toPos.x == to.x && r.toPos.y + to.y == 0.0
  {
    LinkEnds(Point(from.x, -from.y), Point(to.x, -to.y))
  }

  /** Flipping twice gives back the original endpoints. */
  lemma FlipTwice(from: Point, to: Point)
    ensures var once := FlipLinkCoordinates(from, to);
      FlipLinkCoordinates(once.fromPos, once.toPos) == LinkEnds(from, to)
  {
  }

  /**
   * The part of the camera the coordinate maps use: the canvas size, the
   * scale entries 0 and 5 and the translation entries 12 and 13 of the
   * transform matrix.
   */
  datatype Camera = Camera(width: real, height: real, scaleX: real, scaleY: real, offsetX: real, offsetY: real)

  /** Every division of both coordinate maps is by a non-zero number. */
  predicate Invertible(c: Camera)
  {
    c.width != 0.0 && c.height != 0.0 && c.scaleX != 0.0 && c.scaleY != 0.0
  }

  /** The normalised point of a client point: the canvas spread over [-1, 1] on both axes, y pointing up. */
  function ClientToClip(c: Camera, p: Point): Point
    requires Invertible(c)
  {
    Point((2.0 * p.x) / c.width - 1.0, 1.0 - (2.0 * p.y) / c.height)
  }

  /** The normalised point the transform takes a graph point to: graph units over half the canvas, then scale and translation. */
  function GraphToClip(c: Camera, p: Point): Point
    requires Invertible(c)
  {
    Point((p.x / (c.width / 2.0)) * c.scaleX + c.offsetX, (p.y / (-c.height / 2.0)) * c.scaleY + c.offsetY)
  }

  /**
   * transformClientToGraphCoordinates on a point: normalise, undo the
   * transform, scale to graph units.  The result is the graph point the
   * transform draws where the client point is.
   */
  function ClientToGraph(c: Camera, p: Point): (r: Point)
    requires Invertible(c)
    ensures GraphToClip(c, r) == ClientToClip(c, p)
  {
    var nx := (2.0 * p.x) / c.width - 1.0;
    var ny := 1.0 - (2.0 * p.y) / c.height;
    var tx := (nx - c.offsetX) / c.scaleX;
    var ty := (ny - c.offsetY) / c.scaleY;
    DivMul(tx, c.width / 2.0);
    DivMul(ty, -c.height / 2.0);
    DivMul(nx - c.offsetX, c.scaleX);
    DivMul(ny - c.offsetY, c.scaleY);
    Point(tx * (c.width / 2.0), ty * (-c.height / 2.0))
  }

  /**
   * transformGraphToClientCoordinates on a point: the three steps above,
   * reversed.  The result is the client point where the transform draws
   * the graph point.
   */
  function GraphToClient(c: Camera, p: Point): (r: Point)
    requires Invertible(c)
    ensures ClientToClip(c, r) == GraphToClip(c, p)
  {
    var tx := p.x / (c.width / 2.0);
    var ty := p.y / (-c.height / 2.0);
    var nx := tx * c.scaleX + c.offsetX;
    var ny := ty * c.scaleY + c.offsetY;
    ScaleBack(nx + 1.0, c.width);
    ScaleBack(1.0 - ny, c.height);
    Point(((nx + 1.0) * c.width) / 2.0, ((1.0 - ny) * c.height) / 2.0)
  }

  /** Dividing by a non-zero real undoes multiplying by it, and the other way round. */
  lemma {:induction false} DivMul(a: real, b: real)
    requires b != 0.0
    ensures (a / b) * b == a && (a * b) / b == a
  {
  }

  /** Halving a scaled value, doubling it and dividing by the scale gives the value back. */
  lemma {:induction false} ScaleBack(a: real, w: real)
    requires w != 0.0
    ensures (2.0 * ((a * w) / 2.0)) / w == a
  {
    var m := a * w;
    assert 2.0 * (m / 2.0) == m;
    DivMul(a, w);
  }

  /** Mapping a client point to the graph and back gives the client point. */
  lemma {:induction false} ClientGraphRoundTrip(c: Camera, p: Point)
    requires Invertible(c)
    ensures GraphToClient(c, ClientToGraph(c, p)) == p
  {
    var nx := (2.0 * p.x) / c.width - 1.0;
    var ny := 1.0 - (2.0 * p.y) / c.height;
    var tx := (nx - c.offsetX) / c.scaleX;
    var ty := (ny - c.offsetY) / c.scaleY;
    DivMul(tx, c.width / 2.0);
    DivMul(ty, -c.height / 2.0);
    DivMul(nx - c.offsetX, c.scaleX);
    DivMul(ny - c.offsetY, c.scaleY);
    DivMul(2.0 * p.x, c.width);
    DivMul(2.0 * p.y, c.height);
    assert ((nx + 1.0) * c.width) / 2.0 == p.x;
    assert ((1.0 - ny) * c.height) / 2.0 == p.y;
  }

  /** The horizontal half of the graph-to-client-to-graph round trip, over plain reals. */
  lemma {:induction false} GraphClientRoundTripX(gx: real, w: real, s: real, o: real)
    requires w != 0.0 && s != 0.0
    ensures var nx := (gx / (w / 2.0)) * s + o;
      ((((2.0 * (((nx + 1.0) * w) / 2.0)) / w - 1.0) - o) / s) * (w / 2.0) == gx
  {
    var tx := gx / (w / 2.0);
    var nx := tx * s + o;
    ScaleBack(nx + 1.0, w);
    DivMul(tx, s);
    DivMul(gx, w / 2.0);
  }

  /** The vertical half of the graph-to-client-to-graph round trip, over plain reals. */
  lemma {:induction false} GraphClientRoundTripY(gy: real, h: real, s: real, o: real)
    requires h != 0.0 && s != 0.0
    ensures var ny := (gy / (-h / 2.0)) * s + o;
      (((1.0 - (2.0 * (((1.0 - ny) * h) / 2.0)) / h) - o) / s) * (-h / 2.0) == gy
  {
    var ty := gy / (-h / 2.0);
    var ny := ty * s + o;
    ScaleBack(1.0 - ny, h);
    DivMul(ty, s);
    DivMul(gy, -h / 2.0);
  }

  /** Mapping a graph point to the client and back gives the graph point. */
  lemma {:induction false} GraphClientRoundTrip(c: Camera, p: Point)
    requires Invertible(c)
    ensures ClientToGraph(c, GraphToClient(c, p)) == p
  {
    GraphClientRoundTripX(p.x, c.width, c.scaleX, c.offsetX);
    GraphClientRoundTripY(p.y, c.height, c.scaleY, c.offsetY);
  }

  /**
   * The closure state of the node list: the node UI objects in slot order,
   * the live count, the `id` and `node` fields of node UI objects, and the
   * lookup table from graph node ids.
   */
  datatype NodeUi = NodeUi(nodes: seq<Handle>, nodesCount: nat, ids: map<Handle, int>,
                           nodeOf: map<Handle, NodeId>, allNodes: map<NodeId, Handle>)
  {
    function List(): SlotList
    {
      SlotList(nodes, ids, nodesCount)
    }
  }

  /**
   * The closure state of the two link lists, the fields of link UI objects
   * (`id`, a slot of the list the link is in; `level`; `arrow`) and the
   * lookup table from graph link ids.
   */
  datatype LinkUi = LinkUi(straightLinks: seq<Handle>, straightLinksCount: nat,
                           curvedLinks: seq<Handle>, curvedLinksCount: nat,
                           ids: map<Handle, int>, level: map<Handle, int>, arrow: map<Handle, bool>,
                           allLinks: map<LinkId, Handle>)
  {
    function Straight(): SlotList
    {
      SlotList(straightLinks, ids, straightLinksCount)
    }

    function Curved(): SlotList
    {
      SlotList(curvedLinks, ids, curvedLinksCount)
    }
  }

  /** The closure state of the arrow list and the `arrowId` field of link UI objects (`null` is -1). */
  datatype ArrowUi = ArrowUi(arrows: seq<Handle>, arrowCount: nat, arrowIds: map<Handle, int>)
  {
    function List(): SlotList
    {
      SlotList(arrows, arrowIds, arrowCount)
    }
  }

  /** Which link UI objects are live in each list, and the graph link each link UI was built for. */
  datatype Live = Live(straight: set<Handle>, curved: set<Handle>, arrows: set<Handle>, linkOf: map<Handle, LinkId>)

  /** `nodes[i].id == i` below the count, and `allNodes` holds exactly the live node UIs. */
  ghost predicate NodeMirror(n: NodeUi, live: set<Handle>)
  {
    SlotsOk(n.nodes, n.ids, n.nodesCount, live) && Registered(n.allNodes, n.nodeOf, live)
  }

  /**
   * Both link lists mirror their programs; a live link UI is straight when
   * its level is at most 0 and curved otherwise; `allLinks` holds exactly
   * the live link UIs.
   */
  ghost predicate LinkMirror(l: LinkUi, v: Live)
  {
    SlotsOk(l.straightLinks, l.ids, l.straightLinksCount, v.straight) &&
    SlotsOk(l.curvedLinks, l.ids, l.curvedLinksCount, v.curved) &&
    v.straight !! v.curved &&
    Registered(l.allLinks, v.linkOf, v.straight + v.curved) &&
    (forall h :: h in v.straight ==> h in l.level && l.level[h] <= 0) &&
    (forall h :: h in v.curved ==> h in l.level && l.level[h] > 0)
  }

  /** `arrows[i].arrowId == i` below the count, and the arrows belong to exactly the live links with `arrow` set. */
  ghost predicate ArrowMirror(a: ArrowUi, arrow: map<Handle, bool>, v: Live)
  {
    SlotsOk(a.arrows, a.arrowIds, a.arrowCount, v.arrows) &&
    v.arrows <= v.straight + v.curved &&
    forall h :: h in v.straight + v.curved ==> h in arrow && (arrow[h] <==> h in v.arrows)
  }

  /** Adding a new node UI under a new graph node keeps the node mirror. */
  lemma {:induction false} AddNodeKeepsMirror(n: NodeUi, live: set<Handle>, node: NodeId, ui: Handle, n': NodeUi)
    requires NodeMirror(n, live) && node !in n.allNodes && ui !in n.nodeOf
    requires n'.List() == Append(n.List(), ui)
    requires n'.allNodes == n.allNodes[node := ui] && n'.nodeOf == n.nodeOf[ui := node]
    ensures NodeMirror(n', live + {ui})
  {
    AppendKeepsSlots(n.List(), live, ui);
    RegisterKeeps(n.allNodes, n.nodeOf, live, node, ui);
  }

  /** Releasing a registered node removes exactly its UI and keeps the node mirror. */
  lemma {:induction false} ReleaseNodeKeepsMirror(n: NodeUi, live: set<Handle>, node: NodeId, n': NodeUi)
    requires NodeMirror(n, live) && node in n.allNodes
    requires var ui := n.allNodes[node];
      ui in live && n'.List() == RemoveFromList(n.List(), n.ids[ui] as nat)
    requires n'.allNodes == n.allNodes - {node} && n'.nodeOf == n.nodeOf
    ensures NodeMirror(n', live - {n.allNodes[node]})
  {
    RemoveKeepsSlots(n.List(), live, n.allNodes[node]);
    UnregisterKeeps(n.allNodes, n.nodeOf, live, node);
  }

  /** The live sets once link UI `ui` with the given level and arrow flag is added for graph link `link`. */
  ghost function LiveAfterAddLink(v: Live, link: LinkId, ui: Handle, level: int, arrow: bool): Live
  {
    Live(if level > 0 then v.straight else v.straight + {ui},
         if level > 0 then v.curved + {ui} else v.curved,
         if arrow then v.arrows + {ui} else v.arrows,
         v.linkOf[ui := link])
  }

  /** The live sets once link UI `ui` is released. */
  ghost function LiveAfterReleaseLink(v: Live, ui: Handle): Live
  {
    Live(v.straight - {ui}, v.curved - {ui}, v.arrows - {ui}, v.linkOf)
  }

  /** Adding a new link UI with a positive level to the curved list keeps the link mirror. */
  lemma {:induction false} AddCurvedLinkKeepsLinkMirror(l: LinkUi, v: Live, link: LinkId, ui: Handle, level: int, arrow: bool, l': LinkUi)
    requires LinkMirror(l, v) && link !in l.allLinks && ui !in l.level && level > 0
    requires l'.allLinks == l.allLinks[link := ui] && l'.level == l.level[ui := level]
    requires l'.Curved() == Append(l.Curved(), ui)
    requires l'.straightLinks == l.straightLinks && l'.straightLinksCount == l.straightLinksCount
    ensures LinkMirror(l', LiveAfterAddLink(v, link, ui, level, arrow))
  {
    var v' := LiveAfterAddLink(v, link, ui, level, arrow);
    assert ui !in v.straight && ui !in v.curved;
    AppendKeepsSlots(l.Curved(), v.curved, ui);
    SlotsOkFrame(l.straightLinks, l.ids, l'.ids, l.straightLinksCount, v.straight);
    RegisterKeeps(l.allLinks, v.linkOf, v.straight + v.curved, link, ui);
    assert v'.straight + v'.curved == (v.straight + v.curved) + {ui};
  }

  /** Adding a new link UI with a level of at most 0 to the straight list keeps the link mirror. */
  lemma {:induction false} AddStraightLinkKeepsLinkMirror(l: LinkUi, v: Live, link: LinkId, ui: Handle, level: int, arrow: bool, l': LinkUi)
    requires LinkMirror(l, v) && link !in l.allLinks && ui !in l.level && level <= 0
    requires l'.allLinks == l.allLinks[link := ui] && l'.level == l.level[ui := level]
    requires l'.Straight() == Append(l.Straight(), ui)
    requires l'.curvedLinks == l.curvedLinks && l'.curvedLinksCount == l.curvedLinksCount
    ensures LinkMirror(l', LiveAfterAddLink(v, link, ui, level, arrow))
  {
    var v' := LiveAfterAddLink(v, link, ui, level, arrow);
    assert ui !in v.straight && ui !in v.curved;
    AppendKeepsSlots(l.Straight(), v.straight, ui);
    SlotsOkFrame(l.curvedLinks, l.ids, l'.ids, l.curvedLinksCount, v.curved);
    RegisterKeeps(l.allLinks, v.linkOf, v.straight + v.curved, link, ui);
    assert v'.straight + v'.curved == (v.straight + v.curved) + {ui};
  }

  /** Adding a new link UI to the list its level selects keeps the link mirror. */
  lemma {:induction false} AddLinkKeepsLinkMirror(l: LinkUi, v: Live, link: LinkId, ui: Handle, level: int, arrow: bool, l': LinkUi)
    requires LinkMirror(l, v) && link !in l.allLinks && ui !in l.level
    requires l'.allLinks == l.allLinks[link := ui] && l'.level == l.level[ui := level]
    requires if level > 0
      then (l'.Curved() == Append(l.Curved(), ui) &&
            l'.straightLinks == l.straightLinks && l'.straightLinksCount == l.straightLinksCount)
      else (l'.Straight() == Append(l.Straight(), ui) &&
            l'.curvedLinks == l.curvedLinks && l'.curvedLinksCount == l.curvedLinksCount)
    ensures LinkMirror(l', LiveAfterAddLink(v, link, ui, level, arrow))
  {
    if level > 0 {
      AddCurvedLinkKeepsLinkMirror(l, v, link, ui, level, arrow, l');
    } else {
      AddStraightLinkKeepsLinkMirror(l, v, link, ui, level, arrow, l');
    }
  }

  /** Adding a new link UI, and its arrow when it has one, keeps the arrow mirror. */
  lemma {:induction false} AddLinkKeepsArrowMirror(l: LinkUi, a: ArrowUi, v: Live, link: LinkId, ui: Handle, level: int, arrow: bool,
                                                   a': ArrowUi)
    requires LinkMirror(l, v) && ArrowMirror(a, l.arrow, v) && ui !in l.level
    requires if arrow then a'.List() == Append(a.List(), ui) else a' == a.(arrowIds := a.arrowIds[ui := -1])
    ensures ArrowMirror(a', l.arrow[ui := arrow], LiveAfterAddLink(v, link, ui, level, arrow))
  {
    var v' := LiveAfterAddLink(v, link, ui, level, arrow);
    assert ui !in v.arrows;
    if arrow {
      AppendKeepsSlots(a.List(), v.arrows, ui);
    } else {
      SlotsOkFrame(a.arrows, a.arrowIds, a'.arrowIds, a.arrowCount, v.arrows);
    }
    assert v'.straight + v'.curved == (v.straight + v.curved) + {ui};
  }

  /**
   * Releasing a registered link removes its UI from its list and, when it
   * has an arrow, from the arrow list, and keeps both mirrors.
   */
  lemma {:induction false} ReleaseLinkKeepsMirror(l: LinkUi, a: ArrowUi, v: Live, link: LinkId, l': LinkUi, a': ArrowUi)
    requires LinkMirror(l, v) && ArrowMirror(a, l.arrow, v) && link in l.allLinks
    requires l'.allLinks == l.allLinks - {link} && l'.level == l.level && l'.arrow == l.arrow
    requires var ui := l.allLinks[link];
      a'.List() == if l.arrow[ui] then RemoveFromList(a.List(), a.arrowIds[ui] as nat) else a.List()
    requires var ui := l.allLinks[link];
      if l.level[ui] > 0
      then (l'.Curved() == RemoveFromList(l.Curved(), l.ids[ui] as nat) &&
            l'.straightLinks == l.straightLinks && l'.straightLinksCount == l.straightLinksCount)
      else (l'.Straight() == RemoveFromList(l.Straight(), l.ids[ui] as nat) &&
            l'.curvedLinks == l.curvedLinks && l'.curvedLinksCount == l.curvedLinksCount)
    ensures var v' := LiveAfterReleaseLink(v, l.allLinks[link]);
      LinkMirror(l', v') && ArrowMirror(a', l'.arrow, v')
  {
    var ui := l.allLinks[link];
    var v' := LiveAfterReleaseLink(v, ui);
    if l.arrow[ui] {
      RemoveKeepsSlots(a.List(), v.arrows, ui);
    } else {
      assert v'.arrows == v.arrows;
    }
    if l.level[ui] > 0 {
      RemoveKeepsSlots(l.Curved(), v.curved, ui);
      SlotsOkFrame(l.straightLinks, l.ids, l'.ids, l.straightLinksCount, v.straight);
      assert v'.straight == v.straight;
    } else {
      RemoveKeepsSlots(l.Straight(), v.straight, ui);
      SlotsOkFrame(l.curvedLinks, l.ids, l'.ids, l.curvedLinksCount, v.curved);
      assert v'.curved == v.curved;
    }
    UnregisterKeeps(l.allLinks, v.linkOf, v.straight + v.curved, link);
    assert v'.straight + v'.curved == (v.straight + v.curved) - {ui};
  }

  /**
   * Swapping a live link with a live front slot of its own list (or
   * leaving the list alone) keeps the link mirror and the live sets.
   */
  lemma {:induction false} BringToFrontKeepsMirror(l: LinkUi, v: Live, ui: Handle, front: int, l': LinkUi)
    requires LinkMirror(l, v) && ui in v.straight + v.curved
    requires ui in v.curved ==> front < l.curvedLinksCount
    requires ui in v.straight ==> front < l.straightLinksCount
    requires l'.level == l.level && l'.allLinks == l.allLinks
    requires var id := l.ids[ui];
      if ui in v.curved
      then (l'.Curved() == (if front > id then Swapped(l.Curved(), front, id) else l.Curved()) &&
            l'.straightLinks == l.straightLinks && l'.straightLinksCount == l.straightLinksCount)
      else (l'.Straight() == (if front > id then Swapped(l.Straight(), front, id) else l.Straight()) &&
            l'.curvedLinks == l.curvedLinks && l'.curvedLinksCount == l.curvedLinksCount)
    ensures LinkMirror(l', v)
  {
    var id := l.ids[ui];
    if front > id {
      if ui in v.curved {
        SwapKeepsSlots(l.Curved(), v.curved, front, id);
        SlotsOkFrame(l.straightLinks, l.ids, l'.ids, l.straightLinksCount, v.straight);
      } else {
        SwapKeepsSlots(l.Straight(), v.straight, front, id);
        SlotsOkFrame(l.curvedLinks, l.ids, l'.ids, l.curvedLinksCount, v.curved);
      }
    }
  }

  /**
   * The steps addLink takes on the lists: the link UI gets the next slot
   * `uiid` of the curved list when its level is positive and of the
   * straight list otherwise; with an arrow it also gets the next arrow
   * slot `arrowId`, otherwise its `arrowId` is null (-1).  Both mirrors
   * carry over to the live sets with the new link UI.
   */
  method AddLinkToLists(l: LinkUi, a: ArrowUi, ghost v: Live, link: LinkId, ui: Handle, level: int, arrow: bool)
    returns (l': LinkUi, a': ArrowUi, uiid: nat, arrowId: int)
    requires LinkMirror(l, v) && ArrowMirror(a, l.arrow, v) && link !in l.allLinks && ui !in l.level
    ensures uiid == if level > 0 then l.curvedLinksCount else l.straightLinksCount
    ensures arrowId == if arrow then a.arrowCount else -1
    ensures a'.arrowCount == a.arrowCount + if arrow then 1 else 0
    ensures l'.curvedLinksCount == l.curvedLinksCount + if level > 0 then 1 else 0
    ensures l'.straightLinksCount == l.straightLinksCount + if level > 0 then 0 else 1
    ensures l'.allLinks == l.allLinks[link := ui] && l'.level == l.level[ui := level] && l'.arrow == l.arrow[ui := arrow]
    ensures if level > 0
      then (l'.Curved() == Append(l.Curved(), ui) &&
            l'.straightLinks == l.straightLinks && l'.straightLinksCount == l.straightLinksCount)
      else (l'.Straight() == Append(l.Straight(), ui) &&
            l'.curvedLinks == l.curvedLinks && l'.curvedLinksCount == l.curvedLinksCount)
    ensures if arrow then a'.List() == Append(a.List(), ui) else a' == a.(arrowIds := a.arrowIds[ui := -1])
    ensures var v' := LiveAfterAddLink(v, link, ui, level, arrow);
      LinkMirror(l', v') && ArrowMirror(a', l'.arrow, v')
  {
    var straightLinksCount, curvedLinksCount := l.straightLinksCount, l.curvedLinksCount;
    if level > 0 {
      uiid := curvedLinksCount;
      curvedLinksCount := curvedLinksCount + 1;
    } else {
      uiid := straightLinksCount;
      straightLinksCount := straightLinksCount + 1;
    }
    var ids := l.ids[ui := uiid];
    var arrows, arrowCount, arrowIds := a.arrows, a.arrowCount, a.arrowIds;
    if arrow {
      arrowId := arrowCount;
      arrowCount := arrowCount + 1;
      arrowIds := arrowIds[ui := arrowId];
      arrows := Store(arrows, arrowId, ui);
    } else {
      arrowId := -1;
      arrowIds := arrowIds[ui := -1];
    }
    var straightLinks, curvedLinks := l.straightLinks, l.curvedLinks;
    if level > 0 {
      curvedLinks := Store(curvedLinks, uiid, ui);
    } else {
      straightLinks := Store(straightLinks, uiid, ui);
    }
    l' := LinkUi(straightLinks, straightLinksCount, curvedLinks, curvedLinksCount, ids,
                 l.level[ui := level], l.arrow[ui := arrow], l.allLinks[link := ui]);
    a' := ArrowUi(arrows, arrowCount, arrowIds);
    AddLinkKeepsLinkMirror(l, v, link, ui, level, arrow, l');
    AddLinkKeepsArrowMirror(l, a, v, link, ui, level, arrow, a');
  }

  /**
   * The steps releaseLink takes on the lists, with the arrow block
   * corrected to the steps of removeLinkFromList: the link UI leaves the
   * registry, the arrow list (when it has an arrow) and the list its
   * level selects.  `arrowIdToRemove` and `linkIdToRemove` are the slots
   * it held.  Both mirrors carry over to the live sets without it.
   */
  method ReleaseLinkFromLists(l: LinkUi, a: ArrowUi, ghost v: Live, link: LinkId)
    returns (l': LinkUi, a': ArrowUi, arrowIdToRemove: nat, linkIdToRemove: nat)
    requires LinkMirror(l, v) && ArrowMirror(a, l.arrow, v) && link in l.allLinks
    ensures var ui := l.allLinks[link];
      ui in l.ids && ui in l.level && ui in l.arrow && linkIdToRemove == l.ids[ui] &&
      linkIdToRemove < (if l.level[ui] > 0 then l.curvedLinksCount else l.straightLinksCount) &&
      (l.arrow[ui] ==> ui in a.arrowIds && arrowIdToRemove == a.arrowIds[ui] && arrowIdToRemove < a.arrowCount)
    ensures l'.allLinks == l.allLinks - {link} && l'.level == l.level && l'.arrow == l.arrow
    ensures var ui := l.allLinks[link];
      a'.List() == if l.arrow[ui] then RemoveFromList(a.List(), arrowIdToRemove) else a.List()
    ensures var ui := l.allLinks[link];
      if l.level[ui] > 0
      then (l'.Curved() == RemoveFromList(l.Curved(), linkIdToRemove) &&
            l'.straightLinks == l.straightLinks && l'.straightLinksCount == l.straightLinksCount)
      else (l'.Straight() == RemoveFromList(l.Straight(), linkIdToRemove) &&
            l'.curvedLinks == l.curvedLinks && l'.curvedLinksCount == l.curvedLinksCount)
    ensures var v' := LiveAfterReleaseLink(v, l.allLinks[link]);
      LinkMirror(l', v') && ArrowMirror(a', l'.arrow, v')
  {
    var linkUI := l.allLinks[link];
    assert linkUI in v.straight + v.curved;
    linkIdToRemove := l.ids[linkUI] as nat;
    var arrows, arrowCount, arrowIds := a.arrows, a.arrowCount, a.arrowIds;
    arrowIdToRemove := 0;
    if l.arrow[linkUI] {
      assert linkUI in v.arrows;
      arrowIdToRemove := arrowIds[linkUI] as nat;
      arrows, arrowIds, arrowCount := RemoveLinkFromList(arrows, arrowIds, arrowCount, arrowIdToRemove);
    }
    var straightLinks, straightLinksCount := l.straightLinks, l.straightLinksCount;
    var curvedLinks, curvedLinksCount := l.curvedLinks, l.curvedLinksCount;
    var ids := l.ids;
    if l.level[linkUI] > 0 {
      curvedLinks, ids, curvedLinksCount := RemoveLinkFromList(curvedLinks, ids, curvedLinksCount, linkIdToRemove);
    } else {
      straightLinks, ids, straightLinksCount := RemoveLinkFromList(straightLinks, ids, straightLinksCount, linkIdToRemove);
    }
    l' := LinkUi(straightLinks, straightLinksCount, curvedLinks, curvedLinksCount, ids, l.level, l.arrow, l.allLinks - {link});
    a' := ArrowUi(arrows, arrowCount, arrowIds);
    ReleaseLinkKeepsMirror(l, a, v, link, l', a');
  }

  /**
   * The steps bringLinkToFront takes on the lists: when the front slot
   * `front` of the link's list lies above the link's slot, the two link
   * UIs swap slots.  The link mirror carries over unchanged.
   */
  method BringToFrontInLists(l: LinkUi, ghost v: Live, ui: Handle, front: int) returns (l': LinkUi)
    requires LinkMirror(l, v) && ui in v.straight + v.curved
    requires ui in v.curved ==> front < l.curvedLinksCount
    requires ui in v.straight ==> front < l.straightLinksCount
    ensures l'.level == l.level && l'.arrow == l.arrow && l'.allLinks == l.allLinks
    ensures var id := l.ids[ui];
      if ui in v.curved
      then (l'.Curved() == (if front > id then Swapped(l.Curved(), front, id) else l.Curved()) &&
            l'.straightLinks == l.straightLinks && l'.straightLinksCount == l.straightLinksCount)
      else (l'.Straight() == (if front > id then Swapped(l.Straight(), front, id) else l.Straight()) &&
            l'.curvedLinks == l.curvedLinks && l'.curvedLinksCount == l.curvedLinksCount)
    ensures LinkMirror(l', v)
  {
    var id := l.ids[ui];
    l' := l;
    if front > id {
      if l.level[ui] > 0 {
        var curvedLinks, ids := SwapElementsAndId(l.curvedLinks, l.ids, front as nat, id as nat);
        l' := l.(curvedLinks := curvedLinks, ids := ids);
      } else {
        var straightLinks, ids := SwapElementsAndId(l.straightLinks, l.ids, front as nat, id as nat);
        l' := l.(straightLinks := straightLinks, ids := ids);
      }
    }
    BringToFrontKeepsMirror(l, v, ui, front, l');
  }

  /**
   * removeLinkFromList: the count goes down when positive; a removed slot
   * below the new count takes the last link UI, which records its new
   * slot.  The inner early return is dead (the slot is below the count)
   * and not modelled.
   */
  method RemoveLinkFromList(links: seq<Handle>, ids: map<Handle, int>, linksCount: nat, linkIdToRemove: nat)
    returns (links': seq<Handle>, ids': map<Handle, int>, count: nat)
    requires linksCount <= |links|
    ensures SlotList(links', ids', count) == RemoveFromList(SlotList(links, ids, linksCount), linkIdToRemove)
  {
    links', ids', count := links, ids, linksCount;
    if count > 0 {
      count := count - 1;
    }
    if linkIdToRemove < count {
      var lastLinkUI := links'[count];
      links' := links'[linkIdToRemove := lastLinkUI];
      ids' := ids'[lastLinkUI := linkIdToRemove];
    }
  }

  /** swapElementsAndId: exchange two entries; each of the two link UIs records its new slot. */
  method SwapElementsAndId(list: seq<Handle>, ids: map<Handle, int>, id1: nat, id2: nat)
    returns (array': seq<Handle>, ids': map<Handle, int>)
    requires id1 < |list| && id2 < |list|
    ensures var r := Swapped(SlotList(list, ids, 0), id1, id2);
      array' == r.slots && ids' == r.ids
  {
    array' := list;
    var temp := array'[id1];
    array' := array'[id1 := array'[id2]];
    ids' := ids[array'[id1] := id1];
    array' := array'[id2 := temp];
    ids' := ids'[array'[id2] := id2];
  }

  /** A point whose coordinates the transform methods overwrite in place. */
  class MutablePoint {
    var x: real
    var y: real

    constructor (x: real, y: real)
      ensures this.x == x && this.y == y
    {
      this.x := x;
      this.y := y;
    }
  }

  /**
   * The link half of the renderer: the straight, curved and arrow programs
   * and the UI lists that mirror them.  Nothing in it refers to nodes.
   */
  class LinkLayer {
    const straightLinkProgram: WebglLinkProgram.LinkProgram
    const curvedLinkProgram: WebglCurvedLinkProgram.CurvedLinkProgram
    const arrowProgram: WebglArrowProgram.ArrowProgram

    var linkUi: LinkUi
    var arrowUi: ArrowUi
    ghost var live: Live

    /**
     * Every program is well formed and holds exactly as many records as its
     * list has live entries, and every list mirrors its program.
     */
    ghost predicate Valid()
      reads this, straightLinkProgram, curvedLinkProgram, curvedLinkProgram.indices, arrowProgram
    {
      straightLinkProgram.Valid() && curvedLinkProgram.Valid() && arrowProgram.Valid() && OwnBuffers() &&
      straightLinkProgram.linksCount == linkUi.straightLinksCount &&
      curvedLinkProgram.linksCount == linkUi.curvedLinksCount &&
      arrowProgram.arrowCount == arrowUi.arrowCount &&
      LinkMirror(linkUi, live) && ArrowMirror(arrowUi, linkUi.arrow, live)
    }

    /** Every program writes to an ArrayBuffer of its own. */
    ghost predicate OwnBuffers()
      reads this, straightLinkProgram, curvedLinkProgram, arrowProgram
    {
      straightLinkProgram.storage != curvedLinkProgram.storage &&
      straightLinkProgram.storage != arrowProgram.storage &&
      curvedLinkProgram.storage != arrowProgram.storage
    }

    /** No links and no arrows; `tanPitch` is the tangent of the arrow pitch. */
    constructor (curveResolution: nat, curviness: real, arrowSize: real, tanPitch: real)
      requires curveResolution >= 1
      ensures Valid()
      ensures linkUi.straightLinksCount == linkUi.curvedLinksCount == arrowUi.arrowCount == 0 && linkUi.allLinks == map[]
    {
      straightLinkProgram := new WebglLinkProgram.LinkProgram();
      curvedLinkProgram := new WebglCurvedLinkProgram.CurvedLinkProgram(curveResolution, curviness);
      arrowProgram := new WebglArrowProgram.ArrowProgram(curveResolution, curviness, arrowSize, tanPitch);
      linkUi := LinkUi([], 0, [], 0, map[], map[], map[], map[]);
      arrowUi := ArrowUi([], 0, map[]);
      live := Live({}, {}, {}, map[]);
    }

    /*
     * The calls into the programs.  Each one goes to the program of the
     * link's level (or to the arrow program) and leaves the others alone;
     * the live records of that program change as the program promises: an
     * append keeps the old records, a removal moves the last record into
     * the hole, and bringing to front exchanges the link's record with the
     * front one.
     */

    method CreateLinkRecord(curved: bool, id: nat)
      requires straightLinkProgram.Valid() && curvedLinkProgram.Valid() && OwnBuffers()
      requires id <= if curved then curvedLinkProgram.linksCount else straightLinkProgram.linksCount
      modifies straightLinkProgram, curvedLinkProgram
      ensures straightLinkProgram.Valid() && curvedLinkProgram.Valid() && OwnBuffers()
      ensures curvedLinkProgram.linksCount == old(curvedLinkProgram.linksCount) + if curved then 1 else 0
      ensures straightLinkProgram.linksCount == old(straightLinkProgram.linksCount) + if curved then 0 else 1
      ensures if curved
        then curvedLinkProgram.frontLinkId == id && unchanged(straightLinkProgram) &&
             curvedLinkProgram.Live()[..old(curvedLinkProgram.linksCount)] == old(curvedLinkProgram.Live())
        else straightLinkProgram.frontLinkId == id && unchanged(curvedLinkProgram) &&
             straightLinkProgram.Live()[..old(straightLinkProgram.linksCount)] == old(straightLinkProgram.Live())
    {
      if curved {
        curvedLinkProgram.CreateLink(id);
      } else {
        straightLinkProgram.CreateLink(id);
      }
    }

    method RemoveLinkRecord(curved: bool, id: nat)
      requires straightLinkProgram.Valid() && curvedLinkProgram.Valid() && OwnBuffers()
      modifies straightLinkProgram, straightLinkProgram.storage, curvedLinkProgram, curvedLinkProgram.storage
      ensures straightLinkProgram.Valid() && curvedLinkProgram.Valid() && OwnBuffers()
      ensures curvedLinkProgram.linksCount ==
        if curved then CountAfterRemoval(old(curvedLinkProgram.linksCount)) else old(curvedLinkProgram.linksCount)
      ensures straightLinkProgram.linksCount ==
        if curved then old(straightLinkProgram.linksCount) else CountAfterRemoval(old(straightLinkProgram.linksCount))
      ensures if curved
        then unchanged(straightLinkProgram, old(straightLinkProgram.storage)) &&
             (id < old(curvedLinkProgram.linksCount) ==>
                curvedLinkProgram.Live() == LastIntoHole(old(curvedLinkProgram.Live()), id))
        else unchanged(curvedLinkProgram, old(curvedLinkProgram.storage)) &&
             (id < old(straightLinkProgram.linksCount) ==>
                straightLinkProgram.Live() == LastIntoHole(old(straightLinkProgram.Live()), id))
    {
      if curved {
        curvedLinkProgram.RemoveLink(id);
      } else {
        straightLinkProgram.RemoveLink(id);
      }
    }

    /** Read the front id of the link's program, then let that program bring the link's record to the front. */
    method LinkRecordToFront(curved: bool, id: nat) returns (front: int)
      requires straightLinkProgram.Valid() && curvedLinkProgram.Valid() && OwnBuffers()
      modifies straightLinkProgram, straightLinkProgram.storage, curvedLinkProgram, curvedLinkProgram.storage
      ensures straightLinkProgram.Valid() && curvedLinkProgram.Valid() && OwnBuffers()
      ensures front == if curved then old(curvedLinkProgram.frontLinkId) else old(straightLinkProgram.frontLinkId)
      ensures curvedLinkProgram.linksCount == old(curvedLinkProgram.linksCount)
      ensures straightLinkProgram.linksCount == old(straightLinkProgram.linksCount)
      ensures if curved
        then unchanged(straightLinkProgram, old(straightLinkProgram.storage)) &&
             curvedLinkProgram.frontLinkId == NextFront(front) &&
             (id < front < curvedLinkProgram.linksCount ==>
                curvedLinkProgram.Live() == Transposed(old(curvedLinkProgram.Live()), id, front as nat)) &&
             (front <= id ==> curvedLinkProgram.Live() == old(curvedLinkProgram.Live()))
        else unchanged(curvedLinkProgram, old(curvedLinkProgram.storage)) &&
             straightLinkProgram.frontLinkId == NextFront(front) &&
             (id < front < straightLinkProgram.linksCount ==>
                straightLinkProgram.Live() == Transposed(old(straightLinkProgram.Live()), id, front as nat)) &&
             (front <= id ==> straightLinkProgram.Live() == old(straightLinkProgram.Live()))
    {
      if curved {
        front := curvedLinkProgram.GetFrontLinkId();
        curvedLinkProgram.BringToFront(id);
      } else {
        front := straightLinkProgram.GetFrontLinkId();
        straightLinkProgram.BringToFront(id);
      }
    }

    /**
     * The rest of addLink once its list steps are computed: an arrow record
     * when the link has an arrow, then the link record in the program of its
     * level, each in the slot after the live ones; then the new lists are
     * stored.
     */
    method AddLinkRecords(l': LinkUi, a': ArrowUi, ghost v': Live, arrow: bool, arrowId: int, curved: bool, id: nat)
      requires straightLinkProgram.Valid() && curvedLinkProgram.Valid() && arrowProgram.Valid() && OwnBuffers()
      requires arrow ==> arrowId == arrowProgram.arrowCount
      requires id == if curved then curvedLinkProgram.linksCount else straightLinkProgram.linksCount
      requires a'.arrowCount == arrowProgram.arrowCount + if arrow then 1 else 0
      requires l'.curvedLinksCount == curvedLinkProgram.linksCount + if curved then 1 else 0
      requires l'.straightLinksCount == straightLinkProgram.linksCount + if curved then 0 else 1
      requires LinkMirror(l', v') && ArrowMirror(a', l'.arrow, v')
      modifies this`linkUi, this`arrowUi, this`live, straightLinkProgram, curvedLinkProgram, arrowProgram
      ensures Valid() && linkUi == l' && arrowUi == a' && live == v'
      ensures if arrow
        then arrowProgram.frontArrowId == arrowId &&
             arrowProgram.Live()[..old(arrowProgram.arrowCount)] == old(arrowProgram.Live())
        else unchanged(arrowProgram)
      ensures if curved
        then curvedLinkProgram.frontLinkId == id && unchanged(straightLinkProgram) &&
             curvedLinkProgram.Live()[..old(curvedLinkProgram.linksCount)] == old(curvedLinkProgram.Live())
        else straightLinkProgram.frontLinkId == id && unchanged(curvedLinkProgram) &&
             straightLinkProgram.Live()[..old(straightLinkProgram.linksCount)] == old(straightLinkProgram.Live())
    {
      linkUi, arrowUi, live := l', a', v';
      if arrow {
        arrowProgram.CreateArrow(arrowId as nat);
      }
      CreateLinkRecord(curved, id);
    }

    /** The program side of releaseLink: the arrow record when the link has an arrow, then the link record. */
    method RemoveLinkRecords(arrow: bool, arrowId: nat, curved: bool, id: nat)
      requires straightLinkProgram.Valid() && curvedLinkProgram.Valid() && arrowProgram.Valid() && OwnBuffers()
      modifies straightLinkProgram, straightLinkProgram.storage, curvedLinkProgram, curvedLinkProgram.storage
      modifies arrowProgram, arrowProgram.storage
      ensures straightLinkProgram.Valid() && curvedLinkProgram.Valid() && arrowProgram.Valid() && OwnBuffers()
      ensures arrowProgram.arrowCount ==
        if arrow then CountAfterRemoval(old(arrowProgram.arrowCount)) else old(arrowProgram.arrowCount)
      ensures curvedLinkProgram.linksCount ==
        if curved then CountAfterRemoval(old(curvedLinkProgram.linksCount)) else old(curvedLinkProgram.linksCount)
      ensures straightLinkProgram.linksCount ==
        if curved then old(straightLinkProgram.linksCount) else CountAfterRemoval(old(straightLinkProgram.linksCount))
      ensures if arrow
        then arrowId < old(arrowProgram.arrowCount) ==>
               arrowProgram.Live() == LastIntoHole(old(arrowProgram.Live()), arrowId)
        else unchanged(arrowProgram, old(arrowProgram.storage))
      ensures if curved
        then unchanged(straightLinkProgram, old(straightLinkProgram.storage)) &&
             (id < old(curvedLinkProgram.linksCount) ==>
                curvedLinkProgram.Live() == LastIntoHole(old(curvedLinkProgram.Live()), id))
        else unchanged(curvedLinkProgram, old(curvedLinkProgram.storage)) &&
             (id < old(straightLinkProgram.linksCount) ==>
                straightLinkProgram.Live() == LastIntoHole(old(straightLinkProgram.Live()), id))
    {
      if arrow {
        arrowProgram.RemoveArrow(arrowId);
      }
      RemoveLinkRecord(curved, id);
    }

    /**
     * addLink: the new link UI (never seen before) takes the next slot of
     * the curved list when its level is positive and of the straight list
     * otherwise; when it has an arrow it also takes the next arrow slot,
     * otherwise its `arrowId` is null.
     */
    method AddLink(link: LinkId, ui: Handle, level: int, arrow: bool)
      requires Valid() && link !in linkUi.allLinks && ui !in linkUi.level
      modifies this`linkUi, this`arrowUi, this`live, straightLinkProgram, curvedLinkProgram, arrowProgram
      ensures Valid()
      ensures linkUi.allLinks == old(linkUi.allLinks)[link := ui]
      ensures linkUi.level == old(linkUi.level)[ui := level] && linkUi.arrow == old(linkUi.arrow)[ui := arrow]
      ensures if level > 0
        then (linkUi.Curved() == Append(old(linkUi.Curved()), ui) &&
              linkUi.straightLinks == old(linkUi.straightLinks) && linkUi.straightLinksCount == old(linkUi.straightLinksCount))
        else (linkUi.Straight() == Append(old(linkUi.Straight()), ui) &&
              linkUi.curvedLinks == old(linkUi.curvedLinks) && linkUi.curvedLinksCount == old(linkUi.curvedLinksCount))
      ensures if arrow
        then arrowUi.List() == Append(old(arrowUi.List()), ui)
        else arrowUi == old(arrowUi).(arrowIds := old(arrowUi.arrowIds)[ui := -1])
      ensures if arrow
        then arrowProgram.frontArrowId == old(arrowUi.arrowCount) &&
             arrowProgram.Live()[..old(arrowUi.arrowCount)] == old(arrowProgram.Live())
        else unchanged(arrowProgram)
      ensures if level > 0
        then curvedLinkProgram.frontLinkId == old(linkUi.curvedLinksCount) && unchanged(straightLinkProgram) &&
             curvedLinkProgram.Live()[..old(linkUi.curvedLinksCount)] == old(curvedLinkProgram.Live())
        else straightLinkProgram.frontLinkId == old(linkUi.straightLinksCount) && unchanged(curvedLinkProgram) &&
             straightLinkProgram.Live()[..old(linkUi.straightLinksCount)] == old(straightLinkProgram.Live())
    {
      var l', a', uiid, arrowId := AddLinkToLists(linkUi, arrowUi, live, link, ui, level, arrow);
      AddLinkRecords(l', a', LiveAfterAddLink(live, link, ui, level, arrow), arrow, arrowId, level > 0, uiid);
    }

    /**
     * releaseLink, with the arrow block corrected to the steps of
     * removeLinkFromList: the arrow (if any) and the link record are
     * dropped from their programs and both lists are compacted.
     */
    method ReleaseLink(link: LinkId)
      requires Valid() && link in linkUi.allLinks
      modifies this`linkUi, this`arrowUi, this`live
      modifies straightLinkProgram, straightLinkProgram.storage, curvedLinkProgram, curvedLinkProgram.storage
      modifies arrowProgram, arrowProgram.storage
      ensures Valid()
      ensures linkUi.allLinks == old(linkUi.allLinks) - {link}
      ensures linkUi.level == old(linkUi.level) && linkUi.arrow == old(linkUi.arrow)
      ensures var ui := old(linkUi.allLinks[link]);
        arrowUi.List() == if old(linkUi.arrow[ui])
                          then RemoveFromList(old(arrowUi.List()), old(arrowUi.arrowIds[ui]) as nat)
                          else old(arrowUi.List())
      ensures var ui := old(linkUi.allLinks[link]);
        if old(linkUi.level[ui]) > 0
        then (linkUi.Curved() == RemoveFromList(old(linkUi.Curved()), old(linkUi.ids[ui]) as nat) &&
              linkUi.straightLinks == old(linkUi.straightLinks) && linkUi.straightLinksCount == old(linkUi.straightLinksCount))
        else (linkUi.Straight() == RemoveFromList(old(linkUi.Straight()), old(linkUi.ids[ui]) as nat) &&
              linkUi.curvedLinks == old(linkUi.curvedLinks) && linkUi.curvedLinksCount == old(linkUi.curvedLinksCount))
      ensures var ui := old(linkUi.allLinks[link]);
        live == LiveAfterReleaseLink(old(live), ui)
      ensures var ui := old(linkUi.allLinks[link]);
        if old(linkUi.arrow[ui])
        then arrowProgram.Live() == LastIntoHole(old(arrowProgram.Live()), old(arrowUi.arrowIds[ui]) as nat)
        else unchanged(arrowProgram, old(arrowProgram.storage))
      ensures var ui := old(linkUi.allLinks[link]);
        var id := old(linkUi.ids[ui]) as nat;
        if old(linkUi.level[ui]) > 0
        then curvedLinkProgram.Live() == LastIntoHole(old(curvedLinkProgram.Live()), id) &&
             unchanged(straightLinkProgram, old(straightLinkProgram.storage))
        else straightLinkProgram.Live() == LastIntoHole(old(straightLinkProgram.Live()), id) &&
             unchanged(curvedLinkProgram, old(curvedLinkProgram.storage))
    {
      var l := linkUi;
      var ui := l.allLinks[link];
      var l', a', arrowIdToRemove, linkIdToRemove := ReleaseLinkFromLists(l, arrowUi, live, link);
      RemoveLinkRecords(l.arrow[ui], arrowIdToRemove, l.level[ui] > 0, linkIdToRemove);
      linkUi, arrowUi, live := l', a', LiveAfterReleaseLink(live, ui);
    }

    /**
     * bringLinkToFront: read the program's front id, let the program swap
     * the records, and swap the two list entries the same way when the
     * front lay above the link's slot.  The front id must be a live slot.
     */
    method BringLinkToFront(ui: Handle)
      requires Valid() && ui in live.straight + live.curved
      requires ui in live.curved ==> curvedLinkProgram.frontLinkId < linkUi.curvedLinksCount
      requires ui in live.straight ==> straightLinkProgram.frontLinkId < linkUi.straightLinksCount
      modifies this`linkUi, straightLinkProgram, straightLinkProgram.storage, curvedLinkProgram, curvedLinkProgram.storage
      ensures Valid()
      ensures linkUi.level == old(linkUi.level) && linkUi.arrow == old(linkUi.arrow) && linkUi.allLinks == old(linkUi.allLinks)
      ensures var id := old(linkUi.ids[ui]);
        if ui in live.curved
        then var front := old(curvedLinkProgram.frontLinkId);
          linkUi.Curved() == (if front > id then Swapped(old(linkUi.Curved()), front, id) else old(linkUi.Curved())) &&
          linkUi.straightLinks == old(linkUi.straightLinks) && linkUi.straightLinksCount == old(linkUi.straightLinksCount)
        else var front := old(straightLinkProgram.frontLinkId);
          linkUi.Straight() == (if front > id then Swapped(old(linkUi.Straight()), front, id) else old(linkUi.Straight())) &&
          linkUi.curvedLinks == old(linkUi.curvedLinks) && linkUi.curvedLinksCount == old(linkUi.curvedLinksCount)
      ensures var id := old(linkUi.ids[ui]) as nat;
        if ui in live.curved
        then var front := old(curvedLinkProgram.frontLinkId);
          curvedLinkProgram.Live() ==
            (if front > id then Transposed(old(curvedLinkProgram.Live()), id, front as nat) else old(curvedLinkProgram.Live())) &&
          curvedLinkProgram.frontLinkId == NextFront(front) && unchanged(straightLinkProgram, old(straightLinkProgram.storage))
        else var front := old(straightLinkProgram.frontLinkId);
          straightLinkProgram.Live() ==
            (if front > id then Transposed(old(straightLinkProgram.Live()), id, front as nat) else old(straightLinkProgram.Live())) &&
          straightLinkProgram.frontLinkId == NextFront(front) && unchanged(curvedLinkProgram, old(curvedLinkProgram.storage))
    {
      var l := linkUi;
      var frontLinkId := LinkRecordToFront(l.level[ui] > 0, l.ids[ui] as nat);
      linkUi := BringToFrontInLists(l, live, ui, frontLinkId);
    }

    /**
     * The link half of endRender: every link and arrow program with live
     * records draws them and moves its front id to the last live slot.
     */
    method Draw() returns (arrowVertices: nat, curveIndices: nat, linkVertices: nat)
      requires Valid()
      modifies straightLinkProgram, curvedLinkProgram, arrowProgram
      ensures Valid()
      ensures arrowVertices == 3 * arrowUi.arrowCount && linkVertices == 2 * linkUi.straightLinksCount
      ensures curveIndices == linkUi.curvedLinksCount * curvedLinkProgram.segments * 2
      ensures arrowUi.arrowCount > 0 ==> arrowProgram.frontArrowId == arrowUi.arrowCount - 1
      ensures linkUi.curvedLinksCount > 0 ==> curvedLinkProgram.frontLinkId == linkUi.curvedLinksCount - 1
      ensures linkUi.straightLinksCount > 0 ==> straightLinkProgram.frontLinkId == linkUi.straightLinksCount - 1
    {
      arrowVertices := DrawArrows();
      curveIndices := DrawCurves();
      linkVertices := DrawLinks();
    }

    /* One step of endRender each: a program is drawn only when it holds live records. */

    method DrawArrows() returns (vertices: nat)
      requires arrowProgram.Valid()
      modifies arrowProgram
      ensures arrowProgram.Valid() && arrowProgram.arrowCount == old(arrowProgram.arrowCount) && arrowProgram.storage == old(arrowProgram.storage)
      ensures vertices == 3 * arrowProgram.arrowCount
      ensures arrowProgram.arrowCount > 0 ==> arrowProgram.frontArrowId == arrowProgram.arrowCount - 1
    {
      vertices := 0;
      if arrowProgram.arrowCount > 0 {
        vertices := arrowProgram.Render();
      }
    }

    method DrawCurves() returns (indexCount: nat)
      requires curvedLinkProgram.Valid()
      modifies curvedLinkProgram
      ensures curvedLinkProgram.Valid() && curvedLinkProgram.linksCount == old(curvedLinkProgram.linksCount) && curvedLinkProgram.storage == old(curvedLinkProgram.storage)
      ensures indexCount == curvedLinkProgram.linksCount * curvedLinkProgram.segments * 2
      ensures curvedLinkProgram.linksCount > 0 ==> curvedLinkProgram.frontLinkId == curvedLinkProgram.linksCount - 1
    {
      indexCount := 0;
      if curvedLinkProgram.linksCount > 0 {
        indexCount := curvedLinkProgram.Render();
      }
    }

    method DrawLinks() returns (vertices: nat)
      requires straightLinkProgram.Valid()
      modifies straightLinkProgram
      ensures straightLinkProgram.Valid() && straightLinkProgram.linksCount == old(straightLinkProgram.linksCount) && straightLinkProgram.storage == old(straightLinkProgram.storage)
      ensures vertices == 2 * straightLinkProgram.linksCount
      ensures straightLinkProgram.linksCount > 0 ==> straightLinkProgram.frontLinkId == straightLinkProgram.linksCount - 1
    {
      vertices := 0;
      if straightLinkProgram.linksCount > 0 {
        vertices := straightLinkProgram.Render();
      }
    }
  }

  /**
   * The renderer: the link half, the node program and the node list that
   * mirrors it, and the canvas size and view transform.
   */
  class Graphics {
    const links: LinkLayer
    const nodeProgram: WebglNodeProgram.NodeProgram

    var nodeUi: NodeUi
    ghost var liveNodes: set<Handle>

    var width: real
    var height: real
    var transform: seq<real>

    /**
     * The link half is valid, the node program is well formed and holds
     * exactly as many records as the node list has live entries, the node
     * list mirrors it, and the canvas has a size.
     */
    ghost predicate Valid()
      reads this, links, links.straightLinkProgram, links.curvedLinkProgram, links.curvedLinkProgram.indices
      reads links.arrowProgram, nodeProgram
    {
      links.Valid() && nodeProgram.Valid() &&
      nodeProgram.nodesCount == nodeUi.nodesCount && NodeMirror(nodeUi, liveNodes) &&
      width >= 1.0 && height >= 1.0 && |transform| == 16
    }

    /** The camera the coordinate maps read from `width`, `height` and `transform`. */
    function Cam(): Camera
      reads this
      requires |transform| == 16
    {
      Camera(width, height, transform[0], transform[5], transform[12], transform[13])
    }

    /**
     * A renderer with no nodes or links, the identity transform and the
     * given options; `tanPitch` is the tangent of the arrow pitch.
     */
    constructor (curveResolution: nat, curviness: real, arrowSize: real, tanPitch: real, width: real, height: real)
      requires curveResolution >= 1 && width >= 1.0 && height >= 1.0
      ensures Valid()
      ensures nodeUi.nodesCount == 0 && nodeUi.allNodes == map[]
      ensures links.linkUi.straightLinksCount == links.linkUi.curvedLinksCount == links.arrowUi.arrowCount == 0
      ensures links.linkUi.allLinks == map[]
      ensures Invertible(Cam()) && Cam() == Camera(width, height, 1.0, 1.0, 0.0, 0.0)
    {
      links := new LinkLayer(curveResolution, curviness, arrowSize, tanPitch);
      nodeProgram := new WebglNodeProgram.NodeProgram();
      nodeUi := NodeUi([], 0, map[], map[], map[]);
      liveNodes := {};
      this.width, this.height := width, height;
      transform := [1.0, 0.0, 0.0, 0.0, 0.0, 1.0, 0.0, 0.0, 0.0, 0.0, 1.0, 0.0, 0.0, 0.0, 0.0, 1.0];
    }

    /* The calls into the node program: an append keeps the old records, a removal moves the last one into the hole. */

    method CreateNodeRecord()
      requires nodeProgram.Valid()
      modifies nodeProgram
      ensures nodeProgram.Valid() && nodeProgram.nodesCount == old(nodeProgram.nodesCount) + 1
      ensures nodeProgram.Live()[..old(nodeProgram.nodesCount)] == old(nodeProgram.Live())
    {
      nodeProgram.CreateNode();
    }

    method RemoveNodeRecord(id: nat)
      requires nodeProgram.Valid()
      modifies nodeProgram, nodeProgram.storage
      ensures nodeProgram.Valid() && nodeProgram.nodesCount == CountAfterRemoval(old(nodeProgram.nodesCount))
      ensures id < old(nodeProgram.nodesCount) ==> nodeProgram.Live() == LastIntoHole(old(nodeProgram.Live()), id)
    {
      nodeProgram.RemoveNode(id);
    }

    /**
     * addNode: the new node UI `ui` (what the node builder returned, never
     * seen before) takes the slot after the live ones, records it and the
     * graph node, gets a record in the node program and is registered.
     */
    method AddNode(node: NodeId, ui: Handle)
      requires Valid() && node !in nodeUi.allNodes && ui !in nodeUi.nodeOf
      modifies this`nodeUi, this`liveNodes, nodeProgram
      ensures Valid()
      ensures nodeUi.List() == Append(old(nodeUi.List()), ui)
      ensures nodeUi.allNodes == old(nodeUi.allNodes)[node := ui] && nodeUi.nodeOf == old(nodeUi.nodeOf)[ui := node]
      ensures liveNodes == old(liveNodes) + {ui}
      ensures nodeProgram.Live()[..old(nodeUi.nodesCount)] == old(nodeProgram.Live())
    {
      var s := nodeUi;
      var uiid := s.nodesCount;
      var ids := s.ids[ui := uiid];
      var nodeOf := s.nodeOf[ui := node];
      CreateNodeRecord();
      var nodes := Store(s.nodes, uiid, ui);
      var allNodes := s.allNodes[node := ui];
      nodeUi := NodeUi(nodes, uiid + 1, ids, nodeOf, allNodes);
      AddNodeKeepsMirror(s, liveNodes, node, ui, nodeUi);
      liveNodes := liveNodes + {ui};
    }

    /**
     * releaseNode: the count goes down when positive, the node program
     * drops the record, the node UI is unregistered and, when its slot is
     * below the new count, the last node UI moves into it and records it:
     * the steps of removeLinkFromList on the node list.  The inner early
     * return is dead, and `replaceProperties` is empty in both node
     * programs, so neither is modelled.
     */
    method ReleaseNode(node: NodeId)
      requires Valid() && node in nodeUi.allNodes
      modifies this`nodeUi, this`liveNodes, nodeProgram, nodeProgram.storage
      ensures Valid()
      ensures var ui := old(nodeUi.allNodes[node]);
        nodeUi.List() == RemoveFromList(old(nodeUi.List()), old(nodeUi.ids[ui]) as nat) &&
        nodeUi.allNodes == old(nodeUi.allNodes) - {node} && nodeUi.nodeOf == old(nodeUi.nodeOf) &&
        liveNodes == old(liveNodes) - {ui}
      ensures var ui := old(nodeUi.allNodes[node]);
        nodeProgram.Live() == LastIntoHole(old(nodeProgram.Live()), old(nodeUi.ids[ui]) as nat)
    {
      var s := nodeUi;
      var nodeUI := s.allNodes[node];
      assert nodeUI in liveNodes;
      var nodeIdToRemove := s.ids[nodeUI] as nat;
      RemoveNodeRecord(nodeIdToRemove);
      var nodes, ids, nodesCount := RemoveLinkFromList(s.nodes, s.ids, s.nodesCount, nodeIdToRemove);
      nodeUi := NodeUi(nodes, nodesCount, ids, s.nodeOf, s.allNodes - {node});
      ReleaseNodeKeepsMirror(s, liveNodes, node, nodeUi);
      liveNodes := liveNodes - {nodeUI};
    }

    /** addLink, carried out by the link half; the node half is untouched. */
    method AddLink(link: LinkId, ui: Handle, level: int, arrow: bool)
      requires Valid() && link !in links.linkUi.allLinks && ui !in links.linkUi.level
      modifies links, links.straightLinkProgram, links.curvedLinkProgram, links.arrowProgram
      ensures Valid() && links.linkUi.allLinks == old(links.linkUi.allLinks)[link := ui]
    {
      links.AddLink(link, ui, level, arrow);
    }

    /** releaseLink, carried out by the link half; the node half is untouched. */
    method ReleaseLink(link: LinkId)
      requires Valid() && link in links.linkUi.allLinks
      modifies links, links.straightLinkProgram, links.straightLinkProgram.storage
      modifies links.curvedLinkProgram, links.curvedLinkProgram.storage, links.arrowProgram, links.arrowProgram.storage
      ensures Valid() && links.linkUi.allLinks == old(links.linkUi.allLinks) - {link}
    {
      links.ReleaseLink(link);
    }

    /** bringLinkToFront, carried out by the link half; the node half is untouched. */
    method BringLinkToFront(ui: Handle)
      requires Valid() && ui in links.live.straight + links.live.curved
      requires ui in links.live.curved ==> links.curvedLinkProgram.frontLinkId < links.linkUi.curvedLinksCount
      requires ui in links.live.straight ==> links.straightLinkProgram.frontLinkId < links.linkUi.straightLinksCount
      modifies links, links.straightLinkProgram, links.straightLinkProgram.storage
      modifies links.curvedLinkProgram, links.curvedLinkProgram.storage
      ensures Valid() && links.linkUi.allLinks == old(links.linkUi.allLinks)
    {
      links.BringLinkToFront(ui);
    }

    /**
     * endRender: every program with live records draws them and, for the
     * link and arrow programs, moves its front id to the last live slot.
     */
    method EndRender() returns (arrowVertices: nat, curveIndices: nat, linkVertices: nat, points: nat)
      requires Valid()
      modifies links.straightLinkProgram, links.curvedLinkProgram, links.arrowProgram
      ensures Valid()
      ensures arrowVertices == 3 * links.arrowUi.arrowCount && linkVertices == 2 * links.linkUi.straightLinksCount
      ensures curveIndices == links.linkUi.curvedLinksCount * links.curvedLinkProgram.segments * 2
      ensures points == nodeUi.nodesCount
    {
      arrowVertices, curveIndices, linkVertices := links.Draw();
      points := DrawNodes();
    }

    method DrawNodes() returns (points: nat)
      requires nodeProgram.Valid()
      ensures points == nodeProgram.nodesCount
    {
      points := 0;
      if nodeProgram.nodesCount > 0 {
        points := nodeProgram.Render();
      }
    }

    /** graphCenterChanged: translate so that the graph origin is drawn at client point (x, y). */
    method GraphCenterChanged(x: real, y: real)
      requires Valid()
      modifies this`transform
      ensures Valid()
      ensures |transform| == 16 && transform[..12] == old(transform[..12]) && transform[14..] == old(transform[14..])
      ensures Invertible(Cam()) ==> GraphToClient(Cam(), Point(0.0, 0.0)) == Point(x, y)
    {
      transform := transform[12 := (2.0 * x) / width - 1.0];
      transform := transform[13 := 1.0 - (2.0 * y) / height];
      DivMul(2.0 * x, width);
      DivMul(2.0 * y, height);
    }

    /** transformClientToGraphCoordinates: `p` is overwritten with its graph coordinates. */
    method TransformClientToGraphCoordinates(p: MutablePoint)
      requires |transform| == 16 && Invertible(Cam())
      modifies p
      ensures Point(p.x, p.y) == ClientToGraph(Cam(), old(Point(p.x, p.y)))
      ensures GraphToClient(Cam(), Point(p.x, p.y)) == old(Point(p.x, p.y))
    {
      var r := ClientToGraph(Cam(), Point(p.x, p.y));
      ClientGraphRoundTrip(Cam(), Point(p.x, p.y));
      p.x, p.y := r.x, r.y;
    }

    /** transformGraphToClientCoordinates: `p` is overwritten with its client coordinates. */
    method TransformGraphToClientCoordinates(p: MutablePoint)
      requires |transform| == 16 && Invertible(Cam())
      modifies p
      ensures Point(p.x, p.y) == GraphToClient(Cam(), old(Point(p.x, p.y)))
      ensures ClientToGraph(Cam(), Point(p.x, p.y)) == old(Point(p.x, p.y))
    {
      var r := GraphToClient(Cam(), Point(p.x, p.y));
      GraphClientRoundTrip(Cam(), Point(p.x, p.y));
      p.x, p.y := r.x, r.y;
    }

    /**
     * getNodeAtClientPos: without a check callback nothing is found and
     * `clientPos` is left alone; otherwise `clientPos` is turned into graph
     * coordinates and the graph node of the first live node UI (in slot
     * order) that the callback accepts is returned, or None.
     */
    method GetNodeAtClientPos(clientPos: MutablePoint, preciseCheck: Option<(Handle, real, real) -> bool>) returns (r: Option<NodeId>)
      requires Valid() && Invertible(Cam())
      modifies clientPos
      ensures preciseCheck.None? ==> r.None? && clientPos.x == old(clientPos.x) && clientPos.y == old(clientPos.y)
      ensures preciseCheck.Some? ==> Point(clientPos.x, clientPos.y) == ClientToGraph(Cam(), old(Point(clientPos.x, clientPos.y)))
      ensures preciseCheck.Some? ==>
        var check, nodes := preciseCheck.value, nodeUi.nodes;
        (r.None? <==> forall i :: 0 <= i < nodeUi.nodesCount ==> !check(nodes[i], clientPos.x, clientPos.y)) &&
        (r.Some? ==>
           exists i :: 0 <= i < nodeUi.nodesCount && check(nodes[i], clientPos.x, clientPos.y) &&
             nodes[i] in nodeUi.nodeOf && r.value == nodeUi.nodeOf[nodes[i]] &&
             forall j :: 0 <= j < i ==> !check(nodes[j], clientPos.x, clientPos.y))
    {
      if preciseCheck.None? {
        return None;
      }
      var check := preciseCheck.value;
      TransformClientToGraphCoordinates(clientPos);
      var nodes, nodesCount := nodeUi.nodes, nodeUi.nodesCount;
      var i := 0;
      while i < nodesCount
        invariant 0 <= i <= nodesCount
        invariant forall j :: 0 <= j < i ==> !check(nodes[j], clientPos.x, clientPos.y)
      {
        if check(nodes[i], clientPos.x, clientPos.y) {
          ghost var h := nodes[i];
          assert h in liveNodes;
          return Some(nodeUi.nodeOf[nodes[i]]);
        }
        i := i + 1;
      }
      return None;
    }
  }
}
