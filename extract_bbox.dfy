/**
 * Bounding-box extraction from an OpenStreetMap stream: nodes inside the box are kept
 * and remembered, a way is kept when any of its node references names a kept node,
 * and every relation is kept. The writer is modelled as the sequence of objects it
 * has been given, in order.
 */
module ExtractBbox {
  import opened Common

  datatype BBox = BBox(minLon: real, minLat: real, maxLon: real, maxLat: real)

  /** An OSM location; `valid` is false for a node whose coordinates are undefined. */
  datatype Location = Location(valid: bool, lon: real, lat: real)

  datatype Node = Node(id: int, location: Location)
  datatype Way = Way(id: int, nodeRefs: seq<int>)
  datatype Relation = Relation(id: int)

  datatype OsmObject = NodeObject(node: Node) | WayObject(way: Way) | RelationObject(relation: Relation)

  /** The reason a box is refused, in the order the checks are made. */
  datatype BboxError = LongitudeOutOfRange | LatitudeOutOfRange | LongitudesNotOrdered | LatitudesNotOrdered

  function CheckBbox(b: BBox): (e: Option<BboxError>)
    ensures e.None? <==> && -180.0 <= b.minLon <= 180.0 && -180.0 <= b.maxLon <= 180.0
                         && -90.0 <= b.minLat <= 90.0 && -90.0 <= b.maxLat <= 90.0
                         && b.minLon < b.maxLon && b.minLat < b.maxLat
    ensures e == Some(LatitudeOutOfRange) ==> -180.0 <= b.minLon <= 180.0 && -180.0 <= b.maxLon <= 180.0
    ensures e == Some(LongitudesNotOrdered) || e == Some(LatitudesNotOrdered) ==>
              -90.0 <= b.minLat <= 90.0 && -90.0 <= b.maxLat <= 90.0
  {
    if !(-180.0 <= b.minLon <= 180.0 && -180.0 <= b.maxLon <= 180.0) then Some(LongitudeOutOfRange)
    else if !(-90.0 <= b.minLat <= 90.0 && -90.0 <= b.maxLat <= 90.0) then Some(LatitudeOutOfRange)
    else if b.minLon >= b.maxLon then Some(LongitudesNotOrdered)
    else if b.minLat >= b.maxLat then Some(LatitudesNotOrdered)
    else None
  }

  predicate ValidateBbox(b: BBox) {
    CheckBbox(b).None?
  }

  /** Inclusive containment; an invalid location is never inside. */
  predicate InBbox(b: BBox, loc: Location) {
    loc.valid && b.minLon <= loc.lon <= b.maxLon && b.minLat <= loc.lat <= b.maxLat
  }

  /** A valid box contains its four corners, so no valid box is empty. */
  lemma ValidBoxContainsCorners(b: BBox)
    requires ValidateBbox(b)
    ensures InBbox(b, Location(true, b.minLon, b.minLat)) && InBbox(b, Location(true, b.maxLon, b.maxLat))
    ensures InBbox(b, Location(true, b.minLon, b.maxLat)) && InBbox(b, Location(true, b.maxLon, b.minLat))
  {
  }

  function KeptNodeIds(written: seq<OsmObject>): set<int> {
    set k | 0 <= k < |written| && written[k].NodeObject? :: written[k].node.id
  }

  class BBoxExtractor {
    const box: BBox
    var nodeCount: nat
    var wayCount: nat
    var relationCount: nat
    var nodesKept: nat
    var waysKept: nat
    var relationsKept: nat
    var nodesInBbox: set<int>
    /** What the writer has been given, in order. */
    var written: seq<OsmObject>

    /**
     * The bookkeeping agrees with the output: every written node lies in the box, the
     * kept-id set is the set of written node ids, every written way names a kept node,
     * and every relation seen has been kept.
     */
    ghost predicate Valid()
      reads this
    {
      && nodesKept <= nodeCount && waysKept <= wayCount && relationsKept == relationCount
      && nodesInBbox == KeptNodeIds(written)
      && (forall k :: 0 <= k < |written| && written[k].NodeObject? ==> InBbox(box, written[k].node.location))
      && (forall k :: 0 <= k < |written| && written[k].WayObject? ==>
            exists r :: r in written[k].way.nodeRefs && r in nodesInBbox)
    }

    constructor (b: BBox)
      ensures box == b && Valid()
      ensures nodeCount == wayCount == relationCount == 0
      ensures nodesKept == waysKept == relationsKept == 0
      ensures nodesInBbox == {} && written == []
    {
      box := b;
      nodeCount, wayCount, relationCount := 0, 0, 0;
      nodesKept, waysKept, relationsKept := 0, 0, 0;
      nodesInBbox := {};
      written := [];
    }

    /** `is_in_bbox`. */
    function IsInBbox(loc: Location): (inside: bool)
      ensures inside <==> loc.valid && box.minLon <= loc.lon <= box.maxLon && box.minLat <= loc.lat <= box.maxLat
    {
      InBbox(box, loc)
    }

    method HandleNode(n: Node)
      requires Valid()
      modifies this
      ensures Valid()
      ensures nodeCount == old(nodeCount) + 1
      ensures InBbox(box, n.location) ==> nodesKept == old(nodesKept) + 1 && nodesInBbox == old(nodesInBbox) + {n.id}
                                          && written == old(written) + [NodeObject(n)]
      ensures !InBbox(box, n.location) ==> nodesKept == old(nodesKept) && nodesInBbox == old(nodesInBbox)
                                           && written == old(written)
      ensures wayCount == old(wayCount) && waysKept == old(waysKept)
      ensures relationCount == old(relationCount) && relationsKept == old(relationsKept)
    {
      nodeCount := nodeCount + 1;
      if IsInBbox(n.location) {
        ghost var before := written;
        written := written + [NodeObject(n)];
        nodesInBbox := nodesInBbox + {n.id};
        nodesKept := nodesKept + 1;
        assert forall k :: 0 <= k < |before| ==> written[k] == before[k];
        assert KeptNodeIds(written) == KeptNodeIds(before) + {n.id} by {
          assert written[|before|] == NodeObject(n);
        }
      }
    }

    /** The scan of a way's node references, stopping at the first kept one. */
    method HasKeptNode(refs: seq<int>) returns (found: bool)
      ensures found <==> exists r :: r in refs && r in nodesInBbox
    {
      found := false;
      var i := 0;
      while i < |refs|
        invariant 0 <= i <= |refs|
        invariant forall j :: 0 <= j < i ==> refs[j] !in nodesInBbox
      {
        if refs[i] in nodesInBbox {
          ghost var r := refs[i];
          assert r in refs && r in nodesInBbox;
          found := true;
          return;
        }
        i := i + 1;
      }
    }

    method HandleWay(w: Way)
      requires Valid()
      modifies this
      ensures Valid()
      ensures wayCount == old(wayCount) + 1
      ensures (exists r :: r in w.nodeRefs && r in nodesInBbox) ==>
                waysKept == old(waysKept) + 1 && written == old(written) + [WayObject(w)]
      ensures !(exists r :: r in w.nodeRefs && r in nodesInBbox) ==>
                waysKept == old(waysKept) && written == old(written)
      ensures nodeCount == old(nodeCount) && nodesKept == old(nodesKept) && nodesInBbox == old(nodesInBbox)
      ensures relationCount == old(relationCount) && relationsKept == old(relationsKept)
    {
      wayCount := wayCount + 1;
      var keep := HasKeptNode(w.nodeRefs);
      if keep {
        ghost var before := written;
        written := written + [WayObject(w)];
        waysKept := waysKept + 1;
        assert forall k :: 0 <= k < |before| ==> written[k] == before[k];
        assert KeptNodeIds(written) == KeptNodeIds(before);
      }
    }

    method HandleRelation(r: Relation)
      requires Valid()
      modifies this
      ensures Valid()
      ensures relationCount == old(relationCount) + 1 && relationsKept == old(relationsKept) + 1
      ensures written == old(written) + [RelationObject(r)]
      ensures nodeCount == old(nodeCount) && nodesKept == old(nodesKept) && nodesInBbox == old(nodesInBbox)
      ensures wayCount == old(wayCount) && waysKept == old(waysKept)
    {
      relationCount := relationCount + 1;
      ghost var before := written;
      written := written + [RelationObject(r)];
      relationsKept := relationsKept + 1;
      assert forall k :: 0 <= k < |before| ==> written[k] == before[k];
      assert KeptNodeIds(written) == KeptNodeIds(before);
    }
  }
}
