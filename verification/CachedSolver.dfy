/** The incremental image-source solver (ism/cached_solver.go). A room is known by its content, which
    is what its hash stands for; a mesh also by the object that holds it. */
module CachedSolver {
  import opened Vectors
  import opened Wrappers

  /** What the room hash covers. */
  datatype Room = Shoebox(dims: Vec3, materials: seq<string>) | MeshRoom(triangles: seq<Vec3>, meshMaterials: seq<string>)

  datatype RoomKind = NoRoom | ShoeboxKind | MeshKind

  datatype Scene = Scene(room: Room, meshObject: nat, sources: seq<Vec3>, receivers: seq<Vec3>)

  /** The generators of image sources of type `I` and `M` and of plane maps of type `P`. */
  datatype Generators<I, M, !P> = Generators(
    shoeboxImages: (Vec3, Room, int) -> seq<I>,
    planeMap: Room -> P,
    meshImages: (Vec3, Room, int, real, P) -> seq<M>,
    maxDistance: (Scene, real) -> real)

  /** The image sources an evaluation uses: one list per source, and the plane map of a mesh. */
  datatype Solution<I, M, P> = ShoeboxSolution(images: seq<seq<I>>) | MeshSolution(meshImages: seq<seq<M>>, planes: P) | NoSolution

  const SPEED_OF_SOUND: real := 343.0

  function SpeedOr(speed: real): real {
    if speed <= 0.0 then SPEED_OF_SOUND else speed
  }

  predicate Solvable(sc: Scene, maxOrder: int, diffractionOrder: int) {
    maxOrder >= 0 && 0 <= diffractionOrder <= 2 && |sc.sources| > 0 && |sc.receivers| == 1
  }

  // ---------- What a fresh solver generates ----------

  function FreshShoebox<I, M, P>(g: Generators<I, M, P>, sources: seq<Vec3>, room: Room, order: int): (r: seq<seq<I>>)
    ensures |r| == |sources| && forall i | 0 <= i < |r| :: r[i] == g.shoeboxImages(sources[i], room, order)
  {
    seq(|sources|, i requires 0 <= i < |sources| => g.shoeboxImages(sources[i], room, order))
  }

  function FreshMesh<I, M, P>(g: Generators<I, M, P>, sources: seq<Vec3>, room: Room, order: int, distance: real): (r: seq<seq<M>>)
    ensures |r| == |sources| && forall i | 0 <= i < |r| :: r[i] == g.meshImages(sources[i], room, order, distance, g.planeMap(room))
  {
    seq(|sources|, i requires 0 <= i < |sources| => g.meshImages(sources[i], room, order, distance, g.planeMap(room)))
  }

  /** What a solver without memory gives: nothing outside the supported orders and for other than one
      receiver; images for every source, on a mesh as far as sound of the given or else the standard
      speed gets. */
  function Fresh<I, M, P>(g: Generators<I, M, P>, sc: Scene, maxOrder: int, diffractionOrder: int, speed: real): (r: Solution<I, M, P>)
    ensures r.NoSolution? <==> maxOrder < 0 || diffractionOrder < 0 || diffractionOrder > 2 || sc.sources == [] || |sc.receivers| != 1
    ensures r.ShoeboxSolution? ==> sc.room.Shoebox? && r.images == FreshShoebox(g, sc.sources, sc.room, maxOrder)
    ensures r.MeshSolution? ==>
              && sc.room.MeshRoom? && r.planes == g.planeMap(sc.room)
              && r.meshImages == FreshMesh(g, sc.sources, sc.room, maxOrder, g.maxDistance(sc, if speed > 0.0 then speed else 343.0))
  {
    if !Solvable(sc, maxOrder, diffractionOrder) then NoSolution
    else if sc.room.Shoebox? then ShoeboxSolution(FreshShoebox(g, sc.sources, sc.room, maxOrder))
    else MeshSolution(FreshMesh(g, sc.sources, sc.room, maxOrder, g.maxDistance(sc, SpeedOr(speed))), g.planeMap(sc.room))
  }

  class CachedISMSolver<I, M, P> {
    const g: Generators<I, M, P>
    var shoeboxCache: Option<seq<seq<I>>>
    var lastSourcePosSbx: seq<Vec3>
    var meshCache: Option<seq<seq<M>>>
    var lastMesh: Option<nat>
    var lastSourcePosMsh: seq<Vec3>
    var lastMeshMaxDist: real
    var meshPPM: Option<P>
    var lastRoom: Room
    var lastMaxOrder: int
    var lastRoomKind: RoomKind

    /** Whatever is cached is what the generators give for the last seen room, order and positions. */
    ghost predicate Valid()
      reads this
    {
      && (lastRoomKind == ShoeboxKind ==> lastRoom.Shoebox?) && (lastRoomKind == MeshKind ==> lastRoom.MeshRoom?)
      && (shoeboxCache.Some? && lastRoomKind == ShoeboxKind ==> shoeboxCache.value == FreshShoebox(g, lastSourcePosSbx, lastRoom, lastMaxOrder))
      && (meshCache.Some? && lastRoomKind == MeshKind ==> meshCache.value == FreshMesh(g, lastSourcePosMsh, lastRoom, lastMaxOrder, lastMeshMaxDist))
      && (meshPPM.Some? && lastRoomKind == MeshKind ==> meshPPM.value == g.planeMap(lastRoom))
    }

    ghost predicate NoShoebox()
      reads this
    {
      shoeboxCache.None? && lastSourcePosSbx == []
    }

    ghost predicate NoMesh()
      reads this
    {
      meshCache.None? && lastMesh.None? && lastSourcePosMsh == []
    }

    constructor (g: Generators<I, M, P>)
      ensures Valid() && this.g == g
      ensures NoShoebox() && NoMesh() && meshPPM.None? && lastRoomKind == NoRoom
    {
      this.g := g;
      shoeboxCache, lastSourcePosSbx, meshCache, lastMesh, lastSourcePosMsh := None, [], None, None, [];
      lastMeshMaxDist, meshPPM, lastRoom, lastMaxOrder, lastRoomKind := 0.0, None, Shoebox(ZERO, []), 0, NoRoom;
    }

    /** Forgets everything. */
    method Invalidate()
      modifies this
      ensures Valid() && NoShoebox() && NoMesh() && meshPPM.None? && lastRoomKind == NoRoom
    {
      shoeboxCache, lastSourcePosSbx, meshCache, lastMesh, lastSourcePosMsh := None, [], None, None, [];
      lastMeshMaxDist, meshPPM, lastRoom, lastMaxOrder, lastRoomKind := 0.0, None, Shoebox(ZERO, []), 0, NoRoom;
    }

    method SolveShoebox(sc: Scene, maxOrder: int) returns (images: seq<seq<I>>)
      requires Valid() && sc.room.Shoebox?
      modifies this
      ensures Valid() && images == FreshShoebox(g, sc.sources, sc.room, maxOrder)
      ensures shoeboxCache == Some(images) && lastRoom == sc.room && lastRoomKind == ShoeboxKind && lastSourcePosSbx == sc.sources
      ensures lastMaxOrder == maxOrder && NoMesh()
    {
      var same := lastRoomKind == ShoeboxKind && lastRoom == sc.room && lastMaxOrder == maxOrder
                       && shoeboxCache.Some? && |shoeboxCache.value| == |sc.sources|;
      images := if same then shoeboxCache.value else seq(|sc.sources|, _ => []);
      for i := 0 to |sc.sources|
        invariant |images| == |sc.sources|
        invariant forall j | 0 <= j < i :: images[j] == g.shoeboxImages(sc.sources[j], sc.room, maxOrder)
        invariant same ==> forall j | i <= j < |images| :: images[j] == shoeboxCache.value[j]
      {
        if !(same && i < |lastSourcePosSbx| && lastSourcePosSbx[i] == sc.sources[i]) {
          images := images[i := g.shoeboxImages(sc.sources[i], sc.room, maxOrder)];
        }
      }
      assert images == FreshShoebox(g, sc.sources, sc.room, maxOrder);
      shoeboxCache := Some(images);
      lastRoom, lastMaxOrder, lastRoomKind, lastSourcePosSbx := sc.room, maxOrder, ShoeboxKind, sc.sources;
      meshCache, lastMesh, lastSourcePosMsh := None, None, [];
    }

    /** The plane map of the room, kept while room and mesh object stay the same. */
    method PlanesFor(sc: Scene) returns (planes: P)
      requires Valid() && sc.room.MeshRoom?
      ensures planes == g.planeMap(sc.room)
    {
      if meshPPM.None? || lastRoomKind != MeshKind || lastRoom != sc.room || lastMesh != Some(sc.meshObject) {
        planes := g.planeMap(sc.room);
      } else {
        planes := meshPPM.value;
      }
    }

    /** The image sources of every source, regenerating only those that may have changed. */
    method MeshImagesFor(sc: Scene, maxOrder: int, distance: real, planes: P) returns (images: seq<seq<M>>)
      requires Valid() && sc.room.MeshRoom? && planes == g.planeMap(sc.room)
      ensures images == FreshMesh(g, sc.sources, sc.room, maxOrder, distance)
    {
      var same := lastRoomKind == MeshKind && lastRoom == sc.room && lastMaxOrder == maxOrder && lastMeshMaxDist == distance
                  && meshCache.Some? && |meshCache.value| == |sc.sources|;
      images := if same then meshCache.value else seq(|sc.sources|, _ => []);
      for i := 0 to |sc.sources|
        invariant |images| == |sc.sources|
        invariant forall j | 0 <= j < i :: images[j] == g.meshImages(sc.sources[j], sc.room, maxOrder, distance, planes)
        invariant same ==> forall j | i <= j < |images| :: images[j] == meshCache.value[j]
      {
        if !(same && i < |lastSourcePosMsh| && lastSourcePosMsh[i] == sc.sources[i]) {
          images := images[i := g.meshImages(sc.sources[i], sc.room, maxOrder, distance, planes)];
        }
      }
    }

    method SolveMesh(sc: Scene, maxOrder: int, speed: real) returns (images: seq<seq<M>>, planes: P)
      requires Valid() && sc.room.MeshRoom?
      modifies this
      ensures Valid() && planes == g.planeMap(sc.room)
      ensures images == FreshMesh(g, sc.sources, sc.room, maxOrder, g.maxDistance(sc, SpeedOr(speed)))
      ensures meshCache == Some(images) && meshPPM == Some(planes) && lastRoom == sc.room && lastRoomKind == MeshKind && lastSourcePosMsh == sc.sources
      ensures lastMaxOrder == maxOrder && lastMesh == Some(sc.meshObject) && NoShoebox()
    {
      hide FreshMesh, FreshShoebox, Valid;
      planes := PlanesFor(sc);
      var distance := g.maxDistance(sc, SpeedOr(speed));
      images := MeshImagesFor(sc, maxOrder, distance, planes);
      RememberMesh(sc, maxOrder, distance, images, planes);
    }

    method RememberMesh(sc: Scene, maxOrder: int, distance: real, images: seq<seq<M>>, planes: P)
      requires sc.room.MeshRoom? && planes == g.planeMap(sc.room) && images == FreshMesh(g, sc.sources, sc.room, maxOrder, distance)
      modifies this
      ensures Valid()
      ensures meshCache == Some(images) && meshPPM == Some(planes) && lastRoom == sc.room && lastRoomKind == MeshKind && lastSourcePosMsh == sc.sources
      ensures lastMaxOrder == maxOrder && lastMesh == Some(sc.meshObject) && lastMeshMaxDist == distance && NoShoebox()
    {
      hide FreshShoebox;
      shoeboxCache, lastSourcePosSbx := None, [];
      meshCache, meshPPM := Some(images), Some(planes);
      lastRoom, lastMaxOrder, lastRoomKind, lastSourcePosMsh, lastMesh, lastMeshMaxDist :=
        sc.room, maxOrder, MeshKind, sc.sources, Some(sc.meshObject), distance;
    }

    /** Whatever was solved or invalidated before, the solution is the one a fresh solver generates. */
    method Solve(sc: Scene, maxOrder: int, diffractionOrder: int, speed: real) returns (r: Solution<I, M, P>)
      requires Valid()
      modifies this
      ensures Valid() && r == Fresh(g, sc, maxOrder, diffractionOrder, speed)
    {
      if !Solvable(sc, maxOrder, diffractionOrder) {
        return NoSolution;
      }
      if sc.room.Shoebox? {
        var images := SolveShoebox(sc, maxOrder);
        r := ShoeboxSolution(images);
      } else {
        var images, planes := SolveMesh(sc, maxOrder, speed);
        r := MeshSolution(images, planes);
      }
    }
  }

  // ---------- Histories ----------

  datatype Call = SolveCall(sc: Scene, maxOrder: int, diffractionOrder: int, speed: real) | InvalidateCall

  /** Runs any history of calls: every solution is the fresh one for its own call. */
  method Run<I, M, P>(g: Generators<I, M, P>, calls: seq<Call>) returns (results: seq<Solution<I, M, P>>)
    ensures |results| == |calls|
    ensures forall k | 0 <= k < |calls| ::
              results[k] == if calls[k].InvalidateCall? then NoSolution
                            else Fresh(g, calls[k].sc, calls[k].maxOrder, calls[k].diffractionOrder, calls[k].speed)
  {
    hide Fresh, CachedISMSolver.Valid;
    var solver := new CachedISMSolver(g);
    results := [];
    for k := 0 to |calls|
      invariant solver.Valid() && fresh(solver) && solver.g == g && |results| == k
      invariant forall j | 0 <= j < k ::
                  results[j] == if calls[j].InvalidateCall? then NoSolution
                                else Fresh(g, calls[j].sc, calls[j].maxOrder, calls[j].diffractionOrder, calls[j].speed)
    {
      match calls[k]
      case InvalidateCall =>
        solver.Invalidate();
        results := results + [NoSolution];
      case SolveCall(sc, maxOrder, diffractionOrder, speed) =>
        var r := solver.Solve(sc, maxOrder, diffractionOrder, speed);
        results := results + [r];
    }
  }
}
