/**
 * `PathService`: creates a path with its coordinates and image for a
 * member, all or nothing, and lists the stored paths. The path and
 * coordinate repositories are the sequences `paths` and `coordinates`;
 * each call is one atomic step.
 */
module PathServices {
  import opened Wrappers
  import opened Members
  import opened Paths

  /** One requested point: its sequence number and position, as sent. */
  datatype CoordinateDto = CoordinateDto(sequence: int, latitude: Double, longitude: Double)

  /** The request body of path creation. */
  datatype PathRequestDto = PathRequestDto(
    title: string,
    content: string,
    totalDistance: Double,
    difficulty: Difficulty,
    estimatedTime: string,
    coordinates: seq<CoordinateDto>)

  /** An uploaded file: `None` for a missing (null) part, otherwise its bytes. */
  type MultipartFile = Option<seq<Byte>>

  /** Whether an upload carries an image: a missing part and an empty one both do not. */
  predicate HasImage(file: MultipartFile): (b: bool)
    ensures file.None? ==> !b
    ensures file == Some([]) ==> !b
    ensures file.Some? && file.value != [] ==> b
  {
    file.Some? && |file.value| > 0
  }

  /** `mapCoordinateDtoToEntity`: a coordinate of `path` carrying the dto's values unchanged. */
  function MapCoordinateDtoToEntity(dto: CoordinateDto, path: Path): (c: Coordinate)
    ensures c.path == path
    ensures c.sequence == dto.sequence && c.latitude == dto.latitude && c.longitude == dto.longitude
  {
    Coordinate(path, dto.sequence, dto.latitude, dto.longitude)
  }

  /** The stream `map` over the request's coordinates, in request order. */
  function MapCoordinates(dtos: seq<CoordinateDto>, path: Path): (cs: seq<Coordinate>)
    ensures |cs| == |dtos|
    ensures forall i :: 0 <= i < |cs| ==>
      && cs[i].path == path
      && cs[i].sequence == dtos[i].sequence
      && cs[i].latitude == dtos[i].latitude
      && cs[i].longitude == dtos[i].longitude
  {
    if dtos == [] then []
    else [MapCoordinateDtoToEntity(dtos[0], path)] + MapCoordinates(dtos[1..], path)
  }

  /**
   * The stored coordinates of one path (the `mappedBy = "path"` side), in
   * this model's store order; the unordered JPA list promises no order.
   */
  function CoordinatesOf(store: seq<Coordinate>, path: Path): (r: seq<Coordinate>)
    ensures forall i :: 0 <= i < |r| ==> r[i] in store && r[i].path == path
    ensures forall i :: 0 <= i < |store| && store[i].path == path ==> store[i] in r
  {
    if store == [] then []
    else
      assert forall i :: 1 <= i < |store| ==> store[i] == store[1..][i - 1];
      if store[0].path == path then [store[0]] + CoordinatesOf(store[1..], path)
      else CoordinatesOf(store[1..], path)
  }

  /** What a client reads back of a coordinate: its sequence number and position. */
  function Points(cs: seq<Coordinate>): (ps: seq<CoordinateDto>)
    ensures |ps| == |cs|
  {
    seq(|cs|, i requires 0 <= i < |cs| => CoordinateDto(cs[i].sequence, cs[i].latitude, cs[i].longitude))
  }

  /** Selecting one path's coordinates distributes over appending to the store. */
  lemma {:induction false} CoordinatesOfAppend(a: seq<Coordinate>, b: seq<Coordinate>, path: Path)
    ensures CoordinatesOf(a + b, path) == CoordinatesOf(a, path) + CoordinatesOf(b, path)
  {
    if a == [] {
      assert a + b == b;
    } else {
      assert (a + b)[1..] == a[1..] + b;
      CoordinatesOfAppend(a[1..], b, path);
    }
  }

  /** All coordinates built for a path belong to it, so selecting them by that path gives them all. */
  lemma {:induction false} CoordinatesOfMapped(dtos: seq<CoordinateDto>, path: Path)
    ensures CoordinatesOf(MapCoordinates(dtos, path), path) == MapCoordinates(dtos, path)
  {
    if dtos != [] {
      var cs := MapCoordinates(dtos, path);
      assert cs[1..] == MapCoordinates(dtos[1..], path);
      CoordinatesOfMapped(dtos[1..], path);
    }
  }

  /** Reading back the coordinates built from a request gives the request's entries, in order. */
  lemma PointsOfMapped(dtos: seq<CoordinateDto>, path: Path)
    ensures Points(MapCoordinates(dtos, path)) == dtos
  {
  }

  /**
   * The coordinate round trip in this model's store: once a new path's
   * coordinates are appended to a store holding none of that path, the
   * path's coordinates read back as exactly the requested entries. The
   * order of that list is the store's insertion order, which this model
   * keeps but the unordered `mappedBy` list does not promise;
   * `CoordinateRoundTripUnordered` is the order-free statement.
   */
  lemma CoordinateRoundTrip(store: seq<Coordinate>, dtos: seq<CoordinateDto>, path: Path)
    requires forall i :: 0 <= i < |store| ==> store[i].path != path
    ensures Points(CoordinatesOf(store + MapCoordinates(dtos, path), path)) == dtos
  {
    CoordinatesOfAppend(store, MapCoordinates(dtos, path), path);
    CoordinatesOfMapped(dtos, path);
    var before := CoordinatesOf(store, path);
    assert before == [];
    PointsOfMapped(dtos, path);
  }

  /**
   * The round trip without order: the new path's coordinates read back as
   * the requested entries, each exactly as often as requested, whatever
   * order a reload gives them.
   */
  lemma CoordinateRoundTripUnordered(store: seq<Coordinate>, dtos: seq<CoordinateDto>, path: Path)
    requires forall i :: 0 <= i < |store| ==> store[i].path != path
    ensures multiset(Points(CoordinatesOf(store + MapCoordinates(dtos, path), path))) == multiset(dtos)
  {
    CoordinateRoundTrip(store, dtos, path);
  }

  /**
   * The path service over its repositories. `nextId` is the value the
   * path table's identity column assigns to the next insert.
   */
  class PathService {
    const members: Directory
    var paths: seq<Path>
    var coordinates: seq<Coordinate>
    var nextId: int

    /** Stored paths have distinct generated ids below `nextId`, and every coordinate belongs to a stored path. */
    ghost predicate Valid()
      reads this, paths
    {
      && (forall i :: 0 <= i < |paths| ==> paths[i].id.Some? && paths[i].id.value < nextId)
      && (forall i, j :: 0 <= i < j < |paths| ==> paths[i].id != paths[j].id)
      && (forall i :: 0 <= i < |coordinates| ==> coordinates[i].path in paths)
    }

    constructor (members: Directory)
      ensures Valid()
      ensures this.members == members && paths == [] && coordinates == []
    {
      this.members := members;
      paths := [];
      coordinates := [];
      nextId := 1;
    }

    /**
     * `addPath(request, memberId, pathImage)`: checks the member, then the
     * image; only then stores one new path, carrying the request's fields,
     * the member and the image bytes, and one coordinate per requested
     * entry. It answers `true` or fails; it never answers `false`. Its
     * frame (`modifies this`) keeps every stored path object as it was.
     */
    method AddPath(request: PathRequestDto, memberId: MemberId, pathImage: MultipartFile)
      returns (r: Result<bool, Error>)
      requires Valid()
      modifies this
      ensures Valid()
      ensures r.Success? ==> r.value
      ensures memberId !in members ==> r == Failure(MemberNotFound)
      ensures memberId in members && !HasImage(pathImage) ==> r == Failure(ImageNotFound)
      ensures r.Failure? ==> paths == old(paths) && coordinates == old(coordinates) && nextId == old(nextId)
      ensures memberId in members && HasImage(pathImage) ==>
        && r == Success(true)
        && |paths| == |old(paths)| + 1
        && paths[..|old(paths)|] == old(paths)
        && nextId == old(nextId) + 1
        && var p := paths[|old(paths)|];
        && fresh(p)
        && p.id == Some(old(nextId))
        && p.title == request.title && p.content == request.content
        && p.totalDistance == request.totalDistance && p.difficulty == request.difficulty
        && p.estimatedTime == request.estimatedTime && p.member == members[memberId]
        && p.pathImage == pathImage
        && coordinates == old(coordinates) + MapCoordinates(request.coordinates, p)
        && multiset(Points(CoordinatesOf(coordinates, p))) == multiset(request.coordinates)
        && Points(CoordinatesOf(coordinates, p)) == request.coordinates
    {
      var member := FindById(members, memberId);
      if member.None? {
        return Failure(MemberNotFound);
      }
      var newPath := new Path(request.title, request.content, request.totalDistance,
                              request.difficulty, request.estimatedTime, member.value);
      if HasImage(pathImage) {
        newPath.SetPathImage(pathImage.value);
      } else {
        return Failure(ImageNotFound);
      }
      assert newPath !in paths;
      SavePathWithCoordinates(newPath, request.coordinates);
      r := Success(true);
    }

    /**
     * The store half of `addPath`: the coordinate entities are built for the
     * new path, the path is inserted, then its coordinates. Read back by
     * path, they are the requested entries.
     */
    method SavePathWithCoordinates(path: Path, dtos: seq<CoordinateDto>)
      requires Valid() && path !in paths && path.id.None?
      modifies this, path`id
      ensures Valid()
      ensures paths == old(paths) + [path] && nextId == old(nextId) + 1
      ensures path.id == Some(old(nextId))
      ensures coordinates == old(coordinates) + MapCoordinates(dtos, path)
      ensures multiset(Points(CoordinatesOf(coordinates, path))) == multiset(dtos)
      ensures Points(CoordinatesOf(coordinates, path)) == dtos
    {
      var coordinatesList := MapCoordinates(dtos, path);
      assert forall i :: 0 <= i < |coordinates| ==> coordinates[i].path != path;
      CoordinateRoundTrip(coordinates, dtos, path);
      CoordinateRoundTripUnordered(coordinates, dtos, path);
      SavePath(path);
      SaveAllCoordinates(coordinatesList);
    }

    /** `pathRepository.save(path)`: inserts the path; the identity column gives it the next id. */
    method SavePath(path: Path)
      requires Valid() && path !in paths && path.id.None?
      modifies this, path`id
      ensures Valid()
      ensures paths == old(paths) + [path] && coordinates == old(coordinates)
      ensures path.id == Some(old(nextId)) && nextId == old(nextId) + 1
    {
      path.id := Some(nextId);
      nextId := nextId + 1;
      paths := paths + [path];
      assert forall i :: 0 <= i < |old(paths)| ==> paths[i] == old(paths)[i] && paths[i].id == old(paths[i].id);
    }

    /** `coordinateRepository.saveAll(list)`: appends the coordinates of stored paths, in order. */
    method SaveAllCoordinates(list: seq<Coordinate>)
      requires Valid()
      requires forall i :: 0 <= i < |list| ==> list[i].path in paths
      modifies this
      ensures Valid()
      ensures coordinates == old(coordinates) + list
      ensures paths == old(paths) && nextId == old(nextId)
    {
      coordinates := coordinates + list;
    }

    /** `getAllPaths`: every stored path, unfiltered, in store order. */
    method GetAllPaths() returns (r: seq<Path>)
      ensures r == paths
    {
      r := paths;
    }
  }
}
