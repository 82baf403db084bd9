/**
 * The `Path` record: a member's route with its metadata, its ordered
 * coordinates and its image. Its `id` is generated by the store on insert
 * and never updated; `coordinates` and `pathImage` have setters.
 */
module Paths {
  import opened Wrappers
  import opened Members

  /** A Java `double`, kept as its 64 bits: nothing here computes with one. */
  datatype Double = Double(bits: bv64)

  type Byte = bv8

  /**
   * `Difficulty`, persisted by name (`@Enumerated(EnumType.STRING)`). The
   * three constant names 상 (high), 중 (medium) and 하 (low) are an assumption
   * of this model: the enum's own source is not part of it.
   */
  datatype Difficulty = High | Medium | Low

  /** The name a difficulty is stored under (the assumed constant names above). */
  function Name(d: Difficulty): string {
    match d
    case High => "상"
    case Medium => "중"
    case Low => "하"
  }

  /** `Difficulty.valueOf`: reading a stored name back; any other text is rejected. */
  function ValueOf(s: string): (r: Option<Difficulty>)
    ensures r.Some? ==> Name(r.value) == s
    ensures r.None? <==> s !in {"상", "중", "하"}
  {
    if s == "상" then Some(High)
    else if s == "중" then Some(Medium)
    else if s == "하" then Some(Low)
    else None
  }

  /** Every difficulty is stored as one of the three names, and reads back as itself. */
  lemma StoredDifficultyRoundTrip(d: Difficulty)
    ensures Name(d) in {"상", "중", "하"}
    ensures ValueOf(Name(d)) == Some(d)
  {
  }

  /** One point of a route, owned by the path it references. */
  datatype Coordinate = Coordinate(path: Path, sequence: int, latitude: Double, longitude: Double)

  class Path {
    var id: Option<int>
    var title: string
    var content: string
    var totalDistance: Double
    var difficulty: Difficulty
    var estimatedTime: string
    var coordinates: seq<Coordinate>
    var member: Member
    var pathImage: Option<seq<Byte>>

    /** The builder as `PathRequestDto.toPath(member)` uses it: no id, no coordinates, no image yet. */
    constructor (title: string, content: string, totalDistance: Double, difficulty: Difficulty,
                 estimatedTime: string, member: Member)
      ensures this.id == None
      ensures this.title == title && this.content == content
      ensures this.totalDistance == totalDistance && this.difficulty == difficulty
      ensures this.estimatedTime == estimatedTime && this.member == member
      ensures this.coordinates == [] && this.pathImage == None
    {
      this.id := None;
      this.title := title;
      this.content := content;
      this.totalDistance := totalDistance;
      this.difficulty := difficulty;
      this.estimatedTime := estimatedTime;
      this.coordinates := [];
      this.member := member;
      this.pathImage := None;
    }

    /** `setCoordinates`: replaces the coordinate list and nothing else. */
    method SetCoordinates(savedCoordinates: seq<Coordinate>)
      modifies this`coordinates
      ensures coordinates == savedCoordinates
      ensures id == old(id) && title == old(title) && content == old(content)
      ensures totalDistance == old(totalDistance) && difficulty == old(difficulty)
      ensures estimatedTime == old(estimatedTime) && member == old(member)
      ensures pathImage == old(pathImage)
    {
      coordinates := savedCoordinates;
    }

    /** `setPathImage`: stores the image bytes and changes nothing else. */
    method SetPathImage(image: seq<Byte>)
      modifies this`pathImage
      ensures pathImage == Some(image)
      ensures id == old(id) && title == old(title) && content == old(content)
      ensures totalDistance == old(totalDistance) && difficulty == old(difficulty)
      ensures estimatedTime == old(estimatedTime) && member == old(member)
      ensures coordinates == old(coordinates)
    {
      pathImage := Some(image);
    }
  }
}
