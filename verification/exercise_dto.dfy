/**
 * The exercise record (`Exercise`) and its transfer object (`ExerciseDto`),
 * with the conversions between them: `toEntity(member)`, `ExerciseDto::of`
 * and `Exercise.update(dto)`. The builders are the datatype constructors.
 */
module ExerciseDtos {
  import opened Calendar
  import opened Members
  import Int32

  /** One day's activity for one member. */
  datatype Exercise = Exercise(
    date: LocalDate,
    steps: Int32.Int,
    durationMinutes: Int32.Int,
    caloriesBurned: Int32.Int,
    member: Member)

  /** The same metrics without an owner. */
  datatype ExerciseDto = ExerciseDto(
    date: LocalDate,
    steps: Int32.Int,
    durationMinutes: Int32.Int,
    caloriesBurned: Int32.Int)

  /** `ExerciseDto.toEntity(member)`: a new record owned by `member`. */
  function ToEntity(dto: ExerciseDto, member: Member): (e: Exercise)
    ensures e.date == dto.date
    ensures e.steps == dto.steps && e.durationMinutes == dto.durationMinutes
    ensures e.caloriesBurned == dto.caloriesBurned
    ensures e.member == member
  {
    Exercise(dto.date, dto.steps, dto.durationMinutes, dto.caloriesBurned, member)
  }

  /** `ExerciseDto::of(exercise)`: the record's date and metrics, without its owner. */
  function Of(e: Exercise): (dto: ExerciseDto)
    ensures dto.date == e.date
    ensures dto.steps == e.steps && dto.durationMinutes == e.durationMinutes
    ensures dto.caloriesBurned == e.caloriesBurned
  {
    ExerciseDto(e.date, e.steps, e.durationMinutes, e.caloriesBurned)
  }

  /**
   * `Exercise.update(dto)`: the three metrics are overwritten (not added to);
   * the date and the owner stay.
   */
  function Update(e: Exercise, dto: ExerciseDto): (u: Exercise)
    ensures u.date == e.date && u.member == e.member
    ensures u.steps == dto.steps && u.durationMinutes == dto.durationMinutes
    ensures u.caloriesBurned == dto.caloriesBurned
  {
    e.(steps := dto.steps, durationMinutes := dto.durationMinutes, caloriesBurned := dto.caloriesBurned)
  }

  /** Reading back a record built from a dto gives that dto. */
  lemma OfToEntity(dto: ExerciseDto, member: Member)
    ensures Of(ToEntity(dto, member)) == dto
  {
  }

  /** Rebuilding a record from its dto and its owner gives the record. */
  lemma ToEntityOf(e: Exercise)
    ensures ToEntity(Of(e), e.member) == e
  {
  }

  /** Updating a record with a dto of the same date leaves exactly what inserting that dto would. */
  lemma UpdateAgreesWithInsert(e: Exercise, dto: ExerciseDto)
    requires dto.date == e.date
    ensures Update(e, dto) == ToEntity(dto, e.member)
  {
  }

  /** Updating with a record's own dto changes nothing, and a second update with the same dto neither. */
  lemma UpdateIdempotent(e: Exercise, dto: ExerciseDto)
    ensures Update(e, Of(e)) == e
    ensures Update(Update(e, dto), dto) == Update(e, dto)
  {
  }
}
