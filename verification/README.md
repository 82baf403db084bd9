# Walking-Holic back end: exercise tracking and path creation, in Dafny

This project models the two services of the Walking-Holic fitness back end
that hold logic:

- **Exercise tracking** (`ExerciseService`). `save` upserts one record per
  (member, date). Saving again overwrites steps, duration and calories
  rather than adding to them. The range query returns a member's records
  between two dates, both ends included. The weekly view passes its bounds
  through. The monthly view runs from the 1st to the last day of the month,
  using Gregorian month lengths. The yearly view runs from 1 January to
  31 December and sums the records month by month, one entry per month
  that has data.
- **Path creation** (`PathService`). `addPath` checks the member, then the
  image. Only then does it store one `Path` with its image bytes and one
  `Coordinate` per requested entry. `getAllPaths` lists the stored paths.

The repositories are in-memory stores: `seq` fields of the two service
classes. The member directory is a finite map that is only read. Every
service call is one atomic step. `Path` is a class whose two setters change
one field each. Exercise records are values in the store sequence, so
updating one in place means replacing the element at its position.

Java's `int` is modelled as the subset type `Int32.Int`. `IntStream.sum()`
wraps at 32 bits; it is modelled as a left fold with wrapping addition,
which is proved equal to wrapping the exact sum once. The date arithmetic
is a model of the part of `java.time.LocalDate` that the code calls; a
`LocalDate` is a subset type of dates that exist on the calendar, so every
stored and requested date is a real day. The operations modelled are
`of`, `plusMonths`, `plusYears`, `minusDays(1)`, and the ordering. It uses
the supported year range, -999999999 to 999999999. A `DateTimeException`
becomes the error `DateTimeError`.

Files: `wrappers.dfy` (Option, Result), `int32.dfy`, `calendar.dfy`,
`members.dfy` (member lookup, error codes), `exercise_dto.dfy`,
`exercise_service.dfy`, `path.dfy`, `path_service.dfy`.

## Model

| member | source | states |
|---|---|---|
| `Members.FindById` | src/main/java/com/example/OpenSource/domain/exercise/service/ExerciseService.java:28-29 | The member is found exactly when the id is in the directory, and it carries that id |
| `ExerciseDtos.ToEntity` | src/main/java/com/example/OpenSource/domain/exercise/dto/ExerciseDto.java:15-23 | The new record has the dto's date, steps, duration and calories, and exactly the supplied member |
| `ExerciseDtos.OfToEntity` | src/main/java/com/example/OpenSource/domain/exercise/dto/ExerciseDto.java:15-23 | Reading a new record back as a dto gives the dto it was built from |
| `ExerciseDtos.ToEntityOf` | src/main/java/com/example/OpenSource/domain/exercise/dto/ExerciseDto.java:15-23 | Rebuilding a record from its dto and its owner gives the same record |
| `ExerciseDtos.Of` | src/main/java/com/example/OpenSource/domain/exercise/service/ExerciseService.java:50 | The dto carries the record's date and three metrics |
| `ExerciseDtos.Update` | src/main/java/com/example/OpenSource/domain/exercise/service/ExerciseService.java:36-38 | The three metrics are replaced by the dto's, not added to; the date and the owner stay |
| `ExerciseDtos.UpdateAgreesWithInsert` | src/main/java/com/example/OpenSource/domain/exercise/service/ExerciseService.java:36-42 | Updating a record with a same-date dto leaves what inserting that dto for the owner would |
| `ExerciseDtos.UpdateIdempotent` | src/main/java/com/example/OpenSource/domain/exercise/service/ExerciseService.java:38 | Updating with the record's own values changes nothing; a second update with the same dto changes nothing more |
| `Exercises.FindByMemberIdAndDate` | src/main/java/com/example/OpenSource/domain/exercise/service/ExerciseService.java:34 | The lookup finds a record with the (member, date) key, or reports that no record has that key. Taking the first match is a modelling choice: the derived query throws when two records match, and under unique keys there is only one (`FindUnique`) |
| `Exercises.FindUnique` | src/main/java/com/example/OpenSource/domain/exercise/service/ExerciseService.java:34 | When keys are unique, any record with the key is the one the lookup finds |
| `Exercises.Upsert` | src/main/java/com/example/OpenSource/domain/exercise/service/ExerciseService.java:33-43 | The store `save` leaves for a known member grows by at most one record; `UpsertWhenPresent`, `UpsertWhenAbsent` and the lemmas below state which record changes and how |
| `Exercises.ExerciseService.Save` | src/main/java/com/example/OpenSource/domain/exercise/service/ExerciseService.java:27-44 | Unknown member: fails with MemberNotFound and leaves the store unchanged. Otherwise the store becomes the upsert of the dto under (member, date), and keys stay unique |
| `Exercises.UpsertWhenPresent` | src/main/java/com/example/OpenSource/domain/exercise/service/ExerciseService.java:34-38 | If a record for (member, date) exists, the store keeps its length. That record gets the dto's metrics in place, and every other position is unchanged |
| `Exercises.UpsertWhenAbsent` | src/main/java/com/example/OpenSource/domain/exercise/service/ExerciseService.java:39-42 | If no record for (member, date) exists, exactly one record is appended: `toEntity(member)` of the dto |
| `Exercises.UpsertKeepsOtherKeys` | src/main/java/com/example/OpenSource/domain/exercise/service/ExerciseService.java:33-43 | The store grows by at most one. Records under other keys keep their position and values, and any new record has the saved key |
| `Exercises.UpsertKeepsOtherLookups` | src/main/java/com/example/OpenSource/domain/exercise/service/ExerciseService.java:33-43 | Looking up any other (member, date) gives the same answer before and after the save |
| `Exercises.UpsertPreservesUniqueKeys` | src/main/java/com/example/OpenSource/domain/exercise/service/ExerciseService.java:33-43 | At most one record per (member, date) before a save means at most one after it |
| `Exercises.UpsertLastSaveWins` | src/main/java/com/example/OpenSource/domain/exercise/service/ExerciseService.java:33-43 | After a save, the lookup for (member, date) finds a record whose date and metrics are exactly the saved dto |
| `Exercises.UpsertIdempotent` | src/main/java/com/example/OpenSource/domain/exercise/service/ExerciseService.java:33-43 | Saving the same dto twice leaves the same store as saving it once |
| `Exercises.FindByMemberIdAndDateBetween` | src/main/java/com/example/OpenSource/domain/exercise/service/ExerciseService.java:48 | A record is selected if and only if it is in the store, belongs to the member, and has start ≤ date ≤ end. Each selected record appears exactly as often as it is stored, and no other appears |
| `Exercises.RangeHasDistinctDates` | src/main/java/com/example/OpenSource/domain/exercise/service/ExerciseService.java:48 | When keys are unique, the records a range query selects all have different dates: one record per day at most |
| `Exercises.RangeBoundaries` | src/main/java/com/example/OpenSource/domain/exercise/service/ExerciseService.java:47-48 | Records dated exactly start or end are included. The day before start and the day after end are excluded |
| `Exercises.OfAll` | src/main/java/com/example/OpenSource/domain/exercise/service/ExerciseService.java:49-51 | The dto list has one entry per record, in order, each the dto of its record |
| `Exercises.ExerciseService.GetExerciseDataByDateRange` | src/main/java/com/example/OpenSource/domain/exercise/service/ExerciseService.java:47-52 | The dto of every record of the member dated in [start, end] is in the result, and every entry of the result is the dto of such a record. The result holds each selected record's dto exactly once per selected record, so its length is the number of matching records. With unique keys, no two entries share a date |
| `Exercises.ExerciseService.GetWeeklyExerciseData` | src/main/java/com/example/OpenSource/domain/exercise/service/ExerciseService.java:55-57 | The weekly view is the range query with the caller's bounds |
| `Calendar.LengthOfMonth` | src/main/java/com/example/OpenSource/domain/exercise/service/ExerciseService.java:62 | A month has between 28 and 31 days |
| `Calendar.LengthOfMonthCases` | src/main/java/com/example/OpenSource/domain/exercise/service/ExerciseService.java:62 | February has 29 days in a Gregorian leap year and 28 otherwise. April, June, September and November have 30; the other months have 31 |
| `Calendar.DateOf` | src/main/java/com/example/OpenSource/domain/exercise/service/ExerciseService.java:61 | `LocalDate.of` succeeds exactly for a valid date in the supported years, and returns that date |
| `Calendar.PlusMonths` | src/main/java/com/example/OpenSource/domain/exercise/service/ExerciseService.java:62 | Adding months to a valid date gives a valid date, or fails when the year leaves the supported range |
| `Calendar.PlusOneMonth` | src/main/java/com/example/OpenSource/domain/exercise/service/ExerciseService.java:62 | `plusMonths(1)` moves to the next month (December to January of the next year) and clamps the day. It fails only for December of the last supported year |
| `Calendar.PlusYears` | src/main/java/com/example/OpenSource/domain/exercise/service/ExerciseService.java:69 | Adding years to a valid date gives a valid date, or fails outside the supported years |
| `Calendar.MinusOneDay` | src/main/java/com/example/OpenSource/domain/exercise/service/ExerciseService.java:62 | `minusDays(1)` (here and at line 69) gives an earlier valid date, and fails exactly on 1 January of the first supported year |
| `Calendar.MinusOneDayIsPredecessor` | src/main/java/com/example/OpenSource/domain/exercise/service/ExerciseService.java:62 | No valid date lies strictly between `minusDays(1)`'s result and the date it started from |
| `Calendar.MonthBounds` | src/main/java/com/example/OpenSource/domain/exercise/service/ExerciseService.java:61-62 | `of(y, m, 1).plusMonths(1).minusDays(1)` is the month's last day (28/29/30/31). That day is valid and not before the 1st. The chain fails only for December of the last year |
| `Calendar.YearBounds` | src/main/java/com/example/OpenSource/domain/exercise/service/ExerciseService.java:68-69 | `of(y, 1, 1).plusYears(1).minusDays(1)` is 31 December of y; it fails only for the last supported year |
| `Exercises.ExerciseService.GetMonthlyExerciseData` | src/main/java/com/example/OpenSource/domain/exercise/service/ExerciseService.java:60-64 | Fails with a date error exactly for a month outside 1..12, a year outside range, or December of the last year. Otherwise it is the range query from the 1st to the month's last day |
| `Exercises.InMonth` | src/main/java/com/example/OpenSource/domain/exercise/service/ExerciseService.java:73-74 | A month's group holds exactly the dtos dated in that month, and is non-empty exactly when that month occurs |
| `Exercises.InMonthCounts` | src/main/java/com/example/OpenSource/domain/exercise/service/ExerciseService.java:73-74 | A month's group holds each dto of that month exactly as often as the input does, and no dto of another month |
| `Exercises.GroupByMonth` | src/main/java/com/example/OpenSource/domain/exercise/service/ExerciseService.java:73-74 | The grouping has a key for exactly the months that occur, and each key holds that month's non-empty group |
| `Exercises.GroupTotal` | src/main/java/com/example/OpenSource/domain/exercise/service/ExerciseService.java:82-91 | A group's total is dated the 1st of its month in the requested year; an empty group totals zero |
| `Exercises.MonthTotal` | src/main/java/com/example/OpenSource/domain/exercise/service/ExerciseService.java:79-91 | One month's summed dto is dated the 1st of that month; a month without data totals zero. `MonthTotalExact` gives its value when the sums fit in 32 bits |
| `Exercises.SumByMonth` | src/main/java/com/example/OpenSource/domain/exercise/service/ExerciseService.java:72-96 | The result meets the monthly-summary description: one entry per month with data, and no month twice. Each entry is dated the 1st and holds that month's summed metrics |
| `Exercises.ExerciseService.GetYearlyExerciseData` | src/main/java/com/example/OpenSource/domain/exercise/service/ExerciseService.java:67-97 | Fails with a date error exactly outside the supported years or for the last one. Otherwise it is the monthly summary of the member's records from 1 January to 31 December |
| `Exercises.MonthlySummaryUnique` | src/main/java/com/example/OpenSource/domain/exercise/service/ExerciseService.java:77-94 | Any two outputs meeting the summary description have the same length and the same entries, so the map's iteration order changes only the order |
| `Exercises.MonthlySummaryDates` | src/main/java/com/example/OpenSource/domain/exercise/service/ExerciseService.java:87 | Each summary entry is the 1st of its month, within the requested year |
| `Exercises.MonthTotalExact` | src/main/java/com/example/OpenSource/domain/exercise/service/ExerciseService.java:82-84 | When a month's metric sums fit in 32 bits, the entry holds the exact sums |
| `Exercises.YearlyExample` | src/main/java/com/example/OpenSource/domain/exercise/service/ExerciseService.java:72-96 | Records of 100 and 200 steps in January and 50 in February give exactly two entries, January with 300 steps and February with 50, and both of them appear |
| `Int32.StreamSumIsWrappedSum` | src/main/java/com/example/OpenSource/domain/exercise/service/ExerciseService.java:82-84 | Summing with a wrap after every addition equals the exact sum wrapped once to 32 bits |
| `Int32.StreamSum` | src/main/java/com/example/OpenSource/domain/exercise/service/ExerciseService.java:82-84 | `IntStream.sum()` differs from the exact sum by a multiple of 2^32 |
| `Int32.StreamSumExact` | src/main/java/com/example/OpenSource/domain/exercise/service/ExerciseService.java:82-84 | When the exact sum fits in an `int`, `IntStream.sum()` returns it unchanged |
| `Paths.ValueOf` | src/main/java/com/example/OpenSource/domain/path/domain/Path.java:47-49 | Only the three stored names 상, 중 and 하 read back as a difficulty, each as the constant of that name |
| `Paths.StoredDifficultyRoundTrip` | src/main/java/com/example/OpenSource/domain/path/domain/Path.java:47-49 | Every difficulty is stored as one of the three names and reads back as itself |
| `Paths.Path.constructor` | src/main/java/com/example/OpenSource/domain/path/domain/Path.java:34-63 | A built path has the given title, content, distance, difficulty, estimated time and member. It has no id, no coordinates and no image yet |
| `Paths.Path.SetCoordinates` | src/main/java/com/example/OpenSource/domain/path/domain/Path.java:65-67 | Afterwards `coordinates` is exactly the list given. No other field changes, including `id` |
| `Paths.Path.SetPathImage` | src/main/java/com/example/OpenSource/domain/path/domain/Path.java:69-71 | Afterwards `pathImage` holds exactly the bytes given. No other field changes, including `id` |
| `PathServices.HasImage` | src/main/java/com/example/OpenSource/domain/path/service/PathService.java:41 | A missing (null) upload and an empty one are not an image; any non-empty upload is |
| `PathServices.MapCoordinateDtoToEntity` | src/main/java/com/example/OpenSource/domain/path/service/PathService.java:66-73 | The coordinate references the given path and carries the dto's sequence, latitude and longitude unchanged |
| `PathServices.MapCoordinates` | src/main/java/com/example/OpenSource/domain/path/service/PathService.java:47-49 | The built list has the request's length and order. Entry i references the path and carries entry i's sequence, latitude and longitude |
| `PathServices.CoordinatesOf` | src/main/java/com/example/OpenSource/domain/path/domain/Path.java:54-55 | A path's coordinates are exactly the stored coordinates that reference it; the list follows this model's store order |
| `PathServices.CoordinatesOfAppend` | src/main/java/com/example/OpenSource/domain/path/domain/Path.java:54-55 | Selecting a path's coordinates distributes over appending to the store |
| `PathServices.CoordinatesOfMapped` | src/main/java/com/example/OpenSource/domain/path/service/PathService.java:47-49 | Every coordinate built for a path is selected back by that path, in order |
| `PathServices.PointsOfMapped` | src/main/java/com/example/OpenSource/domain/path/service/PathService.java:66-73 | Reading back the built coordinates' sequence and position gives the request entries |
| `PathServices.CoordinateRoundTrip` | src/main/java/com/example/OpenSource/domain/path/service/PathService.java:47-52 | After a new path's coordinates are appended to a store with none of its own, its coordinates read back as the request's entries. The order matches only because this model's store keeps insertion order |
| `PathServices.CoordinateRoundTripUnordered` | src/main/java/com/example/OpenSource/domain/path/service/PathService.java:47-52 | The same round trip without order: each requested entry reads back exactly as often as it was requested, and nothing else reads back |
| `PathServices.PathService.AddPath` | src/main/java/com/example/OpenSource/domain/path/service/PathService.java:35-55 | Unknown member: MemberNotFound. Missing or empty image: ImageNotFound. Either failure stores nothing. Success returns true, never false, adds one fresh path and one coordinate per entry, and the path carries the request, member, id and image. The path's coordinates read back as the requested entries, each exactly as often as requested (in request order in this model's store) |
| `PathServices.PathService.SavePathWithCoordinates` | src/main/java/com/example/OpenSource/domain/path/service/PathService.java:47-52 | The new path is inserted with the next id, its coordinates are appended, and read back by path they are the requested entries, each exactly as often as requested |
| `PathServices.PathService.SavePath` | src/main/java/com/example/OpenSource/domain/path/service/PathService.java:51 | Inserting a path appends it and gives it the next generated id; ids stay distinct |
| `PathServices.PathService.SaveAllCoordinates` | src/main/java/com/example/OpenSource/domain/path/service/PathService.java:52 | Bulk insert appends the coordinates in order, and each one belongs to a stored path |
| `PathServices.PathService.GetAllPaths` | src/main/java/com/example/OpenSource/domain/path/service/PathService.java:75-77 | The result is every stored path, unfiltered and in store order |

## Left out

- Spring and JPA machinery is not modelled: `@Service`, `@Transactional`, entity and column mappings, and query derivation. The repositories are in-memory sequences, and each call is one atomic step. All-or-nothing holds because a failing call writes nothing.
- The check-then-insert race in `save` under concurrent requests is not modelled; the model is sequential.
- `SerialBlob`, `MultipartFile.getBytes` and the `SQLException`/`IOException` wrapped into a `RuntimeException` are foreign I/O and are left out. An image is an optional byte sequence, and the stored blob is its bytes.
- `totalDistance`, `latitude` and `longitude` are Java `double`s. They are kept as opaque 64-bit values, because the code only copies them.
- The member subsystem is only a lookup in a read-only map. A `null` member id, on which `findById` throws, is not modelled.
- `Exercise.java`, `Coordinate.java`, `CoordinateDto.java`, `PathRequestDto.java`, `Difficulty.java` and `ErrorCode.java` are not part of this model. `Exercise.update` overwrites the three metrics. `ExerciseDto::of`, `ExerciseDto.builder()` and `PathRequestDto.toPath(member)` are field-by-field constructors. `toPath` leaves the id, coordinates and image unset, and the difficulty constants are assumed to be named 상, 중, 하 (the names `Name`, `ValueOf` and `StoredDifficultyRoundTrip` rely on).
- `addPath` never calls `setCoordinates`, so the in-memory path keeps the list `toPath` gave it. A path's coordinates are read from the coordinate store by their `path` reference (`CoordinatesOf`).
- `PathServices.CoordinatesOf`: reads follow the store's insertion order, which the unordered `mappedBy` list of `Path.coordinates` (no `@OrderBy`, no `@OrderColumn`) does not promise. What the source promises is the order-free round trip (`CoordinateRoundTripUnordered`, the multiset clause of `AddPath`); the ordered form holds only for this model's store.
- Cascade and orphan removal of coordinates when a path is deleted are left out: no operation here deletes a path.
- Jackson annotations and Lombok getters are left out.
- `Exercises.ExerciseService.GetExerciseDataByDateRange`: the repository promises no order, so the contract states which dtos the result holds and how often, but not their order (the model itself keeps store order). `GetYearlyExerciseData` likewise promises no order across months, as with the `HashMap` in the source.
- A `null` date in an `ExerciseDto` is not modelled; every date is a value.
