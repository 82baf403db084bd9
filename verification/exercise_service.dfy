/**
 * `ExerciseService`: the per-member, per-day exercise store. `save` is an
 * upsert keyed on (member, date); the queries select a member's records in
 * an inclusive date range, and the yearly view sums them month by month.
 * The repository is the sequence `exercises`; each call is one atomic step.
 */
module Exercises {
  import opened Wrappers
  import opened Calendar
  import opened Members
  import opened ExerciseDtos
  import Int32

  /** The key `findByMemberIdAndDate` looks a record up by. */
  predicate HasKey(e: Exercise, memberId: MemberId, date: Date) {
    e.member.id == memberId && e.date == date
  }

  /** At most one record per (member, date). */
  ghost predicate UniqueKeys(s: seq<Exercise>) {
    forall i, j :: 0 <= i < j < |s| && s[i].member.id == s[j].member.id ==> s[i].date != s[j].date
  }

  /**
   * `exerciseRepository.findByMemberIdAndDate`: the position of a record
   * with the key, or `None` (Java's `null`) when there is none. Taking the
   * first match is a choice of this model (the derived query itself throws
   * when two records match); under `UniqueKeys` there is at most one, and
   * `FindUnique` shows the choice makes no difference there.
   */
  function FindByMemberIdAndDate(s: seq<Exercise>, memberId: MemberId, date: Date): (r: Option<nat>)
    ensures r.Some? ==> r.value < |s| && HasKey(s[r.value], memberId, date)
    ensures r.Some? ==> forall i :: 0 <= i < r.value ==> !HasKey(s[i], memberId, date)
    ensures r.None? ==> forall i :: 0 <= i < |s| ==> !HasKey(s[i], memberId, date)
  {
    if s == [] then None
    else if HasKey(s[0], memberId, date) then Some(0)
    else match FindByMemberIdAndDate(s[1..], memberId, date)
      case None => None
      case Some(i) => Some(i + 1)
  }

  /** Under `UniqueKeys`, a record with the key is the one the lookup finds. */
  lemma FindUnique(s: seq<Exercise>, memberId: MemberId, date: Date, i: nat)
    requires UniqueKeys(s) && i < |s| && HasKey(s[i], memberId, date)
    ensures FindByMemberIdAndDate(s, memberId, date) == Some(i)
  {
  }

  /** The state `save` leaves for a resolved member: update the record with the key, or append a new one. */
  function Upsert(s: seq<Exercise>, member: Member, dto: ExerciseDto): (r: seq<Exercise>)
    ensures |s| <= |r| <= |s| + 1
  {
    match FindByMemberIdAndDate(s, member.id, dto.date)
    case Some(i) => s[i := Update(s[i], dto)]
    case None => s + [ToEntity(dto, member)]
  }

  /** With a record for (member, date) already stored, `save` overwrites its metrics where it stands and adds nothing. */
  lemma UpsertWhenPresent(s: seq<Exercise>, member: Member, dto: ExerciseDto, i: nat)
    requires UniqueKeys(s) && i < |s| && HasKey(s[i], member.id, dto.date)
    ensures |Upsert(s, member, dto)| == |s|
    ensures Upsert(s, member, dto)[i] == ToEntity(dto, s[i].member)
    ensures forall j :: 0 <= j < |s| && j != i ==> Upsert(s, member, dto)[j] == s[j]
  {
  }

  /** With no record for (member, date), `save` appends exactly one record owned by the member. */
  lemma UpsertWhenAbsent(s: seq<Exercise>, member: Member, dto: ExerciseDto)
    requires forall i :: 0 <= i < |s| ==> !HasKey(s[i], member.id, dto.date)
    ensures Upsert(s, member, dto) == s + [ToEntity(dto, member)]
  {
  }

  /** Records under any other key keep their position and their values. */
  lemma UpsertKeepsOtherKeys(s: seq<Exercise>, member: Member, dto: ExerciseDto)
    ensures |s| <= |Upsert(s, member, dto)| <= |s| + 1
    ensures forall j :: 0 <= j < |s| && !HasKey(s[j], member.id, dto.date) ==> Upsert(s, member, dto)[j] == s[j]
    ensures forall j :: |s| <= j < |Upsert(s, member, dto)| ==> HasKey(Upsert(s, member, dto)[j], member.id, dto.date)
  {
  }

  /** `save` keeps at most one record per (member, date). */
  lemma UpsertPreservesUniqueKeys(s: seq<Exercise>, member: Member, dto: ExerciseDto)
    requires UniqueKeys(s)
    ensures UniqueKeys(Upsert(s, member, dto))
  {
  }

  /**
   * The last save wins: afterwards the lookup finds a record for
   * (member, date) carrying exactly the saved date and metrics.
   */
  lemma UpsertLastSaveWins(s: seq<Exercise>, member: Member, dto: ExerciseDto)
    ensures var r := Upsert(s, member, dto);
      && FindByMemberIdAndDate(r, member.id, dto.date).Some?
      && Of(r[FindByMemberIdAndDate(r, member.id, dto.date).value]) == dto
  {
    var r := Upsert(s, member, dto);
    match FindByMemberIdAndDate(s, member.id, dto.date)
    case Some(i) =>
      assert HasKey(r[i], member.id, dto.date);
      assert forall j :: 0 <= j < i ==> r[j] == s[j];
      assert FindByMemberIdAndDate(r, member.id, dto.date) == Some(i);
    case None =>
      assert HasKey(r[|s|], member.id, dto.date);
      assert forall j :: 0 <= j < |s| ==> r[j] == s[j];
      assert FindByMemberIdAndDate(r, member.id, dto.date) == Some(|s|);
  }

  /** Saving the same dto twice leaves the same store as saving it once. */
  lemma UpsertIdempotent(s: seq<Exercise>, member: Member, dto: ExerciseDto)
    ensures Upsert(Upsert(s, member, dto), member, dto) == Upsert(s, member, dto)
  {
    var r := Upsert(s, member, dto);
    UpsertLastSaveWins(s, member, dto);
    var i := FindByMemberIdAndDate(r, member.id, dto.date).value;
    assert Update(r[i], dto) == r[i];
    assert r[i := r[i]] == r;
  }

  /** A save under one key changes nothing the lookup finds under any other key. */
  lemma UpsertKeepsOtherLookups(s: seq<Exercise>, member: Member, dto: ExerciseDto, memberId: MemberId, date: Date)
    requires memberId != member.id || date != dto.date
    ensures FindByMemberIdAndDate(Upsert(s, member, dto), memberId, date) == FindByMemberIdAndDate(s, memberId, date)
  {
    var r := Upsert(s, member, dto);
    assert forall j :: 0 <= j < |s| ==> (HasKey(r[j], memberId, date) <==> HasKey(s[j], memberId, date));
    assert forall j :: |s| <= j < |r| ==> !HasKey(r[j], memberId, date);
    var a, b := FindByMemberIdAndDate(s, memberId, date), FindByMemberIdAndDate(r, memberId, date);
    if a.Some? {
      assert b.Some? && b.value == a.value;
    } else {
      assert b.None?;
    }
  }

  /** Whether a record is the member's and lies in [start, end], both ends included (SQL `BETWEEN`). */
  predicate InRange(e: Exercise, memberId: MemberId, start: Date, end: Date) {
    e.member.id == memberId && NotAfter(start, e.date) && NotAfter(e.date, end)
  }

  /**
   * Both bounds of a range are included, and the days just outside it are
   * not: the day before `start`, and the day whose predecessor is `end`.
   */
  lemma RangeBoundaries(e: Exercise, memberId: MemberId, start: LocalDate, end: LocalDate)
    requires e.member.id == memberId && NotAfter(start, end)
    ensures e.date == start ==> InRange(e, memberId, start, end)
    ensures e.date == end ==> InRange(e, memberId, start, end)
    ensures MinusOneDay(start) == Some(e.date) ==> !InRange(e, memberId, start, end)
    ensures MinusOneDay(e.date) == Some(end) ==> !InRange(e, memberId, start, end)
  {
  }

  /**
   * `exerciseRepository.findByMemberIdAndDateBetween`, in store order: every
   * record in the range, each as often as it is stored, and nothing else.
   */
  function FindByMemberIdAndDateBetween(s: seq<Exercise>, memberId: MemberId, start: LocalDate, end: LocalDate): (r: seq<Exercise>)
    ensures |r| <= |s|
    ensures forall e :: e in r <==> e in s && InRange(e, memberId, start, end)
    ensures forall e :: multiset(r)[e] == if InRange(e, memberId, start, end) then multiset(s)[e] else 0
  {
    if s == [] then []
    else
      var rest := FindByMemberIdAndDateBetween(s[1..], memberId, start, end);
      assert s == [s[0]] + s[1..];
      assert forall e :: e in s <==> e == s[0] || e in s[1..];
      assert multiset(s) == multiset{s[0]} + multiset(s[1..]);
      if InRange(s[0], memberId, start, end) then [s[0]] + rest else rest
  }

  /** No date occurs twice among `es`. */
  ghost predicate DistinctDates(es: seq<Exercise>) {
    forall i, j :: 0 <= i < j < |es| ==> es[i].date != es[j].date
  }

  /** No record among `es` is dated `date`. */
  ghost predicate NoneOn(es: seq<Exercise>, date: Date) {
    forall k :: 0 <= k < |es| ==> es[k].date != date
  }

  /** Dropping the first record keeps the keys unique. */
  lemma UniqueKeysTail(s: seq<Exercise>)
    requires s != [] && UniqueKeys(s)
    ensures UniqueKeys(s[1..])
  {
    var tail := s[1..];
    forall i, j | 0 <= i < j < |tail| && tail[i].member.id == tail[j].member.id ensures tail[i].date != tail[j].date {
      assert tail[i] == s[i + 1] && tail[j] == s[j + 1];
    }
  }

  /** Under `UniqueKeys`, no record the query selects after the first stored one shares its date. */
  lemma FirstDateNotRepeated(s: seq<Exercise>, memberId: MemberId, start: LocalDate, end: LocalDate)
    requires s != [] && UniqueKeys(s) && InRange(s[0], memberId, start, end)
    ensures NoneOn(FindByMemberIdAndDateBetween(s[1..], memberId, start, end), s[0].date)
  {
    var tail := s[1..];
    var rest := FindByMemberIdAndDateBetween(tail, memberId, start, end);
    forall k | 0 <= k < |rest| ensures rest[k].date != s[0].date {
      assert rest[k] in rest;
      var m :| 0 <= m < |tail| && tail[m] == rest[k];
      assert s[m + 1] == rest[k];
    }
  }

  /** Putting a record before records of other dates keeps the dates distinct. */
  lemma ConsDistinctDates(x: Exercise, rest: seq<Exercise>)
    requires DistinctDates(rest) && NoneOn(rest, x.date)
    ensures DistinctDates([x] + rest)
  {
    var r := [x] + rest;
    forall i, j | 0 <= i < j < |r| ensures r[i].date != r[j].date {
      assert r[j] == rest[j - 1];
      if i > 0 { assert r[i] == rest[i - 1]; }
    }
  }

  /** Under `UniqueKeys`, a range query holds at most one record per day. */
  lemma {:induction false} RangeHasDistinctDates(s: seq<Exercise>, memberId: MemberId, start: LocalDate, end: LocalDate)
    requires UniqueKeys(s)
    ensures DistinctDates(FindByMemberIdAndDateBetween(s, memberId, start, end))
  {
    if s != [] {
      UniqueKeysTail(s);
      RangeHasDistinctDates(s[1..], memberId, start, end);
      var rest := FindByMemberIdAndDateBetween(s[1..], memberId, start, end);
      if InRange(s[0], memberId, start, end) {
        FirstDateNotRepeated(s, memberId, start, end);
        ConsDistinctDates(s[0], rest);
      }
    }
  }

  /** `stream().map(ExerciseDto::of).toList()`. */
  function OfAll(es: seq<Exercise>): (r: seq<ExerciseDto>)
    ensures |r| == |es|
    ensures forall i :: 0 <= i < |es| ==> r[i] == Of(es[i])
  {
    seq(|es|, i requires 0 <= i < |es| => Of(es[i]))
  }

  /**
   * Mapping records to dtos keeps every record's dto, adds no other, and
   * keeps distinct dates distinct.
   */
  lemma OfAllSelected(es: seq<Exercise>)
    ensures forall e :: e in es ==> Of(e) in OfAll(es)
    ensures forall i :: 0 <= i < |es| ==> es[i] in es && OfAll(es)[i] == Of(es[i])
    ensures DistinctDates(es) ==> forall i, j :: 0 <= i < j < |es| ==> OfAll(es)[i].date != OfAll(es)[j].date
  {
    var r := OfAll(es);
    forall e | e in es ensures Of(e) in r {
      var k :| 0 <= k < |es| && es[k] == e;
      assert r[k] == Of(e);
    }
  }

  /** The months that occur among the dates of some dtos. */
  function MonthsOf(data: seq<ExerciseDto>): (r: set<int>)
    ensures forall m :: m in r ==> 1 <= m <= 12
  {
    set i | 0 <= i < |data| :: data[i].date.month
  }

  /** The dtos dated in a given month (of any year), in order, each as often as it occurs. */
  function InMonth(data: seq<ExerciseDto>, month: int): (r: seq<ExerciseDto>)
    ensures forall d :: d in r <==> d in data && d.date.month == month
    ensures month in MonthsOf(data) <==> r != []
  {
    if data == [] then []
    else
      var rest := InMonth(data[1..], month);
      assert data == [data[0]] + data[1..];
      assert forall d :: d in data <==> d == data[0] || d in data[1..];
      assert MonthsOf(data) == {data[0].date.month} + MonthsOf(data[1..]) by {
        forall m | m in MonthsOf(data) ensures m in {data[0].date.month} + MonthsOf(data[1..]) {
          var i :| 0 <= i < |data| && data[i].date.month == m;
          if i > 0 { assert data[1..][i - 1] == data[i]; }
        }
        forall m | m in MonthsOf(data[1..]) ensures m in MonthsOf(data) {
          var i :| 0 <= i < |data[1..]| && data[1..][i].date.month == m;
          assert data[i + 1] == data[1..][i];
        }
      }
      if data[0].date.month == month then [data[0]] + rest else rest
  }

  /** The month's group holds each of the month's dtos exactly as often as the input does, and no other. */
  lemma {:induction false} InMonthCounts(data: seq<ExerciseDto>, month: int)
    ensures forall d :: multiset(InMonth(data, month))[d] == if d.date.month == month then multiset(data)[d] else 0
  {
    if data != [] {
      InMonthCounts(data[1..], month);
      assert data == [data[0]] + data[1..];
      assert multiset(data) == multiset{data[0]} + multiset(data[1..]);
    }
  }

  /**
   * `Collectors.groupingBy` on the month value: a key for every month that
   * has data, holding that month's dtos in order.
   */
  function GroupByMonth(data: seq<ExerciseDto>): (g: map<int, seq<ExerciseDto>>)
    ensures g.Keys == MonthsOf(data)
    ensures forall m :: m in g ==> g[m] == InMonth(data, m) && g[m] != []
  {
    map m | m in MonthsOf(data) :: InMonth(data, m)
  }

  /**
   * The synthetic record built from one month's group: dated the 1st of
   * that month, each metric the `IntStream.sum()` (wrapping at 32 bits)
   * over the group.
   */
  function GroupTotal(year: int, month: int, group: seq<ExerciseDto>): (r: ExerciseDto)
    requires MIN_YEAR <= year <= MAX_YEAR && 1 <= month <= 12
    ensures r.date == Date(year, month, 1)
    ensures group == [] ==> r.steps == 0 && r.durationMinutes == 0 && r.caloriesBurned == 0
  {
    ExerciseDto(
      Date(year, month, 1),
      Int32.StreamSum(seq(|group|, i requires 0 <= i < |group| => group[i].steps)),
      Int32.StreamSum(seq(|group|, i requires 0 <= i < |group| => group[i].durationMinutes)),
      Int32.StreamSum(seq(|group|, i requires 0 <= i < |group| => group[i].caloriesBurned)))
  }

  /** The total of one month of `data`; a month without data totals zero. */
  function MonthTotal(year: int, month: int, data: seq<ExerciseDto>): (r: ExerciseDto)
    requires MIN_YEAR <= year <= MAX_YEAR && 1 <= month <= 12
    ensures r.date == Date(year, month, 1)
    ensures month !in MonthsOf(data) ==> r.steps == 0 && r.durationMinutes == 0 && r.caloriesBurned == 0
  {
    GroupTotal(year, month, InMonth(data, month))
  }

  /** No month occurs twice among `sums`. */
  ghost predicate DistinctMonths(sums: seq<ExerciseDto>) {
    forall i, j :: 0 <= i < j < |sums| ==> sums[i].date.month != sums[j].date.month
  }

  /**
   * What the yearly view promises of its output, in whatever order the
   * grouping map yields it: one entry per month that has data and none for
   * a month without, no month twice, and each entry that month's total.
   */
  ghost predicate IsMonthlySummary(year: int, data: seq<ExerciseDto>, sums: seq<ExerciseDto>)
    requires MIN_YEAR <= year <= MAX_YEAR
  {
    && DistinctMonths(sums)
    && MonthsOf(sums) == MonthsOf(data)
    && AreMonthTotals(year, data, sums)
  }

  /** Each entry of `sums` is the total of its own month. */
  ghost predicate AreMonthTotals(year: int, data: seq<ExerciseDto>, sums: seq<ExerciseDto>)
    requires MIN_YEAR <= year <= MAX_YEAR
  {
    forall i :: 0 <= i < |sums| ==> sums[i] == MonthTotal(year, sums[i].date.month, data)
  }

  /** Appending the total of a month not yet summed keeps the months distinct and every entry a total. */
  lemma AppendMonthTotal(year: int, data: seq<ExerciseDto>, sums: seq<ExerciseDto>, month: int)
    requires MIN_YEAR <= year <= MAX_YEAR && 1 <= month <= 12
    requires DistinctMonths(sums) && AreMonthTotals(year, data, sums) && month !in MonthsOf(sums)
    ensures var sums' := sums + [MonthTotal(year, month, data)];
      && DistinctMonths(sums') && AreMonthTotals(year, data, sums')
      && MonthsOf(sums') == MonthsOf(sums) + {month}
  {
    var total := MonthTotal(year, month, data);
    var sums' := sums + [total];
    MonthsOfAppend(sums, total);
    forall i, j | 0 <= i < j < |sums'| ensures sums'[i].date.month != sums'[j].date.month {
      assert sums'[i] == sums[i];
      if j < |sums| { assert sums'[j] == sums[j]; }
    }
    forall i | 0 <= i < |sums'| ensures sums'[i] == MonthTotal(year, sums'[i].date.month, data) {
      if i < |sums| { assert sums'[i] == sums[i]; }
    }
  }

  /** Appending one dto adds its month. */
  lemma MonthsOfAppend(s: seq<ExerciseDto>, d: ExerciseDto)
    ensures MonthsOf(s + [d]) == MonthsOf(s) + {d.date.month}
  {
    forall m | m in MonthsOf(s + [d]) ensures m in MonthsOf(s) + {d.date.month} {
      var i :| 0 <= i < |s + [d]| && (s + [d])[i].date.month == m;
      if i < |s| { assert (s + [d])[i] == s[i]; }
    }
    forall m | m in MonthsOf(s) ensures m in MonthsOf(s + [d]) {
      var i :| 0 <= i < |s| && s[i].date.month == m;
      assert (s + [d])[i] == s[i];
    }
    assert (s + [d])[|s|] == d;
  }

  /** A sequence whose months are distinct has as many entries as months. */
  lemma {:induction false} DistinctMonthsCount(sums: seq<ExerciseDto>)
    requires DistinctMonths(sums)
    ensures |MonthsOf(sums)| == |sums|
  {
    if sums == [] {
      assert MonthsOf(sums) == {};
    } else {
      var init, last := sums[..|sums| - 1], sums[|sums| - 1];
      assert sums == init + [last];
      assert DistinctMonths(init);
      DistinctMonthsCount(init);
      MonthsOfAppend(init, last);
      assert last.date.month !in MonthsOf(init);
    }
  }

  /**
   * The yearly view is determined up to order: two outputs that both meet
   * the summary's description have the same length and the same entries.
   */
  lemma MonthlySummaryUnique(year: int, data: seq<ExerciseDto>, s1: seq<ExerciseDto>, s2: seq<ExerciseDto>)
    requires MIN_YEAR <= year <= MAX_YEAR
    requires IsMonthlySummary(year, data, s1) && IsMonthlySummary(year, data, s2)
    ensures |s1| == |s2|
    ensures forall i :: 0 <= i < |s1| ==> s1[i] in s2
    ensures forall i :: 0 <= i < |s2| ==> s2[i] in s1
  {
    DistinctMonthsCount(s1);
    DistinctMonthsCount(s2);
    forall i | 0 <= i < |s1| ensures s1[i] in s2 {
      var m := s1[i].date.month;
      assert m in MonthsOf(s2);
      var j :| 0 <= j < |s2| && s2[j].date.month == m;
    }
    forall i | 0 <= i < |s2| ensures s2[i] in s1 {
      var m := s2[i].date.month;
      assert m in MonthsOf(s1);
      var j :| 0 <= j < |s1| && s1[j].date.month == m;
    }
  }

  /**
   * Each entry of a summary of a year's records is a valid date, the 1st of
   * its month, within that year.
   */
  lemma MonthlySummaryDates(year: int, data: seq<ExerciseDto>, sums: seq<ExerciseDto>)
    requires MIN_YEAR <= year <= MAX_YEAR
    requires IsMonthlySummary(year, data, sums)
    ensures forall i :: 0 <= i < |sums| ==>
      && sums[i].date.year == year && sums[i].date.day == 1
      && NotAfter(Date(year, 1, 1), sums[i].date) && NotAfter(sums[i].date, Date(year, 12, 31))
  {
  }

  /** When a month's metrics add up within 32 bits, its entry holds the exact sums. */
  lemma MonthTotalExact(year: int, month: int, data: seq<ExerciseDto>)
    requires MIN_YEAR <= year <= MAX_YEAR && 1 <= month <= 12
    ensures var group := InMonth(data, month);
      var steps := seq(|group|, i requires 0 <= i < |group| => group[i].steps);
      Int32.MIN_INT <= Int32.Sum(steps) <= Int32.MAX_INT ==> MonthTotal(year, month, data).steps == Int32.Sum(steps)
    ensures var group := InMonth(data, month);
      var minutes := seq(|group|, i requires 0 <= i < |group| => group[i].durationMinutes);
      Int32.MIN_INT <= Int32.Sum(minutes) <= Int32.MAX_INT ==> MonthTotal(year, month, data).durationMinutes == Int32.Sum(minutes)
    ensures var group := InMonth(data, month);
      var calories := seq(|group|, i requires 0 <= i < |group| => group[i].caloriesBurned);
      Int32.MIN_INT <= Int32.Sum(calories) <= Int32.MAX_INT ==> MonthTotal(year, month, data).caloriesBurned == Int32.Sum(calories)
  {
    var group := InMonth(data, month);
    Int32.StreamSumIsWrappedSum(seq(|group|, i requires 0 <= i < |group| => group[i].steps));
    Int32.StreamSumIsWrappedSum(seq(|group|, i requires 0 <= i < |group| => group[i].durationMinutes));
    Int32.StreamSumIsWrappedSum(seq(|group|, i requires 0 <= i < |group| => group[i].caloriesBurned));
  }

  /** Records on 5 and 20 January 2024 and on 1 February 2024. */
  const EXAMPLE_DATA: seq<ExerciseDto> := [
    ExerciseDto(Date(2024, 1, 5), 100, 30, 10),
    ExerciseDto(Date(2024, 1, 20), 200, 40, 20),
    ExerciseDto(Date(2024, 2, 1), 50, 10, 5)]

  lemma ExampleMonths()
    ensures MonthsOf(EXAMPLE_DATA) == {1, 2}
  {
    var data := EXAMPLE_DATA;
    assert data[0].date.month == 1 && data[2].date.month == 2;
  }

  /** The expected totals of the two months of `EXAMPLE_DATA`. */
  const JANUARY_TOTAL: ExerciseDto := ExerciseDto(Date(2024, 1, 1), 300, 70, 30)
  const FEBRUARY_TOTAL: ExerciseDto := ExerciseDto(Date(2024, 2, 1), 50, 10, 5)

  lemma ExampleJanuary()
    ensures MonthTotal(2024, 1, EXAMPLE_DATA) == JANUARY_TOTAL
  {
    var data := EXAMPLE_DATA;
    assert InMonth(data[2..], 1) == [];
    assert InMonth(data[1..], 1) == [data[1]];
    var g := InMonth(data, 1);
    assert g == [data[0], data[1]];
    var steps := seq(|g|, i requires 0 <= i < |g| => g[i].steps);
    var minutes := seq(|g|, i requires 0 <= i < |g| => g[i].durationMinutes);
    var calories := seq(|g|, i requires 0 <= i < |g| => g[i].caloriesBurned);
    assert steps == [100, 200] && steps[..1] == [100] && [100][..0] == [];
    assert minutes == [30, 40] && minutes[..1] == [30] && [30][..0] == [];
    assert calories == [10, 20] && calories[..1] == [10] && [10][..0] == [];
    assert Int32.StreamSum([100]) == 100 && Int32.StreamSum(steps) == 300;
    assert Int32.StreamSum([30]) == 30 && Int32.StreamSum(minutes) == 70;
    assert Int32.StreamSum([10]) == 10 && Int32.StreamSum(calories) == 30;
  }

  lemma ExampleFebruary()
    ensures MonthTotal(2024, 2, EXAMPLE_DATA) == FEBRUARY_TOTAL
  {
    var data := EXAMPLE_DATA;
    assert InMonth(data[2..], 2) == [data[2]];
    assert InMonth(data[1..], 2) == [data[2]];
    var g := InMonth(data, 2);
    assert g == [data[2]];
    var steps := seq(|g|, i requires 0 <= i < |g| => g[i].steps);
    var minutes := seq(|g|, i requires 0 <= i < |g| => g[i].durationMinutes);
    var calories := seq(|g|, i requires 0 <= i < |g| => g[i].caloriesBurned);
    assert steps == [50] && steps[..0] == [];
    assert minutes == [10] && minutes[..0] == [];
    assert calories == [5] && calories[..0] == [];
    assert Int32.StreamSum(steps) == 50;
    assert Int32.StreamSum(minutes) == 10;
    assert Int32.StreamSum(calories) == 5;
  }

  /**
   * The yearly view of the records above has two entries: January with
   * 300 steps, February with 50, and no other month.
   */
  lemma YearlyExample(sums: seq<ExerciseDto>)
    requires IsMonthlySummary(2024, EXAMPLE_DATA, sums)
    ensures |sums| == 2
    ensures forall i :: 0 <= i < |sums| ==> sums[i] == JANUARY_TOTAL || sums[i] == FEBRUARY_TOTAL
    ensures JANUARY_TOTAL in sums && FEBRUARY_TOTAL in sums
  {
    ExampleSummaryMonths(sums);
    ExampleJanuary();
    ExampleFebruary();
    forall i | 0 <= i < |sums| ensures sums[i] == JANUARY_TOTAL || sums[i] == FEBRUARY_TOTAL {
      var m := sums[i].date.month;
      assert m in MonthsOf(sums);
      assert sums[i] == MonthTotal(2024, m, EXAMPLE_DATA);
    }
    ExampleBothMonths(sums);
  }

  /** Both months of `EXAMPLE_DATA` have their entry in any summary of it. */
  lemma ExampleBothMonths(sums: seq<ExerciseDto>)
    requires IsMonthlySummary(2024, EXAMPLE_DATA, sums)
    ensures JANUARY_TOTAL in sums && FEBRUARY_TOTAL in sums
  {
    ExampleSummaryMonths(sums);
    ExampleJanuary();
    ExampleFebruary();
    assert 1 in MonthsOf(sums) && 2 in MonthsOf(sums);
    var j :| 0 <= j < |sums| && sums[j].date.month == 1;
    assert sums[j] == MonthTotal(2024, 1, EXAMPLE_DATA);
    var k :| 0 <= k < |sums| && sums[k].date.month == 2;
    assert sums[k] == MonthTotal(2024, 2, EXAMPLE_DATA);
  }

  /** A summary of `EXAMPLE_DATA` covers exactly January and February, once each. */
  lemma ExampleSummaryMonths(sums: seq<ExerciseDto>)
    requires IsMonthlySummary(2024, EXAMPLE_DATA, sums)
    ensures MonthsOf(sums) == {1, 2} && |sums| == 2
  {
    ExampleMonths();
    DistinctMonthsCount(sums);
    assert |{1, 2}| == 2;
  }

  /**
   * The group-by-month-and-sum step of `getYearlyExerciseData`:
   * `Collectors.groupingBy` on the month, then a loop over the map's
   * entries (in no promised order) appending one total per month.
   */
  method SumByMonth(year: int, data: seq<ExerciseDto>) returns (sums: seq<ExerciseDto>)
    requires MIN_YEAR <= year <= MAX_YEAR
    ensures IsMonthlySummary(year, data, sums)
  {
    var grouped := GroupByMonth(data);
    var remaining := grouped.Keys;
    sums := [];
    while remaining != {}
      invariant remaining <= grouped.Keys
      invariant MonthsOf(sums) !! remaining
      invariant MonthsOf(sums) + remaining == grouped.Keys
      invariant DistinctMonths(sums)
      invariant AreMonthTotals(year, data, sums)
      decreases remaining
    {
      var month :| month in remaining;
      var monthData := grouped[month];
      var total := GroupTotal(year, month, monthData);
      AppendMonthTotal(year, data, sums, month);
      sums := sums + [total];
      remaining := remaining - {month};
    }
  }

  /**
   * The exercise service over its repository. The member directory is
   * only read; `exercises` is the table of exercise records.
   */
  class ExerciseService {
    const members: Directory
    var exercises: seq<Exercise>

    ghost predicate Valid()
      reads this
    {
      Consistent(members) && UniqueKeys(exercises)
    }

    constructor (members: Directory)
      requires Consistent(members)
      ensures Valid()
      ensures this.members == members && exercises == []
    {
      this.members := members;
      exercises := [];
    }

    /**
     * `save(memberId, dto)`: fails with `MEMBER_NOT_FOUND`, changing
     * nothing, for an unknown member; otherwise overwrites the metrics of
     * the member's record for that date, or inserts `dto.toEntity(member)`.
     */
    method Save(memberId: MemberId, dto: ExerciseDto) returns (r: Result<(), Error>)
      requires Valid()
      modifies this
      ensures Valid()
      ensures memberId !in members ==> r == Failure(MemberNotFound) && exercises == old(exercises)
      ensures memberId in members ==> r == Success(()) && exercises == Upsert(old(exercises), members[memberId], dto)
    {
      var member := FindById(members, memberId);
      if member.None? {
        return Failure(MemberNotFound);
      }
      var existing := FindByMemberIdAndDate(exercises, memberId, dto.date);
      UpsertPreservesUniqueKeys(exercises, member.value, dto);
      if existing.Some? {
        exercises := exercises[existing.value := Update(exercises[existing.value], dto)];
      } else {
        exercises := exercises + [ToEntity(dto, member.value)];
      }
      r := Success(());
    }

    /**
     * `getExerciseDataByDateRange`: the member's records dated from
     * `start` to `end`, both included, and nothing else.
     */
    function GetExerciseDataByDateRange(memberId: MemberId, start: LocalDate, end: LocalDate): (r: seq<ExerciseDto>)
      reads this
      ensures forall e :: e in exercises && InRange(e, memberId, start, end) ==> Of(e) in r
      ensures forall i :: 0 <= i < |r| ==>
        exists e :: e in exercises && InRange(e, memberId, start, end) && Of(e) == r[i]
      ensures multiset(r) == multiset(OfAll(FindByMemberIdAndDateBetween(exercises, memberId, start, end)))
      ensures Valid() ==> forall i, j :: 0 <= i < j < |r| ==> r[i].date != r[j].date
    {
      var found := FindByMemberIdAndDateBetween(exercises, memberId, start, end);
      OfAllSelected(found);
      assert Valid() ==> DistinctDates(found) by {
        if Valid() { RangeHasDistinctDates(exercises, memberId, start, end); }
      }
      OfAll(found)
    }

    /** `getWeeklyExerciseData`: the range query with the caller's own bounds. */
    function GetWeeklyExerciseData(memberId: MemberId, start: LocalDate, end: LocalDate): (r: seq<ExerciseDto>)
      reads this
      ensures r == GetExerciseDataByDateRange(memberId, start, end)
    {
      GetExerciseDataByDateRange(memberId, start, end)
    }

    /**
     * `getMonthlyExerciseData(year, month)`: the records from the 1st to
     * the last day of the month. `LocalDate.of` throws for a month outside
     * 1..12 or a year outside the supported range, and `plusMonths(1)` for
     * December of the last supported year.
     */
    function GetMonthlyExerciseData(memberId: MemberId, year: int, month: int): (r: Result<seq<ExerciseDto>, Error>)
      reads this
      ensures r.Failure? <==> !(MIN_YEAR <= year <= MAX_YEAR && 1 <= month <= 12) || (year == MAX_YEAR && month == 12)
      ensures r.Failure? ==> r.error == DateTimeError
      ensures r.Success? ==>
        && 1 <= month <= 12
        && r.value == GetExerciseDataByDateRange(memberId, Date(year, month, 1), EndOfMonth(year, month))
    {
      var start := DateOf(year, month, 1);
      if start.None? then Failure(DateTimeError)
      else
        MonthBounds(year, month);
        var next := PlusMonths(start.value, 1);
        if next.None? then Failure(DateTimeError)
        else
          var end := MinusOneDay(next.value);
          if end.None? then Failure(DateTimeError)
          else Success(GetExerciseDataByDateRange(memberId, start.value, end.value))
    }

    /**
     * `getYearlyExerciseData(year)`: the records from 1 January to
     * 31 December of `year`, grouped by month and summed. `LocalDate.of`
     * throws outside the supported years, and `plusYears(1)` for the last one.
     */
    method GetYearlyExerciseData(memberId: MemberId, year: int) returns (r: Result<seq<ExerciseDto>, Error>)
      ensures r.Failure? <==> !(MIN_YEAR <= year < MAX_YEAR)
      ensures r.Failure? ==> r.error == DateTimeError
      ensures r.Success? ==>
        IsMonthlySummary(year, GetExerciseDataByDateRange(memberId, Date(year, 1, 1), Date(year, 12, 31)), r.value)
    {
      var start := DateOf(year, 1, 1);
      if start.None? {
        return Failure(DateTimeError);
      }
      YearBounds(year);
      var next := PlusYears(start.value, 1);
      if next.None? {
        return Failure(DateTimeError);
      }
      var end := MinusOneDay(next.value);
      if end.None? {
        return Failure(DateTimeError);
      }
      var yearlyData := GetExerciseDataByDateRange(memberId, start.value, end.value);
      var monthlySumData := SumByMonth(year, yearlyData);
      r := Success(monthlySumData);
    }
  }
}
