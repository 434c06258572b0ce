/**
 * The records the analytics engine reads. They are snapshots handed over by
 * the persistence layer; the engine never writes them back.
 */
module Records {

  /** Seconds in one calendar day. Timestamps are whole seconds since the epoch. */
  const SecondsPerDay: int := 86400

  /** The calendar day (days since 1970-01-01) a timestamp falls on. */
  function DayOf(t: int): int {
    t / SecondsPerDay
  }

  /**
   * A stored date or date-time attribute as the ORM returns it: missing
   * (`null`/`undefined`), or a stored text together with the day number
   * (for a date) or the timestamp (for a date-time) it denotes.
   */
  datatype Stamp = Missing | Stored(text: string, value: int)

  /** The "zero date" the database stores for an unset date column. */
  const ZeroDate: string := "0000-00-00"

  /** The "zero date-time" the database stores for an unset date-time column. */
  const ZeroDateTime: string := "0000-00-00 00:00:00"

  /** JavaScript's `stamp && stamp != sentinel`: present, non-empty and not the sentinel. */
  predicate IsSet(s: Stamp, sentinel: string) {
    s.Stored? && s.text != "" && s.text != sentinel
  }

  /** A day that is excluded from a sprint's planned days (`day` is `dayObject()`). */
  datatype ExcludeDay = ExcludeDay(sprintId: int, day: int)

  datatype Story = Story(
    id: int,
    sprintId: int,
    timeStart: Stamp,
    isDone: bool,
    ignoreInBurnDownChart: bool)

  /** A task; `createdAt` and `timeEnd` are timestamps in seconds. */
  datatype Task = Task(
    id: int,
    storyId: int,
    typeId: int,
    isDone: bool,
    createdAt: int,
    timeEnd: int)

  datatype TaskType = TaskType(id: int, title: string)

  /** A workflow phase of a project; `order == 0` is the intake phase. */
  datatype Phase = Phase(id: int, order: int, title: string)

  lemma DayOfMonotone(s: int, t: int)
    requires s <= t
    ensures DayOf(s) <= DayOf(t)
  {
    var qs, qt := s / SecondsPerDay, t / SecondsPerDay;
    assert s == qs * SecondsPerDay + s % SecondsPerDay;
    assert t == qt * SecondsPerDay + t % SecondsPerDay;
  }
}
