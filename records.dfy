/** The rows the stores read from the `memories` table. */
module Records {
  import opened Js

  /** A row of the `memories` table. Array columns that are null are read as
      empty lists; `createdAt` is the creation instant in milliseconds, absent
      when the column is null. */
  datatype Memory = Memory(
    id: string,
    content: string,
    tags: seq<string>,
    people: seq<string>,
    places: seq<string>,
    events: seq<string>,
    sentiment: Option<string>,
    confidence: real,
    createdAt: Option<int>)

  const DayMs: int := 24 * 60 * 60 * 1000

  /** `if (memory.sentiment)`: a present, non-empty sentiment. */
  predicate HasSentiment(m: Memory)
  {
    m.sentiment.Some? && m.sentiment.value != ""
  }

  /** The instant `new Date(created_at)` stands for; a null column is the
      epoch. */
  function CreatedMs(m: Memory): int
  {
    m.createdAt.GetOr(0)
  }

  /** Number of rows created strictly after the cutoff. */
  function CountSince(ms: seq<Memory>, cutoff: int): (n: nat)
    ensures n <= |ms|
    decreases |ms|
  {
    if ms == [] then 0
    else CountSince(ms[..|ms| - 1], cutoff) + (if CreatedMs(ms[|ms| - 1]) > cutoff then 1 else 0)
  }

  /** An earlier cutoff admits at least as many rows. */
  lemma {:induction false} CountSinceMono(ms: seq<Memory>, later: int, earlier: int)
    requires earlier <= later
    ensures CountSince(ms, later) <= CountSince(ms, earlier)
    decreases |ms|
  {
    if ms != [] {
      CountSinceMono(ms[..|ms| - 1], later, earlier);
    }
  }

  function AllTags(ms: seq<Memory>): seq<string>
    decreases |ms|
  {
    if ms == [] then [] else AllTags(ms[..|ms| - 1]) + ms[|ms| - 1].tags
  }

  function AllPeople(ms: seq<Memory>): seq<string>
    decreases |ms|
  {
    if ms == [] then [] else AllPeople(ms[..|ms| - 1]) + ms[|ms| - 1].people
  }

  function AllPlaces(ms: seq<Memory>): seq<string>
    decreases |ms|
  {
    if ms == [] then [] else AllPlaces(ms[..|ms| - 1]) + ms[|ms| - 1].places
  }

  function AllEvents(ms: seq<Memory>): seq<string>
    decreases |ms|
  {
    if ms == [] then [] else AllEvents(ms[..|ms| - 1]) + ms[|ms| - 1].events
  }
}
