/** Substring search, as both text locators use it: the first match at or after a position. */
module TextSearch {
  import opened Options

  predicate Occurs<T(==)>(text: seq<T>, part: seq<T>, at: nat) {
    at + |part| <= |text| && text[at..at + |part|] == part
  }

  function Find<T(==)>(text: seq<T>, part: seq<T>, from: nat): (found: Option<nat>)
    ensures found.Some? ==> from <= found.value && Occurs(text, part, found.value)
    ensures found.Some? ==> forall k: nat | from <= k < found.value :: !Occurs(text, part, k)
    ensures found.None? ==> forall k: nat | from <= k :: !Occurs(text, part, k)
    decreases |text| - from
  {
    if from + |part| > |text| then None
    else if Occurs(text, part, from) then Some(from)
    else Find(text, part, from + 1)
  }

  ghost predicate OccursOnce<T>(text: seq<T>, part: seq<T>, at: nat) {
    Occurs(text, part, at) && forall k: nat | Occurs(text, part, k) :: k == at
  }

  // The only place of the part, if it has exactly one.
  function FindOnly<T(==)>(text: seq<T>, part: seq<T>): (found: Option<nat>)
    ensures found.Some? ==> OccursOnce(text, part, found.value)
    ensures forall at: nat | OccursOnce(text, part, at) :: found == Some(at)
  {
    var first := Find(text, part, 0);
    if first.None? then None
    else if Find(text, part, first.value + 1).Some? then None
    else first
  }
}
