/** Instants as integers, and the ISO texts that stand for them on the wire. */
module Clock {
  import opened Wrappers

  datatype TimeText = TimeText(iso: int -> string, parse: string -> Option<int>)

  /** `datetime.fromisoformat` reads what `isoformat` writes, which is never empty. */
  ghost predicate RoundTrips(t: TimeText)
  {
    forall n :: t.iso(n) != "" && t.parse(t.iso(n)) == Some(n)
  }
}
