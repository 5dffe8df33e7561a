/** Failure values of the converter.  Every fatal `error(...)`, failed assertion and
    missing-key lookup of the build script becomes one of these, returned instead of
    terminating the process. */
module Results {

  datatype Option<T> = None | Some(value: T)

  datatype Error =
    /** `parse_link` met an atom that is neither empty nor digit-led. */
    | InvalidLinks(link: string)
    /** `parse_links` found remaining text that does not start with a `(...)` group. */
    | InvalidLink(id: string, links: string)
    /** A `PRE:` line before any `Conflict{n}` line: entry `id` has no branch list. */
    | UnknownConflict(id: string)
    /** A `POST:` line while no `PRE:` region is open. */
    | PostOutsideRegion

  datatype Result<T> = Ok(value: T) | Err(error: Error)

  /** Put `s` in front of the value of a successful result; a failure passes through. */
  function Prefixed<T>(s: seq<T>, r: Result<seq<T>>): Result<seq<T>> {
    match r
    case Err(e) => Err(e)
    case Ok(v) => Ok(s + v)
  }

  lemma PrefixedTwice<T>(s: seq<T>, t: seq<T>, r: Result<seq<T>>)
    ensures Prefixed(s, Prefixed(t, r)) == Prefixed(s + t, r)
  {
    if r.Ok? {
      assert s + (t + r.value) == (s + t) + r.value;
    }
  }

  datatype Outcome = Pass | Fail(error: Error)
}
