/** What several of the modules use. */
module Common {
  datatype Option<T> = Some(value: T) | None

  ghost predicate Distinct<T>(s: seq<T>) {
    forall i, j :: 0 <= i < j < |s| ==> s[i] != s[j]
  }

  /** int64 arithmetic wraps around. */
  function Wrap(x: int): int { (x + 0x8000_0000_0000_0000) % 0x1_0000_0000_0000_0000 - 0x8000_0000_0000_0000 }
}
