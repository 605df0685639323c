/** Values that may be absent, bytes, and sequences without repetition. */
module Options {
  datatype Option<+T> = None | Some(value: T)

  type byte = x: int | 0 <= x < 0x100

  function Min(a: nat, b: nat): nat { if a <= b then a else b }

  ghost predicate Distinct<T>(s: seq<T>) {
    forall i, j :: 0 <= i < j < |s| ==> s[i] != s[j]
  }

  /** The sequence with the element at `i` taken out. */
  function RemoveAt<T>(s: seq<T>, i: nat): seq<T>
    requires i < |s|
  {
    s[..i] + s[i + 1..]
  }

  /** The sequence without an element. */
  function Dropped(s: seq<nat>, x: nat): (r: seq<nat>)
    ensures x !in r && forall y :: y in r <==> y in s && y != x
  {
    if s == [] then [] else if s[0] == x then Dropped(s[1..], x) else [s[0]] + Dropped(s[1..], x)
  }
}
