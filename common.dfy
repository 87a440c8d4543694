/** Shared vocabulary of the widget toolkit: an optional value and the keys the
    keyboard handlers look at (`KeyboardEvent.key`). Every other key is `Other`. */
module Common {

  datatype Option<+T> = None | Some(value: T)

  datatype Key =
    | Tab | Enter | Space | Escape
    | ArrowUp | ArrowDown | ArrowLeft | ArrowRight
    | Home | End
    | Other

  /** Enter and Space are the activation keys of every handler in the toolkit. */
  predicate IsActivation(k: Key) {
    k == Enter || k == Space
  }

  /** Index of the first element of `s` equal to `v` (`Array.prototype.find`,
      `querySelector`, `indexOf`), or None. */
  function Find<T(==)>(s: seq<T>, v: T): (r: Option<nat>)
    ensures r.Some? ==> r.value < |s| && s[r.value] == v
    ensures r.Some? ==> forall j :: 0 <= j < r.value ==> s[j] != v
    ensures r.None? <==> v !in s
  {
    if |s| == 0 then None
    else if s[0] == v then Some(0)
    else match Find(s[1..], v)
      case None => None
      case Some(k) => Some(k + 1)
  }

  /** The linear search behind `find`/`querySelector`, as the loop it is. */
  method FindIndex<T(==)>(s: seq<T>, v: T) returns (r: Option<nat>)
    ensures r == Find(s, v)
  {
    var i := 0;
    while i < |s|
      invariant 0 <= i <= |s|
      invariant forall j :: 0 <= j < i ==> s[j] != v
    {
      if s[i] == v {
        return Some(i);
      }
      i := i + 1;
    }
    return None;
  }
}
