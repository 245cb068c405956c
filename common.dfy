/** Shared vocabulary: optional values, results, HTTP status codes and
    the small sequence helpers the other modules build on. */
module Common {

  datatype Option<+T> = None | Some(value: T)

  datatype Result<+T, +E> = Success(value: T) | Failure(error: E)

  /** The response codes the modelled views return. */
  datatype Status = Ok200 | Created201 | NoContent204 | BadRequest400 | NotFound404

  /** Primary keys are the database's integer ids. */
  type UserId = int
  type RecipeId = int
  type IngredientId = int
  type TagId = int

  /** The elements of a sequence, as Python's `set(xs)`. */
  function ToSet<T(!new)>(xs: seq<T>): (s: set<T>)
    ensures forall x :: x in s <==> x in xs
  {
    if xs == [] then {} else {xs[0]} + ToSet(xs[1..])
  }

  /** No value occurs twice. */
  predicate Distinct<T(==)>(xs: seq<T>) {
    forall i, j :: 0 <= i < j < |xs| ==> xs[i] != xs[j]
  }

  /** A list has as many distinct elements as it has elements exactly when
      none of them repeats: the duplicate test `len(xs) != len(set(xs))`. */
  lemma {:induction false} DistinctIffSetSizeIsLength<T(!new)>(xs: seq<T>)
    ensures |ToSet(xs)| <= |xs|
    ensures Distinct(xs) <==> |ToSet(xs)| == |xs|
  {
    if xs != [] {
      var rest := xs[1..];
      DistinctIffSetSizeIsLength(rest);
      if xs[0] in ToSet(rest) {
        assert ToSet(xs) == ToSet(rest);
        var j :| 0 <= j < |rest| && rest[j] == xs[0];
        assert xs[0] == xs[j + 1];
      } else {
        assert |ToSet(xs)| == |ToSet(rest)| + 1;
        if Distinct(xs) {
          assert Distinct(rest) by {
            forall i, j | 0 <= i < j < |rest| ensures rest[i] != rest[j] {
              assert rest[i] == xs[i + 1] && rest[j] == xs[j + 1];
            }
          }
        }
        if Distinct(rest) {
          forall i, j | 0 <= i < j < |xs| ensures xs[i] != xs[j] {
            if i == 0 {
              assert xs[j] in rest;
            } else {
              assert xs[i] == rest[i - 1] && xs[j] == rest[j - 1];
            }
          }
        }
      }
    }
  }

  /** `sep.join(parts)`: the parts with one separator between each two
      neighbours, so the text is at least as long as the separators. */
  function Join(parts: seq<string>, sep: string): (s: string)
    ensures |parts| >= 1 ==> |s| >= (|parts| - 1) * |sep| + |parts[0]|
  {
    if parts == [] then ""
    else if |parts| == 1 then parts[0]
    else parts[0] + sep + Join(parts[1..], sep)
  }

  /** A joined text starts with the first part and ends with the last
      one. */
  lemma {:induction false} JoinShape(parts: seq<string>, sep: string)
    requires |parts| >= 1
    ensures parts[0] <= Join(parts, sep)
    ensures var s := Join(parts, sep); var last := parts[|parts| - 1];
      |last| <= |s| && s[|s| - |last|..] == last
  {
    if |parts| > 1 {
      JoinShape(parts[1..], sep);
      var s := Join(parts, sep);
      var tail := Join(parts[1..], sep);
      var last := parts[|parts| - 1];
      assert s == parts[0] + sep + tail;
      assert tail[|tail| - |last|..] == last;
      assert s[|s| - |last|..] == tail[|tail| - |last|..];
    }
  }
}
