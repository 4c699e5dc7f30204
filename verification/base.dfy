/** Failure-compatible wrappers, bounded integers and small sequence helpers
    shared by every other module of the model. */
module Base {

  /** An optional value, standing for Rust's `Option<T>`. */
  datatype Option<+T> = None | Some(value: T)

  /** A success value or an error, standing for Rust's `Result<T, E>`;
      usable with `:-` so that `?` propagation reads the same. */
  datatype Result<+T, +E> = Ok(value: T) | Err(error: E) {
    predicate IsFailure() {
      Err?
    }

    function PropagateFailure<U>(): Result<U, E>
      requires Err?
    {
      Err(error)
    }

    function Extract(): T
      requires Ok?
    {
      value
    }
  }

  /** Rust's `u8`. */
  type U8 = x: int | 0 <= x < 256

  /** Index of the first present entry of `xs`, or `|xs|` when there is none. */
  function FirstSomeAt<T>(xs: seq<Option<T>>): (k: nat)
    ensures k <= |xs|
    ensures forall j :: 0 <= j < k ==> xs[j].None?
    ensures k < |xs| ==> xs[k].Some?
  {
    if xs == [] then 0
    else if xs[0].Some? then 0
    else 1 + FirstSomeAt(xs[1..])
  }

  /** The first present entry of `xs`. */
  function FirstSome<T>(xs: seq<Option<T>>): (r: Option<T>)
    ensures r.None? <==> forall j :: 0 <= j < |xs| ==> xs[j].None?
    ensures r.Some? ==> FirstSomeAt(xs) < |xs| && xs[FirstSomeAt(xs)] == r
  {
    var k := FirstSomeAt(xs);
    if k < |xs| then xs[k] else None
  }

  /** The present entries of `xs`, in order. */
  function Somes<T>(xs: seq<Option<T>>): (r: seq<T>)
    ensures |r| <= |xs|
    ensures r == [] <==> FirstSome(xs).None?
    ensures r != [] ==> r[0] == FirstSome(xs).value
  {
    if xs == [] then []
    else if xs[0].Some? then [xs[0].value] + Somes(xs[1..])
    else Somes(xs[1..])
  }

  /** Appending an entry appends its value, if present. */
  lemma {:induction false} SomesAppend<T>(xs: seq<Option<T>>, o: Option<T>)
    ensures Somes(xs + [o]) == Somes(xs) + (if o.Some? then [o.value] else [])
  {
    if xs != [] {
      assert (xs + [o])[1..] == xs[1..] + [o];
      SomesAppend(xs[1..], o);
    }
  }

  /** A value is among the present entries exactly when some entry holds it. */
  lemma {:induction false} SomesMembers<T>(xs: seq<Option<T>>, x: T)
    ensures x in Somes(xs) <==> exists i :: 0 <= i < |xs| && xs[i] == Some(x)
  {
    if xs != [] {
      SomesMembers(xs[1..], x);
      if exists i :: 0 <= i < |xs| && xs[i] == Some(x) {
        var i :| 0 <= i < |xs| && xs[i] == Some(x);
        if i > 0 { assert xs[1..][i - 1] == xs[i]; }
      }
      if exists i :: 0 <= i < |xs[1..]| && xs[1..][i] == Some(x) {
        var i :| 0 <= i < |xs[1..]| && xs[1..][i] == Some(x);
        assert xs[i + 1] == Some(x);
      }
    }
  }

  /** A sequence without repeated elements. */
  predicate NoDuplicates<T(==)>(xs: seq<T>) {
    forall i, j :: 0 <= i < j < |xs| ==> xs[i] != xs[j]
  }

  /** Truncating division, as Rust's `/` on signed integers and chrono's
      duration accessors compute it (Dafny's own `/` is Euclidean). */
  function TruncDiv(a: int, b: int): (q: int)
    requires b > 0
    ensures a >= 0 ==> q == a / b
    ensures a >= 0 ==> q * b <= a < q * b + b
    ensures a < 0 ==> q * b >= a > q * b - b
  {
    if a >= 0 then a / b else -((-a) / b)
  }
}
