/**
 * The iterator adaptors the traversal code chains over in-band error streams:
 * `flat_map` that passes an `Err` through as one item and expands an `Ok`,
 * `filter` that drops `NonSection` errors, and `collect::<Result<Vec<_>, _>>`,
 * which stops at the first error. A stream is modelled by the finite sequence of
 * everything it yields.
 */
module Streams {
  import opened Wrappers
  import opened Layout

  /** What one item of the outer stream contributes to a `flat_map`. */
  function Expand(x: Item, f: string -> seq<Item>): seq<Item> {
    match x
    case Err(e) => [Err(e)]
    case Ok(v) => f(v)
  }

  /** `flat_map(|r| match r { Err(e) => once(Err(e)), Ok(id) => f(id) })`. */
  function FlatMap(xs: seq<Item>, f: string -> seq<Item>): (r: seq<Item>)
    ensures forall i | 0 <= i < |xs| && xs[i].Err? :: xs[i] in r
  {
    if xs == [] then []
    else
      assert forall i | 1 <= i < |xs| :: xs[i] == xs[1..][i - 1];
      Expand(xs[0], f) + FlatMap(xs[1..], f)
  }

  /** Flattening distributes over concatenation: each input item expands on its own. */
  lemma {:induction false} FlatMapAppend(xs: seq<Item>, ys: seq<Item>, f: string -> seq<Item>)
    ensures FlatMap(xs + ys, f) == FlatMap(xs, f) + FlatMap(ys, f)
  {
    if xs == [] {
      assert xs + ys == ys;
    } else {
      assert (xs + ys)[1..] == xs[1..] + ys;
      FlatMapAppend(xs[1..], ys, f);
    }
  }

  /** An `Err` item of the outer stream contributes exactly itself; an `Ok(v)`
   *  contributes exactly `f(v)`. */
  lemma FlatMapSnoc(xs: seq<Item>, x: Item, f: string -> seq<Item>)
    ensures x.Err? ==> FlatMap(xs + [x], f) == FlatMap(xs, f) + [x]
    ensures x.Ok? ==> FlatMap(xs + [x], f) == FlatMap(xs, f) + f(x.value)
  {
    FlatMapAppend(xs, [x], f);
  }

  /** Every item of a flattened stream is an error of the outer stream or an item
   *  of the expansion of one of its `Ok` values. */
  lemma {:induction false} FlatMapOrigin(xs: seq<Item>, f: string -> seq<Item>, y: Item)
    requires y in FlatMap(xs, f)
    ensures (y.Err? && y in xs) || exists i | 0 <= i < |xs| :: xs[i].Ok? && y in f(xs[i].value)
  {
    if y in Expand(xs[0], f) {
      assert xs[0] == xs[0];
    } else {
      FlatMapOrigin(xs[1..], f, y);
      if !(y.Err? && y in xs[1..]) {
        var i :| 0 <= i < |xs[1..]| && xs[1..][i].Ok? && y in f(xs[1..][i].value);
        assert xs[i + 1] == xs[1..][i];
      }
    }
  }

  /** Expansions that agree on every `Ok` value of the stream flatten alike. */
  lemma {:induction false} FlatMapCongruence(xs: seq<Item>, f: string -> seq<Item>, g: string -> seq<Item>)
    requires forall i | 0 <= i < |xs| && xs[i].Ok? :: f(xs[i].value) == g(xs[i].value)
    ensures FlatMap(xs, f) == FlatMap(xs, g)
  {
    if xs != [] {
      assert forall i | 0 <= i < |xs[1..]| && xs[1..][i].Ok? :: xs[1..][i] == xs[i + 1];
      FlatMapCongruence(xs[1..], f, g);
    }
  }

  /** Nested flattening equals flattening twice. */
  lemma {:induction false} FlatMapAssoc(xs: seq<Item>, f: string -> seq<Item>, g: string -> seq<Item>)
    ensures FlatMap(FlatMap(xs, f), g) == FlatMap(xs, v => FlatMap(f(v), g))
  {
    if xs != [] {
      FlatMapAppend(Expand(xs[0], f), FlatMap(xs[1..], f), g);
      FlatMapAssoc(xs[1..], f, g);
      if xs[0].Err? {
        assert FlatMap([xs[0]], g) == [xs[0]] by {
          assert [xs[0]][1..] == [];
        }
      }
    }
  }

  predicate IsNonSection(x: Item) {
    x.Err? && x.error.NonSection?
  }

  /** `filter(|e| !matches!(e, Err(NonSection(..))))`. */
  function DropNonSection(xs: seq<Item>): (r: seq<Item>)
    ensures forall y | y in r :: y in xs && !IsNonSection(y)
    ensures forall i | 0 <= i < |xs| && !IsNonSection(xs[i]) :: xs[i] in r
  {
    if xs == [] then []
    else
      assert forall i | 1 <= i < |xs| :: xs[i] == xs[1..][i - 1];
      if IsNonSection(xs[0]) then DropNonSection(xs[1..])
      else [xs[0]] + DropNonSection(xs[1..])
  }

  /** `collect::<Result<Vec<String>, _>>()`: every value, or the first error. */
  function Collect(xs: seq<Item>): (r: Result<seq<string>, DirError>)
    ensures r.Ok? <==> forall i | 0 <= i < |xs| :: xs[i].Ok?
    ensures r.Ok? ==> |r.value| == |xs| && forall i | 0 <= i < |xs| :: r.value[i] == xs[i].value
    ensures r.Err? ==> exists i | 0 <= i < |xs| :: xs[i] == Err(r.error) && forall j | 0 <= j < i :: xs[j].Ok?
  {
    if xs == [] then Ok([])
    else match xs[0]
      case Err(e) => Err(e)
      case Ok(v) =>
        match Collect(xs[1..])
        case Err(e) =>
          assert forall j | 0 <= j < |xs[1..]| :: xs[1..][j] == xs[j + 1];
          Err(e)
        case Ok(vs) => Ok([v] + vs)
  }

  /** The values of the `Ok` items, in stream order. */
  function OkValues(xs: seq<Item>): seq<string> {
    if xs == [] then []
    else if xs[0].Ok? then [xs[0].value] + OkValues(xs[1..])
    else OkValues(xs[1..])
  }

  /** Dropping `NonSection` items and collecting succeeds exactly when every other
   *  item is `Ok`, and then yields all `Ok` values in order; otherwise it fails with
   *  the first error that is not `NonSection`. */
  lemma {:induction false} CollectDropped(xs: seq<Item>)
    ensures Collect(DropNonSection(xs)).Ok? <==> forall i | 0 <= i < |xs| :: xs[i].Ok? || IsNonSection(xs[i])
    ensures Collect(DropNonSection(xs)).Ok? ==> Collect(DropNonSection(xs)).value == OkValues(xs)
    ensures Collect(DropNonSection(xs)).Err? ==>
      var e := Collect(DropNonSection(xs)).error;
      !e.NonSection? &&
      exists i | 0 <= i < |xs| :: xs[i] == Err(e) && forall j | 0 <= j < i :: xs[j].Ok? || IsNonSection(xs[j])
  {
    if xs != [] {
      CollectDropped(xs[1..]);
      assert forall j | 0 <= j < |xs[1..]| :: xs[1..][j] == xs[j + 1];
      if !IsNonSection(xs[0]) && xs[0].Ok? {
        assert DropNonSection(xs) == [xs[0]] + DropNonSection(xs[1..]);
        assert ([xs[0]] + DropNonSection(xs[1..]))[1..] == DropNonSection(xs[1..]);
        if Collect(DropNonSection(xs)).Err? {
          var e := Collect(DropNonSection(xs)).error;
          var i :| 0 <= i < |xs[1..]| && xs[1..][i] == Err(e)
            && forall j | 0 <= j < i :: xs[1..][j].Ok? || IsNonSection(xs[1..][j]);
          assert xs[i + 1] == Err(e);
        }
      }
    }
  }
}
