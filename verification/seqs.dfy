/** The array combinators the handlers use: `map`, `filter` after `map`, and `join`. */
module Seqs {
  import opened Wrappers

  /** `xs.map(f)`. */
  function MapSeq<A, B>(xs: seq<A>, f: A -> B): (r: seq<B>)
    ensures |r| == |xs|
    ensures forall i :: 0 <= i < |xs| ==> r[i] == f(xs[i])
  {
    seq(|xs|, i requires 0 <= i < |xs| => f(xs[i]))
  }

  /** What one element contributes to a filter-map: its image when there is one, otherwise nothing. */
  function Image<A, B>(f: A -> Option<B>, x: A): (r: seq<B>)
    ensures |r| <= 1
    ensures r == [] <==> f(x).None?
    ensures f(x).Some? ==> r == [f(x).value]
  {
    match f(x)
    case Some(y) => [y]
    case None => []
  }

  /**
   * `xs.map(g).filter(keep)` folded into one pass: `f(x)` is `Some(g(x))` when
   * `g(x)` is kept and `None` when it is dropped.
   */
  function FilterMap<A, B>(xs: seq<A>, f: A -> Option<B>): (r: seq<B>)
    ensures |r| <= |xs|
    decreases |xs|
  {
    if |xs| == 0 then []
    else
      Image(f, xs[0]) + FilterMap(xs[1..], f)
  }

  /** `xs.map((x, i) => f(i, x))`. */
  function MapIndexed<A, B>(xs: seq<A>, f: (nat, A) -> B): (r: seq<B>)
    ensures |r| == |xs|
    ensures forall i :: 0 <= i < |xs| ==> r[i] == f(i, xs[i])
  {
    seq(|xs|, i requires 0 <= i < |xs| => f(i, xs[i]))
  }

  /** The concatenation of a list of lists, in order. */
  function Flatten<T>(xss: seq<seq<T>>): seq<T>
    decreases |xss|
  {
    if |xss| == 0 then [] else Flatten(xss[..|xss| - 1]) + xss[|xss| - 1]
  }

  /** A flattening is empty exactly when every piece is. */
  lemma {:induction false} FlattenEmpty<T>(xss: seq<seq<T>>)
    ensures Flatten(xss) == [] <==> forall i :: 0 <= i < |xss| ==> xss[i] == []
    decreases |xss|
  {
    if |xss| > 0 {
      var init := xss[..|xss| - 1];
      FlattenEmpty(init);
      assert forall i :: 0 <= i < |init| ==> init[i] == xss[i];
    }
  }

  /** Mapping one more element with its index appends its image. */
  lemma MapIndexedSnoc<A, B>(xs: seq<A>, f: (nat, A) -> B, n: nat)
    requires n < |xs|
    ensures MapIndexed(xs[..n + 1], f) == MapIndexed(xs[..n], f) + [f(n, xs[n])]
  {
  }

  /** `parts.join(sep)`: the separator goes between parts, never at the ends. */
  function JoinWith(parts: seq<string>, sep: string): string
    decreases |parts|
  {
    if |parts| == 0 then ""
    else if |parts| == 1 then parts[0]
    else parts[0] + sep + JoinWith(parts[1..], sep)
  }

  /** The output of a filter-map is the concatenation of the outputs for each piece: order is preserved. */
  lemma {:induction false} FilterMapConcat<A, B>(xs: seq<A>, ys: seq<A>, f: A -> Option<B>)
    ensures FilterMap(xs + ys, f) == FilterMap(xs, f) + FilterMap(ys, f)
    decreases |xs|
  {
    if |xs| == 0 {
      assert xs + ys == ys;
    } else {
      assert (xs + ys)[0] == xs[0];
      assert (xs + ys)[1..] == xs[1..] + ys;
      FilterMapConcat(xs[1..], ys, f);
    }
  }

  /** A one-element input yields its image, or nothing. */
  lemma FilterMapSingle<A, B>(x: A, f: A -> Option<B>)
    ensures FilterMap([x], f) == Image(f, x)
  {
    assert [x][1..] == [];
  }

  /**
   * Position by position: splitting the input at any element, that element
   * contributes exactly its image (or nothing) between the outputs of the two
   * sides.
   */
  lemma FilterMapAt<A, B>(xs: seq<A>, i: nat, f: A -> Option<B>)
    requires i < |xs|
    ensures FilterMap(xs, f) == FilterMap(xs[..i], f) + Image(f, xs[i]) + FilterMap(xs[i + 1..], f)
  {
    var before, here, after := xs[..i], [xs[i]], xs[i + 1..];
    assert here + after == xs[i..] by {
      assert forall k :: 0 <= k < |xs[i..]| ==> (here + after)[k] == xs[i..][k];
    }
    assert xs == before + xs[i..];
    FilterMapConcat(before, here + after, f);
    FilterMapConcat(here, after, f);
    FilterMapSingle(xs[i], f);
    ConcatAssoc(FilterMap(before, f), FilterMap(here, f), FilterMap(after, f));
  }

  /** Membership in both directions: an output is the image of some input, and every image is an output. */
  lemma {:induction false} FilterMapMembership<A, B>(xs: seq<A>, f: A -> Option<B>, y: B)
    ensures y in FilterMap(xs, f) <==> exists i :: 0 <= i < |xs| && f(xs[i]) == Some(y)
    decreases |xs|
  {
    if |xs| > 0 {
      FilterMapMembership(xs[1..], f, y);
      if y in FilterMap(xs[1..], f) {
        var i :| 0 <= i < |xs[1..]| && f(xs[1..][i]) == Some(y);
        assert f(xs[i + 1]) == Some(y);
      }
      if exists i :: 0 <= i < |xs| && f(xs[i]) == Some(y) {
        var i :| 0 <= i < |xs| && f(xs[i]) == Some(y);
        if i > 0 {
          assert f(xs[1..][i - 1]) == Some(y);
        }
      }
    }
  }

  /**
   * Re-running a filter-map over the encodings of its own outputs changes
   * nothing, provided `f` decodes each encoding back to the value.
   */
  lemma {:induction false} FilterMapFixpoint<A, B>(ys: seq<B>, enc: B -> A, f: A -> Option<B>)
    requires forall k :: 0 <= k < |ys| ==> f(enc(ys[k])) == Some(ys[k])
    ensures FilterMap(MapSeq(ys, enc), f) == ys
    decreases |ys|
  {
    if |ys| > 0 {
      var xs := MapSeq(ys, enc);
      assert xs[1..] == MapSeq(ys[1..], enc);
      FilterMapFixpoint(ys[1..], enc, f);
      assert f(xs[0]) == Some(ys[0]);
      assert ys == [ys[0]] + ys[1..];
    }
  }

  /** All the values when every element is present, and nothing as soon as one is missing. */
  function AllSome<T>(xs: seq<Option<T>>): (r: Option<seq<T>>)
    ensures r.Some? <==> forall i :: 0 <= i < |xs| ==> xs[i].Some?
    ensures r.Some? ==> |r.value| == |xs| && forall i :: 0 <= i < |xs| ==> r.value[i] == xs[i].value
    decreases |xs|
  {
    if |xs| == 0 then Some([])
    else
      match xs[0]
      case None => None
      case Some(x) =>
        match AllSome(xs[1..])
        case None => None
        case Some(rest) => Some([x] + rest)
  }

  lemma JoinPair(a: string, b: string, sep: string)
    ensures JoinWith([a, b], sep) == a + sep + b
  {
    assert [a, b][1..] == [b];
  }

  lemma ConcatAssoc<T>(a: seq<T>, b: seq<T>, c: seq<T>)
    ensures a + (b + c) == a + b + c
  {
  }
}
