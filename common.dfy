/** Sequence helpers shared by the model: JavaScript's `Array.prototype.flat`
    (one level), the way React drops `null` children, and an Option type
    standing for `undefined`. */
module Common {

  datatype Option<+T> = None | Some(value: T)

  /** One level of `flat()`: the concatenation of the inner sequences. */
  function Flat<T>(xss: seq<seq<T>>): (r: seq<T>)
  {
    if xss == [] then [] else xss[0] + Flat(xss[1..])
  }

  /** The present values of `xs`, in order (what React mounts of a child list
      that holds `null`s). */
  function Somes<T>(xs: seq<Option<T>>): (r: seq<T>)
  {
    if xs == [] then []
    else if xs[0].Some? then [xs[0].value] + Somes(xs[1..])
    else Somes(xs[1..])
  }

  lemma {:induction false} FlatMember<T>(xss: seq<seq<T>>, x: T)
    ensures x in Flat(xss) <==> exists i :: 0 <= i < |xss| && x in xss[i]
  {
    if xss != [] {
      FlatMember(xss[1..], x);
      if x in Flat(xss[1..]) {
        var i :| 0 <= i < |xss[1..]| && x in xss[1..][i];
        assert x in xss[i + 1];
      }
      if exists i :: 0 <= i < |xss| && x in xss[i] {
        var i :| 0 <= i < |xss| && x in xss[i];
        if i > 0 {
          assert x in xss[1..][i - 1];
        }
      }
    }
  }

  lemma {:induction false} FlatLength<T>(xss: seq<seq<T>>, n: nat)
    requires forall i | 0 <= i < |xss| :: |xss[i]| == n
    ensures |Flat(xss)| == |xss| * n
  {
    if xss != [] {
      FlatLength(xss[1..], n);
    }
  }

  /** A flattened square of rows of length three is read in row-major order. */
  lemma FlatThree<T>(xss: seq<seq<T>>)
    requires |xss| == 3 && forall i | 0 <= i < 3 :: |xss[i]| == 3
    ensures |Flat(xss)| == 9
    ensures forall k | 0 <= k < 9 :: Flat(xss)[k] == xss[k / 3][k % 3]
  {
    assert Flat(xss[3..]) == [];
    assert Flat(xss[2..]) == xss[2];
    assert Flat(xss[1..]) == xss[1] + xss[2];
    assert Flat(xss) == xss[0] + xss[1] + xss[2];
  }

  lemma {:induction false} SomesMember<T>(xs: seq<Option<T>>, x: T)
    ensures x in Somes(xs) <==> Some(x) in xs
  {
    if xs != [] {
      SomesMember(xs[1..], x);
      assert xs == [xs[0]] + xs[1..];
    }
  }
}
