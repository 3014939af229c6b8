/**
 * Gathering what nested loops push: the present values of a list of
 * possible values, and a list of lists one after another. The second
 * relation pass (src/lib/parser.ts) is specified by these folds over what
 * each of its loop turns offers.
 */
module Lists {
  import opened Results

  /** The present values among `os`, in order. */
  function Somes<T>(os: seq<Option<T>>): seq<T>
    decreases |os|
  {
    if os == [] then []
    else if os[|os| - 1].Some? then Somes(os[..|os| - 1]) + [os[|os| - 1].value]
    else Somes(os[..|os| - 1])
  }

  /** The lists `xss` one after another. */
  function Flatten<T>(xss: seq<seq<T>>): seq<T>
    decreases |xss|
  {
    if xss == [] then [] else Flatten(xss[..|xss| - 1]) + xss[|xss| - 1]
  }

  /** One more step of `Somes`. */
  lemma SomesSnoc<T>(os: seq<Option<T>>, j: nat)
    requires j < |os|
    ensures Somes(os[..j + 1]) == if os[j].Some? then Somes(os[..j]) + [os[j].value] else Somes(os[..j])
  {
    assert os[..j + 1][..j] == os[..j];
  }

  /** One more step of `Flatten`. */
  lemma FlattenSnoc<T>(xss: seq<seq<T>>, i: nat)
    requires i < |xss|
    ensures Flatten(xss[..i + 1]) == Flatten(xss[..i]) + xss[i]
  {
    assert xss[..i + 1][..i] == xss[..i];
  }

  /** A value is kept exactly when some position holds it. */
  lemma {:induction false} SomesMembers<T>(os: seq<Option<T>>, x: T)
    ensures x in Somes(os) <==> exists j :: 0 <= j < |os| && os[j] == Some(x)
    decreases |os|
  {
    if os != [] {
      var prefix := os[..|os| - 1];
      SomesMembers(prefix, x);
      assert forall j :: 0 <= j < |prefix| ==> prefix[j] == os[j];
    }
  }

  /** An item of the joined lists is an item of one of them, and every such item is kept. */
  lemma {:induction false} FlattenMembers<T>(xss: seq<seq<T>>, x: T)
    ensures x in Flatten(xss) <==> exists i :: 0 <= i < |xss| && x in xss[i]
    decreases |xss|
  {
    if xss != [] {
      var prefix := xss[..|xss| - 1];
      FlattenMembers(prefix, x);
      assert forall i :: 0 <= i < |prefix| ==> prefix[i] == xss[i];
    }
  }
}
