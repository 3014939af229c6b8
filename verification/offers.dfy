/**
 * Gathering what a walk over a list yields: at each step either a failure
 * (a `throw`, which ends the walk), nothing, or items to offer. Both relation
 * passes are specified by these folds over the outcomes of their steps.
 */
module Offers {
  import opened Results

  /** The items among the outcomes `os`, in order, or the first failure among them. */
  function Collect<T>(os: seq<Result<Option<T>>>): Result<seq<T>>
    decreases |os|
  {
    if os == [] then Ok([])
    else
      match Collect(os[..|os| - 1])
      case Err(f) => Err(f)
      case Ok(cs) =>
        match os[|os| - 1]
        case Err(f) => Err(f)
        case Ok(o) => Ok(if o.Some? then cs + [o.value] else cs)
  }

  /** The item lists of `rs` one after another, or the first failure among them. */
  function Concat<T>(rs: seq<Result<seq<T>>>): Result<seq<T>>
    decreases |rs|
  {
    if rs == [] then Ok([])
    else
      match Concat(rs[..|rs| - 1])
      case Err(f) => Err(f)
      case Ok(cs) =>
        match rs[|rs| - 1]
        case Err(f) => Err(f)
        case Ok(ds) => Ok(cs + ds)
  }

  /** One more step of `Collect`. */
  lemma CollectSnoc<T>(os: seq<Result<Option<T>>>, j: nat)
    requires j < |os|
    ensures Collect(os[..j + 1]) ==
            match Collect(os[..j])
            case Err(f) => Err(f)
            case Ok(cs) =>
              match os[j]
              case Err(f) => Err(f)
              case Ok(o) => Ok(if o.Some? then cs + [o.value] else cs)
  {
    assert os[..j + 1][..j] == os[..j];
  }

  /** One more step of `Concat`. */
  lemma ConcatSnoc<T>(rs: seq<Result<seq<T>>>, i: nat)
    requires i < |rs|
    ensures Concat(rs[..i + 1]) ==
            match Concat(rs[..i])
            case Err(f) => Err(f)
            case Ok(cs) =>
              match rs[i]
              case Err(f) => Err(f)
              case Ok(ds) => Ok(cs + ds)
  {
    assert rs[..i + 1][..i] == rs[..i];
  }

  /** Once a prefix has failed, the whole walk fails the same way. */
  lemma {:induction false} CollectSticky<T>(os: seq<Result<Option<T>>>, n: nat)
    requires n <= |os| && Collect(os[..n]).Err?
    ensures Collect(os) == Collect(os[..n])
    decreases |os|
  {
    if n < |os| {
      var prefix := os[..|os| - 1];
      assert prefix[..n] == os[..n];
      CollectSticky(prefix, n);
    } else {
      assert os[..n] == os;
    }
  }

  /** Once a prefix has failed, the whole walk fails the same way. */
  lemma {:induction false} ConcatSticky<T>(rs: seq<Result<seq<T>>>, n: nat)
    requires n <= |rs| && Concat(rs[..n]).Err?
    ensures Concat(rs) == Concat(rs[..n])
    decreases |rs|
  {
    if n < |rs| {
      var prefix := rs[..|rs| - 1];
      assert prefix[..n] == rs[..n];
      ConcatSticky(prefix, n);
    } else {
      assert rs[..n] == rs;
    }
  }

  /** The walk fails exactly when one of its steps fails, and then with the first such failure. */
  lemma {:induction false} CollectErr<T>(os: seq<Result<Option<T>>>)
    ensures Collect(os).Err? <==> exists j :: 0 <= j < |os| && os[j].Err?
    ensures Collect(os).Err? ==>
            exists j :: 0 <= j < |os| && os[j] == Err(Collect(os).fault) && forall k :: 0 <= k < j ==> os[k].Ok?
    decreases |os|
  {
    if os != [] {
      var prefix := os[..|os| - 1];
      CollectErr(prefix);
      assert forall j :: 0 <= j < |prefix| ==> prefix[j] == os[j];
    }
  }

  /** When no step fails, the items gathered are exactly those the steps yield. */
  lemma {:induction false} CollectMembers<T>(os: seq<Result<Option<T>>>, x: T)
    requires Collect(os).Ok?
    ensures x in Collect(os).value <==> exists j :: 0 <= j < |os| && os[j] == Ok(Some(x))
    decreases |os|
  {
    if os != [] {
      var prefix := os[..|os| - 1];
      CollectMembers(prefix, x);
      assert forall j :: 0 <= j < |prefix| ==> prefix[j] == os[j];
    }
  }

  /** A walk that does not fail gathers the items of its first `n` steps, then those of the rest. */
  lemma {:induction false} CollectSplit<T>(os: seq<Result<Option<T>>>, n: nat)
    requires n <= |os| && Collect(os).Ok?
    ensures Collect(os[..n]).Ok? && Collect(os[n..]).Ok?
    ensures Collect(os).value == Collect(os[..n]).value + Collect(os[n..]).value
    decreases |os|
  {
    if n == |os| {
      assert os[..n] == os && os[n..] == [];
    } else {
      var prefix := os[..|os| - 1];
      CollectSplit(prefix, n);
      assert prefix[..n] == os[..n];
      assert os[n..][..|os[n..]| - 1] == prefix[n..];
      assert os[n..][|os[n..]| - 1] == os[|os| - 1];
    }
  }

  /** The lists fail exactly when one of them fails, and then with the first such failure. */
  lemma {:induction false} ConcatErr<T>(rs: seq<Result<seq<T>>>)
    ensures Concat(rs).Err? <==> exists i :: 0 <= i < |rs| && rs[i].Err?
    ensures Concat(rs).Err? ==>
            exists i :: 0 <= i < |rs| && rs[i] == Err(Concat(rs).fault) && forall k :: 0 <= k < i ==> rs[k].Ok?
    decreases |rs|
  {
    if rs != [] {
      var prefix := rs[..|rs| - 1];
      ConcatErr(prefix);
      assert forall i :: 0 <= i < |prefix| ==> prefix[i] == rs[i];
    }
  }

  /** When no list fails, the items gathered are exactly those of the lists. */
  lemma {:induction false} ConcatMembers<T>(rs: seq<Result<seq<T>>>, x: T)
    requires Concat(rs).Ok?
    ensures forall i :: 0 <= i < |rs| ==> rs[i].Ok?
    ensures x in Concat(rs).value <==> exists i :: 0 <= i < |rs| && x in rs[i].value
    decreases |rs|
  {
    ConcatErr(rs);
    if rs != [] {
      var prefix := rs[..|rs| - 1];
      ConcatMembers(prefix, x);
      assert forall i :: 0 <= i < |prefix| ==> prefix[i] == rs[i];
    }
  }
}
