/**
 * Keeping the first item of each id: what both relation passes do with their
 * `relations` list and the set of ids already seen, stated once over any item
 * type and any id function.
 */
module Dedup {

  /** The ids of the items of `xs`. */
  function IdSet<T>(xs: seq<T>, id: T -> string): set<string>
  {
    set i | 0 <= i < |xs| :: id(xs[i])
  }

  /** No two items of `xs` share an id. */
  predicate DistinctIds<T>(xs: seq<T>, id: T -> string)
  {
    forall i, j :: 0 <= i < j < |xs| ==> id(xs[i]) != id(xs[j])
  }

  /** `if (!ids.has(x.id)) { list.push(x); ids.add(x.id) }`, seen on the list alone. */
  function AddIfNew<T>(xs: seq<T>, x: T, id: T -> string): seq<T>
  {
    if id(x) in IdSet(xs, id) then xs else xs + [x]
  }

  /** Offering the candidates `cs` to `xs` one after another, in order. */
  function AddAll<T>(xs: seq<T>, cs: seq<T>, id: T -> string): seq<T>
    decreases |cs|
  {
    if cs == [] then xs else AddIfNew(AddAll(xs, cs[..|cs| - 1], id), cs[|cs| - 1], id)
  }

  /** The candidates `cs` with every item whose id was already seen dropped. */
  function KeepFirst<T>(cs: seq<T>, id: T -> string): seq<T>
  {
    AddAll([], cs, id)
  }

  /** Adding one item adds its id to the id set and keeps the ids distinct. */
  lemma AddIfNewIds<T>(xs: seq<T>, x: T, id: T -> string)
    ensures IdSet(AddIfNew(xs, x, id), id) == IdSet(xs, id) + {id(x)}
    ensures DistinctIds(xs, id) ==> DistinctIds(AddIfNew(xs, x, id), id)
  {
    if id(x) !in IdSet(xs, id) {
      var ys := xs + [x];
      assert id(ys[|xs|]) in IdSet(ys, id);
      forall k | k in IdSet(ys, id) ensures k in IdSet(xs, id) + {id(x)} {
        var i :| 0 <= i < |ys| && k == id(ys[i]);
        if i < |xs| {
          assert ys[i] == xs[i];
        }
      }
      forall k | k in IdSet(xs, id) ensures k in IdSet(ys, id) {
        var i :| 0 <= i < |xs| && k == id(xs[i]);
        assert ys[i] == xs[i];
      }
      if DistinctIds(xs, id) {
        forall i, j | 0 <= i < j < |ys| ensures id(ys[i]) != id(ys[j]) {
          if j == |xs| {
            assert id(xs[i]) in IdSet(xs, id);
          }
        }
      }
    }
  }

  /** Offering candidates in two batches is offering them all at once. */
  lemma {:induction false} AddAllAppend<T>(xs: seq<T>, cs: seq<T>, ds: seq<T>, id: T -> string)
    ensures AddAll(xs, cs + ds, id) == AddAll(AddAll(xs, cs, id), ds, id)
    decreases |ds|
  {
    if ds == [] {
      assert cs + ds == cs;
    } else {
      var ds' := ds[..|ds| - 1];
      AddAllAppend(xs, cs, ds', id);
      assert (cs + ds)[..|cs + ds| - 1] == cs + ds';
    }
  }

  /**
   * The ids after offering `cs` are the ids before plus those of `cs`
   * (every candidate's id ends up present); distinct ids stay distinct.
   */
  lemma {:induction false} AddAllIds<T>(xs: seq<T>, cs: seq<T>, id: T -> string)
    ensures IdSet(AddAll(xs, cs, id), id) == IdSet(xs, id) + IdSet(cs, id)
    ensures DistinctIds(xs, id) ==> DistinctIds(AddAll(xs, cs, id), id)
    decreases |cs|
  {
    if cs != [] {
      var cs' := cs[..|cs| - 1];
      AddAllIds(xs, cs', id);
      AddIfNewIds(AddAll(xs, cs', id), cs[|cs| - 1], id);
      assert IdSet(cs, id) == IdSet(cs', id) + {id(cs[|cs| - 1])} by {
        forall k | k in IdSet(cs, id) ensures k in IdSet(cs', id) + {id(cs[|cs| - 1])} {
          var i :| 0 <= i < |cs| && k == id(cs[i]);
          if i < |cs| - 1 {
            assert cs[i] == cs'[i];
          }
        }
        forall k | k in IdSet(cs', id) ensures k in IdSet(cs, id) {
          var i :| 0 <= i < |cs'| && k == id(cs'[i]);
          assert cs[i] == cs'[i];
        }
      }
    }
  }

  /** Everything kept was already there or is one of the candidates. */
  lemma {:induction false} AddAllFrom<T>(xs: seq<T>, cs: seq<T>, id: T -> string)
    ensures forall y :: y in AddAll(xs, cs, id) ==> y in xs || y in cs
    decreases |cs|
  {
    if cs != [] {
      var cs' := cs[..|cs| - 1];
      AddAllFrom(xs, cs', id);
      forall y | y in cs' ensures y in cs {
        var i :| 0 <= i < |cs'| && cs'[i] == y;
        assert cs[i] == y;
      }
    }
  }

  /**
   * The first candidate carrying a given id is kept: a later candidate with
   * the same id, visited from the other side of the relation, is dropped.
   */
  lemma {:induction false} KeepFirstKeepsFirst<T>(cs: seq<T>, id: T -> string, j: nat)
    requires j < |cs|
    requires forall k :: 0 <= k < j ==> id(cs[k]) != id(cs[j])
    ensures cs[j] in KeepFirst(cs, id)
    decreases |cs|
  {
    var cs' := cs[..|cs| - 1];
    if j < |cs| - 1 {
      KeepFirstKeepsFirst(cs', id, j);
    } else {
      AddAllIds([], cs', id);
      assert IdSet([], id) == {};
    }
  }
}
