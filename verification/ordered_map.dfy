/**
 * A JavaScript object used as a dictionary with string keys: `Object.values`
 * and `Object.fromEntries` see its keys in insertion order, and assigning to
 * a key that is already present keeps that key where it was.
 */
module OrderedMap {

  /** The keys in insertion order, and what each key holds. */
  datatype OMap<V> = OMap(keys: seq<string>, entries: map<string, V>)

  /** The keys listed are exactly the keys held, each listed once. */
  ghost predicate Valid<V>(m: OMap<V>) {
    && (forall i :: 0 <= i < |m.keys| ==> m.keys[i] in m.entries)
    && (forall k :: k in m.entries ==> k in m.keys)
    && (forall i, j :: 0 <= i < j < |m.keys| ==> m.keys[i] != m.keys[j])
  }

  /** `{}` */
  function Empty<V>(): (m: OMap<V>)
    ensures Valid(m) && m.keys == [] && m.entries == map[]
  {
    OMap([], map[])
  }

  /**
   * `m[k] = v`: the key keeps its place when it is already present, and is
   * appended otherwise.
   */
  function Put<V>(m: OMap<V>, k: string, v: V): (r: OMap<V>)
    ensures r.entries == m.entries[k := v]
    ensures r.keys == if k in m.entries then m.keys else m.keys + [k]
  {
    if k in m.entries then OMap(m.keys, m.entries[k := v]) else OMap(m.keys + [k], m.entries[k := v])
  }

  /** Assignment keeps the key list and the held keys in step. */
  lemma PutValid<V>(m: OMap<V>, k: string, v: V)
    requires Valid(m)
    ensures Valid(Put(m, k, v))
  {
  }

  /** `Object.values(m)`: what the keys hold, in key order. */
  function Values<V>(m: OMap<V>): (vs: seq<V>)
    requires Valid(m)
    ensures |vs| == |m.keys|
    ensures forall i :: 0 <= i < |vs| ==> vs[i] == m.entries[m.keys[i]]
  {
    seq(|m.keys|, i requires 0 <= i < |m.keys| => m.entries[m.keys[i]])
  }

  /** Every value held shows up in `Object.values`, and nothing else does. */
  lemma ValuesHeld<V>(m: OMap<V>)
    requires Valid(m)
    ensures forall k :: k in m.entries ==> m.entries[k] in Values(m)
    ensures forall v :: v in Values(m) ==> exists k :: k in m.entries && m.entries[k] == v
  {
    forall k | k in m.entries ensures m.entries[k] in Values(m) {
      var i :| 0 <= i < |m.keys| && m.keys[i] == k;
      assert Values(m)[i] == m.entries[k];
    }
  }

  /** `Object.fromEntries(pairs)`: a later pair with a key already seen overwrites the value. */
  function FromEntries<V>(pairs: seq<(string, V)>): (m: OMap<V>)
    ensures Valid(m)
    ensures forall k :: k in m.entries <==> exists i :: 0 <= i < |pairs| && pairs[i].0 == k
    decreases |pairs|
  {
    if pairs == [] then Empty()
    else
      var m := FromEntries(pairs[..|pairs| - 1]);
      var r := Put(m, pairs[|pairs| - 1].0, pairs[|pairs| - 1].1);
      PutValid(m, pairs[|pairs| - 1].0, pairs[|pairs| - 1].1);
      assert forall i :: 0 <= i < |pairs| - 1 ==> pairs[..|pairs| - 1][i] == pairs[i];
      r
  }

  /** The value `fromEntries` keeps for a key is the one of the last pair with that key. */
  lemma {:induction false} FromEntriesLastWins<V>(pairs: seq<(string, V)>, i: nat)
    requires i < |pairs|
    requires forall j :: i < j < |pairs| ==> pairs[j].0 != pairs[i].0
    ensures pairs[i].0 in FromEntries(pairs).entries
    ensures FromEntries(pairs).entries[pairs[i].0] == pairs[i].1
    decreases |pairs|
  {
    if i < |pairs| - 1 {
      var prefix := pairs[..|pairs| - 1];
      FromEntriesLastWins(prefix, i);
    }
  }

  /** Every value `fromEntries` holds is the value of some pair with its key. */
  lemma {:induction false} FromEntriesFrom<V>(pairs: seq<(string, V)>, k: string)
    requires k in FromEntries(pairs).entries
    ensures exists i :: 0 <= i < |pairs| && pairs[i] == (k, FromEntries(pairs).entries[k])
    decreases |pairs|
  {
    var n := |pairs| - 1;
    if pairs[n].0 != k {
      var prefix := pairs[..n];
      FromEntriesFrom(prefix, k);
      var i :| 0 <= i < |prefix| && prefix[i] == (k, FromEntries(prefix).entries[k]);
      assert pairs[i] == prefix[i];
    }
  }
}
