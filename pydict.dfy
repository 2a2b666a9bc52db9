/** Python dictionaries with string keys, which remember the order their keys were first inserted. */
module PyDicts {

  predicate Distinct(keys: seq<string>) {
    forall i, j :: 0 <= i < j < |keys| ==> keys[i] != keys[j]
  }

  /** A Python `dict` with string keys: its keys in insertion order and the value of each. */
  datatype RawDict<V> = Dict(keys: seq<string>, values: map<string, V>)

  /**
   * The keys are distinct, each has a value, and there are no other values:
   * the map has exactly as many entries as there are keys.
   */
  type PyDict<V> = d: RawDict<V> | Distinct(d.keys) && |d.values| == |d.keys| && forall i :: 0 <= i < |d.keys| ==> d.keys[i] in d.values
    witness Dict([], map[])

  /** `d[k] = v`: an existing key keeps its place, a new one goes last. */
  function Put<V>(d: PyDict<V>, k: string, v: V): (r: PyDict<V>)
    ensures r.values == d.values[k := v]
    ensures k in d.values ==> r.keys == d.keys
    ensures k !in d.values ==> r.keys == d.keys + [k]
  {
    if k in d.values then Dict(d.keys, d.values[k := v])
    else Dict(d.keys + [k], d.values[k := v])
  }

  /** What `d[k] = v` leaves of `d`: every other key and its value. */
  lemma PutKeepsOthers<V>(d: PyDict<V>, k: string, v: V)
    ensures var r := Put(d, k, v);
      && r.values.Keys == d.values.Keys + {k} && r.values[k] == v
      && (k in d.values ==> r.keys == d.keys)
      && forall j :: j in d.values && j != k ==> r.values[j] == d.values[j]
  {
  }

  /** Assigning to a key the dictionary holds changes that key's value and nothing else. */
  lemma PutExisting<V>(d: PyDict<V>, k: string, v: V)
    requires k in d.values
    ensures var r := Put(d, k, v);
      && r.keys == d.keys && r.values.Keys == d.values.Keys && r.values[k] == v
      && forall j :: j in d.values && j != k ==> r.values[j] == d.values[j]
  {
  }

  /** A row as `csv.DictReader` yields it, and as `csv.DictWriter` takes it: column name to cell. */
  type CsvRow = PyDict<string>

}
