/** The Python data that NestedText reads into and writes from. */
module Values {
  import opened Wrappers

  /** A str, a list, a dict or None. A dict is kept as its items in insertion order, which is
      the order Python iterates a dict in. */
  datatype Value = Str(text: string) | Lst(items: seq<Value>) | Dct(entries: seq<(string, Value)>) | Null

  type Entries = seq<(string, Value)>

  /** The keys of a dict, in order. */
  function Keys(d: Entries): (ks: seq<string>)
    ensures |ks| == |d|
    ensures forall i :: 0 <= i < |d| ==> ks[i] == d[i].0
  {
    if d == [] then [] else [d[0].0] + Keys(d[1..])
  }

  /** `k in d`. */
  predicate HasKey(d: Entries, k: string) {
    k in Keys(d)
  }

  /** A Python dict never repeats a key. */
  predicate UniqueKeys(d: Entries) {
    forall i, j :: 0 <= i < j < |d| ==> d[i].0 != d[j].0
  }

  /** `d.get(k)`: the value stored under `k`. */
  function Lookup(d: Entries, k: string): (r: Option<Value>)
    ensures r.Some? <==> HasKey(d, k)
    ensures r.Some? ==> exists i :: 0 <= i < |d| && d[i] == (k, r.value)
  {
    if d == [] then None
    else if d[0].0 == k then Some(d[0].1)
    else
      var r := Lookup(d[1..], k);
      assert r.Some? ==> exists i :: 0 <= i < |d[1..]| && d[1..][i] == (k, r.value);
      r
  }

  /** `d[k] = v`: an existing key keeps its place and takes the new value; a new key goes last. */
  function Put(d: Entries, k: string, v: Value): (r: Entries)
    ensures Keys(r) == if HasKey(d, k) then Keys(d) else Keys(d) + [k]
    ensures Lookup(r, k) == Some(v)
  {
    if d == [] then [(k, v)]
    else if d[0].0 == k then [(k, v)] + d[1..]
    else
      var t := Put(d[1..], k, v);
      assert Keys(d) == [d[0].0] + Keys(d[1..]);
      assert Keys([d[0]] + t) == [d[0].0] + Keys(t);
      [d[0]] + t
  }

  /** Storing under `k` leaves every other key's value alone. */
  lemma {:induction false} PutOther(d: Entries, k: string, v: Value, k': string)
    requires k' != k
    ensures Lookup(Put(d, k, v), k') == Lookup(d, k')
  {
    if d != [] && d[0].0 != k {
      PutOther(d[1..], k, v, k');
      assert ([d[0]] + Put(d[1..], k, v))[1..] == Put(d[1..], k, v);
    }
  }

  /** Keys never repeat after a store, since equal key lists mean equal uniqueness. */
  lemma PutUnique(d: Entries, k: string, v: Value)
    requires UniqueKeys(d)
    ensures UniqueKeys(Put(d, k, v))
  {
    var r := Put(d, k, v);
    var ks := Keys(r);
    forall i, j | 0 <= i < j < |r| ensures r[i].0 != r[j].0 {
      assert ks[i] == r[i].0 && ks[j] == r[j].0;
      if !HasKey(d, k) && j == |d| {
        assert ks[j] == k;
        assert ks[i] == Keys(d)[i];
      } else {
        assert ks[i] == Keys(d)[i] && ks[j] == Keys(d)[j];
      }
    }
  }

  /** No None anywhere inside the value. */
  predicate NoNull(v: Value) {
    match v
    case Null => false
    case Str(_) => true
    case Lst(items) => forall i :: 0 <= i < |items| ==> NoNull(items[i])
    case Dct(entries) => forall i :: 0 <= i < |entries| ==> NoNull(entries[i].1)
  }

  /** Storing a new key appends it. */
  lemma {:induction false} PutNew(d: Entries, k: string, v: Value)
    requires !HasKey(d, k)
    ensures Put(d, k, v) == d + [(k, v)]
  {
    if d != [] {
      assert Keys(d) == [d[0].0] + Keys(d[1..]);
      assert d[0].0 != k && !HasKey(d[1..], k);
      PutNew(d[1..], k, v);
      assert Put(d, k, v) == [d[0]] + Put(d[1..], k, v);
    }
  }

  /** A store of a value without `None` into values without `None` brings none in. */
  lemma {:induction false} PutNoNull(d: Entries, k: string, v: Value)
    requires NoNull(v) && forall i :: 0 <= i < |d| ==> NoNull(d[i].1)
    ensures forall i :: 0 <= i < |Put(d, k, v)| ==> NoNull(Put(d, k, v)[i].1)
  {
    if d != [] && d[0].0 != k {
      PutNoNull(d[1..], k, v);
      assert Put(d, k, v) == [d[0]] + Put(d[1..], k, v);
    } else if d != [] {
      assert Put(d, k, v) == [(k, v)] + d[1..];
    }
  }
}
