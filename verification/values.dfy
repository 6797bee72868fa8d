/**
  JSON-like values as they travel between the Django backend and the Vue
  client: the body of a DRF response on one side, `response.data` of an
  axios error on the other. Objects keep their members in insertion order,
  as Python dicts do; the client only looks members up by name, so
  JavaScript's ordering of integer-like keys plays no part.
 */
module Values {

  datatype Option<T> = None | Some(value: T)

  /** A body value; `Arr` is a Python list / JS array, `Obj` a Python dict / JS object. */
  datatype Value =
    | Null
    | Bool(b: bool)
    | Num(n: int)
    | Str(s: string)
    | Arr(items: seq<Value>)
    | Obj(members: seq<(string, Value)>)

  /** An object's members in insertion order. */
  type Dict = seq<(string, Value)>

  function Keys(d: Dict): set<string>
  {
    set i | 0 <= i < |d| :: d[i].0
  }

  /** What every Python dict satisfies: no key occurs twice. */
  predicate UniqueKeys(d: Dict)
  {
    forall i, j :: 0 <= i < j < |d| ==> d[i].0 != d[j].0
  }

  lemma KeysOfSnoc(d: Dict, entry: (string, Value))
    ensures Keys(d + [entry]) == Keys(d) + {entry.0}
  {
    var e := d + [entry];
    assert e[|d|] == entry;
    forall k | k in Keys(e) ensures k in Keys(d) + {entry.0} {
      var i :| 0 <= i < |e| && e[i].0 == k;
      if i < |d| { assert d[i] == e[i]; }
    }
    forall k | k in Keys(d) ensures k in Keys(e) {
      var i :| 0 <= i < |d| && d[i].0 == k;
      assert e[i] == d[i];
    }
  }

  /**
    Member lookup. The last occurrence of a key wins, as in JSON.parse;
    for a dict with unique keys it is the only one.
   */
  function Get(d: Dict, k: string): (r: Option<Value>)
    ensures r.Some? <==> k in Keys(d)
    decreases |d|
  {
    if d == [] then None
    else
      var init := d[..|d| - 1];
      assert d == init + [d[|d| - 1]];
      KeysOfSnoc(init, d[|d| - 1]);
      if d[|d| - 1].0 == k then Some(d[|d| - 1].1) else Get(init, k)
  }

  /** `d` with the value of every occurrence of `k` replaced by `v`. */
  function Replace(d: Dict, k: string, v: Value): (r: Dict)
    ensures |r| == |d|
    ensures forall i :: 0 <= i < |d| ==> r[i].0 == d[i].0
    ensures forall i :: 0 <= i < |d| && d[i].0 == k ==> r[i].1 == v
    ensures forall i :: 0 <= i < |d| && d[i].0 != k ==> r[i] == d[i]
  {
    seq(|d|, i requires 0 <= i < |d| => if d[i].0 == k then (k, v) else d[i])
  }

  /**
    Item assignment `d[k] = v`: a key already present keeps its place and
    takes the new value, a new key is appended at the end.
   */
  function DictSet(d: Dict, k: string, v: Value): Dict
  {
    if k in Keys(d) then Replace(d, k, v) else d + [(k, v)]
  }

  lemma {:induction false} GetReplace(d: Dict, k: string, v: Value, k': string)
    ensures Get(Replace(d, k, v), k') == if k' == k && k in Keys(d) then Some(v) else Get(d, k')
    decreases |d|
  {
    if d != [] {
      var n := |d| - 1;
      var r := Replace(d, k, v);
      assert r[..n] == Replace(d[..n], k, v);
      GetReplace(d[..n], k, v, k');
      assert d == d[..n] + [d[n]];
      KeysOfSnoc(d[..n], d[n]);
    }
  }

  /** Item assignment behaves as a finite map update and keeps a dict's keys unique. */
  lemma DictSetSpec(d: Dict, k: string, v: Value)
    ensures Keys(DictSet(d, k, v)) == Keys(d) + {k}
    ensures forall k' :: Get(DictSet(d, k, v), k') == if k' == k then Some(v) else Get(d, k')
    ensures UniqueKeys(d) ==> UniqueKeys(DictSet(d, k, v))
    ensures k !in Keys(d) ==> DictSet(d, k, v) == d + [(k, v)]
  {
    if k in Keys(d) {
      var r := Replace(d, k, v);
      forall k' ensures Get(r, k') == if k' == k then Some(v) else Get(d, k') {
        GetReplace(d, k, v, k');
      }
      forall x | x in Keys(r) ensures x in Keys(d) {
        var i :| 0 <= i < |r| && r[i].0 == x;
        assert d[i].0 == x;
      }
      forall x | x in Keys(d) ensures x in Keys(r) {
        var i :| 0 <= i < |d| && d[i].0 == x;
        assert r[i].0 == x;
      }
    } else {
      var r := d + [(k, v)];
      KeysOfSnoc(d, (k, v));
      forall k' ensures Get(r, k') == if k' == k then Some(v) else Get(d, k') {
        assert r[..|r| - 1] == d;
      }
      if UniqueKeys(d) {
        forall i, j | 0 <= i < j < |r| ensures r[i].0 != r[j].0 {
          if j == |d| { assert r[i] == d[i]; assert d[i].0 in Keys(d); }
        }
      }
    }
  }

  /** JavaScript truthiness of a defined value. */
  predicate Truthy(v: Value)
  {
    match v
    case Null => false
    case Bool(b) => b
    case Num(n) => n != 0
    case Str(s) => s != ""
    case Arr(_) => true
    case Obj(_) => true
  }

  /** JavaScript truthiness of a value that may be `undefined` (None). */
  predicate Defined(x: Option<Value>)
  {
    x.Some? && Truthy(x.value)
  }

  /** `!!localStorage.getItem(name)`: the stored string (None for null) is present and non-empty. */
  predicate Stored(item: Option<string>)
  {
    item.Some? && item.value != ""
  }
}
