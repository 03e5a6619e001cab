/** Property tables: the own enumerable properties of a JavaScript object,
    with their enumeration order (`_.keys` order, insertion order). Object
    literals such as `protoProps`, `staticProps` and error options are tables. */
module PropTable {
  import opened JsValue

  datatype Props = Props(keys: seq<string>, vals: map<string, Value>) {

    /** Keys are listed once each, and exactly the keys that carry a value. */
    ghost predicate Valid()
    {
      && (forall i, j :: 0 <= i < j < |keys| ==> keys[i] != keys[j])
      && (forall k :: k in vals <==> k in keys)
    }
  }

  function Empty(): (t: Props)
    ensures t.Valid() && t.vals == map[] && t.keys == []
  {
    Props([], map[])
  }

  /** Underscore's `_.has`: an own property. */
  predicate Has(t: Props, k: string)
  {
    k in t.vals
  }

  /** `t[k]`, `undefined` when the key is absent. */
  function Get(t: Props, k: string): Value
  {
    if k in t.vals then t.vals[k] else Undefined
  }

  /** The assignment `t[k] = v`: an existing key keeps its place in the
      enumeration order, a new key is enumerated last. */
  function Put(t: Props, k: string, v: Value): (r: Props)
    ensures t.Valid() ==> r.Valid()
    ensures Has(r, k) && Get(r, k) == v
    ensures forall k' :: k' != k ==> (Has(r, k') <==> Has(t, k')) && Get(r, k') == Get(t, k')
    ensures Has(t, k) ==> r.keys == t.keys
    ensures !Has(t, k) ==> r.keys == t.keys + [k]
  {
    if k in t.vals then Props(t.keys, t.vals[k := v]) else Props(t.keys + [k], t.vals[k := v])
  }

  /** `_.extend(t, s)` restricted to the first `n` keys of `s`. */
  function AssignPrefix(t: Props, s: Props, n: nat): (r: Props)
    requires t.Valid() && s.Valid() && n <= |s.keys|
    ensures r.Valid()
    ensures forall k :: Has(r, k) <==> Has(t, k) || k in s.keys[..n]
    ensures forall k :: k in s.keys[..n] ==> Get(r, k) == Get(s, k)
    ensures forall k :: k !in s.keys[..n] ==> Get(r, k) == Get(t, k)
    ensures |t.keys| <= |r.keys| && r.keys[..|t.keys|] == t.keys
    decreases n
  {
    if n == 0 then t
    else
      var prev := AssignPrefix(t, s, n - 1);
      var k := s.keys[n - 1];
      assert s.keys[..n] == s.keys[..n - 1] + [k];
      assert forall x :: x in s.keys[..n] <==> x in s.keys[..n - 1] || x == k;
      Put(prev, k, Get(s, k))
  }

  /** Underscore's `_.extend(t, s)`: every property of `s` is assigned onto `t`
      in the enumeration order of `s`; the result keeps `t`'s order first. */
  function Assign(t: Props, s: Props): (r: Props)
    requires t.Valid() && s.Valid()
    ensures r.Valid()
    ensures forall k :: Has(r, k) <==> Has(t, k) || Has(s, k)
    ensures forall k :: Get(r, k) == if Has(s, k) then Get(s, k) else Get(t, k)
    ensures |t.keys| <= |r.keys| && r.keys[..|t.keys|] == t.keys
  {
    assert s.keys[..|s.keys|] == s.keys;
    AssignPrefix(t, s, |s.keys|)
  }

  /** The keys of `ks` that are not in `drop`, in order. */
  function Without(ks: seq<string>, drop: set<string>): (r: seq<string>)
    ensures forall k :: k in r <==> k in ks && k !in drop
    ensures (forall i, j :: 0 <= i < j < |ks| ==> ks[i] != ks[j]) ==>
              (forall i, j :: 0 <= i < j < |r| ==> r[i] != r[j])
  {
    if |ks| == 0 then []
    else
      var rest := Without(ks[1..], drop);
      assert forall k :: k in ks[1..] ==> k in ks;
      if ks[0] in drop then rest else [ks[0]] + rest
  }

  /** Underscore's `_.omit(t, drop)`: a new table without the listed keys. */
  function Omit(t: Props, drop: set<string>): (r: Props)
    requires t.Valid()
    ensures r.Valid()
    ensures forall k :: Has(r, k) <==> Has(t, k) && k !in drop
    ensures forall k :: Has(r, k) ==> Get(r, k) == Get(t, k)
  {
    Props(Without(t.keys, drop), map k | k in t.vals && k !in drop :: t.vals[k])
  }
}
