/** The object graph the composition engine works on. Every object, function
    objects included, lives at an index of the heap; an object has its own
    enumerable properties (an ordered table), its own non-enumerable properties
    (`prototype` of a function, `constructor` of an automatically created
    prototype object), an optional prototype link and, for functions, the code
    that runs when it is called. Prototype links always point to an object
    allocated earlier, so every prototype chain is finite. */
module ObjectHeap {
  import opened Wrappers
  import opened JsValue
  import opened PropTable

  /** What runs when a function object is called. */
  datatype Code =
      /** A function whose body is outside the model; `mentionsSuper` is whether
          its source text contains the word `_super`. */
    | Native(body: nat, mentionsSuper: bool)
      /** The closure returned by `_wrap(method, superMethod)`. */
    | SuperWrapper(inner: Value, superMethod: Value)
      /** The default constructor `function() { Parent.apply(this, arguments); }`. */
    | ForwardToParent(parent: Value)
      /** The root `Class` constructor; only the newer variant assigns a `cid`. */
    | RootConstructor(assignsCid: bool)

  datatype Obj = Obj(own: Props, hidden: map<string, Value>, proto: Option<nat>, code: Option<Code>)

  /** The objects, and the counter behind underscore's `_.uniqueId`. */
  datatype Heap = Heap(objs: seq<Obj>, idCounter: nat)

  /** `Object.prototype` and `Function.prototype` sit at fixed indices. */
  const ObjectPrototype: nat := 0
  const FunctionPrototype: nat := 1

  predicate RefBelow(v: Value, n: nat)
  {
    v.Ref? ==> v.id < n
  }

  ghost predicate TableBelow(t: Props, n: nat)
  {
    forall k :: k in t.vals ==> RefBelow(t.vals[k], n)
  }

  predicate CodeBelow(c: Code, n: nat)
  {
    match c
    case SuperWrapper(m, s) => RefBelow(m, n) && RefBelow(s, n)
    case ForwardToParent(p) => RefBelow(p, n)
    case _ => true
  }

  /** Object `i` of a heap of `n` objects: a valid own table that shares no
      name with the non-enumerable ones, a prototype link to an older
      object, and no reference past the end of the heap. */
  ghost predicate ObjOk(o: Obj, i: nat, n: nat)
  {
    && o.own.Valid()
    && NamesDisjoint(o)
    && (o.proto.Some? ==> o.proto.value < i)
    && TableBelow(o.own, n)
    && (forall k :: k in o.hidden ==> RefBelow(o.hidden[k], n))
    && (o.code.Some? ==> CodeBelow(o.code.value, n))
  }

  ghost predicate WellFormed(h: Heap)
  {
    && |h.objs| > FunctionPrototype
    && forall i :: 0 <= i < |h.objs| ==> ObjOk(h.objs[i], i, |h.objs|)
  }

  /** A heap that extends another agrees with it object by object. */
  lemma PrefixAgrees(h: Heap, r: Heap)
    requires |h.objs| <= |r.objs| && r.objs[..|h.objs|] == h.objs
    ensures forall i :: 0 <= i < |h.objs| ==> r.objs[i] == h.objs[i]
  {
    forall i | 0 <= i < |h.objs|
      ensures r.objs[i] == h.objs[i]
    {
      assert r.objs[i] == r.objs[..|h.objs|][i];
    }
  }

  lemma PrefixTrans(h: Heap, h1: Heap, h2: Heap)
    requires |h.objs| <= |h1.objs| && h1.objs[..|h.objs|] == h.objs
    requires |h1.objs| <= |h2.objs| && h2.objs[..|h1.objs|] == h1.objs
    ensures |h.objs| <= |h2.objs| && h2.objs[..|h.objs|] == h.objs
  {
    assert h2.objs[..|h.objs|] == h2.objs[..|h1.objs|][..|h.objs|];
  }

  lemma ObjOkGrow(o: Obj, i: nat, n: nat, m: nat)
    requires ObjOk(o, i, n) && n <= m
    ensures ObjOk(o, i, m)
  {
  }

  /** A new plain object with enumerable names `t`, inheriting from `p`,
      allocated at the end of the heap. */
  function AllocPlain(h: Heap, t: Props, p: nat): (r: (Heap, nat))
    requires WellFormed(h) && t.Valid() && TableBelow(t, |h.objs|) && p < |h.objs|
    ensures WellFormed(r.0) && r.1 == |h.objs| && |r.0.objs| == |h.objs| + 1
    ensures r.0.objs[..|h.objs|] == h.objs && r.0.idCounter == h.idCounter
    ensures r.0.objs[r.1] == Obj(t, map[], Some(p), None)
  {
    assert ObjOk(Obj(t, map[], Some(p), None), |h.objs|, |h.objs| + 1);
    (Alloc(h, Obj(t, map[], Some(p), None)), |h.objs|)
  }

  /** The own property `k` of `o`, if there is one. */
  function OwnGet(o: Obj, k: string): Option<Value>
  {
    if k in o.hidden then Some(o.hidden[k])
    else if k in o.own.vals then Some(o.own.vals[k])
    else None
  }

  /** The assignment `o[k] = v`: an existing non-enumerable property keeps
      being non-enumerable, anything else goes to the enumerable table. */
  function SetOwn(o: Obj, k: string, v: Value): (r: Obj)
    ensures r.proto == o.proto && r.code == o.code && r.hidden.Keys == o.hidden.Keys
    ensures OwnGet(r, k) == Some(v)
    ensures forall k' :: k' != k ==> OwnGet(r, k') == OwnGet(o, k')
    ensures o.own.Valid() ==> r.own.Valid()
    ensures NamesDisjoint(o) ==> NamesDisjoint(r)
    ensures forall n: nat :: ObjOkValues(o, n) && RefBelow(v, n) ==> ObjOkValues(r, n)
  {
    if k in o.hidden then o.(hidden := o.hidden[k := v]) else o.(own := Put(o.own, k, v))
  }

  /** No name is both an enumerable and a non-enumerable own property. */
  predicate NamesDisjoint(o: Obj)
  {
    forall k :: k in o.hidden ==> k !in o.own.vals
  }

  ghost predicate ObjOkValues(o: Obj, n: nat)
  {
    && TableBelow(o.own, n)
    && (forall k :: k in o.hidden ==> RefBelow(o.hidden[k], n))
  }

  /** Property read `obj[k]` on the object at `id`: its own property, else the
      one found along its prototype chain, else `undefined`. */
  function Lookup(h: Heap, id: nat, k: string): Value
    decreases id
  {
    if id >= |h.objs| then Undefined
    else match OwnGet(h.objs[id], k)
      case Some(v) => v
      case None =>
        match h.objs[id].proto
        case None => Undefined
        case Some(p) => if p < id then Lookup(h, p, k) else Undefined
  }

  /** Property read `v[k]` on any value. Primitives carry none of the
      properties the model reads. */
  function Read(h: Heap, v: Value, k: string): Value
  {
    if v.Ref? then Lookup(h, v.id, k) else Undefined
  }

  /** Property write `obj[k] = v` on the object at `id`. */
  function SetProp(h: Heap, id: nat, k: string, v: Value): (r: Heap)
    ensures |r.objs| == |h.objs| && r.idCounter == h.idCounter
    ensures forall i :: 0 <= i < |h.objs| && i != id ==> r.objs[i] == h.objs[i]
    ensures id < |h.objs| ==> r.objs[id] == SetOwn(h.objs[id], k, v)
    ensures WellFormed(h) && RefBelow(v, |h.objs|) ==> WellFormed(r)
  {
    if id < |h.objs| then
      var r := Heap(h.objs[id := SetOwn(h.objs[id], k, v)], h.idCounter);
      assert WellFormed(h) && RefBelow(v, |h.objs|) ==> ObjOk(r.objs[id], id, |r.objs|) by {
        if WellFormed(h) && RefBelow(v, |h.objs|) {
          assert ObjOk(h.objs[id], id, |h.objs|);
          assert ObjOkValues(h.objs[id], |h.objs|);
        }
      }
      r
    else h
  }

  predicate IsCallable(h: Heap, v: Value)
  {
    v.Ref? && v.id < |h.objs| && h.objs[v.id].code.Some?
  }

  function CodeOf(h: Heap, v: Value): Code
    requires IsCallable(h, v)
  {
    h.objs[v.id].code.value
  }

  /** Appends an object; its index is the old heap size. */
  function Alloc(h: Heap, o: Obj): (r: Heap)
    ensures |r.objs| == |h.objs| + 1 && r.objs[..|h.objs|] == h.objs && r.objs[|h.objs|] == o
    ensures r.idCounter == h.idCounter
    ensures WellFormed(h) && ObjOk(o, |h.objs|, |h.objs| + 1) ==> WellFormed(r)
  {
    var r := Heap(h.objs + [o], h.idCounter);
    assert WellFormed(h) && ObjOk(o, |h.objs|, |h.objs| + 1) ==> WellFormed(r) by {
      if WellFormed(h) && ObjOk(o, |h.objs|, |h.objs| + 1) {
        forall i | 0 <= i < |r.objs|
          ensures ObjOk(r.objs[i], i, |r.objs|)
        {
          if i < |h.objs| {
            ObjOkGrow(h.objs[i], i, |h.objs|, |r.objs|);
          }
        }
      }
    }
    r
  }

  /** A fresh function object with the given code, together with the prototype
      object JavaScript creates for it (whose `constructor` is the function).
      Returns the heap and the index of the function. */
  function NewFunction(h: Heap, code: Code): (r: (Heap, nat))
    requires |h.objs| > FunctionPrototype
    ensures r.1 == |h.objs| + 1 && |r.0.objs| == |h.objs| + 2
    ensures r.0.objs[..|h.objs|] == h.objs && r.0.idCounter == h.idCounter
    ensures r.0.objs[r.1].code == Some(code) && r.0.objs[r.1].proto == Some(FunctionPrototype)
    ensures r.0.objs[r.1].own == Empty() && r.0.objs[r.1].hidden.Keys == {"prototype"}
    ensures IsCallable(r.0, Ref(r.1)) && CodeOf(r.0, Ref(r.1)) == code
    ensures WellFormed(h) && CodeBelow(code, |h.objs|) ==> WellFormed(r.0)
  {
    var p := |h.objs|;
    var protoObj := Obj(Empty(), map["constructor" := Ref(p + 1)], Some(ObjectPrototype), None);
    var fn := Obj(Empty(), map["prototype" := Ref(p)], Some(FunctionPrototype), Some(code));
    var h1 := Alloc(h, protoObj);
    var h2 := Alloc(h1, fn);
    assert h2.objs[..|h.objs|] == h.objs by {
      assert h2.objs[..|h1.objs|] == h1.objs;
    }
    (h2, p + 1)
  }

  /** The object `new F()` inherits from: `F.prototype` when that is an
      object, else `Object.prototype`. */
  function PrototypeObjectOf(h: Heap, f: nat): (p: nat)
    ensures p < |h.objs| || p == ObjectPrototype
  {
    var v := Lookup(h, f, "prototype");
    if v.Ref? && v.id < |h.objs| then v.id else ObjectPrototype
  }

  /** `target` is a strict ancestor of `id` along prototype links. */
  predicate ProtoChainHas(h: Heap, id: nat, target: nat)
    decreases id
  {
    id < |h.objs| && h.objs[id].proto.Some? && h.objs[id].proto.value < id &&
    var p := h.objs[id].proto.value;
    p == target || ProtoChainHas(h, p, target)
  }

  /** `target` is `id` itself or one of its ancestors. */
  predicate InLineage(h: Heap, id: nat, target: nat)
  {
    id == target || ProtoChainHas(h, id, target)
  }

  /** Strict ancestors are older objects. */
  lemma {:induction false} ChainBelow(h: Heap, id: nat, target: nat)
    requires ProtoChainHas(h, id, target)
    ensures target < id
    decreases id
  {
    var p := h.objs[id].proto.value;
    if p != target {
      ChainBelow(h, p, target);
    }
  }

  /** `v instanceof ctor`: a TypeError (None) when `ctor` is not callable or,
      for an object `v`, when `ctor.prototype` is not an object. */
  function InstanceOf(h: Heap, v: Value, ctor: Value): Option<bool>
  {
    if !IsCallable(h, ctor) then None
    else if !v.Ref? then Some(false)
    else
      var p := Lookup(h, ctor.id, "prototype");
      if !p.Ref? then None else Some(ProtoChainHas(h, v.id, p.id))
  }

  /** Property reads on a well-formed heap never produce a dangling reference. */
  lemma {:induction false} LookupBelow(h: Heap, id: nat, k: string)
    requires WellFormed(h)
    ensures RefBelow(Lookup(h, id, k), |h.objs|)
    decreases id
  {
    if id < |h.objs| && OwnGet(h.objs[id], k).None? && h.objs[id].proto.Some? {
      var p := h.objs[id].proto.value;
      if p < id {
        LookupBelow(h, p, k);
      }
    }
  }

  /** Two heaps that agree, on every object of `id`'s lineage, on the
      prototype link and on the own property `k`, give the same `id[k]`. */
  lemma {:induction false} LookupFrame(h: Heap, r: Heap, id: nat, k: string)
    requires id < |h.objs| <= |r.objs|
    requires forall i: nat :: InLineage(h, id, i) ==>
               i < |h.objs| && r.objs[i].proto == h.objs[i].proto && OwnGet(r.objs[i], k) == OwnGet(h.objs[i], k)
    ensures Lookup(r, id, k) == Lookup(h, id, k)
    decreases id
  {
    assert InLineage(h, id, id);
    if OwnGet(h.objs[id], k).None? && h.objs[id].proto.Some? {
      var p := h.objs[id].proto.value;
      if p < id {
        forall i: nat | InLineage(h, p, i)
          ensures InLineage(h, id, i)
        {
        }
        LookupFrame(h, r, p, k);
      }
    }
  }

  /** Lineages only depend on prototype links, which no write changes, and
      appended objects are never ancestors of older ones. */
  lemma {:induction false} ChainFrame(h: Heap, r: Heap, id: nat, target: nat)
    requires id < |h.objs| <= |r.objs|
    requires forall i :: 0 <= i < |h.objs| ==> r.objs[i].proto == h.objs[i].proto
    ensures ProtoChainHas(r, id, target) == ProtoChainHas(h, id, target)
    decreases id
  {
    if h.objs[id].proto.Some? && h.objs[id].proto.value < id {
      ChainFrame(h, r, h.objs[id].proto.value, target);
    }
  }
}
