/** `Mixin`: a plain constructor that copies a property table onto the new
    object, and `isMixin`, the `instanceof Mixin` test. */
module MixinModel {
  import opened Wrappers
  import opened JsValue
  import opened PropTable
  import opened ObjectHeap
  import opened Compose
  import ClassEngine

  /** `Mixin` is usable: callable, with an object as its prototype. */
  ghost predicate MixinOk(h: Heap, mixin: nat)
  {
    IsCallable(h, Ref(mixin)) && Lookup(h, mixin, "prototype").Ref? && Lookup(h, mixin, "prototype").id < |h.objs|
  }

  /** `new Mixin(props)`: a fresh plain object inheriting from
      `Mixin.prototype`, onto which `_.extend` copies `props`. Returns the
      heap and the new object's index. */
  function NewMixin(h: Heap, mixin: nat, props: Value): (r: (Heap, nat))
    requires WellFormed(h) && mixin < |h.objs| && RefBelow(props, |h.objs|)
    ensures WellFormed(r.0) && r.1 == |h.objs| && |r.0.objs| == |h.objs| + 1
    ensures r.0.objs[..|h.objs|] == h.objs && r.0.idCounter == h.idCounter
    ensures r.0.objs[r.1].proto == Some(PrototypeObjectOf(h, mixin))
    ensures r.0.objs[r.1].code.None? && r.0.objs[r.1].hidden == map[]
  {
    AllocPlain(h, ForInTable(h, props), PrototypeObjectOf(h, mixin))
  }

  /** The new mixin receives every `for-in` name of `props`, own or
      inherited, with the value `props[name]` reads, and nothing else;
      `props`'s own enumerable names come first, in their order. Without
      `props` it is empty. */
  lemma NewMixinContents(h: Heap, mixin: nat, props: Value)
    requires WellFormed(h) && mixin < |h.objs| && RefBelow(props, |h.objs|)
    ensures var (h1, m) := NewMixin(h, mixin, props);
            && (forall k :: OwnGet(h1.objs[m], k) ==
                  if props.Ref? && EnumerableAlong(h, props.id, k) then Some(Read(h, props, k)) else None)
            && (props.Ref? ==>
                  var own := Omit(h.objs[props.id].own, h.objs[props.id].hidden.Keys);
                  var keys := h1.objs[m].own.keys;
                  |own.keys| <= |keys| && keys[..|own.keys|] == own.keys)
  {
    var (h1, m) := NewMixin(h, mixin, props);
    assert h1.objs[m].own == ForInTable(h, props);
  }

  /** `Mixin.isMixin(value)`: truthy and an instance of `Mixin`. */
  function IsMixin(h: Heap, mixin: nat, v: Value): (r: Option<bool>)
    ensures MixinOk(h, mixin) ==> r.Some?
    ensures r == Some(true) ==> Truthy(v) && v.Ref?
  {
    if !Truthy(v) then Some(false) else InstanceOf(h, v, Ref(mixin))
  }

  /** `isMixin` in terms of prototype chains. */
  lemma IsMixinMeans(h: Heap, mixin: nat, v: Value)
    requires MixinOk(h, mixin)
    ensures IsMixin(h, mixin, v) ==
              Some(v.Ref? && ProtoChainHas(h, v.id, Lookup(h, mixin, "prototype").id))
  {
  }

  /** Everything `Mixin` builds is a mixin, the empty one included. */
  lemma NewMixinIsMixin(h: Heap, mixin: nat, props: Value)
    requires WellFormed(h) && mixin < |h.objs| && RefBelow(props, |h.objs|) && MixinOk(h, mixin)
    ensures var (h1, m) := NewMixin(h, mixin, props);
            IsMixin(h1, mixin, Ref(m)) == Some(true)
  {
    var (h1, m) := NewMixin(h, mixin, props);
    FreshInheritsMixin(h, h1, mixin, m);
  }

  /** An object appended to the heap that inherits from `Mixin.prototype`
      is a mixin. */
  lemma FreshInheritsMixin(h: Heap, h1: Heap, mixin: nat, m: nat)
    requires WellFormed(h) && WellFormed(h1) && mixin < |h.objs| && MixinOk(h, mixin)
    requires m == |h.objs| && |h1.objs| == m + 1 && h1.objs[..m] == h.objs
    requires h1.objs[m].proto == Some(PrototypeObjectOf(h, mixin))
    ensures IsMixin(h1, mixin, Ref(m)) == Some(true)
  {
    LookupAppend(h, h1, mixin, "prototype");
    assert h1.objs[mixin] == h1.objs[..|h.objs|][mixin];
  }

  /** `new Mixin()` has no own names and is still a mixin. */
  lemma EmptyMixin(h: Heap, mixin: nat)
    requires WellFormed(h) && mixin < |h.objs| && MixinOk(h, mixin)
    ensures var (h1, m) := NewMixin(h, mixin, Undefined);
            && (forall k :: OwnGet(h1.objs[m], k).None?)
            && IsMixin(h1, mixin, Ref(m)) == Some(true)
  {
    NewMixinIsMixin(h, mixin, Undefined);
  }

  /** `true`, `false`, `undefined`, `null`, `0`, `'hi'`: never mixins. */
  lemma IsMixinOfPrimitive(h: Heap, mixin: nat, v: Value)
    requires MixinOk(h, mixin) && !v.Ref?
    ensures IsMixin(h, mixin, v) == Some(false)
  {
  }

  /** A plain object or a plain function made after `Mixin` is not a mixin,
      as long as `Mixin.prototype` is not one of the built-in prototypes. */
  lemma IsMixinOfPlainObject(h: Heap, mixin: nat, v: nat)
    requires WellFormed(h) && MixinOk(h, mixin) && v < |h.objs|
    requires h.objs[v].proto == Some(ObjectPrototype) || h.objs[v].proto == Some(FunctionPrototype)
    requires Lookup(h, mixin, "prototype").id != ObjectPrototype && Lookup(h, mixin, "prototype").id != FunctionPrototype
    requires !ProtoChainHas(h, FunctionPrototype, Lookup(h, mixin, "prototype").id)
    ensures IsMixin(h, mixin, Ref(v)) == Some(false)
  {
    assert ObjOk(h.objs[v], v, |h.objs|);
    assert !ProtoChainHas(h, ObjectPrototype, Lookup(h, mixin, "prototype").id) by {
      assert ObjOk(h.objs[ObjectPrototype], ObjectPrototype, |h.objs|);
    }
  }

  /** Prototype chains are linear: two ancestors of one object are
      ancestors of one another. */
  lemma {:induction false} ChainLinear(h: Heap, x: nat, a: nat, b: nat)
    requires ProtoChainHas(h, x, a) && ProtoChainHas(h, x, b)
    ensures InLineage(h, a, b) || InLineage(h, b, a)
    decreases x
  {
    var p := h.objs[x].proto.value;
    if p != a && p != b {
      ChainLinear(h, p, a, b);
    } else if p == a && p != b {
      assert ProtoChainHas(h, p, b);
    } else if p == b && p != a {
      assert ProtoChainHas(h, p, a);
    }
  }

  /** No object is both a `Mixin` and a `Class` instance, as long as
      neither prototype inherits from the other. */
  lemma NoMixinClassInstance(h: Heap, mixin: nat, root: nat, v: Value)
    requires MixinOk(h, mixin) && ClassEngine.RootOk(h, root)
    requires var mp := Lookup(h, mixin, "prototype").id;
             var cp := Lookup(h, root, "prototype").id;
             !InLineage(h, mp, cp) && !InLineage(h, cp, mp)
    ensures !(IsMixin(h, mixin, v) == Some(true) && InstanceOf(h, v, Ref(root)) == Some(true))
  {
    var mp := Lookup(h, mixin, "prototype").id;
    var cp := Lookup(h, root, "prototype").id;
    if IsMixin(h, mixin, v) == Some(true) && InstanceOf(h, v, Ref(root)) == Some(true) {
      ChainLinear(h, v.id, mp, cp);
    }
  }

  /** `isClass` also reads `value.prototype`, so a mixin whose table has a
      `prototype` holding a class's prototype answers true to both
      `isClass` and `isMixin`. */
  lemma MixinCanLookLikeClass(h: Heap, mixin: nat, root: nat, props: nat)
    requires WellFormed(h) && mixin < |h.objs| && props < |h.objs| && root < |h.objs|
    requires MixinOk(h, mixin) && ClassEngine.RootOk(h, root)
    requires Has(h.objs[props].own, "prototype") && "prototype" !in h.objs[props].hidden
    requires var c := Get(h.objs[props].own, "prototype");
             c.Ref? && ProtoChainHas(h, c.id, Lookup(h, root, "prototype").id)
    ensures var (h1, m) := NewMixin(h, mixin, Ref(props));
            IsMixin(h1, mixin, Ref(m)) == Some(true) && ClassEngine.IsClass(h1, root, Ref(m)) == Some(true)
  {
    var (h1, m) := NewMixin(h, mixin, Ref(props));
    NewMixinIsMixin(h, mixin, Ref(props));
    NewMixinContents(h, mixin, Ref(props));
    var c := Get(h.objs[props].own, "prototype");
    assert EnumerableAlong(h, props, "prototype");
    assert OwnGet(h1.objs[m], "prototype") == Some(c);
    FreshPrototypeIsClass(h, h1, root, m, c);
  }

  /** An object appended to the heap whose own `prototype` inherits from
      the root class's prototype passes `isClass`. */
  lemma FreshPrototypeIsClass(h: Heap, h1: Heap, root: nat, m: nat, c: Value)
    requires WellFormed(h) && WellFormed(h1) && root < |h.objs| && ClassEngine.RootOk(h, root)
    requires m == |h.objs| && |h1.objs| == m + 1 && h1.objs[..m] == h.objs
    requires OwnGet(h1.objs[m], "prototype") == Some(c)
    requires c.Ref? && ProtoChainHas(h, c.id, Lookup(h, root, "prototype").id)
    ensures ClassEngine.IsClass(h1, root, Ref(m)) == Some(true)
  {
    var cp := Lookup(h, root, "prototype").id;
    LookupAppend(h, h1, root, "prototype");
    assert h1.objs[root] == h1.objs[..|h.objs|][root];
    assert ClassEngine.RootOk(h1, root);
    assert Read(h1, Ref(m), "prototype") == c;
    ChainBelow(h, c.id, cp);
    ChainFrame(h, h1, c.id, cp);
    ClassEngine.IsClassMeans(h1, root, Ref(m));
  }
}
