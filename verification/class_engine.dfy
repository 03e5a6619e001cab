/** The class composition engine of the current library version: the root
    `Class` with its `cid`, `extend`, `mixin`, `include` and `isClass`. */
module ClassEngine {
  import opened Wrappers
  import opened JsValue
  import opened PropTable
  import opened ObjectHeap
  import opened Invoke
  import opened Compose

  /** A class built by `extend`: the heap afterwards, the constructor and its
      fresh prototype object. */
  datatype Built = Built(heap: Heap, child: nat, proto: nat)

  /** The constructor `extend` picks: without an own `constructor` in
      `protoProps`, a fresh function forwarding to the parent; an own
      `constructor` that mentions `_super`, a fresh wrapper of it against
      `Parent.prototype.constructor`; any other own `constructor`, itself.
      Returns the heap and the constructor's index. */
  function SelectConstructor(blind: bool, h: Heap, parent: nat, protoProps: Value): (r: Option<(Heap, nat)>)
    requires WellFormed(h) && parent < |h.objs| && RefBelow(protoProps, |h.objs|)
    ensures r.Some? ==> WellFormed(r.value.0) && r.value.1 < |r.value.0.objs|
    ensures r.Some? ==> |h.objs| <= |r.value.0.objs| && r.value.0.objs[..|h.objs|] == h.objs
    ensures r.Some? ==> r.value.0.idCounter == h.idCounter
    ensures OwnConstructor(h, protoProps).None? ==>
              && r.Some? && |h.objs| <= r.value.1
              && IsCallable(r.value.0, Ref(r.value.1))
              && CodeOf(r.value.0, Ref(r.value.1)) == ForwardToParent(Ref(parent))
    ensures OwnConstructor(h, protoProps).Some? && MentionsSuper(blind, h, OwnConstructor(h, protoProps).value) ==>
              && (r.None? <==> ParentConstructor(h, parent).None?)
              && (r.Some? ==>
                    && |h.objs| <= r.value.1
                    && IsCallable(r.value.0, Ref(r.value.1))
                    && CodeOf(r.value.0, Ref(r.value.1)) ==
                         SuperWrapper(OwnConstructor(h, protoProps).value, ParentConstructor(h, parent).value))
    ensures OwnConstructor(h, protoProps).Some? && !MentionsSuper(blind, h, OwnConstructor(h, protoProps).value) ==>
              && (r.None? <==> !OwnConstructor(h, protoProps).value.Ref?)
              && (r.Some? ==> r.value.0 == h && Ref(r.value.1) == OwnConstructor(h, protoProps).value)
  {
    match OwnConstructor(h, protoProps)
    case None =>
      Some(NewFunction(h, ForwardToParent(Ref(parent))))
    case Some(ctor) =>
      assert RefBelow(ctor, |h.objs|) by {
        assert ObjOk(h.objs[protoProps.id], protoProps.id, |h.objs|);
      }
      if MentionsSuper(blind, h, ctor) then
        match ParentConstructor(h, parent)
        case None => None
        case Some(sup) =>
          LookupBelow(h, parent, "prototype");
          assert RefBelow(sup, |h.objs|) by {
            var pp := Lookup(h, parent, "prototype");
            if pp.Ref? {
              LookupBelow(h, pp.id, "constructor");
            }
          }
          Some(Wrap(h, ctor, sup))
      else if ctor.Ref? then
        assert ctor.id < |h.objs|;
        Some((h, ctor.id))
      else None
  }

  /** `Parent.extend(protoProps, staticProps)`. It fails exactly when the
      constructor choice fails. Among older objects only the child changes,
      so the parent's tables are never written. Once the constructor is
      chosen and is apart from the parent (always so for a fresh one), the
      child's prototype inherits from `Parent.prototype`, the child records
      `superclass` and `__super__`, and every static and prototype name ends
      as `_wrapAll` installs it. */
  function Extend(blind: bool, h: Heap, parent: nat, protoProps: Value, staticProps: Value): (r: Option<Built>)
    requires WellFormed(h) && parent < |h.objs|
    requires RefBelow(protoProps, |h.objs|) && RefBelow(staticProps, |h.objs|)
    ensures r.None? <==> SelectConstructor(blind, h, parent, protoProps).None?
    ensures r.Some? ==>
              var s := SelectConstructor(blind, h, parent, protoProps).value;
              && r.value.child == s.1
              && OnlyTouches(s.0, r.value.heap, r.value.child)
              && (forall i :: 0 <= i < |h.objs| && i != r.value.child ==> r.value.heap.objs[i] == h.objs[i])
              && |s.0.objs| <= r.value.proto < |r.value.heap.objs|
              && OwnGet(r.value.heap.objs[r.value.child], "prototype") == Some(Ref(r.value.proto))
              && (Apart(s.0, parent, r.value.child, protoProps, staticProps) ==>
                    && r.value.heap.objs[r.value.proto].proto == Some(PrototypeObjectOf(h, parent))
                    && OwnGet(r.value.heap.objs[r.value.child], "superclass") == Some(Ref(parent))
                    && OwnGet(r.value.heap.objs[r.value.child], "__super__") == Some(Lookup(h, parent, "prototype"))
                    && (forall k :: k !in ExtendWrites ==>
                          StaticOutcome(blind, s.0, r.value.heap, parent, r.value.child, EnumerableOwn(h, staticProps), k))
                    && (forall k ::
                          ProtoOutcome(blind, s.0, r.value.heap, r.value.proto, parent, r.value.child, EnumerableOwn(h, protoProps), k)))
  {
    match SelectConstructor(blind, h, parent, protoProps)
    case None => None
    case Some(s) =>
      var a := Assemble(blind, s.0, parent, s.1, protoProps, staticProps);
      AppendedReads(h, s.0, parent, protoProps, staticProps);
      PrefixAgrees(h, s.0);
      Some(Built(a.heap, s.1, a.proto))
  }

  /** The cases in which `extend` succeeds with a freshly made constructor:
      no own `constructor`, or one that mentions `_super` while
      `Parent.prototype.constructor` can be read. */
  predicate MakesFreshChild(blind: bool, h: Heap, parent: nat, protoProps: Value)
  {
    || OwnConstructor(h, protoProps).None?
    || (MentionsSuper(blind, h, OwnConstructor(h, protoProps).value) && ParentConstructor(h, parent).Some?)
  }

  /** `extend` returns a constructor that did not exist before exactly in
      those cases; otherwise it fails or reuses the given function. */
  lemma ExtendFreshExactly(blind: bool, h: Heap, parent: nat, protoProps: Value, staticProps: Value)
    requires WellFormed(h) && parent < |h.objs|
    requires RefBelow(protoProps, |h.objs|) && RefBelow(staticProps, |h.objs|)
    ensures var r := Extend(blind, h, parent, protoProps, staticProps);
            r.Some? && r.value.child >= |h.objs| <==> MakesFreshChild(blind, h, parent, protoProps)
  {
    var r := Extend(blind, h, parent, protoProps, staticProps);
    var s := SelectConstructor(blind, h, parent, protoProps);
    if r.Some? && OwnConstructor(h, protoProps).Some? && !MentionsSuper(blind, h, OwnConstructor(h, protoProps).value) {
      assert s.value.0 == h && s.value.1 < |h.objs|;
    }
  }

  /** What `extend` reads from the heap it started with is the same once the
      constructor has been chosen, since choosing only appends. */
  lemma AppendedReads(h: Heap, h1: Heap, parent: nat, protoProps: Value, staticProps: Value)
    requires WellFormed(h) && |h.objs| <= |h1.objs| && h1.objs[..|h.objs|] == h.objs && parent < |h.objs|
    requires RefBelow(protoProps, |h.objs|) && RefBelow(staticProps, |h.objs|)
    ensures PrototypeObjectOf(h1, parent) == PrototypeObjectOf(h, parent)
    ensures Lookup(h1, parent, "prototype") == Lookup(h, parent, "prototype")
    ensures EnumerableOwn(h1, staticProps) == EnumerableOwn(h, staticProps)
    ensures EnumerableOwn(h1, protoProps) == EnumerableOwn(h, protoProps)
  {
    LookupAppend(h, h1, parent, "prototype");
    LookupBelow(h, parent, "prototype");
    if staticProps.Ref? {
      assert h1.objs[staticProps.id] == h1.objs[..|h.objs|][staticProps.id];
    }
    if protoProps.Ref? {
      assert h1.objs[protoProps.id] == h1.objs[..|h.objs|][protoProps.id];
    }
  }

  /** The objects of the library once `class.js` has run, before the events
      table is mixed in: `Class.prototype` with `cidPrefix`, `initialize`
      and `destroy`, and `Class` with its statics. */
  const ClassPrototypeId: nat := 2
  const ClassId: nat := 3

  function Boot(): (h: Heap)
    ensures |h.objs| > ClassId
    ensures IsCallable(h, Ref(ClassId)) && CodeOf(h, Ref(ClassId)) == RootConstructor(true)
    ensures Lookup(h, ClassId, "prototype") == Ref(ClassPrototypeId)
    ensures Lookup(h, ClassPrototypeId, "constructor") == Ref(ClassId)
    ensures Lookup(h, ClassPrototypeId, "cidPrefix") == Str("metal")
    ensures IsCallable(h, Lookup(h, ClassPrototypeId, "initialize")) && IsCallable(h, Lookup(h, ClassPrototypeId, "destroy"))
    ensures && IsCallable(h, Lookup(h, ClassId, "extend")) && IsCallable(h, Lookup(h, ClassId, "mixin"))
            && IsCallable(h, Lookup(h, ClassId, "include")) && IsCallable(h, Lookup(h, ClassId, "isClass"))
  {
    BootClassLinks();
    BootPrototypeMembers();
    BootStatics();
    BootHeap()
  }

  /** The boot objects themselves: `Object.prototype`,
      `Function.prototype`, `Class.prototype`, `Class`, then the native
      bodies of the methods and statics. */
  function BootHeap(): Heap
  {
    var native := (b: nat) => Obj(Empty(), map[], Some(FunctionPrototype), Some(Native(b, false)));
    Heap([
      Obj(Empty(), map[], None, None),
      Obj(Empty(), map[], Some(ObjectPrototype), Some(Native(0, false))),
      Obj(Props(["cidPrefix", "initialize", "destroy"],
                map["cidPrefix" := Str("metal"), "initialize" := Ref(4), "destroy" := Ref(5)]),
          map["constructor" := Ref(ClassId)], Some(ObjectPrototype), None),
      Obj(Props(["extend", "mixin", "include", "isClass"],
                map["extend" := Ref(6), "mixin" := Ref(7), "include" := Ref(8), "isClass" := Ref(9)]),
          map["prototype" := Ref(ClassPrototypeId)], Some(FunctionPrototype), Some(RootConstructor(true))),
      native(1), native(2), native(3), native(4), native(5), native(6)
    ], 0)
  }

  lemma BootClassLinks()
    ensures var h := BootHeap();
            && |h.objs| > ClassId
            && IsCallable(h, Ref(ClassId)) && CodeOf(h, Ref(ClassId)) == RootConstructor(true)
            && Lookup(h, ClassId, "prototype") == Ref(ClassPrototypeId)
            && Lookup(h, ClassPrototypeId, "constructor") == Ref(ClassId)
  {
  }

  lemma BootPrototypeMembers()
    ensures var h := BootHeap();
            && Lookup(h, ClassPrototypeId, "cidPrefix") == Str("metal")
            && IsCallable(h, Lookup(h, ClassPrototypeId, "initialize")) && IsCallable(h, Lookup(h, ClassPrototypeId, "destroy"))
  {
  }

  lemma BootStatics()
    ensures var h := BootHeap();
            && IsCallable(h, Lookup(h, ClassId, "extend")) && IsCallable(h, Lookup(h, ClassId, "mixin"))
            && IsCallable(h, Lookup(h, ClassId, "include")) && IsCallable(h, Lookup(h, ClassId, "isClass"))
  {
  }

  lemma BootWellFormed()
    ensures WellFormed(Boot()) && RootOk(Boot(), ClassId)
    ensures Lookup(Boot(), ClassId, "prototype") == Ref(ClassPrototypeId)
  {
    BootHeapWellFormed();
    BootClassLinks();
    assert Boot() == BootHeap();
  }

  lemma BootHeapWellFormed()
    ensures WellFormed(BootHeap())
  {
    var h := BootHeap();
    forall i | 0 <= i < |h.objs|
      ensures ObjOk(h.objs[i], i, |h.objs|)
    {
      if i == ClassPrototypeId {
        BootPrototypeOk();
      } else if i == ClassId {
        BootClassOk();
      }
    }
  }

  lemma BootPrototypeOk()
    ensures ObjOk(BootHeap().objs[ClassPrototypeId], ClassPrototypeId, |BootHeap().objs|)
  {
    assert BootHeap().objs[ClassPrototypeId].own.Valid();
  }

  lemma BootClassOk()
    ensures ObjOk(BootHeap().objs[ClassId], ClassId, |BootHeap().objs|)
  {
    BootClassTable();
  }

  lemma BootClassTable()
    ensures var t := BootHeap().objs[ClassId].own;
            t.Valid() && TableBelow(t, |BootHeap().objs|)
  {
    assert BootHeap().objs[ClassId].own.Valid();
  }

  /** `Class` is usable as the root: callable, with an object prototype. */
  ghost predicate RootOk(h: Heap, root: nat)
  {
    IsCallable(h, Ref(root)) && Lookup(h, root, "prototype").Ref?
  }

  predicate DescendsFrom(h: Heap, v: Value, target: nat)
  {
    v.Ref? && ProtoChainHas(h, v.id, target)
  }

  /** `Class.isClass(value)`: truthy, and an instance of `Class`, or a
      function whose `prototype` is one, or `Class` itself. A root without
      an object prototype makes `instanceof` throw (None). */
  function IsClass(h: Heap, root: nat, v: Value): (r: Option<bool>)
    ensures RootOk(h, root) ==> r.Some?
    ensures r == Some(true) ==> Truthy(v)
  {
    if !Truthy(v) then Some(false)
    else match InstanceOf(h, v, Ref(root))
      case None => None
      case Some(true) => Some(true)
      case Some(false) =>
        match InstanceOf(h, Read(h, v, "prototype"), Ref(root))
        case None => None
        case Some(b) => Some(b || v == Ref(root))
  }

  /** `isClass` in terms of prototype chains: the root itself, anything
      whose chain passes through `Class.prototype`, or anything whose
      `prototype` does. */
  lemma IsClassMeans(h: Heap, root: nat, v: Value)
    requires RootOk(h, root)
    ensures var rp := Lookup(h, root, "prototype").id;
            IsClass(h, root, v) ==
              Some(v == Ref(root) || DescendsFrom(h, v, rp) || DescendsFrom(h, Read(h, v, "prototype"), rp))
  {
  }

  lemma IsClassOfRoot(h: Heap, root: nat)
    requires RootOk(h, root)
    ensures IsClass(h, root, Ref(root)) == Some(true)
  {
  }

  /** `true`, `false`, `undefined`, `null`, `0`, `'hi'`: never classes. */
  lemma IsClassOfPrimitive(h: Heap, root: nat, v: Value)
    requires RootOk(h, root) && !v.Ref?
    ensures IsClass(h, root, v) == Some(false)
  {
  }

  /** A plain function created after the root is not a class, as long as
      `Class.prototype` is not one of the built-in prototypes. */
  lemma IsClassOfPlainFunction(h: Heap, root: nat, body: nat, mentions: bool)
    requires WellFormed(h) && root < |h.objs| && RootOk(h, root)
    requires !InLineage(h, FunctionPrototype, Lookup(h, root, "prototype").id)
    requires !InLineage(h, ObjectPrototype, Lookup(h, root, "prototype").id)
    ensures var (h1, f) := NewFunction(h, Native(body, mentions));
            IsClass(h1, root, Ref(f)) == Some(false)
  {
    var (h1, f) := NewFunction(h, Native(body, mentions));
    var rp := Lookup(h, root, "prototype").id;
    LookupBelow(h, root, "prototype");
    LookupAppend(h, h1, root, "prototype");
    assert RootOk(h1, root);
    IsClassMeans(h1, root, Ref(f));
    assert h1.objs[f].proto == Some(FunctionPrototype);
    ChainFrame(h, h1, FunctionPrototype, rp);
    ChainFrame(h, h1, ObjectPrototype, rp);
    assert !DescendsFrom(h1, Ref(f), rp);
    assert Read(h1, Ref(f), "prototype") == Ref(|h.objs|);
    assert h1.objs[|h.objs|].proto == Some(ObjectPrototype);
    assert !DescendsFrom(h1, Ref(|h.objs|), rp);
  }

  /** The shape `extend` leaves when it allocates the child: older objects
      untouched, the child's `prototype` the fresh prototype object, which
      links to the parent's prototype object. */
  lemma ExtendFresh(blind: bool, h: Heap, parent: nat, protoProps: Value, staticProps: Value)
    requires WellFormed(h) && parent < |h.objs|
    requires RefBelow(protoProps, |h.objs|) && RefBelow(staticProps, |h.objs|)
    requires MakesFreshChild(blind, h, parent, protoProps)
    ensures var b := Extend(blind, h, parent, protoProps, staticProps).value;
            && WellFormed(b.heap) && |h.objs| <= b.child < |b.heap.objs| && |h.objs| <= b.proto < |b.heap.objs|
            && b.heap.objs[..|h.objs|] == h.objs
            && PrototypeObjectOf(b.heap, b.child) == b.proto
            && b.heap.objs[b.proto].proto == Some(PrototypeObjectOf(h, parent))
            && PrototypeObjectOf(h, parent) < |h.objs|
  {
    ExtendFreshExactly(blind, h, parent, protoProps, staticProps);
    var b := Extend(blind, h, parent, protoProps, staticProps).value;
    var s := SelectConstructor(blind, h, parent, protoProps).value;
    FreshApart(h, s.0, parent, b.child, protoProps, staticProps);
    FreshShape(h, s.0, b.heap, b.child, b.proto);
  }

  lemma FreshShape(h: Heap, s: Heap, r: Heap, child: nat, proto: nat)
    requires WellFormed(h) && |h.objs| <= |s.objs| && s.objs[..|h.objs|] == h.objs
    requires OnlyTouches(s, r, child) && |h.objs| <= child
    requires |s.objs| <= proto < |r.objs| && OwnGet(r.objs[child], "prototype") == Some(Ref(proto))
    ensures WellFormed(r) && child < |r.objs| && r.objs[..|h.objs|] == h.objs
    ensures PrototypeObjectOf(r, child) == proto
  {
    PrefixAgrees(h, s);
  }

  /** `extend` succeeds and the child it settles on is apart from the
      parent and from both tables, whether it is made fresh or is the
      given `constructor` reused. */
  ghost predicate ExtendApart(blind: bool, h: Heap, parent: nat, protoProps: Value, staticProps: Value)
    requires WellFormed(h) && parent < |h.objs| && RefBelow(protoProps, |h.objs|)
  {
    var s := SelectConstructor(blind, h, parent, protoProps);
    s.Some? && Apart(s.value.0, parent, s.value.1, protoProps, staticProps)
  }

  /** A fresh child is always apart. */
  lemma FreshChildIsApart(blind: bool, h: Heap, parent: nat, protoProps: Value, staticProps: Value)
    requires WellFormed(h) && parent < |h.objs|
    requires RefBelow(protoProps, |h.objs|) && RefBelow(staticProps, |h.objs|)
    requires MakesFreshChild(blind, h, parent, protoProps)
    ensures ExtendApart(blind, h, parent, protoProps, staticProps)
    ensures |h.objs| <= Extend(blind, h, parent, protoProps, staticProps).value.child
  {
    var s := SelectConstructor(blind, h, parent, protoProps).value;
    FreshApart(h, s.0, parent, s.1, protoProps, staticProps);
  }

  /** The prototype `extend` builds inherits from exactly the lineage of the
      parent's prototype, for a fresh child and for a reused one alike. */
  lemma {:induction false} ExtendChain(blind: bool, h: Heap, parent: nat, protoProps: Value, staticProps: Value, t: nat)
    requires WellFormed(h) && parent < |h.objs|
    requires RefBelow(protoProps, |h.objs|) && RefBelow(staticProps, |h.objs|)
    requires ExtendApart(blind, h, parent, protoProps, staticProps)
    ensures var b := Extend(blind, h, parent, protoProps, staticProps).value;
            ProtoChainHas(b.heap, PrototypeObjectOf(b.heap, b.child), t) <==> InLineage(h, PrototypeObjectOf(h, parent), t)
  {
    var s := SelectConstructor(blind, h, parent, protoProps).value;
    var b := Extend(blind, h, parent, protoProps, staticProps).value;
    BuiltLinks(h, s.0, b.heap, b.child, b.proto);
    FreshLinkChain(h, b.heap, b.proto, PrototypeObjectOf(h, parent), t);
  }

  /** A prototype made after the constructor was chosen and stored as the
      child's `prototype` is what the child's prototype lookup finds; older
      links are kept. */
  lemma BuiltLinks(h: Heap, s: Heap, r: Heap, child: nat, proto: nat)
    requires |h.objs| <= |s.objs| && s.objs[..|h.objs|] == h.objs && OnlyTouches(s, r, child)
    requires |s.objs| <= proto < |r.objs| && OwnGet(r.objs[child], "prototype") == Some(Ref(proto))
    ensures |h.objs| <= proto && PrototypeObjectOf(r, child) == proto
    ensures forall i :: 0 <= i < |h.objs| ==> r.objs[i].proto == h.objs[i].proto
  {
    TouchedKeepsLinks(h, s, r, child);
  }

  /** Appending objects and then changing one object's names keeps every
      old prototype link. */
  lemma TouchedKeepsLinks(h: Heap, s: Heap, r: Heap, dest: nat)
    requires |h.objs| <= |s.objs| && s.objs[..|h.objs|] == h.objs && OnlyTouches(s, r, dest)
    ensures forall i :: 0 <= i < |h.objs| ==> r.objs[i].proto == h.objs[i].proto
    ensures forall i :: 0 <= i < |h.objs| && i != dest ==> r.objs[i] == h.objs[i]
    ensures dest < |h.objs| ==> r.objs[dest].code == h.objs[dest].code
  {
    PrefixAgrees(h, s);
  }

  /** A new object linked to an old one has as ancestors exactly that
      object and its ancestors. */
  lemma FreshLinkChain(h: Heap, r: Heap, q: nat, p: nat, t: nat)
    requires |h.objs| <= |r.objs| && forall i :: 0 <= i < |h.objs| ==> r.objs[i].proto == h.objs[i].proto
    requires p < |h.objs| <= q < |r.objs| && r.objs[q].proto == Some(p)
    ensures ProtoChainHas(r, q, t) <==> InLineage(h, p, t)
  {
    if p != t {
      ChainFrame(h, r, p, t);
    }
  }

  /** `isClass` holds for descendants at any depth: extending anything whose
      prototype descends from `Class.prototype` (or is it) gives a class
      whose prototype again does. This holds for a fresh constructor and for
      a reused `constructor` without `_super` alike. `Class` is left as it
      was unless the reused function is `Class` itself or one of its
      ancestors; a fresh child never is. */
  lemma ExtendStaysClass(blind: bool, h: Heap, root: nat, parent: nat, protoProps: Value, staticProps: Value)
    requires WellFormed(h) && parent < |h.objs| && root < |h.objs| && RootOk(h, root)
    requires RefBelow(protoProps, |h.objs|) && RefBelow(staticProps, |h.objs|)
    requires InLineage(h, PrototypeObjectOf(h, parent), Lookup(h, root, "prototype").id)
    requires ExtendApart(blind, h, parent, protoProps, staticProps)
    ensures var b := Extend(blind, h, parent, protoProps, staticProps).value;
            && InLineage(b.heap, PrototypeObjectOf(b.heap, b.child), Lookup(h, root, "prototype").id)
            && (MakesFreshChild(blind, h, parent, protoProps) ==> !InLineage(h, root, b.child))
            && (!InLineage(h, root, b.child) ==>
                  && RootOk(b.heap, root)
                  && Lookup(b.heap, root, "prototype") == Lookup(h, root, "prototype"))
            && (b.child == root || !InLineage(h, root, b.child) ==> IsClass(b.heap, root, Ref(b.child)) == Some(true))
  {
    var s := SelectConstructor(blind, h, parent, protoProps).value;
    var b := Extend(blind, h, parent, protoProps, staticProps).value;
    var rp := Lookup(h, root, "prototype").id;
    ExtendChain(blind, h, parent, protoProps, staticProps, rp);
    TouchedKeepsLinks(h, s.0, b.heap, b.child);
    assert PrototypeObjectOf(b.heap, b.child) == b.proto;
    if MakesFreshChild(blind, h, parent, protoProps) {
      FreshChildIsApart(blind, h, parent, protoProps, staticProps);
      if ProtoChainHas(h, root, b.child) {
        ChainBelow(h, root, b.child);
      }
    }
    if !InLineage(h, root, b.child) {
      RootAvoided(h, s.0, b.heap, root, b.child);
      IsClassMeans(b.heap, root, Ref(b.child));
    } else if b.child == root {
      assert IsCallable(b.heap, Ref(root));
      IsClassOfRoot(b.heap, root);
    }
  }

  /** Changing one object that is neither `Class` nor one of its ancestors
      leaves `Class` usable as the root, with the same prototype. */
  lemma RootAvoided(h: Heap, s: Heap, r: Heap, root: nat, dest: nat)
    requires WellFormed(h) && |h.objs| <= |s.objs| && s.objs[..|h.objs|] == h.objs && OnlyTouches(s, r, dest)
    requires root < |h.objs| && RootOk(h, root) && !InLineage(h, root, dest)
    ensures RootOk(r, root) && Lookup(r, root, "prototype") == Lookup(h, root, "prototype")
  {
    PrefixAgrees(h, s);
    if root != dest {
      ChainFrame(h, s, root, dest);
    }
    LookupAppend(h, s, root, "prototype");
    LookupAvoiding(s, r, root, "prototype", dest);
  }

  /** Instances of a class are classes too: `new Child()` that the
      constructor does not replace inherits from `Child.prototype`, so
      `isClass` holds for it while `Class.prototype` stays in place. */
  lemma InstanceIsClass(fuel: nat, natives: Natives, h: Heap, root: nat, c: nat, args: seq<Value>)
    requires WellFormed(h) && IsCallable(h, Ref(c)) && root < |h.objs| && RootOk(h, root)
    requires Lookup(h, c, "prototype").Ref?
    requires InLineage(h, Lookup(h, c, "prototype").id, Lookup(h, root, "prototype").id)
    ensures var o := Construct(fuel, natives, h, Ref(c), args);
            o.Returned? && o.result == Ref(|h.objs|) ==>
              && DescendsFrom(o.heap, o.result, Lookup(h, root, "prototype").id)
              && (Lookup(o.heap, root, "prototype") == Lookup(h, root, "prototype") ==>
                    IsClass(o.heap, root, o.result) == Some(true))
  {
    var rp := Lookup(h, root, "prototype").id;
    ConstructedInheritsFromPrototype(fuel, natives, h, c, args, rp);
    var o := Construct(fuel, natives, h, Ref(c), args);
    if o.Returned? && o.result == Ref(|h.objs|) && Lookup(o.heap, root, "prototype") == Lookup(h, root, "prototype") {
      assert IsCallable(o.heap, Ref(root));
      IsClassMeans(o.heap, root, o.result);
    }
  }

  /** A fresh default constructor passes its receiver and arguments to the
      parent and returns `undefined`. */
  lemma DefaultConstructorForwards(blind: bool, h: Heap, parent: nat, protoProps: Value, staticProps: Value,
                                   fuel: nat, natives: Natives, self: nat, args: seq<Value>)
    requires WellFormed(h) && parent < |h.objs|
    requires RefBelow(protoProps, |h.objs|) && RefBelow(staticProps, |h.objs|)
    requires OwnConstructor(h, protoProps).None?
    ensures var b := Extend(blind, h, parent, protoProps, staticProps).value;
            var o := Call(fuel + 1, natives, b.heap, Ref(b.child), self, args);
            var p := Call(fuel, natives, b.heap, Ref(parent), self, args);
            && (o.Returned? <==> p.Returned?)
            && (o.Returned? ==> o.heap == p.heap && o.result == Undefined)
  {
    var b := Extend(blind, h, parent, protoProps, staticProps).value;
    var s := SelectConstructor(blind, h, parent, protoProps).value;
    assert b.heap.objs[b.child].code == s.0.objs[b.child].code;
    ForwardingConstructorDelegates(fuel, natives, b.heap, b.child, self, args);
  }

  /** A prototype method that mentions `_super` and overrides a method the
      parent's prototype provides is installed as a wrapper, whether the
      child is made fresh or is a reused `constructor` apart from the parent
      and both tables. Invoked on any receiver it runs the new method with
      `_super` set to the parent's method, returns the same result, and
      restores `_super`. */
  lemma OverrideReachesParentMethod(blind: bool, h: Heap, parent: nat, protoProps: Value, staticProps: Value, k: string,
                                    fuel: nat, natives: Natives, self: nat, args: seq<Value>)
    requires WellFormed(h) && parent < |h.objs|
    requires RefBelow(protoProps, |h.objs|) && RefBelow(staticProps, |h.objs|)
    requires ExtendApart(blind, h, parent, protoProps, staticProps)
    requires k != "constructor" && Has(EnumerableOwn(h, protoProps), k)
    requires MentionsSuper(blind, h, Get(EnumerableOwn(h, protoProps), k)) && IsCallable(h, Get(EnumerableOwn(h, protoProps), k))
    requires IsCallable(h, Lookup(h, PrototypeObjectOf(h, parent), k))
    requires fuel > 0
    ensures var b := Extend(blind, h, parent, protoProps, staticProps).value;
            var m := Get(EnumerableOwn(h, protoProps), k);
            var parentMethod := Lookup(h, PrototypeObjectOf(h, parent), k);
            var w := Lookup(b.heap, b.proto, k);
            var entered := SetProp(b.heap, self, "_super", parentMethod);
            var inner := Call(fuel - 1, natives, entered, m, self, args);
            var outer := Call(fuel, natives, b.heap, w, self, args);
            && IsCallable(b.heap, w) && CodeOf(b.heap, w) == SuperWrapper(m, parentMethod)
            && (self < |b.heap.objs| ==>
                  && Lookup(entered, self, "_super") == parentMethod
                  && (outer.Returned? <==> inner.Returned?)
                  && (outer.Returned? ==>
                        outer.result == inner.result && Lookup(outer.heap, self, "_super") == Lookup(b.heap, self, "_super")))
  {
    var b := Extend(blind, h, parent, protoProps, staticProps).value;
    var s := SelectConstructor(blind, h, parent, protoProps).value;
    LookupAppend(h, s.0, parent, "prototype");
    var m := Get(EnumerableOwn(h, protoProps), k);
    var pp := PrototypeObjectOf(h, parent);
    LookupAppend(h, s.0, pp, k);
    var parentMethod := Lookup(h, pp, k);
    assert ProtoSuper(s.0, parent, b.child, k) == parentMethod;
    assert m.id < |h.objs| && s.0.objs[m.id] == h.objs[m.id] by {
      assert s.0.objs[m.id] == s.0.objs[..|h.objs|][m.id];
    }
    assert parentMethod.id < |h.objs| && s.0.objs[parentMethod.id] == h.objs[parentMethod.id] by {
      LookupBelow(h, pp, k);
      assert s.0.objs[parentMethod.id] == s.0.objs[..|h.objs|][parentMethod.id];
    }
    assert ShouldWrap(blind, s.0, m, parentMethod);
    assert ProtoOutcome(blind, s.0, b.heap, b.proto, parent, b.child, EnumerableOwn(h, protoProps), k);
    var w := Lookup(b.heap, b.proto, k);
    if self < |b.heap.objs| {
      WrappedCallSwapsSuper(fuel, natives, b.heap, w.id, self, args);
    }
  }

  /** `Class.mixin(source)` followed by a call: a mixed-in method that
      mentions `_super` and overrides a method the prototype already reads
      runs with `_super` set to that previously installed method. */
  lemma MixinReachesPrevious(blind: bool, h: Heap, klass: nat, source: Value, k: string,
                             fuel: nat, natives: Natives, self: nat, args: seq<Value>)
    requires WellFormed(h) && klass < |h.objs| && RefBelow(source, |h.objs|)
    requires Lookup(h, klass, "prototype").Ref?
    requires Has(EnumerableOwn(h, source), k)
    requires var m := Get(EnumerableOwn(h, source), k); MentionsSuper(blind, h, m) && IsCallable(h, m)
    requires IsCallable(h, Lookup(h, Lookup(h, klass, "prototype").id, k))
    requires fuel > 0 && self < |h.objs|
    ensures var o := MixinInto(blind, h, klass, source);
            var dest := Lookup(h, klass, "prototype").id;
            var previous := Lookup(h, dest, k);
            var m := Get(EnumerableOwn(h, source), k);
            o.Some? && o.value.1 == klass &&
            var r := o.value.0;
            var w := Lookup(r, dest, k);
            var inner := Call(fuel - 1, natives, SetProp(r, self, "_super", previous), m, self, args);
            var outer := Call(fuel, natives, r, w, self, args);
            && IsCallable(r, w) && CodeOf(r, w) == SuperWrapper(m, previous)
            && (outer.Returned? <==> inner.Returned?)
            && (outer.Returned? ==>
                  outer.result == inner.result && Lookup(outer.heap, self, "_super") == Lookup(r, self, "_super"))
  {
    var r := MixinInto(blind, h, klass, source).value.0;
    var dest := Lookup(h, klass, "prototype").id;
    var src := EnumerableOwn(h, source);
    assert src.keys != [] by {
      assert k in src.keys;
    }
    assert InstalledFrom(blind, h, r, dest, k, Get(src, k));
    var w := Lookup(r, dest, k);
    WrappedCallSwapsSuper(fuel, natives, r, w.id, self, args);
  }

  /** `Class.mixin(Events)`: every name of the events table lands on
      `Class.prototype`; none of them mentions `_super`, so each is copied
      as is, and the root's own prototype names stay unless the table
      replaces them. */
  lemma EventsMixedIn(h: Heap, events: nat)
    requires WellFormed(h) && |h.objs| >= |Boot().objs| && h.objs[..|Boot().objs|] == Boot().objs
    requires events < |h.objs|
    requires forall k :: Has(h.objs[events].own, k) ==> !MentionsSuper(false, h, Get(h.objs[events].own, k))
    ensures var m := MixinInto(false, h, ClassId, Ref(events));
            && m.Some? && m.value.1 == ClassId
            && var r := m.value.0;
            && (forall k :: Has(h.objs[events].own, k) ==> Lookup(r, ClassPrototypeId, k) == Get(h.objs[events].own, k))
            && (forall k :: !Has(h.objs[events].own, k) ==>
                  OwnGet(r.objs[ClassPrototypeId], k) == OwnGet(Boot().objs[ClassPrototypeId], k))
  {
    BootedLinks(h);
  }

  /** A heap that starts with the boot objects keeps `Class.prototype` and
      its link from `Class`. */
  lemma BootedLinks(h: Heap)
    requires |h.objs| >= |Boot().objs| && h.objs[..|Boot().objs|] == Boot().objs
    ensures Lookup(h, ClassId, "prototype") == Ref(ClassPrototypeId)
    ensures h.objs[ClassPrototypeId] == Boot().objs[ClassPrototypeId]
  {
    assert h.objs[ClassId] == Boot().objs[ClassId] && h.objs[ClassPrototypeId] == Boot().objs[ClassPrototypeId] by {
      assert h.objs[ClassId] == h.objs[..|Boot().objs|][ClassId];
      assert h.objs[ClassPrototypeId] == h.objs[..|Boot().objs|][ClassPrototypeId];
    }
    assert Lookup(h, ClassId, "prototype") == Ref(ClassPrototypeId);
  }

  /** A new `Class` gets `cid` equal to `cidPrefix` followed by the bumped
      counter, before `initialize` runs: `metal1` for the first one. */
  lemma RootInstanceCid(h: Heap, self: nat)
    requires WellFormed(h) && |h.objs| >= |Boot().objs| && h.objs[..|Boot().objs|] == Boot().objs
    requires self < |h.objs| && h.objs[self].proto == Some(ClassPrototypeId) && OwnGet(h.objs[self], "cidPrefix").None?
    ensures Lookup(AssignCid(h, self), self, "cid") == Str("metal" + NatText(h.idCounter + 1))
  {
    BootedCidPrefix(h, self);
    CidAfterAssign(h, self);
  }

  lemma BootedCidPrefix(h: Heap, self: nat)
    requires WellFormed(h) && |h.objs| >= |Boot().objs| && h.objs[..|Boot().objs|] == Boot().objs
    requires self < |h.objs| && h.objs[self].proto == Some(ClassPrototypeId) && OwnGet(h.objs[self], "cidPrefix").None?
    ensures Lookup(h, self, "cidPrefix") == Str("metal")
  {
    BootCidPrefix();
    assert h.objs[ClassPrototypeId] == h.objs[..|Boot().objs|][ClassPrototypeId];
  }

  lemma BootCidPrefix()
    ensures OwnGet(Boot().objs[ClassPrototypeId], "cidPrefix") == Some(Str("metal"))
  {
  }

  /** `cid` reads back as the id made from the prefix the object sees. */
  lemma CidAfterAssign(h: Heap, self: nat)
    requires self < |h.objs|
    ensures Lookup(AssignCid(h, self), self, "cid") == UniqueId(Lookup(h, self, "cidPrefix"), h.idCounter + 1)
  {
    var r := AssignCid(h, self);
    assert OwnGet(r.objs[self], "cid") == Some(UniqueId(Lookup(h, self, "cidPrefix"), h.idCounter + 1));
  }

  /** `_.extend(Err, Class)`: the error class carries every static of
      `Class`, so `Err.extend` is `Class.extend`. */
  lemma ErrCarriesClassStatics(h: Heap, err: nat, root: nat, k: string)
    requires WellFormed(h) && err < |h.objs| && root < |h.objs| && err != root
    requires Has(h.objs[root].own, k) && k !in h.objs[root].hidden
    ensures var r := CopyAll(h, err, EnumerableOwn(h, Ref(root)));
            Lookup(r, err, k) == Lookup(h, root, k) == Get(h.objs[root].own, k)
  {
    var r := CopyAll(h, err, EnumerableOwn(h, Ref(root)));
    assert OwnGet(r.objs[err], k) == Some(Get(h.objs[root].own, k));
  }
}
