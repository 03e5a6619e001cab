/** The older, single-file variant of the composition engine: the same
    `wrap`/`wrapAll`, an `extend` that wraps every explicit constructor, a
    root `Class` without `cid`, `classify`, and an `isClass` without the
    `value === Class` clause. */
module MetalEngine {
  import opened Wrappers
  import opened JsValue
  import opened PropTable
  import opened ObjectHeap
  import opened Invoke
  import opened Compose
  import ClassEngine

  /** The constructor this variant's `extend` picks: an own `constructor`
      of `protoProps` is wrapped against `Parent.prototype.constructor`
      whatever its text, which throws (None) when `Parent.prototype` is
      `undefined` or `null`; otherwise a fresh function forwards to the
      parent. Either way the constructor is a fresh function. */
  function SelectConstructor(h: Heap, parent: nat, protoProps: Value): (r: Option<(Heap, nat)>)
    requires WellFormed(h) && parent < |h.objs| && RefBelow(protoProps, |h.objs|)
    ensures r.None? <==> OwnConstructor(h, protoProps).Some? && ParentConstructor(h, parent).None?
    ensures r.Some? ==>
              && WellFormed(r.value.0) && |h.objs| <= r.value.1 < |r.value.0.objs|
              && r.value.0.objs[..|h.objs|] == h.objs && r.value.0.idCounter == h.idCounter
              && IsCallable(r.value.0, Ref(r.value.1))
              && CodeOf(r.value.0, Ref(r.value.1)) ==
                   match OwnConstructor(h, protoProps)
                   case None => ForwardToParent(Ref(parent))
                   case Some(ctor) => SuperWrapper(ctor, ParentConstructor(h, parent).value)
  {
    match OwnConstructor(h, protoProps)
    case None =>
      Some(NewFunction(h, ForwardToParent(Ref(parent))))
    case Some(ctor) =>
      assert RefBelow(ctor, |h.objs|) by {
        assert ObjOk(h.objs[protoProps.id], protoProps.id, |h.objs|);
      }
      match ParentConstructor(h, parent)
      case None => None
      case Some(sup) =>
        LookupBelow(h, parent, "prototype");
        assert RefBelow(sup, |h.objs|) by {
          var pp := Lookup(h, parent, "prototype");
          if pp.Ref? {
            LookupBelow(h, pp.id, "constructor");
          }
        }
        Some(Wrap(h, ctor, sup))
  }

  /** `Parent.extend(protoProps, staticProps)` in this variant. The
      constructor is always fresh, so the child is always apart from the
      parent and the outcome of every name is fixed. */
  function Extend(blind: bool, h: Heap, parent: nat, protoProps: Value, staticProps: Value): (r: Option<ClassEngine.Built>)
    requires WellFormed(h) && parent < |h.objs|
    requires RefBelow(protoProps, |h.objs|) && RefBelow(staticProps, |h.objs|)
    ensures r.None? <==> SelectConstructor(h, parent, protoProps).None?
    ensures r.Some? ==>
              var s := SelectConstructor(h, parent, protoProps).value;
              && r.value.child == s.1
              && OnlyTouches(s.0, r.value.heap, r.value.child)
              && (forall i :: 0 <= i < |h.objs| && i != r.value.child ==> r.value.heap.objs[i] == h.objs[i])
              && |s.0.objs| <= r.value.proto < |r.value.heap.objs|
              && OwnGet(r.value.heap.objs[r.value.child], "prototype") == Some(Ref(r.value.proto))
    ensures r.Some? ==>
              var s := SelectConstructor(h, parent, protoProps).value;
              Apart(s.0, parent, r.value.child, protoProps, staticProps) ==>
                && r.value.heap.objs[r.value.proto].proto == Some(PrototypeObjectOf(h, parent))
                && OwnGet(r.value.heap.objs[r.value.child], "superclass") == Some(Ref(parent))
                && OwnGet(r.value.heap.objs[r.value.child], "__super__") == Some(Lookup(h, parent, "prototype"))
                && (forall k :: k !in ExtendWrites ==>
                      StaticOutcome(blind, s.0, r.value.heap, parent, r.value.child, EnumerableOwn(h, staticProps), k))
                && (forall k ::
                      ProtoOutcome(blind, s.0, r.value.heap, r.value.proto, parent, r.value.child, EnumerableOwn(h, protoProps), k))
  {
    match SelectConstructor(h, parent, protoProps)
    case None => None
    case Some(s) =>
      var a := Assemble(blind, s.0, parent, s.1, protoProps, staticProps);
      ClassEngine.AppendedReads(h, s.0, parent, protoProps, staticProps);
      PrefixAgrees(h, s.0);
      Some(ClassEngine.Built(a.heap, s.1, a.proto))
  }

  /** The cases in which this variant's `extend` succeeds: no own
      `constructor`, or a readable `Parent.prototype.constructor`. */
  predicate CanExtend(h: Heap, parent: nat, protoProps: Value)
  {
    OwnConstructor(h, protoProps).None? || ParentConstructor(h, parent).Some?
  }

  /** Since its constructor is fresh, this variant's `extend` always links
      the new prototype to `Parent.prototype` and records `superclass` and
      `__super__`, leaving every older object as it was. */
  lemma ExtendLinks(blind: bool, h: Heap, parent: nat, protoProps: Value, staticProps: Value)
    requires WellFormed(h) && parent < |h.objs|
    requires RefBelow(protoProps, |h.objs|) && RefBelow(staticProps, |h.objs|)
    requires CanExtend(h, parent, protoProps)
    ensures var b := Extend(blind, h, parent, protoProps, staticProps).value;
            && |h.objs| <= b.child < |b.heap.objs| && b.heap.objs[..|h.objs|] == h.objs
            && b.heap.objs[b.proto].proto == Some(PrototypeObjectOf(h, parent))
            && OwnGet(b.heap.objs[b.child], "superclass") == Some(Ref(parent))
            && OwnGet(b.heap.objs[b.child], "__super__") == Some(Lookup(h, parent, "prototype"))
  {
    var s := SelectConstructor(h, parent, protoProps).value;
    var b := Extend(blind, h, parent, protoProps, staticProps).value;
    FreshApart(h, s.0, parent, b.child, protoProps, staticProps);
    ClassEngine.FreshShape(h, s.0, b.heap, b.child, b.proto);
  }

  /** ... and every prototype name ends as `wrapAll` installs it. */
  lemma ExtendSettlesProto(blind: bool, h: Heap, parent: nat, protoProps: Value, staticProps: Value, k: string)
    requires WellFormed(h) && parent < |h.objs|
    requires RefBelow(protoProps, |h.objs|) && RefBelow(staticProps, |h.objs|)
    requires CanExtend(h, parent, protoProps)
    ensures var s := SelectConstructor(h, parent, protoProps).value;
            var b := Extend(blind, h, parent, protoProps, staticProps).value;
            ProtoOutcome(blind, s.0, b.heap, b.proto, parent, b.child, EnumerableOwn(h, protoProps), k)
  {
    var s := SelectConstructor(h, parent, protoProps).value;
    var b := Extend(blind, h, parent, protoProps, staticProps).value;
    FreshApart(h, s.0, parent, b.child, protoProps, staticProps);
  }

  /** ... and so does every static name `extend` does not write itself. */
  lemma ExtendSettlesStatic(blind: bool, h: Heap, parent: nat, protoProps: Value, staticProps: Value, k: string)
    requires WellFormed(h) && parent < |h.objs|
    requires RefBelow(protoProps, |h.objs|) && RefBelow(staticProps, |h.objs|)
    requires CanExtend(h, parent, protoProps) && k !in ExtendWrites
    ensures var s := SelectConstructor(h, parent, protoProps).value;
            var b := Extend(blind, h, parent, protoProps, staticProps).value;
            StaticOutcome(blind, s.0, b.heap, parent, b.child, EnumerableOwn(h, staticProps), k)
  {
    var s := SelectConstructor(h, parent, protoProps).value;
    var b := Extend(blind, h, parent, protoProps, staticProps).value;
    FreshApart(h, s.0, parent, b.child, protoProps, staticProps);
  }

  /** Where the two variants part: an own `constructor` that never mentions
      `_super` is used as is by the current engine but wrapped by this one,
      and both pick a fresh forwarding constructor when there is none. */
  lemma ConstructorChoiceDiffers(h: Heap, parent: nat, protoProps: Value)
    requires WellFormed(h) && parent < |h.objs| && RefBelow(protoProps, |h.objs|)
    requires OwnConstructor(h, protoProps).Some? && OwnConstructor(h, protoProps).value.Ref?
    requires !MentionsSuper(false, h, OwnConstructor(h, protoProps).value)
    requires ParentConstructor(h, parent).Some?
    ensures var legacy := SelectConstructor(h, parent, protoProps);
            var current := ClassEngine.SelectConstructor(false, h, parent, protoProps);
            && legacy.Some? && current.Some?
            && Ref(current.value.1) == OwnConstructor(h, protoProps).value
            && legacy.value.1 >= |h.objs| && current.value.1 < |h.objs|
  {
  }

  /** The objects of the library once this variant has set up `Class`:
      `Class.prototype.initialize` is a no-op, and `Class` carries `extend`,
      `mixin` and `include`. */
  const ClassPrototypeId: nat := 2
  const ClassId: nat := 3

  function Boot(): (h: Heap)
    ensures |h.objs| > ClassId
    ensures IsCallable(h, Ref(ClassId)) && CodeOf(h, Ref(ClassId)) == RootConstructor(false)
    ensures Lookup(h, ClassId, "prototype") == Ref(ClassPrototypeId)
    ensures Lookup(h, ClassPrototypeId, "constructor") == Ref(ClassId)
    ensures IsCallable(h, Lookup(h, ClassPrototypeId, "initialize"))
    ensures && IsCallable(h, Lookup(h, ClassId, "extend")) && IsCallable(h, Lookup(h, ClassId, "mixin"))
            && IsCallable(h, Lookup(h, ClassId, "include"))
  {
    var native := (b: nat) => Obj(Empty(), map[], Some(FunctionPrototype), Some(Native(b, false)));
    Heap([
      Obj(Empty(), map[], None, None),
      Obj(Empty(), map[], Some(ObjectPrototype), Some(Native(0, false))),
      Obj(Props(["initialize"], map["initialize" := Ref(4)]),
          map["constructor" := Ref(ClassId)], Some(ObjectPrototype), None),
      Obj(Props(["extend", "mixin", "include"], map["extend" := Ref(5), "mixin" := Ref(6), "include" := Ref(7)]),
          map["prototype" := Ref(ClassPrototypeId)], Some(FunctionPrototype), Some(RootConstructor(false))),
      native(1), native(2), native(3), native(4)
    ], 0)
  }

  lemma BootWellFormed()
    ensures WellFormed(Boot()) && ClassEngine.RootOk(Boot(), ClassId)
    ensures Lookup(Boot(), ClassId, "prototype") == Ref(ClassPrototypeId)
  {
    var h := Boot();
    forall i | 0 <= i < |h.objs|
      ensures ObjOk(h.objs[i], i, |h.objs|)
    {
      if i == ClassId {
        BootClassOk();
      }
    }
  }

  lemma BootClassOk()
    ensures ObjOk(Boot().objs[ClassId], ClassId, |Boot().objs|)
  {
    assert Boot().objs[ClassId].own.Valid();
  }

  /** `Class.mixin(Events)` and `Class.mixin(Utils)` in this variant: every
      name of a table whose values do not mention `_super` lands on
      `Class.prototype` as is, the root's other prototype names stay as
      they were at boot, and `mixin` returns `Class`. */
  lemma TableMixedIn(h: Heap, table: nat)
    requires WellFormed(h) && |h.objs| >= |Boot().objs| && h.objs[..|Boot().objs|] == Boot().objs
    requires table < |h.objs|
    requires forall k :: Has(h.objs[table].own, k) ==> !MentionsSuper(false, h, Get(h.objs[table].own, k))
    ensures var m := MixinInto(false, h, ClassId, Ref(table));
            && m.Some? && m.value.1 == ClassId
            && var r := m.value.0;
            && (forall k :: Has(h.objs[table].own, k) ==> Lookup(r, ClassPrototypeId, k) == Get(h.objs[table].own, k))
            && (forall k :: !Has(h.objs[table].own, k) ==>
                  OwnGet(r.objs[ClassPrototypeId], k) == OwnGet(Boot().objs[ClassPrototypeId], k))
  {
    BootedLinks(h);
  }

  /** A heap that starts with this variant's boot objects keeps
      `Class.prototype` and its link from `Class`. */
  lemma BootedLinks(h: Heap)
    requires |h.objs| >= |Boot().objs| && h.objs[..|Boot().objs|] == Boot().objs
    ensures Lookup(h, ClassId, "prototype") == Ref(ClassPrototypeId)
    ensures h.objs[ClassPrototypeId] == Boot().objs[ClassPrototypeId]
  {
    assert h.objs[ClassId] == Boot().objs[ClassId] && h.objs[ClassPrototypeId] == Boot().objs[ClassPrototypeId] by {
      assert h.objs[ClassId] == h.objs[..|Boot().objs|][ClassId];
      assert h.objs[ClassPrototypeId] == h.objs[..|Boot().objs|][ClassPrototypeId];
    }
    assert Lookup(h, ClassId, "prototype") == Ref(ClassPrototypeId);
  }

  /** `_.isClass(value)` as this variant mixes it into underscore: truthy,
      and an instance of `Class` or a function whose `prototype` is one. */
  function IsClass(h: Heap, root: nat, v: Value): (r: Option<bool>)
    ensures ClassEngine.RootOk(h, root) ==> r.Some?
    ensures r == Some(true) ==> Truthy(v)
  {
    if !Truthy(v) then Some(false)
    else match InstanceOf(h, v, Ref(root))
      case None => None
      case Some(true) => Some(true)
      case Some(false) => InstanceOf(h, Read(h, v, "prototype"), Ref(root))
  }

  /** Apart from the root itself, the two `isClass` predicates agree. */
  lemma IsClassAgreesOffRoot(h: Heap, root: nat, v: Value)
    requires ClassEngine.RootOk(h, root) && v != Ref(root)
    ensures IsClass(h, root, v) == ClassEngine.IsClass(h, root, v)
  {
  }

  /** Without the `value === Class` clause the root is not a class of its
      own: `Class` neither inherits from `Class.prototype` nor has a
      `prototype` that does, while the current engine answers true. */
  lemma RootIsNotAClass()
    ensures IsClass(Boot(), ClassId, Ref(ClassId)) == Some(false)
    ensures ClassEngine.IsClass(ClassEngine.Boot(), ClassEngine.ClassId, Ref(ClassEngine.ClassId)) == Some(true)
  {
    MetalRootNotClass();
    ClassRootIsClass();
  }

  lemma MetalRootNotClass()
    ensures IsClass(Boot(), ClassId, Ref(ClassId)) == Some(false)
  {
    BootWellFormed();
    assert !ProtoChainHas(Boot(), ClassId, ClassPrototypeId) by {
      assert !ProtoChainHas(Boot(), FunctionPrototype, ClassPrototypeId) by {
        assert !ProtoChainHas(Boot(), ObjectPrototype, ClassPrototypeId);
      }
    }
    assert !ProtoChainHas(Boot(), ClassPrototypeId, ClassPrototypeId) by {
      assert !ProtoChainHas(Boot(), ObjectPrototype, ClassPrototypeId);
    }
  }

  lemma ClassRootIsClass()
    ensures ClassEngine.IsClass(ClassEngine.Boot(), ClassEngine.ClassId, Ref(ClassEngine.ClassId)) == Some(true)
  {
    ClassEngine.BootWellFormed();
  }

  /** The table `{constructor: Klass}` extended with the `for-in` names of
      `Klass.prototype`, own and inherited, except the event names. */
  function ClassifyProtoTable(h: Heap, klass: nat, eventNames: set<string>): (t: Props)
    requires WellFormed(h) && klass < |h.objs|
    ensures TableFits(t, |h.objs|)
    ensures var protos := Lookup(h, klass, "prototype");
            && (forall k :: Has(t, k) <==> k == "constructor" || (protos.Ref? && EnumerableAlong(h, protos.id, k) && k !in eventNames))
            && (forall k :: Has(t, k) ==>
                  Get(t, k) == if protos.Ref? && EnumerableAlong(h, protos.id, k) && k !in eventNames then Read(h, protos, k) else Ref(klass))
  {
    var all := ForInTable(h, Lookup(h, klass, "prototype"));
    var t := Assign(Put(Empty(), "constructor", Ref(klass)), Omit(all, eventNames));
    assert TableBelow(t, |h.objs|) by {
      forall k | k in t.vals
        ensures RefBelow(t.vals[k], |h.objs|)
      {
        assert Has(t, k);
        if Has(Omit(all, eventNames), k) {
          assert Get(t, k) == Get(all, k);
          assert k in all.vals;
        }
      }
    }
    t
  }

  /** `Klass`'s `for-in` statics, own and inherited, except the names
      `Class` has as its own enumerable names. */
  function ClassifyStaticTable(h: Heap, root: nat, klass: nat): (t: Props)
    requires WellFormed(h) && root < |h.objs| && klass < |h.objs|
    ensures TableFits(t, |h.objs|)
    ensures forall k :: Has(t, k) <==> EnumerableAlong(h, klass, k) && !Has(h.objs[root].own, k)
    ensures forall k :: Has(t, k) ==> Get(t, k) == Lookup(h, klass, k)
  {
    assert ObjOk(h.objs[root], root, |h.objs|);
    var all := ForInTable(h, Ref(klass));
    var t := Omit(all, set k | k in h.objs[root].own.keys);
    assert TableBelow(t, |h.objs|) by {
      forall k | k in t.vals
        ensures RefBelow(t.vals[k], |h.objs|)
      {
        assert Has(t, k) && k in all.vals;
      }
    }
    t
  }

  /** A valid table whose references all point below `n`. */
  ghost predicate TableFits(t: Props, n: nat)
  {
    t.Valid() && TableBelow(t, n)
  }

  /** Two plain objects holding `pt` and `st`, appended in that order. */
  function AllocTables(h: Heap, pt: Props, st: Props): (r: Heap)
    requires WellFormed(h) && TableFits(pt, |h.objs|) && TableFits(st, |h.objs|)
    ensures WellFormed(r) && |r.objs| == |h.objs| + 2 && r.objs[..|h.objs|] == h.objs
    ensures EnumerableOwn(r, Ref(|h.objs|)) == pt && EnumerableOwn(r, Ref(|h.objs| + 1)) == st
  {
    var (h1, protos) := AllocPlain(h, pt, ObjectPrototype);
    assert TableBelow(st, |h1.objs|);
    var (h2, statics) := AllocPlain(h1, st, ObjectPrototype);
    assert h2.objs[protos] == h1.objs[protos] by {
      PrefixAgrees(h1, h2);
    }
    PrefixTrans(h, h1, h2);
    h2
  }

  /** The heap `classify` hands to `extend`: the two tables appended. */
  function ClassifyHeap(h: Heap, root: nat, klass: nat, eventNames: set<string>): (r: Heap)
    requires WellFormed(h) && root < |h.objs| && klass < |h.objs|
    ensures WellFormed(r) && |r.objs| == |h.objs| + 2 && r.objs[..|h.objs|] == h.objs
  {
    AllocTables(h, ClassifyProtoTable(h, klass, eventNames), ClassifyStaticTable(h, root, klass))
  }

  /** The two appended objects hold exactly the prototype table and the
      static table, as their own enumerable names. */
  lemma ClassifyHeapTables(h: Heap, root: nat, klass: nat, eventNames: set<string>)
    requires WellFormed(h) && root < |h.objs| && klass < |h.objs|
    ensures var r := ClassifyHeap(h, root, klass, eventNames);
            && EnumerableOwn(r, Ref(|h.objs|)) == ClassifyProtoTable(h, klass, eventNames)
            && EnumerableOwn(r, Ref(|h.objs| + 1)) == ClassifyStaticTable(h, root, klass)
  {
    assert ClassifyHeap(h, root, klass, eventNames) ==
           AllocTables(h, ClassifyProtoTable(h, klass, eventNames), ClassifyStaticTable(h, root, klass));
  }

  /** Reads of `classify`'s inputs are the same once the tables are
      appended: the prototype table's `constructor` is its own, and what
      `Class` offers is unchanged. */
  lemma ClassifyReads(h: Heap, root: nat, klass: nat, eventNames: set<string>)
    requires WellFormed(h) && root < |h.objs| && klass < |h.objs|
    ensures var h2 := ClassifyHeap(h, root, klass, eventNames);
            && OwnConstructor(h2, Ref(|h.objs|)) == Some(Get(ClassifyProtoTable(h, klass, eventNames), "constructor"))
            && ParentConstructor(h2, root) == ParentConstructor(h, root)
            && PrototypeObjectOf(h2, root) == PrototypeObjectOf(h, root)
  {
    ClassifyReadsTable(h, root, klass, eventNames);
    ClassifyReadsRoot(h, root, klass, eventNames);
  }

  lemma ClassifyReadsTable(h: Heap, root: nat, klass: nat, eventNames: set<string>)
    requires WellFormed(h) && root < |h.objs| && klass < |h.objs|
    ensures var h2 := ClassifyHeap(h, root, klass, eventNames);
            OwnConstructor(h2, Ref(|h.objs|)) == Some(Get(ClassifyProtoTable(h, klass, eventNames), "constructor"))
  {
    var h2 := ClassifyHeap(h, root, klass, eventNames);
    ClassifyHeapTables(h, root, klass, eventNames);
    var t := ClassifyProtoTable(h, klass, eventNames);
    assert Has(t, "constructor");
    assert h2.objs[|h.objs|].hidden == map[] by {
      assert EnumerableOwn(h2, Ref(|h.objs|)) == h2.objs[|h.objs|].own;
    }
  }

  lemma ClassifyReadsRoot(h: Heap, root: nat, klass: nat, eventNames: set<string>)
    requires WellFormed(h) && root < |h.objs| && klass < |h.objs|
    ensures var h2 := ClassifyHeap(h, root, klass, eventNames);
            && ParentConstructor(h2, root) == ParentConstructor(h, root)
            && PrototypeObjectOf(h2, root) == PrototypeObjectOf(h, root)
  {
    AppendKeepsParent(h, ClassifyHeap(h, root, klass, eventNames), root);
  }

  /** Appending objects changes neither the constructor nor the prototype
      object a parent offers. */
  lemma AppendKeepsParent(h: Heap, h2: Heap, root: nat)
    requires WellFormed(h) && |h.objs| <= |h2.objs| && h2.objs[..|h.objs|] == h.objs && root < |h.objs|
    ensures ParentConstructor(h2, root) == ParentConstructor(h, root)
    ensures PrototypeObjectOf(h2, root) == PrototypeObjectOf(h, root)
  {
    LookupAppend(h, h2, root, "prototype");
    LookupBelow(h, root, "prototype");
    var pp := Lookup(h, root, "prototype");
    if pp.Ref? {
      LookupAppend(h, h2, pp.id, "constructor");
    }
  }

  /** `classify(Klass)`: `Class.extend` with `{constructor: Klass}` plus
      `Klass.prototype`'s names other than the event names, and `Klass`'s
      statics other than `Class`'s. `eventNames` stands for the names of
      the events table, which belongs to another library. Since the
      prototype table always has a `constructor`, it fails exactly when
      `Class.prototype` is `undefined` or `null`. Otherwise the new class
      is a fresh wrapper of `Klass` (or of an enumerable `constructor` of
      its prototype) against `Class`'s constructor; its prototype inherits
      from `Class.prototype` and holds exactly the prototype names of
      `Klass` that are not event names, so those read through to
      `Class.prototype`; and every static of `Class` is kept. */
  function Classify(blind: bool, h: Heap, root: nat, klass: nat, eventNames: set<string>): (r: Option<ClassEngine.Built>)
    requires WellFormed(h) && root < |h.objs| && klass < |h.objs|
    ensures r.None? <==> ParentConstructor(h, root).None?
    ensures r.Some? ==>
              && |h.objs| <= r.value.child < |r.value.heap.objs| && r.value.proto < |r.value.heap.objs|
              && IsCallable(r.value.heap, Ref(r.value.child))
              && CodeOf(r.value.heap, Ref(r.value.child)) ==
                   SuperWrapper(Get(ClassifyProtoTable(h, klass, eventNames), "constructor"), ParentConstructor(h, root).value)
              && r.value.heap.objs[r.value.proto].proto == Some(PrototypeObjectOf(h, root))
    ensures r.Some? && r.value.proto < |r.value.heap.objs| ==>
              forall k :: k != "constructor" ==>
                (OwnGet(r.value.heap.objs[r.value.proto], k).Some? <==>
                   Lookup(h, klass, "prototype").Ref? && EnumerableAlong(h, Lookup(h, klass, "prototype").id, k) && k !in eventNames)
    ensures r.Some? && r.value.child < |r.value.heap.objs| ==>
              forall k :: k !in ExtendWrites && Has(h.objs[root].own, k) ==>
                OwnGet(r.value.heap.objs[r.value.child], k) == Some(Get(h.objs[root].own, k))
    ensures r.Some? ==>
              var protos := Lookup(h, klass, "prototype");
              forall k :: protos.Ref? && EnumerableAlong(h, protos.id, k) && k !in eventNames && k != "constructor" ==>
                var sup := Lookup(h, PrototypeObjectOf(h, root), k);
                Installed(|h.objs|, r.value.heap, r.value.proto, k, Read(h, protos, k), sup, ShouldWrap(blind, h, Read(h, protos, k), sup))
    ensures r.Some? ==>
              forall k :: EnumerableAlong(h, klass, k) && !Has(h.objs[root].own, k) && k !in ExtendWrites ==>
                var sup := Lookup(h, FunctionPrototype, k);
                Installed(|h.objs|, r.value.heap, r.value.child, k, Lookup(h, klass, k), sup, ShouldWrap(blind, h, Lookup(h, klass, k), sup))
  {
    var h2 := ClassifyHeap(h, root, klass, eventNames);
    ClassifyHeapTables(h, root, klass, eventNames);
    ClassifyReads(h, root, klass, eventNames);
    var r := Extend(blind, h2, root, Ref(|h.objs|), Ref(|h.objs| + 1));
    if r.None? then r
    else
      ClassifyBuildsWrapper(blind, h, root, klass, eventNames);
      ClassifyPrototypeNames(blind, h, root, klass, eventNames);
      ClassifyStatics(blind, h, root, klass, eventNames);
      ClassifyProtoValues(blind, h, root, klass, eventNames);
      ClassifyStaticValues(blind, h, root, klass, eventNames);
      r
  }

  lemma ClassifyBuildsWrapper(blind: bool, h: Heap, root: nat, klass: nat, eventNames: set<string>)
    requires WellFormed(h) && root < |h.objs| && klass < |h.objs|
    requires Extend(blind, ClassifyHeap(h, root, klass, eventNames), root, Ref(|h.objs|), Ref(|h.objs| + 1)).Some?
    ensures var b := Extend(blind, ClassifyHeap(h, root, klass, eventNames), root, Ref(|h.objs|), Ref(|h.objs| + 1)).value;
            && |h.objs| <= b.child < |b.heap.objs| && b.proto < |b.heap.objs|
            && ParentConstructor(h, root).Some? && IsCallable(b.heap, Ref(b.child))
            && CodeOf(b.heap, Ref(b.child)) ==
                 SuperWrapper(Get(ClassifyProtoTable(h, klass, eventNames), "constructor"), ParentConstructor(h, root).value)
            && b.heap.objs[b.proto].proto == Some(PrototypeObjectOf(h, root))
  {
    var h2 := ClassifyHeap(h, root, klass, eventNames);
    ClassifyHeapTables(h, root, klass, eventNames);
    var protos := Ref(|h.objs|);
    var statics := Ref(|h.objs| + 1);
    ClassifyReads(h, root, klass, eventNames);
    var s := SelectConstructor(h2, root, protos).value;
    var b := Extend(blind, h2, root, protos, statics).value;
    ExtendLinks(blind, h2, root, protos, statics);
    assert b.heap.objs[b.child].code == s.0.objs[b.child].code;
  }

  lemma ClassifyPrototypeNames(blind: bool, h: Heap, root: nat, klass: nat, eventNames: set<string>)
    requires WellFormed(h) && root < |h.objs| && klass < |h.objs|
    requires Extend(blind, ClassifyHeap(h, root, klass, eventNames), root, Ref(|h.objs|), Ref(|h.objs| + 1)).Some?
    ensures var b := Extend(blind, ClassifyHeap(h, root, klass, eventNames), root, Ref(|h.objs|), Ref(|h.objs| + 1)).value;
            && b.proto < |b.heap.objs|
            && forall k :: k != "constructor" ==>
                 (OwnGet(b.heap.objs[b.proto], k).Some? <==>
                    Lookup(h, klass, "prototype").Ref? && EnumerableAlong(h, Lookup(h, klass, "prototype").id, k) && k !in eventNames)
  {
    var h2 := ClassifyHeap(h, root, klass, eventNames);
    ClassifyHeapTables(h, root, klass, eventNames);
    var protos := Ref(|h.objs|);
    var statics := Ref(|h.objs| + 1);
    var s := SelectConstructor(h2, root, protos).value;
    var b := Extend(blind, h2, root, protos, statics).value;
    forall k | k != "constructor"
      ensures OwnGet(b.heap.objs[b.proto], k).Some? <==> Has(ClassifyProtoTable(h, klass, eventNames), k)
    {
      ExtendSettlesProto(blind, h2, root, protos, statics, k);
      ProtoOutcomePresence(blind, s.0, b.heap, b.proto, root, b.child, EnumerableOwn(h2, protos), k);
    }
  }

  lemma ClassifyStatics(blind: bool, h: Heap, root: nat, klass: nat, eventNames: set<string>)
    requires WellFormed(h) && root < |h.objs| && klass < |h.objs|
    requires Extend(blind, ClassifyHeap(h, root, klass, eventNames), root, Ref(|h.objs|), Ref(|h.objs| + 1)).Some?
    ensures var b := Extend(blind, ClassifyHeap(h, root, klass, eventNames), root, Ref(|h.objs|), Ref(|h.objs| + 1)).value;
            && b.child < |b.heap.objs|
            && forall k :: k !in ExtendWrites && Has(h.objs[root].own, k) ==>
                 OwnGet(b.heap.objs[b.child], k) == Some(Get(h.objs[root].own, k))
  {
    var h2 := ClassifyHeap(h, root, klass, eventNames);
    ClassifyHeapTables(h, root, klass, eventNames);
    var protos := Ref(|h.objs|);
    var statics := Ref(|h.objs| + 1);
    var s := SelectConstructor(h2, root, protos).value;
    var b := Extend(blind, h2, root, protos, statics).value;
    assert s.0.objs[root] == h.objs[root] by {
      assert s.0.objs[root] == s.0.objs[..|h2.objs|][root];
      assert h2.objs[root] == h2.objs[..|h.objs|][root];
    }
    forall k | k !in ExtendWrites && Has(h.objs[root].own, k)
      ensures OwnGet(b.heap.objs[b.child], k) == Some(Get(h.objs[root].own, k))
    {
      ExtendSettlesStatic(blind, h2, root, protos, statics, k);
      assert !Has(ClassifyStaticTable(h, root, klass), k);
    }
  }

  /** Each prototype name `classify` carries over ends on the new prototype
      as `wrapAll` installs it: `Klass.prototype[name]`, wrapped against
      `Class.prototype[name]` when it mentions `_super` and both are
      functions, and copied as is otherwise. */
  lemma ClassifyProtoValues(blind: bool, h: Heap, root: nat, klass: nat, eventNames: set<string>)
    requires WellFormed(h) && root < |h.objs| && klass < |h.objs|
    requires Extend(blind, ClassifyHeap(h, root, klass, eventNames), root, Ref(|h.objs|), Ref(|h.objs| + 1)).Some?
    ensures var b := Extend(blind, ClassifyHeap(h, root, klass, eventNames), root, Ref(|h.objs|), Ref(|h.objs| + 1)).value;
            var protos := Lookup(h, klass, "prototype");
            forall k :: protos.Ref? && EnumerableAlong(h, protos.id, k) && k !in eventNames && k != "constructor" ==>
              var sup := Lookup(h, PrototypeObjectOf(h, root), k);
              Installed(|h.objs|, b.heap, b.proto, k, Read(h, protos, k), sup, ShouldWrap(blind, h, Read(h, protos, k), sup))
  {
    var h2 := ClassifyHeap(h, root, klass, eventNames);
    ClassifyHeapTables(h, root, klass, eventNames);
    var t := ClassifyProtoTable(h, klass, eventNames);
    var protos := Lookup(h, klass, "prototype");
    forall k | protos.Ref? && EnumerableAlong(h, protos.id, k) && k !in eventNames && k != "constructor"
      ensures var b := Extend(blind, h2, root, Ref(|h.objs|), Ref(|h.objs| + 1)).value;
              var sup := Lookup(h, PrototypeObjectOf(h, root), k);
              Installed(|h.objs|, b.heap, b.proto, k, Read(h, protos, k), sup, ShouldWrap(blind, h, Read(h, protos, k), sup))
    {
      assert k in t.vals;
      AppendedSettlesProto(blind, h, h2, root, Ref(|h.objs|), Ref(|h.objs| + 1), k);
    }
  }

  /** `extend` run on a heap `h2` that extends `h`, with a prototype table
      whose values belong to `h`: each listed name is installed against
      what `h` says the parent's prototype offers. */
  lemma AppendedSettlesProto(blind: bool, h: Heap, h2: Heap, root: nat, protos: Value, statics: Value, k: string)
    requires WellFormed(h) && WellFormed(h2) && |h.objs| <= |h2.objs| && h2.objs[..|h.objs|] == h.objs && root < |h.objs|
    requires RefBelow(protos, |h2.objs|) && RefBelow(statics, |h2.objs|) && CanExtend(h2, root, protos)
    requires k != "constructor" && Has(EnumerableOwn(h2, protos), k) && RefBelow(Get(EnumerableOwn(h2, protos), k), |h.objs|)
    ensures var b := Extend(blind, h2, root, protos, statics).value;
            var v := Get(EnumerableOwn(h2, protos), k);
            var sup := Lookup(h, PrototypeObjectOf(h, root), k);
            Installed(|h.objs|, b.heap, b.proto, k, v, sup, ShouldWrap(blind, h, v, sup))
  {
    var s := SelectConstructor(h2, root, protos).value;
    ExtendSettlesProto(blind, h2, root, protos, statics, k);
    PrefixTrans(h, h2, s.0);
    AppendKeepsParent(h, s.0, root);
    var p := PrototypeObjectOf(h, root);
    var v := Get(EnumerableOwn(h2, protos), k);
    var sup := Lookup(h, p, k);
    LookupAppend(h, s.0, p, k);
    LookupBelow(h, p, k);
    WrapDecisionOnAppend(blind, h, s.0, v, sup);
  }

  /** Each static `classify` carries over ends on the new class as
      `wrapAll` installs it: `Klass[name]`, wrapped against
      `Function.prototype[name]` when it mentions `_super` and both are
      functions, since `Class` has no such own name to override. */
  lemma ClassifyStaticValues(blind: bool, h: Heap, root: nat, klass: nat, eventNames: set<string>)
    requires WellFormed(h) && root < |h.objs| && klass < |h.objs|
    requires Extend(blind, ClassifyHeap(h, root, klass, eventNames), root, Ref(|h.objs|), Ref(|h.objs| + 1)).Some?
    ensures var b := Extend(blind, ClassifyHeap(h, root, klass, eventNames), root, Ref(|h.objs|), Ref(|h.objs| + 1)).value;
            forall k :: EnumerableAlong(h, klass, k) && !Has(h.objs[root].own, k) && k !in ExtendWrites ==>
              var sup := Lookup(h, FunctionPrototype, k);
              Installed(|h.objs|, b.heap, b.child, k, Lookup(h, klass, k), sup, ShouldWrap(blind, h, Lookup(h, klass, k), sup))
  {
    var h2 := ClassifyHeap(h, root, klass, eventNames);
    ClassifyHeapTables(h, root, klass, eventNames);
    var t := ClassifyStaticTable(h, root, klass);
    forall k | EnumerableAlong(h, klass, k) && !Has(h.objs[root].own, k) && k !in ExtendWrites
      ensures var b := Extend(blind, h2, root, Ref(|h.objs|), Ref(|h.objs| + 1)).value;
              var sup := Lookup(h, FunctionPrototype, k);
              Installed(|h.objs|, b.heap, b.child, k, Lookup(h, klass, k), sup, ShouldWrap(blind, h, Lookup(h, klass, k), sup))
    {
      assert k in t.vals;
      AppendedSettlesStatic(blind, h, h2, root, Ref(|h.objs|), Ref(|h.objs| + 1), k);
    }
  }

  /** `extend` run on a heap `h2` that extends `h`, with a static table
      whose values belong to `h`: each listed name the parent does not own
      is installed against what `Function.prototype` offers. */
  lemma AppendedSettlesStatic(blind: bool, h: Heap, h2: Heap, root: nat, protos: Value, statics: Value, k: string)
    requires WellFormed(h) && WellFormed(h2) && |h.objs| <= |h2.objs| && h2.objs[..|h.objs|] == h.objs && root < |h.objs|
    requires RefBelow(protos, |h2.objs|) && RefBelow(statics, |h2.objs|) && CanExtend(h2, root, protos)
    requires k !in ExtendWrites && !Has(h.objs[root].own, k)
    requires Has(EnumerableOwn(h2, statics), k) && RefBelow(Get(EnumerableOwn(h2, statics), k), |h.objs|)
    ensures var b := Extend(blind, h2, root, protos, statics).value;
            var v := Get(EnumerableOwn(h2, statics), k);
            var sup := Lookup(h, FunctionPrototype, k);
            Installed(|h.objs|, b.heap, b.child, k, v, sup, ShouldWrap(blind, h, v, sup))
  {
    var s := SelectConstructor(h2, root, protos).value;
    ExtendSettlesStatic(blind, h2, root, protos, statics, k);
    PrefixTrans(h, h2, s.0);
    assert s.0.objs[root] == h.objs[root] by {
      assert s.0.objs[root] == s.0.objs[..|h.objs|][root];
    }
    var v := Get(EnumerableOwn(h2, statics), k);
    var sup := Lookup(h, FunctionPrototype, k);
    FreshConstructorReads(h2, root, protos, k);
    LookupAppend(h, h2, FunctionPrototype, k);
    LookupBelow(h, FunctionPrototype, k);
    WrapDecisionOnAppend(blind, h, s.0, v, sup);
  }

  /** The constructor `extend` picks is a fresh function with no own names
      but `prototype`: every other name reads from `Function.prototype`. */
  lemma FreshConstructorReads(h: Heap, parent: nat, protoProps: Value, k: string)
    requires WellFormed(h) && parent < |h.objs| && RefBelow(protoProps, |h.objs|)
    requires SelectConstructor(h, parent, protoProps).Some? && k != "prototype"
    ensures var s := SelectConstructor(h, parent, protoProps).value;
            Lookup(s.0, s.1, k) == Lookup(h, FunctionPrototype, k)
  {
    var s := SelectConstructor(h, parent, protoProps).value;
    FreshFunctionReads(h, s.0, s.1, k);
  }

  /** The wrapping decision about values of `h` is the same once objects
      are appended. */
  lemma WrapDecisionOnAppend(blind: bool, h: Heap, r: Heap, m: Value, sup: Value)
    requires |h.objs| <= |r.objs| && r.objs[..|h.objs|] == h.objs
    requires RefBelow(m, |h.objs|) && RefBelow(sup, |h.objs|)
    ensures ShouldWrap(blind, r, m, sup) == ShouldWrap(blind, h, m, sup)
  {
    if m.Ref? {
      assert r.objs[m.id] == r.objs[..|h.objs|][m.id];
    }
    if sup.Ref? {
      assert r.objs[sup.id] == r.objs[..|h.objs|][sup.id];
    }
  }

  /** A function appended after `h` with no own names but `prototype`
      reads every other name from `Function.prototype`. */
  lemma FreshFunctionReads(h: Heap, r: Heap, f: nat, k: string)
    requires WellFormed(h) && |h.objs| <= f < |r.objs| && r.objs[..|h.objs|] == h.objs
    requires r.objs[f].own == Empty() && r.objs[f].hidden.Keys == {"prototype"}
    requires r.objs[f].proto == Some(FunctionPrototype) && k != "prototype"
    ensures Lookup(r, f, k) == Lookup(h, FunctionPrototype, k)
  {
    assert OwnGet(r.objs[f], k).None?;
    LookupAppend(h, r, FunctionPrototype, k);
  }
}
