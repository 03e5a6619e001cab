/** Calling functions of the heap. Bodies outside the model (`Native`) are
    uninterpreted: a caller-supplied table says which properties they write and
    what they return, or that they throw. The closures the engine creates are
    interpreted: the `_super` wrapper, the default constructor forwarding to
    the parent, and the root `Class` constructor. `fuel` bounds the call depth;
    running out of it is JavaScript's stack overflow, a thrown RangeError. */
module Invoke {
  import opened Wrappers
  import opened JsValue
  import opened PropTable
  import opened ObjectHeap

  datatype Write = Write(target: nat, name: string, value: Value)

  /** What a native body does when called. */
  datatype Effect = Return(writes: seq<Write>, result: Value) | Throw

  /** The behaviour of every native body: body id, heap, receiver, arguments. */
  type Natives = (nat, Heap, nat, seq<Value>) -> Effect

  /** Result of a call: a normal return with the heap after the call, or an
      exception (whose heap the model does not track). */
  datatype Outcome = Returned(heap: Heap, result: Value) | Threw

  /** Calls never allocate, relink prototypes, change code, or add
      non-enumerable properties. */
  ghost predicate SameShape(h: Heap, r: Heap)
  {
    && |r.objs| == |h.objs|
    && forall i :: 0 <= i < |h.objs| ==>
         && r.objs[i].proto == h.objs[i].proto
         && r.objs[i].code == h.objs[i].code
         && r.objs[i].hidden.Keys == h.objs[i].hidden.Keys
  }

  lemma SameShapeTrans(a: Heap, b: Heap, c: Heap)
    requires SameShape(a, b) && SameShape(b, c)
    ensures SameShape(a, c)
  {
  }

  function ApplyWrites(h: Heap, ws: seq<Write>): (r: Heap)
    ensures SameShape(h, r) && r.idCounter == h.idCounter
    decreases |ws|
  {
    if |ws| == 0 then h
    else
      var w := ws[|ws| - 1];
      SetProp(ApplyWrites(h, ws[..|ws| - 1]), w.target, w.name, w.value)
  }

  /** Underscore's `_.uniqueId(prefix)` after the counter was bumped to `n`. */
  function UniqueId(prefix: Value, n: nat): Value
  {
    Str((if Truthy(prefix) then ToText(prefix) else "") + NatText(n))
  }

  /** Under one prefix, different counter values give different ids. */
  lemma UniqueIdInjective(prefix: Value, n: nat, m: nat)
    ensures UniqueId(prefix, n) == UniqueId(prefix, m) <==> n == m
  {
    var p := if Truthy(prefix) then ToText(prefix) else "";
    if UniqueId(prefix, n) == UniqueId(prefix, m) {
      assert (p + NatText(n))[|p|..] == NatText(n);
      assert (p + NatText(m))[|p|..] == NatText(m);
      NatTextInjective(n, m);
    }
  }

  /** `this.cid = _.uniqueId(this.cidPrefix)`. */
  function AssignCid(h: Heap, self: nat): (r: Heap)
    ensures SameShape(h, r) && r.idCounter == h.idCounter + 1
  {
    var prefix := Lookup(h, self, "cidPrefix");
    SetProp(h.(idCounter := h.idCounter + 1), self, "cid", UniqueId(prefix, h.idCounter + 1))
  }

  /** `f.apply(self, args)`. A non-callable `f` throws a TypeError. The
      wrapper saves `self._super`, sets it to the super method, runs the inner
      method and writes the saved value back; it does not restore on a throw. */
  function Call(fuel: nat, natives: Natives, h: Heap, f: Value, self: nat, args: seq<Value>): (o: Outcome)
    ensures o.Returned? ==> SameShape(h, o.heap)
    ensures o.Returned? && IsCallable(h, f) && CodeOf(h, f).SuperWrapper? && self < |h.objs| ==>
              Lookup(o.heap, self, "_super") == Lookup(h, self, "_super")
    decreases fuel
  {
    if fuel == 0 || !IsCallable(h, f) then Threw
    else
      match CodeOf(h, f)
      case Native(body, _) =>
        (match natives(body, h, self, args)
         case Return(ws, result) => Returned(ApplyWrites(h, ws), result)
         case Throw => Threw)
      case SuperWrapper(inner, superMethod) =>
        var prevSuper := Lookup(h, self, "_super");
        (match Call(fuel - 1, natives, SetProp(h, self, "_super", superMethod), inner, self, args)
         case Returned(h2, ret) => Returned(SetProp(h2, self, "_super", prevSuper), ret)
         case Threw => Threw)
      case ForwardToParent(parent) =>
        (match Call(fuel - 1, natives, h, parent, self, args)
         case Returned(h2, _) => Returned(h2, Undefined)
         case Threw => Threw)
      case RootConstructor(assignsCid) =>
        var h1 := if assignsCid then AssignCid(h, self) else h;
        (match Call(fuel - 1, natives, h1, Lookup(h1, self, "initialize"), self, args)
         case Returned(h2, _) => Returned(h2, Undefined)
         case Threw => Threw)
  }

  /** `new c(...args)`: a fresh object inheriting from `c.prototype` (or from
      `Object.prototype` when that is not an object) is the receiver; the
      result is the constructor's return value when that is an object, else
      the fresh object. */
  function Construct(fuel: nat, natives: Natives, h: Heap, c: Value, args: seq<Value>): (o: Outcome)
    ensures !IsCallable(h, c) ==> o == Threw
    ensures o.Returned? ==>
              && c.Ref? && o.result.Ref? && |o.heap.objs| == |h.objs| + 1
              && o.heap.objs[|h.objs|].proto == Some(PrototypeObjectOf(h, c.id))
              && o.heap.objs[|h.objs|].code.None?
  {
    if !IsCallable(h, c) then Threw
    else
      var h1 := Alloc(h, Obj(Empty(), map[], Some(PrototypeObjectOf(h, c.id)), None));
      match Call(fuel, natives, h1, c, |h.objs|, args)
      case Threw => Threw
      case Returned(h2, r) => Returned(h2, if r.Ref? then r else Ref(|h.objs|))
  }

  /** The wrapper's contract: the inner method runs with `self._super` equal
      to the super method and with the caller's arguments; the wrapper returns
      exactly what the inner method returns; afterwards `self._super` reads as
      it did before the call, and nothing else differs from the heap the inner
      method left behind. */
  lemma WrappedCallSwapsSuper(fuel: nat, natives: Natives, h: Heap, w: nat, self: nat, args: seq<Value>)
    requires IsCallable(h, Ref(w)) && CodeOf(h, Ref(w)).SuperWrapper?
    requires self < |h.objs| && fuel > 0
    ensures
      var code := CodeOf(h, Ref(w));
      var entered := SetProp(h, self, "_super", code.superMethod);
      var inner := Call(fuel - 1, natives, entered, code.inner, self, args);
      var outer := Call(fuel, natives, h, Ref(w), self, args);
      && Lookup(entered, self, "_super") == code.superMethod
      && (outer.Returned? <==> inner.Returned?)
      && (outer.Returned? ==>
            && outer.result == inner.result
            && Lookup(outer.heap, self, "_super") == Lookup(h, self, "_super")
            && |outer.heap.objs| == |inner.heap.objs|
            && (forall i :: 0 <= i < |inner.heap.objs| && i != self ==> outer.heap.objs[i] == inner.heap.objs[i])
            && (forall k :: k != "_super" ==> OwnGet(outer.heap.objs[self], k) == OwnGet(inner.heap.objs[self], k)))
  {
  }

  /** Re-entrancy: when the inner method is itself a wrapper (a method mixed
      in twice), each level sees its own super method while it runs, and when
      the inner level returns, `_super` reads as the outer level set it. */
  lemma NestedWrappersRestoreEachLevel(fuel: nat, natives: Natives, h: Heap, w: nat, self: nat, args: seq<Value>)
    requires IsCallable(h, Ref(w)) && CodeOf(h, Ref(w)).SuperWrapper?
    requires IsCallable(h, CodeOf(h, Ref(w)).inner) && CodeOf(h, CodeOf(h, Ref(w)).inner).SuperWrapper?
    requires self < |h.objs| && fuel > 1
    ensures
      var outerCode := CodeOf(h, Ref(w));
      var entered := SetProp(h, self, "_super", outerCode.superMethod);
      var inner := Call(fuel - 1, natives, entered, outerCode.inner, self, args);
      inner.Returned? ==> Lookup(inner.heap, self, "_super") == outerCode.superMethod
  {
    var outerCode := CodeOf(h, Ref(w));
    var entered := SetProp(h, self, "_super", outerCode.superMethod);
    assert IsCallable(entered, outerCode.inner) && CodeOf(entered, outerCode.inner).SuperWrapper?;
  }

  /** The default constructor passes the receiver and the arguments, unchanged,
      to the parent constructor, and returns `undefined`. */
  lemma ForwardingConstructorDelegates(fuel: nat, natives: Natives, h: Heap, c: nat, self: nat, args: seq<Value>)
    requires IsCallable(h, Ref(c)) && CodeOf(h, Ref(c)).ForwardToParent?
    ensures
      var o := Call(fuel + 1, natives, h, Ref(c), self, args);
      var p := Call(fuel, natives, h, CodeOf(h, Ref(c)).parent, self, args);
      && (o.Returned? <==> p.Returned?)
      && (o.Returned? ==> o.heap == p.heap && o.result == Undefined)
  {
  }

  /** The root constructor of the newer variant bumps the id counter, stores
      `cidPrefix` followed by the new counter value as the receiver's `cid`,
      and then calls the receiver's `initialize` with the same arguments. */
  lemma RootConstructorAssignsCidThenInitializes(fuel: nat, natives: Natives, h: Heap, c: nat, self: nat, args: seq<Value>)
    requires IsCallable(h, Ref(c)) && CodeOf(h, Ref(c)) == RootConstructor(true)
    requires self < |h.objs|
    ensures
      var prefix := Lookup(h, self, "cidPrefix");
      var h1 := AssignCid(h, self);
      var o := Call(fuel + 1, natives, h, Ref(c), self, args);
      var init := Call(fuel, natives, h1, Lookup(h1, self, "initialize"), self, args);
      && h1.idCounter == h.idCounter + 1
      && Lookup(h1, self, "cid") == Str((if Truthy(prefix) then ToText(prefix) else "") + NatText(h.idCounter + 1))
      && (forall k :: k != "cid" ==> Lookup(h1, self, k) == Lookup(h, self, k))
      && (o.Returned? <==> init.Returned?)
      && (o.Returned? ==> o.heap == init.heap && o.result == Undefined)
  {
    var h1 := AssignCid(h, self);
    forall k | k != "cid"
      ensures Lookup(h1, self, k) == Lookup(h, self, k)
    {
      forall i: nat | InLineage(h, self, i)
        ensures i < |h.objs| && h1.objs[i].proto == h.objs[i].proto && OwnGet(h1.objs[i], k) == OwnGet(h.objs[i], k)
      {
        if i != self {
          ChainBelow(h, self, i);
        }
      }
      LookupFrame(h, h1, self, k);
    }
  }

  /** A constructed object that the constructor did not replace is fresh, and
      it inherits from exactly the lineage of the constructor's prototype. */
  lemma {:induction false} ConstructedInheritsFromPrototype(fuel: nat, natives: Natives, h: Heap, c: nat, args: seq<Value>, t: nat)
    requires WellFormed(h) && IsCallable(h, Ref(c))
    requires Lookup(h, c, "prototype").Ref?
    ensures
      var o := Construct(fuel, natives, h, Ref(c), args);
      o.Returned? && o.result == Ref(|h.objs|) ==>
        (ProtoChainHas(o.heap, |h.objs|, t) <==> InLineage(h, Lookup(h, c, "prototype").id, t))
  {
    var p := Lookup(h, c, "prototype");
    LookupBelow(h, c, "prototype");
    var h1 := Alloc(h, Obj(Empty(), map[], Some(p.id), None));
    var o := Construct(fuel, natives, h, Ref(c), args);
    if o.Returned? && o.result == Ref(|h.objs|) {
      var call := Call(fuel, natives, h1, Ref(c), |h.objs|, args);
      assert call.Returned? && SameShape(h1, call.heap);
      ChainFrame(h1, call.heap, |h.objs|, t);
      if p.id != t {
        ChainFrame(h, h1, p.id, t);
      }
    }
  }
}
