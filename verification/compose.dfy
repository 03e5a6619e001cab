/** The composition primitives both variants of the library share: deciding
    whether a method calls `_super`, wrapping it, copying a table of
    properties onto an object while wrapping overriding methods, plain
    property copying, and the prototype link `extend` builds. */
module Compose {
  import opened Wrappers
  import opened JsValue
  import opened PropTable
  import opened ObjectHeap

  /** `_super` occurs in `s` at `i` as a whole word (`\b_super\b`). */
  predicate SuperWordAt(s: string, i: nat)
  {
    && i + 6 <= |s|
    && s[i..i + 6] == "_super"
    && (i == 0 || !IsWordChar(s[i - 1]))
    && (i + 6 == |s| || !IsWordChar(s[i + 6]))
  }

  predicate HasSuperWord(s: string)
  {
    exists i: nat :: i + 6 <= |s| && SuperWordAt(s, i)
  }

  /** Whether a function's source text mentions `_super`. The wrapper's own
      text does; the default forwarding constructor's and the root
      constructor's do not. */
  predicate CodeMentionsSuper(c: Code)
  {
    match c
    case Native(_, m) => m
    case SuperWrapper(_, _) => true
    case ForwardToParent(_) => false
    case RootConstructor(_) => false
  }

  /** The `_super` test on a value converted to text. In an engine that cannot
      decompile functions (`blind`), the test is the regular expression
      `/.*\/`, which matches every text. A plain object reads as
      `[object Object]`. */
  predicate MentionsSuper(blind: bool, h: Heap, v: Value)
  {
    if blind then true
    else if IsCallable(h, v) then CodeMentionsSuper(CodeOf(h, v))
    else v.Str? && HasSuperWord(v.s)
  }

  /** The `_super` test matches the word `_super` only as a whole word, and
      in an engine that cannot decompile functions it matches everything. */
  lemma SuperTestIsWholeWord(h: Heap, v: Value)
    ensures MentionsSuper(false, h, Str("this._super()"))
    ensures !MentionsSuper(false, h, Str("_superb")) && !MentionsSuper(false, h, Str("a_super"))
    ensures MentionsSuper(true, h, v)
  {
    assert SuperWordAt("this._super()", 5);
    assert !SuperWordAt("_superb", 0) && !SuperWordAt("_superb", 1);
    assert !SuperWordAt("a_super", 0) && !SuperWordAt("a_super", 1);
  }

  /** The wrapping condition: the new value mentions `_super`, and both it and
      the value it overrides are functions. */
  predicate ShouldWrap(blind: bool, h: Heap, m: Value, superMethod: Value)
  {
    MentionsSuper(blind, h, m) && IsCallable(h, m) && IsCallable(h, superMethod)
  }

  /** `_wrap(m, superMethod)`: a fresh closure. */
  function Wrap(h: Heap, m: Value, superMethod: Value): (r: (Heap, nat))
    requires WellFormed(h) && RefBelow(m, |h.objs|) && RefBelow(superMethod, |h.objs|)
    ensures WellFormed(r.0) && |h.objs| <= r.1 < |r.0.objs|
    ensures r.0.objs[..|h.objs|] == h.objs && r.0.idCounter == h.idCounter
    ensures IsCallable(r.0, Ref(r.1)) && CodeOf(r.0, Ref(r.1)) == SuperWrapper(m, superMethod)
  {
    NewFunction(h, SuperWrapper(m, superMethod))
  }

  /** The own property `k` of `dest` in `r` is `v`, or, when `wrap` holds, a
      wrapper of `v` against `sup` allocated at or above index `floor`. */
  ghost predicate Installed(floor: nat, r: Heap, dest: nat, k: string, v: Value, sup: Value, wrap: bool)
  {
    && dest < |r.objs|
    && OwnGet(r.objs[dest], k).Some?
    && var now := OwnGet(r.objs[dest], k).value;
       if wrap then
         now.Ref? && floor <= now.id && IsCallable(r, now) && CodeOf(r, now) == SuperWrapper(v, sup)
       else now == v
  }

  /** Only `dest` among the objects of `h` differs in `r`, and it keeps its
      prototype link, its code and its non-enumerable names. */
  ghost predicate OnlyTouches(h: Heap, r: Heap, dest: nat)
  {
    && WellFormed(r)
    && |h.objs| <= |r.objs| && r.idCounter == h.idCounter
    && dest < |h.objs|
    && (forall i :: 0 <= i < |h.objs| && i != dest ==> r.objs[i] == h.objs[i])
    && r.objs[dest].proto == h.objs[dest].proto
    && r.objs[dest].code == h.objs[dest].code
    && r.objs[dest].hidden.Keys == h.objs[dest].hidden.Keys
  }

  /** Installing an already-installed value stays installed when another name
      is written and fresh objects are appended. */
  lemma InstalledStable(floor: nat, a: Heap, b: Heap, dest: nat, k: string, v: Value, sup: Value, wrap: bool)
    requires Installed(floor, a, dest, k, v, sup, wrap)
    requires OnlyTouches(a, b, dest) && OwnGet(b.objs[dest], k) == OwnGet(a.objs[dest], k)
    ensures Installed(floor, b, dest, k, v, sup, wrap)
  {
  }

  /** Reading `dest[k]` is unaffected by writes to other names of `dest` and
      by appended objects. */
  lemma ReadThroughTouch(a: Heap, b: Heap, dest: nat, k: string)
    requires WellFormed(a) && OnlyTouches(a, b, dest) && OwnGet(b.objs[dest], k) == OwnGet(a.objs[dest], k)
    ensures Lookup(b, dest, k) == Lookup(a, dest, k)
  {
    forall i: nat | InLineage(a, dest, i)
      ensures i < |a.objs| && b.objs[i].proto == a.objs[i].proto && OwnGet(b.objs[i], k) == OwnGet(a.objs[i], k)
    {
      if i != dest {
        ChainBelow(a, dest, i);
      }
    }
    LookupFrame(a, b, dest, k);
  }

  /** The wrapping decision for values of `a` is the same in `b`. */
  lemma ShouldWrapThroughTouch(blind: bool, a: Heap, b: Heap, dest: nat, m: Value, s: Value)
    requires OnlyTouches(a, b, dest) && RefBelow(m, |a.objs|) && RefBelow(s, |a.objs|)
    ensures ShouldWrap(blind, b, m, s) == ShouldWrap(blind, a, m, s)
  {
    assert IsCallable(b, m) == IsCallable(a, m);
    assert IsCallable(b, s) == IsCallable(a, s);
  }

  /** One iteration of the copying loop: `dest[k] = v`, wrapped when needed. */
  function WrapStep(blind: bool, h: Heap, dest: nat, k: string, v: Value): (r: Heap)
    requires WellFormed(h) && dest < |h.objs| && RefBelow(v, |h.objs|)
    ensures OnlyTouches(h, r, dest)
    ensures forall k' :: k' != k ==> OwnGet(r.objs[dest], k') == OwnGet(h.objs[dest], k')
    ensures Installed(|h.objs|, r, dest, k, v, Lookup(h, dest, k), ShouldWrap(blind, h, v, Lookup(h, dest, k)))
  {
    var sup := Lookup(h, dest, k);
    LookupBelow(h, dest, k);
    if ShouldWrap(blind, h, v, sup) then
      var (h1, w) := Wrap(h, v, sup);
      var r := SetProp(h1, dest, k, Ref(w));
      assert r.objs[w] == h1.objs[w];
      r
    else
      SetProp(h, dest, k, v)
  }

  /** Name `k` of `dest` in `r` holds what the copying loop installs for the
      value `v` when it starts from heap `h`. */
  ghost predicate InstalledFrom(blind: bool, h: Heap, r: Heap, dest: nat, k: string, v: Value)
  {
    var sup := Lookup(h, dest, k);
    Installed(|h.objs|, r, dest, k, v, sup, ShouldWrap(blind, h, v, sup))
  }

  lemma OnlyTouchesTrans(a: Heap, b: Heap, c: Heap, dest: nat)
    requires OnlyTouches(a, b, dest) && OnlyTouches(b, c, dest)
    ensures OnlyTouches(a, c, dest)
  {
  }

  /** A later iteration that writes name `k` on top of earlier ones installs
      it as if it had run first. */
  lemma StepInstalls(blind: bool, h: Heap, prev: Heap, dest: nat, k: string, v: Value)
    requires WellFormed(h) && OnlyTouches(h, prev, dest) && RefBelow(v, |h.objs|)
    requires OwnGet(prev.objs[dest], k) == OwnGet(h.objs[dest], k)
    ensures InstalledFrom(blind, h, WrapStep(blind, prev, dest, k, v), dest, k, v)
  {
    ReadThroughTouch(h, prev, dest, k);
    LookupBelow(h, dest, k);
    ShouldWrapThroughTouch(blind, h, prev, dest, v, Lookup(h, dest, k));
  }

  lemma InstalledFromStable(blind: bool, h: Heap, a: Heap, b: Heap, dest: nat, k: string, v: Value)
    requires InstalledFrom(blind, h, a, dest, k, v)
    requires OnlyTouches(a, b, dest) && OwnGet(b.objs[dest], k) == OwnGet(a.objs[dest], k)
    ensures InstalledFrom(blind, h, b, dest, k, v)
  {
    var sup := Lookup(h, dest, k);
    InstalledStable(|h.objs|, a, b, dest, k, v, sup, ShouldWrap(blind, h, v, sup));
  }

  /** The loop invariant of `_wrapAll` after `n` names of `src`. */
  ghost predicate PrefixDone(blind: bool, h: Heap, r: Heap, dest: nat, src: Props, n: nat)
    requires src.Valid() && n <= |src.keys|
  {
    && OnlyTouches(h, r, dest)
    && (forall k :: k !in src.keys[..n] ==> OwnGet(r.objs[dest], k) == OwnGet(h.objs[dest], k))
    && (forall j :: 0 <= j < n ==> InstalledFrom(blind, h, r, dest, src.keys[j], src.vals[src.keys[j]]))
  }

  /** One more iteration keeps the loop invariant. */
  lemma PrefixStep(blind: bool, h: Heap, prev: Heap, dest: nat, src: Props, n: nat)
    requires WellFormed(h) && src.Valid() && TableBelow(src, |h.objs|)
    requires 0 < n <= |src.keys| && PrefixDone(blind, h, prev, dest, src, n - 1)
    ensures PrefixDone(blind, h, WrapStep(blind, prev, dest, src.keys[n - 1], src.vals[src.keys[n - 1]]), dest, src, n)
  {
    var k := src.keys[n - 1];
    var v := src.vals[k];
    assert k !in src.keys[..n - 1];
    var r := WrapStep(blind, prev, dest, k, v);
    StepInstalls(blind, h, prev, dest, k, v);
    OnlyTouchesTrans(h, prev, r, dest);
    forall j | 0 <= j < n - 1
      ensures InstalledFrom(blind, h, r, dest, src.keys[j], src.vals[src.keys[j]])
    {
      InstalledFromStable(blind, h, prev, r, dest, src.keys[j], src.vals[src.keys[j]]);
    }
    forall k' | k' !in src.keys[..n]
      ensures OwnGet(r.objs[dest], k') == OwnGet(h.objs[dest], k')
    {
      assert k' !in src.keys[..n - 1] by {
        assert src.keys[..n - 1] <= src.keys[..n];
      }
    }
  }

  /** The copying loop over the first `n` names of `src`. The source table is
      read once: the loop only writes names it has already read, so reading
      the live source object gives the same values. */
  function WrapPrefix(blind: bool, h: Heap, dest: nat, src: Props, n: nat): (r: Heap)
    requires WellFormed(h) && dest < |h.objs| && src.Valid() && TableBelow(src, |h.objs|)
    requires n <= |src.keys|
    ensures PrefixDone(blind, h, r, dest, src, n)
    decreases n
  {
    if n == 0 then h
    else
      var prev := WrapPrefix(blind, h, dest, src, n - 1);
      PrefixStep(blind, h, prev, dest, src, n);
      WrapStep(blind, prev, dest, src.keys[n - 1], src.vals[src.keys[n - 1]])
  }

  /** `_wrapAll(dest, source)`: every own enumerable name of the source is
      written on `dest`, in the source's order. A method that mentions
      `_super` and overrides a function `dest` already reads under that name
      is replaced by a fresh wrapper of it against that function; anything
      else is copied as is. Names the source lacks keep their own values, and
      no older object other than `dest` changes. */
  function WrapAll(blind: bool, h: Heap, dest: nat, src: Props): (r: Heap)
    requires WellFormed(h) && dest < |h.objs| && src.Valid() && TableBelow(src, |h.objs|)
    ensures OnlyTouches(h, r, dest)
    ensures forall k :: !Has(src, k) ==> OwnGet(r.objs[dest], k) == OwnGet(h.objs[dest], k)
    ensures forall k :: Has(src, k) ==>
              var sup := Lookup(h, dest, k);
              Installed(|h.objs|, r, dest, k, Get(src, k), sup, ShouldWrap(blind, h, Get(src, k), sup))
  {
    assert src.keys[..|src.keys|] == src.keys;
    var r := WrapPrefix(blind, h, dest, src, |src.keys|);
    forall k | Has(src, k)
      ensures InstalledFrom(blind, h, r, dest, k, Get(src, k))
    {
      var j :| 0 <= j < |src.keys| && src.keys[j] == k;
    }
    r
  }

  /** Without `_super` anywhere, `_wrapAll` is a plain copy: every name of the
      source reads exactly its source value on `dest`. */
  lemma WrapAllWithoutSuperCopies(h: Heap, dest: nat, src: Props)
    requires WellFormed(h) && dest < |h.objs| && src.Valid() && TableBelow(src, |h.objs|)
    requires forall k :: Has(src, k) ==> !MentionsSuper(false, h, Get(src, k))
    ensures var r := WrapAll(false, h, dest, src);
            && |r.objs| >= |h.objs|
            && forall k :: Has(src, k) ==> Lookup(r, dest, k) == Get(src, k)
  {
  }

  /** In an engine that cannot decompile functions every method overriding a
      function is wrapped, whether or not it mentions `_super`. */
  lemma OpaqueWrapsEveryOverride(h: Heap, dest: nat, src: Props, k: string)
    requires WellFormed(h) && dest < |h.objs| && src.Valid() && TableBelow(src, |h.objs|)
    requires Has(src, k) && IsCallable(h, Get(src, k)) && IsCallable(h, Lookup(h, dest, k))
    ensures var r := WrapAll(true, h, dest, src);
            var now := Lookup(r, dest, k);
            IsCallable(r, now) && CodeOf(r, now) == SuperWrapper(Get(src, k), Lookup(h, dest, k))
  {
  }

  /** The own enumerable table of a value: `_.keys` of a primitive is empty. */
  function EnumerableOwn(h: Heap, v: Value): (t: Props)
    ensures WellFormed(h) ==> t.Valid() && TableBelow(t, |h.objs|)
    ensures v.Ref? && v.id < |h.objs| ==> t == h.objs[v.id].own
    ensures WellFormed(h) && v.Ref? && v.id < |h.objs| ==>
              forall k :: Has(t, k) ==> OwnGet(h.objs[v.id], k) == Some(Get(t, k))
  {
    if v.Ref? && v.id < |h.objs| then
      assert WellFormed(h) ==> ObjOk(h.objs[v.id], v.id, |h.objs|);
      h.objs[v.id].own
    else Empty()
  }

  /** Name `k` is visited by a `for-in` loop over the object at `id`: the
      nearest object of its lineage that has `k` as an own name has it as
      an enumerable one. */
  predicate EnumerableAlong(h: Heap, id: nat, k: string)
    decreases id
  {
    if id >= |h.objs| then false
    else if k in h.objs[id].hidden then false
    else if k in h.objs[id].own.vals then true
    else match h.objs[id].proto
      case None => false
      case Some(p) => p < id && EnumerableAlong(h, p, k)
  }

  /** One step of the `for-in` walk: the own enumerable names that are
      not also non-enumerable, then the names `up` lists that the object
      does not have itself. */
  function ForInLayer(own: Props, hidden: set<string>, up: Props): (t: Props)
    requires own.Valid() && up.Valid()
    ensures t.Valid()
    ensures forall k :: Has(t, k) <==> k !in hidden && (Has(own, k) || Has(up, k))
    ensures forall k :: Has(t, k) ==> Get(t, k) == if Has(own, k) then Get(own, k) else Get(up, k)
    ensures var first := Omit(own, hidden);
            |first.keys| <= |t.keys| && t.keys[..|first.keys|] == first.keys
  {
    Assign(Omit(own, hidden), Omit(up, hidden + own.vals.Keys))
  }

  /** The names a `for-in` loop visits on the object at `id`, each with the
      value `obj[name]` reads: first its own enumerable names, then, in the
      same way, those of its prototype that it does not have itself. */
  function ForIn(h: Heap, id: nat): (t: Props)
    requires WellFormed(h)
    ensures t.Valid() && TableBelow(t, |h.objs|)
    ensures forall k :: Has(t, k) <==> EnumerableAlong(h, id, k)
    ensures forall k :: Has(t, k) ==> Get(t, k) == Lookup(h, id, k)
    ensures id < |h.objs| ==>
              var own := Omit(h.objs[id].own, h.objs[id].hidden.Keys);
              |own.keys| <= |t.keys| && t.keys[..|own.keys|] == own.keys
    decreases id
  {
    if id >= |h.objs| then Empty()
    else
      var o := h.objs[id];
      assert ObjOk(o, id, |h.objs|);
      var up := if o.proto.Some? && o.proto.value < id then ForIn(h, o.proto.value) else Empty();
      var t := ForInLayer(o.own, o.hidden.Keys, up);
      forall k
        ensures (Has(t, k) <==> EnumerableAlong(h, id, k))
        ensures Has(t, k) ==> Get(t, k) == Lookup(h, id, k) && RefBelow(Get(t, k), |h.objs|)
      {
        if Has(t, k) && !Has(o.own, k) {
          assert OwnGet(o, k).None?;
        }
      }
      assert TableBelow(t, |h.objs|) by {
        forall k | k in t.vals
          ensures RefBelow(t.vals[k], |h.objs|)
        {
          assert Has(t, k);
        }
      }
      t
  }

  /** Underscore's walk over a value's `for-in` names (`_.allKeys`, and the
      loop behind `_.pick` and `_.omit`): nothing for a primitive. */
  function ForInTable(h: Heap, v: Value): (t: Props)
    requires WellFormed(h)
    ensures t.Valid() && TableBelow(t, |h.objs|)
    ensures forall k :: Has(t, k) <==> v.Ref? && EnumerableAlong(h, v.id, k)
    ensures forall k :: Has(t, k) ==> Get(t, k) == Read(h, v, k)
  {
    if v.Ref? then ForIn(h, v.id) else Empty()
  }

  /** Underscore's `_.extend(target, source)` for a table of own properties:
      plain assignment of every name, in order, without wrapping. */
  function CopyPrefix(h: Heap, target: nat, src: Props, n: nat): (r: Heap)
    requires n <= |src.keys|
    ensures |r.objs| == |h.objs| && r.idCounter == h.idCounter
    ensures forall i :: 0 <= i < |h.objs| && i != target ==> r.objs[i] == h.objs[i]
    ensures target < |h.objs| ==>
              && r.objs[target].proto == h.objs[target].proto
              && r.objs[target].code == h.objs[target].code
              && r.objs[target].hidden.Keys == h.objs[target].hidden.Keys
              && (forall k :: k in src.keys[..n] && k in src.vals ==> OwnGet(r.objs[target], k) == Some(src.vals[k]))
              && (forall k :: k !in src.keys[..n] ==> OwnGet(r.objs[target], k) == OwnGet(h.objs[target], k))
    ensures WellFormed(h) && TableBelow(src, |h.objs|) ==> WellFormed(r)
    decreases n
  {
    if n == 0 then h
    else
      var k := src.keys[n - 1];
      var prev := CopyPrefix(h, target, src, n - 1);
      var r := if k in src.vals then SetProp(prev, target, k, src.vals[k]) else prev;
      assert src.keys[..n] == src.keys[..n - 1] + [k];
      r
  }

  function CopyAll(h: Heap, target: nat, src: Props): (r: Heap)
    requires src.Valid()
    ensures |r.objs| == |h.objs| && r.idCounter == h.idCounter
    ensures forall i :: 0 <= i < |h.objs| && i != target ==> r.objs[i] == h.objs[i]
    ensures target < |h.objs| ==>
              && r.objs[target].proto == h.objs[target].proto
              && r.objs[target].code == h.objs[target].code
              && r.objs[target].hidden.Keys == h.objs[target].hidden.Keys
              && (forall k :: OwnGet(r.objs[target], k) == if Has(src, k) then Some(Get(src, k)) else OwnGet(h.objs[target], k))
    ensures WellFormed(h) && TableBelow(src, |h.objs|) ==> WellFormed(r)
  {
    assert src.keys[..|src.keys|] == src.keys;
    CopyPrefix(h, target, src, |src.keys|)
  }

  /** Every object of `h` except `dest` is unchanged in `r`, objects are only
      appended, and nothing changes the code of an object. */
  lemma LookupAvoiding(h: Heap, r: Heap, x: nat, k: string, dest: nat)
    requires OnlyTouches(h, r, dest) && x < |h.objs| && !InLineage(h, x, dest)
    ensures Lookup(r, x, k) == Lookup(h, x, k)
  {
    forall i: nat | InLineage(h, x, i)
      ensures i < |h.objs| && r.objs[i].proto == h.objs[i].proto && OwnGet(r.objs[i], k) == OwnGet(h.objs[i], k)
    {
      if i != x {
        ChainBelow(h, x, i);
      }
    }
    LookupFrame(h, r, x, k);
  }

  /** An installed name stays installed while its own value on `dest` and the
      code of every object from `floor` on are kept. */
  lemma InstalledKeeps(floor: nat, a: Heap, b: Heap, dest: nat, k: string, v: Value, sup: Value, wrap: bool)
    requires Installed(floor, a, dest, k, v, sup, wrap)
    requires |a.objs| <= |b.objs| && OwnGet(b.objs[dest], k) == OwnGet(a.objs[dest], k)
    requires forall i :: floor <= i < |a.objs| ==> b.objs[i].code == a.objs[i].code
    ensures Installed(floor, b, dest, k, v, sup, wrap)
  {
  }

  lemma OnlyTouchesPast(a: Heap, b: Heap, c: Heap, dest: nat, other: nat)
    requires OnlyTouches(a, b, dest) && OnlyTouches(b, c, other) && other >= |a.objs|
    ensures OnlyTouches(a, c, dest)
  {
  }

  /** `_.extend(Child, Parent)`: the parent's own enumerable statics are
      copied onto the child. */
  function InheritStatics(h: Heap, child: nat, parent: nat): (r: Heap)
    requires WellFormed(h) && child < |h.objs| && parent < |h.objs|
    ensures OnlyTouches(h, r, child) && |r.objs| == |h.objs|
    ensures forall k :: OwnGet(r.objs[child], k) ==
              if Has(h.objs[parent].own, k) then Some(Get(h.objs[parent].own, k)) else OwnGet(h.objs[child], k)
  {
    var t := EnumerableOwn(h, Ref(parent));
    CopyAll(h, child, t)
  }

  /** `Surrogate.prototype = Parent.prototype; Child.prototype = new Surrogate()`:
      a fresh object inheriting from the parent's prototype (or from
      `Object.prototype` when that is not an object) whose own enumerable
      `constructor` is the child becomes the child's `prototype`. */
  function LinkPrototype(h: Heap, child: nat, parent: nat): (r: (Heap, nat))
    requires WellFormed(h) && child < |h.objs| && parent < |h.objs|
    ensures r.1 == |h.objs| && |r.0.objs| == |h.objs| + 1
    ensures OnlyTouches(h, r.0, child)
    ensures r.0.objs[r.1] == Obj(Put(Empty(), "constructor", Ref(child)), map[], Some(PrototypeObjectOf(h, parent)), None)
    ensures OwnGet(r.0.objs[child], "prototype") == Some(Ref(r.1))
    ensures forall k :: k != "prototype" ==> OwnGet(r.0.objs[child], k) == OwnGet(h.objs[child], k)
  {
    var pp := PrototypeObjectOf(h, parent);
    var o := Obj(Put(Empty(), "constructor", Ref(child)), map[], Some(pp), None);
    var h1 := Alloc(h, o);
    assert ObjOk(o, |h.objs|, |h.objs| + 1);
    var r := SetProp(h1, child, "prototype", Ref(|h.objs|));
    assert forall i :: 0 <= i < |h.objs| && i != child ==> r.objs[i] == h1.objs[i] == h.objs[i];
    (r, |h.objs|)
  }

  /** `Child.superclass = Parent; Child.__super__ = Parent.prototype`. */
  function RecordParent(h: Heap, child: nat, parent: nat): (r: Heap)
    requires WellFormed(h) && child < |h.objs| && parent < |h.objs|
    ensures OnlyTouches(h, r, child) && |r.objs| == |h.objs|
    ensures OwnGet(r.objs[child], "superclass") == Some(Ref(parent))
    ensures OwnGet(r.objs[child], "__super__") == Some(Lookup(h, parent, "prototype"))
    ensures forall k :: k != "superclass" && k != "__super__" ==> OwnGet(r.objs[child], k) == OwnGet(h.objs[child], k)
  {
    var h1 := SetProp(h, child, "superclass", Ref(parent));
    var sp := Lookup(h1, parent, "prototype");
    LookupBelow(h1, parent, "prototype");
    assert sp == Lookup(h, parent, "prototype") by {
      forall i: nat | InLineage(h, parent, i)
        ensures i < |h.objs| && h1.objs[i].proto == h.objs[i].proto
                && OwnGet(h1.objs[i], "prototype") == OwnGet(h.objs[i], "prototype")
      {
        if i != parent {
          ChainBelow(h, parent, i);
        }
      }
      LookupFrame(h, h1, parent, "prototype");
    }
    SetProp(h1, child, "__super__", sp)
  }

  /** The names `extend` itself writes on the child after the statics. */
  const ExtendWrites: set<string> := {"prototype", "superclass", "__super__"}

  /** The child and the parent are apart: neither the parent's lineage nor
      its prototype's lineage passes through the child, and neither property
      table handed to `extend` is the child itself. A child created by
      `extend` is always apart. */
  ghost predicate Apart(h: Heap, parent: nat, child: nat, protoProps: Value, staticProps: Value)
  {
    && child != parent
    && !ProtoChainHas(h, parent, child)
    && !InLineage(h, PrototypeObjectOf(h, parent), child)
    && protoProps != Ref(child)
    && staticProps != Ref(child)
  }

  /** The value a static name of the child overrides once the parent's
      statics are copied. */
  function StaticSuper(h: Heap, parent: nat, child: nat, k: string): Value
    requires parent < |h.objs|
  {
    if Has(h.objs[parent].own, k) then Get(h.objs[parent].own, k) else Lookup(h, child, k)
  }

  /** Name `k` of the child after `extend`: installed from the static table
      against what it overrides; else the parent's static; else unchanged. */
  ghost predicate StaticOutcome(blind: bool, h: Heap, r: Heap, parent: nat, child: nat, statics: Props, k: string)
    requires parent < |h.objs|
  {
    var sup := StaticSuper(h, parent, child, k);
    if Has(statics, k) then
      Installed(|h.objs|, r, child, k, Get(statics, k), sup, ShouldWrap(blind, h, Get(statics, k), sup))
    else if Has(h.objs[parent].own, k) then
      child < |r.objs| && OwnGet(r.objs[child], k) == Some(Get(h.objs[parent].own, k))
    else
      child < |r.objs| && child < |h.objs| && OwnGet(r.objs[child], k) == OwnGet(h.objs[child], k)
  }

  /** The value a prototype name overrides: the surrogate's own
      `constructor` (the child), else what the parent's prototype reads. */
  function ProtoSuper(h: Heap, parent: nat, child: nat, k: string): Value
  {
    if k == "constructor" then Ref(child) else Lookup(h, PrototypeObjectOf(h, parent), k)
  }

  /** Name `k` of the child's new prototype after `extend`: installed from
      the prototype table; else the child as `constructor`; else absent, so
      it reads through to the parent's prototype. */
  ghost predicate ProtoOutcome(blind: bool, h: Heap, r: Heap, proto: nat, parent: nat, child: nat, protos: Props, k: string)
  {
    var sup := ProtoSuper(h, parent, child, k);
    if Has(protos, k) then
      Installed(|h.objs|, r, proto, k, Get(protos, k), sup, ShouldWrap(blind, h, Get(protos, k), sup))
    else
      proto < |r.objs| && OwnGet(r.objs[proto], k) == (if k == "constructor" then Some(Ref(child)) else None)
  }

  /** Besides `constructor`, a name is own on the new prototype exactly
      when the prototype table lists it. */
  lemma ProtoOutcomePresence(blind: bool, h: Heap, r: Heap, proto: nat, parent: nat, child: nat, protos: Props, k: string)
    requires ProtoOutcome(blind, h, r, proto, parent, child, protos, k) && k != "constructor"
    ensures proto < |r.objs| && (OwnGet(r.objs[proto], k).Some? <==> Has(protos, k))
  {
  }

  datatype Assembled = Assembled(heap: Heap, proto: nat)

  /** The part of `extend` that follows the choice of the constructor
      `child`: copy the parent's statics, install the static properties,
      link a fresh prototype, install the prototype properties, and record
      `superclass` and `__super__`. */
  function Assemble(blind: bool, h: Heap, parent: nat, child: nat, protoProps: Value, staticProps: Value): (r: Assembled)
    requires WellFormed(h) && parent < |h.objs| && child < |h.objs|
    requires RefBelow(protoProps, |h.objs|) && RefBelow(staticProps, |h.objs|)
    ensures OnlyTouches(h, r.heap, child)
    ensures |h.objs| <= r.proto < |r.heap.objs| && OwnGet(r.heap.objs[child], "prototype") == Some(Ref(r.proto))
    ensures Apart(h, parent, child, protoProps, staticProps) ==>
              && r.heap.objs[r.proto].proto == Some(PrototypeObjectOf(h, parent))
              && OwnGet(r.heap.objs[child], "superclass") == Some(Ref(parent))
              && OwnGet(r.heap.objs[child], "__super__") == Some(Lookup(h, parent, "prototype"))
              && (forall k :: k !in ExtendWrites ==>
                    StaticOutcome(blind, h, r.heap, parent, child, EnumerableOwn(h, staticProps), k))
              && (forall k :: ProtoOutcome(blind, h, r.heap, r.proto, parent, child, EnumerableOwn(h, protoProps), k))
  {
    var h1 := InheritStatics(h, child, parent);
    var h2 := WrapAll(blind, h1, child, EnumerableOwn(h1, staticProps));
    var (h3, p) := LinkPrototype(h2, child, parent);
    var h4 := WrapAll(blind, h3, p, EnumerableOwn(h3, protoProps));
    var h5 := RecordParent(h4, child, parent);
    StagesFrame(blind, h, parent, child, protoProps, staticProps, h1, h2, h3, p, h4, h5);
    ApartAssembled(blind, h, parent, child, protoProps, staticProps, h1, h2, h3, p, h4, h5);
    Assembled(h5, p)
  }

  /** The outcome of the stages for a child apart from its parent. */
  lemma ApartAssembled(blind: bool, h: Heap, parent: nat, child: nat, protoProps: Value, staticProps: Value,
                       h1: Heap, h2: Heap, h3: Heap, p: nat, h4: Heap, h5: Heap)
    requires Stages(blind, h, parent, child, protoProps, staticProps, h1, h2, h3, p, h4, h5)
    ensures p < |h5.objs| && child < |h5.objs| && parent < |h.objs|
    ensures Apart(h, parent, child, protoProps, staticProps) ==>
              && h5.objs[p].proto == Some(PrototypeObjectOf(h, parent))
              && OwnGet(h5.objs[child], "superclass") == Some(Ref(parent))
              && OwnGet(h5.objs[child], "__super__") == Some(Lookup(h, parent, "prototype"))
              && (forall k :: k !in ExtendWrites ==>
                    StaticOutcome(blind, h, h5, parent, child, EnumerableOwn(h, staticProps), k))
              && (forall k :: ProtoOutcome(blind, h, h5, p, parent, child, EnumerableOwn(h, protoProps), k))
  {
    StagesFrame(blind, h, parent, child, protoProps, staticProps, h1, h2, h3, p, h4, h5);
    if Apart(h, parent, child, protoProps, staticProps) {
      ApartLinksStaged(blind, h, parent, child, protoProps, staticProps, h1, h2, h3, p, h4, h5);
      ApartStatics(blind, h, parent, child, protoProps, staticProps, h1, h2, h3, p, h4, h5);
      ApartProtos(blind, h, parent, child, protoProps, staticProps, h1, h2, h3, p, h4, h5);
    }
  }

  /** The stages of `Assemble`, named for the proofs about them. */
  ghost predicate Stages(blind: bool, h: Heap, parent: nat, child: nat, protoProps: Value, staticProps: Value,
                         h1: Heap, h2: Heap, h3: Heap, p: nat, h4: Heap, h5: Heap)
  {
    && WellFormed(h) && parent < |h.objs| && child < |h.objs|
    && RefBelow(protoProps, |h.objs|) && RefBelow(staticProps, |h.objs|)
    && h1 == InheritStatics(h, child, parent)
    && h2 == WrapAll(blind, h1, child, EnumerableOwn(h1, staticProps))
    && (h3, p) == LinkPrototype(h2, child, parent)
    && h4 == WrapAll(blind, h3, p, EnumerableOwn(h3, protoProps))
    && h5 == RecordParent(h4, child, parent)
  }

  /** After each stage only the child changed among the objects of `h`,
      and the fresh prototype lies past the objects of the first stages. */
  lemma StagesFrame(blind: bool, h: Heap, parent: nat, child: nat, protoProps: Value, staticProps: Value,
                    h1: Heap, h2: Heap, h3: Heap, p: nat, h4: Heap, h5: Heap)
    requires Stages(blind, h, parent, child, protoProps, staticProps, h1, h2, h3, p, h4, h5)
    ensures OnlyTouches(h, h2, child) && OnlyTouches(h, h3, child) && OnlyTouches(h, h4, child) && OnlyTouches(h, h5, child)
    ensures |h2.objs| <= p < |h4.objs| && p != child
  {
    OnlyTouchesTrans(h, h1, h2, child);
    OnlyTouchesTrans(h, h2, h3, child);
    OnlyTouchesPast(h, h3, h4, child, p);
    OnlyTouchesTrans(h, h4, h5, child);
  }

  /** The last stage writes only the child: the fresh prototype and every
      code stay as the second `_wrapAll` left them, and so do the child's
      names other than the three `extend` records. */
  lemma StagesKeep(blind: bool, h: Heap, parent: nat, child: nat, protoProps: Value, staticProps: Value,
                   h1: Heap, h2: Heap, h3: Heap, p: nat, h4: Heap, h5: Heap)
    requires Stages(blind, h, parent, child, protoProps, staticProps, h1, h2, h3, p, h4, h5)
    ensures |h2.objs| <= p < |h4.objs| <= |h5.objs| && p != child
    ensures h5.objs[p] == h4.objs[p]
    ensures forall i :: |h.objs| <= i < |h2.objs| ==> h5.objs[i].code == h2.objs[i].code
    ensures forall k :: k != "prototype" && k != "superclass" && k != "__super__" ==>
              OwnGet(h5.objs[child], k) == OwnGet(h2.objs[child], k)
  {
    assert OnlyTouches(h2, h3, child) && OnlyTouches(h3, h4, p) && OnlyTouches(h4, h5, child);
    LastStagesKeep(h, child, h2, h3, p, h4, h5);
  }

  /** Linking the prototype, filling it and recording the parent leave
      alone the fresh prototype's final contents, the code of everything
      allocated before it, and the child's names other than the three
      written. */
  lemma LastStagesKeep(h: Heap, child: nat, h2: Heap, h3: Heap, p: nat, h4: Heap, h5: Heap)
    requires OnlyTouches(h2, h3, child) && OnlyTouches(h3, h4, p) && OnlyTouches(h4, h5, child)
    requires child < |h.objs| <= |h2.objs| == p < |h3.objs|
    requires forall k :: k != "prototype" ==> OwnGet(h3.objs[child], k) == OwnGet(h2.objs[child], k)
    requires forall k :: k != "superclass" && k != "__super__" ==> OwnGet(h5.objs[child], k) == OwnGet(h4.objs[child], k)
    ensures |h2.objs| <= p < |h4.objs| <= |h5.objs| && p != child
    ensures h5.objs[p] == h4.objs[p]
    ensures forall i :: |h.objs| <= i < |h2.objs| ==> h5.objs[i].code == h2.objs[i].code
    ensures forall k :: k != "prototype" && k != "superclass" && k != "__super__" ==>
              OwnGet(h5.objs[child], k) == OwnGet(h2.objs[child], k)
  {
    assert h4.objs[child] == h3.objs[child];
  }

  /** The prototype a new object of `parent` gets is unaffected by writes to
      an object outside the parent's lineage. */
  lemma PrototypeObjectAvoiding(h: Heap, r: Heap, parent: nat, child: nat)
    requires WellFormed(h) && OnlyTouches(h, r, child) && parent < |h.objs| && !InLineage(h, parent, child)
    ensures PrototypeObjectOf(r, parent) == PrototypeObjectOf(h, parent)
  {
    LookupAvoiding(h, r, parent, "prototype", child);
    LookupBelow(h, parent, "prototype");
  }

  lemma ApartLinks(h: Heap, parent: nat, child: nat, h2: Heap, h3: Heap, p: nat, h4: Heap, h5: Heap)
    requires WellFormed(h) && parent < |h.objs| && child < |h.objs|
    requires child != parent && !ProtoChainHas(h, parent, child)
    requires OnlyTouches(h, h2, child) && OnlyTouches(h, h4, child)
    requires p < |h3.objs| && p < |h4.objs| && p < |h5.objs|
    requires h3.objs[p].proto == Some(PrototypeObjectOf(h2, parent)) && h4.objs[p].proto == h3.objs[p].proto
    requires h5 == RecordParent(h4, child, parent) && h5.objs[p] == h4.objs[p]
    ensures h5.objs[p].proto == Some(PrototypeObjectOf(h, parent))
    ensures OwnGet(h5.objs[child], "superclass") == Some(Ref(parent))
    ensures OwnGet(h5.objs[child], "__super__") == Some(Lookup(h, parent, "prototype"))
  {
    PrototypeObjectAvoiding(h, h2, parent, child);
    LookupAvoiding(h, h4, parent, "prototype", child);
    ChainFrame(h, h4, parent, child);
  }

  /** What the stages leave on the child for its static names, when the
      static table is not the child itself: the parent's statics copied,
      then what the first `_wrapAll` installed, untouched afterwards. */
  ghost predicate StaticStaged(blind: bool, h: Heap, parent: nat, child: nat, staticProps: Value, h1: Heap, h2: Heap, h5: Heap)
  {
    StaticLinked(h, parent, child, staticProps, h1, h2, h5) && StaticInstalled(blind, staticProps, h1, child, h2)
  }

  ghost predicate StaticLinked(h: Heap, parent: nat, child: nat, staticProps: Value, h1: Heap, h2: Heap, h5: Heap)
  {
    StaticInherited(h, parent, child, staticProps, h1, h2) && StaticKept(h, child, h2, h5)
  }

  ghost predicate StaticInherited(h: Heap, parent: nat, child: nat, staticProps: Value, h1: Heap, h2: Heap)
  {
    && WellFormed(h) && parent < |h.objs| && child < |h.objs|
    && RefBelow(staticProps, |h.objs|) && staticProps != Ref(child)
    && OnlyTouches(h, h1, child) && |h1.objs| == |h.objs| && OnlyTouches(h1, h2, child)
    && (forall k :: OwnGet(h1.objs[child], k) ==
          if Has(h.objs[parent].own, k) then Some(Get(h.objs[parent].own, k)) else OwnGet(h.objs[child], k))
  }

  ghost predicate StaticKept(h: Heap, child: nat, h2: Heap, h5: Heap)
  {
    && child < |h2.objs| <= |h5.objs|
    && (forall k :: k != "prototype" && k != "superclass" && k != "__super__" ==>
          OwnGet(h5.objs[child], k) == OwnGet(h2.objs[child], k))
    && (forall i :: |h.objs| <= i < |h2.objs| ==> h5.objs[i].code == h2.objs[i].code)
  }

  ghost predicate StaticInstalled(blind: bool, staticProps: Value, h1: Heap, child: nat, h2: Heap)
  {
    && child < |h1.objs| && child < |h2.objs|
    && (forall k :: Has(EnumerableOwn(h1, staticProps), k) ==>
          InstalledFrom(blind, h1, h2, child, k, Get(EnumerableOwn(h1, staticProps), k)))
    && (forall k :: !Has(EnumerableOwn(h1, staticProps), k) ==>
          OwnGet(h2.objs[child], k) == OwnGet(h1.objs[child], k))
  }

  lemma ApartStatic(blind: bool, h: Heap, parent: nat, child: nat, staticProps: Value, h1: Heap, h2: Heap, h5: Heap, k: string)
    requires StaticStaged(blind, h, parent, child, staticProps, h1, h2, h5) && k !in ExtendWrites
    ensures StaticOutcome(blind, h, h5, parent, child, EnumerableOwn(h, staticProps), k)
  {
    var statics := EnumerableOwn(h, staticProps);
    assert EnumerableOwn(h1, staticProps) == statics;
    var sup := StaticSuper(h, parent, child, k);
    if Has(statics, k) {
      var v := Get(statics, k);
      assert RefBelow(v, |h.objs|);
      if !Has(h.objs[parent].own, k) {
        ReadThroughTouch(h, h1, child, k);
        LookupBelow(h, child, k);
      } else {
        assert ObjOk(h.objs[parent], parent, |h.objs|);
      }
      assert Lookup(h1, child, k) == sup;
      ShouldWrapThroughTouch(blind, h, h1, child, v, sup);
      InstalledKeeps(|h.objs|, h2, h5, child, k, v, sup, ShouldWrap(blind, h, v, sup));
    }
  }

  /** What the stages leave for the fresh prototype `p`, when the child is
      apart from the parent: how it is linked, and what the second
      `_wrapAll` installed on it. */
  ghost predicate ProtoStaged(blind: bool, h: Heap, parent: nat, child: nat, protoProps: Value,
                              h2: Heap, h3: Heap, p: nat, h4: Heap, h5: Heap)
  {
    ProtoLinked(h, parent, child, protoProps, h2, h3, p, h4, h5) && ProtoInstalled(blind, protoProps, h3, p, h4)
  }

  ghost predicate ProtoLinked(h: Heap, parent: nat, child: nat, protoProps: Value,
                              h2: Heap, h3: Heap, p: nat, h4: Heap, h5: Heap)
  {
    && WellFormed(h) && parent < |h.objs| && child < |h.objs|
    && RefBelow(protoProps, |h.objs|) && protoProps != Ref(child)
    && !InLineage(h, parent, child) && !InLineage(h, PrototypeObjectOf(h, parent), child)
    && OnlyTouches(h, h2, child) && OnlyTouches(h, h3, child)
    && p == |h2.objs| && p < |h3.objs|
    && h3.objs[p] == Obj(Put(Empty(), "constructor", Ref(child)), map[], Some(PrototypeObjectOf(h2, parent)), None)
    && |h3.objs| <= |h4.objs| <= |h5.objs| && h5.objs[p] == h4.objs[p]
    && (forall i :: |h.objs| <= i < |h4.objs| ==> h5.objs[i].code == h4.objs[i].code)
  }

  ghost predicate ProtoInstalled(blind: bool, protoProps: Value, h3: Heap, p: nat, h4: Heap)
  {
    && (forall k :: Has(EnumerableOwn(h3, protoProps), k) ==>
          InstalledFrom(blind, h3, h4, p, k, Get(EnumerableOwn(h3, protoProps), k)))
    && (forall k :: !Has(EnumerableOwn(h3, protoProps), k) ==>
          p < |h3.objs| && p < |h4.objs| && OwnGet(h4.objs[p], k) == OwnGet(h3.objs[p], k))
  }

  lemma ApartProto(blind: bool, h: Heap, parent: nat, child: nat, protoProps: Value, h2: Heap, h3: Heap, p: nat, h4: Heap, h5: Heap, k: string)
    requires ProtoStaged(blind, h, parent, child, protoProps, h2, h3, p, h4, h5)
    ensures ProtoOutcome(blind, h, h5, p, parent, child, EnumerableOwn(h, protoProps), k)
  {
    PrototypeObjectAvoiding(h, h2, parent, child);
    var pp := PrototypeObjectOf(h, parent);
    var protos := EnumerableOwn(h, protoProps);
    assert EnumerableOwn(h3, protoProps) == protos;
    var sup := ProtoSuper(h, parent, child, k);
    if k != "constructor" {
      LookupAvoiding(h, h3, pp, k, child);
      LookupBelow(h, pp, k);
    }
    assert Lookup(h3, p, k) == sup;
    if Has(protos, k) {
      var v := Get(protos, k);
      assert RefBelow(v, |h.objs|);
      ShouldWrapThroughTouch(blind, h, h3, child, v, sup);
      InstalledKeeps(|h.objs|, h4, h5, p, k, v, sup, ShouldWrap(blind, h, v, sup));
    }
  }

  lemma ApartLinksStaged(blind: bool, h: Heap, parent: nat, child: nat, protoProps: Value, staticProps: Value,
                         h1: Heap, h2: Heap, h3: Heap, p: nat, h4: Heap, h5: Heap)
    requires Stages(blind, h, parent, child, protoProps, staticProps, h1, h2, h3, p, h4, h5)
    requires Apart(h, parent, child, protoProps, staticProps)
    ensures h5.objs[p].proto == Some(PrototypeObjectOf(h, parent))
    ensures OwnGet(h5.objs[child], "superclass") == Some(Ref(parent))
    ensures OwnGet(h5.objs[child], "__super__") == Some(Lookup(h, parent, "prototype"))
  {
    StagesFrame(blind, h, parent, child, protoProps, staticProps, h1, h2, h3, p, h4, h5);
    StagesKeep(blind, h, parent, child, protoProps, staticProps, h1, h2, h3, p, h4, h5);
    assert OnlyTouches(h3, h4, p);
    ApartLinks(h, parent, child, h2, h3, p, h4, h5);
  }

  lemma StagedStaticInherits(blind: bool, h: Heap, parent: nat, child: nat, protoProps: Value, staticProps: Value,
                             h1: Heap, h2: Heap, h3: Heap, p: nat, h4: Heap, h5: Heap)
    requires Stages(blind, h, parent, child, protoProps, staticProps, h1, h2, h3, p, h4, h5)
    requires Apart(h, parent, child, protoProps, staticProps)
    ensures StaticInherited(h, parent, child, staticProps, h1, h2)
  {
  }

  lemma StagedStaticKeeps(blind: bool, h: Heap, parent: nat, child: nat, protoProps: Value, staticProps: Value,
                          h1: Heap, h2: Heap, h3: Heap, p: nat, h4: Heap, h5: Heap)
    requires Stages(blind, h, parent, child, protoProps, staticProps, h1, h2, h3, p, h4, h5)
    ensures StaticKept(h, child, h2, h5)
  {
    StagesKeep(blind, h, parent, child, protoProps, staticProps, h1, h2, h3, p, h4, h5);
  }

  lemma StagedStaticInstalls(blind: bool, h: Heap, parent: nat, child: nat, protoProps: Value, staticProps: Value,
                             h1: Heap, h2: Heap, h3: Heap, p: nat, h4: Heap, h5: Heap)
    requires Stages(blind, h, parent, child, protoProps, staticProps, h1, h2, h3, p, h4, h5)
    ensures StaticInstalled(blind, staticProps, h1, child, h2)
  {
  }

  lemma ApartStatics(blind: bool, h: Heap, parent: nat, child: nat, protoProps: Value, staticProps: Value,
                     h1: Heap, h2: Heap, h3: Heap, p: nat, h4: Heap, h5: Heap)
    requires Stages(blind, h, parent, child, protoProps, staticProps, h1, h2, h3, p, h4, h5)
    requires Apart(h, parent, child, protoProps, staticProps)
    ensures forall k :: k !in ExtendWrites ==> StaticOutcome(blind, h, h5, parent, child, EnumerableOwn(h, staticProps), k)
  {
    StagedStaticInherits(blind, h, parent, child, protoProps, staticProps, h1, h2, h3, p, h4, h5);
    StagedStaticKeeps(blind, h, parent, child, protoProps, staticProps, h1, h2, h3, p, h4, h5);
    StagedStaticInstalls(blind, h, parent, child, protoProps, staticProps, h1, h2, h3, p, h4, h5);
    forall k | k !in ExtendWrites
      ensures StaticOutcome(blind, h, h5, parent, child, EnumerableOwn(h, staticProps), k)
    {
      ApartStatic(blind, h, parent, child, staticProps, h1, h2, h5, k);
    }
  }

  lemma StagedLinks(blind: bool, h: Heap, parent: nat, child: nat, protoProps: Value, staticProps: Value,
                    h1: Heap, h2: Heap, h3: Heap, p: nat, h4: Heap, h5: Heap)
    requires Stages(blind, h, parent, child, protoProps, staticProps, h1, h2, h3, p, h4, h5)
    requires Apart(h, parent, child, protoProps, staticProps)
    ensures ProtoLinked(h, parent, child, protoProps, h2, h3, p, h4, h5)
  {
    StagesFrame(blind, h, parent, child, protoProps, staticProps, h1, h2, h3, p, h4, h5);
    StagesKeep(blind, h, parent, child, protoProps, staticProps, h1, h2, h3, p, h4, h5);
  }

  lemma StagedInstalls(blind: bool, h: Heap, parent: nat, child: nat, protoProps: Value, staticProps: Value,
                       h1: Heap, h2: Heap, h3: Heap, p: nat, h4: Heap, h5: Heap)
    requires Stages(blind, h, parent, child, protoProps, staticProps, h1, h2, h3, p, h4, h5)
    ensures ProtoInstalled(blind, protoProps, h3, p, h4)
  {
  }

  lemma ApartProtos(blind: bool, h: Heap, parent: nat, child: nat, protoProps: Value, staticProps: Value,
                    h1: Heap, h2: Heap, h3: Heap, p: nat, h4: Heap, h5: Heap)
    requires Stages(blind, h, parent, child, protoProps, staticProps, h1, h2, h3, p, h4, h5)
    requires Apart(h, parent, child, protoProps, staticProps)
    ensures forall k :: ProtoOutcome(blind, h, h5, p, parent, child, EnumerableOwn(h, protoProps), k)
  {
    StagedLinks(blind, h, parent, child, protoProps, staticProps, h1, h2, h3, p, h4, h5);
    StagedInstalls(blind, h, parent, child, protoProps, staticProps, h1, h2, h3, p, h4, h5);
    forall k
      ensures ProtoOutcome(blind, h, h5, p, parent, child, EnumerableOwn(h, protoProps), k)
    {
      ApartProto(blind, h, parent, child, protoProps, h2, h3, p, h4, h5, k);
    }
  }

  /** `_.has(protoProps, 'constructor') && protoProps.constructor`: an own
      `constructor`, enumerable or not. Primitives have none. */
  function OwnConstructor(h: Heap, protoProps: Value): Option<Value>
  {
    if protoProps.Ref? && protoProps.id < |h.objs| then OwnGet(h.objs[protoProps.id], "constructor") else None
  }

  /** `Parent.prototype.constructor`: reading a property of `undefined` or
      `null` throws (None). */
  function ParentConstructor(h: Heap, parent: nat): Option<Value>
  {
    var pp := Lookup(h, parent, "prototype");
    if pp == Undefined || pp == Null then None else Some(Read(h, pp, "constructor"))
  }

  /** Appending objects changes no read of an older object. */
  lemma LookupAppend(h: Heap, r: Heap, id: nat, k: string)
    requires WellFormed(h) && |h.objs| <= |r.objs| && r.objs[..|h.objs|] == h.objs && id < |h.objs|
    ensures Lookup(r, id, k) == Lookup(h, id, k)
  {
    forall i: nat | InLineage(h, id, i)
      ensures i < |h.objs| && r.objs[i].proto == h.objs[i].proto && OwnGet(r.objs[i], k) == OwnGet(h.objs[i], k)
    {
      if i != id {
        ChainBelow(h, id, i);
      }
      assert r.objs[i] == r.objs[..|h.objs|][i];
    }
    LookupFrame(h, r, id, k);
  }

  /** A child allocated after every object of `h` is apart from any parent
      and any property tables of `h`. */
  lemma FreshApart(h: Heap, r: Heap, parent: nat, child: nat, protoProps: Value, staticProps: Value)
    requires WellFormed(h) && |h.objs| <= |r.objs| && r.objs[..|h.objs|] == h.objs
    requires parent < |h.objs| && |h.objs| <= child
    requires RefBelow(protoProps, |h.objs|) && RefBelow(staticProps, |h.objs|)
    ensures Apart(r, parent, child, protoProps, staticProps)
    ensures PrototypeObjectOf(r, parent) == PrototypeObjectOf(h, parent) < |h.objs|
  {
    LookupAppend(h, r, parent, "prototype");
    LookupBelow(h, parent, "prototype");
    var pp := PrototypeObjectOf(h, parent);
    assert !ProtoChainHas(r, parent, child) by {
      if ProtoChainHas(r, parent, child) {
        ChainBelow(r, parent, child);
      }
    }
    assert !ProtoChainHas(r, pp, child) by {
      if ProtoChainHas(r, pp, child) {
        ChainBelow(r, pp, child);
      }
    }
  }

  /** `Klass.mixin(source)`: `_wrapAll(Klass.prototype, source)`, then
      `return this`. With names to copy, a `prototype` that is not an
      object makes the property write throw (None); with none, nothing
      happens. The result is the heap and the class it returns. */
  function MixinInto(blind: bool, h: Heap, klass: nat, source: Value): (r: Option<(Heap, nat)>)
    requires WellFormed(h) && klass < |h.objs| && RefBelow(source, |h.objs|)
    ensures r.None? <==> EnumerableOwn(h, source).keys != [] && !Lookup(h, klass, "prototype").Ref?
    ensures r.Some? ==> r.value.1 == klass
    ensures r.Some? && !Lookup(h, klass, "prototype").Ref? ==> r.value.0 == h
    ensures r.Some? && Lookup(h, klass, "prototype").Ref? ==>
              var dest := Lookup(h, klass, "prototype").id;
              var src := EnumerableOwn(h, source);
              && OnlyTouches(h, r.value.0, dest)
              && (forall k :: !Has(src, k) ==> OwnGet(r.value.0.objs[dest], k) == OwnGet(h.objs[dest], k))
              && (forall k :: Has(src, k) ==> InstalledFrom(blind, h, r.value.0, dest, k, Get(src, k)))
  {
    var src := EnumerableOwn(h, source);
    var dest := Lookup(h, klass, "prototype");
    LookupBelow(h, klass, "prototype");
    if dest.Ref? then Some((WrapAll(blind, h, dest.id, src), klass))
    else if src.keys == [] then Some((h, klass))
    else None
  }

  /** `Klass.include(source)`: `_wrapAll(Klass, source)`, then `return this`. */
  function IncludeInto(blind: bool, h: Heap, klass: nat, source: Value): (r: (Heap, nat))
    requires WellFormed(h) && klass < |h.objs| && RefBelow(source, |h.objs|)
    ensures r.1 == klass
    ensures OnlyTouches(h, r.0, klass)
    ensures forall k :: !Has(EnumerableOwn(h, source), k) ==> OwnGet(r.0.objs[klass], k) == OwnGet(h.objs[klass], k)
    ensures forall k :: Has(EnumerableOwn(h, source), k) ==>
              InstalledFrom(blind, h, r.0, klass, k, Get(EnumerableOwn(h, source), k))
  {
    (WrapAll(blind, h, klass, EnumerableOwn(h, source)), klass)
  }
}
