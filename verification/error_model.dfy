/** `Metal.Error`: the constructor's argument normalisation, the whitelist of
    error properties copied onto the new error, the url the bundled library
    adds, and `toString`. The model works on the table of own fields the
    constructor gives a fresh instance. */
module ErrorModel {
  import opened Wrappers
  import opened JsValue
  import opened PropTable
  import opened ObjectHeap

  /** The error-related properties copied onto an error, in copy order. */
  const ErrorProps: seq<string> := ["description", "fileName", "lineNumber", "name", "message", "number"]

  /** The `urlRoot` on the bundled library's `Error.prototype`. */
  const UrlRoot: string := "http://github.com/thejameskyle/backbone-metal"

  lemma ErrorPropsDistinct()
    ensures forall i, j :: 0 <= i < j < |ErrorProps| ==> ErrorProps[i] != ErrorProps[j]
  {
  }

  lemma UrlNotErrorProp()
    ensures "url" !in ErrorProps
  {
  }

  lemma SuperNotErrorProp()
    ensures "_super" !in ErrorProps
  {
  }

  lemma NameAndMessageAreErrorProps()
    ensures "name" in ErrorProps && "message" in ErrorProps
  {
  }

  /** `k in obj` for the object at `id`: an own property or one found along
      its prototype chain. */
  predicate HasProperty(h: Heap, id: nat, k: string)
    decreases id
  {
    if id >= |h.objs| then false
    else if OwnGet(h.objs[id], k).Some? then true
    else match h.objs[id].proto
      case None => false
      case Some(p) => p < id && HasProperty(h, p, k)
  }

  /** A property that is nowhere on the chain reads as `undefined`. */
  lemma {:induction false} AbsentReadsUndefined(h: Heap, id: nat, k: string)
    requires !HasProperty(h, id, k)
    ensures Lookup(h, id, k) == Undefined
    decreases id
  {
    if id < |h.objs| && OwnGet(h.objs[id], k).None? {
      match h.objs[id].proto
      case None =>
      case Some(p) =>
        if p < id {
          AbsentReadsUndefined(h, p, k);
        }
    }
  }

  /** `k in Object(v)`: primitives, once boxed, carry none of the error
      properties, and `null` and `undefined` are treated as empty. */
  predicate HasIn(h: Heap, v: Value, k: string)
  {
    v.Ref? && HasProperty(h, v.id, k)
  }

  /** Underscore's `_.pick(v, names)`: every listed name that `v` has, own
      or inherited, with the value `v[name]` reads, in the order of
      `names`. */
  function PickIn(h: Heap, v: Value, names: seq<string>): (r: Props)
    requires forall i, j :: 0 <= i < j < |names| ==> names[i] != names[j]
    ensures r.Valid()
    ensures forall k :: Has(r, k) <==> k in names && HasIn(h, v, k)
    ensures forall k :: Has(r, k) ==> Get(r, k) == Read(h, v, k)
    decreases |names|
  {
    if |names| == 0 then Empty()
    else
      var init := names[..|names| - 1];
      var last := names[|names| - 1];
      assert forall k :: k in names <==> k in init || k == last;
      var prev := PickIn(h, v, init);
      if HasIn(h, v, last) then Put(prev, last, Read(h, v, last)) else prev
  }

  /** The arguments after normalisation: an object (or function) first
      argument is the options and supplies the message; otherwise the
      options default to an empty object when `undefined`, which reads like
      `undefined` here. */
  datatype Args = Args(message: Value, options: Value)

  function Normalise(h: Heap, message: Value, options: Value): (a: Args)
  {
    if IsObject(message) then Args(Read(h, message, "message"), message) else Args(message, options)
  }

  /** The error properties a native `Error.call(this, message)` exposes to
      `_.pick`: the inherited name `Error`, and the message as text, the
      inherited empty message when none is given. */
  function Native(message: Value): (t: Props)
    ensures t.Valid()
    ensures forall k :: Has(t, k) <==> k == "name" || k == "message"
    ensures Get(t, "name") == Str("Error")
    ensures Get(t, "message") == Str(if message == Undefined then "" else ToText(message))
  {
    Put(Put(Empty(), "name", Str("Error")), "message", Str(if message == Undefined then "" else ToText(message)))
  }

  /** The own fields `new Error(message, options)` copies onto the fresh
      instance: `_.extend(this, _.pick(error, ERROR_PROPS), _.pick(options,
      ERROR_PROPS))`. */
  function Fields(h: Heap, message: Value, options: Value): (r: Props)
    ensures r.Valid()
    ensures forall k :: Has(r, k) ==> k in ErrorProps
    ensures Has(r, "name") && Has(r, "message")
    ensures var a := Normalise(h, message, options);
            forall k :: Has(r, k) <==> k == "name" || k == "message" || (k in ErrorProps && HasIn(h, a.options, k))
    ensures var a := Normalise(h, message, options);
            forall k :: k in ErrorProps ==>
              Get(r, k) == if HasIn(h, a.options, k) then Read(h, a.options, k) else Get(Native(a.message), k)
  {
    ErrorPropsDistinct();
    var a := Normalise(h, message, options);
    Assign(Assign(Empty(), Native(a.message)), PickIn(h, a.options, ErrorProps))
  }

  /** A table whose first own name is `_super`, holding `undefined`,
      followed by the names of `t`. */
  function SuperFirst(t: Props): (r: Props)
    requires t.Valid() && !Has(t, "_super")
    ensures r.Valid() && r.keys == ["_super"] + t.keys
    ensures Has(r, "_super") && Get(r, "_super") == Undefined
    ensures forall k :: k != "_super" ==> (Has(r, k) <==> Has(t, k)) && Get(r, k) == Get(t, k)
  {
    Props(["_super"] + t.keys, t.vals["_super" := Undefined])
  }

  /** The fields of the bundled library's constructor. That library always
      wraps a custom constructor, and the wrapper sets `this._super` for
      the call and then writes back the value it read before, which for a
      fresh instance is `undefined`: nothing on its prototype chain has a
      `_super`. So the instance first gets an own `_super` holding
      `undefined`; then comes the same copy as in the module, then
      `url = urlRoot + options.url` when `options.url` is truthy. Reading
      `url` from `null` options throws. `urlRoot` is what the instance
      inherits, `UrlRoot` unless a subclass overrides it. */
  function LegacyFields(h: Heap, urlRoot: string, message: Value, options: Value): (r: Option<Props>)
    ensures r.None? <==> Normalise(h, message, options).options == Null
    ensures r.Some? ==> r.value.Valid()
    ensures r.Some? ==>
              && |r.value.keys| > 0 && r.value.keys[0] == "_super"
              && Has(r.value, "_super") && Get(r.value, "_super") == Undefined
    ensures r.Some? ==>
              var url := Read(h, Normalise(h, message, options).options, "url");
              && (Has(r.value, "url") <==> Truthy(url))
              && (Truthy(url) ==> Get(r.value, "url") == Str(urlRoot + ToText(url)))
              && (forall k :: k != "url" && k != "_super" ==>
                    (Has(r.value, k) <==> Has(Fields(h, message, options), k))
                    && Get(r.value, k) == Get(Fields(h, message, options), k))
  {
    var a := Normalise(h, message, options);
    if a.options == Null then None
    else
      var fields := Fields(h, message, options);
      UrlNotErrorProp();
      SuperNotErrorProp();
      var wrapped := SuperFirst(fields);
      var r := AddUrl(wrapped, urlRoot, Read(h, a.options, "url"));
      assert r.keys[0] == r.keys[..|wrapped.keys|][0];
      Some(r)
  }

  /** `if (options.url) this.url = this.urlRoot + options.url`, on a table
      without a `url`. */
  function AddUrl(t: Props, urlRoot: string, url: Value): (r: Props)
    requires t.Valid() && !Has(t, "url")
    ensures r.Valid() && |t.keys| <= |r.keys| && r.keys[..|t.keys|] == t.keys
    ensures (Has(r, "url") <==> Truthy(url)) && (Truthy(url) ==> Get(r, "url") == Str(urlRoot + ToText(url)))
    ensures forall k :: k != "url" ==> (Has(r, k) <==> Has(t, k)) && Get(r, k) == Get(t, k)
  {
    if Truthy(url) then Put(t, "url", Str(urlRoot + ToText(url))) else t
  }

  /** `toString()` of the standalone module: `<name>: <message>`. */
  function ToString(fields: Props): (r: string)
  {
    ToText(Get(fields, "name")) + ": " + ToText(Get(fields, "message"))
  }

  /** The module `toString` reads only `name` and `message`: errors that
      agree on those print alike, whatever else (a `url`) they carry. */
  lemma ToStringReadsNameAndMessage(f: Props, g: Props)
    requires Get(f, "name") == Get(g, "name") && Get(f, "message") == Get(g, "message")
    ensures ToString(f) == ToString(g)
  {
  }

  /** `toString()` of the bundled library: the same, then ` See: <url>`
      when the error has a truthy `url`. */
  function LegacyToString(fields: Props): (r: string)
  {
    ToString(fields) + (if Truthy(Get(fields, "url")) then " See: " + ToText(Get(fields, "url")) else "")
  }

  /** Both `toString`s agree on an error without a url, and the bundled
      one otherwise only appends. */
  lemma LegacyToStringExtends(fields: Props)
    ensures var r := LegacyToString(fields);
            && |r| >= |ToString(fields)| && r[..|ToString(fields)|] == ToString(fields)
            && (r == ToString(fields) <==> !Truthy(Get(fields, "url")))
  {
    var p := ToString(fields);
    var r := LegacyToString(fields);
    assert r[..|p|] == p;
    if Truthy(Get(fields, "url")) {
      assert |r| > |p|;
    }
  }

  /** Without a url, the bundled constructor copies exactly what the
      standalone one copies, after the `_super` its wrapper leaves behind. */
  lemma LegacyAgreesWithoutUrl(h: Heap, urlRoot: string, message: Value, options: Value)
    requires Normalise(h, message, options).options != Null
    requires !Truthy(Read(h, Normalise(h, message, options).options, "url"))
    ensures var r := LegacyFields(h, urlRoot, message, options);
            var f := Fields(h, message, options);
            && r.Some?
            && r.value.keys == ["_super"] + f.keys
            && (forall k :: k != "_super" ==> (Has(r.value, k) <==> Has(f, k)) && Get(r.value, k) == Get(f, k))
  {
    SuperNotErrorProp();
  }

  /** An object given in place of the message is the options: the fields
      are those of `new Error(options.message, options)`. */
  lemma ObjectArgumentIsOptions(h: Heap, options: nat, ignored: Value)
    requires !IsObject(Read(h, Ref(options), "message"))
    ensures Fields(h, Ref(options), ignored) == Fields(h, Read(h, Ref(options), "message"), Ref(options))
  {
  }

  /** Names outside the whitelist, such as `foo`, never reach the error,
      whatever the options say. */
  lemma OnlyWhitelisted(h: Heap, message: Value, options: Value, k: string)
    requires k !in ErrorProps
    ensures !Has(Fields(h, message, options), k)
  {
  }

  /** Without options, the error is named `Error` and carries the message
      as text. */
  lemma MessageOnly(h: Heap, message: Value)
    requires !IsObject(message)
    ensures var f := Fields(h, message, Undefined);
            && Get(f, "name") == Str("Error")
            && Get(f, "message") == Str(if message == Undefined then "" else ToText(message))
            && (forall k :: Has(f, k) <==> k == "name" || k == "message")
  {
    var f := Fields(h, message, Undefined);
    NameAndMessageAreErrorProps();
  }

  /** Every whitelisted property the options have, own or inherited,
      overrides the native error's: `{name: 'Bar'}` renames the error. */
  lemma OptionsOverride(h: Heap, message: Value, options: nat, k: string)
    requires !IsObject(message) && k in ErrorProps && HasProperty(h, options, k)
    ensures Get(Fields(h, message, Ref(options)), k) == Lookup(h, options, k)
  {
  }

  /** `new Error('Foo')` prints `Error: Foo`. */
  lemma ToStringOfMessage(h: Heap)
    ensures ToString(Fields(h, Str("Foo"), Undefined)) == "Error: Foo"
  {
    assert "Error" + ": " + "Foo" == "Error: Foo";
    MessageOnly(h, Str("Foo"));
  }

  /** `new Error('Foo', {name: 'Bar'})` prints `Bar: Foo`. */
  lemma ToStringOfRenamed(h: Heap, options: nat)
    requires Lookup(h, options, "name") == Str("Bar") && HasProperty(h, options, "name")
    requires !HasProperty(h, options, "message")
    ensures ToString(Fields(h, Str("Foo"), Ref(options))) == "Bar: Foo"
  {
    assert "Bar" + ": " + "Foo" == "Bar: Foo";
    RenamedFields(h, options);
  }

  /** The bundled `toString` of an error with a name, a message and a url
      is `<name>: <message> See: <url>`. */
  lemma LegacyToStringOf(f: Props, name: string, message: string, url: string)
    requires Get(f, "name") == Str(name) && Get(f, "message") == Str(message)
    requires Get(f, "url") == Str(url) && url != ""
    ensures LegacyToString(f) == name + ": " + message + " See: " + url
  {
  }

  /** `new Error('Foo', {name: 'Bar', url: '#baz'})` in the bundled library
      is named `Bar`, says `Foo` and gets the url under `UrlRoot`. */
  lemma LegacyFieldsWithUrl(h: Heap, options: nat)
    requires Lookup(h, options, "name") == Str("Bar") && HasProperty(h, options, "name")
    requires !HasProperty(h, options, "message")
    requires Lookup(h, options, "url") == Str("#baz")
    ensures var f := LegacyFields(h, UrlRoot, Str("Foo"), Ref(options));
            && f.Some?
            && Get(f.value, "name") == Str("Bar") && Get(f.value, "message") == Str("Foo")
            && Get(f.value, "url") == Str(UrlRoot + "#baz")
  {
    RenamedFields(h, options);
    var url := Read(h, Ref(options), "url");
    assert url == Str("#baz") && Truthy(url) && ToText(url) == "#baz";
    LegacyFieldsKeep(h, UrlRoot, Str("Foo"), Ref(options), "name");
    LegacyFieldsKeep(h, UrlRoot, Str("Foo"), Ref(options), "message");
  }

  /** A name other than `url` and `_super` holds what the standalone
      constructor copies. */
  lemma LegacyFieldsKeep(h: Heap, urlRoot: string, message: Value, options: Value, k: string)
    requires k != "url" && k != "_super"
    ensures var r := LegacyFields(h, urlRoot, message, options);
            r.Some? ==> Get(r.value, k) == Get(Fields(h, message, options), k)
  {
  }

  /** `new Error('Foo', {name: 'Bar'})` is named `Bar` and says `Foo`. */
  lemma RenamedFields(h: Heap, options: nat)
    requires Lookup(h, options, "name") == Str("Bar") && HasProperty(h, options, "name")
    requires !HasProperty(h, options, "message")
    ensures var f := Fields(h, Str("Foo"), Ref(options));
            Get(f, "name") == Str("Bar") && Get(f, "message") == Str("Foo")
  {
    NameAndMessageAreErrorProps();
    assert Normalise(h, Str("Foo"), Ref(options)) == Args(Str("Foo"), Ref(options));
    FieldsAt(h, Str("Foo"), Ref(options), "name");
    FieldsAt(h, Str("Foo"), Ref(options), "message");
    assert !HasIn(h, Ref(options), "message");
    NativeMessage("Foo");
  }

  lemma NativeMessage(message: string)
    ensures Get(Native(Str(message)), "message") == Str(message)
  {
  }

  /** One whitelisted field: the options' value when they have the name,
      else the native error's. */
  lemma FieldsAt(h: Heap, message: Value, options: Value, k: string)
    requires k in ErrorProps
    ensures var a := Normalise(h, message, options);
            Get(Fields(h, message, options), k) ==
              if HasIn(h, a.options, k) then Read(h, a.options, k) else Get(Native(a.message), k)
  {
  }

  /** The same error prints `Bar: Foo See: ` followed by the full url. */
  lemma LegacyToStringWithUrl(h: Heap, options: nat)
    requires Lookup(h, options, "name") == Str("Bar") && HasProperty(h, options, "name")
    requires !HasProperty(h, options, "message")
    requires Lookup(h, options, "url") == Str("#baz")
    ensures var f := LegacyFields(h, UrlRoot, Str("Foo"), Ref(options));
            && f.Some?
            && Get(f.value, "url") == Str("http://github.com/thejameskyle/backbone-metal#baz")
            && LegacyToString(f.value) == "Bar: Foo See: " + "http://github.com/thejameskyle/backbone-metal#baz"
  {
    var url := UrlRoot + "#baz";
    assert url == "http://github.com/thejameskyle/backbone-metal#baz";
    assert "Bar" + ": " + "Foo" + " See: " + url == "Bar: Foo See: " + url by {
      assert "Bar" + ": " + "Foo" + " See: " == "Bar: Foo See: ";
    }
    LegacyFieldsWithUrl(h, options);
    LegacyToStringOf(LegacyFields(h, UrlRoot, Str("Foo"), Ref(options)).value, "Bar", "Foo", url);
  }

  /** Handing an error's own fields back as options rebuilds the same
      fields: an options object holding all six properties is copied
      whole. */
  lemma AllPropertiesCopied(h: Heap, options: nat)
    requires forall k :: k in ErrorProps ==> HasProperty(h, options, k)
    requires !IsObject(Lookup(h, options, "message"))
    ensures var f := Fields(h, Ref(options), Undefined);
            forall k :: (Has(f, k) <==> k in ErrorProps) && (k in ErrorProps ==> Get(f, k) == Lookup(h, options, k))
  {
  }
}
