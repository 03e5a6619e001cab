/** `deprecate(message, test)`: a warn-once log of deprecation messages.
    The console is replaced by the list of warnings sent to it, and the
    `_cache` object by the set of messages already warned about. */
module Deprecation {
  import opened JsValue
  import opened ObjectHeap

  /** The text every warning starts with. */
  const WarningPrefix: string := "Deprecation warning: "

  /** The names an empty object literal inherits from `Object.prototype`,
      each holding a function or an object, hence truthy when read. */
  const InheritedNames: set<string> := {
    "constructor", "toString", "toLocaleString", "valueOf", "hasOwnProperty",
    "isPrototypeOf", "propertyIsEnumerable", "__proto__", "__defineGetter__",
    "__defineSetter__", "__lookupGetter__", "__lookupSetter__"
  }

  /** The state `deprecate` keeps: the names set to `true` in `_cache`,
      and the warnings sent so far, oldest first. */
  datatype Log = Log(cache: set<string>, warnings: seq<string>)

  const Fresh: Log := Log({}, [])

  /** The fixed parts of the formatted sentence. */
  const WillBeRemoved: string := " is going to be removed in the future. Please use "
  const Instead: string := " instead."

  /** `_format(prev, next)` of the standalone module. */
  function FormatPlain(prev: Value, next: Value): (r: string)
  {
    ToText(prev) + WillBeRemoved + ToText(next) + Instead
  }

  /** `_format(prev, next, url)` of the bundled library: the same sentence,
      then ` See: <url>` when `url` is truthy. */
  function FormatWithUrl(prev: Value, next: Value, url: Value): (r: string)
  {
    FormatPlain(prev, next) + (if Truthy(url) then " See: " + ToText(url) else "")
  }

  /** `_format('a', 'b')` is `a is going to be removed in the future.
      Please use b instead.` */
  lemma FormatSentence(prev: string, next: string)
    ensures FormatPlain(Str(prev), Str(next)) ==
              prev + " is going to be removed in the future. Please use " + next + " instead."
  {
  }

  /** The url only ever adds a suffix, and adds one exactly when it is
      truthy. */
  lemma FormatUrlIsSuffix(prev: Value, next: Value, url: Value)
    ensures var r := FormatWithUrl(prev, next, url);
            && |r| >= |FormatPlain(prev, next)|
            && r[..|FormatPlain(prev, next)|] == FormatPlain(prev, next)
            && (r == FormatPlain(prev, next) <==> !Truthy(url))
  {
    var p := FormatPlain(prev, next);
    var r := FormatWithUrl(prev, next, url);
    assert r[..|p|] == p;
    if Truthy(url) {
      assert |r| > |p|;
    }
  }

  /** The string a message becomes before it is looked up in `_cache`: an
      object (or function) message is formatted from its `prev`, `next` and,
      in the bundled library, `url` properties; any other value is
      converted as `toString` and the property-key conversion do. */
  function MessageKey(withUrl: bool, h: Heap, message: Value): (r: string)
  {
    if IsObject(message) then
      if withUrl then FormatWithUrl(Read(h, message, "prev"), Read(h, message, "next"), Read(h, message, "url"))
      else FormatPlain(Read(h, message, "prev"), Read(h, message, "next"))
    else ToText(message)
  }

  /** A message the cache answers truthy for, as written: `_cache[message]`
      also finds the names `_cache` inherits from `Object.prototype`. */
  predicate SeenAsWritten(log: Log, key: string)
  {
    key in log.cache || key in InheritedNames
  }

  /** `deprecate(message, test)` as written: a truthy `test` silences it;
      otherwise a message the cache does not answer truthy for is warned
      about and recorded. */
  function DeprecateAsWritten(withUrl: bool, log: Log, h: Heap, message: Value, test: Value): (r: Log)
    ensures log.cache <= r.cache && |log.warnings| <= |r.warnings| <= |log.warnings| + 1
    ensures r.warnings[..|log.warnings|] == log.warnings
    ensures Truthy(test) ==> r == log
  {
    if test != Undefined && Truthy(test) then log
    else
      var key := MessageKey(withUrl, h, message);
      if !SeenAsWritten(log, key) then Log(log.cache + {key}, log.warnings + [WarningPrefix + key])
      else log
  }

  /** As written, with a falsy or missing `test`, a warning goes out
      exactly when the cache does not answer truthy for the message, and
      afterwards it does. */
  lemma AsWrittenWarnsExactlyWhenUnseen(withUrl: bool, log: Log, h: Heap, message: Value, test: Value)
    requires !Truthy(test)
    ensures var key := MessageKey(withUrl, h, message);
            var r := DeprecateAsWritten(withUrl, log, h, message, test);
            && SeenAsWritten(r, key)
            && (!SeenAsWritten(log, key) <==> |r.warnings| == |log.warnings| + 1)
            && (!SeenAsWritten(log, key) ==> r.warnings[|log.warnings|] == WarningPrefix + key)
            && (SeenAsWritten(log, key) ==> r == log)
  {
  }

  /** The message `"constructor"`, never warned about before, is still never
      warned about: the empty `_cache` inherits a `constructor`. */
  lemma ConstructorNeverWarns(withUrl: bool, h: Heap)
    ensures DeprecateAsWritten(withUrl, Fresh, h, Str("constructor"), Undefined).warnings == []
    ensures Deprecate(withUrl, Fresh, h, Str("constructor"), Undefined).warnings == [WarningPrefix + "constructor"]
  {
  }

  /** `deprecate(message, test)` with a cache that answers only for the
      messages it recorded (an object without a prototype): the intended
      warn-once behaviour. */
  function Deprecate(withUrl: bool, log: Log, h: Heap, message: Value, test: Value): (r: Log)
    ensures log.cache <= r.cache && |log.warnings| <= |r.warnings|
    ensures r.warnings[..|log.warnings|] == log.warnings
    ensures Truthy(test) ==> r == log
  {
    if test != Undefined && Truthy(test) then log
    else
      var key := MessageKey(withUrl, h, message);
      if key !in log.cache then Log(log.cache + {key}, log.warnings + [WarningPrefix + key])
      else log
  }

  /** With a falsy or missing `test`, a warning goes out exactly when the
      message was not already warned about; it reads `Deprecation warning: `
      followed by the message; afterwards the message is recorded. */
  lemma WarnsExactlyWhenNew(withUrl: bool, log: Log, h: Heap, message: Value, test: Value)
    requires !Truthy(test)
    ensures var key := MessageKey(withUrl, h, message);
            var r := Deprecate(withUrl, log, h, message, test);
            && key in r.cache
            && r.cache == log.cache + {key}
            && (key !in log.cache <==> |r.warnings| == |log.warnings| + 1)
            && (key !in log.cache ==> r.warnings[|log.warnings|] == WarningPrefix + key)
            && (key in log.cache ==> r == log)
  {
  }

  /** Calling twice with the same message warns once: the second call
      changes nothing. */
  lemma DeprecateIdempotent(withUrl: bool, log: Log, h: Heap, message: Value, test: Value)
    ensures var r := Deprecate(withUrl, log, h, message, test);
            Deprecate(withUrl, r, h, message, test) == r
  {
  }

  /** The as-written cache differs from the intended one only on the names
      `Object.prototype` provides. */
  lemma AsWrittenAgreesOffInherited(withUrl: bool, log: Log, h: Heap, message: Value, test: Value)
    requires MessageKey(withUrl, h, message) !in InheritedNames
    ensures DeprecateAsWritten(withUrl, log, h, message, test) == Deprecate(withUrl, log, h, message, test)
  {
  }

  /** The log is consistent: one warning per recorded message, each the
      prefix followed by a recorded message, no two alike. */
  ghost predicate Consistent(log: Log)
  {
    && |log.warnings| == |log.cache|
    && (forall i :: 0 <= i < |log.warnings| ==>
          |log.warnings[i]| >= |WarningPrefix| && log.warnings[i][..|WarningPrefix|] == WarningPrefix
          && log.warnings[i][|WarningPrefix|..] in log.cache)
    && (forall i, j :: 0 <= i < j < |log.warnings| ==> log.warnings[i] != log.warnings[j])
  }

  /** Every call keeps the log consistent, so from the empty log each
      distinct message is warned about exactly once. */
  lemma DeprecateKeepsConsistent(withUrl: bool, log: Log, h: Heap, message: Value, test: Value)
    requires Consistent(log)
    ensures Consistent(Deprecate(withUrl, log, h, message, test))
  {
    var key := MessageKey(withUrl, h, message);
    if !Truthy(test) && key !in log.cache {
      var r := Deprecate(withUrl, log, h, message, test);
      var w := WarningPrefix + key;
      assert w[..|WarningPrefix|] == WarningPrefix && w[|WarningPrefix|..] == key;
      forall i | 0 <= i < |log.warnings|
        ensures r.warnings[i] != w
      {
        assert log.warnings[i][|WarningPrefix|..] in log.cache;
      }
    }
  }

  /** The calls of a run, each a message and a `test`. */
  datatype Call = Call(message: Value, test: Value)

  /** Successive calls, starting from `log`. */
  function Run(withUrl: bool, log: Log, h: Heap, calls: seq<Call>): (r: Log)
    ensures log.cache <= r.cache
    decreases |calls|
  {
    if calls == [] then log
    else Run(withUrl, Deprecate(withUrl, log, h, calls[0].message, calls[0].test), h, calls[1..])
  }

  /** The messages of the calls whose `test` did not silence them. */
  function Heard(withUrl: bool, h: Heap, calls: seq<Call>): (r: set<string>)
    decreases |calls|
  {
    if calls == [] then {}
    else (if Truthy(calls[0].test) then {} else {MessageKey(withUrl, h, calls[0].message)})
         + Heard(withUrl, h, calls[1..])
  }

  /** From a fresh cache, any run records exactly the messages that were
      not silenced, and warns once for each of them. */
  lemma {:induction false} RunWarnsOncePerMessage(withUrl: bool, log: Log, h: Heap, calls: seq<Call>)
    requires Consistent(log)
    ensures var r := Run(withUrl, log, h, calls);
            && Consistent(r)
            && r.cache == log.cache + Heard(withUrl, h, calls)
    decreases |calls|
  {
    if calls != [] {
      var next := Deprecate(withUrl, log, h, calls[0].message, calls[0].test);
      DeprecateKeepsConsistent(withUrl, log, h, calls[0].message, calls[0].test);
      RunWarnsOncePerMessage(withUrl, next, h, calls[1..]);
    }
  }

  /** A message is warned about as soon as it is heard, so in a fresh run
      the number of warnings is the number of distinct messages heard. */
  lemma FreshRunCountsMessages(withUrl: bool, h: Heap, calls: seq<Call>)
    ensures |Run(withUrl, Fresh, h, calls).warnings| == |Heard(withUrl, h, calls)|
  {
    RunWarnsOncePerMessage(withUrl, Fresh, h, calls);
  }

  /** `deprecate('foo')` warns `Deprecation warning: foo`. */
  lemma WarnsPlainMessage(withUrl: bool, h: Heap)
    ensures Deprecate(withUrl, Fresh, h, Str("foo"), Undefined).warnings == ["Deprecation warning: foo"]
  {
    assert WarningPrefix + "foo" == "Deprecation warning: foo";
  }

  /** An object `{prev: 'foo', next: 'bar'}` is warned about with the
      sentence `foo is going to be removed in the future. Please use bar
      instead.` */
  lemma WarnsObjectMessage(withUrl: bool, h: Heap, m: nat)
    requires m < |h.objs|
    requires Read(h, Ref(m), "prev") == Str("foo") && Read(h, Ref(m), "next") == Str("bar")
    requires Read(h, Ref(m), "url") == Undefined
    ensures Deprecate(withUrl, Fresh, h, Ref(m), Undefined).warnings ==
              [WarningPrefix + "foo" + WillBeRemoved + "bar" + Instead]
  {
    var key := "foo" + WillBeRemoved + "bar" + Instead;
    assert MessageKey(withUrl, h, Ref(m)) == key;
    assert WarningPrefix + key == WarningPrefix + "foo" + WillBeRemoved + "bar" + Instead;
  }
}
