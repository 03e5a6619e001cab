/** The helpers `Class` instances get from the utilities mixin:
    `triggerMethod`, with its derivation of handler names from event names,
    and `getOption`. */
module MetalUtils {
  import opened Wrappers
  import opened JsValue
  import opened PropTable
  import opened ObjectHeap
  import opened Invoke

  /** The global replacement of `/(^|:)(\w)/` by the uppercased word
      character, as the regular-expression engine scans: from `pos`, a word
      character at the very start, or a `:` followed by a word character,
      is one match; the scan resumes after it. */
  function ReplaceFrom(s: string, pos: nat): (r: string)
    requires pos <= |s|
    ensures |r| <= |s| - pos
    decreases |s| - pos
  {
    if pos == |s| then ""
    else if pos == 0 && IsWordChar(s[0]) then [UpperWordChar(s[0])] + ReplaceFrom(s, 1)
    else if s[pos] == ':' && pos + 1 < |s| && IsWordChar(s[pos + 1]) then
      [UpperWordChar(s[pos + 1])] + ReplaceFrom(s, pos + 2)
    else [s[pos]] + ReplaceFrom(s, pos + 1)
  }

  /** What becomes of the character at `i`, judged from its neighbours
      alone: a `:` before a word character disappears; a word character at
      the start or after a `:` is uppercased; anything else stays. */
  function PieceAt(s: string, i: nat): (r: string)
    requires i < |s|
  {
    if s[i] == ':' && i + 1 < |s| && IsWordChar(s[i + 1]) then ""
    else if IsWordChar(s[i]) && (i == 0 || s[i - 1] == ':') then [UpperWordChar(s[i])]
    else [s[i]]
  }

  /** The character-by-character reading of the replacement. */
  function PointwiseFrom(s: string, i: nat): (r: string)
    requires i <= |s|
    decreases |s| - i
  {
    if i == |s| then "" else PieceAt(s, i) + PointwiseFrom(s, i + 1)
  }

  /** The scan and the character-by-character reading agree from any
      position the scan can reach, that is, one not just after a `:` it
      left alone in front of a word character. */
  lemma {:induction false} ScanIsPointwise(s: string, pos: nat)
    requires pos <= |s|
    requires !(pos > 0 && s[pos - 1] == ':' && pos < |s| && IsWordChar(s[pos]))
    ensures ReplaceFrom(s, pos) == PointwiseFrom(s, pos)
    decreases |s| - pos
  {
    if pos == |s| {
    } else if pos == 0 && IsWordChar(s[0]) {
      ScanIsPointwise(s, 1);
    } else if s[pos] == ':' && pos + 1 < |s| && IsWordChar(s[pos + 1]) {
      ScanIsPointwise(s, pos + 2);
      assert PieceAt(s, pos) == "";
      assert PieceAt(s, pos + 1) == [UpperWordChar(s[pos + 1])];
      calc {
        PointwiseFrom(s, pos);
        PieceAt(s, pos) + PointwiseFrom(s, pos + 1);
        PieceAt(s, pos) + (PieceAt(s, pos + 1) + PointwiseFrom(s, pos + 2));
      }
    } else {
      assert PieceAt(s, pos) == [s[pos]];
      ScanIsPointwise(s, pos + 1);
    }
  }

  /** The handler name for an event: `"on"` followed by the event name with
      every word character at the start or after a `:` uppercased and that
      `:` dropped. */
  function HandlerName(event: string): (r: string)
    ensures |r| >= 2 && r[..2] == "on" && r[2..] == PointwiseFrom(event, 0)
  {
    ScanIsPointwise(event, 0);
    "on" + ReplaceFrom(event, 0)
  }

  /** `"foo"` is handled by `onFoo`. */
  lemma HandlerNameOfWord()
    ensures HandlerName("foo") == "onFoo"
  {
    var s := "foo";
    assert ReplaceFrom(s, 2) == "o";
    assert ReplaceFrom(s, 1) == "oo";
    assert ReplaceFrom(s, 0) == "Foo";
  }

  /** `"foo:bar"` is handled by `onFooBar`. */
  lemma HandlerNameOfPair()
    ensures HandlerName("foo:bar") == "onFooBar"
  {
    var s := "foo:bar";
    assert ReplaceFrom(s, 6) == "r";
    assert ReplaceFrom(s, 5) == "ar";
    assert ReplaceFrom(s, 3) == "Bar";
    assert ReplaceFrom(s, 2) == "oBar";
    assert ReplaceFrom(s, 1) == "ooBar";
    assert ReplaceFrom(s, 0) == "FooBar";
  }

  /** `this.triggerMethod(event, ...args)`: reads `this["on" + …]`, calls
      it with `args` when it is a function, then calls `this.trigger` with
      the event and `args` when that is a function, and returns what the
      handler returned (`undefined` without one). A non-string event cannot
      be `replace`d and throws; an exception from either call propagates. */
  function TriggerMethod(fuel: nat, natives: Natives, h: Heap, self: nat, event: Value, args: seq<Value>): (o: Outcome)
    ensures !event.Str? ==> o == Threw
    ensures o.Returned? ==> SameShape(h, o.heap)
    ensures event.Str? && o.Returned? ==>
              var m := Lookup(h, self, HandlerName(event.s));
              if IsCallable(h, m) then
                var c := Call(fuel, natives, h, m, self, args);
                c.Returned? && o.result == c.result
              else o.result == Undefined
  {
    if !event.Str? then Threw
    else
      var m := Lookup(h, self, HandlerName(event.s));
      var first := if IsCallable(h, m) then Call(fuel, natives, h, m, self, args) else Returned(h, Undefined);
      match first
      case Threw => Threw
      case Returned(h1, result) =>
        var trigger := Lookup(h1, self, "trigger");
        if IsCallable(h1, trigger) then
          match Call(fuel, natives, h1, trigger, self, [event] + args)
          case Threw => Threw
          case Returned(h2, _) =>
            SameShapeTrans(h, h1, h2);
            Returned(h2, result)
        else Returned(h1, result)
  }

  /** With a handler that returns and a `trigger` on the object the handler
      leaves behind, the event fires after the handler: `triggerMethod`
      returns when that `trigger` call returns, ends in the heap it leaves,
      and gives back the handler's result. */
  lemma TriggerMethodWithHandler(fuel: nat, natives: Natives, h: Heap, self: nat, event: string, args: seq<Value>)
    requires IsCallable(h, Lookup(h, self, HandlerName(event)))
    requires var c := Call(fuel, natives, h, Lookup(h, self, HandlerName(event)), self, args);
             c.Returned? && IsCallable(c.heap, Lookup(c.heap, self, "trigger"))
    ensures var c := Call(fuel, natives, h, Lookup(h, self, HandlerName(event)), self, args);
            var t := Call(fuel, natives, c.heap, Lookup(c.heap, self, "trigger"), self, [Str(event)] + args);
            var o := TriggerMethod(fuel, natives, h, self, Str(event), args);
            && (o.Returned? <==> t.Returned?)
            && (o.Returned? ==> o.heap == t.heap && o.result == c.result)
  {
  }

  /** On an object with neither a handler nor a `trigger`, `triggerMethod`
      does nothing and returns `undefined`. */
  lemma TriggerMethodWithNothing(fuel: nat, natives: Natives, h: Heap, self: nat, event: string, args: seq<Value>)
    requires !IsCallable(h, Lookup(h, self, HandlerName(event))) && !IsCallable(h, Lookup(h, self, "trigger"))
    ensures TriggerMethod(fuel, natives, h, self, Str(event), args) == Returned(h, Undefined)
  {
  }

  /** Without a `trigger`, `triggerMethod` is exactly the handler call. */
  lemma TriggerMethodWithoutTrigger(fuel: nat, natives: Natives, h: Heap, self: nat, event: string, args: seq<Value>)
    requires IsCallable(h, Lookup(h, self, HandlerName(event)))
    requires var c := Call(fuel, natives, h, Lookup(h, self, HandlerName(event)), self, args);
             c.Threw? || !IsCallable(c.heap, Lookup(c.heap, self, "trigger"))
    ensures TriggerMethod(fuel, natives, h, self, Str(event), args) ==
              Call(fuel, natives, h, Lookup(h, self, HandlerName(event)), self, args)
  {
  }

  /** Without a handler (missing, or not a function such as `'baz'`), the
      event still fires: `triggerMethod` is the `trigger` call with the
      event name in front of the arguments, returning `undefined`. */
  lemma TriggerMethodWithoutHandler(fuel: nat, natives: Natives, h: Heap, self: nat, event: string, args: seq<Value>)
    requires !IsCallable(h, Lookup(h, self, HandlerName(event)))
    requires IsCallable(h, Lookup(h, self, "trigger"))
    ensures var t := Call(fuel, natives, h, Lookup(h, self, "trigger"), self, [Str(event)] + args);
            var o := TriggerMethod(fuel, natives, h, self, Str(event), args);
            && (o.Returned? <==> t.Returned?)
            && (o.Returned? ==> o.heap == t.heap && o.result == Undefined)
  {
  }

  /** `this.getOption(name)`: `this.options[name]` when `this.options` is
      truthy and that entry is not `undefined`, else `this[name]`. */
  function GetOption(h: Heap, self: nat, name: string): (r: Value)
    ensures r == Lookup(h, self, name) || r == Read(h, Lookup(h, self, "options"), name)
  {
    var options := Lookup(h, self, "options");
    if Truthy(options) && Read(h, options, name) != Undefined then Read(h, options, name)
    else Lookup(h, self, name)
  }

  /** An entry of the options object, own or inherited, wins whenever it
      is defined, even when it is falsy (`false`, `0`, `''`, `null`). */
  lemma OptionEntryWins(h: Heap, self: nat, opts: nat, name: string, v: Value)
    requires Lookup(h, self, "options") == Ref(opts)
    requires Read(h, Ref(opts), name) == v && v != Undefined
    ensures GetOption(h, self, name) == v
  {
  }

  /** Without options, with falsy options, or with an `undefined` entry,
      `getOption` reads the object itself. */
  lemma OptionFallsBack(h: Heap, self: nat, name: string)
    requires var options := Lookup(h, self, "options");
             !Truthy(options) || Read(h, options, name) == Undefined
    ensures GetOption(h, self, name) == Lookup(h, self, name)
  {
  }
}
