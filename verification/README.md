# backbone-metal, modelled in Dafny

backbone-metal gives Backbone applications a small class system built from
four pieces:

- **`Class`**: every class has an `extend` static. `extend` chooses or makes a
  constructor, copies the parent's statics, links a fresh prototype to the
  parent's, and installs the given prototype and static properties.
  - A new property whose source mentions `_super` and that overrides a
    function is wrapped. While the wrapper runs, `this._super` is the
    overridden function; afterwards the previous `_super` is put back.
  - `mixin` and `include` install properties the same way, on the prototype
    and on the class respectively.
  - `isClass` recognises classes and their instances.
- **`Mixin`**: a bag of properties, with the `isMixin` test.
- **`Error`**: a `Class`-style subclass of the native error. It copies a
  whitelist of error properties and formats itself as `name: message`.
- **`deprecate`**: a warn-once deprecation log.

The repository ships this in two forms. The ES-module sources are
`src/class.js`, `src/mixin.js`, `src/error.js` and `src/deprecate.js`. The
older single-file library is `src/metal.js`. It differs in the details:
- it always wraps a custom constructor;
- its root constructor assigns no `cid`;
- its `isClass` has no `value === Class` clause;
- its errors carry an optional `url`;
- its deprecation messages may end in ` See: <url>`;
- it adds `classify`, `triggerMethod` and `getOption`.

The model covers both forms, side by side.

How the model is built:

- **JavaScript heap.** A heap is a sequence of objects. Each object has:
  - an ordered table of own enumerable properties (`PropTable`);
  - non-enumerable own names;
  - an optional prototype link, which always points to a lower index;
  - optional code when the object is a function.

  Property lookup follows the prototype chain (`ObjectHeap`). The `_.uniqueId`
  counter lives in the heap.
- **Functions.** A function's code is one of four forms:
  - an uninterpreted native body;
  - a `_super` wrapper around an inner function and the method it overrides;
  - the default constructor that forwards to the parent;
  - the root `Class` constructor.

  `Invoke.Call` runs them with a fuel bound. Native bodies are given as a
  parameter, as a function from heap, receiver and arguments to an outcome.
- **Decompilation test.** Whether an engine can decompile functions is the
  parameter `blind`. When it is set, the `_super` test is the regular
  expression `/.*/`, which matches everything.
- **Shared logic.** The shared composition logic is `Compose`: wrapping,
  copying, and the stages of `extend`. The two library forms are
  `ClassEngine` (the modules) and `MetalEngine` (the single file), each with
  its own boot heap holding `Object.prototype`, `Function.prototype`,
  `Class`, `Class.prototype` and the library's other objects.
- **Strict-mode failures.** A property write to a non-object, as in
  `mixin` on a class whose `prototype` is not an object, throws in the strict
  code the modules compile to. It appears as `None`.

Three behaviours of the code that a reader might expect otherwise; the model follows the code:

- A method wrapper does not restore `_super` when the wrapped method throws.
  It restores it only on a normal return (src/class.js:15-23).
  `Invoke.Call` returns no heap on a throw for that reason.
- A value can be both a mixin and a class: a `Mixin` built from an object
  whose `prototype` property is a class prototype satisfies both tests
  (`MixinModel.MixinCanLookLikeClass`).
- The single-file library's `isClass(Class)` is false (see Findings).

## Model

| member | source | states |
|---|---|---|
| JsValue.NatTextValue | src/class.js:130 | The decimal text `_.uniqueId` appends reads back as the counter value it was made from. |
| JsValue.NatTextInjective | src/class.js:130 | Two counter values give the same decimal text exactly when they are equal. |
| JsValue.UpperWordChar | src/metal.js:483-485 | `toUpperCase` on a `\w` character turns a lower-case letter into its capital and leaves every other word character unchanged. |
| PropTable.Put | src/class.js:105 | Assigning `dest[name]` makes `name` present with the new value. Every other name is unchanged. In insertion order, a new name goes at the end and an existing one keeps its place. |
| PropTable.Assign | src/mixin.js:14 | `_.extend(target, source)`: a name is present when either table has it. The source's value wins. In insertion order, the target's names stay a prefix. |
| PropTable.Omit | src/metal.js:248-249 | `_.omit(table, names)` keeps exactly the names not dropped, with their values. The table it filters is the `for-in` walk (`Compose.ForIn`), so inherited names are filtered too. |
| ObjectHeap.SetProp | src/class.js:96 | A property write changes that one name of that one object. The heap stays well-formed when the value is a valid reference. |
| ObjectHeap.NewFunction | src/class.js:16-22 | A fresh closure is a callable object with the given code and `Function.prototype` as its prototype. It comes with its own fresh `prototype` object, and nothing existing changes. |
| Invoke.Call | src/class.js:15-23 | Calling a `_super` wrapper that returns leaves the receiver's `_super` as it was before the call. No call changes an object's shape, because native bodies only write properties (see Left out). |
| Invoke.WrappedCallSwapsSuper | src/class.js:15-23 | A wrapper sets `this._super` to the overridden method, runs the inner method, returns its result, and writes back the saved `_super`. Nothing else differs from the inner call's heap. |
| Invoke.NestedWrappersRestoreEachLevel | src/class.js:17-20 | A wrapper around a wrapper restores `_super` at each level. The outer method sees its own `_super` again after the inner wrapper returns. |
| Invoke.ForwardingConstructorDelegates | src/class.js:202 | The default constructor is the parent's constructor applied to the same receiver and arguments. It returns `undefined`. |
| Invoke.RootConstructorAssignsCidThenInitializes | src/class.js:129-132 | `new Class()` first assigns `cid` as the `cidPrefix` text followed by the next counter value, changing no other name. It then calls `initialize` with the same arguments. |
| Invoke.AssignCid | src/class.js:130 | Assigning a `cid` advances the id counter by exactly one and adds no object. |
| Invoke.UniqueIdInjective | src/class.js:130 | With the same prefix, distinct counter values give distinct `cid`s. |
| Invoke.ConstructedInheritsFromPrototype | src/class.js:226-231 | An object made by `new C` has on its prototype chain exactly the objects of the lineage of `C.prototype`. |
| Invoke.Construct | test/class.js:193-196 | `new C(...)` throws when `C` is not a function. When it returns, it has allocated exactly one plain object, whose prototype is `C.prototype`, and the result is an object. |
| Compose.Wrap | src/class.js:15-23 | `_wrap(method, superMethod)` is a fresh callable wrapping exactly that method against exactly that super method. The existing heap is kept as a prefix. |
| Compose.WrapStep | src/class.js:71-106 | One step of `_wrapAll` installs `source[name]` on `dest`: wrapped against `dest[name]` when the `_super` test passes and both are functions, otherwise as is. Every other name and object is unchanged. |
| Compose.WrapPrefix | src/class.js:70-107 | After the first n names of the source, each of them is installed against the value `dest` read before the loop. |
| Compose.WrapAll | src/class.js:59-108 | After `_wrapAll(dest, source)`, every source name is installed, wrapped exactly when the `_super` test and both function checks hold. Names the source lacks are untouched, and only `dest` changes. |
| Compose.WrapAllWithoutSuperCopies | src/class.js:95-106 | When no source value mentions `_super`, `_wrapAll` is a plain copy: every source name then reads the source's value on `dest`. |
| Compose.OpaqueWrapsEveryOverride | src/class.js:31 | In an engine that cannot decompile functions, every function overriding a function is wrapped, whether or not it mentions `_super`. |
| Compose.EnumerableOwn | src/class.js:60 | `_.keys(source)` of an object is its own enumerable table, and reading `source[name]` for a listed name gives the listed value, since no name is both enumerable and non-enumerable. |
| Compose.ForIn | src/metal.js:248-249 | The `for-in` walk of an object visits exactly the enumerable names found along its prototype chain, except where a non-enumerable property nearer the object shadows the name. Each has the value a read `obj[name]` gives, and the object's own names come first, in order. |
| Compose.ForInLayer | src/mixin.js:14 | One layer of the walk: the own enumerable names, then the names from further up that are neither own nor hidden. An own value shadows an inherited one. |
| Compose.ForInTable | src/mixin.js:14 | The walk of any value: an object's names as `Compose.ForIn` gives them, and nothing for a primitive. |
| Compose.SuperTestIsWholeWord | src/class.js:31 | The `_super` test `/\b_super\b/` matches `this._super()` but neither `_superb` nor `a_super`. In an engine that cannot decompile functions, the `/.*/` test matches every value. |
| Compose.CopyAll | src/class.js:215 | `_.extend(target, source)` on the heap: each source name is set on the target to the source's value, other names are kept, and no other object changes. |
| Compose.InheritStatics | src/class.js:215 | `_.extend(Child, Parent)`: the child's names are the parent's own statics where the parent has them, and otherwise unchanged. |
| Compose.LinkPrototype | src/class.js:226-231 | The surrogate step makes `Child.prototype` a fresh object with the parent's prototype as its prototype. Its only own name is `constructor`, set to the child. |
| Compose.RecordParent | src/class.js:244-248 | `Child.superclass` becomes the parent and `Child.__super__` becomes the parent's prototype, as read before the write. Nothing else changes. |
| Compose.ProtoOutcomePresence | src/class.js:235-241 | Apart from `constructor`, a name is own on the new prototype exactly when the prototype properties list it. |
| Compose.Assemble | src/class.js:214-250 | All of `extend` after the constructor choice. Only the child changes, and its `prototype` is a new object. When the child is apart from the parent and from both tables, the prototype is linked to the parent's, `superclass`/`__super__` are recorded, each static name settles as installed, inherited or kept, and each prototype name settles as installed, `constructor`, or absent. |
| Compose.MixinInto | src/class.js:281-285 | `mixin(props)` installs every own enumerable name of `props` on the class's prototype, wrapping as `_wrapAll` does, and touches nothing else. It fails exactly when there is something to write and `prototype` is not an object, and otherwise returns the class itself. |
| Compose.IncludeInto | src/class.js:326-330 | `include(props)` installs every own enumerable name of `props` on the class itself, leaves its other names unchanged, and returns the class. |
| ClassEngine.SelectConstructor | src/class.js:201-212 | Without an own `constructor`, the child is a fresh forwarding constructor. With one that mentions `_super`, it is a wrapper around the parent prototype's `constructor`. Otherwise it is the given function itself. Each failure case is named. |
| ClassEngine.Extend | src/class.js:188-251 | `extend` fails exactly when the constructor choice does. Otherwise it returns the chosen child with its prototype linked, its parent recorded, and every static and prototype name settled as `Compose.Assemble` states. |
| ClassEngine.ExtendFreshExactly | src/class.js:201-212 | `extend` returns a newly made constructor exactly when there is no own `constructor`, or there is one that mentions `_super` and the parent prototype's `constructor` can be read. In every other case it fails or reuses the given function. |
| ClassEngine.ExtendFresh | src/class.js:226-231 | When `extend` makes a new constructor (no own `constructor`, or one that mentions `_super` with a readable parent constructor), the child is fresh. Its prototype is the new surrogate object, which inherits from the parent's prototype, and the old heap is untouched. |
| ClassEngine.ExtendChain | src/class.js:226-231 | Whenever `extend` succeeds with a child apart from the parent and both tables, whether made fresh or a reused `constructor`, the ancestors of the child's new prototype are exactly the parent prototype's lineage. |
| ClassEngine.FreshChildIsApart | src/class.js:201-212 | A newly made constructor is always apart, so the fresh case is one instance of the general one. |
| ClassEngine.ExtendStaysClass | test/class.js:182-191 | Extending a class yields a class: `isClass` of a child of any descendant of `Class` is true, for a fresh constructor and for a reused one without `_super` alike, as long as the child is apart from the parent and both tables. `Class` keeps its prototype unless the reused function is `Class` itself or one of its ancestors, which a fresh child never is; when it is `Class` itself, `isClass` still holds. |
| ClassEngine.InstanceIsClass | test/class.js:193-196 | An instance made by `new` of a class inherits from `Class.prototype`, so `isClass` of it is true. |
| ClassEngine.IsClass | src/class.js:350-356 | `isClass` is defined on every value once `Class.prototype` is an object, and true only for truthy values. |
| ClassEngine.IsClassMeans | src/class.js:350-356 | `isClass(v)` holds exactly when `v` is `Class`, or `v` inherits from `Class.prototype`, or `v.prototype` does. |
| ClassEngine.IsClassOfRoot | src/class.js:354 | `isClass(Class)` is true. |
| ClassEngine.IsClassOfPrimitive | test/class.js:203-208 | `isClass` of `true`, `false`, `undefined`, `null`, `0`, `'hi'` (any primitive) is false. |
| ClassEngine.IsClassOfPlainFunction | test/class.js:198-201 | `isClass` of a freshly made ordinary function is false. |
| ClassEngine.DefaultConstructorForwards | src/class.js:201-202 | A class extended without its own constructor constructs by calling the parent with the same receiver and arguments. |
| ClassEngine.OverrideReachesParentMethod | test/class.js:96-111 | A prototype method that calls `_super` and overrides a parent method is installed as a wrapper. This holds for a fresh child and for a reused `constructor` alike, as long as the child is apart from the parent and both tables. For any receiver, during the call `this._super` is the parent's method; afterwards the receiver's `_super` is as before. |
| ClassEngine.MixinReachesPrevious | test/class.js:165-180 | After `mixin`, a method calling `_super` reaches the prototype's previous method of that name, returns the inner result, and restores `_super`. |
| ClassEngine.EventsMixedIn | src/class.js:363 | `Class.mixin(Events)` makes every event method readable on `Class.prototype` and leaves its other names as they were at boot. |
| ClassEngine.RootInstanceCid | src/class.js:142 | An instance of `Class` without its own `cidPrefix` gets a `cid` of `metal` followed by the next counter value. |
| ClassEngine.ErrCarriesClassStatics | src/error.js:89 | `_.extend(Err, Class)` copies each enumerable static of `Class` onto `Err`. Reading it on `Err` gives `Class`'s value. |
| ClassEngine.BootWellFormed | src/class.js:129-163 | The modules' initial heap is well-formed and `Class.prototype` is an object, so `isClass` is defined everywhere. |
| ClassEngine.Boot | src/class.js:129-165 | The modules' initial heap: `Class` is the root constructor that assigns a `cid`. `Class.prototype.constructor` is `Class`, `cidPrefix` is `metal`, and `initialize` and `destroy` are functions. `Class` carries the functions `extend`, `mixin`, `include` and `isClass`. |
| MetalEngine.SelectConstructor | src/metal.js:136-140 | With an own `constructor`, the child is always a wrapper around it against the parent prototype's `constructor`. This fails only when that is missing. Without one, the child is the forwarding constructor. |
| MetalEngine.Extend | src/metal.js:129-164 | The single-file `extend`: same stages as the module version, around the always-fresh child. |
| MetalEngine.ExtendLinks | src/metal.js:146-161 | Its child is always fresh, so the prototype link, `superclass` and `__super__` always hold. |
| MetalEngine.ExtendSettlesProto | src/metal.js:154 | Every prototype name of a single-file `extend` settles as installed, `constructor`, or absent. |
| MetalEngine.ExtendSettlesStatic | src/metal.js:143-144 | Every static name of a single-file `extend` settles as installed, inherited from the parent, or kept. |
| MetalEngine.ConstructorChoiceDiffers | src/metal.js:136-137 | For a custom constructor that does not mention `_super`, the single-file library makes a fresh wrapper, while the modules use the function itself. |
| MetalEngine.BootWellFormed | src/metal.js:92-104 | The single-file library's initial heap is well-formed and `Class.prototype` is an object. |
| MetalEngine.Boot | src/metal.js:92-106 | The single-file initial heap: `Class` is a root constructor that assigns no `cid`. `Class.prototype.constructor` is `Class` and `initialize` is a function. `Class` carries the functions `extend`, `mixin` and `include`. |
| MetalEngine.TableMixedIn | src/metal.js:462 | `Class.mixin(Events)` here, and `Class.mixin(Utils)` at src/metal.js:597: every name of a table whose values do not call `_super` becomes readable on `Class.prototype` as is. The prototype's other names stay as they were at boot, and `mixin` returns `Class`. |
| MetalEngine.IsClass | src/metal.js:619-621 | `_.isClass` is defined on every value once `Class.prototype` is an object, and true only for truthy values. |
| MetalEngine.IsClassAgreesOffRoot | src/metal.js:619-621 | On every value except `Class` itself, the single-file `isClass` agrees with the module one. |
| MetalEngine.RootIsNotAClass | src/metal.js:619-621 | The single-file `_.isClass(Class)` is false, where the module `isClass(Class)` is true. |
| MetalEngine.ClassifyProtoTable | src/metal.js:248 | The prototype table `classify` builds holds `constructor` plus exactly the `for-in` names of `Klass.prototype` (own and inherited) that are not event names. Each has the value `Klass.prototype[name]`. `constructor` is `Klass` unless the walk supplies one. |
| MetalEngine.ClassifyStaticTable | src/metal.js:249 | The static table holds exactly the `for-in` names of `Klass` (own and inherited) that are not own enumerable names of `Class`. Each has the value `Klass[name]`. |
| MetalEngine.ClassifyHeap | src/metal.js:248-249 | Building the two tables appends exactly two objects and keeps the old heap as a prefix. |
| MetalEngine.ClassifyHeapTables | src/metal.js:248-249 | The two appended objects hold exactly the prototype table and the static table as their enumerable names. |
| MetalEngine.Classify | src/metal.js:246-251 | `classify(Klass)` fails exactly when `Class.prototype` is `undefined` or `null`. Otherwise the result is a wrapper around the table's `constructor` against the parent's constructor, with a prototype linked to `Class.prototype`. Each non-event `for-in` name of `Klass.prototype` is installed on that prototype with `Klass.prototype[name]`. It is wrapped against `Class.prototype[name]` exactly when the `_super` test and both function checks hold. Each `for-in` static of `Klass` that `Class` does not own is installed on the class the same way, against `Function.prototype[name]`. `Class`'s own statics are kept. |
| MetalEngine.ClassifyBuildsWrapper | src/metal.js:246-251 | `classify` yields a wrapper around `Klass` (or the prototype's own `constructor`) linked to `Class.prototype`. |
| MetalEngine.ClassifyPrototypeNames | src/metal.js:248 | Besides `constructor`, the classified prototype has exactly the non-event `for-in` names of `Klass.prototype`, own and inherited. |
| MetalEngine.ClassifyStatics | src/metal.js:249 | The classified class carries every enumerable static of `Class` (other than those `extend` writes itself). |
| MetalEngine.ClassifyProtoValues | src/metal.js:248 | Each carried-over prototype name holds `Klass.prototype[name]` on the new prototype. It is wrapped against `Class.prototype[name]` exactly when the `_super` test and both function checks hold. |
| MetalEngine.ClassifyStaticValues | src/metal.js:249 | Each carried-over static holds `Klass[name]` on the new class. It is wrapped against `Function.prototype[name]` exactly when the `_super` test and both function checks hold. |
| MixinModel.NewMixin | src/mixin.js:12-15 | `new Mixin(props)` allocates exactly one object, whose prototype is `Mixin.prototype`. It has no code and no non-enumerable names, and the old heap is kept as a prefix. |
| MixinModel.NewMixinContents | src/mixin.js:14 | The new mixin's own names are exactly the `for-in` names of `props`, own and inherited, each with the value `props[name]`. `props`'s own enumerable names come first, in order. Without `props` there are none. |
| MixinModel.IsMixin | src/mixin.js:36-38 | `isMixin` is defined once `Mixin.prototype` is an object, and true only for objects. |
| MixinModel.IsMixinMeans | src/mixin.js:36-38 | `isMixin(v)` holds exactly when `v` is an object with `Mixin.prototype` on its chain. |
| MixinModel.NewMixinIsMixin | test/mixin.js:2-20 | Whatever it is built from, `new Mixin(props)` is a mixin. |
| MixinModel.EmptyMixin | src/mixin.js:21-22 | `new Mixin()` has no own names and is a mixin. |
| MixinModel.IsMixinOfPrimitive | src/mixin.js:36-38 | No primitive value is a mixin. |
| MixinModel.IsMixinOfPlainObject | src/mixin.js:23-26 | A plain object or a function that inherits directly from `Object.prototype` or `Function.prototype` is not a mixin. |
| MixinModel.NoMixinClassInstance | src/mixin.js:27-28 | When the two prototypes are unrelated, no value is both a mixin and an instance of `Class`. |
| MixinModel.MixinCanLookLikeClass | src/class.js:350-356 | A mixin built from an object whose `prototype` inherits from `Class.prototype` passes both `isMixin` and `isClass`. |
| MetalUtils.ReplaceFrom | src/metal.js:470 | The global replace of `/(^|:)(\w)/` never lengthens the text it scans. |
| MetalUtils.ScanIsPointwise | src/metal.js:470 | The left-to-right global replace is the character-wise rule: a `:` before a word character vanishes, and a word character at the start or after `:` is uppercased. |
| MetalUtils.HandlerName | src/metal.js:536 | The handler name is `on` followed by the event name rewritten by that character-wise rule. |
| MetalUtils.HandlerNameOfWord | test/utils.js:11-41 | Event `foo` is handled by `onFoo`. |
| MetalUtils.HandlerNameOfPair | test/utils.js:63-81 | Event `foo:bar` is handled by `onFooBar`. |
| MetalUtils.TriggerMethod | src/metal.js:533-552 | A non-string event throws. Otherwise the result is what the handler returned, or `undefined` without a callable handler. The object's shape is unchanged. |
| MetalUtils.TriggerMethodWithNothing | src/metal.js:541-551 | With neither a handler nor `trigger`, `triggerMethod` changes nothing and returns `undefined`. |
| MetalUtils.TriggerMethodWithoutTrigger | test/utils.js:34-41 | Without `trigger`, `triggerMethod` is exactly the handler call with the remaining arguments. |
| MetalUtils.TriggerMethodWithoutHandler | test/utils.js:83-119 | With a missing or non-function handler, `triggerMethod` is the `trigger` call with the event name first, and returns `undefined`. |
| MetalUtils.TriggerMethodWithHandler | src/metal.js:541-549 | When a handler returns and `trigger` is then a function, `triggerMethod` calls `trigger` with the event name followed by the arguments. It succeeds exactly when that call does, ends in that call's heap, and returns the handler's result. |
| MetalUtils.GetOption | src/metal.js:584-590 | `getOption(name)` is either `this.options[name]` or `this[name]`. |
| MetalUtils.OptionEntryWins | test/utils.js:134-157 | A defined entry of `this.options`, own or inherited, wins, even a falsy one. |
| MetalUtils.OptionFallsBack | test/utils.js:158-169 | With falsy options, or an `undefined` entry, `getOption` reads the object itself. |
| Deprecation.FormatUrlIsSuffix | src/metal.js:411-417 | The single-file `_format` is the module sentence with ` See: <url>` appended exactly when the url is truthy. |
| Deprecation.FormatSentence | src/deprecate.js:45-47 | `_format(prev, next)` is the sentence `<prev> is going to be removed in the future. Please use <next> instead.` |
| Deprecation.DeprecateAsWritten | src/deprecate.js:13-33 | As written, a call only grows the cache and appends at most one warning, keeping the earlier ones. A truthy `test` changes nothing. |
| Deprecation.AsWrittenWarnsExactlyWhenUnseen | src/deprecate.js:28-32 | As written, with a falsy `test`, one warning `Deprecation warning: <message>` goes out exactly when the `{}` cache does not answer truthy for the message. The log is unchanged otherwise, and the message counts as seen afterwards. |
| Deprecation.ConstructorNeverWarns | src/deprecate.js:86 | With the cache as written, `deprecate('constructor')` never warns, because `{}` inherits `constructor`. The corrected cache warns. |
| Deprecation.Deprecate | src/deprecate.js:13-33 | The corrected `deprecate` only grows the cache, only appends warnings, and changes nothing when `test` is truthy. |
| Deprecation.WarnsExactlyWhenNew | src/deprecate.js:28-32 | With a falsy `test`, one warning `Deprecation warning: <message>` goes out exactly when the message is new, and the message is recorded either way. |
| Deprecation.DeprecateIdempotent | test/deprecate.js:68-80 | Repeating a call warns no more. |
| Deprecation.AsWrittenAgreesOffInherited | src/deprecate.js:29 | The as-written and corrected caches differ only on names `Object.prototype` provides. |
| Deprecation.DeprecateKeepsConsistent | src/deprecate.js:78-86 | Each call keeps the log consistent: one distinct warning per recorded message. |
| Deprecation.Run | src/deprecate.js:78-86 | A sequence of calls only ever adds to the cache. This is monotonicity only; `Deprecation.RunWarnsOncePerMessage` states what a run warns about. |
| Deprecation.RunWarnsOncePerMessage | src/deprecate.js:78-86 | Any run records exactly the messages not silenced and keeps one warning per recorded message. |
| Deprecation.FreshRunCountsMessages | src/deprecate.js:78-86 | From a fresh cache, the number of warnings is the number of distinct unsilenced messages. |
| Deprecation.WarnsPlainMessage | test/deprecate.js:19-29 | `deprecate('foo')` warns `Deprecation warning: foo`. |
| Deprecation.WarnsObjectMessage | test/deprecate.js:31-44 | `deprecate({prev: 'foo', next: 'bar'})` warns with the `foo is going to be removed in the future. Please use bar instead.` sentence. |
| ErrorModel.ErrorPropsDistinct | src/error.js:9-11 | The whitelist names six distinct properties. |
| ErrorModel.PickIn | src/error.js:48 | `_.pick(obj, ERROR_PROPS)` holds exactly the whitelisted names present on `obj` (own or inherited), with the values read from `obj`. |
| ErrorModel.Native | src/error.js:45 | The native error contributes `name` `Error` and a `message` that is the message's text, or empty when it is missing. |
| ErrorModel.Fields | src/error.js:36-48 | The new error's own fields are exactly `name`, `message`, and the whitelisted names the options have, own or inherited, even when the value is `undefined`. Each is the options' value when the options have that name, and the native error's otherwise. |
| ErrorModel.FieldsAt | src/error.js:48 | The per-name rule of the copy: options first, the native error second. |
| ErrorModel.LegacyFields | src/metal.js:305-332 | The single-file constructor throws exactly when the options are `null`. Its instance's own fields start with `_super`, set to `undefined`: the always-applied constructor wrapper saves and restores it (src/metal.js:16-24, 136-137). They include `url` as `urlRoot` followed by the url exactly when `options.url` is truthy. Every other name agrees with the module fields. |
| ErrorModel.LegacyFieldsKeep | src/metal.js:317 | Apart from `url` and the wrapper's `_super`, the single-file fields are the module fields. |
| ErrorModel.LegacyToStringExtends | src/metal.js:354-358 | The single-file `toString` is the module `name: message` with ` See: <url>` appended exactly when `url` is truthy. |
| ErrorModel.ToStringReadsNameAndMessage | src/error.js:67-69 | `toString` depends only on `name` and `message`: two errors that agree on those two format the same. |
| ErrorModel.LegacyAgreesWithoutUrl | src/metal.js:328-331 | Without a truthy `options.url`, the single-file fields are the module fields preceded by the wrapper's `_super`, set to `undefined`. |
| ErrorModel.ObjectArgumentIsOptions | src/error.js:39-42 | `new Error(options)` equals `new Error(options.message, options)`. |
| ErrorModel.OnlyWhitelisted | test/error.js:135-149 | A name outside the whitelist is never copied. |
| ErrorModel.MessageOnly | test/error.js:7-18 | `new Error('Foo')` has exactly `name` `Error` and `message` `Foo`. |
| ErrorModel.OptionsOverride | src/error.js:48 | A whitelisted name present on the options overrides the native error's value. |
| ErrorModel.ToStringOfMessage | test/error.js:20-23 | `new Error('Foo').toString()` is `Error: Foo`. |
| ErrorModel.RenamedFields | test/error.js:26-39 | `new Error('Foo', {name: 'Bar'})` has `name` `Bar` and `message` `Foo`. |
| ErrorModel.NativeMessage | src/error.js:45 | A string message is kept by the native error as is. |
| ErrorModel.ToStringOfRenamed | test/error.js:41-44 | `new Error('Foo', {name: 'Bar'}).toString()` is `Bar: Foo`. |
| ErrorModel.LegacyToStringOf | src/metal.js:354-358 | With a non-empty url, the single-file `toString` is `name: message See: url`. |
| ErrorModel.LegacyFieldsWithUrl | test/error.js:47-62 | With `{name: 'Bar', url: '#baz'}`, the single-file error has `name` `Bar`, `message` `Foo` and `url` `urlRoot#baz`. |
| ErrorModel.LegacyToStringWithUrl | test/error.js:64-67 | That error's `toString` is `Bar: Foo See: http://github.com/thejameskyle/backbone-metal#baz`. |
| ErrorModel.AllPropertiesCopied | test/error.js:116-133 | An options object with all six whitelisted names gives an error with exactly those names and the options' values. |

## Left out

- Debug display names (`Metal.DEBUG`, `_addDisplayName`, src/class.js:40-48, 66-101, 194-196, 207-209, 217-221, 236-240) only add a non-enumerable `displayName`. They are not modelled.
- `captureStackTrace` (src/error.js:57, 78-82; src/metal.js:326, 340-345) and the `stack` property depend on the engine. They are left out.
- The choice of console method for warnings (src/deprecate.js:56-76; src/metal.js:428-435) is I/O. The model keeps the list of warnings sent instead.
- Backbone's own `Events` methods and `destroy` (src/class.js:160-162) belong to Backbone. Their bodies are native code passed in as a parameter, and `classify`'s event names are a parameter set.
- The statements after `classify` that replace Backbone's built-ins (src/metal.js:655-690) act on Backbone, which is not part of this model.
- The `Surrogate` constructor itself is not allocated. Only the object `new Surrogate()` makes is, and nothing can reach the surrogate afterwards.
- PropTable.Put: key order is insertion order. JavaScript enumerates integer-like names (`"0"`, `"1"`, …) first, in ascending order; that ordering is not modelled.
- PropTable.Assign: as for `PropTable.Put`, the prefix claim is about insertion order. With integer-like names, JavaScript's enumeration order differs.
- Numbers are integers. Floating point, symbols, getters and setters, and property attributes other than enumerability are not modelled.
- A value other than an object converts to text by a fixed rule (`ToText`). Every object converts to `[object Object]`, so a custom `toString` on a message or url object is not modelled. A property read on a primitive gives `undefined`.
- ClassEngine.Boot: the boot heaps give `Object.prototype` and `Function.prototype` no built-in methods. In JavaScript, an override of `toString` that calls `_super` is wrapped against `Object.prototype.toString`; on the boot heap it is copied as is. The general lemmas quantify over every heap, so only the statements about the boot heaps are affected. The same applies to MetalEngine.Boot.
- Compose.CopyAll: depending on the underscore version, `_.extend` also copies inherited enumerable names of its source. The model copies the source's own enumerable table only. This affects `_.extend(Child, Parent)` in `extend` and `_.extend(Err, Class)`. `classify` and `Mixin` do use the inherited walk (`Compose.ForIn`). No underscore version is pinned by the sources, and the two readings agree whenever the source's ancestors have no enumerable names. That is the case for `Parent` and `Class`, whose ancestors are `Function.prototype` and `Object.prototype`, but not for an arbitrary `props` object, so the model uses the walk where the source may be any object.
- Invoke.Call: a native body only writes properties of existing objects and returns a value. It cannot allocate an object, relink a prototype, or call another function, including `this._super()`; real methods can do all three. So "no call changes an object's shape" is a property of this native interface, not of JavaScript methods.
- Invoke.Call: a thrown exception carries no heap, so the `_super` left behind by a throwing wrapped method is not modelled. The fuel bound makes a call that would nest deeper than the fuel count as a throw.
- Compose.Assemble: the prototype link, `superclass`/`__super__` and the per-name outcomes are stated only when the constructor is apart from the parent and from both property tables. Otherwise the writes alias each other; only the frame and the new `prototype` object are promised.
- ClassEngine.ExtendStaysClass: when the reused constructor is a strict ancestor of `Class`, writing its `prototype` can change what `Class.prototype` reads, and nothing is promised about `isClass` then.
- ClassEngine.Extend: the per-name outcome is stated only when the chosen constructor is apart from the parent and from both property tables. Reusing the parent, or one of the tables, as the constructor makes the writes alias each other.
- MetalUtils.TriggerMethod: what `trigger` does with its arguments is native code. The contract states that it is called (`MetalUtils.TriggerMethodWithHandler`, `MetalUtils.TriggerMethodWithoutHandler`), not what it does.
- ErrorModel.Fields: models an engine whose native errors contribute only `name` and `message` among the whitelisted names. An engine that adds `fileName`, `lineNumber`, `description` or `number` to native errors would copy those too. The table is the new error's own fields, not a heap object. In an engine that cannot decompile functions, the module constructor is wrapped too, and its instances would also carry `_super` as `ErrorModel.LegacyFields` states for the single file.
- ErrorModel.LegacyFields: `this.urlRoot` is a parameter rather than a prototype lookup. The default constructor value `options = {}` and `_.pick` of a primitive both give an empty pick.

## Findings

| source | as written | input that shows it | evidently intended | confidence | as-written member | corrected member |
|---|---|---|---|---|---|---|
| src/metal.js:619-621 | `_.isClass(value)` tests only `value instanceof Class` and `value.prototype instanceof Class`. | `_.isClass(Class)`: `Class.prototype` does not inherit from itself, so the result is false. | `Class` itself is a class, as the module version says with its `value === Class` clause (src/class.js:354). | not executed; high | MetalEngine.RootIsNotAClass | ClassEngine.IsClassOfRoot |
| src/deprecate.js:86 | The cache is `{}`, so `_cache[message]` also finds the names `Object.prototype` provides. | `deprecate('constructor')` (likewise `toString`, `valueOf`, …) is never warned about. | Every new message is warned about once. | not executed; medium | Deprecation.ConstructorNeverWarns | Deprecation.WarnsExactlyWhenNew |
