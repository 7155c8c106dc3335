# Query-string serializer and command router, modelled in Dafny

This project models two dispatch components of ServiceStack.Text as shipped in Xamarin-Forms-Labs.

- **Query-string serialization** (`QueryStringSerializer`, `QueryStringWriter<T>`). For each type, the static constructor of `QueryStringWriter<T>` chooses a write function. `GetWriteFn` memoizes that choice per type. `WriteLateBoundObject` re-dispatches a value on its runtime type. `WriteIDictionary` renders a dictionary as `key=value&key=value`. Around each key and each value it sets and clears the process-wide `JsState` flags (`QueryStringMode`, `WritingKeyCount`, `IsWritingValue`).
- **Command routing** (`CommandProcessor`). The constructor builds a registry from controller type name to instance. `Invoke` splits `Controller://action/args` on `"://"`, parses the action, looks up the controller and picks the first method with the right name and arity. It then converts the arguments with `ConvertValuesToTypes`, invokes the method, and wraps only what the invocation throws.

Files:
- `wrappers.dfy`: `Option`, `Result`.
- `exceptions.dfy`: the .NET exceptions involved.
- `strings.dfy`: `String.Split` with a string separator, and `String.Join`.
- `text_common.dfy`: type descriptors, runtime values, the `JsState` flags, the text sink.
- `query_string_dictionary.dfy`: `WriteIDictionary`.
- `query_string.dfy`: strategy choice, cache and dispatch.
- `commands.dfy`: the router.

How the model represents the C# code:
- A .NET type is a `TypeDesc` record holding the properties the strategy choice tests.
- A write delegate is a `WriteFn` tag naming which of the four strategies it is.
- An external writer is a function from the current `JsState` flags and a value to the text it writes or the exception it throws.
- `MethodInfo.Invoke`, `PathInfo.Parse` and `TypeSerializer.DeserializeFromString` are parameters (`Collaborators`).
- Exceptions are values: `Option<Exc>` or `Result`.

Each imperative member has a pure specification function, and the lemmas are stated about that function:
- `WriteIDictionary` sets and clears the mode, specified by `DictionaryRun`. Its loop `WriteEntries` is specified by `Entries`, one iteration `WriteEntry` by `EntryStep`, and the pair write `WritePair` by `PairRun`.
- `GetWriteFn` replaces the cache map, specified by `ChooseWriteFn` and the `Valid` invariant.
- The registry constructor has its loop, specified by `LastNamed`.
- `ConvertValuesToTypes` fills an array, specified by `ConvertAll`.
- `Invoke` is specified by `InvokeOutcome`.

Behaviour of the C# that is easy to misread, and that the model keeps:
- `WritingKeyCount` and `IsWritingValue` are not restored when a key or value writer throws. Only `QueryStringMode` is inside the `finally` (QueryStringSerializer.cs:236-239). After a key writer throws, the count stays one higher. After a value writer throws, `IsWritingValue` stays true (`DictionaryThrowFlags`).
- `QueryStringMode` is set to false on exit, not restored to its value on entry.
- The key writer comes from the key of the first entry whose value is not null, not from the very first key. The null check at line 206 comes before the writer choice at 208-215.
- A command needs at least one `"://"`, not exactly one. Pieces after the second are ignored. With no `"://"`, `actionParts[1]` throws `IndexOutOfRange`.
- No matching method throws `InvalidOperationException` from `Enumerable.First` (`Exc.NoMatchingElement`). There is no dedicated error for it.

## Model

| member | source | states |
|---|---|---|
| `Strings.IndexOf` | src/Serialization/ServiceStack/Controller/CommandProcessor.cs:62 | the result is the first position at or after `from` where the separator occurs; None exactly when there is none |
| `Strings.Split` | src/Serialization/ServiceStack/Controller/CommandProcessor.cs:62 | `commandUri.Split(new[] {"://"}, StringSplitOptions.None)`: the pieces between the occurrences of the separator found left to right, empty pieces kept; there is always at least one piece (its other properties are the lemmas below) |
| `Strings.SplitJoin` | src/Serialization/ServiceStack/Controller/CommandProcessor.cs:62 | joining the pieces of `Split` with the separator gives back the command string |
| `Strings.SplitPiecesAvoidSeparator` | src/Serialization/ServiceStack/Controller/CommandProcessor.cs:62 | no piece produced by `Split` contains `"://"` |
| `Strings.SplitFirstPieces` | src/Serialization/ServiceStack/Controller/CommandProcessor.cs:62-66 | piece 0 is the text before the first separator, piece 1 the text between the first and second; a string without the separator yields a single piece |
| `Strings.SplitAtSchemeSeparator` | src/Serialization/ServiceStack/Controller/CommandProcessor.cs:62-66 | `Name://rest`, with no colon in the name and no further `"://"`, splits into exactly `[Name, rest]` |
| `QueryStringDictionary.PairRun` | src/Serialization/ServiceStack/QueryStringSerializer.cs:222-233 | writing one pair: on success the flags are as on entry except IsWritingValue is false (the count is back where it was); on a throw they are the key writer's flags (count raised) or the value writer's (IsWritingValue set) |
| `QueryStringDictionary.EntryStep` | src/Serialization/ServiceStack/QueryStringSerializer.cs:205-233 | one iteration: a null value changes nothing; a written pair fixes both writers, sets `ranOnce` and leaves the count unchanged; writers once chosen are kept; after the first pair the text starts with `&` |
| `QueryStringDictionary.Entries` | src/Serialization/ServiceStack/QueryStringSerializer.cs:203-234 | the loop over the entries, stopping at the first throw: it never changes QueryStringMode, and a loop that completes leaves the key count where it was |
| `QueryStringDictionary.DictionaryRun` | src/Serialization/ServiceStack/QueryStringSerializer.cs:192-240 | `QueryStringMode` is false on every exit; a write without exception leaves the key count as on entry; a null argument throws NullReference and a non-dictionary throws InvalidCast, both with nothing written |
| `QueryStringDictionary.WriteIDictionary` | src/Serialization/ServiceStack/QueryStringSerializer.cs:192-240 | the imperative loop appends exactly `DictionaryRun`'s output, leaves exactly its flags and lets its exception through |
| `QueryStringDictionary.WriteEntries` | src/Serialization/ServiceStack/QueryStringSerializer.cs:194-234 | the `foreach` loop, started with no writers chosen and `ranOnce` false, appends exactly the text of `Entries` over the entries in enumeration order, leaves its flags and stops at the first exception |
| `QueryStringDictionary.WriteEntry` | src/Serialization/ServiceStack/QueryStringSerializer.cs:205-220 | one loop iteration: a null value is skipped with nothing written and every local kept; otherwise the writers are fixed if unset, `&` is written before every pair except the first, and the pair follows |
| `QueryStringDictionary.WritePair` | src/Serialization/ServiceStack/QueryStringSerializer.cs:222-233 | writes one pair as `PairRun` says: key count raised and IsWritingValue cleared around the key, count lowered, `=`, IsWritingValue set around the value and cleared after |
| `QueryStringDictionary.PairRunClean` | src/Serialization/ServiceStack/QueryStringSerializer.cs:222-233 | a pair written with the mode on succeeds exactly when neither writer throws under the protocol's flags; it then writes `key=value` and leaves the count as on entry and IsWritingValue false |
| `QueryStringDictionary.NullEntriesSkipped` | src/Serialization/ServiceStack/QueryStringSerializer.cs:205-220 | a null-valued entry adds nothing, not even a separator, and changes no state: the loop over all entries equals the loop over the non-null ones |
| `QueryStringDictionary.EntriesAfterFirst` | src/Serialization/ServiceStack/QueryStringSerializer.cs:208-233 | once the writers are fixed, the remaining loop succeeds exactly when they never throw; it then writes `&key=value` per non-null entry and restores the count |
| `QueryStringDictionary.EntriesFromStart` | src/Serialization/ServiceStack/QueryStringSerializer.cs:202-234 | from the loop's start, the writers are those of the first non-null entry's key and value types; output is the pairs joined by `&` exactly when those writers never throw |
| `QueryStringDictionary.AllNullWritesNothing` | src/Serialization/ServiceStack/QueryStringSerializer.cs:197-239 | an empty or all-null dictionary writes `""`, throws nothing and leaves count and IsWritingValue as on entry |
| `QueryStringDictionary.DictionaryWritesPairs` | src/Serialization/ServiceStack/QueryStringSerializer.cs:197-239 | output is `writeKey(k)=writeValue(v)` for each non-null entry in enumeration order, joined by `&`; key writers see (mode on, count+1, not value) and value writers see (mode on, count, value); afterwards the count is restored, IsWritingValue is false and mode is off |
| `QueryStringDictionary.EntriesThrowFlags` | src/Serialization/ServiceStack/QueryStringSerializer.cs:222-233 | inside the loop, a throw leaves either the key writer's flags or the value writer's flags |
| `QueryStringDictionary.DictionaryThrowFlags` | src/Serialization/ServiceStack/QueryStringSerializer.cs:222-238 | after a writer throws, mode is off but the count stays raised (key) or IsWritingValue stays set (value) |
| `QueryStringDictionary.NullValueOmittedExample` | src/Serialization/ServiceStack/QueryStringSerializer.cs:203-233 | with literal-writing writers, `{"a":1,"c":null,"b":2}` is written `a=1&b=2` |
| `QueryString.ChooseWriteFn` | src/Serialization/ServiceStack/QueryStringSerializer.cs:141-170 | priority: System.Object gives the late-bound writer; otherwise a dictionary type gives WriteIDictionary; otherwise a non-enumerable class or interface with a type writer gives WriteQueryString; otherwise the generic writer (each as an if-and-only-if) |
| `QueryString.LateBoundRun` | src/Serialization/ServiceStack/QueryStringSerializer.cs:84-89 | `WriteLateBoundObject` as a value: a null value writes nothing and changes nothing; a runtime type of System.Object itself gives StackOverflow; a write without exception leaves the key count as on entry |
| `QueryString.DirectRun` | src/Serialization/ServiceStack/QueryStringSerializer.cs:88 | calling a delegate other than the late-bound one: a write without exception leaves the key count as on entry; the type writer and the generic writer leave the flags untouched |
| `QueryString.ExecRun` | src/Serialization/ServiceStack/QueryStringSerializer.cs:88 | calling a write delegate: a write without exception leaves the key count as on entry; WriteIDictionary always leaves QueryStringMode off; the external writers leave the flags untouched |
| `QueryString.LateBoundDispatch` | src/Serialization/ServiceStack/QueryStringSerializer.cs:84-89 | a null value writes nothing and changes nothing; a non-null value is written by the function chosen for its runtime type |
| `QueryString.QueryStringSerializer.constructor` | src/Serialization/ServiceStack/QueryStringSerializer.cs:40 | the cache starts empty and consistent |
| `QueryString.QueryStringSerializer.GetWriteFn` | src/Serialization/ServiceStack/QueryStringSerializer.cs:47-77 | on a hit it returns the cached function and leaves the cache unchanged; on a miss the new cache is the old one plus `type`, every other entry kept; either way `cache[type]` is the result and is the function the static constructor chooses |
| `QueryString.QueryStringSerializer.WriteLateBoundObject` | src/Serialization/ServiceStack/QueryStringSerializer.cs:84-89 | appends, updates flags and throws exactly as `LateBoundRun`; a null value leaves the cache as it was, any other value leaves it as before plus the value's runtime type mapped to its chosen function, and the cache stays consistent |
| `QueryString.QueryStringSerializer.Execute` | src/Serialization/ServiceStack/QueryStringSerializer.cs:88 | calling a write delegate: output, flags and exception as `ExecRun` says for that strategy; the cache is unchanged except that the late-bound delegate on a non-null value installs the value's runtime type |
| `QueryString.QueryStringSerializer.WriteObject` | src/Serialization/ServiceStack/QueryStringSerializer.cs:177-181 | with a null writer nothing happens: no exception, flags and cache unchanged; otherwise it writes with the function chosen for `T`, and the cache changes only when that function is the late-bound one and the value is not null, by installing the value's runtime type |
| `QueryString.QueryStringSerializer.SerializeToString` | src/Serialization/ServiceStack/QueryStringSerializer.cs:107-115 | a null value throws NullReference and leaves flags and cache unchanged; otherwise it returns the text written by the function for the runtime type, or that function's exception, and the cache is the old one plus the runtime type mapped to its chosen function |
| `QueryString.WriteExternal` | src/Serialization/ServiceStack/QueryStringSerializer.cs:160-168 | an external writer is called with the current flags; its text is appended, or its exception returned |
| `Commands.LastNamed` | src/Serialization/ServiceStack/Controller/CommandProcessor.cs:44-48 | the result is a controller with that name and no later controller has the name; None exactly when no controller has it |
| `Commands.CommandProcessor.constructor` | src/Serialization/ServiceStack/Controller/CommandProcessor.cs:40-49 | after construction each type name maps to the last controller with that name, and unused names are absent |
| `Commands.FirstMatching` | src/Serialization/ServiceStack/Controller/CommandProcessor.cs:76-77 | the index of the first method whose name equals the action and whose parameter count equals the argument count; None when no method matches |
| `Commands.ConvertAll` | src/Serialization/ServiceStack/Controller/CommandProcessor.cs:99-110 | succeeds exactly when there are enough literals and every conversion succeeds; then element `i` is `deserialize(values[i], types[i])` and the length is `types.Count` |
| `Commands.ConvertAllFirstFailure` | src/Serialization/ServiceStack/Controller/CommandProcessor.cs:102-108 | the failure is that of the first failing position: ArgumentOutOfRange (the `IList<string>` indexer) past the literals, else the conversion's own exception |
| `Commands.ConvertValuesToTypes` | src/Serialization/ServiceStack/Controller/CommandProcessor.cs:99-110 | the array-filling loop returns a newly allocated array holding exactly `ConvertAll`'s elements, or its exception |
| `Commands.ConvertFailureFromDeserializer` | src/Serialization/ServiceStack/Controller/CommandProcessor.cs:76-81 | with at least as many literals as types (guaranteed by the arity match), every conversion failure is some deserializer's exception |
| `Commands.InvokeOutcome` | src/Serialization/ServiceStack/Controller/CommandProcessor.cs:60-91 | `Invoke` as a value: a command without `"://"` fails with IndexOutOfRange; a command that succeeds has at least two pieces, a registered controller name, a parsed action and a method of that name and arity |
| `Commands.CommandProcessor.Invoke` | src/Serialization/ServiceStack/Controller/CommandProcessor.cs:60-91 | the method fails or returns exactly as `InvokeOutcome`: split, parse, lookup, first match, conversion, invocation, in that order |
| `Commands.NoSeparatorFails` | src/Serialization/ServiceStack/Controller/CommandProcessor.cs:62-66 | a command without `"://"` fails with IndexOutOfRange |
| `Commands.UnknownControllerFailsFirst` | src/Serialization/ServiceStack/Controller/CommandProcessor.cs:69-72 | an unregistered name fails with `"UnknownContext: " + name`, whatever conversion and invocation would do |
| `Commands.RouteCommand` | src/Serialization/ServiceStack/Controller/CommandProcessor.cs:62-90 | `Name://rest` for a registered name, with no colon in the name and no further `"://"` in `rest` (commands with a second `"://"` are covered only by `InvokeOutcome` and `SplitFirstPieces`): with no method of that name and arity the call fails; otherwise the first match is invoked on the registered instance with the converted arguments. A conversion failure escapes unwrapped, an invocation failure becomes `InvalidCommand` with the original as inner, and a success returns nothing |

## Left out

- The lock-free retry loop of `GetWriteFn` (`Interlocked.CompareExchange`, QueryStringSerializer.cs:62-69) is modelled as one sequential install. Convergence under concurrent callers is not stated. Neither are races on the process-wide `JsState` flags.
- QueryString.QueryStringSerializer.GetWriteFn: building a write function on a cache miss is taken never to throw. In the C#, `MakeGenericType` (QueryStringSerializer.cs:54) may reject the type. The static constructor of `QueryStringWriter<T>` (:141-170) may also fail, surfacing as a TypeInitializationException that the `catch { throw; }` passes on with nothing installed. The model neither propagates such a failure nor shows that the cache is left unchanged after one.
- TextCommon.Value: nothing ties a value's `runtimeType.isDictionary` to its being a `Dictionary`. A `Scalar` whose runtime type is a dictionary type would reach `DictionaryRun` and get InvalidCast. No such value exists in the C#: a runtime type implementing IDictionary always passes the cast at :201. Such values are outside the domain, and no stated property depends on them.
- Reflection (`MakeGenericType`, `GetPublicStaticMethod`, `MakeDelegate`, `GetMethodInfos`, `GetParameters`) is not modelled. Types and methods are descriptor records. A delegate is a `WriteFn` tag, run by `Execute`.
- External code is not modelled: `PathInfo.Parse`, `TypeSerializer.DeserializeFromString`, `MethodInfo.Invoke`, `JsvTypeSerializer.GetWriteFn`, `WriteType<T,…>.WriteQueryString` and the JSV generic writers. Each is an uninterpreted function parameter, so escaping and formatting are not covered. The definition of `JsState` is not part of this model. A `TypeDesc` flag stands in for `WriteType<T>.Write` being non-null.
- External writers are pure functions of the flags and the value. They cannot change `JsState` themselves, and a writer that throws is taken to have written nothing. The model therefore does not show a nested writer clearing `QueryStringMode` under an outer dictionary, and it does not show partial output before an exception.
- `JsvTypeSerializer.GetWriteFn` is taken never to return null or throw. A null `writeKeyFn` would throw NullReferenceException at the key call (QueryStringSerializer.cs:225), on the same entry and before anything of the pair is written. A null `writeValueFn` would throw at the value call (:232), after the key and `=` are written. Either exception would leave the loop.
- `GetValueTypeToStringMethod` (QueryStringSerializer.cs:96-99) forwards to the JSV writer and is not modelled.
- The `StringBuilder`/`StringWriter`/`CultureInfo` plumbing of `SerializeToString` is reduced to a fresh `TextSink`. The no-op `catch { throw; }` in `GetWriteFn` is dropped.
- QueryString.QueryStringSerializer.WriteLateBoundObject: a value whose runtime type is System.Object itself makes the C# re-enter this method without end. The model stops at the second dispatch and reports `Exc.StackOverflow` instead of diverging.
- `WritingKeyCount` is an unbounded integer, so 32-bit wrap-around is not modelled. It would take 2^31 unmatched increments: nested key writes in progress, or key writers that threw, since each throw leaves the count one higher.
- Commands.CommandProcessor.constructor: it takes a sequence of non-null controllers. A null array or a null element throws in the C# and is not modelled. The `Controllers` property is kept but, as in the C#, never read.
- Commands.CommandProcessor.Invoke: a null `commandUri` (which throws in the C#) is not modelled, since strings are never null here.
