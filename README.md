# Testing helpers for Azure Functions: mock collector and test stream factory

This project models the two pieces of logic in the testing-helpers package and
proves properties of them in Dafny.

- **`TestAsyncCollector<T>`** (module `Mocks`) is a mock of the Azure WebJobs
  asynchronous collector. It records written items in a list. The list may be
  the test's own list, shared by reference. The collector holds a match
  predicate and an exception policy. `AddAsync` fails with the policy's write
  error when one is set. Otherwise it scans every stored item with the
  predicate and appends the new item only when nothing matched. `FlushAsync`
  fails with the policy's flush error when one is set, and otherwise clears
  the list. The shared list is the class `ItemList`, and the collector holds a
  reference to it, so aliasing with the test is explicit (`SharedListScenario`
  shows a test seeing the collector's writes through its own reference).
  `AddStep` and `AddAll` describe one write and a series of writes as values.
  The lemmas about series of writes are stated over them, and `AddAsync`'s
  contract ties each call to `AddStep`.
- **`TestStreamFactory.CreateStream`** (module `Factories`) turns a fixture
  request into a `TestStream` of a given encoding. For `Content`, the request's
  text is the content. For `EmbeddedResource`, every `*` in the path becomes
  the calling assembly's name, and the resource is looked up. A failed lookup
  becomes the content `Error collecting test data: '<message>'`, and the
  factory itself never fails.

A match is a no-op. When `AddAsync` finds a stored item that matches, the
source only reassigns its local `foundItem` (TestAsyncCollector.cs:77-78). The
stored list is left as it was. The comments suggest a merge was meant, but the
model keeps the behaviour as written. `MatchDoesNotReplace` states it.

Inputs from outside the core are parameters:
- the calling assembly's name is `assemblyName`;
- the embedded-resource lookup is `lookup(assemblyName, path, encoding)`, which
  returns the resource text or the message of the exception it raised;
- the match predicate is a function value;
- injected errors are values of a type parameter `E`.

## Model

| member | source | states |
|---|---|---|
| `Mocks.TestAsyncCollector.constructor` | Testing.Helpers/Testing.Helpers.Package/Mocks/TestAsyncCollector.cs:37-51 | A given list is the very object the collector writes to; a missing list becomes a fresh empty one; a missing predicate matches nothing; a missing policy injects no failure |
| `Mocks.TestAsyncCollector.AddAsync` | Testing.Helpers/Testing.Helpers.Package/Mocks/TestAsyncCollector.cs:53-83 | With a write error set: fails with exactly that error, list unchanged. Otherwise succeeds. It appends the item at the end when no stored item matches, and leaves the list unchanged when one does |
| `Mocks.TestAsyncCollector.FlushAsync` | Testing.Helpers/Testing.Helpers.Package/Mocks/TestAsyncCollector.cs:85-94 | With a flush error set: fails with exactly that error, list unchanged; otherwise succeeds and the list is empty |
| `Policies.NoFailures` | Testing.Helpers/Testing.Helpers.Package/Mocks/TestAsyncCollector.cs:47 | The policy a collector gets when none is given injects neither a write error nor a flush error |
| `Mocks.DefaultMatchLogic` | Testing.Helpers/Testing.Helpers.Package/Mocks/TestAsyncCollector.cs:30 | The default predicate answers false for every pair, so it never reports a match |
| `Mocks.AddStep` | Testing.Helpers/Testing.Helpers.Package/Mocks/TestAsyncCollector.cs:53-83 | One write as a value. It passes exactly when no write error is set, and otherwise fails with that error. The list either stays as it was or gains the item at the end, and it gains the item exactly when no write error is set and no stored item matches |
| `Mocks.AddAll` | Testing.Helpers/Testing.Helpers.Package/Mocks/TestAsyncCollector.cs:53-83 | A series of writes as a value, one outcome per written item; the series lemmas below are stated over it |
| `Mocks.ScanForMatch` | Testing.Helpers/Testing.Helpers.Package/Mocks/TestAsyncCollector.cs:62-74 | `found` is true exactly when some stored item satisfies the predicate. `foundItem` is the last such item, because the loop never stops early |
| `Mocks.LastMatch` | Testing.Helpers/Testing.Helpers.Package/Mocks/TestAsyncCollector.cs:66-74 | The item a full scan keeps. It is present exactly when something matches, and it is a matching item with no match after it |
| `Mocks.ItemList.Add` | Testing.Helpers/Testing.Helpers.Package/Mocks/TestAsyncCollector.cs:80 | The list afterwards is the old list with the item at the end |
| `Mocks.ItemList.Clear` | Testing.Helpers/Testing.Helpers.Package/Mocks/TestAsyncCollector.cs:91 | The list afterwards is empty |
| `Mocks.WriteFailureOnEveryCall` | Testing.Helpers/Testing.Helpers.Package/Mocks/TestAsyncCollector.cs:56-57 | With a write error set, any number of writes each fail with exactly that error, and the list is unchanged after all of them |
| `Mocks.NeverMatchingAddsAppendInOrder` | Testing.Helpers/Testing.Helpers.Package/Mocks/TestAsyncCollector.cs:66-80 | With a predicate that never matches and no write error, every write succeeds. The list ends as the initial list followed by all written items, in order |
| `Mocks.DefaultMatchAppendsInOrder` | Testing.Helpers/Testing.Helpers.Package/Mocks/TestAsyncCollector.cs:30-44 | With the default predicate (no match function given), the list ends as the initial list followed by all written items, in order |
| `Mocks.AddsNeverRemoveOrReorder` | Testing.Helpers/Testing.Helpers.Package/Mocks/TestAsyncCollector.cs:66-80 | After any series of writes, the old list is a prefix of the new one. The new list grows by at most one item per write, and every added element is one of the written items |
| `Mocks.WrittenItemsMatchNothingBefore` | Testing.Helpers/Testing.Helpers.Package/Mocks/TestAsyncCollector.cs:66-80 | An item added by a write matches no item that precedes it in the list, with the predicate applied as (new, stored) |
| `Mocks.MatchDoesNotReplace` | Testing.Helpers/Testing.Helpers.Package/Mocks/TestAsyncCollector.cs:71-78 | A write that matches a stored item succeeds and leaves the list as it was. The matched entry is not replaced by the new item |
| `Mocks.SharedListScenario` | Testing.Helpers/Testing.Helpers.Package/Mocks/TestAsyncCollector.cs:49-50 | A test that passes its own list sees the collector's write through that list, and then sees it empty after a flush |
| `Factories.ReplaceWildcard` | Testing.Helpers/Testing.Helpers.Package/Factories/TestStreamFactory.cs:30 | A path with no `*` is returned unchanged. If the assembly name has no `*`, the result has none either. Every other character of the result comes from the path or the name |
| `Factories.ReplaceWildcardDistributes` | Testing.Helpers/Testing.Helpers.Package/Factories/TestStreamFactory.cs:30 | Substituting in a concatenation is the concatenation of the substituted parts |
| `Factories.EachWildcardBecomesAssemblyName` | Testing.Helpers/Testing.Helpers.Package/Factories/TestStreamFactory.cs:30 | Each `*` is replaced by exactly the assembly name, wherever it stands |
| `Factories.ErrorContent` | Testing.Helpers/Testing.Helpers.Package/Factories/TestStreamFactory.cs:35 | The error content is `Error collecting test data: '`, then the message, then `'`, and nothing else |
| `Factories.ResourceText` | Testing.Helpers/Testing.Helpers.Package/Factories/TestStreamFactory.cs:28-36 | A successful lookup's text is the content unchanged. A failed lookup becomes content from which the lookup's message can be read back |
| `Factories.ErrorContentRoundTrip` | Testing.Helpers/Testing.Helpers.Package/Factories/TestStreamFactory.cs:35 | The message of a failed lookup can be read back from the error content |
| `Factories.ParseErrorContentSound` | Testing.Helpers/Testing.Helpers.Package/Factories/TestStreamFactory.cs:35 | Only an error content parses, and it parses to the message it was built from |
| `Factories.CreateStream` | Testing.Helpers/Testing.Helpers.Package/Factories/TestStreamFactory.cs:19-50 | The stream always carries the given encoding. For `Content`, its content is the source text verbatim. For `EmbeddedResource`, the lookup gets the path with `*` substituted, and the content is the looked-up text or the error content of the lookup's message |
| `Factories.CreateStreamOfType` | Testing.Helpers/Testing.Helpers.Package/Factories/TestStreamFactory.cs:17 | The three-argument call with UTF-8 and an empty source; its encoding is UTF-8 |
| `Factories.CreateStreamWithEncoding` | Testing.Helpers/Testing.Helpers.Package/Factories/TestStreamFactory.cs:18 | The three-argument call with the given encoding and an empty source |
| `Factories.PathWithoutWildcardIsLookedUpAsIs` | Testing.Helpers/Testing.Helpers.Package/Factories/TestStreamFactory.cs:30-31 | An embedded-resource path without `*` reaches the lookup unchanged |
| `Factories.FailedLookupBecomesContent` | Testing.Helpers/Testing.Helpers.Package/Factories/TestStreamFactory.cs:33-36 | A failed lookup yields content that starts with `Error collecting test data: '`, ends with `'` and holds the message in between. No error escapes the factory |

## Left out

- `Task`, `Task.FromResult` and `CancellationToken`: the operations complete synchronously and never read the token. They are methods returning an `Outcome`.
- The `IAsyncCollector<T>` interface belongs to the Azure WebJobs framework. The model has only the class.
- Exceptions are opaque values of type `E`. A throw is `Fail(e)`. The .NET throw/catch machinery is not modelled.
- The source of `TestExceptionPolicy` is not shown. The model takes it as a datatype with two optional errors, and assumes that a freshly constructed policy has neither set.
- `List<T>.Add` and `List<T>.Clear` are the two methods of `ItemList`. The rest of the `IList<T>` surface is not modelled.
- The match predicate is a pure, total function. A predicate that throws, or that changes the list during the scan, is not modelled. In .NET the enumerator would then throw.
- A test that changes the policy object after construction is not modelled; the policy is a value.
- `Assembly.GetCallingAssembly`, `GetName().Name` and the `GetResourceString` extension are reflection and resource I/O. The assembly name is a parameter, and the lookup is a function parameter.
- The assembly name is never null in the model. In .NET a null name (from a null calling assembly or a nameless one) does not make `Replace` throw: it removes every `*`, and the lookup then runs on the shortened path.
- `loadFrom` is never null in the model. Under `Content` a null `loadFrom` takes the `default` branch, which has no `try`: the stream gets null content and nothing is thrown. Only under `EmbeddedResource` does a null `loadFrom` throw inside the `try`, so only that case becomes one more lookup failure.
- CreateStreamOfType and CreateStreamWithEncoding: the assembly identity under the one- and two-argument overloads is not modelled. `GetCallingAssembly` runs inside the three-argument overload, so through these overloads it yields the factory's own assembly, or something unpredictable when the call is inlined. The model passes `assemblyName` and `lookup` through and lets them stand for whatever that call returns.
- `TestStream` is not part of this model beyond its encoding and its text. Its stream behaviour and byte encoding are not modelled. `Encoding` is a small datatype that is only passed through.
- `TestStreamType` values outside the enum's two members are not modelled. In the source they would take the `default` branch, like `Content`.
- Concurrency: the shared list is unsynchronised. The model assumes one sequential caller.
