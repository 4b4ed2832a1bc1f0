/**
 * The test stream factory: turns a fixture request (inline text, or the
 * name of a resource embedded in the calling assembly) into a test stream of
 * a given encoding. A failed resource lookup becomes visible content, never
 * an error of the factory.
 */
module Factories {
  import opened Wrappers

  /** Where the fixture text comes from. */
  datatype TestStreamType = Content | EmbeddedResource

  /** A text encoding, only passed through to the lookup and the stream. */
  datatype Encoding = UTF8 | OtherEncoding(name: string)

  /** The stream handed to the code under test: its encoding and its text. */
  datatype TestStream = TestStream(encoding: Encoding, content: string)

  /** The placeholder that stands for the calling assembly's name in a resource path. */
  const Wildcard: char := '*'

  const ErrorPrefix: string := "Error collecting test data: '"
  const ErrorSuffix: string := "'"

  /** `path` with every `*` replaced by `assemblyName`, left to right. */
  function ReplaceWildcard(path: string, assemblyName: string): (r: string)
    ensures Wildcard !in path ==> r == path
    ensures Wildcard !in assemblyName ==> Wildcard !in r
    ensures forall c :: c in r && c != Wildcard && c !in assemblyName ==> c in path
  {
    if path == [] then []
    else (if path[0] == Wildcard then assemblyName else [path[0]]) + ReplaceWildcard(path[1..], assemblyName)
  }

  /** Substitution works piece by piece. */
  lemma {:induction false} ReplaceWildcardDistributes(a: string, b: string, assemblyName: string)
    ensures ReplaceWildcard(a + b, assemblyName) == ReplaceWildcard(a, assemblyName) + ReplaceWildcard(b, assemblyName)
    decreases |a|
  {
    if a != [] {
      var piece := if a[0] == Wildcard then assemblyName else [a[0]];
      assert (a + b)[0] == a[0];
      assert (a + b)[1..] == a[1..] + b;
      ReplaceWildcardDistributes(a[1..], b, assemblyName);
      assert ReplaceWildcard(a + b, assemblyName) == piece + ReplaceWildcard(a[1..] + b, assemblyName);
      assert ReplaceWildcard(a, assemblyName) == piece + ReplaceWildcard(a[1..], assemblyName);
    } else {
      assert a + b == b;
    }
  }

  /** Each `*` in the path is replaced by exactly the assembly name, whatever surrounds it. */
  lemma EachWildcardBecomesAssemblyName(before: string, after: string, assemblyName: string)
    ensures ReplaceWildcard(before + [Wildcard] + after, assemblyName)
         == ReplaceWildcard(before, assemblyName) + assemblyName + ReplaceWildcard(after, assemblyName)
  {
    ReplaceWildcardDistributes(before + [Wildcard], after, assemblyName);
    ReplaceWildcardDistributes(before, [Wildcard], assemblyName);
    assert ReplaceWildcard([Wildcard], assemblyName) == assemblyName + ReplaceWildcard([], assemblyName);
  }

  /** The content that replaces a resource the lookup could not load. */
  function ErrorContent(message: string): (c: string)
    ensures |c| == |ErrorPrefix| + |message| + |ErrorSuffix|
    ensures c[..|ErrorPrefix|] == ErrorPrefix && c[|c| - |ErrorSuffix|..] == ErrorSuffix
    ensures c[|ErrorPrefix|..|c| - |ErrorSuffix|] == message
  {
    ErrorPrefix + message + ErrorSuffix
  }

  /** The message an error content carries, if `content` has that form. */
  function ParseErrorContent(content: string): Option<string>
  {
    if |content| >= |ErrorPrefix| + |ErrorSuffix|
       && content[..|ErrorPrefix|] == ErrorPrefix
       && content[|content| - |ErrorSuffix|..] == ErrorSuffix
    then Some(content[|ErrorPrefix|..|content| - |ErrorSuffix|])
    else None
  }

  /** The message of a failed lookup can be read back from the error content. */
  lemma ErrorContentRoundTrip(message: string)
    ensures ParseErrorContent(ErrorContent(message)) == Some(message)
  {
  }

  /** Only an error content parses, and it parses to the message it was built from. */
  lemma ParseErrorContentSound(content: string, message: string)
    requires ParseErrorContent(content) == Some(message)
    ensures content == ErrorContent(message)
  {
  }

  /** The text of a lookup, or the error content when the lookup failed. */
  function ResourceText(lookedUp: Result<string, string>): (r: string)
    ensures lookedUp.Success? ==> r == lookedUp.value
    ensures lookedUp.Failure? ==> ParseErrorContent(r) == Some(lookedUp.error)
  {
    match lookedUp
    case Success(text) => text
    case Failure(message) => ErrorContent(message)
  }

  /**
   * The three-argument `CreateStream`. `assemblyName` is the name of the
   * assembly `GetCallingAssembly` returns inside this call, and
   * `lookup(assemblyName, path, encoding)` reads the text of one of that
   * assembly's embedded resources, failing with the exception's message.
   */
  function CreateStream(kind: TestStreamType, encoding: Encoding, loadFrom: string,
                        assemblyName: string, lookup: (string, string, Encoding) -> Result<string, string>): (r: TestStream)
    ensures r.encoding == encoding
    ensures kind == Content ==> r.content == loadFrom
    ensures kind == EmbeddedResource ==>
      match lookup(assemblyName, ReplaceWildcard(loadFrom, assemblyName), encoding)
      case Success(text) => r.content == text
      case Failure(message) => r.content == ErrorContent(message)
  {
    var value :=
      match kind
      case EmbeddedResource => ResourceText(lookup(assemblyName, ReplaceWildcard(loadFrom, assemblyName), encoding))
      case _ => loadFrom;
    TestStream(encoding, value)
  }

  /**
   * `CreateStream(type)`: the three-argument call with UTF-8 and an empty
   * source. `assemblyName` and `lookup` stand for what `GetCallingAssembly`
   * returns inside that three-argument call, not for this overload's caller.
   */
  function CreateStreamOfType(kind: TestStreamType, assemblyName: string,
                              lookup: (string, string, Encoding) -> Result<string, string>): (r: TestStream)
    ensures r == CreateStream(kind, UTF8, "", assemblyName, lookup)
    ensures r.encoding == UTF8
    ensures kind == Content ==> r.content == ""
  {
    CreateStream(kind, UTF8, "", assemblyName, lookup)
  }

  /**
   * `CreateStream(type, encoding)`: the three-argument call with an empty
   * source. `assemblyName` and `lookup` stand for what `GetCallingAssembly`
   * returns inside that three-argument call, not for this overload's caller.
   */
  function CreateStreamWithEncoding(kind: TestStreamType, encoding: Encoding, assemblyName: string,
                                    lookup: (string, string, Encoding) -> Result<string, string>): (r: TestStream)
    ensures r == CreateStream(kind, encoding, "", assemblyName, lookup)
    ensures r.encoding == encoding
    ensures kind == Content ==> r.content == ""
  {
    CreateStream(kind, encoding, "", assemblyName, lookup)
  }

  /** A resource path without `*` reaches the lookup unchanged. */
  lemma PathWithoutWildcardIsLookedUpAsIs(encoding: Encoding, loadFrom: string, assemblyName: string,
                                          lookup: (string, string, Encoding) -> Result<string, string>)
    requires Wildcard !in loadFrom
    ensures CreateStream(EmbeddedResource, encoding, loadFrom, assemblyName, lookup).content
         == ResourceText(lookup(assemblyName, loadFrom, encoding))
  {
  }

  /**
   * A failed lookup yields a stream whose content starts with the error
   * prefix, ends with a quote and carries the message in between.
   */
  lemma FailedLookupBecomesContent(encoding: Encoding, loadFrom: string, assemblyName: string,
                                   lookup: (string, string, Encoding) -> Result<string, string>, message: string)
    requires lookup(assemblyName, ReplaceWildcard(loadFrom, assemblyName), encoding) == Failure(message)
    ensures var c := CreateStream(EmbeddedResource, encoding, loadFrom, assemblyName, lookup).content;
      |c| == |ErrorPrefix| + |message| + 1 && c[..|ErrorPrefix|] == ErrorPrefix &&
      c[|ErrorPrefix|..|c| - 1] == message && c[|c| - 1] == '\''
  {
  }
}
