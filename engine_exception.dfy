/** The engine's exception hierarchy (EngineException.hpp): every exception
    carries the `what()` text built by its constructor; each subclass puts
    its own fixed prefix in front of the caller's message, and
    `ResourceNotFoundException` also keeps the resource's type and name. */
module EngineExceptions {
  import opened Wrappers

  /** The class an exception was constructed as. */
  datatype Kind =
    | Base              // EngineException itself
    | Configuration
    | ResourceNotFound
    | Script
    | Render
    | Audio
    | Physics

  /** An exception object: its class, `what()`, and the fields only
      `ResourceNotFoundException` has (empty for the other classes). */
  datatype EngineException = EngineException(
    kind: Kind,
    what: string,
    resourceType: string,
    resourceName: string)

  /** The text each class puts in front of the message it is given. */
  function Prefix(k: Kind): string
  {
    match k
    case Base => ""
    case Configuration => "Configuration error: "
    case ResourceNotFound => "Resource not found: "
    case Script => "Script error: "
    case Render => "Render error: "
    case Audio => "Audio error: "
    case Physics => "Physics error: "
  }

  /** Every one-argument constructor: `EngineException(message)`,
      `ConfigurationException(message)`, `ResourceNotFoundException(message)`,
      `ScriptException`, `RenderException`, `AudioException` and
      `PhysicsException`.  The message follows the class's prefix; the
      resource fields are empty. */
  function FromMessage(k: Kind, message: string): (e: EngineException)
    ensures e.kind == k
    ensures |e.what| == |Prefix(k)| + |message|
    ensures e.what[..|Prefix(k)|] == Prefix(k) && e.what[|Prefix(k)|..] == message
    ensures e.resourceType == "" && e.resourceName == ""
  {
    EngineException(k, Prefix(k) + message, "", "")
  }

  /** `ResourceNotFoundException(resourceType, resourceName)`: the message
      names the type and then the quoted name; the getters return both. */
  function ResourceNotFoundException(resourceType: string, resourceName: string): (e: EngineException)
    ensures e.kind == ResourceNotFound
    ensures e.what == FromMessage(ResourceNotFound, resourceType + " '" + resourceName + "'").what
    ensures GetResourceType(e) == resourceType && GetResourceName(e) == resourceName
  {
    EngineException(ResourceNotFound,
                    Prefix(ResourceNotFound) + resourceType + " '" + resourceName + "'",
                    resourceType, resourceName)
  }

  /** `ResourceNotFoundException::GetResourceType`. */
  function GetResourceType(e: EngineException): string
  {
    e.resourceType
  }

  /** `ResourceNotFoundException::GetResourceName`. */
  function GetResourceName(e: EngineException): string
  {
    e.resourceName
  }

  /** The class a `what()` text names by its prefix, if any.  Used only to
      state that the prefixes tell the classes apart. */
  function Classify(what: string): Option<Kind>
  {
    if HasPrefix(what, Prefix(Configuration)) then Some(Configuration)
    else if HasPrefix(what, Prefix(ResourceNotFound)) then Some(ResourceNotFound)
    else if HasPrefix(what, Prefix(Script)) then Some(Script)
    else if HasPrefix(what, Prefix(Render)) then Some(Render)
    else if HasPrefix(what, Prefix(Audio)) then Some(Audio)
    else if HasPrefix(what, Prefix(Physics)) then Some(Physics)
    else None
  }

  predicate HasPrefix(s: string, p: string)
  {
    |p| <= |s| && s[..|p|] == p
  }

  /** No subclass prefix starts another one, so a message built by one class
      never carries another class's prefix. */
  lemma PrefixesDisjoint(a: Kind, b: Kind, m: string)
    requires a != Base && b != Base && a != b
    ensures !HasPrefix(Prefix(a) + m, Prefix(b))
  {
    var s, pa, pb := Prefix(a) + m, Prefix(a), Prefix(b);
    assert pa[0] != pb[0] || pa[2] != pb[2];
    assert s[0] == pa[0] && s[2] == pa[2];
    assert |pb| > 2;
  }

  /** The class and the original message can be read back from what any
      subclass's one-argument constructor builds. */
  lemma {:induction false} MessageRoundTrip(k: Kind, message: string)
    requires k != Base
    ensures Classify(FromMessage(k, message).what) == Some(k)
    ensures FromMessage(k, message).what[|Prefix(k)|..] == message
  {
    var w := FromMessage(k, message).what;
    assert HasPrefix(w, Prefix(k));
    forall b | b != Base && b != k
      ensures !HasPrefix(w, Prefix(b))
    {
      PrefixesDisjoint(k, b, message);
    }
  }

  /** The two-argument form classifies as a missing resource and its message
      part is the type, a space and the name in single quotes. */
  lemma ResourceMessage(resourceType: string, resourceName: string)
    ensures Classify(ResourceNotFoundException(resourceType, resourceName).what) == Some(ResourceNotFound)
    ensures ResourceNotFoundException(resourceType, resourceName).what[|Prefix(ResourceNotFound)|..]
            == resourceType + " '" + resourceName + "'"
  {
    MessageRoundTrip(ResourceNotFound, resourceType + " '" + resourceName + "'");
  }

  /** What `main` does with an exception that reaches it: the fatal log line
      it writes and the process exit status it returns. */
  datatype Exit = Exit(logged: string, status: int)

  const EngineErrorLead: string := "Engine error: "
  const UnexpectedErrorLead: string := "Unexpected error: "

  /** The `catch (const EngineException&)` of main.cpp:115-119: the exception's
      text is logged after a fixed lead and `main` returns 1. */
  function OnEngineError(e: EngineException): (x: Exit)
    ensures x.status == 1
    ensures HasPrefix(x.logged, EngineErrorLead) && x.logged[|EngineErrorLead|..] == e.what
  {
    Exit(EngineErrorLead + e.what, 1)
  }

  /** The `catch (const std::exception&)` of main.cpp:120-124, given the
      exception's `what()`. */
  function OnUnexpectedError(what: string): (x: Exit)
    ensures x.status == 1
    ensures HasPrefix(x.logged, UnexpectedErrorLead) && x.logged[|UnexpectedErrorLead|..] == what
  {
    Exit(UnexpectedErrorLead + what, 1)
  }

  /** From the fatal log line of a subclass's exception, the class and the
      caller's message can be read back, and the engine exits with status 1. */
  lemma FatalLineReadsBack(k: Kind, message: string)
    requires k != Base
    ensures var x := OnEngineError(FromMessage(k, message));
      && x.status == 1
      && Classify(x.logged[|EngineErrorLead|..]) == Some(k)
      && x.logged[|EngineErrorLead| + |Prefix(k)|..] == message
  {
    var x := OnEngineError(FromMessage(k, message));
    MessageRoundTrip(k, message);
    assert x.logged[|EngineErrorLead|..][|Prefix(k)|..] == x.logged[|EngineErrorLead| + |Prefix(k)|..];
  }

  /** The two handlers never write the same line: an engine error can be
      told from any other exception in the log. */
  lemma FatalLinesDiffer(e: EngineException, what: string)
    ensures OnEngineError(e).logged != OnUnexpectedError(what).logged
  {
    assert OnEngineError(e).logged[0] == 'E' && OnUnexpectedError(what).logged[0] == 'U';
  }
}
