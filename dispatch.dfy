/** The decision procedure deeplcmd runs around its single remote call: key
    resolution, the overwrite prompt and the text and file commands. Each
    command is a function of its inputs and of what the environment would
    answer; the run it produces records, in order, every observable step
    (creating the translator, prompting, calling the translation service)
    together with how the command ends. */
module Dispatch {
  import opened Registry

  datatype Option<T> = None | Some(value: T)

  /** The exceptions a call into the translation SDK can raise. */
  datatype Exc = AuthorizationException | ValueError | OtherException(name: string)

  /** What one call into the translation service does: return or raise. */
  datatype Reply<T> = Returns(value: T) | Throws(exc: Exc)

  /** Why a command aborted (each abort prints a message and calls `sys.exit()`). */
  datatype Reason =
    | KeyNotProvided          // "Key was not provided"
    | LanguageNotRecognised   // "Target language ... is not recognised."
    | OverwriteDeclined       // the overwrite answer does not start with 'Y'
    | AuthenticationFailure   // "Authentication Failure. Check API key"
    | KeyMustNotBeEmpty       // "Key must not be empty"

  /** How a command ends. */
  datatype Outcome =
    | Printed(translation: string)                     // `text` echoes the translation
    | Reported(inputPath: string, outputPath: string)  // `file` reports both paths
    | Aborted(reason: Reason)
    | Raised(exc: Exc)                                 // an exception nobody catches

  /** One observable step of a command. */
  datatype Event =
    | NewTranslator(key: string)
    | Prompt(path: string)
    | TextCall(text: string, targetLang: string)
    | DocumentCall(inputPath: string, outputPath: string, targetLang: string)
  {
    /** A call that reaches the translation service. */
    predicate IsRemoteCall() {
      TextCall? || DocumentCall?
    }
  }

  datatype Run = Run(trace: seq<Event>, outcome: Outcome)

  /** The number of calls to the translation service in a trace. */
  function RemoteCalls(trace: seq<Event>): nat {
    if trace == [] then 0
    else (if trace[0].IsRemoteCall() then 1 else 0) + RemoteCalls(trace[1..])
  }

  lemma {:induction false} RemoteCallsAppend(a: seq<Event>, b: seq<Event>)
    ensures RemoteCalls(a + b) == RemoteCalls(a) + RemoteCalls(b)
  {
    if a == [] {
      assert a + b == b;
    } else {
      assert (a + b)[1..] == a[1..] + b;
      RemoteCallsAppend(a[1..], b);
    }
  }

  /** Python truthiness of an optional string: present and non-empty. */
  predicate Truthy(s: Option<string>) {
    s.Some? && s.value != ""
  }

  /** The key `init` stores: a truthy `--key`, else the contents of a given
      `--keyfile` (a file object is always truthy, so even an empty file is
      chosen), else nothing. */
  function ResolveKey(key: Option<string>, keyfile: Option<string>): (r: Option<string>)
    ensures Truthy(key) ==> r == key
    ensures r.Some? ==> r == key || r == keyfile
  {
    if Truthy(key) then key
    else if keyfile.Some? then keyfile
    else None
  }

  /** The first character of the upper-cased answer is 'Y'. */
  predicate Confirms(answer: string): (ok: bool)
    ensures ok ==> answer != []
  {
    var u := Upper(answer);
    |u| > 0 && u[0] == 'Y'
  }

  /** The steps `check_file_existence` takes and whether the command goes on. */
  datatype Gate = Gate(trace: seq<Event>, passed: bool)

  /** `check_file_existence`: prompts only for an existing path and lets the
      command go on only on a confirming answer. */
  function CheckFileExistence(path: string, pathExists: bool, answer: string): (g: Gate)
    ensures g.passed <==> !pathExists || Confirms(answer)
    ensures RemoteCalls(g.trace) == 0
    ensures Prompt(path) in g.trace <==> pathExists
  {
    if pathExists then Gate([Prompt(path)], Confirms(answer)) else Gate([], true)
  }

  /** `translate_text`: creates the translator, checks the code, makes the
      call with the upper-cased code and maps its exceptions. */
  function TranslateText(targetLang: string, text: string, key: string, reply: Reply<string>): (r: Run)
    ensures |r.trace| > 0 && r.trace[0] == NewTranslator(key)
    ensures RemoteCalls(r.trace) == if VerifyTargetLanguage(targetLang) then 1 else 0
    ensures !VerifyTargetLanguage(targetLang) ==> r.outcome == Aborted(LanguageNotRecognised)
  {
    var created := [NewTranslator(key)];
    if !VerifyTargetLanguage(targetLang) then
      Run(created, Aborted(LanguageNotRecognised))
    else
      var called := created + [TextCall(text, Upper(targetLang))];
      RemoteCallsAppend(created, [TextCall(text, Upper(targetLang))]);
      match reply
      case Returns(translation) => Run(called, Printed(translation))
      case Throws(AuthorizationException) => Run(called, Aborted(AuthenticationFailure))
      case Throws(ValueError) => Run(called, Aborted(KeyMustNotBeEmpty))
      case Throws(OtherException(name)) => Run(called, Raised(OtherException(name)))
  }

  /** `translate_file`: creates the translator, checks the code, asks before
      overwriting, makes the call with the upper-cased code and maps an
      authorisation failure; any other exception propagates. */
  function TranslateFile(targetLang: string, key: string, inputPath: string, outputPath: string,
                         outputExists: bool, answer: string, reply: Reply<()>): (r: Run)
    ensures |r.trace| > 0 && r.trace[0] == NewTranslator(key)
    ensures RemoteCalls(r.trace) ==
            if VerifyTargetLanguage(targetLang) && (!outputExists || Confirms(answer)) then 1 else 0
    ensures !VerifyTargetLanguage(targetLang) ==> r.outcome == Aborted(LanguageNotRecognised)
  {
    var created := [NewTranslator(key)];
    if !VerifyTargetLanguage(targetLang) then
      Run(created, Aborted(LanguageNotRecognised))
    else
      var gate := CheckFileExistence(outputPath, outputExists, answer);
      var asked := created + gate.trace;
      if !gate.passed then
        Run(asked, Aborted(OverwriteDeclined))
      else
        var called := asked + [DocumentCall(inputPath, outputPath, Upper(targetLang))];
        RemoteCallsAppend(asked, [DocumentCall(inputPath, outputPath, Upper(targetLang))]);
        RemoteCallsAppend(created, gate.trace);
        match reply
        case Returns(_) => Run(called, Reported(inputPath, outputPath))
        case Throws(AuthorizationException) => Run(called, Aborted(AuthenticationFailure))
        case Throws(exc) => Run(called, Raised(exc))
  }

  /** The `text` command given the key `init` stored. */
  function TextCommand(key: Option<string>, targetLang: string, text: string, reply: Reply<string>): (r: Run)
    ensures !Truthy(key) ==> r == Run([], Aborted(KeyNotProvided))
  {
    if !Truthy(key) then Run([], Aborted(KeyNotProvided))
    else TranslateText(targetLang, text, key.value, reply)
  }

  /** The `file` command given the key `init` stored. */
  function FileCommand(key: Option<string>, targetLang: string, inputPath: string, outputPath: string,
                       outputExists: bool, answer: string, reply: Reply<()>): (r: Run)
    ensures !Truthy(key) ==> r == Run([], Aborted(KeyNotProvided))
  {
    if !Truthy(key) then Run([], Aborted(KeyNotProvided))
    else TranslateFile(targetLang, key.value, inputPath, outputPath, outputExists, answer, reply)
  }
}
