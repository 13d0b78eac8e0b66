/** The click command group: `init` resolves the key and stores it in the
    context object shared with the subcommands, and `text` and `file` read it
    back before doing anything else. */
module Cli {
  import opened Registry
  import opened Dispatch

  /** The slot of the context object that holds the key. */
  const KeySlot: string := "KEY"

  /** click's context object, seen only through its user object `obj`, which is
      absent until `ensure_object` creates an empty dictionary. */
  class Context {
    var obj: Option<map<string, Option<string>>>

    constructor ()
      ensures obj == None
    {
      obj := None;
    }

    /** `ctx.ensure_object(dict)`: creates the dictionary unless there is one. */
    method EnsureObject()
      modifies this
      ensures obj == if old(obj).None? then Some(map[]) else old(obj)
    {
      if obj.None? {
        obj := Some(map[]);
      }
    }

    /** `init`: stores the resolved key, leaving every other slot as it was. */
    method Init(key: Option<string>, keyfile: Option<string>)
      modifies this
      ensures obj.Some?
      ensures obj.value == (if old(obj).Some? then old(obj).value else map[])[KeySlot := ResolveKey(key, keyfile)]
    {
      EnsureObject();
      if Truthy(key) {
        obj := Some(obj.value[KeySlot := key]);
      } else if keyfile.Some? {
        obj := Some(obj.value[KeySlot := keyfile]);
      } else {
        obj := Some(obj.value[KeySlot := None]);
      }
    }

    /** The `text` subcommand: reads the stored key and runs the command with it. */
    method Text(targetLanguage: string, text: string, reply: Reply<string>) returns (run: Run)
      requires obj.Some? && KeySlot in obj.value
      ensures run == TextCommand(obj.value[KeySlot], targetLanguage, text, reply)
    {
      var key := obj.value[KeySlot];
      run := TextCommand(key, targetLanguage, text, reply);
    }

    /** The `file` subcommand: reads the stored key and runs the command with it. */
    method File(targetLanguage: string, inputPath: string, outputPath: string,
                outputExists: bool, answer: string, reply: Reply<()>) returns (run: Run)
      requires obj.Some? && KeySlot in obj.value
      ensures run == FileCommand(obj.value[KeySlot], targetLanguage, inputPath, outputPath, outputExists, answer, reply)
    {
      var key := obj.value[KeySlot];
      run := FileCommand(key, targetLanguage, inputPath, outputPath, outputExists, answer, reply);
    }
  }

  /** The subcommand and its arguments as given on the command line. */
  datatype Invocation =
    | TextInvocation(targetLanguage: string, text: string)
    | FileInvocation(targetLanguage: string, inputPath: string, outputPath: string)

  /** What the world would answer: whether the output path exists, what the
      user types at the overwrite prompt, and what the service does. */
  datatype Environment = Environment(outputExists: bool, answer: string,
                                     textReply: Reply<string>, documentReply: Reply<()>)

  /** One process: the group resolves the key from the global options, then
      the chosen subcommand runs with it. */
  function Session(key: Option<string>, keyfile: Option<string>, invocation: Invocation, env: Environment): (r: Run)
    ensures RemoteCalls(r.trace) <= 1
    ensures r.trace == [] <==> !Truthy(ResolveKey(key, keyfile))
  {
    var resolved := ResolveKey(key, keyfile);
    match invocation
    case TextInvocation(targetLanguage, text) =>
      TextCommand(resolved, targetLanguage, text, env.textReply)
    case FileInvocation(targetLanguage, inputPath, outputPath) =>
      FileCommand(resolved, targetLanguage, inputPath, outputPath, env.outputExists, env.answer, env.documentReply)
  }

  /** Running the program: a fresh context, `init`, then the subcommand. */
  method Invoke(key: Option<string>, keyfile: Option<string>, invocation: Invocation, env: Environment)
    returns (run: Run)
    ensures run == Session(key, keyfile, invocation, env)
  {
    var ctx := new Context();
    ctx.Init(key, keyfile);
    match invocation
    case TextInvocation(targetLanguage, text) =>
      run := ctx.Text(targetLanguage, text, env.textReply);
    case FileInvocation(targetLanguage, inputPath, outputPath) =>
      run := ctx.File(targetLanguage, inputPath, outputPath, env.outputExists, env.answer, env.documentReply);
  }

  /** The key every created translator receives. */
  predicate TranslatorsUse(trace: seq<Event>, key: string) {
    forall e | e in trace && e.NewTranslator? :: e.key == key
  }

  /** An explicit truthy `--key` is what the translator receives, whatever keyfile is given. */
  lemma ExplicitKeyWins(key: Option<string>, keyfile: Option<string>, invocation: Invocation, env: Environment)
    requires Truthy(key)
    ensures TranslatorsUse(Session(key, keyfile, invocation, env).trace, key.value)
    ensures Session(key, keyfile, invocation, env) == Session(key, None, invocation, env)
  {
    match invocation
    case TextInvocation(_, _) =>
    case FileInvocation(_, _, _) =>
  }

  /** Without a truthy `--key`, a non-empty keyfile's contents are the key. */
  lemma KeyfileUsed(key: Option<string>, contents: string, invocation: Invocation, env: Environment)
    requires !Truthy(key) && contents != ""
    ensures TranslatorsUse(Session(key, Some(contents), invocation, env).trace, contents)
    ensures Session(key, Some(contents), invocation, env) == Session(Some(contents), None, invocation, env)
  {
    match invocation
    case TextInvocation(_, _) =>
    case FileInvocation(_, _, _) =>
  }

  /** Without a usable key from either source, the process aborts with "Key
      was not provided" before creating a translator, in both subcommands. */
  lemma NoUsableKeyAborts(key: Option<string>, keyfile: Option<string>, invocation: Invocation, env: Environment)
    requires !Truthy(key) && !Truthy(keyfile)
    ensures Session(key, keyfile, invocation, env) == Run([], Aborted(KeyNotProvided))
  {
  }
}
