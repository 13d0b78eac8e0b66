# deeplcmd: the decisions around the remote call

deeplcmd is a command-line client for the DeepL translation service. Its
`text` command translates a string and prints the result. Its `file` command
translates a document into an output path. All the real work is done by the
`deepl` SDK. What this project models is the small decision procedure that
runs before and around the single call to that service:

- the registry of 33 target-language codes and the case-insensitive check of
  a requested code (`TARGET_LANGUAGES`, `verify_target_language`);
- how the click group's `init` picks the key and stores it in the shared
  context object;
- the order of the steps in `text` and `file`: key guard, translator creation,
  language check, overwrite prompt (file mode only), remote call, mapping of the
  SDK's exceptions;
- the overwrite confirmation (`check_file_existence`).

The translation service is an adapter that is never run. Each command is a
function of its inputs and of what the environment would answer: whether the
output path exists, what the user types at the prompt, and whether the service
returns or raises. The result is a `Run`. It holds the trace of observable
steps (`NewTranslator`, `Prompt`, `TextCall`, `DocumentCall`) and how the
command ended: `Printed`, `Reported`, `Aborted(reason)` or `Raised(exception)`.

Files:

- `registry.dfy` (module `Registry`) holds the registry, Python-style
  upper-casing and the language check.
- `dispatch.dfy` (module `Dispatch`) holds key resolution, the overwrite gate,
  `translate_text`, `translate_file` and the two subcommands as pure functions.
- `properties.dfy` (module `DispatchProperties`) holds the ordering, guard,
  error-mapping and scenario theorems.
- `cli.dfy` (module `Cli`) holds the mutable click context `Context`, whose
  `Init` writes the key slot and whose `Text` and `File` read it back. It also
  holds the whole process (`Invoke`, specified by `Session`).

Four points where the code behaves differently from what one might expect:

- Every abort calls `sys.exit()` with no argument, so the process exits with
  status 0. The model records `Aborted(reason)` and says nothing about exit
  status.
- The translator object is created before the language check
  (deeplcmd.py:62-63 and deeplcmd.py:75-76). So an unsupported code still
  creates a translator, but it never reaches the remote call.
- `ValueError` is caught only in text mode. In file mode it escapes uncaught.
- There is no login command and no stored credential. A key comes only from
  `--key` or `--keyfile`.

## Model

| member | source | states |
|---|---|---|
| Registry.UpperChar | deeplcmd.py:55 | Python's upper case of one character: never empty, and the usual letter mapping on ASCII |
| Registry.Upper | deeplcmd.py:55 | Python's `str.upper` of a string (also used at lines 49, 65 and 82): it is empty only for the empty string and never shorter than its input |
| Registry.VerifyTargetLanguage | deeplcmd.py:54-58 | a code passes exactly when its upper case is a registry key; what it passes on is then in canonical upper-case form |
| Registry.RegistrySize | deeplcmd.py:6-40 | the registry holds exactly 33 distinct codes |
| Registry.RegistryCodesCanonical | deeplcmd.py:6-40 | every registry code is written in upper-case ASCII letters and hyphens |
| Registry.UpperIdempotent | deeplcmd.py:55 | upper-casing an already upper-cased code changes nothing |
| Registry.CaseInsensitive | deeplcmd.py:54-58 | a code and its upper case are accepted or refused together |
| Registry.RegistryCodesAccepted | deeplcmd.py:54-58 | every registry code is accepted as written |
| Registry.AcceptedAsciiIff | deeplcmd.py:54-58 | an ASCII code is accepted if and only if it equals some registry code up to letter case |
| Registry.LowerAndUpperAgree | deeplcmd.py:54-58 | "de" and "DE" are both accepted and upper-case to the same code |
| Registry.UnknownCodesRefused | deeplcmd.py:54-58 | "XX", and "en" with no variant, are refused |
| Registry.LigatureSpellsFinnish | deeplcmd.py:55 | Python's upper-casing turns the ligature U+FB01 into "FI", so it is accepted |
| Dispatch.ResolveKey | deeplcmd.py:96-101 | the key `init` chooses: a truthy `--key` wins, and a chosen key is always one of the two given values |
| Dispatch.Confirms | deeplcmd.py:49-50 | the answer upper-cased starts with 'Y'; an empty answer never confirms |
| Dispatch.CheckFileExistence | deeplcmd.py:47-51 | the prompt happens exactly when the path exists; the command goes on exactly when the path is absent or the answer confirms; no remote call happens |
| Dispatch.TranslateText | deeplcmd.py:61-71 | the translator is created first; one remote call happens exactly when the code is supported; an unsupported code aborts as not recognised |
| Dispatch.TranslateFile | deeplcmd.py:74-87 | the translator is created first; one remote call happens exactly when the code is supported and any overwrite is confirmed; an unsupported code aborts as not recognised |
| Dispatch.TextCommand | deeplcmd.py:109-114 | a missing or empty key aborts with "Key was not provided" and takes no step at all |
| Dispatch.FileCommand | deeplcmd.py:123-130 | a missing or empty key aborts with "Key was not provided" and takes no step at all |
| DispatchProperties.KeyPriority | deeplcmd.py:94-101 | a truthy `--key` wins; otherwise a given keyfile's contents are used; otherwise there is no key |
| DispatchProperties.EmptyKeyFallsThrough | deeplcmd.py:96-99 | an empty `--key` resolves as if no `--key` had been given |
| DispatchProperties.UsableKeyIff | deeplcmd.py:94-101 | the resolved key is non-empty exactly when `--key` or the keyfile supplies a non-empty value; it is always one of the two |
| DispatchProperties.ConfirmsIff | deeplcmd.py:49-50 | an answer confirms exactly when its first character is 'y', 'Y' or U+1E99; an empty answer never confirms |
| DispatchProperties.AnswerExamples | deeplcmd.py:49-50 | "y", "Y" and "yes" confirm; "n", "" and " y" do not |
| DispatchProperties.TextStepOrder | deeplcmd.py:61-65 | `text` takes its steps in the fixed order translator, call, and stops at the first failing guard: no step without a key, all steps exactly when the code is supported |
| DispatchProperties.FileStepOrder | deeplcmd.py:74-83 | `file` takes its steps in the fixed order translator, prompt (only if the output exists), document call, and stops at the first failing guard; all steps happen exactly when the code is supported and any overwrite is confirmed |
| DispatchProperties.TextCallIff | deeplcmd.py:61-65 | `text` calls the service exactly once if the key is usable and the code supported, and never otherwise |
| DispatchProperties.FileCallIff | deeplcmd.py:74-83 | `file` calls the service exactly once if the key is usable, the code supported and an existing output confirmed, and never otherwise |
| DispatchProperties.TextCallCarriesUpperCode | deeplcmd.py:65 | the text call receives the user's text and the upper-cased code, a registry key, never the raw code |
| DispatchProperties.FileCallCarriesUpperCode | deeplcmd.py:79-83 | the document call receives both paths and the upper-cased code, a registry key, never the raw code |
| DispatchProperties.PromptIff | deeplcmd.py:76-77 | the overwrite prompt appears exactly when the key is usable, the code supported and the output exists, so an unsupported code never prompts |
| DispatchProperties.NoCallIffEarlyAbort | deeplcmd.py:61-127 | a run makes no remote call exactly when it aborts on a pre-call guard: missing key, unknown language or, in file mode, declined overwrite |
| DispatchProperties.UnconsultedInputsIrrelevant | deeplcmd.py:47-51 | without a remote call the service's answer cannot change the run; without an existing output the user's answer cannot change it |
| DispatchProperties.TextCommandIgnoresCase | deeplcmd.py:61-65 | a code and its upper case give identical `text` runs; this holds because a run leaves out the abort message, which at line 56 prints the raw code |
| DispatchProperties.FileCommandIgnoresCase | deeplcmd.py:74-83 | a code and its upper case give identical `file` runs; this holds because a run leaves out the abort message, which at line 56 prints the raw code |
| DispatchProperties.EarlyAbortReasons | deeplcmd.py:74-79 | with a usable key, an unsupported code ends either run right after the translator with "not recognised", and a declined overwrite ends the file run right after the prompt with `OverwriteDeclined` |
| DispatchProperties.AuthorizationFailureAborts | deeplcmd.py:66-87 | an authorisation error from the service aborts with "Authentication Failure" in both modes |
| DispatchProperties.ValueErrorCaughtOnlyInTextMode | deeplcmd.py:69-71 | `ValueError` aborts with "Key must not be empty" in text mode and escapes uncaught in file mode |
| DispatchProperties.OtherExceptionsEscape | deeplcmd.py:64-87 | any other exception from the service escapes uncaught in both modes |
| DispatchProperties.SuccessReports | deeplcmd.py:114-130 | a successful call prints the translation in text mode and reports both paths in file mode |
| DispatchProperties.ScenarioTextRussian | deeplcmd.py:109-114 | `text -tl RU "Hello"` with a service answering "Привет" prints exactly that after one call with code "RU" |
| DispatchProperties.ScenarioTextUnknownCode | deeplcmd.py:61-65 | `text -tl XX "Hello"` aborts as not recognised and never calls the service |
| DispatchProperties.ScenarioFileDeclined | deeplcmd.py:47-51 | `file -tl DE in.txt out.txt` with out.txt present and the answer "n" aborts after the prompt with no document call |
| Cli.Context.constructor | deeplcmd.py:93-95 | a fresh click context has no user object yet |
| Cli.Context.EnsureObject | deeplcmd.py:95 | creates an empty dictionary when the context has none, and otherwise keeps the existing one |
| Cli.Context.Init | deeplcmd.py:94-101 | stores the key chosen by the priority `--key`, keyfile, none in the key slot and leaves the other slots unchanged |
| Cli.Context.Text | deeplcmd.py:109-114 | reads the stored key and runs the `text` command with it |
| Cli.Context.File | deeplcmd.py:123-130 | reads the stored key and runs the `file` command with it |
| Cli.Session | deeplcmd.py:89-134 | one process: resolve the key, then run the chosen subcommand with it; at most one remote call, and no step at all exactly when no usable key resolves |
| Cli.Invoke | deeplcmd.py:89-134 | a fresh context, `init`, then the chosen subcommand yield exactly the run `Session` specifies |
| Cli.ExplicitKeyWins | deeplcmd.py:96-97 | with a truthy `--key`, every translator receives that key and the keyfile has no effect |
| Cli.KeyfileUsed | deeplcmd.py:98-99 | without a truthy `--key`, a non-empty keyfile's contents are the key the translator receives |
| Cli.NoUsableKeyAborts | deeplcmd.py:110-113 | with neither source giving a non-empty key (including an empty keyfile), both subcommands abort with "Key was not provided" before any step |

## Left out

- The `deepl` SDK. The translator's constructor and its two translate methods are modelled only as recorded steps plus a parameter saying whether the call returns or raises. The constructor never fails in the model: the key is already non-empty when it runs, and no network is involved.
- Exceptions other than `AuthorizationException` and `ValueError` (other SDK errors, connection failures) appear as one `OtherException(name)`. They escape uncaught in both modes.
- click: option and argument parsing, the interactive prompt for a missing target language, `secho` colours and message text beyond the abort reason. The printed language table on an unknown code is also left out, and so is the raw code echoed in the "not recognised" message (deeplcmd.py:56).
- click's path checks: `Path(exists=True, dir_okay=False)` on the input file and `Path(dir_okay=False, writable=True)` on the output path (deeplcmd.py:120-121). Click refuses a missing input, a directory or an unwritable output before `file` runs, so before the prompt the model would issue; the model takes every path as accepted.
- Console and filesystem access. The answer typed at `input()` and whether the output path exists are parameters. End of input or an interrupt at the prompt is not modelled.
- Reading the keyfile: its contents are a parameter, used verbatim, trailing newline included.
- Process exit status: `sys.exit()` without an argument exits with status 0, and the model makes no claim about it.
- The success path merges two steps into one `Printed` or `Reported` outcome: the helper's return (the translation, or `True`) and the subcommand's echo of it.
- Registry.UpperChar: `str.upper` is modelled for ASCII and for the non-ASCII characters whose upper case is all ASCII (ß, ı, ſ, the Latin ligatures U+FB00-U+FB06) or starts with 'Y' (U+1E99). Every other character is kept as it is, while Python may map it to another non-ASCII character. All registry codes are ASCII and the prompt checks only for 'Y', so these differences change no decision the model makes.
- A login command and a stored credential file: deeplcmd.py has neither.
- setup.py: packaging metadata with no logic.
