/** What the text and file commands guarantee before, around and after their
    single call to the translation service. */
module DispatchProperties {
  import opened Registry
  import opened Dispatch

  /** --- Key resolution --- */

  /** A truthy `--key` wins over any `--keyfile`; otherwise a given keyfile's
      contents are used, even when empty; otherwise there is no key. */
  lemma KeyPriority(key: Option<string>, keyfile: Option<string>)
    ensures Truthy(key) ==> ResolveKey(key, keyfile) == key
    ensures !Truthy(key) && keyfile.Some? ==> ResolveKey(key, keyfile) == keyfile
    ensures !Truthy(key) && keyfile.None? ==> ResolveKey(key, keyfile) == None
  {
  }

  /** An empty `--key` is not a key: the keyfile is consulted as if no
      `--key` had been given. */
  lemma EmptyKeyFallsThrough(keyfile: Option<string>)
    ensures ResolveKey(Some(""), keyfile) == ResolveKey(None, keyfile)
  {
  }

  /** The resolved key is usable exactly when one of the two sources, taken in
      order, supplies a non-empty value; an empty keyfile yields an unusable key. */
  lemma UsableKeyIff(key: Option<string>, keyfile: Option<string>)
    ensures Truthy(ResolveKey(key, keyfile)) <==> Truthy(key) || Truthy(keyfile)
    ensures ResolveKey(key, keyfile).Some? ==> ResolveKey(key, keyfile) in {key, keyfile}
  {
  }

  /** --- The overwrite prompt --- */

  /** An answer confirms exactly when its first character upper-cases to a
      string starting with 'Y': 'y', 'Y' or U+1E99 (y with ring above). An
      empty answer never confirms. */
  lemma ConfirmsIff(answer: string)
    ensures Confirms(answer) <==>
            |answer| > 0 && (answer[0] == 'y' || answer[0] == 'Y' || answer[0] == '\U{1E99}')
  {
  }

  /** Typical answers: "y", "Y", "yes" confirm; "n", "", " y" do not. */
  lemma AnswerExamples()
    ensures Confirms("y") && Confirms("Y") && Confirms("yes")
    ensures !Confirms("n") && !Confirms("") && !Confirms(" y")
  {
  }

  /** --- The order of the steps --- */

  /** Every step `text` can take, in the order it takes them. */
  function TextSteps(key: string, targetLang: string, text: string): seq<Event> {
    [NewTranslator(key), TextCall(text, Upper(targetLang))]
  }

  /** Every step `file` can take, in the order it takes them. */
  function FileSteps(key: string, targetLang: string, inputPath: string, outputPath: string,
                     outputExists: bool): seq<Event> {
    [NewTranslator(key)] + (if outputExists then [Prompt(outputPath)] else [])
      + [DocumentCall(inputPath, outputPath, Upper(targetLang))]
  }

  /** `text` takes its steps in order and stops at the first failing guard:
      nothing at all without a usable key, and the whole sequence exactly when
      the key is usable and the code supported. */
  lemma TextStepOrder(key: Option<string>, targetLang: string, text: string, reply: Reply<string>)
    ensures var r := TextCommand(key, targetLang, text, reply);
            (r.trace == [] <==> !Truthy(key)) &&
            (Truthy(key) ==> r.trace <= TextSteps(key.value, targetLang, text)) &&
            (Truthy(key) ==> (r.trace == TextSteps(key.value, targetLang, text) <==> VerifyTargetLanguage(targetLang)))
  {
  }

  /** `file` takes its steps in order and stops at the first failing guard:
      the translator is created first, the prompt (if the output exists) comes
      next and the document call last, and the whole sequence is taken exactly
      when the key is usable, the code supported and any overwrite confirmed. */
  lemma FileStepOrder(key: Option<string>, targetLang: string, inputPath: string, outputPath: string,
                      outputExists: bool, answer: string, reply: Reply<()>)
    ensures var r := FileCommand(key, targetLang, inputPath, outputPath, outputExists, answer, reply);
            (r.trace == [] <==> !Truthy(key)) &&
            (Truthy(key) ==> r.trace <= FileSteps(key.value, targetLang, inputPath, outputPath, outputExists)) &&
            (Truthy(key) ==>
               (r.trace == FileSteps(key.value, targetLang, inputPath, outputPath, outputExists) <==>
                VerifyTargetLanguage(targetLang) && (!outputExists || Confirms(answer))))
  {
  }

  /** --- Guards before the remote call --- */

  /** `text` calls the translation service once when the key is usable and the
      code supported, and never otherwise. */
  lemma TextCallIff(key: Option<string>, targetLang: string, text: string, reply: Reply<string>)
    ensures RemoteCalls(TextCommand(key, targetLang, text, reply).trace) ==
            if Truthy(key) && VerifyTargetLanguage(targetLang) then 1 else 0
  {
  }

  /** `file` calls the translation service once when the key is usable, the
      code supported and an existing output confirmed, and never otherwise. */
  lemma FileCallIff(key: Option<string>, targetLang: string, inputPath: string, outputPath: string,
                    outputExists: bool, answer: string, reply: Reply<()>)
    ensures RemoteCalls(FileCommand(key, targetLang, inputPath, outputPath, outputExists, answer, reply).trace) ==
            if Truthy(key) && VerifyTargetLanguage(targetLang) && (!outputExists || Confirms(answer)) then 1 else 0
  {
  }

  /** In text mode the service only ever sees the user's text and the
      upper-cased code, which is a registry key. */
  lemma TextCallCarriesUpperCode(key: Option<string>, targetLang: string, text: string, reply: Reply<string>)
    ensures forall e | e in TextCommand(key, targetLang, text, reply).trace && e.IsRemoteCall() ::
              e == TextCall(text, Upper(targetLang)) && e.targetLang in TargetLanguages
  {
  }

  /** In file mode the service only ever sees the user's two paths and the
      upper-cased code, which is a registry key. */
  lemma FileCallCarriesUpperCode(key: Option<string>, targetLang: string, inputPath: string, outputPath: string,
                                 outputExists: bool, answer: string, reply: Reply<()>)
    ensures forall e | e in FileCommand(key, targetLang, inputPath, outputPath, outputExists, answer, reply).trace
                       && e.IsRemoteCall() ::
              e == DocumentCall(inputPath, outputPath, Upper(targetLang)) && e.targetLang in TargetLanguages
  {
  }

  /** An unsupported code never reaches the overwrite prompt; the prompt
      appears exactly when the key is usable, the code supported and the
      output exists. */
  lemma PromptIff(key: Option<string>, targetLang: string, inputPath: string, outputPath: string,
                  outputExists: bool, answer: string, reply: Reply<()>)
    ensures var trace := FileCommand(key, targetLang, inputPath, outputPath, outputExists, answer, reply).trace;
            (Prompt(outputPath) in trace <==> Truthy(key) && VerifyTargetLanguage(targetLang) && outputExists) &&
            (forall e | e in trace && e.Prompt? :: e == Prompt(outputPath))
  {
  }

  /** A run makes no remote call exactly when it aborts on one of the guards
      that precede the call, in either mode. */
  lemma NoCallIffEarlyAbort(key: Option<string>, targetLang: string, text: string, inputPath: string,
                            outputPath: string, outputExists: bool, answer: string,
                            textReply: Reply<string>, documentReply: Reply<()>)
    ensures var r := TextCommand(key, targetLang, text, textReply);
            RemoteCalls(r.trace) == 0 <==>
              r.outcome in {Aborted(KeyNotProvided), Aborted(LanguageNotRecognised)}
    ensures var r := FileCommand(key, targetLang, inputPath, outputPath, outputExists, answer, documentReply);
            RemoteCalls(r.trace) == 0 <==>
              r.outcome in {Aborted(KeyNotProvided), Aborted(LanguageNotRecognised), Aborted(OverwriteDeclined)}
  {
  }

  /** Without a remote call the service's behaviour cannot matter, and without
      an existing output the user's answer cannot matter. */
  lemma UnconsultedInputsIrrelevant(key: Option<string>, targetLang: string, text: string, inputPath: string,
                                    outputPath: string, answer: string, answer': string,
                                    textReply: Reply<string>, textReply': Reply<string>,
                                    documentReply: Reply<()>, documentReply': Reply<()>)
    ensures !(Truthy(key) && VerifyTargetLanguage(targetLang)) ==>
            TextCommand(key, targetLang, text, textReply) == TextCommand(key, targetLang, text, textReply')
    ensures !(Truthy(key) && VerifyTargetLanguage(targetLang) && Confirms(answer)) ==>
            FileCommand(key, targetLang, inputPath, outputPath, true, answer, documentReply) ==
            FileCommand(key, targetLang, inputPath, outputPath, true, answer, documentReply')
    ensures FileCommand(key, targetLang, inputPath, outputPath, false, answer, documentReply) ==
            FileCommand(key, targetLang, inputPath, outputPath, false, answer', documentReply)
  {
  }

  /** A code and its upper case give identical `text` runs (the abort
      message, which echoes the raw code, is not part of a run). */
  lemma TextCommandIgnoresCase(key: Option<string>, targetLang: string, text: string, reply: Reply<string>)
    ensures TextCommand(key, targetLang, text, reply) == TextCommand(key, Upper(targetLang), text, reply)
  {
    if Truthy(key) {
      var u := Upper(targetLang);
      UpperIdempotent(targetLang);
      assert Upper(u) == u;
      assert TranslateText(targetLang, text, key.value, reply) == TranslateText(u, text, key.value, reply);
    }
  }

  /** A code and its upper case give identical `file` runs (the abort
      message, which echoes the raw code, is not part of a run). */
  lemma FileCommandIgnoresCase(key: Option<string>, targetLang: string, inputPath: string, outputPath: string,
                               outputExists: bool, answer: string, reply: Reply<()>)
    ensures FileCommand(key, targetLang, inputPath, outputPath, outputExists, answer, reply) ==
            FileCommand(key, Upper(targetLang), inputPath, outputPath, outputExists, answer, reply)
  {
    if Truthy(key) {
      var u := Upper(targetLang);
      UpperIdempotent(targetLang);
      assert Upper(u) == u;
      assert TranslateFile(targetLang, key.value, inputPath, outputPath, outputExists, answer, reply) ==
             TranslateFile(u, key.value, inputPath, outputPath, outputExists, answer, reply);
    }
  }

  /** Each guard that fails ends the run at once with its own reason: an
      unsupported code right after the translator is created, in both modes,
      and a declined overwrite right after the prompt. */
  lemma EarlyAbortReasons(key: Option<string>, targetLang: string, text: string, inputPath: string,
                          outputPath: string, outputExists: bool, answer: string,
                          textReply: Reply<string>, documentReply: Reply<()>)
    requires Truthy(key)
    ensures !VerifyTargetLanguage(targetLang) ==>
            TextCommand(key, targetLang, text, textReply) == Run([NewTranslator(key.value)], Aborted(LanguageNotRecognised))
    ensures !VerifyTargetLanguage(targetLang) ==>
            FileCommand(key, targetLang, inputPath, outputPath, outputExists, answer, documentReply) ==
            Run([NewTranslator(key.value)], Aborted(LanguageNotRecognised))
    ensures VerifyTargetLanguage(targetLang) && outputExists && !Confirms(answer) ==>
            FileCommand(key, targetLang, inputPath, outputPath, outputExists, answer, documentReply) ==
            Run([NewTranslator(key.value), Prompt(outputPath)], Aborted(OverwriteDeclined))
  {
  }

  /** --- What follows the remote call --- */

  /** An authorisation failure aborts with "Authentication Failure" in both modes. */
  lemma AuthorizationFailureAborts(key: Option<string>, targetLang: string, text: string, inputPath: string,
                                   outputPath: string, outputExists: bool, answer: string)
    requires Truthy(key) && VerifyTargetLanguage(targetLang)
    ensures TextCommand(key, targetLang, text, Throws(AuthorizationException)).outcome == Aborted(AuthenticationFailure)
    ensures !outputExists || Confirms(answer) ==>
            FileCommand(key, targetLang, inputPath, outputPath, outputExists, answer, Throws(AuthorizationException)).outcome
              == Aborted(AuthenticationFailure)
  {
  }

  /** `ValueError` is mapped to "Key must not be empty" in text mode only; in
      file mode it escapes uncaught, like every other exception but the
      authorisation failure. */
  lemma ValueErrorCaughtOnlyInTextMode(key: Option<string>, targetLang: string, text: string, inputPath: string,
                                       outputPath: string, outputExists: bool, answer: string)
    requires Truthy(key) && VerifyTargetLanguage(targetLang)
    ensures TextCommand(key, targetLang, text, Throws(ValueError)).outcome == Aborted(KeyMustNotBeEmpty)
    ensures !outputExists || Confirms(answer) ==>
            FileCommand(key, targetLang, inputPath, outputPath, outputExists, answer, Throws(ValueError)).outcome
              == Raised(ValueError)
  {
  }

  /** Exceptions outside the handled ones escape in both modes. */
  lemma OtherExceptionsEscape(key: Option<string>, targetLang: string, text: string, inputPath: string,
                              outputPath: string, outputExists: bool, answer: string, name: string)
    requires Truthy(key) && VerifyTargetLanguage(targetLang)
    ensures TextCommand(key, targetLang, text, Throws(OtherException(name))).outcome == Raised(OtherException(name))
    ensures !outputExists || Confirms(answer) ==>
            FileCommand(key, targetLang, inputPath, outputPath, outputExists, answer, Throws(OtherException(name))).outcome
              == Raised(OtherException(name))
  {
  }

  /** A successful call prints the translation in text mode and reports both
      paths in file mode. */
  lemma SuccessReports(key: Option<string>, targetLang: string, text: string, translation: string,
                       inputPath: string, outputPath: string, outputExists: bool, answer: string)
    requires Truthy(key) && VerifyTargetLanguage(targetLang)
    ensures TextCommand(key, targetLang, text, Returns(translation)).outcome == Printed(translation)
    ensures !outputExists || Confirms(answer) ==>
            FileCommand(key, targetLang, inputPath, outputPath, outputExists, answer, Returns(())).outcome
              == Reported(inputPath, outputPath)
  {
  }

  /** --- Scenarios --- */

  /** `text --target-language RU "Hello"` with a working key and a service
      answering "Привет" prints exactly that, after one call with code "RU". */
  lemma ScenarioTextRussian()
    ensures TextCommand(Some("k3y"), "RU", "Hello", Returns("Привет")) ==
            Run([NewTranslator("k3y"), TextCall("Hello", "RU")], Printed("Привет"))
  {
    assert Upper("RU") == "RU";
  }

  /** `text --target-language XX "Hello"` never reaches the service. */
  lemma ScenarioTextUnknownCode(reply: Reply<string>)
    ensures TextCommand(Some("k3y"), "XX", "Hello", reply) ==
            Run([NewTranslator("k3y")], Aborted(LanguageNotRecognised))
  {
    assert Upper("XX") == "XX";
  }

  /** `file --target-language DE in.txt out.txt` with out.txt present and the
      answer "n" aborts after the prompt, with no document call. */
  lemma ScenarioFileDeclined(reply: Reply<()>)
    ensures FileCommand(Some("k3y"), "DE", "in.txt", "out.txt", true, "n", reply) ==
            Run([NewTranslator("k3y"), Prompt("out.txt")], Aborted(OverwriteDeclined))
  {
    assert Upper("DE") == "DE";
    ConfirmsIff("n");
  }
}
