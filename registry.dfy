/** The target-language registry of deeplcmd (TARGET_LANGUAGES and
    verify_target_language) together with the upper-casing that every
    user-supplied code and prompt answer goes through. */
module Registry {

  /** The 33 target codes the command line accepts, with their display names. */
  const TargetLanguages: map<string, string> := map[
    "AR" := "Arabic",
    "BG" := "Bulgarian",
    "CS" := "Czech",
    "DA" := "Danish",
    "DE" := "German",
    "EL" := "Greek",
    "EN-GB" := "English (British)",
    "EN-US" := "English (American)",
    "ES" := "Spanish",
    "ET" := "Estonian",
    "FI" := "Finnish",
    "FR" := "French",
    "HU" := "Hungarian",
    "ID" := "Indonesian",
    "IT" := "Italian",
    "JA" := "Japanese",
    "KO" := "Korean",
    "LT" := "Lithuanian",
    "LV" := "Latvian",
    "NB" := "Norwegian Bokm\U{E5}l",
    "NL" := "Dutch",
    "PL" := "Polish",
    "PT" := "Portuguese (unspecified variant for backward compatibility; please select PT-BR or PT-PT instead)",
    "PT-BR" := "Portuguese (Brazilian)",
    "PT-PT" := "Portuguese (all Portuguese varieties excluding Brazilian Portuguese)",
    "RO" := "Romanian",
    "RU" := "Russian",
    "SK" := "Slovak",
    "SL" := "Slovenian",
    "SV" := "Swedish",
    "TR" := "Turkish",
    "UK" := "Ukrainian",
    "ZH" := "Chinese (simplified)"
  ]

  /** Upper-casing of one ASCII character; every other character is kept. */
  function AsciiUpper(c: char): char {
    if 'a' <= c <= 'z' then (c as int - 'a' as int + 'A' as int) as char else c
  }

  /** Python's `str.upper` on one character. ASCII letters are mapped as
      usual; the non-ASCII characters whose upper case consists of ASCII
      letters (the sharp s, the dotless i, the long s and the Latin
      ligatures) or begins with 'Y' (y with ring above) are expanded as Python
      expands them; every other character is kept. */
  function UpperChar(c: char): (u: string)
    ensures |u| > 0
    ensures c as int < 128 ==> u == [AsciiUpper(c)]
  {
    if 'a' <= c <= 'z' then [AsciiUpper(c)]
    else match c
      case '\U{DF}' => "SS"
      case '\U{131}' => "I"
      case '\U{17F}' => "S"
      case '\U{1E99}' => "Y\U{30A}"
      case '\U{FB00}' => "FF"
      case '\U{FB01}' => "FI"
      case '\U{FB02}' => "FL"
      case '\U{FB03}' => "FFI"
      case '\U{FB04}' => "FFL"
      case '\U{FB05}' => "ST"
      case '\U{FB06}' => "ST"
      case _ => [c]
  }

  /** Python's `str.upper`, character by character; it never shortens a string. */
  function Upper(s: string): (u: string)
    ensures |u| >= |s|
    ensures u == [] <==> s == []
  {
    if s == [] then [] else UpperChar(s[0]) + Upper(s[1..])
  }

  /** `verify_target_language`: true when the code passes, false when the
      command aborts with "Target language ... is not recognised". */
  predicate VerifyTargetLanguage(targetLang: string): (ok: bool)
    ensures ok ==> IsCanonicalCode(Upper(targetLang))
  {
    RegistryCodesCanonical();
    Upper(targetLang) in TargetLanguages
  }

  /** A code written as the registry writes it: upper-case ASCII letters and hyphens. */
  predicate IsCanonicalCode(s: string) {
    forall i :: 0 <= i < |s| ==> 'A' <= s[i] <= 'Z' || s[i] == '-'
  }

  predicate IsAscii(s: string) {
    forall i :: 0 <= i < |s| ==> s[i] as int < 128
  }

  /** Two strings that differ at most in the case of their ASCII letters. */
  predicate EqualIgnoringAsciiCase(s: string, t: string) {
    |s| == |t| && forall i :: 0 <= i < |s| ==> AsciiUpper(s[i]) == AsciiUpper(t[i])
  }

  /** Strict lexicographic order on strings. */
  predicate LexLess(a: string, b: string) {
    b != [] && (a == [] || a[0] < b[0] || (a[0] == b[0] && LexLess(a[1..], b[1..])))
  }

  lemma {:induction false} LexLessIrreflexive(a: string)
    ensures !LexLess(a, a)
  {
    if a != [] {
      LexLessIrreflexive(a[1..]);
    }
  }

  lemma {:induction false} LexLessTransitive(a: string, b: string, c: string)
    requires LexLess(a, b) && LexLess(b, c)
    ensures LexLess(a, c)
  {
    if a != [] && a[0] == b[0] && b[0] == c[0] {
      LexLessTransitive(a[1..], b[1..], c[1..]);
    }
  }

  /** A sequence whose neighbours are in strict order has no repeated element. */
  lemma {:induction false} StrictlySortedDistinct(s: seq<string>)
    requires forall i :: 0 < i < |s| ==> LexLess(s[i - 1], s[i])
    ensures forall i, j :: 0 <= i < j < |s| ==> LexLess(s[i], s[j])
  {
    if |s| > 1 {
      var init := s[..|s| - 1];
      StrictlySortedDistinct(init);
      forall i, j | 0 <= i < j < |s| ensures LexLess(s[i], s[j]) {
        if j < |s| - 1 {
          assert init[i] == s[i] && init[j] == s[j];
        } else if i < j - 1 {
          assert init[i] == s[i] && init[j - 1] == s[j - 1];
          LexLessTransitive(s[i], s[j - 1], s[j]);
        }
      }
    }
  }

  /** The elements of a strictly sorted sequence form a set of its length. */
  lemma {:induction false} StrictlySortedCardinality(s: seq<string>)
    requires forall i :: 0 < i < |s| ==> LexLess(s[i - 1], s[i])
    ensures |set x | x in s| == |s|
  {
    if s != [] {
      var init := s[..|s| - 1];
      StrictlySortedCardinality(init);
      StrictlySortedDistinct(s);
      var last := s[|s| - 1];
      assert (set x | x in s) == (set x | x in init) + {last} by {
        assert s == init + [last];
      }
      if last in init {
        var i :| 0 <= i < |init| && init[i] == last;
        assert LexLess(s[i], s[|s| - 1]);
        LexLessIrreflexive(last);
      }
    }
  }

  /** The registry's codes in alphabetical order; used only in proofs about the registry. */
  ghost function RegistryCodes(): seq<string> {
    [

      "AR", "BG", "CS", "DA", "DE", "EL", "EN-GB", "EN-US",
      "ES", "ET", "FI", "FR", "HU", "ID", "IT", "JA",
      "KO", "LT", "LV", "NB", "NL", "PL", "PT", "PT-BR",
      "PT-PT", "RO", "RU", "SK", "SL", "SV", "TR", "UK",
      "ZH"
    ]
  }

  lemma RegistryCodesSorted()
    ensures forall i :: 0 < i < |RegistryCodes()| ==> LexLess(RegistryCodes()[i - 1], RegistryCodes()[i])
  {
  }

  lemma RegistryCodesAreKeys()
    ensures TargetLanguages.Keys == set x | x in RegistryCodes()
  {
  }

  /** The registry holds 33 distinct codes. */
  lemma RegistrySize()
    ensures |TargetLanguages| == 33
  {
    RegistryCodesSorted();
    StrictlySortedCardinality(RegistryCodes());
    RegistryCodesAreKeys();
  }

  lemma RegistryCodesCanonical()
    ensures forall k :: k in TargetLanguages ==> IsCanonicalCode(k)
  {
    RegistryCodesAreKeys();
    assert forall i :: 0 <= i < |RegistryCodes()| ==> IsCanonicalCode(RegistryCodes()[i]);
  }

  lemma {:induction false} UpperAppend(s: string, t: string)
    ensures Upper(s + t) == Upper(s) + Upper(t)
  {
    if s == [] {
      assert s + t == t;
    } else {
      assert (s + t)[1..] == s[1..] + t;
      UpperAppend(s[1..], t);
    }
  }

  /** A string each of whose characters is its own upper case. */
  predicate IsUpperFixed(s: string) {
    forall i :: 0 <= i < |s| ==> UpperChar(s[i]) == [s[i]]
  }

  lemma {:induction false} UpperOfFixed(s: string)
    requires IsUpperFixed(s)
    ensures Upper(s) == s
  {
    if s != [] {
      assert IsUpperFixed(s[1..]) by {
        forall i | 0 <= i < |s[1..]| ensures UpperChar(s[1..][i]) == [s[1..][i]] {
          assert s[1..][i] == s[i + 1];
        }
      }
      UpperOfFixed(s[1..]);
    }
  }

  lemma UpperCharIdempotent(c: char)
    ensures Upper(UpperChar(c)) == UpperChar(c)
  {
    var u := UpperChar(c);
    if u != [c] {
      assert forall i :: 0 <= i < |u| ==> 'A' <= u[i] <= 'Z' || u[i] == '\U{30A}';
    }
    UpperOfFixed(u);
  }

  /** Upper-casing twice is upper-casing once. */
  lemma {:induction false} UpperIdempotent(s: string)
    ensures Upper(Upper(s)) == Upper(s)
  {
    if s != [] {
      UpperAppend(UpperChar(s[0]), Upper(s[1..]));
      UpperCharIdempotent(s[0]);
      UpperIdempotent(s[1..]);
    }
  }

  /** A canonical code is its own upper case. */
  lemma UpperOfCanonical(s: string)
    requires IsCanonicalCode(s)
    ensures Upper(s) == s
  {
    assert IsUpperFixed(s);
    UpperOfFixed(s);
  }

  /** On ASCII input the upper case keeps the length and maps each character. */
  lemma {:induction false} UpperOfAscii(s: string)
    requires IsAscii(s)
    ensures |Upper(s)| == |s|
    ensures forall i :: 0 <= i < |s| ==> Upper(s)[i] == AsciiUpper(s[i])
  {
    if s != [] {
      UpperOfAscii(s[1..]);
    }
  }

  /** A code and its upper case are accepted or refused together, so "de"
      and "DE" are one code to the command line. */
  lemma CaseInsensitive(targetLang: string)
    ensures VerifyTargetLanguage(targetLang) <==> VerifyTargetLanguage(Upper(targetLang))
  {
    UpperIdempotent(targetLang);
  }

  /** Every registry code is accepted as written. */
  lemma RegistryCodesAccepted(code: string)
    requires code in TargetLanguages
    ensures VerifyTargetLanguage(code)
  {
    RegistryCodesCanonical();
    UpperOfCanonical(code);
  }

  /** For ASCII input, acceptance is exactly "equal to some registry code up to
      the case of its letters", whatever mix of cases is typed. */
  lemma AcceptedAsciiIff(targetLang: string)
    requires IsAscii(targetLang)
    ensures VerifyTargetLanguage(targetLang) <==>
            exists k :: k in TargetLanguages && EqualIgnoringAsciiCase(targetLang, k)
  {
    UpperOfAscii(targetLang);
    RegistryCodesCanonical();
    var u := Upper(targetLang);
    if VerifyTargetLanguage(targetLang) {
      assert EqualIgnoringAsciiCase(targetLang, u) by {
        forall i | 0 <= i < |targetLang|
          ensures AsciiUpper(targetLang[i]) == AsciiUpper(u[i])
        {
          assert IsCanonicalCode(u);
        }
      }
    }
    if k :| k in TargetLanguages && EqualIgnoringAsciiCase(targetLang, k) {
      assert IsCanonicalCode(k);
      assert u == k by {
        forall i | 0 <= i < |k| ensures u[i] == k[i] {
          assert AsciiUpper(k[i]) == k[i];
        }
      }
    }
  }

  /** "de" and "DE" name the same language. */
  lemma LowerAndUpperAgree()
    ensures VerifyTargetLanguage("de") && VerifyTargetLanguage("DE")
    ensures Upper("de") == Upper("DE") == "DE"
  {
    assert Upper("de") == "DE";
    assert Upper("DE") == "DE";
  }

  /** Codes outside the registry are refused, "en" without a variant among them. */
  lemma UnknownCodesRefused()
    ensures !VerifyTargetLanguage("XX") && !VerifyTargetLanguage("en")
  {
    assert Upper("XX") == "XX";
    assert "XX" !in TargetLanguages;
    assert Upper("en") == "EN";
    assert "EN" !in TargetLanguages;
  }

  /** Python's upper-casing turns the ligature U+FB01 into "FI", so that one
      character is accepted as the code for Finnish. */
  lemma LigatureSpellsFinnish()
    ensures VerifyTargetLanguage("\U{FB01}") && Upper("\U{FB01}") == "FI"
  {
    var lig := "\U{FB01}";
    assert lig[1..] == [];
    assert Upper(lig) == UpperChar(lig[0]) + Upper([]) == "FI";
    assert "FI" in TargetLanguages;
  }
}
