/**
 * Language normalisation and preferred-language matching
 * (backend/utils/language/language.go): a flag emoji, a language name or a
 * three-letter ISO 639-2/3 code is normalised to a code, and a
 * comma-separated list of languages is matched against a preferred code and
 * its alternative spellings.
 */
module Language {
  import opened Wrappers
  import opened Strs

  /** `codeToEmojis`: the known codes and the flags of each. */
  const CodeToEmojis: map<string, seq<string>> := map[
    "eng" := ["🇬🇧", "🇺🇸", "🇦🇺", "🇨🇦", "🇳🇿", "🇮🇪"],
    "spa" := ["🇪🇸", "🇲🇽", "🇦🇷", "🇨🇴", "🇨🇱"],
    "fra" := ["🇫🇷", "🇨🇦", "🇧🇪", "🇨🇭"],
    "deu" := ["🇩🇪", "🇦🇹", "🇨🇭"],
    "ita" := ["🇮🇹", "🇨🇭"],
    "por" := ["🇵🇹", "🇧🇷"],
    "rus" := ["🇷🇺"],
    "jpn" := ["🇯🇵"],
    "zho" := ["🇨🇳", "🇹🇼", "🇭🇰"],
    "chi" := ["🇨🇳", "🇹🇼", "🇭🇰"],
    "kor" := ["🇰🇷"],
    "nld" := ["🇳🇱", "🇧🇪"],
    "dut" := ["🇳🇱", "🇧🇪"],
    "pol" := ["🇵🇱"],
    "swe" := ["🇸🇪"],
    "ces" := ["🇨🇿"],
    "cze" := ["🇨🇿"],
    "hun" := ["🇭🇺"],
    "tur" := ["🇹🇷"],
    "ara" := ["🇸🇦", "🇪🇬", "🇦🇪"],
    "hin" := ["🇮🇳"],
    "tha" := ["🇹🇭"],
    "vie" := ["🇻🇳"],
    "ind" := ["🇮🇩"],
    "dan" := ["🇩🇰"],
    "nor" := ["🇳🇴"],
    "fin" := ["🇫🇮"],
    "gre" := ["🇬🇷"],
    "ell" := ["🇬🇷"],
    "heb" := ["🇮🇱"],
    "ukr" := ["🇺🇦"],
    "ron" := ["🇷🇴"],
    "rum" := ["🇷🇴"],
    "bul" := ["🇧🇬"],
    "hrv" := ["🇭🇷"],
    "slv" := ["🇸🇮"],
    "srp" := ["🇷🇸"]]

  /** `emojiToCode`. */
  function EmojiToCode(flag: string): Option<string>
  {
    if flag == "🇬🇧" then Some("eng")
    else if flag == "🇺🇸" then Some("eng")
    else if flag == "🇦🇺" then Some("eng")
    else if flag == "🇨🇦" then Some("eng")
    else if flag == "🇳🇿" then Some("eng")
    else if flag == "🇮🇪" then Some("eng")
    else if flag == "🇪🇸" then Some("spa")
    else if flag == "🇲🇽" then Some("spa")
    else if flag == "🇦🇷" then Some("spa")
    else if flag == "🇨🇴" then Some("spa")
    else if flag == "🇨🇱" then Some("spa")
    else if flag == "🇫🇷" then Some("fra")
    else if flag == "🇩🇪" then Some("deu")
    else if flag == "🇦🇹" then Some("deu")
    else if flag == "🇮🇹" then Some("ita")
    else if flag == "🇵🇹" then Some("por")
    else if flag == "🇧🇷" then Some("por")
    else if flag == "🇷🇺" then Some("rus")
    else if flag == "🇯🇵" then Some("jpn")
    else if flag == "🇨🇳" then Some("zho")
    else if flag == "🇹🇼" then Some("zho")
    else if flag == "🇭🇰" then Some("zho")
    else if flag == "🇰🇷" then Some("kor")
    else if flag == "🇳🇱" then Some("nld")
    else if flag == "🇧🇪" then Some("nld")
    else if flag == "🇨🇭" then Some("deu")
    else if flag == "🇵🇱" then Some("pol")
    else if flag == "🇸🇪" then Some("swe")
    else if flag == "🇨🇿" then Some("ces")
    else if flag == "🇭🇺" then Some("hun")
    else if flag == "🇹🇷" then Some("tur")
    else if flag == "🇸🇦" then Some("ara")
    else if flag == "🇪🇬" then Some("ara")
    else if flag == "🇦🇪" then Some("ara")
    else if flag == "🇮🇳" then Some("hin")
    else if flag == "🇹🇭" then Some("tha")
    else if flag == "🇻🇳" then Some("vie")
    else if flag == "🇮🇩" then Some("ind")
    else if flag == "🇩🇰" then Some("dan")
    else if flag == "🇳🇴" then Some("nor")
    else if flag == "🇫🇮" then Some("fin")
    else if flag == "🇬🇷" then Some("gre")
    else if flag == "🇮🇱" then Some("heb")
    else if flag == "🇺🇦" then Some("ukr")
    else if flag == "🇷🇴" then Some("ron")
    else if flag == "🇧🇬" then Some("bul")
    else if flag == "🇭🇷" then Some("hrv")
    else if flag == "🇸🇮" then Some("slv")
    else if flag == "🇷🇸" then Some("srp")
    else None
  }

  /** `nameToCode`, keyed by lowercase names. */
  function NameToCode(name: string): Option<string>
  {
    if name == "english" then Some("eng")
    else if name == "spanish" then Some("spa")
    else if name == "french" then Some("fra")
    else if name == "german" then Some("deu")
    else if name == "italian" then Some("ita")
    else if name == "portuguese" then Some("por")
    else if name == "russian" then Some("rus")
    else if name == "japanese" then Some("jpn")
    else if name == "chinese" then Some("zho")
    else if name == "mandarin" then Some("zho")
    else if name == "cantonese" then Some("zho")
    else if name == "korean" then Some("kor")
    else if name == "dutch" then Some("nld")
    else if name == "polish" then Some("pol")
    else if name == "swedish" then Some("swe")
    else if name == "czech" then Some("ces")
    else if name == "hungarian" then Some("hun")
    else if name == "turkish" then Some("tur")
    else if name == "arabic" then Some("ara")
    else if name == "hindi" then Some("hin")
    else if name == "thai" then Some("tha")
    else if name == "vietnamese" then Some("vie")
    else if name == "indonesian" then Some("ind")
    else if name == "danish" then Some("dan")
    else if name == "norwegian" then Some("nor")
    else if name == "finnish" then Some("fin")
    else if name == "greek" then Some("gre")
    else if name == "hebrew" then Some("heb")
    else if name == "ukrainian" then Some("ukr")
    else if name == "romanian" then Some("ron")
    else if name == "bulgarian" then Some("bul")
    else if name == "croatian" then Some("hrv")
    else if name == "slovenian" then Some("slv")
    else if name == "serbian" then Some("srp")
    else if name == "multi" then Some("mul")
    else None
  }

  /** The code of "multi", the one result that is not a known code. */
  const MultiCode := "mul"

  /** `NormalizeToCode`. */
  function NormalizeToCode(lang: string): string
  {
    var lang := Trim(lang);
    if lang == "" then ""
    else
      var lowerLang := Lower(lang);
      if |lang| == 3 && lowerLang in CodeToEmojis then lowerLang
      else if EmojiToCode(lang).Some? then EmojiToCode(lang).value
      else if NameToCode(lowerLang).Some? then NameToCode(lowerLang).value
      else ""
  }

  /** The flag table only leads to known codes. */
  lemma FlagsLeadToCodes(flag: string)
    requires EmojiToCode(flag).Some?
    ensures EmojiToCode(flag).value in CodeToEmojis
  {
  }

  /** Every flag starts with a character outside ASCII. */
  lemma FlagsAreNotAscii(flag: string)
    requires EmojiToCode(flag).Some?
    ensures |flag| > 0 && flag[0] >= 128 as char
  {
  }

  /** The name table only leads to known codes and to "mul". */
  lemma NamesLeadToCodes(name: string)
    requires NameToCode(name).Some?
    ensures NameToCode(name).value in CodeToEmojis || NameToCode(name).value == MultiCode
  {
  }

  /** Every name is longer than a code. */
  lemma NamesAreLong(name: string)
    requires NameToCode(name).Some?
    ensures |name| >= 4
  {
  }

  /** A blank input has no code; any other result is a known code or
      "mul"; a three-letter known code in any case normalises to itself in
      lowercase; and surrounding white space is ignored. */
  lemma NormalizeToCodeMeaning(lang: string)
    ensures IsBlank(lang) ==> NormalizeToCode(lang) == ""
    ensures NormalizeToCode(lang) != "" ==> NormalizeToCode(lang) in CodeToEmojis || NormalizeToCode(lang) == MultiCode
    ensures |Trim(lang)| == 3 && Lower(Trim(lang)) in CodeToEmojis ==> NormalizeToCode(lang) == Lower(Trim(lang))
    ensures NormalizeToCode(Trim(lang)) == NormalizeToCode(lang)
  {
    var t := Trim(lang);
    if EmojiToCode(t).Some? {
      FlagsLeadToCodes(t);
    }
    if NameToCode(Lower(t)).Some? {
      NamesLeadToCodes(Lower(t));
    }
    TrimIdempotent(lang);
  }

  /** Only flags, names and codes are recognised: an input of at most
      three plain ASCII characters that is not a known code has no code,
      since flags are not ASCII and every name is longer. */
  lemma ShortUnknownHasNoCode(lang: string)
    requires |Trim(lang)| <= 3 && forall k :: 0 <= k < |Trim(lang)| ==> Trim(lang)[k] < 128 as char
    requires Lower(Trim(lang)) !in CodeToEmojis
    ensures NormalizeToCode(lang) == ""
  {
    var t := Trim(lang);
    if EmojiToCode(t).Some? {
      FlagsAreNotAscii(t);
    }
    if NameToCode(Lower(t)).Some? {
      NamesAreLong(Lower(t));
    }
  }

  /** "Multi" normalises to "mul" (backend/utils/language/language_test.go:42). */
  lemma MultiExample()
    ensures NormalizeToCode("Multi") == "mul"
  {
    TrimOfTrimmed("Multi");
    LowerAt("Multi");
    assert Lower("Multi") == "multi";
    assert NameToCode("multi") == Some("mul");
  }

  /** "ENG" normalises to "eng" (backend/utils/language/language_test.go:17). */
  lemma UpperCaseCodeExample()
    ensures NormalizeToCode("ENG") == "eng"
  {
    TrimOfTrimmed("ENG");
    LowerAt("ENG");
    assert Lower("ENG") == "eng";
  }

  /** A Swiss flag is German: of French, German and Italian, `emojiToCode`
      defaults it to German (backend/utils/language/language.go:62). */
  lemma SwissFlagExample()
    ensures NormalizeToCode("🇨🇭") == "deu"
  {
    TrimOfTrimmed("🇨🇭");
  }

  /** The alternative spellings of a code, `getEquivalentCodes`'s table. */
  const Equivalents: map<string, seq<string>> := map[
    "zho" := ["zho", "chi"],
    "chi" := ["zho", "chi"],
    "nld" := ["nld", "dut"],
    "dut" := ["nld", "dut"],
    "ces" := ["ces", "cze"],
    "cze" := ["ces", "cze"],
    "gre" := ["gre", "ell"],
    "ell" := ["gre", "ell"],
    "ron" := ["ron", "rum"],
    "rum" := ["ron", "rum"]]

  /** `getEquivalentCodes`. */
  function EquivalentCodes(code: string): seq<string>
  {
    if code in Equivalents then Equivalents[code] else [code]
  }

  /** A code is always among its equivalents; being equivalent is
      symmetric; and a code outside the five pairs has only itself. */
  lemma EquivalentCodesMeaning(a: string, b: string)
    ensures a in EquivalentCodes(a)
    ensures b in EquivalentCodes(a) ==> a in EquivalentCodes(b)
    ensures a !in {"zho", "chi", "nld", "dut", "ces", "cze", "gre", "ell", "ron", "rum"} ==> EquivalentCodes(a) == [a]
  {
  }

  /** One entry of the result list matches: trimmed, it is not blank and
      normalises to one of the valid codes. */
  predicate EntryMatches(entry: string, validCodes: seq<string>)
  {
    var lang := Trim(entry);
    lang != "" && NormalizeToCode(lang) != "" && NormalizeToCode(lang) in validCodes
  }

  /** The scan of `HasPreferredLanguage` over the entries. */
  function AnyEntryMatches(entries: seq<string>, validCodes: seq<string>): bool
  {
    if entries == [] then false
    else EntryMatches(entries[0], validCodes) || AnyEntryMatches(entries[1..], validCodes)
  }

  /** `HasPreferredLanguage`. */
  function HasPreferredLanguage(resultLanguages: string, preferredLangCode: string): bool
  {
    if resultLanguages == "" || preferredLangCode == "" then false
    else
      var preferred := Lower(Trim(preferredLangCode));
      if preferred == "" then false
      else AnyEntryMatches(Split(resultLanguages, ','), EquivalentCodes(preferred))
  }

  lemma {:induction false} AnyEntryMatchesMeaning(entries: seq<string>, validCodes: seq<string>)
    ensures AnyEntryMatches(entries, validCodes) <==> exists i :: 0 <= i < |entries| && EntryMatches(entries[i], validCodes)
  {
    if entries != [] {
      AnyEntryMatchesMeaning(entries[1..], validCodes);
      assert forall i :: 1 <= i < |entries| ==> entries[i] == entries[1..][i - 1];
      if AnyEntryMatches(entries[1..], validCodes) {
        var i :| 0 <= i < |entries[1..]| && EntryMatches(entries[1..][i], validCodes);
        assert EntryMatches(entries[i + 1], validCodes);
      }
    }
  }

  /** No match without a result list or a non-blank preferred code. */
  lemma NoPreferenceNoMatch(resultLanguages: string, preferredLangCode: string)
    requires resultLanguages == "" || IsBlank(preferredLangCode)
    ensures !HasPreferredLanguage(resultLanguages, preferredLangCode)
  {
  }

  /** Otherwise a match exactly when some comma-separated entry normalises
      to a code equivalent to the trimmed, lowercased preferred code. */
  lemma HasPreferredLanguageMeaning(resultLanguages: string, preferredLangCode: string)
    requires resultLanguages != "" && !IsBlank(preferredLangCode)
    ensures HasPreferredLanguage(resultLanguages, preferredLangCode) <==>
      exists i :: 0 <= i < |Split(resultLanguages, ',')|
        && EntryMatches(Split(resultLanguages, ',')[i], EquivalentCodes(Lower(Trim(preferredLangCode))))
  {
    HasPreferredLanguageScans(resultLanguages, preferredLangCode);
    AnyEntryMatchesMeaning(Split(resultLanguages, ','), EquivalentCodes(Lower(Trim(preferredLangCode))));
  }

  /** With a result list and a non-blank preferred code, the answer is the
      scan of the entries for the trimmed, lowercased code's equivalents. */
  lemma HasPreferredLanguageScans(resultLanguages: string, preferredLangCode: string)
    requires resultLanguages != "" && !IsBlank(preferredLangCode)
    ensures HasPreferredLanguage(resultLanguages, preferredLangCode)
         == AnyEntryMatches(Split(resultLanguages, ','), EquivalentCodes(Lower(Trim(preferredLangCode))))
  {
    assert |Lower(Trim(preferredLangCode))| == |Trim(preferredLangCode)|;
  }

  /** A recognised language matches its own code and every equivalent one:
      "Chinese" matches a preference for "chi". */
  lemma RecognisedEntryMatches(entry: string, preferred: string)
    requires NoChar(entry, ',') && NormalizeToCode(entry) != ""
    requires preferred in EquivalentCodes(NormalizeToCode(entry)) && !IsBlank(preferred) && Lower(Trim(preferred)) == preferred
    ensures HasPreferredLanguage(entry, preferred)
  {
    var code := NormalizeToCode(entry);
    SplitNoSep(entry, ',');
    EquivalentCodesMeaning(code, preferred);
    NormalizeToCodeMeaning(entry);
    assert EntryMatches(entry, EquivalentCodes(preferred));
  }
}
