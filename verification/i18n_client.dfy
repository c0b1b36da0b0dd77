/** The translation store of the web interface: the `t` lookup with its
    built-in fallbacks and `{name}` substitution, the language choice at
    start-up and the load of a translation file with its fallback to
    English. The fetch of `/api/locales/<lang>.json` is an input: the map of
    the languages whose file loads, with their parsed contents. */
module I18nClient {
  import opened Wrappers
  import opened Text

  type Translations = map<string, string>

  /** The built-in text of the keys the interface cannot do without. */
  function Fallback(key: string): Option<string> {
    match key
    case "no_downloads_message" => Some("No downloads yet. Please add a URL to download.")
    case "title" => Some("OC-Proxy")
    case "table_header_file_name" => Some("File Name")
    case "table_header_status" => Some("Status")
    case "table_header_size" => Some("Size")
    case "table_header_requested_at" => Some("Requested At")
    case "table_header_actions" => Some("Actions")
    case "url_placeholder" => Some("Download URL")
    case "password_placeholder" => Some("Password (optional)")
    case "add_download" => Some("Add Download")
    case "pagination_previous" => Some("Previous")
    case "pagination_next" => Some("Next")
    case "pagination_page_info" => Some("Page {currentPage} of {totalPages}")
    case "action_pause" => Some("Pause")
    case "action_resume" => Some("Resume")
    case "action_retry" => Some("Retry")
    case "action_delete" => Some("Delete")
    case "delete_confirm" => Some("Are you sure you want to delete this download?")
    case _ => None
  }

  /** The text of a key before substitution: the loaded translation, else
      the built-in text, else the key itself. */
  function Lookup(translations: Translations, key: string): (text: string)
    ensures key in translations ==> text == translations[key]
    ensures key !in translations && Fallback(key).Some? ==> text == Fallback(key).value
    ensures key !in translations && Fallback(key).None? ==> text == key
  {
    if key in translations then translations[key]
    else if Fallback(key).Some? then Fallback(key).value
    else key
  }

  /** The placeholder a variable fills. */
  function Placeholder(name: string): (p: string)
    ensures |p| == |name| + 2 && p[0] == '{' && p[|p| - 1] == '}'
  {
    "{" + name + "}"
  }

  /** Each variable in turn replaces every occurrence of its placeholder. */
  function Substitute(text: string, vars: seq<(string, string)>): string
    decreases |vars|
  {
    if vars == [] then text
    else
      var (name, value) := vars[|vars| - 1];
      ReplaceAll(Substitute(text, vars[..|vars| - 1]), Placeholder(name), value)
  }

  /** The value of `t(key, vars)`; an empty text is returned as is. */
  function Translate(translations: Translations, key: string, vars: seq<(string, string)>): string {
    var text := Lookup(translations, key);
    if text != [] then Substitute(text, vars) else text
  }

  /** Without variables the looked-up text comes back unchanged. */
  lemma TranslateNoVars(translations: Translations, key: string)
    ensures Translate(translations, key, []) == Lookup(translations, key)
  {
  }

  /** A text holding none of the placeholders is left as it is. */
  lemma {:induction false} SubstituteAbsent(text: string, vars: seq<(string, string)>)
    requires forall i :: 0 <= i < |vars| ==> !Contains(text, Placeholder(vars[i].0))
    ensures Substitute(text, vars) == text
    decreases |vars|
  {
    if vars != [] {
      SubstituteAbsent(text, vars[..|vars| - 1]);
      ReplaceAllAbsent(text, Placeholder(vars[|vars| - 1].0), vars[|vars| - 1].1);
    }
  }

  /** A text without `{` is never changed by substitution. */
  lemma NoBraceNoChange(translations: Translations, key: string, vars: seq<(string, string)>)
    requires '{' !in Lookup(translations, key)
    ensures Translate(translations, key, vars) == Lookup(translations, key)
  {
    var text := Lookup(translations, key);
    forall i | 0 <= i < |vars|
      ensures !Contains(text, Placeholder(vars[i].0))
    {
      NotContainsHead(text, Placeholder(vars[i].0));
    }
    SubstituteAbsent(text, vars);
  }

  /** A template with one placeholder and no other `{` gets the value in
      its place. */
  lemma FillOne(a: string, name: string, b: string, value: string)
    requires '{' !in a && '{' !in b
    ensures Substitute(a + Placeholder(name) + b, [(name, value)]) == a + value + b
  {
    var vars := [(name, value)];
    assert vars[..0] == [];
    ReplaceOnce(a, Placeholder(name), b, [], value);
    assert a + Placeholder(name) + b + [] == a + Placeholder(name) + b;
    assert a + value + b + [] == a + value + b;
  }

  /** A template with two placeholders and no other `{`, such as the
      built-in page indicator `Page {currentPage} of {totalPages}`, filled
      in the order of the variables: each value lands in its own
      placeholder, provided the first value brings no `{` of its own. */
  lemma FillTwo(a: string, n1: string, b: string, n2: string, v1: string, v2: string)
    requires '{' !in a && '{' !in b && '{' !in v1 && |n2| < |n1|
    ensures Substitute(a + Placeholder(n1) + b + Placeholder(n2), [(n1, v1), (n2, v2)]) == a + v1 + b + v2
  {
    var vars := [(n1, v1), (n2, v2)];
    var text := a + Placeholder(n1) + b + Placeholder(n2);
    assert vars[..1][..0] == [] && vars[..1] == [(n1, v1)];
    assert Substitute(text, vars[..1]) == ReplaceAll(text, Placeholder(n1), v1);
    TwoPlaceholders(a, Placeholder(n1), b, Placeholder(n2), v1, v2);
  }

  /** The two replacements of `FillTwo` on plain strings. */
  lemma TwoPlaceholders(a: string, p1: string, b: string, p2: string, v1: string, v2: string)
    requires |p2| > 0 && |p2| < |p1| && p1[0] == p2[0]
    requires p1[0] !in a && p1[0] !in b && p1[0] !in v1
    ensures ReplaceAll(ReplaceAll(a + p1 + b + p2, p1, v1), p2, v2) == a + v1 + b + v2
  {
    ReplaceOnce(a, p1, b, p2, v1);
    var once := a + v1 + b;
    assert p2[0] !in once;
    ReplaceOnce(once, p2, [], [], v2);
    assert once + p2 + [] + [] == a + v1 + b + p2;
    assert once + v2 + [] + [] == a + v1 + b + v2;
  }

  /** One occurrence of a placeholder, with nothing before or after it
      that could start another, is replaced once. */
  lemma ReplaceOnce(a: string, pat: string, b: string, c: string, rep: string)
    requires |pat| > 0 && pat[0] !in a && pat[0] !in b && |c| < |pat|
    ensures ReplaceAll(a + pat + b + c, pat, rep) == a + rep + b + c
  {
    var bc := b + c;
    var tail := pat + bc;
    PlainThenShort(b, c, pat, rep);
    ReplaceAllFront(pat, bc, rep);
    ReplaceAllPlain(a, tail, pat, rep);
    assert a + pat + b + c == a + tail;
    assert a + rep + b + c == a + (rep + bc);
  }

  lemma PlainThenShort(b: string, c: string, pat: string, rep: string)
    requires |pat| > 0 && pat[0] !in b && |c| < |pat|
    ensures ReplaceAll(b + c, pat, rep) == b + c
  {
    ShortUnchanged(c, pat, rep);
    ReplaceAllPlain(b, c, pat, rep);
  }

  lemma ShortUnchanged(c: string, pat: string, rep: string)
    requires |pat| > 0 && |c| < |pat|
    ensures ReplaceAll(c, pat, rep) == c
  {
    if Contains(c, pat) {
      ContainsLength(c, pat);
    }
    ReplaceAllAbsent(c, pat, rep);
  }

  /** `t(key)` for a key that the loaded translations hold. */
  lemma TranslationWins(translations: Translations, key: string)
    requires key in translations
    ensures Translate(translations, key, []) == translations[key]
  {
  }

  // ----- loading -----

  /** The translations and locale that `loadTranslations(lang)` leaves:
      the file of `lang`, else the English file, else nothing, in English. */
  function Loaded(lang: string, available: map<string, Translations>): (r: (Translations, string))
    ensures lang in available ==> r == (available[lang], lang)
    ensures lang !in available && lang != "en" && "en" in available ==> r == (available["en"], "en")
    ensures lang !in available && "en" !in available ==> r == (map[], "en")
    decreases if lang == "en" then 0 else 1
  {
    if lang in available then (available[lang], lang)
    else if lang != "en" then Loaded("en", available)
    else (map[], "en")
  }

  /** The locale that ends selected is either the one asked for or English,
      and it is the one asked for exactly when its file loaded. */
  lemma LoadedLocale(lang: string, available: map<string, Translations>)
    ensures Loaded(lang, available).1 == lang || Loaded(lang, available).1 == "en"
    ensures lang != "en" ==> (Loaded(lang, available).1 == lang <==> lang in available)
  {
  }

  /** The part of `navigator.language` before the first `-`. */
  function PrimaryTag(language: string): (r: string)
    ensures '-' !in r && IsPrefix(r, language)
    ensures |r| < |language| ==> language[|r|] == '-'
    decreases |language|
  {
    if language == [] || language[0] == '-' then []
    else [language[0]] + PrimaryTag(language[1..])
  }

  const SupportedLangs: seq<string> := ["en", "ko"]

  /** The language `initializeLocale` asks for. */
  function InitialLanguage(language: string): (lang: string)
    ensures lang in SupportedLangs
    ensures PrimaryTag(language) in SupportedLangs ==> lang == PrimaryTag(language)
  {
    var browserLang := PrimaryTag(language);
    if browserLang in SupportedLangs then browserLang else "en"
  }

  /** A Korean browser gets Korean, anything unsupported gets English. */
  lemma InitialLanguageExamples()
    ensures InitialLanguage("ko-KR") == "ko"
    ensures InitialLanguage("fr-FR") == "en"
  {
    assert PrimaryTag("ko-KR") == "ko";
    assert PrimaryTag("fr-FR") == "fr";
  }

  /** The three stores of the module. */
  class I18nStore {
    var isLoading: bool
    var translations: Translations
    var locale: string

    constructor()
      ensures isLoading && translations == map[] && locale == "en"
    {
      isLoading := true;
      translations := map[];
      locale := "en";
    }

    /** `loadTranslations`: the loading flag ends false whatever happens. */
    method LoadTranslations(lang: string, available: map<string, Translations>)
      modifies this
      ensures (translations, locale) == Loaded(lang, available)
      ensures !isLoading
      decreases if lang == "en" then 0 else 1
    {
      isLoading := true;
      if lang in available {
        translations := available[lang];
        locale := lang;
      } else if lang != "en" {
        LoadTranslations("en", available);
      } else {
        translations := map[];
        locale := "en";
      }
      isLoading := false;
    }

    /** `initializeLocale`. */
    method InitializeLocale(language: string, available: map<string, Translations>)
      modifies this
      ensures (translations, locale) == Loaded(InitialLanguage(language), available)
      ensures !isLoading
    {
      var browserLang := PrimaryTag(language);
      var lang := if browserLang in SupportedLangs then browserLang else "en";
      LoadTranslations(lang, available);
    }

    /** `t(key, vars)` over the current translations. */
    method T(key: string, vars: seq<(string, string)>) returns (text: string)
      ensures text == Translate(translations, key, vars)
    {
      text := Lookup(translations, key);
      if text != [] {
        ghost var base := text;
        var i := 0;
        while i < |vars|
          invariant i <= |vars|
          invariant text == Substitute(base, vars[..i])
        {
          var (varKey, value) := vars[i];
          assert vars[..i + 1][..i] == vars[..i];
          text := ReplaceAll(text, Placeholder(varKey), value);
          i := i + 1;
        }
        assert vars[..i] == vars;
      }
    }
  }
}
