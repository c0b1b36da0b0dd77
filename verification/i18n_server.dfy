/** The translation cache of the server: loading the Korean and English
    files over the built-in dictionaries, and the lookups by language and
    key. Reading and parsing `locales/<lang>.json` is an input: the map of
    the languages whose file loads as a dictionary, with its contents. */
module I18nServer {
  type Translations = map<string, string>

  /** The languages loaded, in the order they are loaded. */
  const Langs: seq<string> := ["ko", "en"]

  /** The built-in dictionaries the files are merged into. */
  const FallbackTranslations: map<string, Translations> := map["ko" := map[], "en" := map[]]

  /** `dict.update`: entries of `update` replace those of `base`. */
  function Merge(base: Translations, update: Translations): (r: Translations)
    ensures r.Keys == base.Keys + update.Keys
    ensures forall k :: k in update ==> r[k] == update[k]
    ensures forall k :: k in base && k !in update ==> r[k] == base[k]
  {
    base + update
  }

  /** The dictionary of one language after loading. */
  function LoadedLang(lang: string, files: map<string, Translations>): Translations
    requires lang in FallbackTranslations
  {
    if lang in files then Merge(FallbackTranslations[lang], files[lang]) else FallbackTranslations[lang]
  }

  /** The cache after `load_all_translations`. */
  function LoadedCache(files: map<string, Translations>): map<string, Translations> {
    map["ko" := LoadedLang("ko", files), "en" := LoadedLang("en", files)]
  }

  /** After loading, the cache holds exactly Korean and English; file
      entries win over built-in ones, and a language whose file failed
      keeps its built-in dictionary. */
  lemma LoadedCacheFacts(files: map<string, Translations>)
    ensures LoadedCache(files).Keys == {"ko", "en"}
    ensures forall lang, k :: lang in LoadedCache(files) && lang in files && k in files[lang] ==>
      k in LoadedCache(files)[lang] && LoadedCache(files)[lang][k] == files[lang][k]
    ensures forall lang :: lang in LoadedCache(files) && lang !in files ==> LoadedCache(files)[lang] == FallbackTranslations[lang]
  {
  }

  /** `get_translations`: the dictionary of `lang`, else the English one,
      else an empty one. */
  function GetTranslations(cache: map<string, Translations>, lang: string): (r: Translations)
    ensures lang in cache ==> r == cache[lang]
    ensures lang !in cache && "en" in cache ==> r == cache["en"]
    ensures lang !in cache && "en" !in cache ==> r == map[]
  {
    if lang in cache then cache[lang] else if "en" in cache then cache["en"] else map[]
  }

  /** `get_message`: the translation of `key`, or `key` itself. */
  function GetMessage(cache: map<string, Translations>, key: string, lang: string): (r: string)
    ensures key in GetTranslations(cache, lang) ==> r == GetTranslations(cache, lang)[key]
    ensures key !in GetTranslations(cache, lang) ==> r == key
  {
    var translations := GetTranslations(cache, lang);
    if key in translations then translations[key] else key
  }

  /** Once loaded, a message of a language without a file of its own comes
      from the English file when that holds the key; a key that no loaded
      file holds comes back as itself. */
  lemma MessageAfterLoad(files: map<string, Translations>, key: string, lang: string)
    ensures lang != "ko" && lang != "en" && "en" in files && key in files["en"] ==>
      GetMessage(LoadedCache(files), key, lang) == files["en"][key]
    ensures (forall l :: l in files ==> key !in files[l]) ==> GetMessage(LoadedCache(files), key, lang) == key
  {
  }

  /** Before any load the cache is empty and every key comes back as
      itself. */
  lemma MessageBeforeLoad(key: string, lang: string)
    ensures GetMessage(map[], key, lang) == key
  {
  }

  /** The module-level cache. */
  class TranslationCache {
    var cache: map<string, Translations>

    constructor()
      ensures cache == map[]
    {
      cache := map[];
    }

    /** `load_all_translations`: start from the built-in dictionaries, then
        merge each file that loads. */
    method LoadAllTranslations(files: map<string, Translations>)
      modifies this
      ensures cache == LoadedCache(files)
    {
      cache := FallbackTranslations;
      var i := 0;
      while i < |Langs|
        invariant i <= |Langs|
        invariant cache.Keys == {"ko", "en"}
        invariant forall j :: 0 <= j < i ==> cache[Langs[j]] == LoadedLang(Langs[j], files)
        invariant forall j :: i <= j < |Langs| ==> cache[Langs[j]] == FallbackTranslations[Langs[j]]
      {
        var lang := Langs[i];
        if lang in files {
          cache := cache[lang := Merge(cache[lang], files[lang])];
        }
        i := i + 1;
      }
      assert cache["ko"] == LoadedLang(Langs[0], files);
      assert cache["en"] == LoadedLang(Langs[1], files);
    }

    /** `reload_translations`. */
    method ReloadTranslations(files: map<string, Translations>) returns (ok: bool)
      modifies this
      ensures ok && cache == LoadedCache(files)
    {
      LoadAllTranslations(files);
      return true;
    }
  }
}
