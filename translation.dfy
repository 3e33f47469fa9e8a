/**
 * Text lookup (`CDataBase.StrTranslation`, the same in both database
 * versions) and the older tournament database's routing of keys between
 * its own table and the localization table.
 *
 * A table maps a lower-case key to the texts of that key by locale name.
 * The language of a locale (babel's `Locale.parse(strLocale).language`)
 * is an input.
 */
module Translations {
  import opened Wrappers
  import opened Text

  type Table = map<string, map<string, string>>

  /** The text for `loc` exists and is not empty (`if strText := ...`). */
  predicate HasText(texts: map<string, string>, loc: string)
  {
    loc in texts && texts[loc] != ""
  }

  /**
   * `StrTranslation`: the key is lower-cased and must be in the table
   * (`KeyError`); a non-empty text for the exact locale wins, then a
   * non-empty text for its language, and otherwise the English text is
   * returned as it is, empty or not (`KeyError` when there is none).
   */
  function Translate(table: Table, key: string, locale: string, language: string): (r: Result<string>)
    ensures r.Ok? <==> (Lower(key) in table &&
      (HasText(table[Lower(key)], locale) || HasText(table[Lower(key)], language) || "en" in table[Lower(key)]))
    ensures r.Ok? ==> r.value in table[Lower(key)].Values
  {
    var k := Lower(key);
    if k !in table then Err("KeyError: no such text key")
    else
      var texts := table[k];
      if HasText(texts, locale) then Ok(texts[locale])
      else if HasText(texts, language) then Ok(texts[language])
      else if "en" in texts then Ok(texts["en"])
      else Err("KeyError: no English text")
  }

  /**
   * The fallback order: the exact locale's text when it is non-empty, else
   * the language's when that is non-empty, else English; an empty result
   * can only be the English text.
   */
  lemma TranslateFallback(table: Table, key: string, locale: string, language: string)
    requires Lower(key) in table
    ensures var texts, r := table[Lower(key)], Translate(table, key, locale, language);
      && (HasText(texts, locale) ==> r == Ok(texts[locale]))
      && (!HasText(texts, locale) && HasText(texts, language) ==> r == Ok(texts[language]))
      && (!HasText(texts, locale) && !HasText(texts, language) && "en" in texts ==> r == Ok(texts["en"]))
      && (r.Ok? && r.value == "" ==> "en" in texts && texts["en"] == "")
  {
  }

  /** The key's letter case does not matter. */
  lemma TranslateIgnoresCase(table: Table, key: string, locale: string, language: string)
    ensures Translate(table, key, locale, language) == Translate(table, Lower(key), locale, language)
  {
    LowerIdempotent(key);
  }

  /** The prefixes of keys the older tournament database answers itself (`s_lStrKeyLocPrefix`). */
  const LocPrefixes: seq<string> := ["tournament", "colors"]

  /** `strKey.startswith(prefix + '.')` */
  predicate HasPrefix(key: string, prefix: string)
  {
    |prefix| + 1 <= |key| && key[..|prefix| + 1] == prefix + "."
  }

  /** The first prefix of `prefixes`, from `i` on, that `key` starts with (followed by a dot). */
  function FirstPrefix(key: string, prefixes: seq<string>, i: nat): (r: Option<nat>)
    decreases |prefixes| - i
    ensures r.Some? ==> i <= r.value < |prefixes| && HasPrefix(key, prefixes[r.value])
    ensures r.None? <==> forall j :: i <= j < |prefixes| ==> !HasPrefix(key, prefixes[j])
  {
    if i >= |prefixes| then None
    else if HasPrefix(key, prefixes[i]) then Some(i)
    else FirstPrefix(key, prefixes, i + 1)
  }

  predicate Routed(key: string)
  {
    FirstPrefix(key, LocPrefixes, 0).Some?
  }

  /**
   * The older `CTournamentDataBase.StrTranslation`: a key under one of the
   * tournament's own prefixes is looked up in the tournament's table and
   * must not also be a key of the localization table (the `assert`, on
   * the key as given); every other key goes to the localization table.
   */
  function TranslateRouted(tourn: Table, loc: Table, key: string, locale: string, language: string): (r: Result<string>)
  {
    if Routed(key) then
      if key in loc then Err("AssertionError: tournament key also in the localization table")
      else Translate(tourn, key, locale, language)
    else Translate(loc, key, locale, language)
  }

  /**
   * Routing keeps the two tables apart: a routed key's text comes from the
   * tournament's table and does not depend on the localization table's
   * texts, and any other key's text comes from the localization table and
   * does not depend on the tournament's table at all.
   */
  lemma RoutingSeparates(tourn: Table, loc: Table, tourn': Table, loc': Table, key: string, locale: string, language: string)
    requires loc'.Keys == loc.Keys
    ensures Routed(key) ==> TranslateRouted(tourn, loc', key, locale, language) == TranslateRouted(tourn, loc, key, locale, language)
    ensures Routed(key) && key !in loc ==> TranslateRouted(tourn, loc, key, locale, language) == Translate(tourn, key, locale, language)
    ensures !Routed(key) ==>
      TranslateRouted(tourn', loc, key, locale, language) == TranslateRouted(tourn, loc, key, locale, language) == Translate(loc, key, locale, language)
  {
  }

  /** Exactly the keys beginning "tournament." or "colors." are routed. */
  lemma RoutedKeys(key: string)
    ensures Routed(key) <==> HasPrefix(key, "tournament") || HasPrefix(key, "colors")
  {
    assert LocPrefixes[0] == "tournament" && LocPrefixes[1] == "colors";
  }
}
