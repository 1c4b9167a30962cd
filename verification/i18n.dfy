/** The language layer: the lookup of a translated string with its fallback
    to English and then to the key itself, the language chosen at start-up
    from browser storage, `setLang` and its persistence, and the reaction to
    a storage event from another tab. The translation tables are a
    parameter: a map from language code to that language's strings. */
module I18n {
  import opened Common

  type Tables = map<string, map<string, string>>

  const English := "en"
  const StorageKey := "synplix-language"

  /** The language codes of the application's tables. */
  const Languages: set<string> := {"en", "hi", "mr", "gu", "ta"}

  /** `translations[lang][key] ?? translations.en[key] ?? key`; an empty
      translation is a value, not a gap. */
  function Translate(tables: Tables, lang: string, key: string): (r: string)
    ensures r == key || (lang in tables && key in tables[lang] && r == tables[lang][key])
                     || (English in tables && key in tables[English] && r == tables[English][key])
  {
    if lang in tables && key in tables[lang] then tables[lang][key]
    else if English in tables && key in tables[English] then tables[English][key]
    else key
  }

  /** When the English table holds every key of every table, a key that
      some table holds is never shown raw: the text comes from the current
      language's table or, failing that, from the English one; and a
      language whose table has every English key never falls back. */
  lemma TranslateFromTables(tables: Tables, lang: string, key: string, holder: string)
    requires English in tables
    requires forall l, k :: l in tables && k in tables[l] ==> k in tables[English]
    requires holder in tables && key in tables[holder]
    ensures var r := Translate(tables, lang, key);
            (lang in tables && key in tables[lang] && r == tables[lang][key]) || r == tables[English][key]
    ensures lang in tables && (forall k :: k in tables[English] ==> k in tables[lang]) ==>
              Translate(tables, lang, key) == tables[lang][key]
  {
  }

  /** A key missing from the current language shows the English text, so the
      English table is the complete one. */
  lemma MissingKeyShowsEnglish(tables: Tables, lang: string, key: string)
    requires English in tables && key in tables[English]
    requires lang !in tables || key !in tables[lang]
    ensures Translate(tables, lang, key) == Translate(tables, English, key)
  {
  }

  // ---------------------------------------------------------------------------
  // Choosing the language
  // ---------------------------------------------------------------------------

  /** The stored value is used when it is a non-empty code with a table. */
  function InitialLang(tables: Tables, stored: Option<string>): (r: string)
    ensures r == English || (stored == Some(r) && r in tables)
  {
    if stored.Some? && stored.value != "" && stored.value in tables then stored.value else English
  }

  /** The language at start-up is the stored one exactly when it is a
      non-empty code naming a table, and English otherwise; it always names a table when English
      has one. */
  lemma InitialLangSpec(tables: Tables, stored: Option<string>)
    ensures stored.Some? && stored.value != "" && stored.value in tables ==> InitialLang(tables, stored) == stored.value
    ensures !(stored.Some? && stored.value != "" && stored.value in tables) ==> InitialLang(tables, stored) == English
    ensures English in tables ==> InitialLang(tables, stored) in tables
  {
  }

  /** `setLang`: the new language becomes current and is written under the
      storage key; nothing else in storage changes. */
  function SetLang(storage: map<string, string>, newLang: string): (r: (string, map<string, string>))
  {
    (newLang, storage[StorageKey := newLang])
  }

  /** What `setLang` stores is what the next start-up picks: a language with
      a table survives a reload. */
  lemma SetLangPersists(tables: Tables, storage: map<string, string>, newLang: string)
    requires newLang in tables && newLang != ""
    ensures var (lang, storage') := SetLang(storage, newLang);
            && lang == newLang
            && StorageKey in storage' && InitialLang(tables, Some(storage'[StorageKey])) == newLang
            && (forall k :: k in storage && k != StorageKey ==> k in storage' && storage'[k] == storage[k])
  {
  }

  /** A storage event from another tab: the language follows it only for the
      language key and a new value that names a table. */
  function OnStorage(tables: Tables, current: string, key: Option<string>, newValue: Option<string>): (r: string)
    ensures r == current || (newValue == Some(r) && r in tables)
  {
    if key == Some(StorageKey) && newValue.Some? && newValue.value != "" && newValue.value in tables then newValue.value
    else current
  }

  lemma OnStorageSpec(tables: Tables, current: string, key: Option<string>, newValue: Option<string>)
    ensures OnStorage(tables, current, key, newValue) != current ==>
              key == Some(StorageKey) && newValue.Some? && newValue.value in tables
    ensures key == Some(StorageKey) && newValue.Some? && newValue.value != "" && newValue.value in tables ==>
              OnStorage(tables, current, key, newValue) == newValue.value
    ensures current in tables ==> OnStorage(tables, current, key, newValue) in tables
  {
  }

  // ---------------------------------------------------------------------------
  // The membership test as written
  // ---------------------------------------------------------------------------

  /** The names every object literal answers to through its prototype. */
  const ObjectPrototypeNames: set<string> :=
    {"constructor", "hasOwnProperty", "isPrototypeOf", "propertyIsEnumerable", "toLocaleString",
     "toString", "valueOf", "__proto__", "__defineGetter__", "__defineSetter__",
     "__lookupGetter__", "__lookupSetter__"}

  /** JavaScript's `name in translations`: own keys and inherited ones. */
  predicate InObject(tables: Tables, name: string) {
    name in tables || name in ObjectPrototypeNames
  }

  /** The start-up choice with the `in` test as the code writes it. */
  function InitialLangAsWritten(tables: Tables, stored: Option<string>): (r: string)
    ensures r == English || stored == Some(r)
  {
    if stored.Some? && stored.value != "" && InObject(tables, stored.value) then stored.value else English
  }

  /** The storage-event handler with the same test. */
  function OnStorageAsWritten(tables: Tables, current: string, key: Option<string>, newValue: Option<string>): (r: string)
    ensures r == current || newValue == Some(r)
  {
    if key == Some(StorageKey) && newValue.Some? && newValue.value != "" && InObject(tables, newValue.value) then newValue.value
    else current
  }

  /** The stored value `toString` passes the test: the language becomes a
      code with no table, from start-up or from another tab. */
  lemma ToStringAccepted(tables: Tables, current: string)
    requires tables.Keys == Languages
    ensures InitialLangAsWritten(tables, Some("toString")) == "toString" && "toString" !in tables
    ensures OnStorageAsWritten(tables, current, Some(StorageKey), Some("toString")) == "toString"
  {
    assert "toString" in ObjectPrototypeNames;
    assert "toString" !in Languages by {
      assert |"toString"| != 2;
    }
  }

  /** With the own-key test the corrected start-up choice and storage
      handler agree with the written ones on every value except the
      inherited names. */
  lemma CorrectedAgrees(tables: Tables, stored: Option<string>, current: string, key: Option<string>)
    ensures stored.Some? && stored.value !in ObjectPrototypeNames ==>
              InitialLang(tables, stored) == InitialLangAsWritten(tables, stored)
    ensures stored.None? ==> InitialLang(tables, stored) == InitialLangAsWritten(tables, stored)
    ensures stored.Some? && stored.value !in ObjectPrototypeNames ==>
              OnStorage(tables, current, key, stored) == OnStorageAsWritten(tables, current, key, stored)
    ensures stored.None? ==> OnStorage(tables, current, key, stored) == OnStorageAsWritten(tables, current, key, stored)
  {
  }
}
