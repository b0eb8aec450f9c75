/** The translation context: a Thai and an English catalogue of strings, the
    current language (Thai by default), and the lookup `t` that falls back to
    the key itself. */
module Language {
  import opened Seqs
  import opened Types

  datatype Lang = Th | En

  /** Key-to-text tables, one per language. */
  datatype Catalog = Catalog(th: map<string, string>, en: map<string, string>)

  function TableOf(cat: Catalog, lang: Lang): map<string, string>
  {
    match lang
    case Th => cat.th
    case En => cat.en
  }

  /** `t(key)`: the entry of the current language when it exists and is not
      empty (JavaScript's `||` skips the empty string), the key otherwise. */
  function T(cat: Catalog, lang: Lang, key: string): (r: string)
    ensures key in TableOf(cat, lang) && TableOf(cat, lang)[key] != "" ==> r == TableOf(cat, lang)[key]
    ensures key !in TableOf(cat, lang) ==> r == key
    ensures key in TableOf(cat, lang) && TableOf(cat, lang)[key] == "" ==> r == key
  {
    var table := TableOf(cat, lang);
    if key in table && table[key] != "" then table[key] else key
  }

  /** `t` never shows an empty string for a non-empty key, and returns
      either the key or a catalogue entry. */
  lemma TNeverBlank(cat: Catalog, lang: Lang, key: string)
    ensures key != "" ==> T(cat, lang, key) != ""
    ensures T(cat, lang, key) == key || T(cat, lang, key) in TableOf(cat, lang).Values
  {
  }

  /** Every key of both catalogues has a section prefix such as "menu.". */
  ghost predicate DottedKeys(cat: Catalog)
  {
    (forall k :: k in cat.th ==> '.' in k) && (forall k :: k in cat.en ==> '.' in k)
  }

  /** With such a catalogue, a key without a dot is never found and is shown
      as it is, in either language. */
  lemma UndottedKeyFallsBack(cat: Catalog, lang: Lang, key: string)
    requires DottedKeys(cat)
    requires '.' !in key
    ensures T(cat, lang, key) == key
  {
  }

  /** The provider's state. */
  datatype LanguageState = LanguageState(language: Lang)

  /** The provider starts in Thai. */
  const DefaultLanguage: Lang := Th

  const Initial: LanguageState := LanguageState(DefaultLanguage)

  /** `setLanguage(lang)`: later lookups use `lang`'s table. */
  function SetLanguage(s: LanguageState, lang: Lang): (r: LanguageState)
    ensures r.language == lang
  {
    s.(language := lang)
  }

  /** The language last set wins, and lookups follow it: the table consulted
      is the one of the language set, whatever was set before. */
  lemma SetLanguageSelectsTable(cat: Catalog, s: LanguageState, a: Lang, b: Lang, key: string)
    ensures SetLanguage(SetLanguage(s, a), b) == SetLanguage(s, b)
    ensures var r := SetLanguage(s, b);
      key in TableOf(cat, b) && TableOf(cat, b)[key] != "" ==> T(cat, r.language, key) == TableOf(cat, b)[key]
    ensures T(cat, Initial.language, key) == T(cat, Th, key)
  {
  }

  const OutsideProviderMessage: string := "useLanguage must be used within a LanguageProvider"

  /** `useLanguage()`: the provider's state, or an error outside a provider. */
  function UseLanguage(ctx: Option<LanguageState>): (r: HookResult<LanguageState>)
    ensures r.Provided? <==> ctx.Some?
    ensures ctx.Some? ==> r.value == ctx.value
    ensures ctx.None? ==> r.message == OutsideProviderMessage
  {
    UseContext(ctx, OutsideProviderMessage)
  }

  /** The "menu." section of the Thai catalogue. */
  const MenuSectionTh: map<string, string> := map[
    "menu.dashboard" := "แดชบอร์ด",
    "menu.tables" := "โต๊ะอาหาร",
    "menu.kitchen" := "ครัว",
    "menu.sales" := "ขายสินค้า",
    "menu.products" := "สินค้า",
    "menu.inventory" := "คลังสินค้า",
    "menu.reports" := "รายงาน",
    "menu.customers" := "ลูกค้า",
    "menu.users" := "ผู้ใช้งาน",
    "menu.settings" := "ตั้งค่า"
  ]

  /** The "menu." section of the English catalogue. */
  const MenuSectionEn: map<string, string> := map[
    "menu.dashboard" := "Dashboard",
    "menu.tables" := "Tables",
    "menu.kitchen" := "Kitchen",
    "menu.sales" := "Sales",
    "menu.products" := "Products",
    "menu.inventory" := "Inventory",
    "menu.reports" := "Reports",
    "menu.customers" := "Customers",
    "menu.users" := "Users",
    "menu.settings" := "Settings"
  ]

  /** The catalogue holds both menu sections as they are written. */
  ghost predicate HasMenuSections(cat: Catalog)
  {
    && (forall k :: k in MenuSectionTh ==> k in cat.th && cat.th[k] == MenuSectionTh[k])
    && (forall k :: k in MenuSectionEn ==> k in cat.en && cat.en[k] == MenuSectionEn[k])
  }
}
