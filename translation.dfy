/** The bilingual columns of projects and listings: a dumped row keeps each text twice, under
    `<field>_vi` and `<field>_en`. A response copies the chosen language into `<field>` and then
    deletes every key that ends in `_vi` or `_en` (backend/app/api/routes/projects.py and
    backend/app/api/routes/ecopark.py do this the same way). */
module Translation {
  import opened Models
  import opened StrUtil

  /** The two languages a request may ask for (the `^(vi|en)$` query pattern). */
  predicate IsLang(lang: string) {
    lang == "vi" || lang == "en"
  }

  /** The column that holds a field in a language. */
  function LangKey(field: string, lang: string): (k: string)
    ensures IsLang(lang) ==> IsTranslatedKey(k)
  {
    field + "_" + lang
  }

  predicate IsTranslatedKey(k: string) {
    EndsWith(k, "_vi") || EndsWith(k, "_en")
  }

  /** The dictionary without its language-specific keys. */
  function Untranslated(d: map<string, Value>): (r: map<string, Value>)
    ensures forall k :: k in r <==> k in d && !IsTranslatedKey(k)
    ensures forall k :: k in r ==> r[k] == d[k]
  {
    map k | k in d && !IsTranslatedKey(k) :: d[k]
  }

  /** The loop `for key in list(d.keys()): if key ends in _vi or _en: del d[key]`. */
  method DropTranslatedKeys(d: map<string, Value>) returns (r: map<string, Value>)
    ensures r == Untranslated(d)
  {
    r := d;
    var todo := d.Keys;
    while todo != {}
      invariant todo <= d.Keys
      invariant forall k :: k in r <==> k in d && (k in todo || !IsTranslatedKey(k))
      invariant forall k :: k in r ==> r[k] == d[k]
      decreases todo
    {
      var k :| k in todo;
      if IsTranslatedKey(k) {
        r := r - {k};
      }
      todo := todo - {k};
    }
  }

  /** Dropping the language-specific keys leaves none of them, and dropping twice is dropping
      once. */
  lemma UntranslatedHasNoLanguageKeys(d: map<string, Value>)
    ensures forall k :: k in Untranslated(d) ==> !EndsWith(k, "_vi") && !EndsWith(k, "_en")
    ensures Untranslated(Untranslated(d)) == Untranslated(d)
  {
  }

  /** `d[f] = d.get(f + "_" + lang)` for each field f in turn. */
  function WithLanguage(d: map<string, Value>, fields: seq<string>, lang: string): (r: map<string, Value>)
    ensures r.Keys == d.Keys + set i | 0 <= i < |fields| :: fields[i]
    ensures forall k :: k in d && k !in fields ==> r[k] == d[k]
    decreases |fields|
  {
    if |fields| == 0 then d
    else WithLanguage(d[fields[0] := Get(d, LangKey(fields[0], lang))], fields[1..], lang)
  }

  /** A column of one language is never a column of the other. */
  lemma LangKeysDiffer(k: string, f: string, lang: string, other: string)
    requires IsLang(lang) && IsLang(other) && lang != other
    ensures LangKey(k, lang) != LangKey(f, other)
  {
    assert LangKey(k, lang)[|LangKey(k, lang)| - 2..] == lang;
    assert LangKey(f, other)[|LangKey(f, other)| - 2..] == other;
  }

  /** Fields that are not themselves language-specific keys. */
  predicate PlainFields(fields: seq<string>) {
    forall i :: 0 <= i < |fields| ==> !IsTranslatedKey(fields[i])
  }

  /** After the copy, each field holds the value of its column in the chosen language. */
  lemma {:induction false} WithLanguageValue(d: map<string, Value>, fields: seq<string>, lang: string, f: string)
    requires IsLang(lang) && PlainFields(fields) && f in fields
    ensures WithLanguage(d, fields, lang)[f] == Get(d, LangKey(f, lang))
    decreases |fields|
  {
    var d' := d[fields[0] := Get(d, LangKey(fields[0], lang))];
    assert LangKey(f, lang) != fields[0];
    if f == fields[0] {
      if f !in fields[1..] {
      } else {
        WithLanguageValue(d', fields[1..], lang, f);
      }
    } else {
      assert f in fields[1..];
      WithLanguageValue(d', fields[1..], lang, f);
    }
  }

  /** The translated view of a dumped row: the chosen language copied into the plain fields,
      then every language-specific key deleted. Any other key keeps its value. */
  function Translated(d: map<string, Value>, fields: seq<string>, lang: string): (r: map<string, Value>)
    requires IsLang(lang) && PlainFields(fields)
    ensures forall k :: k in r ==> !IsTranslatedKey(k)
    ensures forall i :: 0 <= i < |fields| ==> fields[i] in r && r[fields[i]] == Get(d, LangKey(fields[i], lang))
    ensures forall k :: k in d && !IsTranslatedKey(k) && k !in fields ==> k in r && r[k] == d[k]
  {
    var copied := WithLanguage(d, fields, lang);
    assert forall i :: 0 <= i < |fields| ==> copied[fields[i]] == Get(d, LangKey(fields[i], lang)) by {
      forall i | 0 <= i < |fields|
        ensures copied[fields[i]] == Get(d, LangKey(fields[i], lang))
      {
        WithLanguageValue(d, fields, lang, fields[i]);
      }
    }
    Untranslated(copied)
  }

  /** The copy-then-delete loops of the routes compute the translated view. */
  method Translate(d: map<string, Value>, fields: seq<string>, lang: string) returns (r: map<string, Value>)
    requires IsLang(lang) && PlainFields(fields)
    ensures r == Translated(d, fields, lang)
  {
    var copied := WithLanguage(d, fields, lang);
    r := DropTranslatedKeys(copied);
  }
}
