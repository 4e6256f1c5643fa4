/** filter_ecopark_by_json of backend/app/api/routes/ecopark.py: a JSON payload becomes a list
    of column conditions, the listings that meet all of them are selected, and each one is
    shown with its texts in the chosen language. */
module EcoparkFilter {
  import opened Wrappers
  import opened Models
  import opened StrUtil
  import Seqs
  import opened Deps
  import opened Translation
  import opened EcoparkNames

  // ---------------------------------------------------------------- payload values

  /** A value of the JSON payload. Numbers with a fraction, lists and objects are not part of
      this model. */
  datatype Json = JNull | JBool(b: bool) | JInt(i: int) | JStr(s: string)

  /** Python truthiness of a payload value. */
  predicate JTruthy(v: Json) {
    match v
    case JNull => false
    case JBool(b) => b
    case JInt(i) => i != 0
    case JStr(s) => s != ""
  }

  /** `int(v)`: a boolean is 0 or 1, an integer itself, a text must be a numeral (None stands
      for the ValueError otherwise). `int(None)` is never asked for. */
  function PyInt(v: Json): (r: Option<int>)
    requires !v.JNull?
    ensures v.JInt? ==> r == Some(v.i)
    ensures v.JStr? && IsDigits(v.s) ==> r == Some(DigitsValue(v.s))
  {
    if v.JBool? then Some(if v.b then 1 else 0)
    else if v.JInt? then Some(v.i)
    else
      assert IsDigits(v.s) ==> ParseInt(v.s) == Some(DigitsValue(v.s)) by {
        if IsDigits(v.s) {
          ParseIntOfDigits(v.s);
        }
      }
      ParseInt(v.s)
  }

  /** `str(v)`. */
  function PyStr(v: Json): string {
    match v
    case JNull => "None"
    case JBool(b) => if b then "True" else "False"
    case JInt(i) => IntToStr(i)
    case JStr(s) => s
  }

  /** The payload dictionary, in its insertion order. */
  type Payload = seq<(string, Json)>

  predicate DistinctKeys(p: Payload) {
    forall i, j :: 0 <= i < j < |p| ==> p[i].0 != p[j].0
  }

  /** `key in payload`. */
  predicate HasKey(p: Payload, key: string) {
    exists i :: 0 <= i < |p| && p[i].0 == key
  }

  /** The entry stored under a key, if there is one. */
  function Lookup(p: Payload, key: string): (r: Option<Json>)
    ensures r.None? <==> !HasKey(p, key)
    ensures r.Some? ==> exists i :: 0 <= i < |p| && p[i] == (key, r.value)
  {
    if |p| == 0 then None
    else if p[0].0 == key then Some(p[0].1)
    else
      var r := Lookup(p[1..], key);
      assert forall i :: 0 <= i < |p[1..]| ==> p[1..][i] == p[i + 1];
      r
  }

  /** A decoded JSON object has each key once, so the lookup finds the value of that key's
      one entry. */
  lemma LookupUnique(p: Payload, key: string, i: nat)
    requires DistinctKeys(p) && i < |p| && p[i].0 == key
    ensures Lookup(p, key) == Some(p[i].1)
  {
    var j :| 0 <= j < |p| && p[j] == (key, Lookup(p, key).value);
    assert j == i;
  }

  /** `payload.get(key)` when it is not None: a key that is missing or holds null gives None. */
  function Given(p: Payload, key: string): (r: Option<Json>)
    ensures r.Some? <==> Lookup(p, key).Some? && !Lookup(p, key).value.JNull?
    ensures r.Some? ==> r.value == Lookup(p, key).value
  {
    match Lookup(p, key)
    case None => None
    case Some(v) => if v.JNull? then None else Some(v)
  }

  // ---------------------------------------------------------------- conditions

  /** A condition of the WHERE clause. */
  datatype Condition =
    | PriceAtLeast(low: int)                  // price >= low
    | PriceAtMost(high: int)                  // price <= high
    | IntEquals(column: string, n: int)       // column == n
    | TextEquals(column: string, text: string) // column == text

  /** Whether a dumped listing meets a condition; a NULL column meets none. */
  predicate Holds(c: Condition, d: map<string, Value>) {
    match c
    case PriceAtLeast(low) => Get(d, "price").Int? && Get(d, "price").i >= low
    case PriceAtMost(high) => Get(d, "price").Int? && Get(d, "price").i <= high
    case IntEquals(column, n) => Get(d, column) == Int(n)
    case TextEquals(column, text) => Get(d, column) == Str(text)
  }

  predicate HoldsAll(cs: seq<Condition>, d: map<string, Value>) {
    forall i :: 0 <= i < |cs| ==> Holds(cs[i], d)
  }

  function MeetsAll(cs: seq<Condition>): map<string, Value> -> bool {
    (d: map<string, Value>) => HoldsAll(cs, d)
  }

  /** The bounds given as min_price and max_price, in that order. Either one that is not an
      integer is refused with 400, whichever the other is. */
  function PriceBounds(p: Payload): (r: Result<seq<Condition>>)
    ensures r.Err? <==> (Given(p, "min_price").Some? && PyInt(Given(p, "min_price").value).None?)
                        || (Given(p, "max_price").Some? && PyInt(Given(p, "max_price").value).None?)
    ensures r.Err? ==> r.error == BadRequest
    ensures r.Ok? ==> forall i :: 0 <= i < |r.value| ==>
              && (r.value[i].PriceAtLeast? ==> Given(p, "min_price").Some? && PyInt(Given(p, "min_price").value) == Some(r.value[i].low))
              && (r.value[i].PriceAtMost? ==> Given(p, "max_price").Some? && PyInt(Given(p, "max_price").value) == Some(r.value[i].high))
              && (r.value[i].PriceAtLeast? || r.value[i].PriceAtMost?)
    ensures r.Ok? && Given(p, "min_price").Some? ==> PriceAtLeast(PyInt(Given(p, "min_price").value).value) in r.value
    ensures r.Ok? && Given(p, "max_price").Some? ==> PriceAtMost(PyInt(Given(p, "max_price").value).value) in r.value
  {
    var low := Given(p, "min_price");
    var high := Given(p, "max_price");
    if low.Some? && PyInt(low.value).None? then Err(BadRequest)
    else if high.Some? && PyInt(high.value).None? then Err(BadRequest)
    else
      Ok((if low.Some? then [PriceAtLeast(PyInt(low.value).value)] else [])
         + (if high.Some? then [PriceAtMost(PyInt(high.value).value)] else []))
  }

  /** A price range is skipped as soon as either bound key is present, even holding null. */
  predicate SkipPriceFilter(p: Payload) {
    HasKey(p, "min_price") || HasKey(p, "max_price")
  }

  /** Keys whose column depends on the language. */
  const TranslatableFilterFields: seq<string> := ["status", "direction", "building_type", "zone_name", "amenity_type", "description"]

  /** Keys the loop passes over. */
  const SkippedKeys: seq<string> := ["min_price", "max_price", "lang"]

  /** The column a key names: `key_{lang}` for a translatable key, the key itself otherwise. */
  function FilterColumn(key: string, lang: string): (col: string)
    ensures key in TranslatableFilterFields ==> col == LangKey(key, lang)
    ensures key !in TranslatableFilterFields ==> col == key
  {
    if key in TranslatableFilterFields then LangKey(key, lang) else key
  }

  /** A price written "a-b": exactly two integers around one dash give both bounds, anything
      else is refused with 400. */
  function PriceRange(s: string): (r: Result<seq<Condition>>)
    ensures r.Ok? <==> |Split(s, '-')| == 2 && ParseInt(Split(s, '-')[0]).Some? && ParseInt(Split(s, '-')[1]).Some?
    ensures r.Ok? ==> r.value == [PriceAtLeast(ParseInt(Split(s, '-')[0]).value), PriceAtMost(ParseInt(Split(s, '-')[1]).value)]
    ensures r.Err? ==> r.error == BadRequest
  {
    var parts := Split(s, '-');
    if |parts| == 2 && ParseInt(parts[0]).Some? && ParseInt(parts[1]).Some? then
      Ok([PriceAtLeast(ParseInt(parts[0]).value), PriceAtMost(ParseInt(parts[1]).value)])
    else Err(BadRequest)
  }

  /** One turn of the payload loop: the conditions one entry adds. */
  function Step(key: string, value: Json, lang: string, skipPrice: bool): (r: Result<seq<Condition>>)
    ensures !JTruthy(value) || key in SkippedKeys ==> r == Ok([])
    ensures JTruthy(value) && key !in SkippedKeys && FilterColumn(key, lang) !in EcoparkColumns ==> r == Err(BadRequest)
    ensures r.Ok? ==> forall i :: 0 <= i < |r.value| ==> (r.value[i].PriceAtLeast? || r.value[i].PriceAtMost?) ==>
              key == "price" && !skipPrice
    ensures JTruthy(value) && key !in SkippedKeys && FilterColumn(key, lang) in EcoparkColumns ==>
              && (key == "price" && !skipPrice && value.JStr? && '-' in value.s ==> r == PriceRange(value.s))
              && (key == "price" && !skipPrice && !(value.JStr? && '-' in value.s) ==>
                    r == if PyInt(value).Some? then Ok([IntEquals(FilterColumn(key, lang), PyInt(value).value)]) else Err(BadRequest))
              && (key == "bedroom" ==>
                    r == if PyInt(value).Some? then Ok([IntEquals("bedroom", PyInt(value).value)]) else Err(ValueError))
              && (key != "bedroom" && !(key == "price" && !skipPrice) ==>
                    r == Ok([TextEquals(FilterColumn(key, lang), PyStr(value))]))
  {
    if !JTruthy(value) || key in SkippedKeys then Ok([])
    else
      var col := FilterColumn(key, lang);
      if col !in EcoparkColumns then Err(BadRequest)
      else if key == "price" && !skipPrice then
        if value.JStr? && '-' in value.s then PriceRange(value.s)
        else
          match PyInt(value)
          case Some(n) => Ok([IntEquals(col, n)])
          case None => Err(BadRequest)
      else if key == "bedroom" then
        match PyInt(value)
        case Some(n) => Ok([IntEquals(key, n)])
        case None => Err(ValueError)
      else Ok([TextEquals(col, PyStr(value))])
  }

  /** The conditions the loop has gathered after the given entries; the first entry that
      fails ends it with its error. */
  function Steps(entries: Payload, lang: string, skipPrice: bool): (r: Result<seq<Condition>>)
    decreases |entries|
  {
    if |entries| == 0 then Ok([])
    else
      var last := entries[|entries| - 1];
      match Steps(entries[..|entries| - 1], lang, skipPrice)
      case Err(e) => Err(e)
      case Ok(cs) =>
        match Step(last.0, last.1, lang, skipPrice)
        case Err(e) => Err(e)
        case Ok(more) => Ok(cs + more)
  }

  /** All the conditions of a payload: the bounds, then one entry after another. */
  function FilterConditions(p: Payload, lang: string): (r: Result<seq<Condition>>)
    ensures PriceBounds(p).Err? ==> r == PriceBounds(p)
    ensures PriceBounds(p).Ok? && Steps(p, lang, SkipPriceFilter(p)).Err? ==> r == Steps(p, lang, SkipPriceFilter(p))
    ensures r.Ok? <==> PriceBounds(p).Ok? && Steps(p, lang, SkipPriceFilter(p)).Ok?
    ensures r.Ok? ==> r.value == PriceBounds(p).value + Steps(p, lang, SkipPriceFilter(p)).value
  {
    match PriceBounds(p)
    case Err(e) => Err(e)
    case Ok(bounds) =>
      match Steps(p, lang, SkipPriceFilter(p))
      case Err(e) => Err(e)
      case Ok(cs) => Ok(bounds + cs)
  }

  /** The handler's code up to the query: the bounds, then the loop over the payload. */
  method BuildConditions(p: Payload, lang: string) returns (r: Result<seq<Condition>>)
    ensures r == FilterConditions(p, lang)
  {
    var bounds := PriceBounds(p);
    if bounds.Err? {
      return bounds;
    }
    var skip := HasKey(p, "min_price") || HasKey(p, "max_price");
    var steps := RunSteps(p, lang, skip);
    if steps.Err? {
      return steps;
    }
    r := Ok(bounds.value + steps.value);
  }

  /** The loop over the payload: each entry's conditions in turn, stopping at the first failure. */
  method RunSteps(p: Payload, lang: string, skip: bool) returns (r: Result<seq<Condition>>)
    ensures r == Steps(p, lang, skip)
  {
    var conditions: seq<Condition> := [];
    var k := 0;
    while k < |p|
      invariant 0 <= k <= |p|
      invariant Steps(p[..k], lang, skip) == Ok(conditions)
    {
      var step := Step(p[k].0, p[k].1, lang, skip);
      StepsSnoc(p, lang, skip, k);
      if step.Err? {
        StepsKeepFailing(p, lang, skip, k + 1);
        assert p[..|p|] == p;
        return Err(step.error);
      }
      conditions := conditions + step.value;
      k := k + 1;
    }
    assert p[..k] == p;
    r := Ok(conditions);
  }

  /** One more entry: the loop so far, then that entry's step. */
  lemma StepsSnoc(p: Payload, lang: string, skip: bool, k: nat)
    requires k < |p|
    ensures Steps(p[..k], lang, skip).Ok? && Step(p[k].0, p[k].1, lang, skip).Ok? ==>
              Steps(p[..k + 1], lang, skip) == Ok(Steps(p[..k], lang, skip).value + Step(p[k].0, p[k].1, lang, skip).value)
    ensures Steps(p[..k], lang, skip).Ok? && Step(p[k].0, p[k].1, lang, skip).Err? ==>
              Steps(p[..k + 1], lang, skip) == Step(p[k].0, p[k].1, lang, skip)
  {
    assert p[..k + 1][..k] == p[..k];
  }

  /** Once an entry has failed, the loop ends with that failure whatever follows. */
  lemma {:induction false} StepsKeepFailing(p: Payload, lang: string, skip: bool, k: nat)
    requires k <= |p| && Steps(p[..k], lang, skip).Err?
    ensures Steps(p, lang, skip) == Steps(p[..k], lang, skip)
    decreases |p| - k
  {
    if k < |p| {
      assert p[..k + 1][..k] == p[..k];
      StepsKeepFailing(p, lang, skip, k + 1);
    } else {
      assert p[..k] == p;
    }
  }

  /** An entry that fails makes the whole loop fail. */
  lemma {:induction false} StepFailureFails(p: Payload, lang: string, skip: bool, i: nat)
    requires i < |p| && Step(p[i].0, p[i].1, lang, skip).Err?
    ensures Steps(p, lang, skip).Err?
  {
    assert p[..i + 1][..i] == p[..i];
    assert Steps(p[..i + 1], lang, skip).Err?;
    StepsKeepFailing(p, lang, skip, i + 1);
  }

  /** A truthy entry whose key names no column makes the request fail: with 400, unless an
      earlier entry already failed otherwise. */
  lemma UnknownColumnRefused(p: Payload, lang: string, i: nat)
    requires i < |p| && JTruthy(p[i].1) && p[i].0 !in SkippedKeys && FilterColumn(p[i].0, lang) !in EcoparkColumns
    ensures FilterConditions(p, lang).Err?
  {
    StepFailureFails(p, lang, SkipPriceFilter(p), i);
  }

  /** With a bound key present, no entry adds a price bound. */
  lemma {:induction false} SkippedStepsHaveNoBounds(entries: Payload, lang: string)
    requires Steps(entries, lang, true).Ok?
    ensures forall i :: 0 <= i < |Steps(entries, lang, true).value| ==>
              !Steps(entries, lang, true).value[i].PriceAtLeast? && !Steps(entries, lang, true).value[i].PriceAtMost?
    decreases |entries|
  {
    if |entries| > 0 {
      SkippedStepsHaveNoBounds(entries[..|entries| - 1], lang);
    }
  }

  /** A price bound that comes from the min_price or max_price key. */
  predicate FromBoundKeys(p: Payload, c: Condition) {
    && (c.PriceAtLeast? ==> Given(p, "min_price").Some? && PyInt(Given(p, "min_price").value) == Some(c.low))
    && (c.PriceAtMost? ==> Given(p, "max_price").Some? && PyInt(Given(p, "max_price").value) == Some(c.high))
  }

  /** A price range counts only when neither min_price nor max_price is in the payload: then
      every price bound of the query is one of the given bounds; without them no bound comes
      from the bound keys. */
  lemma RangeOnlyWithoutBounds(p: Payload, lang: string)
    requires FilterConditions(p, lang).Ok?
    ensures SkipPriceFilter(p) ==> forall c :: c in FilterConditions(p, lang).value ==> FromBoundKeys(p, c)
    ensures !SkipPriceFilter(p) ==> PriceBounds(p) == Ok([])
  {
    var bounds: seq<Condition> := PriceBounds(p).value;
    var steps: seq<Condition> := Steps(p, lang, SkipPriceFilter(p)).value;
    var all: seq<Condition> := FilterConditions(p, lang).value;
    assert all == bounds + steps;
    if SkipPriceFilter(p) {
      SkippedStepsHaveNoBounds(p, lang);
      forall c | c in all
        ensures FromBoundKeys(p, c)
      {
        if c in bounds {
          var k :| 0 <= k < |bounds| && bounds[k] == c;
        } else {
          var k :| 0 <= k < |steps| && steps[k] == c;
        }
      }
    } else {
      assert Given(p, "min_price").None? && Given(p, "max_price").None?;
    }
  }

  /** A price text that starts with a dash is read as a range with an empty lower end, so a
      negative price is refused where `int()` alone would have taken it. */
  lemma NegativePriceRefused(s: string)
    requires |s| > 0 && s[0] == '-'
    ensures PriceRange(s) == Err(BadRequest)
  {
    assert Split(s, '-')[0] == "";
  }

  /** "a-b" with two numerals gives exactly the bounds a and b. */
  lemma PriceRangeOfNumerals(a: string, b: string)
    requires IsDigits(a) && IsDigits(b)
    ensures PriceRange(a + "-" + b) == Ok([PriceAtLeast(DigitsValue(a)), PriceAtMost(DigitsValue(b))])
  {
    assert '-' !in a && '-' !in b;
    SplitTwo(a, b, '-');
    ParseIntOfDigits(a);
    ParseIntOfDigits(b);
  }

  /** The same price text is a range without bound keys and a plain text comparison with
      them. */
  lemma PriceTextWithBoundKeys(s: string, lang: string)
    requires '-' in s
    ensures Step("price", JStr(s), lang, false) == PriceRange(s)
    ensures Step("price", JStr(s), lang, true) == Ok([TextEquals("price", s)])
  {
    PriceKeyFacts();
    assert JTruthy(JStr(s));
    assert FilterColumn("price", lang) == "price";
  }

  /** "price" is a listing column that names itself, is not skipped and is not "bedroom". */
  lemma PriceKeyFacts()
    ensures "price" in EcoparkColumns && "price" != "bedroom"
    ensures "price" !in TranslatableFilterFields && "price" !in SkippedKeys
  {
    assert "price" in EcoparkIntColumns;
  }

  // ---------------------------------------------------------------- the response

  /** The fields copied as they are, and the fields shown in the chosen language. */
  const CopiedFields: seq<string> := ["id", "building_name", "picture_name", "zone", "amenity", "bedroom", "price", "project_id"]
  const DisplayFields: seq<string> := ["zone_name", "building_type", "amenity_type", "direction", "status", "description"]

  /** A field in the chosen language, or in English when that value is None. */
  function Chosen(d: map<string, Value>, field: string, lang: string): (v: Value)
    ensures Get(d, LangKey(field, lang)) != Null ==> v == Get(d, LangKey(field, lang))
    ensures Get(d, LangKey(field, lang)) == Null ==> v == Get(d, LangKey(field, "en"))
  {
    var v := Get(d, LangKey(field, lang));
    if v.Null? then Get(d, LangKey(field, "en")) else v
  }

  /** An English request is never changed by the fallback; a Vietnamese one shows None only
      when neither language has a value. */
  lemma ChosenFallback(d: map<string, Value>, field: string)
    ensures Chosen(d, field, "en") == Get(d, LangKey(field, "en"))
    ensures Chosen(d, field, "vi") == Null <==> Get(d, LangKey(field, "vi")) == Null && Get(d, LangKey(field, "en")) == Null
  {
  }

  /** The text of an optional column, as `if not picture_name` reads it. */
  function TextOf(v: Value): (r: Option<string>)
    ensures r.Some? <==> v.Str?
  {
    if v.Str? then Some(v.s) else None
  }

  /** The item before its image: each copied field as the row has it, each display field in
      the chosen language. */
  function Shown(d: map<string, Value>, copied: seq<string>, shown: seq<string>, lang: string): (m: map<string, Value>)
    ensures m.Keys == (set f | f in copied) + (set f | f in shown)
    ensures forall f :: f in shown ==> m[f] == Chosen(d, f, lang)
    ensures forall f :: f in copied && f !in shown ==> m[f] == Get(d, f)
  {
    map k | k in (set f | f in copied) + (set f | f in shown) :: if k in shown then Chosen(d, k, lang) else Get(d, k)
  }

  /** A response item: the copied and display fields and the image URL of its picture name. */
  function DisplayItem(d: map<string, Value>, copied: seq<string>, shown: seq<string>, base: string, lang: string)
    : (item: map<string, Value>)
  {
    var m := Shown(d, copied, shown, lang);
    m["image_url" := OptionText(EcoImageUrl(base, TextOf(Get(m, "picture_name"))))]
  }

  /** The copying loops of one item. */
  method BuildItem(d: map<string, Value>, copied: seq<string>, shown: seq<string>, base: string, lang: string)
    returns (item: map<string, Value>)
    ensures item == DisplayItem(d, copied, shown, base, lang)
  {
    item := CopyFields(d, copied);
    item := ShowFields(d, item, copied, shown, lang);
    item := item["image_url" := OptionText(EcoImageUrl(base, TextOf(Get(item, "picture_name"))))];
  }

  /** The fixed copies: each copied field as the listing has it. */
  method CopyFields(d: map<string, Value>, copied: seq<string>) returns (item: map<string, Value>)
    ensures item.Keys == set f | f in copied
    ensures forall k :: k in item ==> item[k] == Get(d, k)
  {
    item := map[];
    for i := 0 to |copied|
      invariant item.Keys == set f | f in copied[..i]
      invariant forall k :: k in item ==> item[k] == Get(d, k)
    {
      assert copied[..i + 1] == copied[..i] + [copied[i]];
      item := item[copied[i] := Get(d, copied[i])];
    }
    assert copied[..|copied|] == copied;
  }

  /** The loop over the display fields, each in the chosen language or else in English. */
  method ShowFields(d: map<string, Value>, start: map<string, Value>, copied: seq<string>, shown: seq<string>, lang: string)
    returns (item: map<string, Value>)
    requires start.Keys == set f | f in copied
    requires forall k :: k in start ==> start[k] == Get(d, k)
    ensures item == Shown(d, copied, shown, lang)
  {
    item := start;
    for j := 0 to |shown|
      invariant item.Keys == (set f | f in copied) + (set f | f in shown[..j])
      invariant forall k :: k in item ==> item[k] == if k in shown[..j] then Chosen(d, k, lang) else Get(d, k)
    {
      assert shown[..j + 1] == shown[..j] + [shown[j]];
      var chosen := Get(d, LangKey(shown[j], lang));
      if chosen.Null? {
        chosen := Get(d, LangKey(shown[j], "en"));
      }
      item := item[shown[j] := chosen];
    }
    assert shown[..|shown|] == shown;
  }

  /** What an item shows of a listing: each display field in the chosen language with the
      English fallback, each other copied field as the listing has it (None for a field that
      is no column, such as project_id), and the URL of the picture name when there is one. */
  lemma DisplayItemShape(d: map<string, Value>, copied: seq<string>, shown: seq<string>, base: string, lang: string)
    requires "picture_name" in copied && "picture_name" !in shown && "image_url" !in shown
    ensures forall f :: f in shown ==> DisplayItem(d, copied, shown, base, lang)[f] == Chosen(d, f, lang)
    ensures forall f :: f in copied && f !in shown && f != "image_url" ==> DisplayItem(d, copied, shown, base, lang)[f] == Get(d, f)
    ensures DisplayItem(d, copied, shown, base, lang)["image_url"] == OptionText(EcoImageUrl(base, TextOf(Get(d, "picture_name"))))
  {
  }

  /** The fields the route copies and shows. */
  lemma ResponseFieldsFacts()
    ensures "picture_name" in CopiedFields && "picture_name" !in DisplayFields && "image_url" !in DisplayFields
    ensures "project_id" in CopiedFields && "project_id" !in DisplayFields && "project_id" !in EcoparkColumns
  {
    ProjectIdIsNoColumn();
  }

  /** A listing has no project column. */
  lemma ProjectIdIsNoColumn()
    ensures "project_id" !in EcoparkColumns
  {
    assert "project_id" !in EcoparkTextColumns;
  }

  /** The gate of every ecopark route: the caller's role in the project, then the rank
      threshold. */
  function ProjectGate(rows: seq<Assignment>, roles: map<Uuid, Role>, u: User, projectId: Uuid, minRank: int): (r: Result<AccessInfo>)
    ensures r.Ok? <==> RoleInProject(rows, roles, u, projectId).Ok? && RoleInProject(rows, roles, u, projectId).value.rank <= minRank
    ensures r.Err? ==> r.error == Forbidden
  {
    match RoleInProject(rows, roles, u, projectId)
    case Err(e) => Err(e)
    case Ok(info) => VerifyRankInProject(minRank, info)
  }

  /** The listings the query returns, in table order. */
  function Selected(listings: seq<map<string, Value>>, cs: seq<Condition>): (r: seq<map<string, Value>>)
    ensures forall i :: 0 <= i < |r| ==> r[i] in listings && HoldsAll(cs, r[i])
    ensures forall j :: 0 <= j < |listings| && HoldsAll(cs, listings[j]) ==> listings[j] in r
    ensures Seqs.KeepsInOrder(r, listings, MeetsAll(cs))
  {
    Seqs.FilterInOrder(listings, MeetsAll(cs));
    Seqs.Filter(listings, MeetsAll(cs))
  }

  /** filter_ecopark_by_json: the gate (403), the language (422), the conditions (400, or a
      server error for a bedroom that is not an integer), then one item per selected
      listing. */
  function FilterResponse(rows: seq<Assignment>, roles: map<Uuid, Role>, u: User, projectId: Uuid, minRank: int,
                          listings: seq<map<string, Value>>, base: string, lang: string, p: Payload)
    : (r: Result<seq<map<string, Value>>>)
    ensures ProjectGate(rows, roles, u, projectId, minRank).Err? ==> r == Err(Forbidden)
    ensures ProjectGate(rows, roles, u, projectId, minRank).Ok? && !IsLang(lang) ==> r == Err(Unprocessable)
    ensures ProjectGate(rows, roles, u, projectId, minRank).Ok? && IsLang(lang) && FilterConditions(p, lang).Err? ==>
              r == Err(FilterConditions(p, lang).error)
    ensures r.Ok? ==> ProjectGate(rows, roles, u, projectId, minRank).Ok? && IsLang(lang) && FilterConditions(p, lang).Ok?
    ensures r.Ok? ==> |r.value| == |Selected(listings, FilterConditions(p, lang).value)|
    ensures r.Ok? ==> forall i :: 0 <= i < |r.value| ==>
              r.value[i] == DisplayItem(Selected(listings, FilterConditions(p, lang).value)[i], CopiedFields, DisplayFields, base, lang)
  {
    match ProjectGate(rows, roles, u, projectId, minRank)
    case Err(e) => Err(e)
    case Ok(_) =>
      if !IsLang(lang) then Err(Unprocessable)
      else
        match FilterConditions(p, lang)
        case Err(e) => Err(e)
        case Ok(cs) =>
          Ok(DisplayItems(Selected(listings, cs), CopiedFields, DisplayFields, base, lang))
  }

  /** The ids the route publishes before answering: the truthy `id` of each selected listing,
      in order. */
  function PublishedIds(sel: seq<map<string, Value>>): (ids: seq<Value>)
    ensures |ids| <= |sel|
    ensures forall j :: 0 <= j < |ids| ==> Truthy(ids[j])
    ensures (forall i :: 0 <= i < |sel| ==> Get(sel[i], "id").Id?) ==> ids == seq(|sel|, i requires 0 <= i < |sel| => Get(sel[i], "id"))
  {
    if |sel| == 0 then []
    else (if Truthy(Get(sel[0], "id")) then [Get(sel[0], "id")] else []) + PublishedIds(sel[1..])
  }

  /** What `json.dumps` can encode: null, booleans, integers and strings; a UUID raises. */
  predicate JsonEncodable(v: Value) {
    !v.Id?
  }

  /** Publishing the selection's ids raises: one of them is a UUID. */
  predicate PublishFails(sel: seq<map<string, Value>>) {
    exists j :: 0 <= j < |PublishedIds(sel)| && !JsonEncodable(PublishedIds(sel)[j])
  }

  /** When every listing's id is a UUID, publishing a selection fails exactly when it is
      non-empty. */
  lemma SelectedIdsAreUuids(listings: seq<map<string, Value>>, cs: seq<Condition>)
    requires forall i :: 0 <= i < |listings| ==> Get(listings[i], "id").Id?
    ensures PublishFails(Selected(listings, cs)) <==> |Selected(listings, cs)| > 0
  {
    var sel := Selected(listings, cs);
    forall i | 0 <= i < |sel| ensures Get(sel[i], "id").Id? {
      var j :| 0 <= j < |listings| && listings[j] == sel[i];
    }
    var ids := PublishedIds(sel);
    if |sel| > 0 {
      assert !JsonEncodable(ids[0]);
    }
  }

  /** filter_ecopark_by_json as written: after the query it publishes the selected ids with
      `json.dumps`, which raises on a UUID, and nothing catches it, so the route answers with a
      server error whenever a published id is a UUID. */
  function FilterResponseAsWritten(rows: seq<Assignment>, roles: map<Uuid, Role>, u: User, projectId: Uuid, minRank: int,
                                   listings: seq<map<string, Value>>, base: string, lang: string, p: Payload)
    : (r: Result<seq<map<string, Value>>>)
    ensures FilterResponse(rows, roles, u, projectId, minRank, listings, base, lang, p).Err? ==>
              r == FilterResponse(rows, roles, u, projectId, minRank, listings, base, lang, p)
    ensures r.Ok? ==> r == FilterResponse(rows, roles, u, projectId, minRank, listings, base, lang, p)
    ensures r.Err? && FilterResponse(rows, roles, u, projectId, minRank, listings, base, lang, p).Ok? ==> r.error == ServerError
  {
    match FilterResponse(rows, roles, u, projectId, minRank, listings, base, lang, p)
    case Err(e) => Err(e)
    case Ok(items) =>
      if PublishFails(Selected(listings, FilterConditions(p, lang).value)) then Err(ServerError) else Ok(items)
  }

  /** Listing ids are UUID primary keys, so as written the route answers only when nothing is
      selected: any non-empty selection is a server error. */
  lemma {:induction false} FilterAsWrittenFailsOnAnySelection(rows: seq<Assignment>, roles: map<Uuid, Role>, u: User, projectId: Uuid,
                                                             minRank: int, listings: seq<map<string, Value>>, base: string, lang: string, p: Payload)
    requires forall i :: 0 <= i < |listings| ==> Get(listings[i], "id").Id?
    ensures FilterResponseAsWritten(rows, roles, u, projectId, minRank, listings, base, lang, p).Ok? <==>
              FilterResponse(rows, roles, u, projectId, minRank, listings, base, lang, p).Ok?
              && |FilterResponse(rows, roles, u, projectId, minRank, listings, base, lang, p).value| == 0
    ensures FilterResponse(rows, roles, u, projectId, minRank, listings, base, lang, p).Ok?
            && |FilterResponse(rows, roles, u, projectId, minRank, listings, base, lang, p).value| > 0 ==>
              FilterResponseAsWritten(rows, roles, u, projectId, minRank, listings, base, lang, p) == Err(ServerError)
  {
    if FilterResponse(rows, roles, u, projectId, minRank, listings, base, lang, p).Ok? {
      SelectedIdsAreUuids(listings, FilterConditions(p, lang).value);
    }
  }

  /** For example, an empty filter over a table with one listing answers with a server error
      once the gates pass. */
  lemma EmptyFilterOverOneListingFails(rows: seq<Assignment>, roles: map<Uuid, Role>, u: User, projectId: Uuid, minRank: int,
                                       base: string, lang: string, id: Uuid)
    requires ProjectGate(rows, roles, u, projectId, minRank).Ok? && IsLang(lang)
    ensures FilterResponseAsWritten(rows, roles, u, projectId, minRank, [map["id" := Id(id)]], base, lang, []) == Err(ServerError)
  {
    var listings := [map["id" := Id(id)]];
    assert FilterConditions([], lang) == Ok([]);
    assert Selected(listings, []) == listings by {
      assert HoldsAll([], listings[0]);
    }
    FilterAsWrittenFailsOnAnySelection(rows, roles, u, projectId, minRank, listings, base, lang, []);
  }

  /** One displayed item per selected listing, in the same order. */
  function DisplayItems(sel: seq<map<string, Value>>, copied: seq<string>, shown: seq<string>, base: string, lang: string)
    : (items: seq<map<string, Value>>)
    ensures |items| == |sel|
    ensures forall i :: 0 <= i < |sel| ==> items[i] == DisplayItem(sel[i], copied, shown, base, lang)
  {
    seq(|sel|, i requires 0 <= i < |sel| => DisplayItem(sel[i], copied, shown, base, lang))
  }

  /** The handler: gates, conditions, query, then the loop that builds the items. */
  method FilterEcopark(rows: seq<Assignment>, roles: map<Uuid, Role>, u: User, projectId: Uuid, minRank: int,
                       listings: seq<map<string, Value>>, base: string, lang: string, p: Payload)
    returns (r: Result<seq<map<string, Value>>>)
    ensures r == FilterResponse(rows, roles, u, projectId, minRank, listings, base, lang, p)
  {
    var gate := ProjectGate(rows, roles, u, projectId, minRank);
    if gate.Err? {
      return Err(gate.error);
    }
    if !(lang == "vi" || lang == "en") {
      return Err(Unprocessable);
    }
    var conditions := BuildConditions(p, lang);
    if conditions.Err? {
      return Err(conditions.error);
    }
    var items := BuildItems(Selected(listings, conditions.value), CopiedFields, DisplayFields, base, lang);
    r := Ok(items);
  }

  /** The loop over the query's results. */
  method BuildItems(sel: seq<map<string, Value>>, copied: seq<string>, shown: seq<string>, base: string, lang: string)
    returns (items: seq<map<string, Value>>)
    ensures items == DisplayItems(sel, copied, shown, base, lang)
  {
    items := [];
    for i := 0 to |sel|
      invariant |items| == i
      invariant forall j :: 0 <= j < i ==> items[j] == DisplayItem(sel[j], copied, shown, base, lang)
    {
      var item := BuildItem(sel[i], copied, shown, base, lang);
      items := items + [item];
    }
  }

  /** Every listing a price range selects has a price inside the range. */
  lemma SelectedWithinRange(listings: seq<map<string, Value>>, cs: seq<Condition>, low: int, high: int)
    requires PriceAtLeast(low) in cs && PriceAtMost(high) in cs
    ensures forall i :: 0 <= i < |Selected(listings, cs)| ==>
              Get(Selected(listings, cs)[i], "price").Int? && low <= Get(Selected(listings, cs)[i], "price").i <= high
  {
    forall i | 0 <= i < |Selected(listings, cs)|
      ensures Get(Selected(listings, cs)[i], "price").Int? && low <= Get(Selected(listings, cs)[i], "price").i <= high
    {
      var d := Selected(listings, cs)[i];
      var a :| 0 <= a < |cs| && cs[a] == PriceAtLeast(low);
      var b :| 0 <= b < |cs| && cs[b] == PriceAtMost(high);
      assert Holds(cs[a], d) && Holds(cs[b], d);
    }
  }
}
