/** search_and_publish of backend/app/api/routes/ecopark.py and the six search routes that
    call it: each path value becomes a column condition after a coercion, and each route adds
    the project id as one more filter. */
module EcoparkSearch {
  import opened Wrappers
  import opened Models
  import opened StrUtil
  import opened Deps
  import opened Translation
  import opened StaticUrls
  import opened EcoparkNames
  import opened EcoparkFilter
  import Seqs

  /** A condition of the search query: equality with a coerced value, or a case-insensitive
      substring match (`ilike '%text%'`). */
  datatype SearchCondition = Equals(column: string, value: Value) | Contains(column: string, text: string)

  /** The filters dictionary, in its insertion order: column name and raw text. */
  type Filters = seq<(string, string)>

  /** A text that `value.lower() in ("true", "false")` accepts. */
  predicate IsBoolText(s: string) {
    LowerAscii(s) == "true" || LowerAscii(s) == "false"
  }

  /** No listing column ends in `_id`, so the UUID branch of the coercion is never taken. */
  lemma NoColumnEndsWithId(field: string)
    requires field in EcoparkColumns
    ensures !EndsWith(field, "_id")
  {
  }

  /** The coercion of one filter. The field must be a column (400). The value is stripped; a
      field ending in `_id` must then parse as a UUID (parseUuid stands for `uuid.UUID`, 400
      otherwise); digits become an integer, "true" and "false" in any case a boolean, and any
      other text a substring match. */
  function Coerce(field: string, raw: string, parseUuid: string -> Option<Uuid>): (r: Result<SearchCondition>)
    ensures r.Err? <==> field !in EcoparkColumns || (EndsWith(field, "_id") && parseUuid(Strip(raw)).None?)
    ensures r.Err? ==> r.error == BadRequest
    ensures r.Ok? ==> r.value.column == field
  {
    if field !in EcoparkColumns then Err(BadRequest)
    else
      var value := Strip(raw);
      if EndsWith(field, "_id") then
        match parseUuid(value)
        case Some(id) => Ok(Equals(field, Id(id)))
        case None => Err(BadRequest)
      else if IsDigits(value) then Ok(Equals(field, Int(DigitsValue(value))))
      else if IsBoolText(value) then Ok(Equals(field, Bool(LowerAscii(value) == "true")))
      else Ok(Contains(field, value))
  }

  /** What each coerced value means: an integer is what `int()` reads from the raw text, a
      boolean is "true" or "false" in any case, and a substring match is left only for a
      text that is neither. Digits are tried before the boolean words. */
  lemma CoerceMeaning(field: string, raw: string, parseUuid: string -> Option<Uuid>)
    requires Coerce(field, raw, parseUuid).Ok?
    ensures var c := Coerce(field, raw, parseUuid).value;
            && (c.Equals? && c.value.Int? ==> ParseInt(raw) == Some(c.value.i))
            && (c.Equals? && c.value.Bool? ==> IsBoolText(Strip(raw)) && (c.value.b <==> LowerAscii(Strip(raw)) == "true"))
            && (c.Contains? ==> c.text == Strip(raw) && !IsDigits(Strip(raw)) && !IsBoolText(Strip(raw)))
            && (!EndsWith(field, "_id") && IsDigits(Strip(raw)) ==> c.Equals? && c.value.Int?)
            && (!EndsWith(field, "_id") && !IsDigits(Strip(raw)) && IsBoolText(Strip(raw)) ==> c.Equals? && c.value.Bool?)
  {
    var value := Strip(raw);
    if !EndsWith(field, "_id") && IsDigits(value) {
      StripIdempotent(raw);
      ParseIntOfDigits(value);
    }
  }

  /** Coerce, applied to one entry of the filters. */
  function CoerceEntry(parseUuid: string -> Option<Uuid>): ((string, string)) -> Result<SearchCondition> {
    (e: (string, string)) => Coerce(e.0, e.1, parseUuid)
  }

  /** The conditions of the filters, one per filter in order; the first filter that fails
      ends the search. */
  function Conditions(filters: Filters, parseUuid: string -> Option<Uuid>): Result<seq<SearchCondition>> {
    Seqs.TryMap(filters, CoerceEntry(parseUuid))
  }

  /** The search fails exactly when one of its filters does, always with 400, and otherwise
      has one condition per filter, in order. */
  lemma ConditionsMeaning(filters: Filters, parseUuid: string -> Option<Uuid>)
    ensures Conditions(filters, parseUuid).Ok? <==> forall i :: 0 <= i < |filters| ==> Coerce(filters[i].0, filters[i].1, parseUuid).Ok?
    ensures Conditions(filters, parseUuid).Err? ==> Conditions(filters, parseUuid).error == BadRequest
    ensures Conditions(filters, parseUuid).Ok? ==> |Conditions(filters, parseUuid).value| == |filters|
    ensures Conditions(filters, parseUuid).Ok? ==> forall i :: 0 <= i < |filters| ==>
              Conditions(filters, parseUuid).value[i] == Coerce(filters[i].0, filters[i].1, parseUuid).value
  {
    Seqs.TryMapMeaning(filters, CoerceEntry(parseUuid));
  }

  /** The loop of search_and_publish up to the query. */
  method CollectConditions(filters: Filters, parseUuid: string -> Option<Uuid>) returns (r: Result<seq<SearchCondition>>)
    ensures r == Conditions(filters, parseUuid)
  {
    var conditions: seq<SearchCondition> := [];
    for k := 0 to |filters|
      invariant Seqs.TryMap(filters[..k], CoerceEntry(parseUuid)) == Ok(conditions)
    {
      assert filters[..k + 1][..k] == filters[..k];
      var c := Coerce(filters[k].0, filters[k].1, parseUuid);
      if c.Err? {
        ConditionsMeaning(filters, parseUuid);
        return Err(c.error);
      }
      conditions := conditions + [c.value];
    }
    assert filters[..|filters|] == filters;
    r := Ok(conditions);
  }

  /** A project id among the filters names no column, so the search is refused with 400. */
  lemma ProjectFilterRefused(filters: Filters, parseUuid: string -> Option<Uuid>, i: nat)
    requires i < |filters| && filters[i].0 == "project_id"
    ensures Conditions(filters, parseUuid) == Err(BadRequest)
  {
    ResponseFieldsFacts();
    ConditionsMeaning(filters, parseUuid);
  }

  // ---------------------------------------------------------------- the routes

  /** The six search routes and their path values. The amenity of ByAmenityType is part of
      its path but takes no part in the search. */
  datatype SearchRoute =
    | ByAmenity(amenity: string)
    | ByAmenityType(amenity: string, amenityType: string)
    | ByZone(zone: string)
    | ByZoneName(zone: string, zoneName: string)
    | ByZoneNameType(zone: string, zoneName: string, buildingType: string)
    | ByFullPath(zone: string, zoneName: string, buildingType: string, buildingName: string)

  /** The filters a route passes; every one of them ends with the project id as text. */
  function RouteFilters(route: SearchRoute, lang: string, projectText: string): (f: Filters)
    ensures |f| > 0 && f[|f| - 1] == ("project_id", projectText)
  {
    match route
    case ByAmenity(amenity) => [("amenity", amenity), ("project_id", projectText)]
    case ByAmenityType(_, amenityType) => [(LangKey("amenity_type", lang), amenityType), ("project_id", projectText)]
    case ByZone(zone) => [("zone", zone), ("project_id", projectText)]
    case ByZoneName(zone, zoneName) => [("zone", zone), (LangKey("zone_name", lang), zoneName), ("project_id", projectText)]
    case ByZoneNameType(zone, zoneName, buildingType) =>
      [("zone", zone), (LangKey("zone_name", lang), zoneName), (LangKey("building_type", lang), buildingType),
       ("project_id", projectText)]
    case ByFullPath(zone, zoneName, buildingType, buildingName) =>
      [("zone", zone), (LangKey("zone_name", lang), zoneName), (LangKey("building_type", lang), buildingType),
       ("building_name", buildingName), ("project_id", projectText)]
  }

  /** A search route up to its query: the gate (403), the language (422), then the
      conditions of its filters. */
  function SearchRouteConditions(rows: seq<Assignment>, roles: map<Uuid, Role>, u: User, projectId: Uuid, minRank: int,
                                 route: SearchRoute, lang: string, projectText: string, parseUuid: string -> Option<Uuid>)
    : (r: Result<seq<SearchCondition>>)
    ensures ProjectGate(rows, roles, u, projectId, minRank).Err? ==> r == Err(Forbidden)
    ensures ProjectGate(rows, roles, u, projectId, minRank).Ok? && !IsLang(lang) ==> r == Err(Unprocessable)
    ensures ProjectGate(rows, roles, u, projectId, minRank).Ok? && IsLang(lang) ==>
              r == Conditions(RouteFilters(route, lang, projectText), parseUuid)
  {
    match ProjectGate(rows, roles, u, projectId, minRank)
    case Err(e) => Err(e)
    case Ok(_) =>
      if !IsLang(lang) then Err(Unprocessable)
      else Conditions(RouteFilters(route, lang, projectText), parseUuid)
  }

  /** Every search route refuses every caller: 403 without the rank, 422 for another
      language, and 400 otherwise, because the project id it adds names no listing column. */
  lemma EverySearchRouteRefused(rows: seq<Assignment>, roles: map<Uuid, Role>, u: User, projectId: Uuid, minRank: int,
                                route: SearchRoute, lang: string, projectText: string, parseUuid: string -> Option<Uuid>)
    ensures SearchRouteConditions(rows, roles, u, projectId, minRank, route, lang, projectText, parseUuid).Err?
    ensures ProjectGate(rows, roles, u, projectId, minRank).Ok? && IsLang(lang) ==>
              SearchRouteConditions(rows, roles, u, projectId, minRank, route, lang, projectText, parseUuid) == Err(BadRequest)
  {
    var f := RouteFilters(route, lang, projectText);
    ProjectFilterRefused(f, parseUuid, |f| - 1);
  }

  // ---------------------------------------------------------------- the items a search would show

  /** The fields a search item shows in the chosen language; the description is not among
      them. */
  const SearchTextFields: seq<string> := ["zone_name", "building_type", "amenity_type", "direction", "status"]

  /** The image a route gives an item with the given picture name; the amenity route gives
      none. The zone routes fall back to an image named after the path when the listing has
      no picture. */
  function ItemImage(route: SearchRoute, base: string, picture: Option<string>): (image: Option<Value>)
    ensures image.None? <==> route.ByAmenity?
    ensures route.ByAmenityType? || route.ByFullPath? ==> image == Some(OptionText(EcoImageUrl(base, picture)))
    ensures route.ByZone? ==> image == Some(Str(FallbackImageUrl(base, picture, "pk.png")))
    ensures route.ByZoneName? ==>
              image == Some(Str(FallbackImageUrl(base, picture, ZoneImageName(ExtractZoneNumber(route.zoneName)))))
    ensures route.ByZoneNameType? ==>
              image == Some(Str(BuildingImageUrl(base, picture, route.zoneName, route.buildingType)))
  {
    match route
    case ByAmenity(_) => None
    case ByAmenityType(_, _) => Some(OptionText(EcoImageUrl(base, picture)))
    case ByFullPath(_, _, _, _) => Some(OptionText(EcoImageUrl(base, picture)))
    case ByZone(_) => Some(Str(FallbackImageUrl(base, picture, "pk.png")))
    case ByZoneName(_, zoneName) => Some(Str(FallbackImageUrl(base, picture, ZoneImageName(ExtractZoneNumber(zoneName)))))
    case ByZoneNameType(_, zoneName, buildingType) => Some(Str(BuildingImageUrl(base, picture, zoneName, buildingType)))
  }

  /** A search item: the listing translated, then the image the route gives it. */
  function SearchItem(route: SearchRoute, d: map<string, Value>, fields: seq<string>, base: string, lang: string)
    : (item: map<string, Value>)
    requires IsLang(lang) && PlainFields(fields)
  {
    var t := Translated(d, fields, lang);
    match ItemImage(route, base, TextOf(Get(t, "picture_name")))
    case None => t
    case Some(image) => t["image_url" := image]
  }

  /** The search fields are plain, and neither "description" nor "picture_name" is one of
      them, nor a language-specific key. */
  lemma SearchFieldsFacts()
    ensures PlainFields(SearchTextFields)
    ensures "description" !in SearchTextFields && "description" !in EcoparkColumns
    ensures "picture_name" !in SearchTextFields && "picture_name" in EcoparkColumns && !IsTranslatedKey("picture_name")
  {
    SearchFieldsPlain();
    DescriptionIsNoColumn();
    assert "picture_name" in EcoparkTextColumns;
    assert "picture_name"[9..] == "ame";
  }

  lemma SearchFieldsPlain()
    ensures PlainFields(SearchTextFields)
  {
    forall i | 0 <= i < |SearchTextFields|
      ensures !IsTranslatedKey(SearchTextFields[i])
    {
      var f := SearchTextFields[i];
      assert f[|f| - 3..] != "_vi" && f[|f| - 3..] != "_en";
    }
  }

  /** Only the two language columns of the description exist. */
  lemma DescriptionIsNoColumn()
    ensures "description" !in EcoparkColumns
  {
    assert "description" !in EcoparkTextColumns;
  }

  /** A search item keeps no language-specific key and loses the description: its two
      language columns are deleted and nothing is copied into "description". Each shown field
      holds the chosen language's value. */
  lemma SearchItemShape(route: SearchRoute, d: map<string, Value>, fields: seq<string>, base: string, lang: string)
    requires IsLang(lang) && PlainFields(fields) && "description" !in fields && "description" !in d
    ensures forall k :: k in SearchItem(route, d, fields, base, lang) ==> !IsTranslatedKey(k)
    ensures "description" !in SearchItem(route, d, fields, base, lang)
    ensures forall i :: 0 <= i < |fields| && fields[i] != "image_url" ==>
              SearchItem(route, d, fields, base, lang)[fields[i]] == Get(d, LangKey(fields[i], lang))
    ensures route.ByAmenity? ==> SearchItem(route, d, fields, base, lang) == Translated(d, fields, lang)
    ensures !route.ByAmenity? ==> "image_url" in SearchItem(route, d, fields, base, lang)
  {
    assert !IsTranslatedKey("image_url") by {
      assert "image_url"[6..] == "url";
    }
    SearchItemOverTranslated(route, d, fields, base, lang);
    TranslatedKeysWithin(d, fields, lang);
  }

  /** A search item is the translated listing, with "image_url" added on every route but the
      amenity one. */
  lemma SearchItemOverTranslated(route: SearchRoute, d: map<string, Value>, fields: seq<string>, base: string, lang: string)
    requires IsLang(lang) && PlainFields(fields)
    ensures var item, t := SearchItem(route, d, fields, base, lang), Translated(d, fields, lang);
            && item.Keys == t.Keys + (if route.ByAmenity? then {} else {"image_url"})
            && (forall k :: k in t && k != "image_url" ==> item[k] == t[k])
            && (route.ByAmenity? ==> item == t)
  {
  }

  /** Translating adds no key beyond the listing's own and the shown fields. */
  lemma TranslatedKeysWithin(d: map<string, Value>, fields: seq<string>, lang: string)
    requires IsLang(lang) && PlainFields(fields)
    ensures forall k :: k in Translated(d, fields, lang) ==> k in d || k in fields
  {
    var copied := WithLanguage(d, fields, lang);
    assert Translated(d, fields, lang) == Untranslated(copied);
  }
}
