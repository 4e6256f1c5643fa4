/** get_filter_options of backend/app/api/routes/ecopark.py: for each filter the distinct
    values of its column, without the missing and placeholder ones, sorted. */
module EcoparkOptions {
  import opened Wrappers
  import opened Models
  import opened StrUtil
  import opened Sorting
  import opened Seqs
  import opened Deps
  import opened Translation
  import opened EcoparkFilter

  /** The texts clean_values treats as no value. */
  const Invalids: set<string> := {"", " ", "NaN", "nan", "null", "None", "N", "-", "--"}

  predicate IsValidText(s: string) {
    Strip(s) !in Invalids
  }

  /** The written form of a number, `str(r).strip()`, is never one of the placeholders. */
  predicate IsValidNumber(i: int) {
    Strip(IntToStr(i)) !in Invalids
  }

  /** The present values that pass keep, in order. */
  function Present<T(==,!new)>(s: seq<Option<T>>, keep: T -> bool): (r: seq<T>)
    ensures forall x :: x in r <==> Some(x) in s && keep(x)
    ensures NoDup(s) ==> NoDup(r)
    decreases |s|
  {
    if |s| == 0 then []
    else
      var rest := Present(s[1..], keep);
      assert forall x :: Some(x) in s <==> s[0] == Some(x) || Some(x) in s[1..];
      assert NoDup(s) ==> NoDup(s[1..]) && s[0] !in s[1..];
      if s[0].Some? && keep(s[0].value) then [s[0].value] + rest else rest
  }

  /** clean_values for a text column: each distinct text that is not a placeholder, once,
      in code-point order. */
  function CleanTexts(values: seq<Option<string>>): (r: seq<string>)
    ensures forall x :: x in r <==> Some(x) in values && IsValidText(x)
    ensures SortedBy(r, StrLe)
    ensures NoDup(r)
  {
    StrLeTotalOrder();
    var kept := Present(Distinct(values), IsValidText);
    var sorted := Sort(kept, StrLe);
    NoDupPermutation(kept, sorted);
    assert forall x :: x in sorted <==> x in multiset(kept);
    sorted
  }

  /** No number is ever dropped as a placeholder: its numeral has no surrounding space and
      ends in a digit. */
  lemma NumbersAlwaysValid(i: int)
    ensures IsValidNumber(i)
  {
    var s := IntToStr(i);
    var digits := NatToStr(if i < 0 then -i else i);
    assert s[|s| - 1] == digits[|digits| - 1];
    assert IsDigit(s[|s| - 1]);
    assert s[0] == '-' || IsDigit(s[0]);
    LStripOfStripped(s);
    RStripOfStripped(s);
  }

  /** clean_values for an integer column: each distinct number, once, in increasing order.
      The placeholder test is kept as the code has it; it never drops a number. */
  function CleanNumbers(values: seq<Option<int>>): (r: seq<int>)
    ensures forall x :: x in r <==> Some(x) in values
    ensures SortedBy(r, IntLe)
    ensures NoDup(r)
  {
    IntLeTotalOrder();
    var kept := Present(Distinct(values), IsValidNumber);
    var sorted := Sort(kept, IntLe);
    NoDupPermutation(kept, sorted);
    assert forall x :: x in sorted <==> x in multiset(kept);
    assert forall x :: Some(x) in values ==> IsValidNumber(x) by {
      forall x | Some(x) in values ensures IsValidNumber(x) {
        NumbersAlwaysValid(x);
      }
    }
    sorted
  }

  /** A text column over all listings. */
  function TextColumn(listings: seq<map<string, Value>>, column: string): (r: seq<Option<string>>)
    ensures |r| == |listings|
    ensures forall i :: 0 <= i < |listings| ==> r[i] == TextOf(Get(listings[i], column))
  {
    seq(|listings|, i requires 0 <= i < |listings| => TextOf(Get(listings[i], column)))
  }

  /** An integer column over all listings. */
  function IntColumn(listings: seq<map<string, Value>>, column: string): (r: seq<Option<int>>)
    ensures |r| == |listings|
    ensures forall i :: 0 <= i < |listings| ==> r[i] == (if Get(listings[i], column).Int? then Some(Get(listings[i], column).i) else None)
  {
    seq(|listings|, i requires 0 <= i < |listings| =>
      if Get(listings[i], column).Int? then Some(Get(listings[i], column).i) else None)
  }

  /** opts are the options of a text column: each text some listing holds in it and that is
      not a placeholder, once, in code-point order. */
  ghost predicate TextOptions(opts: seq<string>, listings: seq<map<string, Value>>, column: string) {
    && (forall x :: x in opts <==> (exists i :: 0 <= i < |listings| && Get(listings[i], column) == Str(x)) && IsValidText(x))
    && SortedBy(opts, StrLe)
    && NoDup(opts)
  }

  /** opts are the options of an integer column: each number some listing holds in it, once,
      in increasing order. */
  ghost predicate NumberOptions(opts: seq<int>, listings: seq<map<string, Value>>, column: string) {
    && (forall x :: x in opts <==> exists i :: 0 <= i < |listings| && Get(listings[i], column) == Int(x))
    && SortedBy(opts, IntLe)
    && NoDup(opts)
  }

  lemma CleanTextColumn(listings: seq<map<string, Value>>, column: string)
    ensures TextOptions(CleanTexts(TextColumn(listings, column)), listings, column)
  {
    var values := TextColumn(listings, column);
    forall x ensures Some(x) in values <==> exists i :: 0 <= i < |listings| && Get(listings[i], column) == Str(x) {
      if Some(x) in values {
        var i :| 0 <= i < |values| && values[i] == Some(x);
      }
    }
  }

  lemma CleanIntColumn(listings: seq<map<string, Value>>, column: string)
    ensures NumberOptions(CleanNumbers(IntColumn(listings, column)), listings, column)
  {
    var values := IntColumn(listings, column);
    forall x ensures Some(x) in values <==> exists i :: 0 <= i < |listings| && Get(listings[i], column) == Int(x) {
      if Some(x) in values {
        var i :| 0 <= i < |values| && values[i] == Some(x);
      }
    }
  }

  /** The response: the options of each filter. */
  datatype FilterOptions = FilterOptions(
    status: seq<string>,
    price: seq<int>,
    bedroom: seq<int>,
    direction: seq<string>,
    buildingType: seq<string>,
    zoneName: seq<string>,
    amenityType: seq<string>)

  /** get_filter_options: the gate (403), the language (422), then the cleaned values of the
      language's text columns and of the price and bedroom columns. */
  function GetFilterOptions(rows: seq<Assignment>, roles: map<Uuid, Role>, u: User, projectId: Uuid, minRank: int,
                            listings: seq<map<string, Value>>, lang: string): (r: Result<FilterOptions>)
    ensures ProjectGate(rows, roles, u, projectId, minRank).Err? ==> r == Err(Forbidden)
    ensures ProjectGate(rows, roles, u, projectId, minRank).Ok? && !IsLang(lang) ==> r == Err(Unprocessable)
    ensures r.Ok? <==> IsLang(lang) && ProjectGate(rows, roles, u, projectId, minRank).Ok?
    ensures r.Ok? ==> forall x :: x in r.value.status <==>
              (exists i :: 0 <= i < |listings| && Get(listings[i], LangKey("status", lang)) == Str(x)) && IsValidText(x)
    ensures r.Ok? ==> forall x :: x in r.value.price <==> exists i :: 0 <= i < |listings| && Get(listings[i], "price") == Int(x)
    ensures r.Ok? ==> SortedBy(r.value.price, IntLe) && SortedBy(r.value.status, StrLe)
    ensures r.Ok? ==> && TextOptions(r.value.status, listings, LangKey("status", lang))
                      && NumberOptions(r.value.price, listings, "price")
                      && NumberOptions(r.value.bedroom, listings, "bedroom")
                      && TextOptions(r.value.direction, listings, LangKey("direction", lang))
                      && TextOptions(r.value.buildingType, listings, LangKey("building_type", lang))
                      && TextOptions(r.value.zoneName, listings, LangKey("zone_name", lang))
                      && TextOptions(r.value.amenityType, listings, LangKey("amenity_type", lang))
  {
    match ProjectGate(rows, roles, u, projectId, minRank)
    case Err(e) => Err(e)
    case Ok(_) =>
      if !IsLang(lang) then Err(Unprocessable)
      else
        CleanTextColumn(listings, LangKey("status", lang));
        CleanIntColumn(listings, "price");
        CleanIntColumn(listings, "bedroom");
        CleanTextColumn(listings, LangKey("direction", lang));
        CleanTextColumn(listings, LangKey("building_type", lang));
        CleanTextColumn(listings, LangKey("zone_name", lang));
        CleanTextColumn(listings, LangKey("amenity_type", lang));
        Ok(FilterOptions(
          CleanTexts(TextColumn(listings, LangKey("status", lang))),
          CleanNumbers(IntColumn(listings, "price")),
          CleanNumbers(IntColumn(listings, "bedroom")),
          CleanTexts(TextColumn(listings, LangKey("direction", lang))),
          CleanTexts(TextColumn(listings, LangKey("building_type", lang))),
          CleanTexts(TextColumn(listings, LangKey("zone_name", lang))),
          CleanTexts(TextColumn(listings, LangKey("amenity_type", lang)))))
  }
}
