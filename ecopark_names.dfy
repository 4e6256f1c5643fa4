/** The naming helpers of backend/app/api/routes/ecopark.py: the zone number found in a zone
    name, the code of a building type, and the image file names built from them. */
module EcoparkNames {
  import opened Wrappers
  import opened StrUtil
  import opened StaticUrls
  import Seqs

  // ---------------------------------------------------------------- zone numbers

  /** A lower-case pattern letter matched under re.IGNORECASE: the letter itself, its
      capital (for `â` too, U+00E2 and U+00C2 are 32 apart like the ASCII letters) and, for
      `k`, the Kelvin sign U+212A, whose lower case is `k`. */
  predicate LetterMatches(p: char, c: char) {
    c == p || c as int == p as int - 32 || (p == 'k' && c == '\U{212a}')
  }

  /** Word w occurs at position i, letter by letter. */
  predicate WordAt(s: string, i: nat, w: string) {
    i + |w| <= |s| && forall j :: 0 <= j < |w| ==> LetterMatches(w[j], s[i + j])
  }

  /** Where `\s*` starting at i stops: the first position from i that is not white space. */
  function SkipSpace(s: string, i: nat): (e: nat)
    requires i <= |s|
    ensures i <= e <= |s|
    ensures forall j :: i <= j < e ==> IsSpace(s[j])
    ensures e == |s| || !IsSpace(s[e])
    decreases |s| - i
  {
    if i < |s| && IsSpace(s[i]) then SkipSpace(s, i + 1) else i
  }

  /** Where `\d+` starting at i stops: the end of the run of digits there. */
  function DigitEnd(s: string, i: nat): (e: nat)
    requires i <= |s|
    ensures i <= e <= |s|
    ensures forall j :: i <= j < e ==> IsDigit(s[j])
    ensures e == |s| || !IsDigit(s[e])
    decreases |s| - i
  {
    if i < |s| && IsDigit(s[i]) then DigitEnd(s, i + 1) else i
  }

  /** The group of `w1\s*w2\s*...\s*(\d+)` matched from position i, if it matches there.
      Taking all white space and all digits is the only way to match: the next pattern item
      is a letter or a digit, never white space (see PatternLettersAreNotSpace), and the
      digit group ends the pattern. */
  function MatchFrom(s: string, i: nat, words: seq<string>): (r: Option<string>)
    requires i <= |s|
    ensures r.Some? ==> IsDigits(r.value)
    decreases |words|
  {
    if |words| == 0 then
      var e := DigitEnd(s, i);
      if e > i then Some(s[i..e]) else None
    else if WordAt(s, i, words[0]) then MatchFrom(s, SkipSpace(s, i + |words[0]|), words[1..])
    else None
  }

  /** `re.search`: the leftmost position, from i on, where the pattern matches. */
  function SearchAt(s: string, i: nat, words: seq<string>): (r: Option<nat>)
    requires i <= |s|
    ensures r.Some? ==> i <= r.value <= |s| && MatchFrom(s, r.value, words).Some?
    ensures r.Some? ==> forall k :: i <= k < r.value ==> MatchFrom(s, k, words).None?
    ensures r.None? ==> forall k :: i <= k <= |s| ==> MatchFrom(s, k, words).None?
    decreases |s| - i
  {
    if MatchFrom(s, i, words).Some? then Some(i)
    else if i == |s| then None
    else SearchAt(s, i + 1, words)
  }

  /** A position where the pattern matches, with no match before it from i on, is what the
      search finds. */
  lemma SearchAtFirst(s: string, i: nat, words: seq<string>, k: nat)
    requires i <= k <= |s| && MatchFrom(s, k, words).Some?
    requires forall m :: i <= m < k ==> MatchFrom(s, m, words).None?
    ensures SearchAt(s, i, words) == Some(k)
  {
  }

  /** The group of the leftmost match, if any. */
  function Search(s: string, words: seq<string>): (r: Option<string>)
    ensures r.Some? ==> IsDigits(r.value)
    ensures r.None? <==> SearchAt(s, 0, words).None?
  {
    match SearchAt(s, 0, words)
    case None => None
    case Some(k) => MatchFrom(s, k, words)
  }

  /** `Phân\s*Khu\s*(\d+)`, with the `â` of the source (U+00E2). */
  const PhanKhu: seq<string> := ["ph\U{e2}n", "khu"]
  /** `Zone\s*(\d+)`. */
  const Zone: seq<string> := ["zone"]

  /** extract_zone_number: the digits after "Phân Khu", else the digits after "Zone", else
      the empty string. */
  function ExtractZoneNumber(s: string): (r: string)
    ensures r == "" || IsDigits(r)
    ensures Search(s, PhanKhu).Some? ==> r == Search(s, PhanKhu).value
    ensures Search(s, PhanKhu).None? && Search(s, Zone).Some? ==> r == Search(s, Zone).value
    ensures r == "" <==> Search(s, PhanKhu).None? && Search(s, Zone).None?
  {
    match Search(s, PhanKhu)
    case Some(g) => g
    case None =>
      match Search(s, Zone)
      case Some(g) => g
      case None => ""
  }

  /** No letter of either pattern ever matches white space or a digit, so a greedy `\s*`
      followed by a word, or by `\d+`, never has to give characters back. */
  lemma PatternLettersAreNotSpace(p: char, c: char)
    requires p in "ph\U{e2}nkhuzone" && LetterMatches(p, c)
    ensures !IsSpace(c) && !IsDigit(c)
  {
  }

  /** A "Phân Khu" number wins over a "Zone" number wherever each occurs. */
  lemma PhanKhuPreferred()
    ensures ExtractZoneNumber("Zone 3 Ph\U{e2}n khu 12") == "12"
  {
    var s := "Zone 3 Ph\U{e2}n khu 12";
    forall k | 0 <= k < 7
      ensures MatchFrom(s, k, PhanKhu).None?
    {
      assert !LetterMatches("ph\U{e2}n"[0], s[k]);
    }
    assert WordAt(s, 7, "ph\U{e2}n") by {
      forall j | 0 <= j < 4
        ensures LetterMatches("ph\U{e2}n"[j], s[7 + j])
      {
        if j == 0 {} else if j == 1 {} else if j == 2 {} else {}
      }
    }
    assert SkipSpace(s, 11) == 12;
    assert WordAt(s, 12, "khu") by {
      forall j | 0 <= j < 3
        ensures LetterMatches("khu"[j], s[12 + j])
      {
        if j == 0 {} else if j == 1 {} else {}
      }
    }
    assert SkipSpace(s, 15) == 16 && DigitEnd(s, 16) == 18;
    assert s[16..18] == "12";
    assert MatchFrom(s, 7, PhanKhu) == Some("12");
    assert SearchAt(s, 0, PhanKhu) == Some(7) by {
      SearchAtFirst(s, 0, PhanKhu, 7);
    }
  }

  /** Without "Phân Khu" the "Zone" number is used, white space between word and digits is
      optional, and letters may be in any case. */
  lemma ZoneFallback()
    ensures ExtractZoneNumber("ZONE7") == "7"
  {
    assert SearchAt("ZONE7", 5, PhanKhu) == None;
    assert SearchAt("ZONE7", 4, PhanKhu) == None;
    assert SearchAt("ZONE7", 3, PhanKhu) == None;
    assert SearchAt("ZONE7", 2, PhanKhu) == None;
    assert SearchAt("ZONE7", 1, PhanKhu) == None;
    assert SearchAt("ZONE7", 0, PhanKhu) == None;
    assert WordAt("ZONE7", 0, "zone") by {
      forall j | 0 <= j < 4
        ensures LetterMatches("zone"[j], "ZONE7"[j])
      {
        if j == 0 {} else if j == 1 {} else if j == 2 {} else {}
      }
    }
    assert SkipSpace("ZONE7", 4) == 4 && DigitEnd("ZONE7", 4) == 5;
    assert "ZONE7"[4..5] == "7";
  }

  /** A name with neither pattern gives the empty string. */
  lemma NoZoneNumber()
    ensures ExtractZoneNumber("Khu 5") == ""
  {
    assert SearchAt("Khu 5", 5, PhanKhu) == None;
    assert SearchAt("Khu 5", 4, PhanKhu) == None;
    assert SearchAt("Khu 5", 3, PhanKhu) == None;
    assert SearchAt("Khu 5", 2, PhanKhu) == None;
    assert SearchAt("Khu 5", 1, PhanKhu) == None;
    assert SearchAt("Khu 5", 0, PhanKhu) == None;
    assert SearchAt("Khu 5", 5, Zone) == None;
    assert SearchAt("Khu 5", 4, Zone) == None;
    assert SearchAt("Khu 5", 3, Zone) == None;
    assert SearchAt("Khu 5", 2, Zone) == None;
    assert SearchAt("Khu 5", 1, Zone) == None;
    assert !LetterMatches("zone"[0], "Khu 5"[0]);
    assert SearchAt("Khu 5", 0, Zone) == None;
  }

  // ---------------------------------------------------------------- building types

  /** "Biệt Thự Đơn Lập" and "Biệt Thự Song Lập", written with the code points of the source. */
  const DetachedVillaVi: string := "Bi\U{1ec7}t Th\U{1ef1} \U{110}\U{1a1}n L\U{1ead}p"
  const SemiDetachedVillaVi: string := "Bi\U{1ec7}t Th\U{1ef1} Song L\U{1ead}p"

  /** The codes a building type maps to. */
  const BuildingCodes: set<string> := {"don_lap", "song_lap", "shophouse", "townhouse", "residences", "unknown"}

  /** normalize_building_type: the stripped name looked up in a fixed table, "unknown" when
      it is not there. */
  function NormalizeBuildingType(s: string): (code: string)
    ensures code in BuildingCodes
    ensures code == "don_lap" <==> Strip(s) == DetachedVillaVi || Strip(s) == "Detached Villa"
    ensures code == "song_lap" <==> Strip(s) == SemiDetachedVillaVi || Strip(s) == "Semi-Detached Villa"
    ensures code == "shophouse" <==> Strip(s) == "Shophouse"
    ensures code == "townhouse" <==> Strip(s) == "Townhouse"
    ensures code == "residences" <==> Strip(s) == "Residences"
    ensures code == "unknown" <==>
              Strip(s) !in {DetachedVillaVi, SemiDetachedVillaVi, "Shophouse", "Townhouse", "Residences",
                            "Detached Villa", "Semi-Detached Villa"}
  {
    CodeOfName(Strip(s))
  }

  /** The table lookup itself, on a name already stripped. */
  function CodeOfName(t: string): string {
    if t == DetachedVillaVi || t == "Detached Villa" then "don_lap"
    else if t == SemiDetachedVillaVi || t == "Semi-Detached Villa" then "song_lap"
    else if t == "Shophouse" then "shophouse"
    else if t == "Townhouse" then "townhouse"
    else if t == "Residences" then "residences"
    else "unknown"
  }

  /** Surrounding white space never changes the code. */
  lemma NormalizeIgnoresSurroundingSpace(s: string)
    ensures NormalizeBuildingType(Strip(s)) == NormalizeBuildingType(s)
  {
    StripIdempotent(s);
    assert NormalizeBuildingType(Strip(s)) == CodeOfName(Strip(Strip(s)));
  }

  /** The Vietnamese and the English name of each villa type give the same code, whatever
      white space surrounds them. */
  lemma VillaNamesAgree(vi: string, en: string)
    requires (Strip(vi) == DetachedVillaVi && Strip(en) == "Detached Villa")
             || (Strip(vi) == SemiDetachedVillaVi && Strip(en) == "Semi-Detached Villa")
    ensures NormalizeBuildingType(vi) == NormalizeBuildingType(en) != "unknown"
  {
  }

  // ---------------------------------------------------------------- image names

  /** The image of a building type in a zone: `{zone}_{code}.png` when the zone number is
      known and the type is, `pk.png` otherwise. */
  function ImageName(zoneNumber: string, code: string): (name: string)
    ensures zoneNumber != "" && code != "unknown" ==> name == zoneNumber + "_" + code + ".png"
    ensures zoneNumber == "" || code == "unknown" ==> name == "pk.png"
  {
    if zoneNumber != "" && code != "unknown" then zoneNumber + "_" + code + ".png" else "pk.png"
  }

  /** The image of a zone: `pk_{zone}.png` when the zone number is known, `pk.png`
      otherwise. */
  function ZoneImageName(zoneNumber: string): (name: string)
    ensures zoneNumber != "" ==> name == "pk_" + zoneNumber + ".png"
    ensures zoneNumber == "" ==> name == "pk.png"
  {
    if zoneNumber != "" then "pk_" + zoneNumber + ".png" else "pk.png"
  }

  function IsUnderscore(c: char): bool {
    c == '_'
  }

  /** In digits followed by an underscore, the first underscore ends the digits. */
  lemma UnderscoreAfterDigits(z: string, rest: string)
    requires IsDigits(z) && |rest| > 0 && rest[0] == '_'
    ensures Seqs.FirstIndex(z + rest, IsUnderscore) == Some(|z|)
  {
    assert (z + rest)[|z|] == '_';
    forall j | 0 <= j < |z|
      ensures !IsUnderscore((z + rest)[j])
    {
      assert (z + rest)[j] == z[j];
    }
  }

  /** Two zone numbers and two codes with the same image name are the same: the zone number
      has no underscore, so the first one ends it. */
  lemma {:induction false} ImageNameInjective(z1: string, c1: string, z2: string, c2: string)
    requires IsDigits(z1) && IsDigits(z2) && c1 != "unknown" && c2 != "unknown"
    requires ImageName(z1, c1) == ImageName(z2, c2)
    ensures z1 == z2 && c1 == c2
  {
    var n := ImageName(z1, c1);
    assert n == z1 + ("_" + c1 + ".png") && n == z2 + ("_" + c2 + ".png");
    UnderscoreAfterDigits(z1, "_" + c1 + ".png");
    UnderscoreAfterDigits(z2, "_" + c2 + ".png");
    assert z1 == n[..|z1|] && z2 == n[..|z2|];
    assert c1 == n[|z1| + 1..|n| - 4] && c2 == n[|z2| + 1..|n| - 4];
  }

  /** Where ecopark images are served from: `/static` + `/EcoRetreat/`. */
  const EcoImageFolder: string := "/static/EcoRetreat/"

  /** build_flat_image_url of the ecopark routes. */
  function EcoImageUrl(base: string, picture: Option<string>): (r: Option<string>)
    ensures r.None? <==> !HasName(picture)
    ensures r.Some? ==> r.value == RStripSlash(base) + "/static/EcoRetreat/" + picture.value + ".png"
  {
    ImageUrl(base, EcoImageFolder, picture, ".png")
  }

  /** An item's own picture when it has one, else the named fallback image of the folder
      (`build_flat_image_url(...) or default_url`). */
  function FallbackImageUrl(base: string, picture: Option<string>, fallback: string): (url: string)
    ensures HasName(picture) ==> Some(url) == EcoImageUrl(base, picture)
    ensures !HasName(picture) ==> url == RStripSlash(base) + EcoImageFolder + fallback
  {
    match EcoImageUrl(base, picture)
    case Some(u) => u
    case None => RStripSlash(base) + EcoImageFolder + fallback
  }

  /** The image of an item of a building-type route: its own picture when it has one,
      otherwise the zone and type image named after the path. */
  function BuildingImageUrl(base: string, picture: Option<string>, zoneNamePath: string, buildingTypePath: string): (url: string)
    ensures HasName(picture) ==> Some(url) == EcoImageUrl(base, picture)
    ensures !HasName(picture) ==>
              url == RStripSlash(base) + EcoImageFolder + ImageName(ExtractZoneNumber(zoneNamePath), NormalizeBuildingType(buildingTypePath))
  {
    match EcoImageUrl(base, picture)
    case Some(u) => u
    case None => RStripSlash(base) + EcoImageFolder + ImageName(ExtractZoneNumber(zoneNamePath), NormalizeBuildingType(buildingTypePath))
  }
}
