/**
 * Translation of station names shown in a trip plan.  A compound name
 * such as `Chatswood Station, Platform 4, Chatswood` is split at its
 * commas; platform segments are rewritten by template, the others are
 * cleaned and looked up, first in the table of the leg's transport mode
 * and then in the merged table of all modes; the segments are joined
 * again with `", "`.
 */
module StationTranslation {
  import opened Wrappers
  import opened Text

  /** One station's translations: language code to translated name. */
  type Entry = map<string, string>

  /** One mode's translation file: English station name to entry. */
  type Table = map<string, Entry>

  /** The language codes the service accepts. */
  const AvailableLanguages: set<string> := {"en", "zh"}

  /** The texts `_clean_station_name` deletes, in the order it deletes them. */
  const Replacements: seq<string> :=
    [" Station", " stop", " wharf", " terminal", ", Sydney", ", North Sydney", ", NSW", ", Chatswood"]

  /** The text put before a platform's number. */
  const PlatformWord: string := "站台"

  /** The text appended to a translated name whose segment said `Station`. */
  const StationWord: string := "站"

  // ---------------------------------------------------------------------
  // The merged table
  // ---------------------------------------------------------------------

  /** `all_translations`: the tables merged in order with `dict.update`,
      so a later table's entry replaces an earlier one's. */
  function MergeTables(tables: seq<Table>): (merged: Table)
    ensures forall k :: 0 <= k < |tables| ==> tables[k].Keys <= merged.Keys
    ensures tables != [] ==>
              forall name :: name in tables[|tables| - 1] ==> merged[name] == tables[|tables| - 1][name]
    decreases |tables|
  {
    if tables == [] then map[] else MergeTables(tables[..|tables| - 1]) + tables[|tables| - 1]
  }

  /** A name is in the merged table exactly when some table holds it. */
  lemma {:induction false} MergeHasName(tables: seq<Table>, name: string)
    ensures name in MergeTables(tables) <==> exists k :: 0 <= k < |tables| && name in tables[k]
    decreases |tables|
  {
    if tables != [] {
      var init := tables[..|tables| - 1];
      MergeHasName(init, name);
      if exists k :: 0 <= k < |init| && name in init[k] {
        var k :| 0 <= k < |init| && name in init[k];
        assert name in tables[k];
      }
      if exists k :: 0 <= k < |tables| && name in tables[k] {
        var k :| 0 <= k < |tables| && name in tables[k];
        if k < |init| { assert name in init[k]; }
      }
    }
  }

  /** The merged entry of a name is that of the last table holding it. */
  lemma {:induction false} MergeLastWins(tables: seq<Table>, name: string, k: int)
    requires 0 <= k < |tables| && name in tables[k]
    requires forall k2 :: k < k2 < |tables| ==> name !in tables[k2]
    ensures name in MergeTables(tables) && MergeTables(tables)[name] == tables[k][name]
    decreases |tables|
  {
    var init := tables[..|tables| - 1];
    if k < |tables| - 1 {
      assert name !in tables[|tables| - 1];
      MergeLastWins(init, name, k);
    }
  }

  // ---------------------------------------------------------------------
  // Transport mode
  // ---------------------------------------------------------------------

  /** `_get_transport_mode`: the translation table of a transport mode
      name, by case-insensitive keyword, metro first, then train, ferry
      and light rail; None for an empty or unrecognised name. */
  function GetTransportMode(mode: string): (r: Option<string>)
    ensures mode == "" ==> r.None?
    ensures r.Some? ==> r.value in {"metro", "train", "ferry", "lightrail"}
    ensures r == Some("metro") <==> mode != "" && Contains(Lower(mode), "metro")
    ensures r == Some("train") <==>
              mode != "" && !Contains(Lower(mode), "metro") && Contains(Lower(mode), "train")
    ensures r == Some("ferry") <==>
              mode != "" && !Contains(Lower(mode), "metro") && !Contains(Lower(mode), "train") &&
              (Contains(Lower(mode), "ferries") || Contains(Lower(mode), "ferry"))
    ensures r == Some("lightrail") <==>
              mode != "" && !Contains(Lower(mode), "metro") && !Contains(Lower(mode), "train") &&
              !Contains(Lower(mode), "ferries") && !Contains(Lower(mode), "ferry") &&
              (Contains(Lower(mode), "light rail") || Contains(Lower(mode), "lightrail"))
    ensures r.None? <==>
              mode == "" ||
              (!Contains(Lower(mode), "metro") && !Contains(Lower(mode), "trains") && !Contains(Lower(mode), "train") &&
               !Contains(Lower(mode), "ferries") && !Contains(Lower(mode), "ferry") &&
               !Contains(Lower(mode), "light rail") && !Contains(Lower(mode), "lightrail") &&
               !Contains(Lower(mode), "trainlink"))
    ensures mode != "" && Contains(Lower(mode), "trainlink") ==> r == Some("metro") || r == Some("train")
  {
    if mode == "" then None
    else
      var lower := Lower(mode);
      TrainsIsTrain(lower);
      if Contains(lower, "metro") then Some("metro")
      else if Contains(lower, "trains") || Contains(lower, "train") then Some("train")
      else if Contains(lower, "ferries") || Contains(lower, "ferry") then Some("ferry")
      else if Contains(lower, "light rail") || Contains(lower, "lightrail") then Some("lightrail")
      else if Contains(lower, "trainlink") then Some("trainlink")
      else None
  }

  /** `trains` and `trainlink` both contain `train`. */
  lemma TrainsIsTrain(s: string)
    ensures Contains(s, "trains") ==> Contains(s, "train")
    ensures Contains(s, "trainlink") ==> Contains(s, "train")
  {
    if Contains(s, "trains") {
      ContainsPrefixOfPattern(s, "trains", "train");
    }
    if Contains(s, "trainlink") {
      ContainsPrefixOfPattern(s, "trainlink", "train");
    }
  }

  /** `lower()` of an upper-cased string equals `lower()` of the string. */
  lemma LowerUpper(s: string)
    ensures Lower(Upper(s)) == Lower(s)
  {
    assert forall k :: 0 <= k < |s| ==> LowerChar(UpperChar(s[k])) == LowerChar(s[k]);
  }

  /** The mode name is read without regard to ASCII letter case. */
  lemma ModeIgnoresCase(m1: string, m2: string)
    requires Lower(m1) == Lower(m2)
    ensures GetTransportMode(m1) == GetTransportMode(m2)
  {
    assert |m1| == |Lower(m1)| == |Lower(m2)| == |m2|;
  }

  /** In particular, upper-casing a mode name changes nothing. */
  lemma ModeOfUpper(mode: string)
    ensures GetTransportMode(Upper(mode)) == GetTransportMode(mode)
  {
    LowerUpper(mode);
    ModeIgnoresCase(Upper(mode), mode);
  }

  // ---------------------------------------------------------------------
  // Cleaning one segment
  // ---------------------------------------------------------------------

  /** Each text of `patterns` deleted in turn, as by `str.replace(p, "")`. */
  function RemoveEach(s: string, patterns: seq<string>): (r: string)
    requires forall k :: 0 <= k < |patterns| ==> patterns[k] != []
    ensures |r| <= |s|
    ensures (forall k :: 0 <= k < |patterns| ==> !Contains(s, patterns[k])) ==> r == s
    decreases |patterns|
  {
    if patterns == [] then s
    else
      RemoveShortens(s, patterns[0]);
      RemoveEach(ReplaceAll(s, patterns[0], ""), patterns[1..])
  }

  /** The cleaned form of a segment, used as the lookup key. */
  function CleanedName(name: string): (r: string)
    ensures |r| <= |name|
  {
    ReplacementsNonEmpty();
    Strip(RemoveEach(name, Replacements))
  }

  /** Every deleted text is non-empty. */
  lemma ReplacementsNonEmpty()
    ensures forall k :: 0 <= k < |Replacements| ==> |Replacements[k]| > 0
  {
  }

  /** A segment holding none of the deleted texts is only stripped. */
  lemma CleanOnlyStrips(name: string)
    requires forall k :: 0 <= k < |Replacements| ==> !Contains(name, Replacements[k])
    ensures CleanedName(name) == Strip(name)
  {
  }

  /** The first pass deletes the first occurrence of its text (and, on
      the same scan, every later one) before the remaining passes run. */
  lemma RemoveEachDeletes(x: string, y: string, patterns: seq<string>)
    requires forall k :: 0 <= k < |patterns| ==> patterns[k] != []
    requires patterns != [] && patterns[0][0] !in patterns[0][1..]
    requires !Contains(x, patterns[0])
    ensures RemoveEach(x + patterns[0] + y, patterns) == RemoveEach(x + ReplaceAll(y, patterns[0], ""), patterns[1..])
  {
    var p := patterns[0];
    var rest := ReplaceAll(y, p, "");
    assert ReplaceAll(x + p + y, p, "") == x + rest by {
      ReplaceSplice(x, p, y, "");
      assert x + "" + rest == x + rest;
    }
    RemoveEachFirst(x + p + y, patterns);
  }

  /** The first pass, then the others. */
  lemma RemoveEachFirst(s: string, patterns: seq<string>)
    requires forall k :: 0 <= k < |patterns| ==> patterns[k] != []
    requires patterns != []
    ensures RemoveEach(s, patterns) == RemoveEach(ReplaceAll(s, patterns[0], ""), patterns[1..])
  {
  }

  /** A name followed by `" Station"` cleans to the stripped name, when
      the name itself holds none of the deleted texts. */
  lemma CleanDropsStationWord(x: string)
    requires forall k :: 0 <= k < |Replacements| ==> !Contains(x, Replacements[k])
    ensures CleanedName(x + " Station") == Strip(x)
    ensures CleanedName(x + " Station") == CleanedName(x)
  {
    ReplacementsNonEmpty();
    var pat := Replacements[0];
    assert pat == " Station" && pat[0] !in pat[1..];
    RemoveEachDeletes(x, "", Replacements);
    assert x + pat + "" == x + " Station";
    assert x + ReplaceAll("", pat, "") == x;
    assert forall k :: 0 <= k < |Replacements[1..]| ==> !Contains(x, Replacements[1..][k]);
    CleanOnlyStrips(x);
  }

  /** `_clean_station_name`: delete each text of the list, then strip. */
  method CleanStationName(name: string) returns (cleaned: string)
    ensures cleaned == CleanedName(name)
  {
    cleaned := name;
    for i := 0 to |Replacements|
      invariant RemoveEach(cleaned, Replacements[i..]) == RemoveEach(name, Replacements)
    {
      cleaned := ReplaceAll(cleaned, Replacements[i], "");
    }
    cleaned := Strip(cleaned);
  }

  // ---------------------------------------------------------------------
  // Per-segment translation
  // ---------------------------------------------------------------------

  /** `entry.get(languageCode)`. */
  function EntryGet(entry: Entry, languageCode: string): (r: Option<string>)
    ensures r.Some? <==> languageCode in entry
    ensures r.Some? ==> r.value == entry[languageCode]
  {
    if languageCode in entry then Some(entry[languageCode]) else None
  }

  /** A segment mentions a platform. */
  predicate IsPlatformPart(part: string) {
    Contains(part, "Platform") || Contains(part, "platform")
  }

  /** The translation of `name` in the table of `transportMode`, if the
      name is there. */
  function ModeLookup(translations: map<string, Table>, name: string, transportMode: string,
                      languageCode: string): Option<string>
  {
    if transportMode in translations && name in translations[transportMode]
    then EntryGet(translations[transportMode][name], languageCode)
    else None
  }

  /** The translation of `name` in the merged table. */
  function MergedLookup(merged: Table, name: string, languageCode: string): (r: Option<string>)
    ensures r.Some? <==> name in merged && languageCode in merged[name]
    ensures r.Some? ==> r.value == merged[name][languageCode]
  {
    if name in merged then EntryGet(merged[name], languageCode) else None
  }

  /** The mode table's translation when it is non-empty, otherwise the
      merged table's. */
  function Lookup(translations: map<string, Table>, merged: Table, name: string, transportMode: string,
                  languageCode: string): Option<string>
  {
    var t := ModeLookup(translations, name, transportMode, languageCode);
    if Truthy(t) then t else MergedLookup(merged, name, languageCode)
  }

  /** The output of one stripped segment: a platform by template, any
      other segment by its cleaned name's translation (with `站` when it
      said `Station`), or unchanged when there is none. */
  function PartTranslation(translations: map<string, Table>, merged: Table, part: string,
                           transportMode: string, languageCode: string): string
  {
    if IsPlatformPart(part) then
      if languageCode == "zh" then PlatformWord + Digits(part) else part
    else
      var translation := Lookup(translations, merged, CleanedName(part), transportMode, languageCode);
      if Truthy(translation) then
        if languageCode == "zh" && Contains(part, "Station") then translation.value + StationWord
        else translation.value
      else part
  }

  /** `f` applied to each element, in order. */
  function MapSeq<A, B>(f: A -> B, xs: seq<A>): (r: seq<B>)
    ensures |r| == |xs|
    decreases |xs|
  {
    if xs == [] then [] else MapSeq(f, xs[..|xs| - 1]) + [f(xs[|xs| - 1])]
  }

  /** Element `k` of the map is `f` of element `k`. */
  lemma {:induction false} MapSeqPointwise<A, B>(f: A -> B, xs: seq<A>)
    ensures forall k :: 0 <= k < |xs| ==> MapSeq(f, xs)[k] == f(xs[k])
    decreases |xs|
  {
    if xs != [] {
      var init := xs[..|xs| - 1];
      MapSeqPointwise(f, init);
      forall k | 0 <= k < |init| ensures MapSeq(f, xs)[k] == f(xs[k]) {
        assert init[k] == xs[k];
      }
    }
  }

  /** `StationTranslationService`: the per-mode tables and their merge. */
  class StationTranslationService {
    /** `translations`: mode name to that mode's table. */
    var translations: map<string, Table>
    /** `all_translations`: the five tables merged in mode order. */
    var allTranslations: Table

    /** Construction with the five loaded translation files (an empty
        table for a file that failed to load). */
    constructor (train: Table, metro: Table, ferry: Table, lightrail: Table, trainlink: Table)
      ensures translations == map["train" := train, "metro" := metro, "ferry" := ferry,
                                  "lightrail" := lightrail, "trainlink" := trainlink]
      ensures allTranslations == MergeTables([train, metro, ferry, lightrail, trainlink])
    {
      var loaded := [train, metro, ferry, lightrail, trainlink];
      var merged: Table := map[];
      for i := 0 to |loaded|
        invariant merged == MergeTables(loaded[..i])
      {
        assert loaded[..i + 1][..i] == loaded[..i];
        merged := merged + loaded[i];
      }
      assert loaded[..|loaded|] == loaded;
      translations := map["train" := train, "metro" := metro, "ferry" := ferry,
                          "lightrail" := lightrail, "trainlink" := trainlink];
      allTranslations := merged;
    }

    /** The translation in the mode's own table, if the name is there. */
    function ModeTranslation(name: string, transportMode: string, languageCode: string): Option<string>
      reads this
    {
      ModeLookup(translations, name, transportMode, languageCode)
    }

    /** `_find_translation`: the translation in the merged table. */
    function FindTranslation(name: string, languageCode: string): (r: Option<string>)
      reads this
      ensures r.Some? <==> name in allTranslations && languageCode in allTranslations[name]
      ensures r.Some? ==> r.value == allTranslations[name][languageCode]
    {
      MergedLookup(allTranslations, name, languageCode)
    }

    /** The translation used for a cleaned name: the mode table's when it
        is non-empty, otherwise the merged table's. */
    function LookupTranslation(name: string, transportMode: string, languageCode: string): Option<string>
      reads this
    {
      Lookup(translations, allTranslations, name, transportMode, languageCode)
    }

    /** The output of one (stripped) segment. */
    function TranslatePart(part: string, transportMode: string, languageCode: string): string
      reads this
    {
      PartTranslation(translations, allTranslations, part, transportMode, languageCode)
    }

    /** The outputs of the segments `parts`, each stripped, in order. */
    function TranslateParts(parts: seq<string>, transportMode: string, languageCode: string): (r: seq<string>)
      reads this
      ensures |r| == |parts|
      decreases |parts|
    {
      if parts == [] then []
      else TranslateParts(parts[..|parts| - 1], transportMode, languageCode) +
           [TranslatePart(Strip(parts[|parts| - 1]), transportMode, languageCode)]
    }

    /** What `_translate_station_name` returns. */
    function TranslatedName(stationName: string, transportMode: string, languageCode: string): (r: string)
      reads this
      ensures languageCode == "en" ==> r == stationName
    {
      if languageCode == "en" then stationName
      else Join(TranslateParts(Split(stationName, ','), transportMode, languageCode), ", ")
    }

    /** `_translate_station_name`: translate each comma-separated segment
        and join the results with `", "`. */
    method TranslateStationName(stationName: string, transportMode: string, languageCode: string)
      returns (result: string)
      ensures result == TranslatedName(stationName, transportMode, languageCode)
    {
      if languageCode == "en" {
        return stationName;
      }
      var parts := Split(stationName, ',');
      var translatedParts: seq<string> := [];
      for i := 0 to |parts|
        invariant translatedParts == TranslateParts(parts[..i], transportMode, languageCode)
      {
        var translatedPart := TranslateOnePart(Strip(parts[i]), transportMode, languageCode);
        TranslatePartsSnoc(this, parts, i, transportMode, languageCode);
        translatedParts := translatedParts + [translatedPart];
      }
      assert translatedParts == TranslateParts(parts, transportMode, languageCode) by {
        assert parts[..|parts|] == parts;
      }
      result := Join(translatedParts, ", ");
    }

    /** The body of the segment loop: a platform segment by template,
        otherwise the cleaned name looked up in the mode's table and then,
        failing a non-empty result, in the merged table. */
    method TranslateOnePart(part: string, transportMode: string, languageCode: string)
      returns (translatedPart: string)
      ensures translatedPart == TranslatePart(part, transportMode, languageCode)
    {
      if IsPlatformPart(part) {
        return if languageCode == "zh" then PlatformWord + Digits(part) else part;
      }
      var cleanName := CleanStationName(part);
      var originalHasStation := Contains(part, "Station");
      var translation: Option<string> := None;
      if transportMode in translations && cleanName in translations[transportMode] {
        translation := EntryGet(translations[transportMode][cleanName], languageCode);
      }
      if !Truthy(translation) {
        translation := FindTranslation(cleanName, languageCode);
      }
      if Truthy(translation) {
        translatedPart := translation.value;
        if languageCode == "zh" && originalHasStation {
          translatedPart := translatedPart + StationWord;
        }
      } else {
        translatedPart := part;
      }
    }

    /** What `translate_station_names` returns. */
    function TranslationOf(stationName: string, transportMode: string, languageCode: string): string
      reads this
    {
      if stationName == "" then stationName
      else
        var lang := if languageCode in AvailableLanguages then languageCode else "en";
        if lang == "en" then stationName
        else match GetTransportMode(transportMode)
          case None => stationName
          case Some(mode) => TranslatedName(stationName, mode, lang)
    }

    /** `translate_station_names`: the name unchanged when it is empty,
        when the language is English or unsupported, or when the mode is
        unrecognised; otherwise the segment-wise translation. */
    method TranslateStationNames(stationName: string, transportMode: string, languageCode: string)
      returns (result: string)
      ensures result == TranslationOf(stationName, transportMode, languageCode)
    {
      if stationName == "" {
        return stationName;
      }
      var lang := languageCode;
      if lang !in AvailableLanguages {
        lang := "en";
      }
      if lang == "en" {
        return stationName;
      }
      var transportType := GetTransportMode(transportMode);
      if transportType.None? {
        return stationName;
      }
      result := TranslateStationName(stationName, transportType.value, lang);
    }
  }

  // ---------------------------------------------------------------------
  // Properties
  // ---------------------------------------------------------------------

  /** The name comes back unchanged exactly in the cases that skip
      translation. */
  lemma UntranslatedCases(svc: StationTranslationService, stationName: string, transportMode: string,
                          languageCode: string)
    requires stationName == "" || languageCode != "zh" || GetTransportMode(transportMode).None?
    ensures svc.TranslationOf(stationName, transportMode, languageCode) == stationName
  {
  }

  /** A platform segment becomes `站台` and that segment's digits, in
      Chinese. */
  lemma PlatformTemplate(svc: StationTranslationService, part: string, transportMode: string)
    requires Contains(part, "Platform") || Contains(part, "platform")
    ensures svc.TranslatePart(part, transportMode, "zh") == PlatformWord + Digits(part)
  {
  }

  /** The mode's own table is consulted first: its non-empty
      translation is used even when the merged table has another. */
  lemma ModeTableFirst(svc: StationTranslationService, part: string, transportMode: string, t: string)
    requires !IsPlatformPart(part) && !Contains(part, "Station")
    requires transportMode in svc.translations && CleanedName(part) in svc.translations[transportMode]
    requires EntryGet(svc.translations[transportMode][CleanedName(part)], "zh") == Some(t) && t != ""
    ensures svc.TranslatePart(part, transportMode, "zh") == t
  {
  }

  /** Without a non-empty translation in the mode's table, the merged
      table's is used; without either, the segment stays as it is. */
  lemma MergedTableSecond(svc: StationTranslationService, part: string, transportMode: string)
    requires !IsPlatformPart(part) && !Contains(part, "Station")
    requires !Truthy(svc.ModeTranslation(CleanedName(part), transportMode, "zh"))
    ensures var f := svc.FindTranslation(CleanedName(part), "zh");
            svc.TranslatePart(part, transportMode, "zh") == if Truthy(f) then f.value else part
  {
  }

  /** `站` is appended exactly when a Chinese translation was found for a
      segment that said `Station`. */
  lemma StationSuffixRule(svc: StationTranslationService, part: string, transportMode: string,
                          languageCode: string)
    requires !IsPlatformPart(part)
    ensures var t := svc.LookupTranslation(CleanedName(part), transportMode, languageCode);
            var r := svc.TranslatePart(part, transportMode, languageCode);
            && (Truthy(t) && languageCode == "zh" && Contains(part, "Station") ==> r == t.value + StationWord)
            && (Truthy(t) && !(languageCode == "zh" && Contains(part, "Station")) ==> r == t.value)
            && (!Truthy(t) ==> r == part)
  {
  }

  /** The later mode wins in the merged table: a name in both the metro
      and the trainlink table (and in no other) takes the trainlink
      entry. */
  lemma LaterModeOverrides(train: Table, metro: Table, ferry: Table, lightrail: Table, trainlink: Table,
                           name: string)
    requires name in trainlink
    ensures name in MergeTables([train, metro, ferry, lightrail, trainlink])
    ensures MergeTables([train, metro, ferry, lightrail, trainlink])[name] == trainlink[name]
  {
    MergeLastWins([train, metro, ferry, lightrail, trainlink], name, 4);
  }

  /** A slice of a string without commas has none either. */
  lemma NoCommaSlice(s: string, i: int, j: int)
    requires ',' !in s && 0 <= i <= j <= |s|
    ensures ',' !in s[i..j]
  {
    assert forall k :: 0 <= k < j - i ==> s[i..j][k] == s[i + k];
  }

  /** No translation text in the service's tables holds a comma. */
  predicate CommaFreeTables(svc: StationTranslationService)
    reads svc
  {
    && (forall name, lang :: name in svc.allTranslations && lang in svc.allTranslations[name] ==>
          ',' !in svc.allTranslations[name][lang])
    && (forall mode, name, lang ::
          mode in svc.translations && name in svc.translations[mode] && lang in svc.translations[mode][name] ==>
          ',' !in svc.translations[mode][name][lang])
  }

  /** One more segment adds its translation at the end. */
  lemma TranslatePartsSnoc(svc: StationTranslationService, parts: seq<string>, i: int,
                           transportMode: string, languageCode: string)
    requires 0 <= i < |parts|
    ensures svc.TranslateParts(parts[..i + 1], transportMode, languageCode) ==
            svc.TranslateParts(parts[..i], transportMode, languageCode) +
            [svc.TranslatePart(Strip(parts[i]), transportMode, languageCode)]
  {
    assert parts[..i + 1][..i] == parts[..i];
  }

  /** The segments are translated one by one: the service's segment loop
      maps the per-segment translation over the parts. */
  lemma {:induction false} TranslatePartsAsMap(svc: StationTranslationService, parts: seq<string>,
                                               transportMode: string, languageCode: string)
    ensures var tables, merged := svc.translations, svc.allTranslations;
            svc.TranslateParts(parts, transportMode, languageCode) ==
            MapSeq((part: string) => PartTranslation(tables, merged, Strip(part), transportMode, languageCode), parts)
    decreases |parts|
  {
    if parts != [] {
      TranslatePartsAsMap(svc, parts[..|parts| - 1], transportMode, languageCode);
    }
  }

  /** Segment `k` of the output is input segment `k`, stripped and
      translated: one output per input, in input order. */
  lemma TranslatePartsPointwise(svc: StationTranslationService, parts: seq<string>,
                                transportMode: string, languageCode: string)
    ensures forall k :: 0 <= k < |parts| ==>
              svc.TranslateParts(parts, transportMode, languageCode)[k] ==
              svc.TranslatePart(Strip(parts[k]), transportMode, languageCode)
  {
    var tables, merged := svc.translations, svc.allTranslations;
    TranslatePartsAsMap(svc, parts, transportMode, languageCode);
    MapSeqPointwise((part: string) => PartTranslation(tables, merged, Strip(part), transportMode, languageCode), parts);
  }

  /** A comma-free segment translates to comma-free text. */
  lemma PartCommaFree(svc: StationTranslationService, piece: string, transportMode: string)
    requires CommaFreeTables(svc) && ',' !in piece
    ensures ',' !in svc.TranslatePart(Strip(piece), transportMode, "zh")
  {
    var part := Strip(piece);
    StripCommaFree(piece);
    if IsPlatformPart(part) {
      DigitsCommaFree(part);
    } else {
      LookupCommaFree(svc, CleanedName(part), transportMode);
    }
  }

  /** Stripping a comma-free text leaves it comma-free. */
  lemma StripCommaFree(piece: string)
    requires ',' !in piece
    ensures ',' !in Strip(piece)
  {
    var i, j :| 0 <= i <= j <= |piece| && Strip(piece) == piece[i..j];
    NoCommaSlice(piece, i, j);
  }

  /** A platform number has no comma. */
  lemma DigitsCommaFree(part: string)
    ensures ',' !in Digits(part)
  {
    var d := Digits(part);
    assert forall k :: 0 <= k < |d| ==> d[k] != ',';
  }

  /** Every translation the lookup finds is comma-free. */
  lemma LookupCommaFree(svc: StationTranslationService, name: string, transportMode: string)
    requires CommaFreeTables(svc)
    ensures var t := svc.LookupTranslation(name, transportMode, "zh");
            t.Some? ==> ',' !in t.value
  {
  }

  /** When no translation text holds a comma, the output has as many
      comma-separated segments as the input: one per input segment. */
  lemma SegmentCountKept(svc: StationTranslationService, stationName: string, transportMode: string)
    requires CommaFreeTables(svc)
    ensures |Split(svc.TranslatedName(stationName, transportMode, "zh"), ',')| == |Split(stationName, ',')|
  {
    var parts := Split(stationName, ',');
    var out := svc.TranslateParts(parts, transportMode, "zh");
    TranslatePartsPointwise(svc, parts, transportMode, "zh");
    forall k | 0 <= k < |out| ensures ',' !in out[k] {
      PartCommaFree(svc, parts[k], transportMode);
    }
    SplitJoinCount(out, ',', ", ");
  }
}
