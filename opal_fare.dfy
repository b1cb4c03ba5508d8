/**
 * The Opal rail fare engine: station-name cleaning, the order-independent
 * distance key, the five distance bands, the airport-line access fee and
 * the off-peak discount.  Money is in integer cents; distances in km.
 */
module OpalFare {
  import opened Wrappers
  import opened Text

  // ---------------------------------------------------------------------
  // Fixed tables
  // ---------------------------------------------------------------------

  /** The five rail fare bands, by distance travelled. */
  datatype FareBand = UpTo10 | UpTo20 | UpTo35 | UpTo65 | Over65 {
    /** The band's key in the fare table and in the fare result. */
    function Key(): string {
      match this
      case UpTo10 => "0-10"
      case UpTo20 => "10-20"
      case UpTo35 => "20-35"
      case UpTo65 => "35-65"
      case Over65 => "65+"
    }

    /** Position of the band, shortest distances first. */
    function Rank(): nat {
      match this
      case UpTo10 => 0
      case UpTo20 => 1
      case UpTo35 => 2
      case UpTo65 => 3
      case Over65 => 4
    }
  }

  /** The distances (km) that separate consecutive bands; each limit
      belongs to the band below it. */
  const BandLimits: seq<real> := [10.0, 20.0, 35.0, 65.0]

  /** The 2024 adult rail fare of each band, in cents. */
  function RailFare(band: FareBand): nat {
    match band
    case UpTo10 => 413
    case UpTo20 => 522
    case UpTo35 => 605
    case UpTo65 => 802
    case Over65 => 1034
  }

  /** The station access fee, in cents, keyed by cleaned station name. */
  const StationAccessFees: map<string, nat> := map[
    "Airport" := 1540,
    "Domestic Airport" := 1540,
    "International Airport" := 1540,
    "Sydney Airport" := 1540,
    "Mascot" := 1540
  ]

  /** The access fee of one surcharged station, in cents. */
  const AccessFeeCents: nat := 1540

  /** The off-peak discount, in percent of the base fare. */
  const OffPeakDiscountPercent: nat := 30

  // ---------------------------------------------------------------------
  // Station-name cleaning: three regular-expression rewrites
  // ---------------------------------------------------------------------

  const PlatformPrefix: string := ", Platform "

  /** `, Platform ` followed by a digit starts `s`: the pattern
      `, Platform \d+` matches here. */
  predicate PlatformAhead(s: string) {
    |s| > |PlatformPrefix| && s[0] == ',' && StartsWith(s, PlatformPrefix) && IsDigit(s[|PlatformPrefix|])
  }

  /** The length of the run of digits that starts `s` (what greedy `\d+`
      consumes). */
  function DigitRun(s: string): (n: nat)
    ensures n <= |s|
    ensures forall k :: 0 <= k < n ==> IsDigit(s[k])
    ensures n < |s| ==> !IsDigit(s[n])
    decreases |s|
  {
    if s != [] && IsDigit(s[0]) then 1 + DigitRun(s[1..]) else 0
  }

  /** `re.sub(r', Platform \d+', '', s)`: every match found scanning left
      to right is deleted. */
  function RemovePlatforms(s: string): (r: string)
    ensures |r| <= |s|
    decreases |s|
  {
    if PlatformAhead(s) then
      var t := s[|PlatformPrefix|..];
      RemovePlatforms(t[DigitRun(t)..])
    else if s == [] then []
    else [s[0]] + RemovePlatforms(s[1..])
  }

  /** `s` without one final newline: the text before where `$` matches. */
  function Chomp(s: string): (b: string)
    ensures b == s || (b + "\n" == s)
  {
    if s != [] && s[|s| - 1] == '\n' then s[..|s| - 1] else s
  }

  predicate IsSuburbChar(c: char) {
    ('A' <= c <= 'Z') || ('a' <= c <= 'z') || c == ' '
  }

  /** `, [A-Za-z ]+` matches from index `i` to the end of `b`. */
  predicate SuburbAt(b: string, i: int) {
    0 <= i && i + 2 < |b| && b[i] == ',' && b[i + 1] == ' ' &&
    forall k :: i + 2 <= k < |b| ==> IsSuburbChar(b[k])
  }

  /** The leftmost index at or after `i` where the suburb pattern matches. */
  function FirstSuburb(b: string, i: nat): (r: Option<nat>)
    requires i <= |b|
    ensures r.Some? ==> i <= r.value && SuburbAt(b, r.value)
    ensures r.None? ==> forall k :: i <= k ==> !SuburbAt(b, k)
    decreases |b| - i
  {
    if i == |b| then None
    else if SuburbAt(b, i) then Some(i)
    else FirstSuburb(b, i + 1)
  }

  /** The suburb pattern matches at one index at most: its characters
      exclude the comma that starts it. */
  lemma SuburbAtUnique(b: string, i: int, j: int)
    requires SuburbAt(b, i) && SuburbAt(b, j)
    ensures i == j
  {
  }

  /** `re.sub(r', [A-Za-z ]+$', '', s)`: a trailing `, <letters and
      spaces>` segment is deleted (a final newline, where `$` also
      matches, is kept). */
  function StripSuburb(s: string): (r: string)
    ensures (forall k :: !SuburbAt(Chomp(s), k)) ==> r == s
    ensures forall k :: SuburbAt(Chomp(s), k) ==> r == Chomp(s)[..k] + s[|Chomp(s)|..]
    ensures |r| <= |s|
  {
    var b := Chomp(s);
    match FirstSuburb(b, 0)
    case None => s
    case Some(i) =>
      assert forall k :: SuburbAt(b, k) ==> k == i by {
        forall k | SuburbAt(b, k) ensures k == i { SuburbAtUnique(b, i, k); }
      }
      b[..i] + s[|b|..]
  }

  const StationSuffix: string := " Station"

  /** `re.sub(r' Station$', '', s)`. */
  function StripStationSuffix(s: string): (r: string)
    ensures EndsWith(Chomp(s), StationSuffix) ==>
              r == s[..|Chomp(s)| - |StationSuffix|] + s[|Chomp(s)|..]
    ensures !EndsWith(Chomp(s), StationSuffix) ==> r == s
    ensures |r| <= |s|
  {
    var b := Chomp(s);
    if EndsWith(b, StationSuffix) then b[..|b| - |StationSuffix|] + s[|b|..] else s
  }

  /** `clean_station_name`: the three rewrites, in order. */
  function CleanStationName(name: string): (r: string)
    ensures |r| <= |name|
  {
    StripStationSuffix(StripSuburb(RemovePlatforms(name)))
  }

  /** Deleting `, Platform <digits>` from the middle of a name whose text
      before it has no comma leaves the two sides joined. */
  lemma RemovePlatformsSplice(x: string, d: string, y: string)
    requires ',' !in x
    requires d != [] && forall k :: 0 <= k < |d| ==> IsDigit(d[k])
    requires y == [] || !IsDigit(y[0])
    ensures RemovePlatforms(x + PlatformPrefix + d + y) == x + RemovePlatforms(y)
  {
    var m := PlatformPrefix + d + y;
    assert x + PlatformPrefix + d + y == x + m;
    RemovePlatformsNoMatchAppend(x, m);
    RemovePlatformsAtMatch(d, y);
  }

  /** One match at the front is deleted with all of its digits. */
  lemma RemovePlatformsAtMatch(d: string, y: string)
    requires d != [] && forall k :: 0 <= k < |d| ==> IsDigit(d[k])
    requires y == [] || !IsDigit(y[0])
    ensures RemovePlatforms(PlatformPrefix + d + y) == RemovePlatforms(y)
  {
    var s := PlatformPrefix + d + y;
    assert PlatformAhead(s) by {
      assert s[..|PlatformPrefix|] == PlatformPrefix;
      assert s[|PlatformPrefix|] == d[0];
    }
    RemovePlatformsAhead(s);
    AfterPrefix(PlatformPrefix, d, y);
    DigitRunPrefix(d, y);
    AfterPrefix(d, y, "");
    assert y + "" == y;
  }

  /** What follows a prefix, once the prefix is sliced off. */
  lemma AfterPrefix(p: string, x: string, y: string)
    ensures (p + x + y)[|p|..] == x + y
  {
  }

  /** Where the pattern matches, the match and all its digits go. */
  lemma RemovePlatformsAhead(s: string)
    requires PlatformAhead(s)
    ensures var t := s[|PlatformPrefix|..]; RemovePlatforms(s) == RemovePlatforms(t[DigitRun(t)..])
  {
  }

  /** Where the pattern does not match, the first character is kept. */
  lemma RemovePlatformsNoMatch(s: string)
    requires s != [] && !PlatformAhead(s)
    ensures RemovePlatforms(s) == [s[0]] + RemovePlatforms(s[1..])
  {
  }

  /** A comma-free prefix passes through the platform rewrite unchanged. */
  lemma {:induction false} RemovePlatformsNoMatchAppend(x: string, y: string)
    requires ',' !in x
    ensures RemovePlatforms(x + y) == x + RemovePlatforms(y)
    decreases |x|
  {
    if x != [] {
      var tail := x[1..];
      CommaFreeTail(x);
      RemovePlatformsNoMatchAppend(tail, y);
      ConsAppend(x, y);
      RemovePlatformsKeepsChar(x + y);
      assert [x[0]] + tail == x;
    } else {
      assert x + y == y;
    }
  }

  /** Dropping the first character keeps a text comma-free. */
  lemma CommaFreeTail(x: string)
    requires x != [] && ',' !in x
    ensures ',' !in x[1..]
  {
    assert forall k :: 0 <= k < |x| - 1 ==> x[1..][k] == x[k + 1];
  }

  /** The head and the rest of `x + y` for a non-empty `x`. */
  lemma ConsAppend(x: string, y: string)
    requires x != []
    ensures (x + y)[0] == x[0] && (x + y)[1..] == x[1..] + y
  {
  }

  /** Where the text does not start with a comma, its first character is
      kept and the rest is rewritten. */
  lemma RemovePlatformsKeepsChar(s: string)
    requires s != [] && s[0] != ','
    ensures RemovePlatforms(s) == [s[0]] + RemovePlatforms(s[1..])
  {
    NoPlatformBeforeNonComma(s);
    RemovePlatformsNoMatch(s);
  }

  /** The platform pattern cannot match where the text does not start
      with its comma. */
  lemma NoPlatformBeforeNonComma(s: string)
    requires s != [] && s[0] != ','
    ensures !PlatformAhead(s)
  {
    if StartsWith(s, PlatformPrefix) {
      assert s[..|PlatformPrefix|][0] == s[0];
    }
  }


  /** A comma-free string has no platform to remove. */
  lemma RemovePlatformsNoComma(s: string)
    requires ',' !in s
    ensures RemovePlatforms(s) == s
  {
    RemovePlatformsNoMatchAppend(s, "");
    assert s + "" == s;
  }

  /** The digit run of `d + y` is `d` when `d` is all digits and `y`
      does not start with one. */
  lemma {:induction false} DigitRunPrefix(d: string, y: string)
    requires forall k :: 0 <= k < |d| ==> IsDigit(d[k])
    requires y == [] || !IsDigit(y[0])
    ensures DigitRun(d + y) == |d|
    decreases |d|
  {
    if d != [] {
      assert (d + y)[1..] == d[1..] + y;
      DigitRunPrefix(d[1..], y);
    } else {
      assert d + y == y;
    }
  }

  /** A name without commas loses at most a trailing ` Station`. */
  lemma NoCommaClean(name: string)
    requires ',' !in name
    ensures CleanStationName(name) == StripStationSuffix(name)
  {
    RemovePlatformsNoComma(name);
    var b := Chomp(name);
    assert forall k :: !SuburbAt(b, k);
  }

  /** A name with no comma that does not end in ` Station` is already clean. */
  lemma CleanFixesPlainName(name: string)
    requires ',' !in name && '\n' !in name
    requires !EndsWith(name, StationSuffix)
    ensures CleanStationName(name) == name
  {
    NoCommaClean(name);
    assert Chomp(name) == name;
  }

  /** A comma-free name followed by ` Station` cleans to the bare name. */
  lemma CleanDropsStation(name: string)
    requires ',' !in name && '\n' !in name
    ensures CleanStationName(name + StationSuffix) == name
  {
    var s := name + StationSuffix;
    SuffixAddsNoComma(name);
    NoCommaClean(s);
    assert s[|s| - 1] == 'n';
    assert s[|s| - |StationSuffix|..] == StationSuffix;
  }

  /** ` Station` brings no comma into a name. */
  lemma SuffixAddsNoComma(name: string)
    requires ',' !in name
    ensures ',' !in name + StationSuffix
  {
    var s := name + StationSuffix;
    forall k | 0 <= k < |s| ensures s[k] != ',' {
      if k >= |name| { assert s[k] == StationSuffix[k - |name|]; }
    }
  }

  /** The worked example: platform, suburb and ` Station` are all removed. */
  lemma CleanCentralExample()
    ensures CleanStationName("Central Station, Platform 16, Sydney") == "Central"
  {
    assert "Central Station, Platform 16, Sydney" ==
      "Central" + StationSuffix + PlatformPrefix + "16" + ", " + "Sydney";
    CleanFullName("Central", "16", "Sydney");
  }

  /** A name of the form `<name> Station, Platform <digits>, <suburb>`
      cleans to `<name>`, for a comma-free name and a suburb of letters
      and spaces. */
  lemma CleanFullName(name: string, digits: string, suburb: string)
    requires ',' !in name && '\n' !in name
    requires digits != [] && forall k :: 0 <= k < |digits| ==> IsDigit(digits[k])
    requires suburb != [] && forall k :: 0 <= k < |suburb| ==> IsSuburbChar(suburb[k])
    ensures CleanStationName(name + StationSuffix + PlatformPrefix + digits + ", " + suburb) == name
  {
    var x := name + StationSuffix;
    var y := ", " + suburb;
    assert name + StationSuffix + PlatformPrefix + digits + ", " + suburb == x + PlatformPrefix + digits + y;
    assert ',' !in x by {
      forall k | 0 <= k < |x| ensures x[k] != ',' {
        if k >= |name| { assert x[k] == StationSuffix[k - |name|]; }
      }
    }
    RemovePlatformsSplice(x, digits, y);
    RemovePlatformsSuburb(suburb);
    assert x + y == x + ", " + suburb;
    SuburbStripped(x, suburb);
    StationSuffixExample(name);
  }

  /** A suburb segment holds no platform. */
  lemma RemovePlatformsSuburb(suburb: string)
    requires forall k :: 0 <= k < |suburb| ==> IsSuburbChar(suburb[k])
    ensures RemovePlatforms(", " + suburb) == ", " + suburb
  {
    var y := ", " + suburb;
    assert RemovePlatforms(y) == [y[0]] + RemovePlatforms(y[1..]) by {
      SuburbNoPlatform(suburb);
      RemovePlatformsNoMatch(y);
    }
    assert RemovePlatforms(y[1..]) == y[1..] by {
      SuburbTailNoComma(suburb);
      RemovePlatformsNoComma(y[1..]);
    }
    assert [y[0]] + y[1..] == y;
  }

  /** No platform number can follow the comma of a suburb segment. */
  lemma SuburbNoPlatform(suburb: string)
    requires forall k :: 0 <= k < |suburb| ==> IsSuburbChar(suburb[k])
    ensures !PlatformAhead(", " + suburb)
  {
    var y := ", " + suburb;
    if |y| > |PlatformPrefix| {
      assert y[|PlatformPrefix|] == suburb[|PlatformPrefix| - 2];
    }
  }

  /** After its comma, a suburb segment has no comma. */
  lemma SuburbTailNoComma(suburb: string)
    requires forall k :: 0 <= k < |suburb| ==> IsSuburbChar(suburb[k])
    ensures ',' !in (", " + suburb)[1..]
  {
    var t := (", " + suburb)[1..];
    forall k | 0 <= k < |t| ensures t[k] != ',' {
      if k > 0 { assert t[k] == suburb[k - 1]; }
    }
  }

  /** A comma-free name followed by `, <suburb>` loses that suffix. */
  lemma SuburbStripped(x: string, suburb: string)
    requires ',' !in x && '\n' !in x
    requires suburb != [] && forall k :: 0 <= k < |suburb| ==> IsSuburbChar(suburb[k])
    ensures StripSuburb(x + ", " + suburb) == x
  {
    var s := x + ", " + suburb;
    assert s[|s| - 1] == suburb[|suburb| - 1];
    assert Chomp(s) == s;
    assert SuburbAt(s, |x|) by {
      forall k | |x| + 2 <= k < |s| ensures IsSuburbChar(s[k]) {
        assert s[k] == suburb[k - |x| - 2];
      }
    }
    assert s[..|x|] == x;
  }

  /** A name ending in ` Station` loses that word. */
  lemma StationSuffixExample(name: string)
    requires '\n' !in name
    ensures StripStationSuffix(name + StationSuffix) == name
  {
    var s := name + StationSuffix;
    assert s[|s| - 1] == 'n';
    assert Chomp(s) == s;
    assert s[|s| - |StationSuffix|..] == StationSuffix;
    assert s[..|name|] == name;
  }

  // ---------------------------------------------------------------------
  // Distance key and fare band
  // ---------------------------------------------------------------------

  /** The distance-table key of two (cleaned) names: the names in sorted
      order, joined by `->`. */
  function DistanceKey(a: string, b: string): (key: string)
    ensures key == a + "->" + b || key == b + "->" + a
    ensures key == a + "->" + b <== !Less(b, a)
    ensures key == b + "->" + a <== Less(b, a)
  {
    if Less(b, a) then b + "->" + a else a + "->" + b
  }

  /** The key does not depend on which name comes first. */
  lemma DistanceKeySymmetric(a: string, b: string)
    ensures DistanceKey(a, b) == DistanceKey(b, a)
  {
    if a != b {
      LessTotal(a, b);
      if Less(a, b) { LessAsymmetric(a, b); } else { LessAsymmetric(b, a); }
    }
  }

  /** `get_fare_band`: the band whose rank is the number of band limits
      the distance exceeds, so each limit falls in the lower band. */
  function GetFareBand(distance: real): (band: FareBand)
    ensures forall k :: 0 <= k < |BandLimits| ==> (k < band.Rank() <==> distance > BandLimits[k])
  {
    if distance <= 10.0 then UpTo10
    else if distance <= 20.0 then UpTo20
    else if distance <= 35.0 then UpTo35
    else if distance <= 65.0 then UpTo65
    else Over65
  }

  /** A longer distance never falls in a cheaper band. */
  lemma FareBandMonotone(d1: real, d2: real)
    requires d1 <= d2
    ensures GetFareBand(d1).Rank() <= GetFareBand(d2).Rank()
    ensures RailFare(GetFareBand(d1)) <= RailFare(GetFareBand(d2))
  {
    var r1, r2 := GetFareBand(d1).Rank(), GetFareBand(d2).Rank();
    if r2 < r1 {
      assert false;
    }
  }

  /** Exact limits fall in the lower band. */
  lemma FareBandBoundaries()
    ensures GetFareBand(10.0) == UpTo10
    ensures GetFareBand(20.0) == UpTo20
    ensures GetFareBand(35.0) == UpTo35
    ensures GetFareBand(65.0) == UpTo65
    ensures GetFareBand(65.01) == Over65
  {
  }

  // ---------------------------------------------------------------------
  // Access fee and off-peak discount
  // ---------------------------------------------------------------------

  /** `calculate_access_fee`: the surcharge of the cleaned name, else 0. */
  function CalculateAccessFee(name: string): (fee: nat)
    ensures fee == AccessFeeCents || fee == 0
    ensures fee == AccessFeeCents <==> CleanStationName(name) in StationAccessFees
  {
    var clean := CleanStationName(name);
    if clean in StationAccessFees then StationAccessFees[clean] else 0
  }

  /** The base fare less 30%, rounded to the nearest cent (halves up). */
  function OffPeakFare(baseFare: nat): (fare: nat)
    ensures 100 * fare - 50 <= 70 * baseFare < 100 * fare + 50
  {
    (70 * baseFare + 50) / 100
  }

  // ---------------------------------------------------------------------
  // The fare service
  // ---------------------------------------------------------------------

  /** The result of `calculate_fare`; all amounts in cents. */
  datatype Fare = Fare(
    distance: real,
    fareBand: FareBand,
    baseFare: nat,
    offPeakFare: Option<nat>,
    accessFee: nat,
    totalFare: nat,
    totalOffPeakFare: Option<nat>)

  /** `OpalFareService`: the distance table it loaded at construction and
      the fare computations that read it. */
  class OpalFareService {
    /** `distance_map`: key `"A->B"` (sorted names) to km. */
    var distanceMap: map<string, real>

    /** Construction after `load_distance_map` has read the table. */
    constructor (loaded: map<string, real>)
      ensures distanceMap == loaded
    {
      distanceMap := loaded;
    }

    /** `get_station_distance`: the table entry under the key of the two
        cleaned names, or None when the key is absent. */
    function GetStationDistance(origin: string, destination: string): (r: Option<real>)
      reads this
      ensures var key := DistanceKey(CleanStationName(origin), CleanStationName(destination));
              (r.Some? <==> key in distanceMap) && (r.Some? ==> r.value == distanceMap[key])
    {
      var key := DistanceKey(CleanStationName(origin), CleanStationName(destination));
      if key in distanceMap then Some(distanceMap[key]) else None
    }

    /** `calculate_fare`: None exactly when the distance is unknown,
        otherwise the fare for the looked-up distance and the access fees
        of the two stations. */
    function CalculateFare(origin: string, destination: string, isOffPeak: bool): (r: Option<Fare>)
      reads this
      ensures r.None? <==> GetStationDistance(origin, destination).None?
      ensures r.Some? ==>
        && r.value.distance == GetStationDistance(origin, destination).value
        && r.value == FareFor(r.value.distance, CalculateAccessFee(origin), CalculateAccessFee(destination), isOffPeak)
        && r.value.accessFee in {0, AccessFeeCents, 2 * AccessFeeCents}
    {
      match GetStationDistance(origin, destination)
      case None => None
      case Some(distance) =>
        Some(FareFor(distance, CalculateAccessFee(origin), CalculateAccessFee(destination), isOffPeak))
    }
  }

  /** The fare for a known distance: the band fare, the discount applied
      to the base fare only and only when off-peak, and the two access
      fees added after any discount. */
  function FareFor(distance: real, originFee: nat, destinationFee: nat, isOffPeak: bool): (f: Fare)
    ensures f.distance == distance
    ensures f.fareBand == GetFareBand(distance)
    ensures f.baseFare == RailFare(f.fareBand)
    ensures f.offPeakFare.Some? <==> isOffPeak
    ensures f.totalOffPeakFare.Some? <==> isOffPeak
    ensures isOffPeak ==> 100 * f.offPeakFare.value - 50 <= 70 * f.baseFare < 100 * f.offPeakFare.value + 50
    ensures f.accessFee == originFee + destinationFee
    ensures f.totalFare == f.baseFare + f.accessFee
    ensures isOffPeak ==> f.totalOffPeakFare.value == f.offPeakFare.value + f.accessFee
  {
    var band := GetFareBand(distance);
    var baseFare := RailFare(band);
    var accessFee := originFee + destinationFee;
    Fare(distance, band, baseFare,
         if isOffPeak then Some(OffPeakFare(baseFare)) else None,
         accessFee, baseFare + accessFee,
         if isOffPeak then Some(OffPeakFare(baseFare) + accessFee) else None)
  }

  /** Distances are looked up the same way in both directions. */
  lemma StationDistanceSymmetric(svc: OpalFareService, a: string, b: string)
    ensures svc.GetStationDistance(a, b) == svc.GetStationDistance(b, a)
  {
    DistanceKeySymmetric(CleanStationName(a), CleanStationName(b));
  }

  /** The whole fare is the same in both directions. */
  lemma FareSymmetric(svc: OpalFareService, a: string, b: string, isOffPeak: bool)
    ensures svc.CalculateFare(a, b, isOffPeak) == svc.CalculateFare(b, a, isOffPeak)
  {
    StationDistanceSymmetric(svc, a, b);
    var feeA, feeB := CalculateAccessFee(a), CalculateAccessFee(b);
    if svc.GetStationDistance(a, b).Some? {
      var km := svc.GetStationDistance(a, b).value;
      assert FareFor(km, feeA, feeB, isOffPeak) == FareFor(km, feeB, feeA, isOffPeak);
    }
  }

  /** Off-peak changes nothing but the two discounted fields. */
  lemma OffPeakKeepsBaseAndTotal(svc: OpalFareService, a: string, b: string)
    requires svc.CalculateFare(a, b, false).Some?
    ensures var peak, off := svc.CalculateFare(a, b, false).value, svc.CalculateFare(a, b, true).value;
            && off.baseFare == peak.baseFare
            && off.totalFare == peak.totalFare
            && off.accessFee == peak.accessFee
            && off.offPeakFare.value < peak.baseFare
  {
    var peak := svc.CalculateFare(a, b, false).value;
    var off := svc.CalculateFare(a, b, true);
    assert off.Some?;
    OffPeakFareKeepsBase(peak.distance, CalculateAccessFee(a), CalculateAccessFee(b));
  }

  /** For one distance and the same access fees, the off-peak fare keeps
      the base, the access fee and the total, and discounts the base. */
  lemma OffPeakFareKeepsBase(distance: real, originFee: nat, destinationFee: nat)
    ensures var peak, off := FareFor(distance, originFee, destinationFee, false),
                             FareFor(distance, originFee, destinationFee, true);
            && off.baseFare == peak.baseFare
            && off.totalFare == peak.totalFare
            && off.accessFee == peak.accessFee
            && off.offPeakFare.value < peak.baseFare
  {
    var base := RailFare(GetFareBand(distance));
    assert base >= 413;
  }


  /** A trip between two stations without access fee, whose cleaned
      names the table knows, costs the band fare of the tabled distance. */
  lemma FareWithoutAccessFee(svc: OpalFareService, origin: string, destination: string, isOffPeak: bool)
    requires DistanceKey(CleanStationName(origin), CleanStationName(destination)) in svc.distanceMap
    requires CleanStationName(origin) !in StationAccessFees
    requires CleanStationName(destination) !in StationAccessFees
    ensures var r := svc.CalculateFare(origin, destination, isOffPeak);
            && r.Some?
            && r.value.distance == svc.distanceMap[DistanceKey(CleanStationName(origin), CleanStationName(destination))]
            && r.value.accessFee == 0
            && r.value.totalFare == RailFare(GetFareBand(r.value.distance))
            && (isOffPeak ==> r.value.totalOffPeakFare == Some(OffPeakFare(RailFare(GetFareBand(r.value.distance)))))
  {
  }

  /** The second worked example: suburb and ` Station` are removed. */
  lemma CleanChatswood()
    ensures CleanStationName("Chatswood Station, Sydney") == "Chatswood"
  {
    assert "Chatswood Station, Sydney" == "Chatswood" + StationSuffix + ", " + "Sydney";
    CleanNameAndSuburb("Chatswood", "Sydney");
  }

  /** `<name> Station, <suburb>` cleans to `<name>`. */
  lemma CleanNameAndSuburb(name: string, suburb: string)
    requires ',' !in name && '\n' !in name
    requires suburb != [] && forall k :: 0 <= k < |suburb| ==> IsSuburbChar(suburb[k])
    ensures CleanStationName(name + StationSuffix + ", " + suburb) == name
  {
    var x := name + StationSuffix;
    assert ',' !in x by {
      forall k | 0 <= k < |x| ensures x[k] != ',' {
        if k >= |name| { assert x[k] == StationSuffix[k - |name|]; }
      }
    }
    assert x + ", " + suburb == x + (", " + suburb);
    RemovePlatformsNoMatchAppend(x, ", " + suburb);
    RemovePlatformsSuburb(suburb);
    SuburbStripped(x, suburb);
    StationSuffixExample(name);
  }
}
