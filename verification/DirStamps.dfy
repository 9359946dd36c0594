/**
 * Stamps in leftover names and the age sweep: a name carries its creation time to
 * the second, and the sweep goes by that time alone.
 *
 * Dates follow ECMA-262 2024: days and years by section 21.4.1.3, the date-time
 * string format by section 21.4.1.32.
 */
module DirStamps {
  import opened Options
  import opened ProvisionState

  const MS_PER_DAY := 86_400_000

  // --- Days, years and months -------------------------------------------------------------------

  predicate Leap(y: int) {
    y % 4 == 0 && (y % 100 != 0 || y % 400 == 0)
  }

  /** The day on which year `y` starts, counted from 1970-01-01. */
  function DayFromYear(y: int): int {
    365 * (y - 1970) + (y - 1969) / 4 - (y - 1901) / 100 + (y - 1601) / 400
  }

  lemma NextMultiple(x: int, d: int)
    requires d == 4 || d == 100 || d == 400
    ensures (x + 1) / d - x / d == if (x + 1) % d == 0 then 1 else 0
  {
    var q, r := x / d, x % d;
    assert x == d * q + r && 0 <= r < d;
  }

  lemma LeapsCountFromZero(y: int)
    ensures (y - 1968) % 4 == 0 <==> y % 4 == 0
    ensures (y - 1900) % 100 == 0 <==> y % 100 == 0
    ensures (y - 1600) % 400 == 0 <==> y % 400 == 0
  {
  }

  lemma YearLength(y: int)
    ensures DayFromYear(y + 1) - DayFromYear(y) == if Leap(y) then 366 else 365
  {
    NextMultiple(y - 1969, 4);
    NextMultiple(y - 1901, 100);
    NextMultiple(y - 1601, 400);
    LeapsCountFromZero(y);
  }

  lemma YearStarts(y: int)
    ensures DayFromYear(y - 1) < DayFromYear(y) < DayFromYear(y + 1) < DayFromYear(y + 2)
  {
    YearLength(y - 1);
    YearLength(y);
    YearLength(y + 1);
  }

  /** The year `day` falls in, searched from year `y`. */
  function YearFrom(day: int, y: int): (r: int)
    ensures DayFromYear(r) <= day < DayFromYear(r + 1)
    decreases if day < DayFromYear(y) then DayFromYear(y) - day
              else if day >= DayFromYear(y + 1) then day - DayFromYear(y + 1) + 1 else 0
  {
    YearStarts(y);
    if day < DayFromYear(y) then YearFrom(day, y - 1)
    else if day >= DayFromYear(y + 1) then YearFrom(day, y + 1)
    else y
  }

  lemma {:induction false} YearsRise(a: int, b: int)
    requires a <= b
    ensures DayFromYear(a) <= DayFromYear(b)
    decreases b - a
  {
    if a < b {
      YearsRise(a, b - 1);
      YearLength(b - 1);
    }
  }

  /** A day is in one year only. */
  lemma YearIsUnique(day: int, y: int, z: int)
    requires DayFromYear(y) <= day < DayFromYear(y + 1)
    requires DayFromYear(z) <= day < DayFromYear(z + 1)
    ensures y == z
  {
    if y < z {
      YearsRise(y + 1, z);
    } else if z < y {
      YearsRise(z + 1, y);
    }
  }

  /** Days of the year before month `m`, which counts from 1. */
  function DaysBefore(leap: bool, m: int): int
    requires 1 <= m <= 13
  {
    var l := if leap then 1 else 0;
    if m == 1 then 0 else if m == 2 then 31 else
      l + (if m == 3 then 59 else if m == 4 then 90 else if m == 5 then 120 else if m == 6 then 151
           else if m == 7 then 181 else if m == 8 then 212 else if m == 9 then 243 else if m == 10 then 273
           else if m == 11 then 304 else if m == 12 then 334 else 365)
  }

  /** The month of a day of the year, counted from 0. */
  function MonthOf(leap: bool, day: int): (m: int)
    requires 0 <= day < (if leap then 366 else 365)
    ensures 1 <= m <= 12 && DaysBefore(leap, m) <= day < DaysBefore(leap, m + 1)
    ensures day - DaysBefore(leap, m) < 31
  {
    if day < DaysBefore(leap, 2) then 1 else if day < DaysBefore(leap, 3) then 2
    else if day < DaysBefore(leap, 4) then 3 else if day < DaysBefore(leap, 5) then 4
    else if day < DaysBefore(leap, 6) then 5 else if day < DaysBefore(leap, 7) then 6
    else if day < DaysBefore(leap, 8) then 7 else if day < DaysBefore(leap, 9) then 8
    else if day < DaysBefore(leap, 10) then 9 else if day < DaysBefore(leap, 11) then 10
    else if day < DaysBefore(leap, 12) then 11 else 12
  }

  // --- Fields of a time ---------------------------------------------------------------------------

  datatype Fields = Fields(year: int, month: int, day: int, hour: int, minute: int, second: int)

  /** The UTC fields of a time in milliseconds since the epoch. */
  function FieldsOf(t: int): Fields {
    var day := t / MS_PER_DAY;
    var ms := t % MS_PER_DAY;
    var y := YearFrom(day, 1970);
    YearLength(y);
    var inYear := day - DayFromYear(y);
    var m := MonthOf(Leap(y), inYear);
    Fields(y, m, inYear - DaysBefore(Leap(y), m) + 1, ms / 3_600_000, ms / 60_000 % 60, ms / 1000 % 60)
  }

  /** The ranges the format gives its elements; hour 24 is the end of a day. */
  predicate Legal(f: Fields) {
    && 1 <= f.month <= 12 && 1 <= f.day <= 31
    && (0 <= f.hour <= 23 || (f.hour == 24 && f.minute == 0 && f.second == 0))
    && 0 <= f.minute <= 59 && 0 <= f.second <= 59
  }

  function TimeOf(f: Fields): int
    requires Legal(f)
  {
    (DayFromYear(f.year) + DaysBefore(Leap(f.year), f.month) + f.day - 1) * MS_PER_DAY
    + f.hour * 3_600_000 + f.minute * 60_000 + f.second * 1000
  }

  lemma ClockFields(ms: int)
    requires 0 <= ms < MS_PER_DAY
    ensures 0 <= ms / 3_600_000 <= 23 && 0 <= ms / 60_000 % 60 <= 59 && 0 <= ms / 1000 % 60 <= 59
    ensures ms / 3_600_000 * 3_600_000 + ms / 60_000 % 60 * 60_000 + ms / 1000 % 60 * 1000 == ms - ms % 1000
  {
    var second, minute := ms / 1000, ms / 60_000;
    assert second / 60 == minute;
    assert minute / 60 == ms / 3_600_000;
    assert ms == 1000 * second + ms % 1000;
    assert second == 60 * minute + second % 60;
    assert minute == 60 * (minute / 60) + minute % 60;
  }

  /** The fields lose the milliseconds of a time and nothing else. */
  lemma FieldsRoundTrip(t: int)
    ensures Legal(FieldsOf(t)) && TimeOf(FieldsOf(t)) == t - t % 1000
  {
    var day, ms := t / MS_PER_DAY, t % MS_PER_DAY;
    ClockFields(ms);
    YearLength(YearFrom(day, 1970));
    SameMilliseconds(t, day, ms);
    var f := FieldsOf(t);
    assert DayFromYear(f.year) + DaysBefore(Leap(f.year), f.month) + f.day - 1 == day;
  }

  lemma SameMilliseconds(t: int, day: int, ms: int)
    requires t == day * MS_PER_DAY + ms
    ensures t % 1000 == ms % 1000
  {
    assert t == 1000 * (86_400 * day) + ms;
  }

  /** The length of a month. */
  function DaysIn(y: int, m: int): int {
    if m == 2 then if Leap(y) then 29 else 28
    else if m in {4, 6, 9, 11} then 30 else 31
  }

  lemma MonthsFollow(leap: bool, day: int)
    requires 0 <= day < (if leap then 365 else 364)
    ensures var m, n := MonthOf(leap, day), MonthOf(leap, day + 1);
            if day + 1 < DaysBefore(leap, m + 1) then n == m else m < 12 && n == m + 1 && DaysBefore(leap, n) == day + 1
  {
  }

  lemma MonthLength(y: int, m: int)
    requires 1 <= m <= 12
    ensures DaysBefore(Leap(y), m + 1) - DaysBefore(Leap(y), m) == DaysIn(y, m)
  {
  }

  lemma DayLater(t: int)
    ensures (t + 86_400_000) / MS_PER_DAY == t / MS_PER_DAY + 1 && (t + 86_400_000) % MS_PER_DAY == t % MS_PER_DAY
  {
  }

  /** A day later it is the next day of the month, or the first of the next month, or the new year's. */
  lemma NextDay(t: int)
    ensures var f := FieldsOf(t);
            FieldsOf(t + 86_400_000)
            == if f.day < DaysIn(f.year, f.month) then f.(day := f.day + 1)
               else if f.month < 12 then f.(month := f.month + 1, day := 1)
               else f.(year := f.year + 1, month := 1, day := 1)
  {
    hide YearFrom, DayFromYear, MonthOf, DaysIn;
    DayLater(t);
    var day := t / MS_PER_DAY;
    var y := YearFrom(day, 1970);
    var inYear := day - DayFromYear(y);
    YearLength(y);
    MonthLength(y, MonthOf(Leap(y), inYear));
    if day + 1 < DayFromYear(y + 1) {
      YearIsUnique(day + 1, YearFrom(day + 1, 1970), y);
      MonthsFollow(Leap(y), inYear);
    } else {
      YearLength(y + 1);
      YearIsUnique(day + 1, YearFrom(day + 1, 1970), y + 1);
    }
  }

  /** And time starts with 1970. */
  lemma TheEpoch(t: int)
    requires 0 <= t < MS_PER_DAY
    ensures FieldsOf(t) == Fields(1970, 1, 1, t / 3_600_000, t / 60_000 % 60, t / 1000 % 60)
  {
    YearIsUnique(0, YearFrom(0, 1970), 1970);
  }

  // --- Digits -------------------------------------------------------------------------------------

  predicate IsDigit(c: char) {
    '0' <= c <= '9'
  }

  predicate AllDigits(s: string) {
    forall i :: 0 <= i < |s| ==> IsDigit(s[i])
  }

  function Digit(d: int): (c: char)
    requires 0 <= d <= 9
    ensures IsDigit(c) && c as int - '0' as int == d
  {
    ('0' as int + d) as char
  }

  /** `n` in `width` decimal digits, leading zeros included. */
  function Padded(n: int, width: nat): (s: string)
    requires n >= 0
    ensures |s| == width && AllDigits(s)
  {
    if width == 0 then "" else Padded(n / 10, width - 1) + [Digit(n % 10)]
  }

  function Number(s: string): int
    requires AllDigits(s)
  {
    if s == "" then 0 else Number(s[..|s| - 1]) * 10 + (s[|s| - 1] as int - '0' as int)
  }

  function Pow10(width: nat): (p: int)
    ensures p >= 1
  {
    if width == 0 then 1 else 10 * Pow10(width - 1)
  }

  lemma {:induction false} NumberOfPadded(n: int, width: nat)
    requires 0 <= n < Pow10(width)
    ensures Number(Padded(n, width)) == n
  {
    if width > 0 {
      NumberOfPadded(n / 10, width - 1);
      var s := Padded(n, width);
      assert s[..|s| - 1] == Padded(n / 10, width - 1);
    }
  }

  // --- Stamps -------------------------------------------------------------------------------------

  function Clock(f: Fields): (s: string)
    requires Legal(f)
    ensures |s| == 8
  {
    "T" + Padded(f.hour, 2) + Padded(f.minute, 2) + Padded(f.second, 2) + "Z"
  }

  /** An ISO year: four digits, or a sign and six; the sign `-` goes with the dashes. */
  function YearDigits(y: int): string {
    if 0 <= y <= 9999 then Padded(y, 4) else if y > 9999 then "+" + Padded(y, 6) else Padded(-y, 6)
  }

  /** `formatDirStamp`. */
  function FormatDirStamp(t: int): string {
    FieldsRoundTrip(t);
    var f := FieldsOf(t);
    YearDigits(f.year) + Padded(f.month, 2) + Padded(f.day, 2) + Clock(f)
  }

  /** Whether `s` has the shape of a stamp: eight digits, `T`, six digits, `Z`. */
  predicate IsStamp(s: string) {
    && |s| == 16 && s[8] == 'T' && s[15] == 'Z'
    && AllDigits(s[..4]) && AllDigits(s[4..6]) && AllDigits(s[6..8])
    && AllDigits(s[9..11]) && AllDigits(s[11..13]) && AllDigits(s[13..15])
  }

  function StampFields(s: string): Fields
    requires IsStamp(s)
  {
    Fields(Number(s[..4]), Number(s[4..6]), Number(s[6..8]), Number(s[9..11]), Number(s[11..13]), Number(s[13..15]))
  }

  /** `parseDirStamp`: the time in a name that ends in a dash and a stamp. */
  function ParseDirStamp(name: string): Option<int> {
    if |name| >= 17 && name[|name| - 17] == '-' && IsStamp(name[|name| - 16..]) && Legal(StampFields(name[|name| - 16..]))
    then Some(TimeOf(StampFields(name[|name| - 16..])))
    else None
  }

  lemma Slices(y: string, mo: string, d: string, h: string, mi: string, sec: string)
    requires |y| == 4 && |mo| == 2 && |d| == 2 && |h| == 2 && |mi| == 2 && |sec| == 2
    ensures var s := y + mo + d + ("T" + h + mi + sec + "Z");
            && |s| == 16 && s[8] == 'T' && s[15] == 'Z'
            && s[..4] == y && s[4..6] == mo && s[6..8] == d
            && s[9..11] == h && s[11..13] == mi && s[13..15] == sec
  {
  }

  lemma TwoDigits(n: int)
    requires 0 <= n < 100
    ensures Number(Padded(n, 2)) == n
  {
    assert Pow10(2) == 100;
    NumberOfPadded(n, 2);
  }

  lemma StampReadsBack(t: int)
    requires 0 <= FieldsOf(t).year <= 9999
    ensures IsStamp(FormatDirStamp(t)) && StampFields(FormatDirStamp(t)) == FieldsOf(t)
    ensures var s, f := FormatDirStamp(t), FieldsOf(t);
            && |s| == 16 && s[8] == 'T' && s[15] == 'Z'
            && Number(s[..4]) == f.year && Number(s[4..6]) == f.month && Number(s[6..8]) == f.day
            && Number(s[9..11]) == f.hour && Number(s[11..13]) == f.minute && Number(s[13..15]) == f.second
  {
    FieldsRoundTrip(t);
    var f := FieldsOf(t);
    Slices(Padded(f.year, 4), Padded(f.month, 2), Padded(f.day, 2),
           Padded(f.hour, 2), Padded(f.minute, 2), Padded(f.second, 2));
    assert Pow10(4) == 10_000 by { assert Pow10(2) == 100; }
    NumberOfPadded(f.year, 4);
    TwoDigits(f.month);
    TwoDigits(f.day);
    TwoDigits(f.hour);
    TwoDigits(f.minute);
    TwoDigits(f.second);
  }

  /**
   * A stamped name gives back its creation time to the second, exactly when the year has
   * four digits; any other year gives no time at all, so such a name is never swept.
   */
  lemma StampRoundTrip(stem: string, t: int)
    ensures ParseDirStamp(stem + "-" + FormatDirStamp(t))
            == if 0 <= FieldsOf(t).year <= 9999 then Some(t - t % 1000) else None
  {
    FieldsRoundTrip(t);
    var stamp := FormatDirStamp(t);
    var name := stem + "-" + stamp;
    if 0 <= FieldsOf(t).year <= 9999 {
      StampReadsBack(t);
      assert name[|name| - 16..] == stamp;
    } else {
      assert |stamp| >= 18;
      assert name[|name| - 17] == stamp[|stamp| - 17];
      assert IsDigit(stamp[|stamp| - 17]);
    }
  }

  // --- The age sweep ------------------------------------------------------------------------------

  datatype Rule = Rule(prefix: string, maxAgeMs: int)
  datatype LeftoverAction = Removed(name: string) | FailedToRemove(name: string)

  const DELETING_MAX_AGE_MS := 10 * 60_000
  const SETTINGS_TRASH_MAX_AGE_MS := 30 * 24 * 60 * 60_000

  const BRANCH_RULES := [Rule(".prov-", STAGING_MAX_AGE_MS), Rule(".deleting-", DELETING_MAX_AGE_MS)]
  const SETTINGS_RULES := [Rule(".prov-settings-", STAGING_MAX_AGE_MS), Rule(".trash-settings-", SETTINGS_TRASH_MAX_AGE_MS)]

  /** The first rule whose prefix a name has. */
  function RuleFor(rules: seq<Rule>, name: string): Option<Rule> {
    if rules == [] then None
    else if rules[0].prefix <= name then Some(rules[0])
    else RuleFor(rules[1..], name)
  }

  /** What the sweep may remove: a stamped name of a rule, of at least the rule's age. */
  predicate Due(rules: seq<Rule>, now: int, name: string) {
    && RuleFor(rules, name).Some?
    && ParseDirStamp(name).Some?
    && now - ParseDirStamp(name).value >= RuleFor(rules, name).value.maxAgeMs
  }

  /** The first moment of the year 10000: a directory made then is of no age, and no sweep removes it. */
  lemma YearTenThousand(rules: seq<Rule>, now: int)
    ensures FieldsOf(253_402_300_800_000).year == 10_000
    ensures var name := ".prov-main-3f2a1b-" + FormatDirStamp(253_402_300_800_000);
            ParseDirStamp(name).None? && !Due(rules, now, name)
  {
    var day := 253_402_300_800_000 / MS_PER_DAY;
    assert day == DayFromYear(10_000) == 2_932_897 && DayFromYear(10_001) == 2_933_263;
    YearIsUnique(day, YearFrom(day, 1970), 10_000);
    StampRoundTrip(".prov-main-3f2a1b", 253_402_300_800_000);
    assert ".prov-main-3f2a1b" + "-" == ".prov-main-3f2a1b-";
  }

  function ActionsOf(rules: seq<Rule>, now: int, stuck: set<string>, listing: seq<string>): seq<LeftoverAction> {
    if listing == [] then []
    else
      var last := listing[|listing| - 1];
      ActionsOf(rules, now, stuck, listing[..|listing| - 1])
      + if !Due(rules, now, last) then [] else if last in stuck then [FailedToRemove(last)] else [Removed(last)]
  }

  class Root {
    var names: set<string>

    constructor (initial: set<string>)
      ensures names == initial
    {
      names := initial;
    }

    /**
     * `sweepByAge`, over a listing taken at its start; `stuck` are the names whose removal fails.
     * Exactly the due names that are not stuck go, and each due name is reported once, in order.
     */
    method SweepByAge(listing: seq<string>, rules: seq<Rule>, now: int, stuck: set<string>)
      returns (actions: seq<LeftoverAction>)
      requires forall name :: name in names <==> name in listing
      modifies this
      ensures forall name :: name in names <==>
                name in old(names) && !(Due(rules, now, name) && name !in stuck)
      ensures actions == ActionsOf(rules, now, stuck, listing)
    {
      actions := [];
      var i := 0;
      while i < |listing|
        invariant 0 <= i <= |listing|
        invariant forall name :: name in names <==>
                    name in old(names) && !(name in listing[..i] && Due(rules, now, name) && name !in stuck)
        invariant actions == ActionsOf(rules, now, stuck, listing[..i])
      {
        var name := listing[i];
        assert listing[..i + 1][..i] == listing[..i];
        assert listing[..i + 1] == listing[..i] + [name];
        var rule := RuleFor(rules, name);
        var stamp := if rule.Some? then ParseDirStamp(name) else None;
        if rule.Some? && stamp.Some? && now - stamp.value >= rule.value.maxAgeMs {
          if name in stuck {
            actions := actions + [FailedToRemove(name)];
          } else {
            names := names - {name};
            actions := actions + [Removed(name)];
          }
        }
        i := i + 1;
      }
      assert listing[..i] == listing;
    }
  }

  /** A stamped name is due exactly when its age, from the second it was made in, reaches the rule's. */
  lemma DueByAge(rules: seq<Rule>, stem: string, created: int, now: int)
    requires 0 <= FieldsOf(created).year <= 9999
    ensures var name := stem + "-" + FormatDirStamp(created);
            Due(rules, now, name) <==>
              && RuleFor(rules, name).Some?
              && now - (created - created % 1000) >= RuleFor(rules, name).value.maxAgeMs
  {
    StampRoundTrip(stem, created);
  }

  /** Nothing whose real age is at most the limit less a second is swept. */
  lemma YoungIsKept(rules: seq<Rule>, stem: string, created: int, now: int)
    requires var name := stem + "-" + FormatDirStamp(created);
             RuleFor(rules, name).Some? ==> now - created <= RuleFor(rules, name).value.maxAgeMs - 1000
    ensures !Due(rules, now, stem + "-" + FormatDirStamp(created))
  {
    StampRoundTrip(stem, created);
  }

  /** What a builder staged is not swept within its lifetime, whatever its branch name and tag. */
  lemma LiveStagingIsKept(rest: string, started: int, created: int, now: int)
    requires started <= created && now <= started + BUILDER_LIFETIME_MS
    ensures !Due(BRANCH_RULES, now, ".prov-" + rest + "-" + FormatDirStamp(created))
    ensures !Due(SETTINGS_RULES, now, ".prov-settings-" + rest + "-" + FormatDirStamp(created))
  {
    var name := ".prov-" + rest + "-" + FormatDirStamp(created);
    assert BRANCH_RULES[0].prefix <= name;
    YoungIsKept(BRANCH_RULES, ".prov-" + rest, created, now);
    var settings := ".prov-settings-" + rest + "-" + FormatDirStamp(created);
    assert SETTINGS_RULES[0].prefix <= settings;
    YoungIsKept(SETTINGS_RULES, ".prov-settings-" + rest, created, now);
  }

  // --- What a sweep reports -----------------------------------------------------------------------------

  /** The rule of a name is the first whose prefix it has. */
  lemma {:induction false} RuleIsFirst(rules: seq<Rule>, name: string)
    ensures RuleFor(rules, name).None? <==> forall k :: 0 <= k < |rules| ==> !(rules[k].prefix <= name)
    ensures RuleFor(rules, name).Some? ==>
              exists k :: 0 <= k < |rules| && rules[k].prefix <= name && RuleFor(rules, name) == Some(rules[k])
                          && forall j :: 0 <= j < k ==> !(rules[j].prefix <= name)
  {
    if rules != [] && !(rules[0].prefix <= name) {
      RuleIsFirst(rules[1..], name);
      if RuleFor(rules[1..], name).Some? {
        var k :| 0 <= k < |rules[1..]| && rules[1..][k].prefix <= name && RuleFor(rules[1..], name) == Some(rules[1..][k])
                 && forall j :: 0 <= j < k ==> !(rules[1..][j].prefix <= name);
        assert rules[k + 1] == rules[1..][k];
        forall j | 0 <= j < k + 1 ensures !(rules[j].prefix <= name) {
          assert j > 0 ==> rules[j] == rules[1..][j - 1];
        }
      } else {
        forall k | 0 <= k < |rules| ensures !(rules[k].prefix <= name) {
          assert k > 0 ==> rules[k] == rules[1..][k - 1];
        }
      }
    }
  }

  /** Beside the branches builds go after twenty minutes and deletes after ten, and nothing else goes. */
  lemma BranchSweep(stem: string, created: int, now: int)
    requires 0 <= FieldsOf(created).year <= 9999
    ensures var name, age := stem + "-" + FormatDirStamp(created), now - (created - created % 1000);
            Due(BRANCH_RULES, now, name) <==>
              (".prov-" <= name && age >= 1_200_000) || (!(".prov-" <= name) && ".deleting-" <= name && age >= 600_000)
  {
    hide FormatDirStamp, FieldsOf, RuleFor, Due;
    DueByAge(BRANCH_RULES, stem, created, now);
    BranchRuleOf(stem + "-" + FormatDirStamp(created));
  }

  lemma BranchRuleOf(name: string)
    ensures RuleFor(BRANCH_RULES, name)
            == if ".prov-" <= name then Some(Rule(".prov-", 1_200_000))
               else if ".deleting-" <= name then Some(Rule(".deleting-", 600_000)) else None
  {
    var more := BRANCH_RULES[1..];
    assert more == [Rule(".deleting-", DELETING_MAX_AGE_MS)] && more[1..] == [];
    assert RuleFor(more[1..], name) == None;
  }

  /** Beside the settings workspace builds go after twenty minutes and trash after thirty days. */
  lemma SettingsSweep(stem: string, created: int, now: int)
    requires 0 <= FieldsOf(created).year <= 9999
    ensures var name, age := stem + "-" + FormatDirStamp(created), now - (created - created % 1000);
            Due(SETTINGS_RULES, now, name) <==>
              || (".prov-settings-" <= name && age >= 1_200_000)
              || (!(".prov-settings-" <= name) && ".trash-settings-" <= name && age >= 2_592_000_000)
  {
    hide FormatDirStamp, FieldsOf, RuleFor, Due;
    DueByAge(SETTINGS_RULES, stem, created, now);
    SettingsRuleOf(stem + "-" + FormatDirStamp(created));
  }

  lemma SettingsRuleOf(name: string)
    ensures RuleFor(SETTINGS_RULES, name)
            == if ".prov-settings-" <= name then Some(Rule(".prov-settings-", 1_200_000))
               else if ".trash-settings-" <= name then Some(Rule(".trash-settings-", 2_592_000_000)) else None
  {
    var more := SETTINGS_RULES[1..];
    assert more == [Rule(".trash-settings-", SETTINGS_TRASH_MAX_AGE_MS)] && more[1..] == [];
    assert RuleFor(more[1..], name) == None;
  }

  /** What a sweep did with one listed name. */
  predicate ReportOf(action: LeftoverAction, name: string, stuck: set<string>) {
    if name in stuck then action == FailedToRemove(name) else action == Removed(name)
  }

  /** The places in a listing of the reports, in order: each of a due name, told as what became of it. */
  ghost predicate AreReports(places: seq<nat>, actions: seq<LeftoverAction>, rules: seq<Rule>, now: int, stuck: set<string>,
                             listing: seq<string>)
  {
    && |places| == |actions|
    && (forall k :: 0 <= k < |places| ==> places[k] < |listing| && Due(rules, now, listing[places[k]])
                                          && ReportOf(actions[k], listing[places[k]], stuck))
    && (forall j, k :: 0 <= j < k < |places| ==> places[j] < places[k])
    && (forall i :: 0 <= i < |listing| && Due(rules, now, listing[i]) ==> i in places)
  }

  /** A sweep reports each due name it listed, once, in listing order: as removed, or as failed where its removal fails. */
  lemma {:induction false} SweepReports(rules: seq<Rule>, now: int, stuck: set<string>, listing: seq<string>) returns (places: seq<nat>)
    ensures AreReports(places, ActionsOf(rules, now, stuck, listing), rules, now, stuck, listing)
  {
    hide Due;
    if listing == [] {
      places := [];
    } else {
      var n := |listing| - 1;
      var before := SweepReports(rules, now, stuck, listing[..n]);
      places := before + if Due(rules, now, listing[n]) then [n] else [];
      forall i | 0 <= i < |listing| && Due(rules, now, listing[i]) ensures i in places {
        if i < n {
          assert listing[..n][i] == listing[i] && i in before;
        }
      }
    }
  }
}
