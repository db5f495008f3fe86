/**
 security_patch.txt: sections of settings, parsed into levels and looked up per caller, refine the
 documented layering; and what a configured value means for the attestation.
 */
module PatchLevels {
  import opened Common
  import opened Text
  import CertificateHack

  datatype CustomPatchLevel = CustomPatchLevel(system: Option<Utf16>, vendor: Option<Utf16>, boot: Option<Utf16>,
                                               all: Option<Utf16>)

  datatype Component = System | Vendor | Boot

  function Name(c: Component): Utf16 {
    match c
    case System => Ascii("system")
    case Vendor => Ascii("vendor")
    case Boot => Ascii("boot")
  }

  function OrElse<T>(a: Option<T>, b: Option<T>): Option<T> {
    if a.Some? then a else b
  }

  // ---- the documented meaning of a file ----

  /** The characters of a package name in a header. */
  predicate InName(c: CodeUnit) {
    || 0x30 <= c <= 0x39 || 0x41 <= c <= 0x5a || 0x61 <= c <= 0x7a || c == 0x5f || c == 0x2e || c == DASH
  }

  /** Nothing but name characters between the first and the last. */
  predicate NameInside(line: Utf16) {
    forall i :: 0 < i < |line| - 1 ==> InName(line[i])
  }

  /** The package of a header line; the pattern's end also matches before a final next-line character. */
  function HeaderName(trimmed: Utf16): Option<Utf16> {
    var n := |trimmed|;
    var line := if n > 0 && trimmed[n - 1] == NEXT_LINE then trimmed[..n - 1] else trimmed;
    if |line| > 2 && line[0] == 0x5b && line[|line| - 1] == 0x5d && NameInside(line)
    then Some(line[1..|line| - 1])
    else None
  }

  /** A line that is neither blank nor a comment. */
  predicate HasContent(line: Utf16) {
    Trim(line) != [] && Trim(line)[0] != HASH
  }

  function Header(line: Utf16): Option<Utf16> {
    if HasContent(line) then HeaderName(Trim(line)) else None
  }

  predicate IsSetting(line: Utf16) {
    HasContent(line) && Header(line).None?
  }

  /** The package of the last header, or the global section's empty name. */
  function Governing(lines: seq<Utf16>): Utf16 {
    if lines == [] then []
    else if Header(lines[|lines| - 1]).Some? then Header(lines[|lines| - 1]).value
    else Governing(lines[..|lines| - 1])
  }

  /** The settings of a section, wherever its header stands and however often. */
  function Section(lines: seq<Utf16>, name: Utf16): seq<Utf16> {
    if lines == [] then []
    else
      var front, last := lines[..|lines| - 1], lines[|lines| - 1];
      Section(front, name) + if IsSetting(last) && Governing(front) == name then [Trim(last)] else []
  }

  /** The key and value of a setting with an equals sign after its start. */
  function Setting(line: Utf16): Option<(Utf16, Utf16)> {
    var i := IndexOf(line, EQUALS);
    if i.Some? && i.value > 0 then Some((Lower(Trim(line[..i.value])), Trim(line[i.value + 1..]))) else None
  }

  /** The last value given to a key. */
  function LastValue(settings: seq<Utf16>, key: Utf16): Option<Utf16> {
    if settings == [] then None
    else
      var last := Setting(settings[|settings| - 1]);
      if last.Some? && last.value.0 == key then Some(last.value.1) else LastValue(settings[..|settings| - 1], key)
  }

  /** A section that is one bare date or keyword. */
  predicate IsLoneValue(settings: seq<Utf16>) {
    |settings| == 1 && EQUALS !in settings[0]
  }

  /** What a section says of a component: its last line, else the section's last `all` or lone value. */
  function Documented(settings: seq<Utf16>, c: Component): Option<Utf16> {
    if IsLoneValue(settings) then Some(settings[0])
    else OrElse(LastValue(settings, Name(c)), LastValue(settings, Ascii("all")))
  }

  /** A package's section, and the global one for what it does not set. */
  function Layered(lines: seq<Utf16>, package: Utf16, c: Component): Option<Utf16> {
    OrElse(Documented(Section(lines, package), c), Documented(Section(lines, []), c))
  }

  // ---- parse, then look up ----

  function ContextOf(settings: seq<Utf16>): Option<CustomPatchLevel> {
    if settings == [] then None
    else if IsLoneValue(settings) then Some(CustomPatchLevel(None, None, None, Some(settings[0])))
    else
      var all := LastValue(settings, Ascii("all"));
      Some(CustomPatchLevel(OrElse(LastValue(settings, Name(System)), all), OrElse(LastValue(settings, Name(Vendor)), all),
                            OrElse(LastValue(settings, Name(Boot)), all), all))
  }

  /** The parsed file. */
  datatype Levels = Levels(globalLevel: Option<CustomPatchLevel>, packageLevels: map<Utf16, CustomPatchLevel>)

  function LevelOf(level: CustomPatchLevel, c: Component): Option<Utf16> {
    match c
    case System => OrElse(level.system, level.all)
    case Vendor => OrElse(level.vendor, level.all)
    case Boot => OrElse(level.boot, level.all)
  }

  /** packagePatchLevelForUid: the first of the uid's packages with a level of its own. */
  function PackageLevel(levels: Levels, packages: seq<Utf16>): Option<CustomPatchLevel> {
    if packages == [] then None
    else OrElse(Lookup(levels.packageLevels, packages[0]), PackageLevel(levels, packages[1..]))
  }

  /** The configured value of a component for a caller's packages. */
  function ValueOf(levels: Levels, packages: seq<Utf16>, c: Component): Option<Utf16> {
    var package := PackageLevel(levels, packages);
    OrElse(if package.Some? then LevelOf(package.value, c) else None,
           if levels.globalLevel.Some? then LevelOf(levels.globalLevel.value, c) else None)
  }

  /** What updatePatchLevel leaves of a file. */
  ghost predicate ParsedFrom(levels: Levels, lines: seq<Utf16>) {
    && levels.globalLevel == ContextOf(Section(lines, []))
    && (forall p :: p in levels.packageLevels <==> p != [] && Section(lines, p) != [])
    && (forall p :: p in levels.packageLevels ==> ContextOf(Section(lines, p)) == Some(levels.packageLevels[p]))
  }

  lemma ContextIsDocumented(settings: seq<Utf16>, c: Component)
    ensures (if ContextOf(settings).Some? then LevelOf(ContextOf(settings).value, c) else None) == Documented(settings, c)
  {
  }

  /** The packages of a caller that have settings: the first of them decides. */
  function FirstConfigured(lines: seq<Utf16>, packages: seq<Utf16>): Option<Utf16> {
    if packages == [] then None
    else if packages[0] != [] && Section(lines, packages[0]) != [] then Some(packages[0])
    else FirstConfigured(lines, packages[1..])
  }

  /** What the documentation makes of a file for a caller: its first configured package's settings over the global ones. */
  function DocumentedFor(lines: seq<Utf16>, packages: seq<Utf16>, c: Component): Option<Utf16> {
    match FirstConfigured(lines, packages)
    case None => Documented(Section(lines, []), c)
    case Some(package) => Layered(lines, package, c)
  }

  /** For every file, caller and component: parsing and looking up is the documented layering. */
  lemma {:induction false} LayeringIsDocumented(levels: Levels, lines: seq<Utf16>, packages: seq<Utf16>, c: Component)
    requires ParsedFrom(levels, lines)
    ensures ValueOf(levels, packages, c) == DocumentedFor(lines, packages, c)
  {
    ContextIsDocumented(Section(lines, []), c);
    if packages != [] {
      if packages[0] != [] && Section(lines, packages[0]) != [] {
        ContextIsDocumented(Section(lines, packages[0]), c);
      } else {
        LayeringIsDocumented(levels, lines, packages[1..], c);
      }
    }
  }

  /** For a caller with one package, it is that package's settings over the global ones. */
  lemma SinglePackage(levels: Levels, lines: seq<Utf16>, package: Utf16, c: Component)
    requires ParsedFrom(levels, lines) && package != []
    ensures ValueOf(levels, [package], c) == Layered(lines, package, c)
  {
    LayeringIsDocumented(levels, lines, [package], c);
    assert [package][1..] == [];
    if Section(lines, package) == [] { assert FirstConfigured(lines, [package]) == None; }
  }

  // ---- the parser ----

  class PatchLevelConfig {
    var globalPatchLevel: Option<CustomPatchLevel>
    var packagePatchLevels: map<Utf16, CustomPatchLevel>

    constructor ()
      ensures Value() == Levels(None, map[])
    {
      globalPatchLevel, packagePatchLevels := None, map[];
    }

    function Value(): Levels
      reads this
    {
      Levels(globalPatchLevel, packagePatchLevels)
    }

    /** parsePatchContext: later lines of a key replace earlier ones. */
    static method ParsePatchContext(lines: seq<Utf16>) returns (level: Option<CustomPatchLevel>)
      ensures level == ContextOf(lines)
    {
      if |lines| == 0 { return None; }
      if |lines| == 1 && EQUALS !in lines[0] {
        return Some(CustomPatchLevel(None, None, None, Some(lines[0])));
      }
      var values: map<Utf16, Utf16> := map[];
      for i := 0 to |lines|
        invariant forall key :: Lookup(values, key) == LastValue(lines[..i], key)
      {
        assert lines[..i + 1][..i] == lines[..i];
        var idx := IndexOf(lines[i], EQUALS);
        if idx.Some? && idx.value > 0 {
          values := values[Lower(Trim(lines[i][..idx.value])) := Trim(lines[i][idx.value + 1..])];
        }
      }
      assert lines[..|lines|] == lines;
      var all := Lookup(values, Ascii("all"));
      return Some(CustomPatchLevel(OrElse(Lookup(values, Name(System)), all), OrElse(Lookup(values, Name(Vendor)), all),
                                   OrElse(Lookup(values, Name(Boot)), all), all));
    }

    /** The first loop of updatePatchLevel: settings by section. */
    static method Contexts(lines: seq<Utf16>) returns (contexts: map<Utf16, seq<Utf16>>)
      ensures forall p :: p in contexts <==> Section(lines, p) != []
      ensures forall p :: p in contexts ==> contexts[p] == Section(lines, p)
    {
      contexts := map[];
      var current: Utf16 := [];
      for i := 0 to |lines|
        invariant current == Governing(lines[..i])
        invariant forall p :: p in contexts <==> Section(lines[..i], p) != []
        invariant forall p :: p in contexts ==> contexts[p] == Section(lines[..i], p)
      {
        assert lines[..i + 1][..i] == lines[..i];
        var trimmed := Trim(lines[i]);
        if trimmed == [] || trimmed[0] == HASH { continue; }
        var header := HeaderName(trimmed);
        if header.Some? {
          current := header.value;
        } else {
          contexts := contexts[current := (if current in contexts then contexts[current] else []) + [trimmed]];
        }
      }
      assert lines[..|lines|] == lines;
    }

    /** updatePatchLevel; a missing file clears the configuration. */
    method UpdatePatchLevel(file: Option<seq<Utf16>>)
      modifies this
      ensures file.None? ==> Value() == Levels(None, map[])
      ensures file.Some? ==> ParsedFrom(Value(), file.value)
    {
      if file.None? {
        globalPatchLevel, packagePatchLevels := None, map[];
        return;
      }
      var contexts := Contexts(file.value);
      var parsed: map<Utf16, CustomPatchLevel> := map[];
      var todo := contexts.Keys;
      while todo != {}
        invariant todo <= contexts.Keys && parsed.Keys == contexts.Keys - todo
        invariant forall p :: p in parsed ==> ContextOf(contexts[p]) == Some(parsed[p])
        decreases |todo|
      {
        var ctx :| ctx in todo;
        var level := ParsePatchContext(contexts[ctx]);
        if level.Some? { parsed := parsed[ctx := level.value]; }
        todo := todo - {ctx};
      }
      globalPatchLevel := Lookup(parsed, []);
      packagePatchLevels := map p | p in parsed && p != [] :: parsed[p];
    }
  }

  // ---- what a value means ----

  datatype Today = Today(year: nat, month: nat, day: nat)

  /** The system's own patch level, in both forms. */
  datatype Prop = Prop(short: Int32, long: Int32)

  /** resolveDateValue: the placeholders of today's date. */
  function ResolveDate(value: Utf16, today: Today): Utf16 {
    var year := Replace(value, Ascii("YYYY"), Pad(today.year, 4));
    var month := Replace(year, Ascii("MM"), Pad(today.month, 2));
    Replace(month, Ascii("DD"), Pad(today.day, 2))
  }

  /** parsePatchLevelValue. */
  function ParseLevel(value: Utf16, isLong: bool): Option<nat> {
    ParseNormalized(Without(value, DASH), isLong)
  }

  function ParseNormalized(normalized: Utf16, isLong: bool): Option<nat> {
    if |normalized| == 8 then
      var year :- ParseInt(normalized[..4]);
      var month :- ParseInt(normalized[4..6]);
      var day :- ParseInt(normalized[6..8]);
      Some(if isLong then year * 10000 + month * 100 + day else year * 100 + month)
    else if |normalized| == 6 then
      var year :- ParseInt(normalized[..4]);
      var month :- ParseInt(normalized[4..6]);
      Some(if isLong then year * 10000 + month * 100 else year * 100 + month)
    else None
  }

  lemma ShortNumber(s: Utf16)
    requires |s| <= 4 && ParseInt(s).Some?
    ensures ParseInt(s).value < 10000 && (|s| == 2 ==> ParseInt(s).value < 100)
  {
    DecimalBelow(if |s| > 1 && s[0] == PLUS then s[1..] else s);
    assert Power10(1) == 10 && Power10(2) == 100 && Power10(3) == 1000 && Power10(4) == 10 * Power10(3);
  }

  lemma LevelFits(value: Utf16, isLong: bool)
    ensures ParseLevel(value, isLong).Some? ==> ParseLevel(value, isLong).value < 100_000_000
  {
    var normalized := Without(value, DASH);
    if ParseLevel(value, isLong).Some? {
      ShortNumber(normalized[..4]);
      ShortNumber(normalized[4..6]);
      if |normalized| == 8 { ShortNumber(normalized[6..8]); }
    }
  }

  /** getCustomPatchLevel: nothing keeps the device's own value, DO_NOT_REPORT omits the tag. */
  function OverrideFor(value: Option<Utf16>, isLong: bool, prop: Prop, today: Today): Option<Int32> {
    if value.None? || EqualsIgnoreCase(value.value, Ascii("prop")) then Some(if isLong then prop.long else prop.short)
    else if EqualsIgnoreCase(value.value, Ascii("no")) then Some(CertificateHack.DO_NOT_REPORT)
    else if EqualsIgnoreCase(value.value, Ascii("device_default")) then None
    else
      LevelFits(ResolveDate(value.value, today), isLong);
      ParseLevel(ResolveDate(value.value, today), isLong)
  }

  /** A date is valid in both forms or in neither, and the short form is the long one divided by 100. */
  lemma ShortIsLongOver100(value: Utf16)
    ensures ParseLevel(value, true).Some? <==> ParseLevel(value, false).Some?
    ensures ParseLevel(value, true).Some? ==> ParseLevel(value, false).value == ParseLevel(value, true).value / 100
  {
    var normalized := Without(value, DASH);
    if ParseLevel(value, true).Some? && |normalized| == 8 { ShortNumber(normalized[6..8]); }
  }

  /** The tag is omitted exactly for `no`, and the device's value kept exactly for `device_default` or no valid date. */
  lemma OverrideMeansExactly(value: Option<Utf16>, isLong: bool, prop: Prop, today: Today)
    requires prop.short >= 0 && prop.long >= 0
    ensures OverrideFor(value, isLong, prop, today) == Some(CertificateHack.DO_NOT_REPORT)
            <==> value.Some? && EqualsIgnoreCase(value.value, Ascii("no"))
    ensures OverrideFor(value, isLong, prop, today) == None
            <==> value.Some? && !EqualsIgnoreCase(value.value, Ascii("prop")) && !EqualsIgnoreCase(value.value, Ascii("no"))
                 && (EqualsIgnoreCase(value.value, Ascii("device_default"))
                     || ParseLevel(ResolveDate(value.value, today), isLong).None?)
  {
    if value.Some? && EqualsIgnoreCase(value.value, Ascii("no")) {
      assert |value.value| == 2 && |Ascii("prop")| == 4;
    }
  }

  // ---- date templates ----

  ghost predicate IsDate(t: Today) {
    t.year < 10000 && t.month < 100 && t.day < 100
  }

  lemma {:induction false} DigitsHaveNoDash(s: Utf16)
    requires AllDigits(s)
    ensures Without(s, DASH) == s
  {
    if s != [] {
      assert s[0] in s && forall c :: c in s[1..] ==> c in s;
      DigitsHaveNoDash(s[1..]);
    }
  }

  lemma {:induction false} WithoutTogether(front: Utf16, rest: Utf16, c: CodeUnit)
    ensures Without(front + rest, c) == Without(front, c) + Without(rest, c)
  {
    if front == [] {
      assert front + rest == rest;
    } else {
      assert (front + rest)[1..] == front[1..] + rest;
      WithoutTogether(front[1..], rest, c);
      Associative(if front[0] == c then [] else [front[0]], Without(front[1..], c), Without(rest, c));
    }
  }

  /** A date written with dashes. */
  function Dashed(year: Utf16, month: Utf16, day: Utf16): Utf16 {
    year + ([DASH] + (month + ([DASH] + day)))
  }

  lemma LeadingGoes(c: CodeUnit, rest: Utf16)
    ensures Without([c] + rest, c) == Without(rest, c)
  {
    assert ([c] + rest)[1..] == rest;
  }

  lemma DashGoes(front: Utf16, rest: Utf16)
    requires AllDigits(front)
    ensures Without(front + ([DASH] + rest), DASH) == front + Without(rest, DASH)
  {
    WithoutTogether(front, [DASH] + rest, DASH);
    DigitsHaveNoDash(front);
    LeadingGoes(DASH, rest);
  }

  lemma DashesGo(year: Utf16, month: Utf16, day: Utf16)
    requires AllDigits(year) && AllDigits(month) && AllDigits(day)
    ensures Without(Dashed(year, month, day), DASH) == year + (month + day)
  {
    DashGoes(year, month + ([DASH] + day));
    DashGoes(month, day);
    DigitsHaveNoDash(day);
  }

  lemma ThreeParts(s: Utf16, year: nat, month: nat, day: nat)
    requires |s| == 8
    requires ParseInt(s[..4]) == Some(year) && ParseInt(s[4..6]) == Some(month) && ParseInt(s[6..8]) == Some(day)
    ensures ParseNormalized(s, true) == Some(year * 10000 + month * 100 + day)
  {
  }

  lemma EightDigits(year: Utf16, month: Utf16, day: Utf16, y: nat, m: nat, d: nat)
    requires |year| == 4 && |month| == |day| == 2
    requires ParseInt(year) == Some(y) && ParseInt(month) == Some(m) && ParseInt(day) == Some(d)
    ensures ParseNormalized(year + (month + day), true) == Some(y * 10000 + m * 100 + d)
  {
    var s := year + (month + day);
    assert s[..4] == year && s[4..6] == month && s[6..8] == day;
    ThreeParts(s, y, m, d);
  }

  lemma PlainDigits(s: Utf16)
    requires s != [] && AllDigits(s)
    ensures ParseInt(s) == Some(Decimal(s))
  {
    assert s[0] in s;
  }

  /** No character of the text begins a placeholder with this letter. */
  ghost predicate Free(s: Utf16, letter: CodeUnit) {
    forall c :: c in s ==> Fold(c) != Fold(letter)
  }

  lemma FreeIsCopied(s: Utf16, pattern: Utf16, replacement: Utf16)
    requires pattern != [] && Free(s, pattern[0])
    ensures Replace(s, pattern, replacement) == s
  {
    ReplaceSkips(s, [], pattern, replacement);
    assert s + [] == s;
  }

  lemma PlaceholderIsReplaced(front: Utf16, pattern: Utf16, rest: Utf16, replacement: Utf16)
    requires pattern != [] && Free(front, pattern[0]) && Free(rest, pattern[0])
    ensures Replace(front + (pattern + rest), pattern, replacement) == front + (replacement + rest)
  {
    ReplaceSkips(front, pattern + rest, pattern, replacement);
    ReplaceMatch(rest, pattern, replacement);
    FreeIsCopied(rest, pattern, replacement);
  }

  lemma FreeTogether(a: Utf16, b: Utf16, letter: CodeUnit)
    requires Free(a, letter) && Free(b, letter)
    ensures Free(a + b, letter)
  {
  }

  /** The placeholder of the year, of the month, and none of the day, in a dashed date. */
  lemma YearIsReplaced(yyyy: Utf16, month: Utf16, day: Utf16, y: Utf16)
    requires yyyy != [] && Free(month, yyyy[0]) && Free(day, yyyy[0]) && Free([DASH], yyyy[0])
    ensures Replace(Dashed(yyyy, month, day), yyyy, y) == Dashed(y, month, day)
  {
    var rest := [DASH] + (month + ([DASH] + day));
    FreeTogether([DASH], day, yyyy[0]);
    FreeTogether(month, [DASH] + day, yyyy[0]);
    FreeTogether([DASH], month + ([DASH] + day), yyyy[0]);
    ReplaceMatch(rest, yyyy, y);
    FreeIsCopied(rest, yyyy, y);
  }

  lemma MonthIsReplaced(year: Utf16, mm: Utf16, day: Utf16, m: Utf16)
    requires mm != [] && Free(year, mm[0]) && Free(day, mm[0]) && Free([DASH], mm[0])
    ensures Replace(Dashed(year, mm, day), mm, m) == Dashed(year, m, day)
  {
    var rest := [DASH] + day;
    FreeTogether([DASH], day, mm[0]);
    FreeTogether(year, [DASH], mm[0]);
    PlaceholderIsReplaced(year + [DASH], mm, rest, m);
    Associative(year, [DASH], mm + rest);
    Associative(year, [DASH], m + rest);
  }

  lemma NoDayToReplace(year: Utf16, month: Utf16, day: Utf16, dd: Utf16, d: Utf16)
    requires dd != [] && Free(year, dd[0]) && Free(month, dd[0]) && Free(day, dd[0]) && Free([DASH], dd[0])
    ensures Replace(Dashed(year, month, day), dd, d) == Dashed(year, month, day)
  {
    FreeTogether([DASH], day, dd[0]);
    FreeTogether(month, [DASH] + day, dd[0]);
    FreeTogether([DASH], month + ([DASH] + day), dd[0]);
    FreeTogether(year, [DASH] + (month + ([DASH] + day)), dd[0]);
    FreeIsCopied(Dashed(year, month, day), dd, d);
  }

  lemma DigitsAreFree(s: Utf16)
    requires AllDigits(s)
    ensures Free(s, Ascii("YYYY")[0]) && Free(s, Ascii("MM")[0]) && Free(s, Ascii("DD")[0])
  {
  }

  lemma PlaceholdersAreFree()
    ensures Free(Ascii("MM"), Ascii("YYYY")[0])
    ensures Free([DASH], Ascii("YYYY")[0]) && Free([DASH], Ascii("MM")[0]) && Free([DASH], Ascii("DD")[0])
  {
  }

  lemma TemplateResolves(today: Today, day: Utf16)
    requires AllDigits(day)
    ensures ResolveDate(Dashed(Ascii("YYYY"), Ascii("MM"), day), today) == Dashed(Pad(today.year, 4), Pad(today.month, 2), day)
  {
    var y, m := Pad(today.year, 4), Pad(today.month, 2);
    DigitsAreFree(day);
    DigitsAreFree(y);
    DigitsAreFree(m);
    PlaceholdersAreFree();
    YearIsReplaced(Ascii("YYYY"), Ascii("MM"), day, y);
    MonthIsReplaced(y, Ascii("MM"), day, m);
    NoDayToReplace(y, m, day, Ascii("DD"), Pad(today.day, 2));
  }

  lemma PaddedIsParsed(n: nat, width: nat)
    requires width > 0 && n < Power10(width)
    ensures ParseInt(Pad(n, width)) == Some(n)
  {
    PlainDigits(Pad(n, width));
    PadRoundTrip(n, width);
  }

  lemma DashedDate(year: Utf16, month: Utf16, day: Utf16, y: nat, m: nat, d: nat)
    requires |year| == 4 && |month| == |day| == 2 && AllDigits(year) && AllDigits(month) && AllDigits(day)
    requires ParseInt(year) == Some(y) && ParseInt(month) == Some(m) && ParseInt(day) == Some(d)
    ensures ParseLevel(Dashed(year, month, day), true) == Some(y * 10000 + m * 100 + d)
  {
    DashesGo(year, month, day);
    EightDigits(year, month, day, y, m, d);
  }

  lemma PaddedDate(today: Today)
    requires IsDate(today)
    ensures ParseInt(Pad(today.year, 4)) == Some(today.year) && ParseInt(Pad(today.month, 2)) == Some(today.month)
  {
    assert Power10(2) == 100 && Power10(4) == 100 * Power10(2);
    PaddedIsParsed(today.year, 4);
    PaddedIsParsed(today.month, 2);
  }

  /** `YYYY-MM-dd` always lands on day dd of the current month, whatever the date. */
  lemma TemplateIsThisMonth(today: Today, day: Utf16, d: nat)
    requires IsDate(today) && |day| == 2 && AllDigits(day) && ParseInt(day) == Some(d)
    ensures ParseLevel(ResolveDate(Dashed(Ascii("YYYY"), Ascii("MM"), day), today), true)
         == Some(today.year * 10000 + today.month * 100 + d)
  {
    TemplateResolves(today, day);
    PaddedDate(today);
    DashedDate(Pad(today.year, 4), Pad(today.month, 2), day, today.year, today.month, d);
  }

  // ---- from the file to the attestation ----

  /** patchLevelOverride and its siblings: the system level is reported in its short form, the others in the long one. */
  function Overrides(levels: Levels, packages: seq<Utf16>, prop: Prop, today: Today): CertificateHack.Overrides {
    CertificateHack.Overrides(OverrideFor(ValueOf(levels, packages, System), false, prop, today),
                              OverrideFor(ValueOf(levels, packages, Vendor), true, prop, today),
                              OverrideFor(ValueOf(levels, packages, Boot), true, prop, today))
  }

  function TagOf(c: Component): nat {
    match c
    case System => CertificateHack.OS_PATCHLEVEL
    case Vendor => CertificateHack.VENDOR_PATCHLEVEL
    case Boot => CertificateHack.BOOT_PATCHLEVEL
  }

  /**
   What a caller's attestation reports under a patch tag, whatever packages it has, is what the
   documented layering of the file says: the device's own entries, none, or the one configured level.
   */
  lemma ReportedAsConfigured(levels: Levels, lines: seq<Utf16>, packages: seq<Utf16>, c: Component, prop: Prop, today: Today,
                             entries: seq<CertificateHack.Entry>, osVersion: Int32, root: CertificateHack.Asn1)
    requires ParsedFrom(levels, lines)
    ensures var rebuilt := CertificateHack.Rebuilt(entries, Overrides(levels, packages, prop, today), osVersion, root);
            CertificateHack.WithTag(rebuilt, TagOf(c))
            == match OverrideFor(DocumentedFor(lines, packages, c), !c.System?, prop, today)
               case None => CertificateHack.WithTag(entries, TagOf(c))
               case Some(v) =>
                 if v == CertificateHack.DO_NOT_REPORT then []
                 else [CertificateHack.Entry(TagOf(c), CertificateHack.Integer(v))]
  {
    LayeringIsDocumented(levels, lines, packages, c);
    CertificateHack.RebuiltTags(entries, Overrides(levels, packages, prop, today), osVersion, root, TagOf(c));
  }
}
