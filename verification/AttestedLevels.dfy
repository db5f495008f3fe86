/** What the values of security_patch.txt make an attestation report, keyword by keyword and date by date. */
module AttestedLevels {
  import opened Common
  import opened Text
  import opened PatchLevels
  import CertificateHack

  /** The tag of a component, and the two forms a date is reported in there. */
  function Tag(c: Component): nat {
    match c
    case System => 706
    case Vendor => 718
    case Boot => 719
  }

  function Form(c: Component, year: nat, month: nat, day: nat): nat {
    if c.System? then year * 100 + month else year * 10000 + month * 100 + day
  }

  /** The attestation of a caller: what is reported under the tag of a component. */
  function Reported(entries: seq<CertificateHack.Entry>, levels: Levels, packages: seq<Utf16>, prop: Prop, today: Today,
                    osVersion: Int32, root: CertificateHack.Asn1, c: Component): seq<CertificateHack.Entry> {
    CertificateHack.WithTag(CertificateHack.Rebuilt(entries, Overrides(levels, packages, prop, today), osVersion, root), Tag(c))
  }

  /** Unset or `prop`: the system's own patch level, month only for the system, in full for vendor and boot. */
  lemma PropIsMirrored(entries: seq<CertificateHack.Entry>, levels: Levels, lines: seq<Utf16>, packages: seq<Utf16>,
                       prop: Prop, today: Today, osVersion: Int32, root: CertificateHack.Asn1, c: Component)
    requires ParsedFrom(levels, lines) && prop.short >= 0 && prop.long >= 0
    requires var value := DocumentedFor(lines, packages, c); value.None? || EqualsIgnoreCase(value.value, Ascii("prop"))
    ensures Reported(entries, levels, packages, prop, today, osVersion, root, c)
         == [CertificateHack.Entry(Tag(c), CertificateHack.Integer(if c.System? then prop.short else prop.long))]
  {
    ReportedAsConfigured(levels, lines, packages, c, prop, today, entries, osVersion, root);
  }

  /** `no`: nothing. `device_default`: the device's own. */
  lemma KeywordsAreReported(entries: seq<CertificateHack.Entry>, levels: Levels, lines: seq<Utf16>, packages: seq<Utf16>,
                            prop: Prop, today: Today, osVersion: Int32, root: CertificateHack.Asn1, c: Component)
    requires ParsedFrom(levels, lines) && DocumentedFor(lines, packages, c).Some?
    ensures EqualsIgnoreCase(DocumentedFor(lines, packages, c).value, Ascii("no")) ==>
              Reported(entries, levels, packages, prop, today, osVersion, root, c) == []
    ensures EqualsIgnoreCase(DocumentedFor(lines, packages, c).value, Ascii("device_default")) ==>
              Reported(entries, levels, packages, prop, today, osVersion, root, c) == CertificateHack.WithTag(entries, Tag(c))
  {
    ReportedAsConfigured(levels, lines, packages, c, prop, today, entries, osVersion, root);
    assert |Ascii("no")| == 2 && |Ascii("prop")| == 4 && |Ascii("device_default")| == 14;
  }

  // ---- dates ----

  predicate Numeral(s: Utf16, width: nat, n: nat) {
    |s| == width && AllDigits(s) && ParseInt(s) == Some(n)
  }

  /** The documented ways to write a date: with dashes, without, without a day, and with placeholders. */
  datatype Date =
    | WithDashes(year: Utf16, month: Utf16, day: Utf16)
    | Plain(year: Utf16, month: Utf16, day: Utf16)
    | MonthOnly(year: Utf16, month: Utf16)
    | OfThisMonth(day: Utf16)
    | OfToday

  function Written(d: Date): Utf16 {
    match d
    case WithDashes(y, m, n) => Dashed(y, m, n)
    case Plain(y, m, n) => y + (m + n)
    case MonthOnly(y, m) => y + m
    case OfThisMonth(n) => Dashed(Ascii("YYYY"), Ascii("MM"), n)
    case OfToday => Dashed(Ascii("YYYY"), Ascii("MM"), Ascii("DD"))
  }

  predicate Means(d: Date, today: Today, year: nat, month: nat, day: nat) {
    match d
    case WithDashes(y, m, n) => Numeral(y, 4, year) && Numeral(m, 2, month) && Numeral(n, 2, day)
    case Plain(y, m, n) => Numeral(y, 4, year) && Numeral(m, 2, month) && Numeral(n, 2, day)
    case MonthOnly(y, m) => Numeral(y, 4, year) && Numeral(m, 2, month) && day == 0
    case OfThisMonth(n) => Numeral(n, 2, day) && year == today.year && month == today.month
    case OfToday => year == today.year && month == today.month && day == today.day
  }

  /** Whatever way it is written, a date is reported as its month for the system and in full for vendor and boot. */
  lemma DateIsReported(entries: seq<CertificateHack.Entry>, levels: Levels, lines: seq<Utf16>, packages: seq<Utf16>,
                       prop: Prop, today: Today, osVersion: Int32, root: CertificateHack.Asn1, c: Component,
                       d: Date, year: nat, month: nat, day: nat)
    requires ParsedFrom(levels, lines) && IsDate(today) && DocumentedFor(lines, packages, c) == Some(Written(d))
    requires Means(d, today, year, month, day)
    ensures Reported(entries, levels, packages, prop, today, osVersion, root, c)
         == [CertificateHack.Entry(Tag(c), CertificateHack.Integer(Form(c, year, month, day)))]
  {
    WrittenIsParsed(d, Written(d), today, year, month, day);
    LevelOfDate(Written(d), today, year, month, day, prop, !c.System?);
    OverrideIsReported(entries, levels, lines, packages, prop, today, osVersion, root, c, Form(c, year, month, day));
  }

  lemma OverrideIsReported(entries: seq<CertificateHack.Entry>, levels: Levels, lines: seq<Utf16>, packages: seq<Utf16>,
                           prop: Prop, today: Today, osVersion: Int32, root: CertificateHack.Asn1, c: Component, level: nat)
    requires ParsedFrom(levels, lines)
    requires OverrideFor(DocumentedFor(lines, packages, c), !c.System?, prop, today) == Some(level)
    ensures Reported(entries, levels, packages, prop, today, osVersion, root, c)
         == [CertificateHack.Entry(Tag(c), CertificateHack.Integer(level))]
  {
    ReportedAsConfigured(levels, lines, packages, c, prop, today, entries, osVersion, root);
  }

  lemma LevelOfDate(value: Utf16, today: Today, year: nat, month: nat, day: nat, prop: Prop, isLong: bool)
    requires day < 100 && ParsesAs(value, today, year * 10000 + month * 100 + day)
    ensures OverrideFor(Some(value), isLong, prop, today)
         == Some(if isLong then year * 10000 + month * 100 + day else year * 100 + month)
  {
    assert |Ascii("no")| == 2 && |Ascii("prop")| == 4 && |Ascii("device_default")| == 14;
    ShortIsLongOver100(ResolveDate(value, today));
    assert (year * 10000 + month * 100 + day) / 100 == year * 100 + month;
  }

  /** The text is as long as a date, and in full it is the number of that date. */
  predicate ParsesAs(value: Utf16, today: Today, level: nat) {
    |value| in {6, 8, 10} && ParseLevel(ResolveDate(value, today), true) == Some(level)
  }

  lemma WrittenIsParsed(d: Date, value: Utf16, today: Today, year: nat, month: nat, day: nat)
    requires Means(d, today, year, month, day) && IsDate(today) && value == Written(d)
    ensures day < 100 && ParsesAs(value, today, year * 10000 + month * 100 + day)
  {
    match d
    case WithDashes(y, m, n) => DashedIsParsed(y, m, n, value, today, year, month, day);
    case Plain(y, m, n) => PlainIsParsed(y, m, n, value, today, year, month, day);
    case MonthOnly(y, m) => MonthIsParsed(y, m, value, today, year, month);
    case OfThisMonth(n) => TemplateIsParsed(n, value, today, day);
    case OfToday => TodayIsParsed(value, today);
  }

  lemma TodayIsParsed(value: Utf16, today: Today)
    requires IsDate(today) && value == Dashed(Ascii("YYYY"), Ascii("MM"), Ascii("DD"))
    ensures ParsesAs(value, today, today.year * 10000 + today.month * 100 + today.day)
  {
    var y, m, d := Pad(today.year, 4), Pad(today.month, 2), Pad(today.day, 2);
    TodayResolves(y, m, d, today);
    PaddedDate(today);
    assert Power10(2) == 100;
    PaddedIsParsed(today.day, 2);
    DashedDate(y, m, d, today.year, today.month, today.day);
    assert |Ascii("YYYY")| == 4 && |Ascii("MM")| == |Ascii("DD")| == 2;
  }

  lemma TodayResolves(y: Utf16, m: Utf16, d: Utf16, today: Today)
    requires y == Pad(today.year, 4) && m == Pad(today.month, 2) && d == Pad(today.day, 2)
    ensures ResolveDate(Dashed(Ascii("YYYY"), Ascii("MM"), Ascii("DD")), today) == Dashed(y, m, d)
  {
    DigitsAreFree(y);
    DigitsAreFree(m);
    PlaceholdersAreFree();
    DayHoldsNoOther();
    YearIsReplaced(Ascii("YYYY"), Ascii("MM"), Ascii("DD"), y);
    MonthIsReplaced(y, Ascii("MM"), Ascii("DD"), m);
    DayIsReplaced(y, m, Ascii("DD"), d);
  }

  lemma DayHoldsNoOther()
    ensures Free(Ascii("DD"), Ascii("YYYY")[0]) && Free(Ascii("DD"), Ascii("MM")[0])
  {
  }

  lemma DayIsReplaced(year: Utf16, month: Utf16, dd: Utf16, d: Utf16)
    requires dd != [] && Free(year, dd[0]) && Free(month, dd[0]) && Free([DASH], dd[0])
    ensures Replace(Dashed(year, month, dd), dd, d) == Dashed(year, month, d)
  {
    var front := year + ([DASH] + (month + [DASH]));
    FreeTogether(month, [DASH], dd[0]);
    FreeTogether([DASH], month + [DASH], dd[0]);
    FreeTogether(year, [DASH] + (month + [DASH]), dd[0]);
    assert Dashed(year, month, dd) == front + (dd + []) && Dashed(year, month, d) == front + (d + []);
    PlaceholderIsReplaced(front, dd, [], d);
  }

  lemma TemplateIsParsed(n: Utf16, value: Utf16, today: Today, day: nat)
    requires Numeral(n, 2, day) && IsDate(today) && value == Dashed(Ascii("YYYY"), Ascii("MM"), n)
    ensures day < 100 && ParsesAs(value, today, today.year * 10000 + today.month * 100 + day)
  {
    ShortNumber(n);
    TemplateIsThisMonth(today, n, day);
    assert |Ascii("YYYY")| == 4 && |Ascii("MM")| == 2;
  }

  lemma DatesAreFree(value: Utf16)
    requires forall c :: c in value ==> IsDigit(c) || c == DASH
    ensures Free(value, Ascii("YYYY")[0]) && Free(value, Ascii("MM")[0]) && Free(value, Ascii("DD")[0])
  {
    PlaceholdersAreFree();
    assert Fold(DASH) == DASH && DASH in [DASH];
  }

  /** Digits, and digits with dashes, hold no placeholder. */
  lemma NothingToResolve(value: Utf16, today: Today)
    requires forall c :: c in value ==> IsDigit(c) || c == DASH
    ensures ResolveDate(value, today) == value
  {
    DatesAreFree(value);
    FreeIsCopied(value, Ascii("YYYY"), Pad(today.year, 4));
    FreeIsCopied(value, Ascii("MM"), Pad(today.month, 2));
    FreeIsCopied(value, Ascii("DD"), Pad(today.day, 2));
  }

  lemma DashedIsParsed(y: Utf16, m: Utf16, d: Utf16, value: Utf16, today: Today, year: nat, month: nat, day: nat)
    requires Numeral(y, 4, year) && Numeral(m, 2, month) && Numeral(d, 2, day) && value == Dashed(y, m, d)
    ensures day < 100 && ParsesAs(value, today, year * 10000 + month * 100 + day)
  {
    ShortNumber(d);
    NothingToResolve(value, today);
    DashedDate(y, m, d, year, month, day);
  }

  lemma PlainIsParsed(y: Utf16, m: Utf16, d: Utf16, value: Utf16, today: Today, year: nat, month: nat, day: nat)
    requires Numeral(y, 4, year) && Numeral(m, 2, month) && Numeral(d, 2, day) && value == y + (m + d)
    ensures day < 100 && ParsesAs(value, today, year * 10000 + month * 100 + day)
  {
    ShortNumber(d);
    NothingToResolve(value, today);
    DigitsHaveNoDash(value);
    EightDigits(y, m, d, year, month, day);
  }

  lemma MonthIsParsed(y: Utf16, m: Utf16, value: Utf16, today: Today, year: nat, month: nat)
    requires Numeral(y, 4, year) && Numeral(m, 2, month) && value == y + m
    ensures ParsesAs(value, today, year * 10000 + month * 100)
  {
    NothingToResolve(value, today);
    DigitsHaveNoDash(value);
    assert value[..4] == y && value[4..6] == m;
  }

  // ---- the lines of the file ----

  /** Letters, digits, underscore, dot and dash. */
  predicate NameCharacter(c: CodeUnit) {
    || 'A' as int <= c <= 'Z' as int || 'a' as int <= c <= 'z' as int || '0' as int <= c <= '9' as int
    || c == '_' as int || c == '.' as int || c == '-' as int
  }

  /** A bracketed name is a header exactly if it is not empty and made of name characters. */
  lemma HeaderExactly(name: Utf16)
    ensures HeaderName(['[' as int] + name + [']' as int])
         == if name != [] && forall c :: c in name ==> NameCharacter(c) then Some(name) else None
  {
    var line := ['[' as int] + name + [']' as int];
    assert line[1..|line| - 1] == name && line[0] == 0x5b && line[|line| - 1] == 0x5d && |line| == |name| + 2;
    NamesExactly(line, name);
  }

  lemma NamesExactly(line: Utf16, name: Utf16)
    requires |line| == |name| + 2 && line[1..|line| - 1] == name
    ensures NameInside(line) <==> forall c :: c in name ==> NameCharacter(c)
  {
    forall i | 0 < i < |line| - 1 ensures line[i] == name[i - 1] {}
    if forall c :: c in name ==> NameCharacter(c) {
      forall i | 0 < i < |line| - 1 ensures InName(line[i]) { assert name[i - 1] in name; }
    } else {
      var c :| c in name && !NameCharacter(c);
      var i :| 0 <= i < |name| && name[i] == c;
      assert !InName(line[i + 1]);
    }
  }

  /** A setting is the key before the first equals sign, trimmed and in lower case, and all after it, trimmed. */
  lemma SettingIsRead(key: Utf16, value: Utf16)
    requires key != [] && '=' as int !in key
    ensures Setting(key + ['=' as int] + value) == Some((Lower(Trim(key)), Trim(value)))
  {
    FirstEquals(key, value);
    var line := key + ['=' as int] + value;
    assert line[..|key|] == key && line[|key| + 1..] == value;
  }

  lemma {:induction false} FirstEquals(key: Utf16, value: Utf16)
    requires '=' as int !in key
    ensures IndexOf(key + ['=' as int] + value, EQUALS) == Some(|key|)
  {
    var line := key + ['=' as int] + value;
    if key != [] {
      assert line[1..] == key[1..] + ['=' as int] + value && line[0] == key[0];
      FirstEquals(key[1..], value);
    }
  }

  /** In a section, the last setting of a component's own key is what counts for it; a section of one bare value is for all. */
  lemma LastSettingWins(settings: seq<Utf16>, key: Utf16, value: Utf16, c: Component)
    requires key != [] && '=' as int !in key && Lower(Trim(key)) == Name(c)
    ensures Documented(settings + [key + ['=' as int] + value], c) == Some(Trim(value))
  {
    SettingIsRead(key, value);
    EndsWithSetting(settings, key + ['=' as int] + value);
  }

  /** The last setting of `all` counts for a component that has no setting of its own, and for no other. */
  lemma AllIsForTheRest(settings: seq<Utf16>, key: Utf16, value: Utf16, c: Component)
    requires key != [] && '=' as int !in key && Lower(Trim(key)) == Ascii("all")
    ensures Documented(settings + [key + ['=' as int] + value], c)
         == if LastValue(settings, Name(c)).Some? then LastValue(settings, Name(c)) else Some(Trim(value))
  {
    SettingIsRead(key, value);
    EndsWithSetting(settings, key + ['=' as int] + value);
    assert |Ascii("all")| == 3 && |Name(c)| in {4, 6};
  }

  lemma BareValueIsForAll(value: Utf16, c: Component)
    requires '=' as int !in value
    ensures Documented([value], c) == Some(value)
  {
  }

  lemma EndsWithSetting(settings: seq<Utf16>, line: Utf16)
    requires '=' as int in line
    ensures var all := settings + [line];
            !IsLoneValue(all) && all[|all| - 1] == line && all[..|all| - 1] == settings
  {
  }

  /** A bracketed header begins its section; blank lines and comments belong to none; any other line is a setting of the section it is in. */
  lemma LinesGoToTheirSection(lines: seq<Utf16>, line: Utf16, name: Utf16)
    ensures Governing([]) == [] && Section([], name) == []
    ensures var trimmed := Trim(line);
            var ignored := trimmed == [] || trimmed[0] == '#' as int;
            var header := if ignored then None else HeaderName(trimmed);
            && Governing(lines + [line]) == (if header.Some? then header.value else Governing(lines))
            && Section(lines + [line], name)
               == Section(lines, name) + if !ignored && header.None? && Governing(lines) == name then [trimmed] else []
  {
    var all := lines + [line];
    assert all[..|all| - 1] == lines && all[|all| - 1] == line;
  }

  /** Spaces and tabs around a line do not matter, nor does the case of a keyword. */
  lemma SpaceIsTrimmed(s: Utf16)
    requires s != [] && !IsWhitespace(s[0]) && !IsWhitespace(s[|s| - 1])
    ensures Trim([' ' as int] + s + [' ' as int]) == s && Trim(['\t' as int] + s + ['\t' as int]) == s
  {
    OneSpaceIsTrimmed(s, ' ' as int);
    OneSpaceIsTrimmed(s, '\t' as int);
  }

  lemma OneSpaceIsTrimmed(s: Utf16, space: CodeUnit)
    requires s != [] && !IsWhitespace(s[0]) && !IsWhitespace(s[|s| - 1]) && IsWhitespace(space)
    ensures Trim([space] + s + [space]) == s
  {
    var line := [space] + s + [space];
    assert line[1..] == s + [space] && TrimStart(line) == TrimStart(line[1..]) == s + [space];
    assert (s + [space])[..|s|] == s && TrimEnd(s + [space]) == TrimEnd(s) == s;
  }

  lemma CaseIsIgnored(s: Utf16)
    ensures EqualsIgnoreCase(s, Lower(s))
  {
  }
}
