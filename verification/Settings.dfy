/** The company's settlement settings: one stored row at a time over the defaults. */
module Settings {
  import opened Pesangon
  import opened Text
  import opened Wrappers

  const KEY_UANG_PISAH_MONTHS := "uang_pisah.months"
  const KEY_WORK_DAYS_PER_WEEK := "daily_wage.work_days_per_week"
  const KEY_LEAVE_TYPE_CODES := "leave_payout.timeoff_type_codes"

  datatype Setting = Setting(key: string, value: string)

  // ---- Text --------------------------------------------------------------

  /** The pieces between separators; a text without one is its own single piece. */
  function Split(s: string, sep: char): (pieces: seq<string>)
    ensures |pieces| >= 1
  {
    if s == [] then [[]]
    else
      var rest := Split(s[1..], sep);
      if s[0] == sep then [[]] + rest
      else [[s[0]] + rest[0]] + rest[1..]
  }

  function Join(pieces: seq<string>, sep: char): string {
    if pieces == [] then []
    else if |pieces| == 1 then pieces[0]
    else pieces[0] + [sep] + Join(pieces[1..], sep)
  }

  function TrimmedNonEmpty(pieces: seq<string>): seq<string> {
    if pieces == [] then []
    else
      var head := Trim(pieces[0]);
      (if head == [] then [] else [head]) + TrimmedNonEmpty(pieces[1..])
  }

  /** The leave-type codes a value names. */
  function ParseCodes(v: string): seq<string> {
    TrimmedNonEmpty(Split(v, ','))
  }

  predicate IsDigit(c: char) {
    '0' <= c <= '9'
  }

  predicate AllDigits(s: string) {
    forall i :: 0 <= i < |s| ==> IsDigit(s[i])
  }

  function DigitsValue(s: string): nat
    requires AllDigits(s)
  {
    if s == [] then 0
    else
      assert IsDigit(s[|s| - 1]);
      DigitsValue(s[..|s| - 1]) * 10 + (s[|s| - 1] as int - '0' as int)
  }

  function Unsigned(v: string): string {
    if |v| > 1 && v[0] == '+' then v[1..] else v
  }

  /** An unsigned 8-bit count: digits, with an optional plus sign. */
  function ParseU8(v: string): Option<nat> {
    var digits := Unsigned(v);
    if digits != [] && AllDigits(digits) && DigitsValue(digits) <= 255 then Some(DigitsValue(digits)) else None
  }

  function WorkWeekFromDays(days: nat): Option<WorkWeek> {
    if days == 5 then Some(FiveDay) else if days == 6 then Some(SixDay) else None
  }

  function ParseWorkWeek(v: string): Option<WorkWeek> {
    match ParseU8(v)
    case None => None
    case Some(days) => WorkWeekFromDays(days)
  }

  // ---- One row -----------------------------------------------------------

  datatype Key = UangPisahMonths | WorkDaysPerWeek | LeaveTypeCodes | Unknown

  function KeyOf(key: string): Key {
    if key == KEY_UANG_PISAH_MONTHS then UangPisahMonths
    else if key == KEY_WORK_DAYS_PER_WEEK then WorkDaysPerWeek
    else if key == KEY_LEAVE_TYPE_CODES then LeaveTypeCodes
    else Unknown
  }

  /** The settings after one stored row, or the refusal of an unusable value; a key of no known
      setting changes nothing. `parse` reads a decimal number. */
  function Applied(settings: SeveranceSettings, row: Setting, parse: string -> Option<real>)
    : Result<SeveranceSettings, PesangonError>
  {
    var v := Trim(row.value);
    match KeyOf(row.key)
    case UangPisahMonths =>
      (match parse(v)
       case None => Failure(InvalidSetting)
       case Some(months) =>
         if months < 0.0 then Failure(InvalidSetting) else Success(settings.(uangPisahMonths := months)))
    case WorkDaysPerWeek =>
      var workWeek := ParseWorkWeek(v);
      if workWeek.None? then Failure(InvalidSetting) else Success(settings.(workWeek := workWeek.value))
    case LeaveTypeCodes =>
      var codes := ParseCodes(v);
      if codes == [] then Failure(InvalidSetting) else Success(settings.(leaveTypeCodes := codes))
    case Unknown => Success(settings)
  }

  /** All rows in order; the first unusable one refuses. */
  function AllApplied(settings: SeveranceSettings, rows: seq<Setting>, parse: string -> Option<real>)
    : Result<SeveranceSettings, PesangonError>
  {
    if rows == [] then Success(settings)
    else
      var s :- AllApplied(settings, rows[..|rows| - 1], parse);
      Applied(s, rows[|rows| - 1], parse)
  }

  /** The settings being read: rows update the fields in place. */
  class SettingsReader {
    var uangPisahMonths: real
    var workWeek: WorkWeek
    var leaveTypeCodes: seq<string>

    function Read(): SeveranceSettings
      reads this
    {
      SeveranceSettings(uangPisahMonths, workWeek, leaveTypeCodes)
    }

    constructor Default()
      ensures Read() == DEFAULT_SETTINGS
    {
      uangPisahMonths := 0.0;
      workWeek := FiveDay;
      leaveTypeCodes := ["ANNUAL"];
    }

    /** A refused row leaves the settings as they were. */
    method ApplySetting(row: Setting, parse: string -> Option<real>) returns (r: Result<(), PesangonError>)
      modifies this
      ensures r.Success? <==> Applied(old(Read()), row, parse).Success?
      ensures r.Success? ==> Read() == Applied(old(Read()), row, parse).value
      ensures r.Failure? ==> Read() == old(Read()) && r.error == InvalidSetting
    {
      var v := Trim(row.value);
      r := Success(());
      match KeyOf(row.key) {
        case UangPisahMonths =>
          var months := parse(v);
          if months.None? || months.value < 0.0 { return Failure(InvalidSetting); }
          uangPisahMonths := months.value;
        case WorkDaysPerWeek =>
          var parsed := ParseWorkWeek(v);
          if parsed.None? { return Failure(InvalidSetting); }
          workWeek := parsed.value;
        case LeaveTypeCodes =>
          var codes := ParseCodes(v);
          if codes == [] { return Failure(InvalidSetting); }
          leaveTypeCodes := codes;
        case Unknown =>
      }
    }
  }

  /** Read the stored rows over the defaults. */
  method ReadSettings(rows: seq<Setting>, parse: string -> Option<real>)
    returns (r: Result<SeveranceSettings, PesangonError>)
    ensures r == AllApplied(DEFAULT_SETTINGS, rows, parse)
  {
    var reader := new SettingsReader.Default();
    for i := 0 to |rows|
      invariant AllApplied(DEFAULT_SETTINGS, rows[..i], parse) == Success(reader.Read())
    {
      assert rows[..i + 1][..i] == rows[..i];
      var applied := reader.ApplySetting(rows[i], parse);
      if applied.Failure? {
        RefusalStays(DEFAULT_SETTINGS, rows, i + 1, parse);
        return Failure(InvalidSetting);
      }
    }
    assert rows[..|rows|] == rows;
    r := Success(reader.Read());
  }

  lemma {:induction false} RefusalStays(
      settings: SeveranceSettings, rows: seq<Setting>, n: nat, parse: string -> Option<real>)
    requires n <= |rows| && AllApplied(settings, rows[..n], parse).Failure?
    ensures AllApplied(settings, rows, parse) == Failure(InvalidSetting)
    decreases |rows| - n
  {
    OnlyInvalidSetting(settings, rows[..n], parse);
    if n == |rows| {
      assert rows[..n] == rows;
    } else {
      assert rows[..n + 1][..n] == rows[..n];
      RefusalStays(settings, rows, n + 1, parse);
    }
  }

  lemma {:induction false} OnlyInvalidSetting(
      settings: SeveranceSettings, rows: seq<Setting>, parse: string -> Option<real>)
    ensures AllApplied(settings, rows, parse).Failure? ==> AllApplied(settings, rows, parse).error == InvalidSetting
  {
    if rows != [] { OnlyInvalidSetting(settings, rows[..|rows| - 1], parse); }
  }

  // ---- Order independence ------------------------------------------------

  /** Whether a row is usable does not depend on the settings it meets. */
  predicate Usable(row: Setting, parse: string -> Option<real>) {
    Applied(DEFAULT_SETTINGS, row, parse).Success?
  }

  ghost predicate DistinctKeys(rows: seq<Setting>) {
    forall i, j :: 0 <= i < j < |rows| ==> rows[i].key != rows[j].key
  }

  /** What one row says about the settings. */
  ghost predicate RowSays(row: Setting, parse: string -> Option<real>, s: SeveranceSettings) {
    match KeyOf(row.key)
    case UangPisahMonths => parse(Trim(row.value)) == Some(s.uangPisahMonths)
    case WorkDaysPerWeek => ParseWorkWeek(Trim(row.value)) == Some(s.workWeek)
    case LeaveTypeCodes => ParseCodes(Trim(row.value)) == s.leaveTypeCodes
    case Unknown => true
  }

  /** What rows with distinct keys say, each setting on its own; a setting no row names keeps
      its default. */
  ghost predicate Says(rows: seq<Setting>, parse: string -> Option<real>, s: SeveranceSettings) {
    && (forall row :: row in rows ==> RowSays(row, parse, s))
    && (!Names(rows, UangPisahMonths) ==> s.uangPisahMonths == DEFAULT_SETTINGS.uangPisahMonths)
    && (!Names(rows, WorkDaysPerWeek) ==> s.workWeek == DEFAULT_SETTINGS.workWeek)
    && (!Names(rows, LeaveTypeCodes) ==> s.leaveTypeCodes == DEFAULT_SETTINGS.leaveTypeCodes)
  }

  ghost predicate Names(rows: seq<Setting>, key: Key) {
    exists row :: row in rows && KeyOf(row.key) == key
  }

  lemma KnownKeysAreDistinct(a: string, b: string)
    ensures KeyOf(a) == KeyOf(b) && KeyOf(a) != Unknown ==> a == b
  {
  }

  lemma LeaveKeyIsKnown()
    ensures KeyOf(KEY_LEAVE_TYPE_CODES) == LeaveTypeCodes
  {
  }

  /** A row sets what it says and leaves the other settings alone. */
  lemma AppliedSays(settings: SeveranceSettings, row: Setting, parse: string -> Option<real>)
    ensures Applied(settings, row, parse).Success? <==> Usable(row, parse)
    ensures Usable(row, parse) ==>
              var s := Applied(settings, row, parse).value;
              && RowSays(row, parse, s)
              && (KeyOf(row.key) != UangPisahMonths ==> s.uangPisahMonths == settings.uangPisahMonths)
              && (KeyOf(row.key) != WorkDaysPerWeek ==> s.workWeek == settings.workWeek)
              && (KeyOf(row.key) != LeaveTypeCodes ==> s.leaveTypeCodes == settings.leaveTypeCodes)
  {
  }

  /** One more row, of a key not named before, adds what it says. */
  lemma SaysMore(init: seq<Setting>, last: Setting, parse: string -> Option<real>, before: SeveranceSettings)
    requires Says(init, parse, before) && Usable(last, parse)
    requires forall row :: row in init && KeyOf(row.key) == KeyOf(last.key) ==> KeyOf(row.key) == Unknown
    ensures Says(init + [last], parse, Applied(before, last, parse).value)
  {
  }

  lemma {:induction false} FoldSays(rows: seq<Setting>, parse: string -> Option<real>)
    requires DistinctKeys(rows)
    ensures AllApplied(DEFAULT_SETTINGS, rows, parse).Success? <==> forall row :: row in rows ==> Usable(row, parse)
    ensures AllApplied(DEFAULT_SETTINGS, rows, parse).Success? ==>
              Says(rows, parse, AllApplied(DEFAULT_SETTINGS, rows, parse).value)
  {
    hide KeyOf, Applied, Usable, Says;
    if rows != [] {
      var init, last := rows[..|rows| - 1], rows[|rows| - 1];
      FoldSays(init, parse);
      assert rows == init + [last];
      var before := AllApplied(DEFAULT_SETTINGS, init, parse);
      if before.Success? {
        AppliedSays(before.value, last, parse);
        forall row | row in init && KeyOf(row.key) == KeyOf(last.key) ensures KeyOf(row.key) == Unknown {
          if KeyOf(row.key) != Unknown { KnownKeysAreDistinct(row.key, last.key); }
        }
        if Usable(last, parse) {
          SaysMore(init, last, parse, before.value);
        }
      }
    } else {
      DefaultsSayNothing(parse);
    }
  }

  lemma DefaultsSayNothing(parse: string -> Option<real>)
    ensures Says([], parse, DEFAULT_SETTINGS)
  {
  }

  /** Over rows with distinct keys the order they are read in is irrelevant: the same settings
      come out, or every order refuses. */
  lemma SettingsIgnoreOrder(rows: seq<Setting>, rows': seq<Setting>, parse: string -> Option<real>)
    requires multiset(rows) == multiset(rows') && DistinctKeys(rows) && DistinctKeys(rows')
    ensures AllApplied(DEFAULT_SETTINGS, rows, parse) == AllApplied(DEFAULT_SETTINGS, rows', parse)
  {
    hide AllApplied, Usable, Says, DistinctKeys;
    forall row ensures row in rows <==> row in rows' {
      assert row in rows <==> row in multiset(rows);
      assert row in rows' <==> row in multiset(rows');
    }
    FoldSays(rows, parse);
    FoldSays(rows', parse);
    OnlyInvalidSetting(DEFAULT_SETTINGS, rows, parse);
    OnlyInvalidSetting(DEFAULT_SETTINGS, rows', parse);
    if AllApplied(DEFAULT_SETTINGS, rows, parse).Success? {
      SaysOneThing(rows, rows', parse,
        AllApplied(DEFAULT_SETTINGS, rows, parse).value, AllApplied(DEFAULT_SETTINGS, rows', parse).value);
    }
  }

  lemma SaysOneThing(
      rows: seq<Setting>, rows': seq<Setting>, parse: string -> Option<real>, s: SeveranceSettings,
      s': SeveranceSettings)
    requires forall row :: row in rows <==> row in rows'
    requires Says(rows, parse, s) && Says(rows', parse, s')
    ensures s == s'
  {
    hide ParseCodes, ParseWorkWeek, Trim, KeyOf;
    forall key ensures Names(rows, key) <==> Names(rows', key) {
    }
  }

  // ---- What the rows mean --------------------------------------------------

  /** A written count of one digit: zeros may lead it, and one plus sign before them. */
  predicate Writes(v: string, digit: char) {
    IsPadded(if |v| > 1 && v[0] == '+' then v[1..] else v, digit)
  }

  predicate IsPadded(s: string, digit: char) {
    s != [] && s[|s| - 1] == digit && forall i :: 0 <= i < |s| - 1 ==> s[i] == '0'
  }

  lemma {:induction false} ZeroIsZeros(s: string)
    requires AllDigits(s)
    ensures DigitsValue(s) == 0 <==> forall i :: 0 <= i < |s| ==> s[i] == '0'
  {
    if s != [] {
      assert IsDigit(s[|s| - 1]);
      ZeroIsZeros(s[..|s| - 1]);
    }
  }

  lemma DigitIsWritten(s: string, digit: char)
    requires '0' < digit <= '9'
    ensures IsPadded(s, digit) <==> s != [] && AllDigits(s) && DigitsValue(s) == digit as int - '0' as int
  {
    if s != [] {
      assert AllDigits(s) ==> IsDigit(s[|s| - 1]) && AllDigits(s[..|s| - 1]);
      if AllDigits(s) { ZeroIsZeros(s[..|s| - 1]); }
    }
  }

  /** The work week is five days for a written 5, six for a written 6, and refused for anything else. */
  lemma WorkWeekIsWritten(v: string)
    ensures ParseWorkWeek(v) == Some(FiveDay) <==> Writes(v, '5')
    ensures ParseWorkWeek(v) == Some(SixDay) <==> Writes(v, '6')
  {
    hide DigitsValue, AllDigits, IsPadded;
    DigitIsWritten(Unsigned(v), '5');
    DigitIsWritten(Unsigned(v), '6');
  }

  /** What one row means, by its key. */
  ghost predicate Means(row: Setting, parse: string -> Option<real>, s: SeveranceSettings) {
    && (row.key == "uang_pisah.months" ==>
          parse(Trim(row.value)) == Some(s.uangPisahMonths) && s.uangPisahMonths >= 0.0)
    && (row.key == "daily_wage.work_days_per_week" ==>
          Writes(Trim(row.value), if s.workWeek == FiveDay then '5' else '6'))
    && (row.key == "leave_payout.timeoff_type_codes" ==>
          s.leaveTypeCodes != [] && s.leaveTypeCodes == ParseCodes(Trim(row.value)))
  }

  predicate Keyed(rows: seq<Setting>, key: string) {
    exists i :: 0 <= i < |rows| && rows[i].key == key
  }

  /** Accepted rows of distinct keys mean what each key says, and what no row names stays at nothing paid
      for separation, a five-day week and annual leave. */
  lemma SettingsReadAs(rows: seq<Setting>, parse: string -> Option<real>)
    requires DistinctKeys(rows) && AllApplied(DEFAULT_SETTINGS, rows, parse).Success?
    ensures var s := AllApplied(DEFAULT_SETTINGS, rows, parse).value;
            && (forall row :: row in rows ==> Means(row, parse, s))
            && (!Keyed(rows, "uang_pisah.months") ==> s.uangPisahMonths == 0.0)
            && (!Keyed(rows, "daily_wage.work_days_per_week") ==> s.workWeek == FiveDay)
            && (!Keyed(rows, "leave_payout.timeoff_type_codes") ==> s.leaveTypeCodes == ["ANNUAL"])
  {
    FoldSays(rows, parse);
    var s := AllApplied(DEFAULT_SETTINGS, rows, parse).value;
    hide AllApplied, ParseWorkWeek, Trim, ParseCodes, Writes;
    forall row | row in rows ensures Means(row, parse, s) {
      WorkWeekIsWritten(Trim(row.value));
      assert Usable(row, parse) && RowSays(row, parse, s);
    }
  }

  // ---- The code list round trip ------------------------------------------

  /** A code as the settings screen should store it. */
  ghost predicate CleanCode(code: string) {
    && code != []
    && ',' !in code
    && !IsSpace(code[0]) && !IsSpace(code[|code| - 1])
  }

  lemma TrimKeepsClean(s: string)
    requires s != [] && !IsSpace(s[0]) && !IsSpace(s[|s| - 1])
    ensures Trim(s) == s
  {
  }

  lemma {:induction false} SplitOfPiece(piece: string, sep: char)
    requires sep !in piece
    ensures Split(piece, sep) == [piece]
  {
    if piece != [] {
      assert piece[0] in piece;
      SplitOfPiece(piece[1..], sep);
      assert piece == [piece[0]] + piece[1..];
    }
  }

  lemma {:induction false} SplitAtSeparator(piece: string, rest: string, sep: char)
    requires sep !in piece
    ensures Split(piece + [sep] + rest, sep) == [piece] + Split(rest, sep)
  {
    var s := piece + [sep] + rest;
    if piece == [] {
      assert s[1..] == rest;
    } else {
      assert piece[0] in piece;
      SplitAtSeparator(piece[1..], rest, sep);
      assert s[1..] == piece[1..] + [sep] + rest;
      assert piece == [piece[0]] + piece[1..];
    }
  }

  lemma {:induction false} SplitOfJoin(pieces: seq<string>, sep: char)
    requires pieces != [] && forall p :: p in pieces ==> sep !in p
    ensures Split(Join(pieces, sep), sep) == pieces
  {
    if |pieces| == 1 {
      SplitOfPiece(pieces[0], sep);
    } else {
      SplitOfJoin(pieces[1..], sep);
      SplitAtSeparator(pieces[0], Join(pieces[1..], sep), sep);
    }
  }

  lemma {:induction false} CleanPiecesStay(pieces: seq<string>)
    requires forall p :: p in pieces ==> CleanCode(p)
    ensures TrimmedNonEmpty(pieces) == pieces
  {
    if pieces != [] {
      assert CleanCode(pieces[0]);
      TrimKeepsClean(pieces[0]);
      CleanPiecesStay(pieces[1..]);
    }
  }

  lemma {:induction false} JoinOfClean(codes: seq<string>)
    requires codes != [] && forall c :: c in codes ==> CleanCode(c)
    ensures Join(codes, ',') != []
    ensures !IsSpace(Join(codes, ',')[0]) && !IsSpace(Join(codes, ',')[|Join(codes, ',')| - 1])
  {
    assert CleanCode(codes[0]);
    if |codes| > 1 { JoinOfClean(codes[1..]); }
  }

  /** A non-empty list of trimmed, non-empty, comma-free codes, stored comma-separated, is read
      back as itself. */
  lemma CodeListRoundTrip(settings: SeveranceSettings, codes: seq<string>, parse: string -> Option<real>)
    requires codes != [] && forall c :: c in codes ==> CleanCode(c)
    ensures Applied(settings, Setting(KEY_LEAVE_TYPE_CODES, Join(codes, ',')), parse)
         == Success(settings.(leaveTypeCodes := codes))
  {
    JoinOfClean(codes);
    TrimKeepsClean(Join(codes, ','));
    SplitOfJoin(codes, ',');
    CleanPiecesStay(codes);
    LeaveKeyIsKnown();
  }

  lemma {:induction false} SplitPiecesHaveNoSeparator(s: string, sep: char)
    ensures forall p :: p in Split(s, sep) ==> sep !in p
  {
    if s != [] { SplitPiecesHaveNoSeparator(s[1..], sep); }
  }

  lemma {:induction false} TrimStartIsClean(s: string)
    ensures TrimStart(s) != [] ==> !IsSpace(TrimStart(s)[0])
    ensures forall c :: c in TrimStart(s) ==> c in s
  {
    if s != [] && IsSpace(s[0]) { TrimStartIsClean(s[1..]); }
  }

  lemma {:induction false} TrimEndIsClean(s: string)
    ensures TrimEnd(s) != [] ==> !IsSpace(TrimEnd(s)[|TrimEnd(s)| - 1]) && TrimEnd(s)[0] == s[0]
    ensures forall c :: c in TrimEnd(s) ==> c in s
  {
    if s != [] && IsSpace(s[|s| - 1]) { TrimEndIsClean(s[..|s| - 1]); }
  }

  lemma {:induction false} TrimmedPiecesAreClean(pieces: seq<string>)
    requires forall p :: p in pieces ==> ',' !in p
    ensures forall c :: c in TrimmedNonEmpty(pieces) ==> CleanCode(c)
  {
    if pieces != [] {
      TrimmedPiecesAreClean(pieces[1..]);
      TrimStartIsClean(pieces[0]);
      TrimEndIsClean(TrimStart(pieces[0]));
    }
  }

  /** Every accepted value names clean codes only, so storing what was read reads the same again. */
  lemma AcceptedCodesAreClean(settings: SeveranceSettings, value: string, parse: string -> Option<real>)
    requires Applied(settings, Setting(KEY_LEAVE_TYPE_CODES, value), parse).Success?
    ensures var codes := Applied(settings, Setting(KEY_LEAVE_TYPE_CODES, value), parse).value.leaveTypeCodes;
            && codes != []
            && (forall c :: c in codes ==> CleanCode(c))
            && ParseCodes(Trim(Join(codes, ','))) == codes
  {
    LeaveKeyIsKnown();
    SplitPiecesHaveNoSeparator(Trim(value), ',');
    TrimmedPiecesAreClean(Split(Trim(value), ','));
    var codes := ParseCodes(Trim(value));
    CodeListRoundTrip(settings, codes, parse);
  }
}
