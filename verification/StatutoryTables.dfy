/** Resolving the statutory severance set in force on a day from the effective-dated tables. */
module StatutoryTables {
  import opened Calendar
  import opened Pesangon
  import opened Wrappers

  /** A row of an effective-dated table. */
  datatype Row<T> = Row(country: string, effectiveFrom: NaiveDate, value: T)

  /** A stored band; the column holds a signed integer. */
  datatype BandRow = BandRow(minServiceYears: int, months: real)

  datatype CaseRow = CaseRow(code: CaseCode, params: ReasonParams)

  datatype StatutoryDb = StatutoryDb(
    pesangonScale: seq<Row<BandRow>>, upmkScale: seq<Row<BandRow>>, reasonParams: seq<Row<CaseRow>>)

  // ---- The set in force --------------------------------------------------

  predicate InForce<T>(row: Row<T>, country: string, asOf: NaiveDate) {
    row.country == country && AtOrBefore(row.effectiveFrom, asOf)
  }

  /** The greatest `effective_from` not after the day. */
  function EffectiveAt<T>(rows: seq<Row<T>>, country: string, asOf: NaiveDate): Option<NaiveDate> {
    if rows == [] then None
    else
      var rest := EffectiveAt(rows[1..], country, asOf);
      if InForce(rows[0], country, asOf) && (rest.None? || Before(rest.value, rows[0].effectiveFrom))
      then Some(rows[0].effectiveFrom)
      else rest
  }

  /** The whole row set of one effective date. */
  function SetOf<T>(rows: seq<Row<T>>, country: string, effective: NaiveDate): seq<T> {
    if rows == [] then []
    else if rows[0].country == country && rows[0].effectiveFrom == effective
    then [rows[0].value] + SetOf(rows[1..], country, effective)
    else SetOf(rows[1..], country, effective)
  }

  // ---- Scales ------------------------------------------------------------

  function InsertBand(band: BandRow, sorted: seq<BandRow>): seq<BandRow> {
    if sorted == [] || band.minServiceYears <= sorted[0].minServiceYears then [band] + sorted
    else [sorted[0]] + InsertBand(band, sorted[1..])
  }

  /** The rows ordered by their bound. */
  function SortBands(bands: seq<BandRow>): seq<BandRow> {
    if bands == [] then [] else InsertBand(bands[0], SortBands(bands[1..]))
  }

  /** A bound that does not fit an unsigned count reads as zero. */
  function ToBand(row: BandRow): TenureBand {
    TenureBand(if row.minServiceYears < 0 then 0 else row.minServiceYears, row.months)
  }

  function ToBands(rows: seq<BandRow>): seq<TenureBand> {
    seq(|rows|, i requires 0 <= i < |rows| => ToBand(rows[i]))
  }

  function ScaleAsOf(rows: seq<Row<BandRow>>, country: string, asOf: NaiveDate)
    : Result<(seq<TenureBand>, NaiveDate), PesangonError>
  {
    match EffectiveAt(rows, country, asOf)
    case None => Failure(NoStatutoryParams)
    case Some(effective) => Success((ToBands(SortBands(SetOf(rows, country, effective))), effective))
  }

  // ---- Cases -------------------------------------------------------------

  /** Rows collected into a table by case code; of two rows with one code the later stays. */
  function CaseTable(rows: seq<CaseRow>): map<CaseCode, ReasonParams> {
    if rows == [] then map[]
    else CaseTable(rows[..|rows| - 1])[rows[|rows| - 1].code := rows[|rows| - 1].params]
  }

  function SeveranceParamsAsOf(db: StatutoryDb, country: string, asOf: NaiveDate)
    : Result<SeveranceParams, PesangonError>
  {
    var (pesangonScale, pesangonFrom) :- ScaleAsOf(db.pesangonScale, country, asOf);
    var (upmkScale, upmkFrom) :- ScaleAsOf(db.upmkScale, country, asOf);
    match EffectiveAt(db.reasonParams, country, asOf)
    case None => Failure(NoStatutoryParams)
    case Some(reasonsFrom) =>
      SeveranceParams(pesangonScale, pesangonFrom, upmkScale, upmkFrom,
                      CaseTable(SetOf(db.reasonParams, country, reasonsFrom)), reasonsFrom).Check()
  }

  // ---- The date in force is the greatest one reached ----------------------

  /** `d` is the date of a row in force and no row in force is dated later. */
  ghost predicate IsGreatestInForce<T>(rows: seq<Row<T>>, country: string, asOf: NaiveDate, d: NaiveDate) {
    && (exists row :: row in rows && InForce(row, country, asOf) && row.effectiveFrom == d)
    && (forall row :: row in rows && InForce(row, country, asOf) ==> AtOrBefore(row.effectiveFrom, d))
  }

  lemma {:induction false} EffectiveAtIsGreatest<T>(rows: seq<Row<T>>, country: string, asOf: NaiveDate)
    ensures EffectiveAt(rows, country, asOf).None? <==> forall row :: row in rows ==> !InForce(row, country, asOf)
    ensures forall d :: EffectiveAt(rows, country, asOf) == Some(d) <==> IsGreatestInForce(rows, country, asOf, d)
  {
    if rows != [] {
      EffectiveAtIsGreatest(rows[1..], country, asOf);
      var rest := EffectiveAt(rows[1..], country, asOf);
      assert forall row :: row in rows <==> row == rows[0] || row in rows[1..];
      assert rest.Some? ==> IsGreatestInForce(rows[1..], country, asOf, rest.value);
      var e := EffectiveAt(rows, country, asOf);
      if e.Some? {
        assert IsGreatestInForce(rows, country, asOf, e.value) by {
          if e == rest && !InForce(rows[0], country, asOf) {
          } else {
            assert AtOrBefore(rows[0].effectiveFrom, e.value);
          }
        }
      }
      forall d | IsGreatestInForce(rows, country, asOf, d)
        ensures e == Some(d)
      {
        var row :| row in rows && InForce(row, country, asOf) && row.effectiveFrom == d;
        assert e.Some?;
      }
    }
  }

  lemma {:induction false} SetOfIsWhole<T>(rows: seq<Row<T>>, country: string, effective: NaiveDate, v: T)
    ensures multiset(SetOf(rows, country, effective))[v] == multiset(rows)[Row(country, effective, v)]
  {
    if rows != [] {
      SetOfIsWhole(rows[1..], country, effective, v);
      assert rows == [rows[0]] + rows[1..];
    }
  }

  lemma {:induction false} InsertKeepsRows(band: BandRow, sorted: seq<BandRow>)
    ensures multiset(InsertBand(band, sorted)) == multiset{band} + multiset(sorted)
  {
    if sorted != [] && band.minServiceYears > sorted[0].minServiceYears {
      InsertKeepsRows(band, sorted[1..]);
      assert sorted == [sorted[0]] + sorted[1..];
    }
  }

  lemma {:induction false} InsertKeepsOrder(band: BandRow, sorted: seq<BandRow>)
    requires Ascending(sorted)
    ensures Ascending(InsertBand(band, sorted))
    ensures forall b :: b in InsertBand(band, sorted) ==> b == band || b in sorted
  {
    if sorted != [] && band.minServiceYears > sorted[0].minServiceYears {
      InsertKeepsOrder(band, sorted[1..]);
      var inserted := InsertBand(band, sorted[1..]);
      forall i | 0 <= i < |inserted|
        ensures sorted[0].minServiceYears <= inserted[i].minServiceYears
      {
        assert inserted[i] in inserted;
      }
    }
  }

  lemma NothingIsAscending()
    ensures Ascending([])
  {
  }

  ghost predicate Ascending(bands: seq<BandRow>) {
    forall i, j :: 0 <= i < j < |bands| ==> bands[i].minServiceYears <= bands[j].minServiceYears
  }

  lemma {:induction false} SortKeepsRows(bands: seq<BandRow>)
    ensures multiset(SortBands(bands)) == multiset(bands)
    ensures Ascending(SortBands(bands))
  {
    hide InsertBand, Ascending;
    if bands == [] {
      NothingIsAscending();
    } else {
      SortKeepsRows(bands[1..]);
      InsertKeepsRows(bands[0], SortBands(bands[1..]));
      InsertKeepsOrder(bands[0], SortBands(bands[1..]));
      assert bands == [bands[0]] + bands[1..];
    }
  }

  /** The scale resolved is the whole row set of the date in force, each row as often as it is
      stored, and no row of any other date: sets are never mixed. */
  lemma ScaleIsOneWholeSet(rows: seq<Row<BandRow>>, country: string, asOf: NaiveDate)
    requires ScaleAsOf(rows, country, asOf).Success?
    ensures var (bands, effective) := ScaleAsOf(rows, country, asOf).value;
            && IsGreatestInForce(rows, country, asOf, effective)
            && AtOrBefore(effective, asOf)
            && exists sorted: seq<BandRow> ::
                 && bands == ToBands(sorted) && Ascending(sorted)
                 && forall row :: multiset(sorted)[row] == multiset(rows)[Row(country, effective, row)]
  {
    EffectiveAtIsGreatest(rows, country, asOf);
    var (bands, effective) := ScaleAsOf(rows, country, asOf).value;
    assert IsGreatestInForce(rows, country, asOf, effective);
    var stored := SetOf(rows, country, effective);
    SortKeepsRows(stored);
    forall row ensures multiset(SortBands(stored))[row] == multiset(rows)[Row(country, effective, row)] {
      SetOfIsWhole(rows, country, effective, row);
    }
  }

  // ---- Rows dated later never reach back ---------------------------------

  function UpTo<T>(rows: seq<Row<T>>, day: NaiveDate): seq<Row<T>> {
    if rows == [] then []
    else if AtOrBefore(rows[0].effectiveFrom, day) then [rows[0]] + UpTo(rows[1..], day)
    else UpTo(rows[1..], day)
  }

  lemma {:induction false} OnlyEarlierRowsCount<T>(
      rows: seq<Row<T>>, country: string, asOf: NaiveDate, effective: NaiveDate)
    ensures EffectiveAt(UpTo(rows, asOf), country, asOf) == EffectiveAt(rows, country, asOf)
    ensures AtOrBefore(effective, asOf) ==>
        SetOf(UpTo(rows, asOf), country, effective) == SetOf(rows, country, effective)
  {
    if rows != [] {
      OnlyEarlierRowsCount(rows[1..], country, asOf, effective);
    }
  }

  /** Two databases that agree on the rows dated on or before a day resolve the same set, or
      refuse alike, on that day: whatever is dated later is invisible. */
  lemma LaterRowsAreInvisible(db: StatutoryDb, db': StatutoryDb, country: string, asOf: NaiveDate)
    requires UpTo(db.pesangonScale, asOf) == UpTo(db'.pesangonScale, asOf)
    requires UpTo(db.upmkScale, asOf) == UpTo(db'.upmkScale, asOf)
    requires UpTo(db.reasonParams, asOf) == UpTo(db'.reasonParams, asOf)
    ensures SeveranceParamsAsOf(db, country, asOf) == SeveranceParamsAsOf(db', country, asOf)
  {
    SameScale(db.pesangonScale, db'.pesangonScale, country, asOf);
    SameScale(db.upmkScale, db'.upmkScale, country, asOf);
    SameSet(db.reasonParams, db'.reasonParams, country, asOf);
  }

  lemma SameSet<T>(rows: seq<Row<T>>, rows': seq<Row<T>>, country: string, asOf: NaiveDate)
    requires UpTo(rows, asOf) == UpTo(rows', asOf)
    ensures EffectiveAt(rows, country, asOf) == EffectiveAt(rows', country, asOf)
    ensures var e := EffectiveAt(rows, country, asOf);
            e.Some? ==> SetOf(rows, country, e.value) == SetOf(rows', country, e.value)
  {
    OnlyEarlierRowsCount(rows, country, asOf, asOf);
    OnlyEarlierRowsCount(rows', country, asOf, asOf);
    EffectiveAtIsGreatest(rows, country, asOf);
    var e := EffectiveAt(rows, country, asOf);
    if e.Some? {
      assert IsGreatestInForce(rows, country, asOf, e.value);
      OnlyEarlierRowsCount(rows, country, asOf, e.value);
      OnlyEarlierRowsCount(rows', country, asOf, e.value);
    }
  }

  lemma SameScale(rows: seq<Row<BandRow>>, rows': seq<Row<BandRow>>, country: string, asOf: NaiveDate)
    requires UpTo(rows, asOf) == UpTo(rows', asOf)
    ensures ScaleAsOf(rows, country, asOf) == ScaleAsOf(rows', country, asOf)
  {
    SameSet(rows, rows', country, asOf);
  }

  /** Publishing rows for a later date, anywhere in the table, leaves the earlier days' view alone. */
  lemma {:induction false} InsertingLaterKeepsView<T>(
      before: seq<Row<T>>, added: seq<Row<T>>, after: seq<Row<T>>, day: NaiveDate)
    requires forall row :: row in added ==> Before(day, row.effectiveFrom)
    ensures UpTo(before + added + after, day) == UpTo(before + after, day)
  {
    if before != [] {
      InsertingLaterKeepsView(before[1..], added, after, day);
      assert (before + added + after)[1..] == before[1..] + added + after;
      assert (before + after)[1..] == before[1..] + after;
    } else if added != [] {
      InsertingLaterKeepsView([], added[1..], after, day);
      assert (before + added + after)[1..] == [] + added[1..] + after;
      assert [] + after == before + after;
    } else {
      assert before + added + after == before + after;
    }
  }

  // ---- Exactly when a set resolves ---------------------------------------

  /** Bounds, read as unsigned, are pairwise distinct and one of them is zero. */
  ghost predicate UsableScale(rows: seq<BandRow>) {
    && (exists i :: 0 <= i < |rows| && ToBand(rows[i]).minServiceYears == 0)
    && (forall i, j :: 0 <= i < j < |rows| ==> ToBand(rows[i]).minServiceYears != ToBand(rows[j]).minServiceYears)
  }

  /** Distinctness and presence are properties of the bag of rows, not of their order. */
  ghost predicate UsableBag(rows: multiset<BandRow>) {
    && (exists r :: r in rows && ToBand(r).minServiceYears == 0)
    && (forall r :: rows[r] <= 1)
    && (forall r, s :: r in rows && s in rows && r != s ==> ToBand(r).minServiceYears != ToBand(s).minServiceYears)
  }

  lemma TwiceInBag<T>(rows: seq<T>, i: int, j: int)
    requires 0 <= i < j < |rows| && rows[i] == rows[j]
    ensures multiset(rows)[rows[i]] >= 2
  {
    assert rows == rows[..j] + rows[j..];
    assert rows[i] in rows[..j] && rows[j] in rows[j..];
    assert multiset(rows) == multiset(rows[..j]) + multiset(rows[j..]);
  }

  lemma {:induction false} OnceInBag<T>(rows: seq<T>)
    requires forall i, j :: 0 <= i < j < |rows| ==> rows[i] != rows[j]
    ensures forall v :: multiset(rows)[v] <= 1
  {
    if rows != [] {
      OnceInBag(rows[1..]);
      assert rows == [rows[0]] + rows[1..];
      assert rows[0] !in rows[1..];
    }
  }

  lemma UsableIsOfTheBag(rows: seq<BandRow>)
    ensures UsableScale(rows) <==> UsableBag(multiset(rows))
  {
    if UsableScale(rows) {
      OnceInBag(rows);
      var i :| 0 <= i < |rows| && ToBand(rows[i]).minServiceYears == 0;
      assert rows[i] in multiset(rows);
      forall r, s | r in multiset(rows) && s in multiset(rows) && r != s
        ensures ToBand(r).minServiceYears != ToBand(s).minServiceYears
      {
        assert r in rows && s in rows;
      }
    }
    if UsableBag(multiset(rows)) {
      var r :| r in multiset(rows) && ToBand(r).minServiceYears == 0;
      assert r in rows;
      forall i, j | 0 <= i < j < |rows|
        ensures ToBand(rows[i]).minServiceYears != ToBand(rows[j]).minServiceYears
      {
        assert rows[i] in multiset(rows) && rows[j] in multiset(rows);
        if rows[i] == rows[j] { TwiceInBag(rows, i, j); }
      }
    }
  }

  lemma SortedUsableIsComplete(sorted: seq<BandRow>)
    requires Ascending(sorted)
    ensures ScaleComplete(ToBands(sorted)) <==> UsableScale(sorted)
  {
    var bands := ToBands(sorted);
    if ScaleComplete(bands) {
      assert ToBand(sorted[0]).minServiceYears == 0;
      forall i, j | 0 <= i < j < |sorted|
        ensures ToBand(sorted[i]).minServiceYears != ToBand(sorted[j]).minServiceYears
      {
        BoundsAscend(bands, i, j);
      }
    }
    if UsableScale(sorted) {
      var i :| 0 <= i < |sorted| && ToBand(sorted[i]).minServiceYears == 0;
      assert sorted[0].minServiceYears <= sorted[i].minServiceYears;
      forall i | 0 <= i < |bands| - 1
        ensures bands[i].minServiceYears < bands[i + 1].minServiceYears
      {
        assert sorted[i].minServiceYears <= sorted[i + 1].minServiceYears;
      }
    }
  }

  ghost predicate ScaleResolvable(rows: seq<Row<BandRow>>, country: string, asOf: NaiveDate) {
    var e := EffectiveAt(rows, country, asOf);
    e.Some? && UsableScale(SetOf(rows, country, e.value))
  }

  ghost predicate CasesResolvable(rows: seq<Row<CaseRow>>, country: string, asOf: NaiveDate) {
    var e := EffectiveAt(rows, country, asOf);
    && e.Some?
    && forall c: StatutoryCase :: exists row :: row in SetOf(rows, country, e.value) && row.code == Known(c)
  }

  lemma {:induction false} CaseTableKeys(rows: seq<CaseRow>)
    ensures forall code :: code in CaseTable(rows) <==> exists row :: row in rows && row.code == code
  {
    if rows != [] {
      var init, last := rows[..|rows| - 1], rows[|rows| - 1];
      CaseTableKeys(init);
      assert rows == init + [last];
      forall code ensures code in CaseTable(rows) <==> exists row :: row in rows && row.code == code {
        if code in CaseTable(init) {
          var row :| row in init && row.code == code;
          assert row in rows;
        }
        if code == last.code { assert last in rows; }
      }
    }
  }

  lemma ScaleResolves(rows: seq<Row<BandRow>>, country: string, asOf: NaiveDate)
    ensures ScaleResolvable(rows, country, asOf) <==>
              (ScaleAsOf(rows, country, asOf).Success? && ScaleComplete(ScaleAsOf(rows, country, asOf).value.0))
  {
    var e := EffectiveAt(rows, country, asOf);
    if e.Some? {
      var stored := SetOf(rows, country, e.value);
      SortKeepsRows(stored);
      SortedUsableIsComplete(SortBands(stored));
      UsableIsOfTheBag(stored);
      UsableIsOfTheBag(SortBands(stored));
    }
  }

  /** A day resolves exactly when each table has a set in force, both scales name each bound once
      and start at zero, and every known case has a row. Anything less is refused. */
  lemma ResolvesExactlyWhenWhole(db: StatutoryDb, country: string, asOf: NaiveDate)
    ensures SeveranceParamsAsOf(db, country, asOf).Success? <==>
              && ScaleResolvable(db.pesangonScale, country, asOf)
              && ScaleResolvable(db.upmkScale, country, asOf)
              && CasesResolvable(db.reasonParams, country, asOf)
    ensures SeveranceParamsAsOf(db, country, asOf).Success? ==>
              AtOrBefore(SeveranceParamsAsOf(db, country, asOf).value.EffectiveFrom(), asOf)
  {
    ScaleResolves(db.pesangonScale, country, asOf);
    ScaleResolves(db.upmkScale, country, asOf);
    EffectiveAtIsGreatest(db.pesangonScale, country, asOf);
    EffectiveAtIsGreatest(db.upmkScale, country, asOf);
    EffectiveAtIsGreatest(db.reasonParams, country, asOf);
    var e := EffectiveAt(db.reasonParams, country, asOf);
    if e.Some? {
      CaseTableKeys(SetOf(db.reasonParams, country, e.value));
      assert IsGreatestInForce(db.reasonParams, country, asOf, e.value);
    }
    var p := EffectiveAt(db.pesangonScale, country, asOf);
    var u := EffectiveAt(db.upmkScale, country, asOf);
    assert p.Some? ==> IsGreatestInForce(db.pesangonScale, country, asOf, p.value);
    assert u.Some? ==> IsGreatestInForce(db.upmkScale, country, asOf, u.value);
  }

  // ---- Storage order does not matter -------------------------------------

  lemma EffectiveAtIgnoresOrder<T>(rows: seq<Row<T>>, rows': seq<Row<T>>, country: string, asOf: NaiveDate)
    requires multiset(rows) == multiset(rows')
    ensures EffectiveAt(rows, country, asOf) == EffectiveAt(rows', country, asOf)
  {
    EffectiveAtIsGreatest(rows, country, asOf);
    EffectiveAtIsGreatest(rows', country, asOf);
    assert forall row :: row in rows <==> row in multiset(rows);
    assert forall row :: row in rows' <==> row in multiset(rows');
    var e := EffectiveAt(rows, country, asOf);
    if e.Some? {
      assert IsGreatestInForce(rows, country, asOf, e.value);
      assert IsGreatestInForce(rows', country, asOf, e.value);
    }
  }

  lemma SetOfIgnoresOrder<T>(rows: seq<Row<T>>, rows': seq<Row<T>>, country: string, effective: NaiveDate)
    requires multiset(rows) == multiset(rows')
    ensures multiset(SetOf(rows, country, effective)) == multiset(SetOf(rows', country, effective))
  {
    hide SetOf;
    SetOfWithin(rows, rows', country, effective);
    SetOfWithin(rows', rows, country, effective);
  }

  lemma SetOfWithin<T>(rows: seq<Row<T>>, rows': seq<Row<T>>, country: string, effective: NaiveDate)
    requires multiset(rows) == multiset(rows')
    ensures multiset(SetOf(rows, country, effective)) <= multiset(SetOf(rows', country, effective))
  {
    hide SetOf;
    var bag, bag' := multiset(SetOf(rows, country, effective)), multiset(SetOf(rows', country, effective));
    forall v | v in bag ensures bag[v] <= bag'[v] {
      SetOfIsWhole(rows, country, effective, v);
      SetOfIsWhole(rows', country, effective, v);
    }
  }

  lemma BagOfTail(a: seq<BandRow>)
    requires a != []
    ensures multiset(a[1..]) == multiset(a) - multiset{a[0]}
  {
    assert a == [a[0]] + a[1..];
  }

  predicate DistinctBounds(a: seq<BandRow>) {
    forall i, j :: 0 <= i < j < |a| ==> a[i].minServiceYears != a[j].minServiceYears
  }

  lemma SameFirst(a: seq<BandRow>, b: seq<BandRow>)
    requires a != [] && b != [] && multiset(a) == multiset(b) && Ascending(a) && Ascending(b) && DistinctBounds(a)
    ensures a[0] == b[0]
  {
    assert b[0] in multiset(b) && a[0] in multiset(a);
    var i :| 0 <= i < |a| && a[i] == b[0];
    var j :| 0 <= j < |b| && b[j] == a[0];
  }

  /** Two ascending arrangements of one bag of rows with distinct bounds are the same list. */
  lemma {:induction false} SortedArrangementIsUnique(a: seq<BandRow>, b: seq<BandRow>)
    requires multiset(a) == multiset(b) && Ascending(a) && Ascending(b) && DistinctBounds(a)
    ensures a == b
  {
    assert |a| == |multiset(a)| == |multiset(b)| == |b|;
    if a != [] {
      SameFirst(a, b);
      BagOfTail(a);
      BagOfTail(b);
      SortedArrangementIsUnique(a[1..], b[1..]);
      assert a == [a[0]] + a[1..] && b == [b[0]] + b[1..];
    }
  }

  lemma ScaleIgnoresOrder(rows: seq<Row<BandRow>>, rows': seq<Row<BandRow>>, country: string, asOf: NaiveDate)
    requires multiset(rows) == multiset(rows') && ScaleResolvable(rows, country, asOf)
    ensures ScaleAsOf(rows, country, asOf) == ScaleAsOf(rows', country, asOf)
  {
    hide SortBands, SetOf, EffectiveAt, Ascending, UsableBag;
    EffectiveAtIgnoresOrder(rows, rows', country, asOf);
    var effective := EffectiveAt(rows, country, asOf).value;
    var stored, stored' := SetOf(rows, country, effective), SetOf(rows', country, effective);
    SetOfIgnoresOrder(rows, rows', country, effective);
    SortKeepsRows(stored);
    SortKeepsRows(stored');
    UsableIsOfTheBag(stored);
    UsableIsOfTheBag(SortBands(stored));
    SortedArrangementIsUnique(SortBands(stored), SortBands(stored'));
  }

  ghost predicate DistinctCodes(rows: seq<CaseRow>) {
    forall i, j :: 0 <= i < j < |rows| ==> rows[i].code != rows[j].code
  }

  lemma {:induction false} CaseTableValues(rows: seq<CaseRow>)
    requires DistinctCodes(rows)
    ensures forall row :: row in rows ==> row.code in CaseTable(rows) && CaseTable(rows)[row.code] == row.params
  {
    if rows != [] {
      CaseTableValues(rows[..|rows| - 1]);
      assert rows == rows[..|rows| - 1] + [rows[|rows| - 1]];
    }
  }

  /** Why a day is refused: some table has no set in force, or else the sets in force are not whole. */
  lemma RefusalSaysWhy(db: StatutoryDb, country: string, asOf: NaiveDate)
    requires SeveranceParamsAsOf(db, country, asOf).Failure?
    ensures SeveranceParamsAsOf(db, country, asOf).error ==
              if EffectiveAt(db.pesangonScale, country, asOf).None? || EffectiveAt(db.upmkScale, country, asOf).None?
                 || EffectiveAt(db.reasonParams, country, asOf).None?
              then NoStatutoryParams else IncompleteStatutoryParams
  {
    hide SetOf, EffectiveAt, CaseTable, SortBands, SeveranceParams.Complete;
  }

  lemma ResolvedIgnoresOrder(db: StatutoryDb, db': StatutoryDb, country: string, asOf: NaiveDate)
    requires SameRows(db, db') && OneRowPerCaseAndDate(db, country) && OneRowPerCaseAndDate(db', country)
    requires SeveranceParamsAsOf(db, country, asOf).Success?
    ensures SeveranceParamsAsOf(db', country, asOf) == SeveranceParamsAsOf(db, country, asOf)
  {
    ResolvesExactlyWhenWhole(db, country, asOf);
    ScaleIgnoresOrder(db.pesangonScale, db'.pesangonScale, country, asOf);
    ScaleIgnoresOrder(db.upmkScale, db'.upmkScale, country, asOf);
    EffectiveAtIgnoresOrder(db.reasonParams, db'.reasonParams, country, asOf);
    var e := EffectiveAt(db.reasonParams, country, asOf).value;
    SetOfIgnoresOrder(db.reasonParams, db'.reasonParams, country, e);
    SameCaseTable(SetOf(db.reasonParams, country, e), SetOf(db'.reasonParams, country, e));
  }

  /** The same rows, in any order. */
  ghost predicate SameRows(db: StatutoryDb, db': StatutoryDb) {
    && multiset(db.pesangonScale) == multiset(db'.pesangonScale)
    && multiset(db.upmkScale) == multiset(db'.upmkScale)
    && multiset(db.reasonParams) == multiset(db'.reasonParams)
  }

  ghost predicate OneRowPerCaseAndDate(db: StatutoryDb, country: string) {
    forall e :: DistinctCodes(SetOf(db.reasonParams, country, e))
  }

  /** On tables with one row per case and date, what a day resolves to does not depend on the order
      the rows are stored in: the same set, or the same refusal. */
  lemma ResolutionIgnoresOrder(db: StatutoryDb, db': StatutoryDb, country: string, asOf: NaiveDate)
    requires SameRows(db, db') && OneRowPerCaseAndDate(db, country) && OneRowPerCaseAndDate(db', country)
    ensures SeveranceParamsAsOf(db', country, asOf) == SeveranceParamsAsOf(db, country, asOf)
  {
    hide SeveranceParamsAsOf, OneRowPerCaseAndDate, EffectiveAt;
    if SeveranceParamsAsOf(db, country, asOf).Success? {
      ResolvedIgnoresOrder(db, db', country, asOf);
    } else if SeveranceParamsAsOf(db', country, asOf).Success? {
      ResolvedIgnoresOrder(db', db, country, asOf);
    } else {
      RefusalSaysWhy(db, country, asOf);
      RefusalSaysWhy(db', country, asOf);
      EffectiveAtIgnoresOrder(db.pesangonScale, db'.pesangonScale, country, asOf);
      EffectiveAtIgnoresOrder(db.upmkScale, db'.upmkScale, country, asOf);
      EffectiveAtIgnoresOrder(db.reasonParams, db'.reasonParams, country, asOf);
    }
  }

  lemma SameCaseTable(rows: seq<CaseRow>, rows': seq<CaseRow>)
    requires multiset(rows) == multiset(rows') && DistinctCodes(rows) && DistinctCodes(rows')
    ensures CaseTable(rows) == CaseTable(rows')
  {
    hide CaseTable, DistinctCodes;
    forall row ensures row in rows <==> row in rows' {
      assert row in rows <==> row in multiset(rows);
      assert row in rows' <==> row in multiset(rows');
    }
    CaseTableIncluded(rows, rows');
    CaseTableIncluded(rows', rows);
  }

  lemma CaseTableIncluded(rows: seq<CaseRow>, rows': seq<CaseRow>)
    requires DistinctCodes(rows) && DistinctCodes(rows')
    requires forall row :: row in rows ==> row in rows'
    ensures forall code :: code in CaseTable(rows) ==>
              code in CaseTable(rows') && CaseTable(rows')[code] == CaseTable(rows)[code]
  {
    hide CaseTable, DistinctCodes;
    CaseTableKeys(rows);
    CaseTableValues(rows);
    CaseTableValues(rows');
  }

  // ---- The cases are one whole set ---------------------------------------------

  /** A row of the one date, for the code. */
  predicate IsCaseRow(row: Row<CaseRow>, country: string, effective: NaiveDate, code: CaseCode) {
    row.country == country && row.effectiveFrom == effective && row.value.code == code
  }

  /** The case table's primary key. */
  ghost predicate OneRowPerCase(rows: seq<Row<CaseRow>>) {
    forall a, b :: a in rows && b in rows && IsCaseRow(b, a.country, a.effectiveFrom, a.value.code) ==> a == b
  }

  lemma InSetIff<T>(rows: seq<Row<T>>, country: string, effective: NaiveDate, v: T)
    ensures v in SetOf(rows, country, effective) <==> Row(country, effective, v) in rows
  {
  }

  lemma {:induction false} CaseTableHoldsRows(rows: seq<CaseRow>)
    ensures forall code :: code in CaseTable(rows) ==> CaseRow(code, CaseTable(rows)[code]) in rows
    ensures forall row :: row in rows ==> row.code in CaseTable(rows)
  {
    if rows != [] {
      var init, last := rows[..|rows| - 1], rows[|rows| - 1];
      CaseTableHoldsRows(init);
      assert rows == init + [last];
      assert last in rows;
    }
  }

  /** The case parameters resolved are those of the one date in force and of no other: a case is
      there exactly when a row of that date names it, with the parameters of such a row; and with one
      row for a case and date, every row of the date is there with its own. */
  lemma CasesAreOneWholeSet(db: StatutoryDb, country: string, asOf: NaiveDate)
    requires SeveranceParamsAsOf(db, country, asOf).Success?
    ensures var params := SeveranceParamsAsOf(db, country, asOf).value;
            var from := params.reasonsEffectiveFrom;
            && IsGreatestInForce(db.reasonParams, country, asOf, from)
            && (forall code :: code in params.reasons <==>
                  exists row :: row in db.reasonParams && IsCaseRow(row, country, from, code))
            && (forall code :: code in params.reasons ==>
                  Row(country, from, CaseRow(code, params.reasons[code])) in db.reasonParams)
            && (OneRowPerCase(db.reasonParams) ==>
                  forall row :: row in db.reasonParams && IsCaseRow(row, country, from, row.value.code) ==>
                    row.value.code in params.reasons && params.reasons[row.value.code] == row.value.params)
  {
    hide SetOf, EffectiveAt, CaseTable, ScaleAsOf, SeveranceParams.Complete;
    EffectiveAtIsGreatest(db.reasonParams, country, asOf);
    var params := SeveranceParamsAsOf(db, country, asOf).value;
    var from := params.reasonsEffectiveFrom;
    var rows := SetOf(db.reasonParams, country, from);
    CaseTableHoldsRows(rows);
    forall v ensures v in rows <==> Row(country, from, v) in db.reasonParams {
      InSetIff(db.reasonParams, country, from, v);
    }
    forall row | row in db.reasonParams && IsCaseRow(row, country, from, row.value.code)
      ensures row.value.code in params.reasons
    {
      assert row == Row(country, from, row.value);
    }
    forall code | code in params.reasons
      ensures Row(country, from, CaseRow(code, params.reasons[code])) in db.reasonParams
      ensures exists row :: row in db.reasonParams && IsCaseRow(row, country, from, code)
    {
      assert IsCaseRow(Row(country, from, CaseRow(code, params.reasons[code])), country, from, code);
    }
  }

  // ---- Each scale is its own table's whole set ----------------------------------

  /** The bands, row for row; a bound that does not fit an unsigned count reads as zero. */
  ghost predicate ReadsAs(sorted: seq<BandRow>, bands: seq<TenureBand>) {
    && |bands| == |sorted|
    && forall k :: 0 <= k < |bands| ==>
         && bands[k].months == sorted[k].months
         && bands[k].minServiceYears == if sorted[k].minServiceYears < 0 then 0 else sorted[k].minServiceYears
  }

  /** The bands are the rows of one date, each as often as stored and no other, in ascending order. */
  ghost predicate IsWholeScale(rows: seq<Row<BandRow>>, country: string, effective: NaiveDate, bands: seq<TenureBand>) {
    exists sorted: seq<BandRow> ::
      && ReadsAs(sorted, bands) && Ascending(sorted)
      && forall row :: multiset(sorted)[row] == multiset(rows)[Row(country, effective, row)]
  }

  lemma ScaleIsWhole(rows: seq<Row<BandRow>>, country: string, asOf: NaiveDate)
    requires ScaleAsOf(rows, country, asOf).Success?
    ensures var (bands, effective) := ScaleAsOf(rows, country, asOf).value;
            IsGreatestInForce(rows, country, asOf, effective) && IsWholeScale(rows, country, effective, bands)
  {
    hide ScaleAsOf, IsGreatestInForce, Ascending;
    ScaleIsOneWholeSet(rows, country, asOf);
    var (bands, effective) := ScaleAsOf(rows, country, asOf).value;
    var sorted: seq<BandRow> :|
      && bands == ToBands(sorted) && Ascending(sorted)
      && forall row :: multiset(sorted)[row] == multiset(rows)[Row(country, effective, row)];
    assert ReadsAs(sorted, bands);
  }

  /** Each scale of a resolved set is the whole set of its own table's greatest date in force, stamped
      with that date: the pesangon scale of the pesangon table, the UPMK scale of the UPMK table. */
  lemma ScalesAreWholeSets(db: StatutoryDb, country: string, asOf: NaiveDate)
    requires SeveranceParamsAsOf(db, country, asOf).Success?
    ensures var params := SeveranceParamsAsOf(db, country, asOf).value;
            && IsGreatestInForce(db.pesangonScale, country, asOf, params.pesangonEffectiveFrom)
            && IsWholeScale(db.pesangonScale, country, params.pesangonEffectiveFrom, params.pesangonScale)
            && IsGreatestInForce(db.upmkScale, country, asOf, params.upmkEffectiveFrom)
            && IsWholeScale(db.upmkScale, country, params.upmkEffectiveFrom, params.upmkScale)
  {
    hide ScaleAsOf, IsGreatestInForce, IsWholeScale, SetOf, EffectiveAt, CaseTable, SeveranceParams.Complete;
    ScaleIsWhole(db.pesangonScale, country, asOf);
    ScaleIsWhole(db.upmkScale, country, asOf);
  }

  lemma RowOfScale(rows: seq<Row<BandRow>>, sorted: seq<BandRow>, country: string, effective: NaiveDate, band: BandRow)
    requires forall row :: multiset(sorted)[row] == multiset(rows)[Row(country, effective, row)]
    ensures band in sorted <==> Row(country, effective, band) in rows
  {
    assert band in sorted <==> multiset(sorted)[band] > 0;
    assert Row(country, effective, band) in rows <==> multiset(rows)[Row(country, effective, band)] > 0;
  }

  /** The stored row behind the months for so many years: of that date, its bound reached, and no row
      of that date reached with a greater one. */
  ghost predicate IsBandRow(rows: seq<Row<BandRow>>, country: string, effective: NaiveDate, years: nat, band: BandRow) {
    && Row(country, effective, band) in rows && band.minServiceYears <= years
    && forall other :: Row(country, effective, other) in rows && other.minServiceYears <= years ==>
         other.minServiceYears <= band.minServiceYears
  }

  /** The months looked up in a checked scale are those of a stored row: the greatest bound reached. */
  lemma MonthsAreOfARow(
      rows: seq<Row<BandRow>>, country: string, effective: NaiveDate, scale: seq<TenureBand>, years: nat)
    returns (band: BandRow)
    requires IsWholeScale(rows, country, effective, scale) && ScaleComplete(scale)
    ensures IsBandRow(rows, country, effective, years, band) && band.months == ScaleMonths(scale, years)
  {
    hide ScaleMonths;
    var i := LookupIsTheBandInForce(scale, years);
    var sorted: seq<BandRow> :|
      && ReadsAs(sorted, scale) && Ascending(sorted)
      && forall row :: multiset(sorted)[row] == multiset(rows)[Row(country, effective, row)];
    band := sorted[i];
    RowOfScale(rows, sorted, country, effective, band);
    forall other | Row(country, effective, other) in rows && other.minServiceYears <= years
      ensures other.minServiceYears <= band.minServiceYears
    {
      RowOfScale(rows, sorted, country, effective, other);
      var k :| 0 <= k < |sorted| && sorted[k] == other;
      assert scale[k].minServiceYears <= years;
      if k > i { BoundsAscend(scale, i, k); }
    }
  }
}
