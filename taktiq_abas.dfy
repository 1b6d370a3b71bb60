/** api/TaktiqAbas: builds the order record of one vehicle from the
    production plan of its series. The plan is an ordered table of rows; a
    row with a non-empty running number ("pfz") is a block boundary that
    opens the vehicle's block when the number is the vehicle's own and
    closes it otherwise. Inside the block the pass collects decor and
    option codes, and a planned date for every opening row. */
module TaktiqAbas {
  import opened Wrappers
  import opened JavaTime
  import opened DateTimeConverter
  import opened TaktiqVehicles

  /** The fields of a `db.Product` the pass reads: whether it is a vehicle,
      its running number, its id, its variant number and its short word. */
  datatype Product = Product(
    isVehicle: bool,
    runningNumber: Option<string>,
    idno: Option<string>,
    yvnum: Option<string>,
    kurzwort: Option<string>)

  /** A row of the plan table: running number, planned date (as the text its
      `toString` gives), decor and option product. */
  datatype Row = Row(pfz: string, ytlterm: Option<string>, decor: Option<Product>, option: Option<Product>)

  /** The production plan of a series: its line ("band"), the vehicle
      article and the table rows. */
  datatype ProdPlan = ProdPlan(band: int, artnr: Option<Product>, rows: seq<Row>)

  const PlanLocation := "Station1"
  const PlanKind := "PLAN"

  predicate IsBoundary(row: Row) {
    row.pfz != ""
  }

  /** A boundary row that carries the vehicle's own running number. */
  predicate Opens(row: Row, vehicle: Product) {
    row.pfz != "" && Some(row.pfz) == vehicle.runningNumber
  }

  /** The variant number of a product, if there is a product. */
  function Codes(p: Option<Product>): (r: seq<Option<string>>)
    ensures |r| == (if p.Some? then 1 else 0)
  {
    if p.Some? then [p.value.yvnum] else []
  }

  /** The planned date an opening row adds. */
  function PlannedDate(row: Row, atZone: LocalDateTime -> Zoned): Result<DateEntry>
    requires row.ytlterm.Some?
  {
    match AbasTimestampToTaktiq(row.ytlterm, atZone)
    case Err(e) => Err(e)
    case Ok(d) => Ok(DateEntry(Some(d), Some(PlanLocation), Some(PlanKind)))
  }

  // ---------------------------------------------------------------------------
  // The pass over the rows

  /** The state of the pass: the block flag, the feature accumulator and
      the record built so far. */
  datatype Scan = Scan(inBlock: bool, future: seq<Option<string>>, record: VehicleState)

  /** What an opening row does to the record before its date: the order
      number through the nine-character guard, model and description from
      the plan's vehicle article. */
  function OpenRecord(record: VehicleState, vehicle: Product, artnr: Option<Product>): VehicleState {
    var r := AcceptOrderNumber(record, vehicle.idno);
    if artnr.Some? then r.(model := artnr.value.kurzwort, description := artnr.value.kurzwort) else r
  }

  /** What an opening row does to the record: `OpenRecord`, then the planned
      date when the row has one. A date that cannot be converted throws. */
  function OpenRow(record: VehicleState, row: Row, vehicle: Product, artnr: Option<Product>, atZone: LocalDateTime -> Zoned): Result<VehicleState> {
    var r := OpenRecord(record, vehicle, artnr);
    if row.ytlterm.None? then Ok(r)
    else match PlannedDate(row, atZone)
      case Err(e) => Err(e)
      case Ok(d) => Ok(r.(dates := r.dates + [d]))
  }

  /** One iteration of the row loop. */
  function Step(sc: Scan, row: Row, vehicle: Product, artnr: Option<Product>, atZone: LocalDateTime -> Zoned): Result<Scan>
  {
    var inBlock := if IsBoundary(row) then Opens(row, vehicle) else sc.inBlock;
    var future := if Opens(row, vehicle) then [] else sc.future;
    if !inBlock then Ok(Scan(false, future, sc.record))
    else if !IsBoundary(row) then Ok(Scan(true, future + Codes(row.option), sc.record))
    else match OpenRow(sc.record, row, vehicle, artnr, atZone)
      case Err(e) => Err(e)
      case Ok(r) => Ok(Scan(true, future + Codes(row.decor) + Codes(row.option), r))
  }

  /** The loop over a prefix of the rows, from a new record. */
  function ScanRows(rows: seq<Row>, vehicle: Product, artnr: Option<Product>, atZone: LocalDateTime -> Zoned): Result<Scan>
  {
    if rows == [] then Ok(Scan(false, [], Blank))
    else match ScanRows(rows[..|rows| - 1], vehicle, artnr, atZone)
      case Err(e) => Err(e)
      case Ok(sc) => Step(sc, rows[|rows| - 1], vehicle, artnr, atZone)
  }

  /** `buildVehicle` as a whole: the record it returns, or the exception it
      throws. `plan` is what the plan lookup for the vehicle's series gives. */
  function BuildSpec(vehicle: Product, productionLineNumber: Option<int>, plan: Option<ProdPlan>, atZone: LocalDateTime -> Zoned): Result<VehicleState>
  {
    if !vehicle.isVehicle || plan.None? then Ok(Blank.(features := [Blank.seriesNumber]))
    else if Some(plan.value.band) != productionLineNumber then Ok(Blank)
    else match ScanRows(plan.value.rows, vehicle, plan.value.artnr, atZone)
      case Err(e) => Err(e)
      case Ok(sc) => Ok(sc.record.(features := sc.future + [sc.record.seriesNumber]))
  }

  /** `buildVehicle`. The record's feature list is the accumulator object
      itself, handed over by `setFeaturesList`. */
  method BuildVehicle(vehicle: Product, productionLineNumber: Option<int>, plan: Option<ProdPlan>, atZone: LocalDateTime -> Zoned)
    returns (v: TaktiqVehicle, outcome: Outcome)
    ensures fresh(v) && fresh(v.featuresList)
    ensures outcome.Pass? <==> BuildSpec(vehicle, productionLineNumber, plan, atZone).Ok?
    ensures outcome.Pass? ==> BuildSpec(vehicle, productionLineNumber, plan, atZone) == Ok(v.State())
    ensures outcome.Fail? ==> BuildSpec(vehicle, productionLineNumber, plan, atZone) == Err(outcome.error)
  {
    v := new TaktiqVehicle();
    var futureList := new StringList();
    if vehicle.isVehicle && plan.Some? {
      if Some(plan.value.band) != productionLineNumber {
        return v, Pass;
      }
      futureList, outcome := ScanPlan(v, plan.value, vehicle, atZone);
      if outcome.Fail? {
        return;
      }
    } else {
      assert futureList.elems + [v.State().seriesNumber] == [None];
    }
    ghost var record := v.State();
    assert BuildSpec(vehicle, productionLineNumber, plan, atZone) == Ok(record.(features := futureList.elems + [record.seriesNumber]));
    v.SetFeaturesList(futureList);
    return v, Pass;
  }

  /** The row loop of `buildVehicle`, on a new record `v`: the flag
      `isFzgBereich`, the accumulator `futureList` (a new list at every
      opening row) and the setter calls on `v`. */
  method ScanPlan(v: TaktiqVehicle, p: ProdPlan, vehicle: Product, atZone: LocalDateTime -> Zoned)
    returns (futureList: StringList, outcome: Outcome)
    requires v.State() == Blank
    modifies v
    ensures fresh(futureList) && futureList != v.featuresList
    ensures v.featuresList == old(v.featuresList)
    ensures outcome.Pass? <==> ScanRows(p.rows, vehicle, p.artnr, atZone).Ok?
    ensures outcome.Pass? ==> ScanRows(p.rows, vehicle, p.artnr, atZone).value.future == futureList.elems
    ensures outcome.Pass? ==> ScanRows(p.rows, vehicle, p.artnr, atZone).value.record == v.State()
    ensures outcome.Fail? ==> ScanRows(p.rows, vehicle, p.artnr, atZone) == Err(outcome.error)
  {
    futureList := new StringList();
    var isFzgBereich := false;
    var i := 0;
    while i < |p.rows|
      invariant 0 <= i <= |p.rows|
      invariant fresh(futureList) && futureList != v.featuresList
      invariant v.featuresList == old(v.featuresList)
      invariant ScanRows(p.rows[..i], vehicle, p.artnr, atZone) == Ok(Scan(isFzgBereich, futureList.elems, v.State()))
    {
      assert p.rows[..i + 1][..i] == p.rows[..i];
      var row := p.rows[i];
      ghost var sc := Scan(isFzgBereich, futureList.elems, v.State());
      assert ScanRows(p.rows[..i + 1], vehicle, p.artnr, atZone) == Step(sc, row, vehicle, p.artnr, atZone);
      if row.pfz != "" {
        if Some(row.pfz) == vehicle.runningNumber {
          isFzgBereich := true;
          futureList := new StringList();
        } else {
          isFzgBereich := false;
        }
      }
      assert v.State() == sc.record;
      if isFzgBereich {
        if row.pfz != "" {
          outcome := ApplyOpenRow(v, row, vehicle, p.artnr, atZone);
          assert futureList.elems == [];
          if outcome.Fail? {
            ScanErrorSticky(p.rows, i + 1, vehicle, p.artnr, atZone);
            return;
          }
          if row.decor.Some? {
            futureList.Add(row.decor.value.yvnum);
          }
        }
        if row.option.Some? {
          futureList.Add(row.option.value.yvnum);
        }
      }
      if Opens(row, vehicle) {
        assert OpenRow(sc.record, row, vehicle, p.artnr, atZone) == Ok(v.State());
        assert futureList.elems == [] + Codes(row.decor) + Codes(row.option);
      } else if isFzgBereich {
        assert !IsBoundary(row);
        assert futureList.elems == sc.future + Codes(row.option);
        assert v.State() == sc.record;
      } else {
        assert futureList.elems == sc.future;
        assert v.State() == sc.record;
      }
      assert Step(sc, row, vehicle, p.artnr, atZone) == Ok(Scan(isFzgBereich, futureList.elems, v.State()));
      i := i + 1;
    }
    assert p.rows[..i] == p.rows;
    return futureList, Pass;
  }

  /** The setter calls of an opening row. */
  method ApplyOpenRow(v: TaktiqVehicle, row: Row, vehicle: Product, artnr: Option<Product>, atZone: LocalDateTime -> Zoned)
    returns (outcome: Outcome)
    modifies v
    ensures v.featuresList == old(v.featuresList)
    ensures outcome.Pass? <==> OpenRow(old(v.State()), row, vehicle, artnr, atZone).Ok?
    ensures outcome.Pass? ==> OpenRow(old(v.State()), row, vehicle, artnr, atZone) == Ok(v.State())
    ensures outcome.Fail? ==> OpenRow(old(v.State()), row, vehicle, artnr, atZone) == Err(outcome.error)
  {
    v.SetOrderNumber(vehicle.idno);
    if artnr.Some? {
      v.SetModel(artnr.value.kurzwort);
      v.SetDescription(artnr.value.kurzwort);
    }
    if row.ytlterm.Some? {
      var date := AbasTimestampToTaktiq(row.ytlterm, atZone);
      if date.Err? {
        return Fail(date.error);
      }
      v.AddDate(Some(date.value), Some(PlanLocation), Some(PlanKind));
    }
    return Pass;
  }

  /** A date that fails to convert ends the whole pass with its exception. */
  lemma {:induction false} ScanErrorSticky(rows: seq<Row>, n: nat, vehicle: Product, artnr: Option<Product>, atZone: LocalDateTime -> Zoned)
    requires n <= |rows|
    requires ScanRows(rows[..n], vehicle, artnr, atZone).Err?
    ensures ScanRows(rows, vehicle, artnr, atZone) == ScanRows(rows[..n], vehicle, artnr, atZone)
    decreases |rows| - n
  {
    if n < |rows| {
      assert rows[..n + 1][..n] == rows[..n];
      ScanErrorSticky(rows, n + 1, vehicle, artnr, atZone);
    } else {
      assert rows[..n] == rows;
    }
  }

  // ---------------------------------------------------------------------------
  // What the pass computes, stated independently of the loop

  /** The index of the last row that opens the vehicle's block. */
  function LastOpening(rows: seq<Row>, vehicle: Product): (r: Option<nat>)
    ensures r.Some? ==> r.value < |rows| && Opens(rows[r.value], vehicle)
    ensures r.Some? ==> forall j :: r.value < j < |rows| ==> !Opens(rows[j], vehicle)
    ensures r.None? ==> forall j :: 0 <= j < |rows| ==> !Opens(rows[j], vehicle)
  {
    if rows == [] then None
    else if Opens(rows[|rows| - 1], vehicle) then Some(|rows| - 1)
    else LastOpening(rows[..|rows| - 1], vehicle)
  }

  predicate NoBoundary(rows: seq<Row>) {
    forall j :: 0 <= j < |rows| ==> !IsBoundary(rows[j])
  }

  /** The option codes of the rows before the first boundary. */
  function TailCodes(rows: seq<Row>): seq<Option<string>> {
    if rows == [] || IsBoundary(rows[0]) then [] else Codes(rows[0].option) + TailCodes(rows[1..])
  }

  /** The features of the vehicle's last block: the opening row's decor,
      then its option, then the options of the rows up to the next boundary. */
  function BlockFeatures(rows: seq<Row>, vehicle: Product): seq<Option<string>> {
    match LastOpening(rows, vehicle)
    case None => []
    case Some(k) => Codes(rows[k].decor) + Codes(rows[k].option) + TailCodes(rows[k + 1..])
  }

  /** The block is open after the rows when the vehicle's block was opened
      and no boundary followed. */
  predicate InBlockAfter(rows: seq<Row>, vehicle: Product) {
    match LastOpening(rows, vehicle)
    case None => false
    case Some(k) => NoBoundary(rows[k + 1..])
  }

  /** The planned dates of all opening rows that carry a date, in row
      order, whichever block they open. */
  function PlannedDates(rows: seq<Row>, vehicle: Product, atZone: LocalDateTime -> Zoned): Result<seq<DateEntry>> {
    if rows == [] then Ok([])
    else match PlannedDates(rows[..|rows| - 1], vehicle, atZone)
      case Err(e) => Err(e)
      case Ok(ds) =>
        var row := rows[|rows| - 1];
        if !(Opens(row, vehicle) && row.ytlterm.Some?) then Ok(ds)
        else match PlannedDate(row, atZone)
          case Err(e) => Err(e)
          case Ok(d) => Ok(ds + [d])
  }

  lemma {:induction false} TailCodesInside(xs: seq<Row>, row: Row)
    requires NoBoundary(xs) && !IsBoundary(row)
    ensures TailCodes(xs + [row]) == TailCodes(xs) + Codes(row.option)
  {
    if xs != [] {
      assert (xs + [row])[1..] == xs[1..] + [row];
      TailCodesInside(xs[1..], row);
    } else {
      assert [row][1..] == [];
    }
  }

  lemma {:induction false} TailCodesClosed(xs: seq<Row>, row: Row)
    requires !NoBoundary(xs) || IsBoundary(row)
    ensures TailCodes(xs + [row]) == TailCodes(xs)
  {
    if xs != [] && !IsBoundary(xs[0]) {
      assert (xs + [row])[1..] == xs[1..] + [row];
      TailCodesClosed(xs[1..], row);
    }
  }

  /** The step rules of the pass: a boundary row sets the flag (open when
      it is the vehicle's own, closed otherwise), an empty one keeps it; an
      opening row restarts the accumulator with its decor code before its
      option code; rows inside the block add their option code; rows outside
      change nothing. */
  lemma StepRules(sc: Scan, row: Row, vehicle: Product, artnr: Option<Product>, atZone: LocalDateTime -> Zoned)
    requires Step(sc, row, vehicle, artnr, atZone).Ok?
    ensures var next := Step(sc, row, vehicle, artnr, atZone).value;
      && next.inBlock == (if IsBoundary(row) then Opens(row, vehicle) else sc.inBlock)
      && (Opens(row, vehicle) ==> next.future == Codes(row.decor) + Codes(row.option))
      && (!IsBoundary(row) && sc.inBlock ==> next.future == sc.future + Codes(row.option) && next.record == sc.record)
      && (!next.inBlock ==> next.future == sc.future && next.record == sc.record)
  {
  }

  /** The accumulator after the pass holds exactly the features of the
      vehicle's last block, and the flag says whether that block is still
      open: every opening row discards what earlier blocks collected. */
  lemma {:induction false} ScanFeatures(rows: seq<Row>, vehicle: Product, artnr: Option<Product>, atZone: LocalDateTime -> Zoned)
    requires ScanRows(rows, vehicle, artnr, atZone).Ok?
    ensures ScanRows(rows, vehicle, artnr, atZone).value.future == BlockFeatures(rows, vehicle)
    ensures ScanRows(rows, vehicle, artnr, atZone).value.inBlock == InBlockAfter(rows, vehicle)
  {
    if rows != [] {
      var pre, row := rows[..|rows| - 1], rows[|rows| - 1];
      assert rows == pre + [row];
      ScanFeatures(pre, vehicle, artnr, atZone);
      var sc := ScanRows(pre, vehicle, artnr, atZone).value;
      StepRules(sc, row, vehicle, artnr, atZone);
      var next := Step(sc, row, vehicle, artnr, atZone).value;
      BlockStep(pre, row, vehicle, sc.inBlock, sc.future, next.inBlock, next.future);
    }
  }

  /** One row extends `BlockFeatures` and `InBlockAfter` as the step rules
      extend the accumulator and the flag. */
  lemma BlockStep(pre: seq<Row>, row: Row, vehicle: Product,
                  inBlock: bool, future: seq<Option<string>>, nextIn: bool, nextFuture: seq<Option<string>>)
    requires future == BlockFeatures(pre, vehicle) && inBlock == InBlockAfter(pre, vehicle)
    requires nextIn == (if IsBoundary(row) then Opens(row, vehicle) else inBlock)
    requires Opens(row, vehicle) ==> nextFuture == Codes(row.decor) + Codes(row.option)
    requires !IsBoundary(row) && inBlock ==> nextFuture == future + Codes(row.option)
    requires !nextIn ==> nextFuture == future
    ensures nextFuture == BlockFeatures(pre + [row], vehicle)
    ensures nextIn == InBlockAfter(pre + [row], vehicle)
  {
    if Opens(row, vehicle) {
      BlockStepOpens(pre, row, vehicle);
    } else {
      var rows := pre + [row];
      assert rows[..|rows| - 1] == pre;
      assert LastOpening(rows, vehicle) == LastOpening(pre, vehicle);
      if LastOpening(pre, vehicle).Some? {
        BlockStepInside(pre, row, vehicle, LastOpening(pre, vehicle).value);
      }
    }
  }

  /** An opening row starts a new block. */
  lemma BlockStepOpens(pre: seq<Row>, row: Row, vehicle: Product)
    requires Opens(row, vehicle)
    ensures BlockFeatures(pre + [row], vehicle) == Codes(row.decor) + Codes(row.option)
    ensures InBlockAfter(pre + [row], vehicle)
  {
    var rows := pre + [row];
    assert LastOpening(rows, vehicle) == Some(|pre|);
    assert rows[|rows|..] == [];
  }

  /** A row that does not open the block, after an earlier opening row at `k`. */
  lemma BlockStepInside(pre: seq<Row>, row: Row, vehicle: Product, k: nat)
    requires k < |pre|
    ensures var rows := pre + [row];
      && (!IsBoundary(row) && NoBoundary(pre[k + 1..]) ==>
            TailCodes(rows[k + 1..]) == TailCodes(pre[k + 1..]) + Codes(row.option) && NoBoundary(rows[k + 1..]))
      && (IsBoundary(row) || !NoBoundary(pre[k + 1..]) ==>
            TailCodes(rows[k + 1..]) == TailCodes(pre[k + 1..]) && !NoBoundary(rows[k + 1..]))
  {
    var rows := pre + [row];
    var tail := pre[k + 1..];
    assert rows[k + 1..] == tail + [row];
    if !IsBoundary(row) && NoBoundary(tail) {
      TailCodesInside(tail, row);
    } else {
      TailCodesClosed(tail, row);
      if IsBoundary(row) {
        assert IsBoundary(rows[k + 1..][|tail|]);
      } else {
        var j :| 0 <= j < |tail| && IsBoundary(tail[j]);
        assert IsBoundary(rows[k + 1..][j]);
      }
    }
  }

  /** Dates are never reset: the record gets the planned date of every
      opening row that has one, over all blocks; the pass fails exactly when
      one of those dates fails to convert. */
  lemma {:induction false} ScanDates(rows: seq<Row>, vehicle: Product, artnr: Option<Product>, atZone: LocalDateTime -> Zoned)
    ensures ScanRows(rows, vehicle, artnr, atZone).Ok? <==> PlannedDates(rows, vehicle, atZone).Ok?
    ensures ScanRows(rows, vehicle, artnr, atZone).Ok? ==>
      ScanRows(rows, vehicle, artnr, atZone).value.record.dates == PlannedDates(rows, vehicle, atZone).value
    ensures ScanRows(rows, vehicle, artnr, atZone).Err? ==>
      ScanRows(rows, vehicle, artnr, atZone).error == PlannedDates(rows, vehicle, atZone).error
  {
    if rows != [] {
      ScanDates(rows[..|rows| - 1], vehicle, artnr, atZone);
    }
  }

  /** The record's scalar fields after the pass: the order number (and its
      series) when some row opened the block and the id has nine
      characters, model and description from the plan's article when some
      row opened the block; the record's own feature list stays empty. */
  lemma {:induction false} ScanRecordFields(rows: seq<Row>, vehicle: Product, artnr: Option<Product>, atZone: LocalDateTime -> Zoned)
    requires ScanRows(rows, vehicle, artnr, atZone).Ok?
    ensures var r := ScanRows(rows, vehicle, artnr, atZone).value.record;
      var hasOpening := LastOpening(rows, vehicle).Some?;
      var accepted := hasOpening && vehicle.idno.Some? && |vehicle.idno.value| == 9;
      && r.features == []
      && r.orderNumber == (if accepted then vehicle.idno else None)
      && r.seriesNumber == (if accepted then Some(vehicle.idno.value[..4]) else None)
      && r.model == (if hasOpening && artnr.Some? then artnr.value.kurzwort else None)
      && r.description == r.model
  {
    if rows != [] {
      var pre := rows[..|rows| - 1];
      ScanRecordFields(pre, vehicle, artnr, atZone);
      if !Opens(rows[|rows| - 1], vehicle) {
        assert LastOpening(rows, vehicle) == LastOpening(pre, vehicle);
      }
    }
  }

  // ---------------------------------------------------------------------------
  // buildVehicle

  /** A plan for another line returns the new record at once: no order
      number and an empty feature list, since `setFeaturesList` is never
      reached. */
  lemma BandMismatchKeepsBlank(vehicle: Product, productionLineNumber: Option<int>, plan: Option<ProdPlan>, atZone: LocalDateTime -> Zoned)
    requires vehicle.isVehicle && plan.Some? && Some(plan.value.band) != productionLineNumber
    ensures BuildSpec(vehicle, productionLineNumber, plan, atZone) == Ok(Blank)
    ensures BuildSpec(vehicle, productionLineNumber, plan, atZone).value.features == []
  {
  }

  /** A product that is no vehicle, or one without a plan, still gets
      `setFeaturesList`: its features are just the unset series number. */
  lemma NoPlanOnlySeries(vehicle: Product, productionLineNumber: Option<int>, plan: Option<ProdPlan>, atZone: LocalDateTime -> Zoned)
    requires !vehicle.isVehicle || plan.None?
    ensures BuildSpec(vehicle, productionLineNumber, plan, atZone) == Ok(Blank.(features := [None]))
  {
  }

  /** The record built from a plan of the right line: the features of the
      vehicle's last block followed by exactly one trailing series number,
      the planned dates of all its opening rows, the order number through
      the nine-character guard. */
  lemma BuildFromPlan(vehicle: Product, productionLineNumber: Option<int>, plan: Option<ProdPlan>, atZone: LocalDateTime -> Zoned)
    requires vehicle.isVehicle && plan.Some? && Some(plan.value.band) == productionLineNumber
    ensures var b := BuildSpec(vehicle, productionLineNumber, plan, atZone);
      var rows := plan.value.rows;
      && (b.Ok? <==> PlannedDates(rows, vehicle, atZone).Ok?)
      && (b.Err? ==> b.error == PlannedDates(rows, vehicle, atZone).error)
      && (b.Ok? ==>
            && b.value.features == BlockFeatures(rows, vehicle) + [b.value.seriesNumber]
            && b.value.dates == PlannedDates(rows, vehicle, atZone).value
            && (b.value.orderNumber.Some? <==>
                  LastOpening(rows, vehicle).Some? && vehicle.idno.Some? && |vehicle.idno.value| == 9)
            && (b.value.orderNumber.Some? ==> b.value.orderNumber == vehicle.idno)
            && b.value.seriesNumber == (if b.value.orderNumber.Some? then Some(b.value.orderNumber.value[..4]) else None))
  {
    var p := plan.value;
    ScanDates(p.rows, vehicle, p.artnr, atZone);
    if ScanRows(p.rows, vehicle, p.artnr, atZone).Ok? {
      ScanFeatures(p.rows, vehicle, p.artnr, atZone);
      ScanRecordFields(p.rows, vehicle, p.artnr, atZone);
    }
  }

  /** The rows [A, (option X), B, (option Y)] for vehicle A: X is collected,
      Y is not, because the block closes at row B. */
  lemma OptionsAfterClosingIgnored(vehicle: Product, line: int, atZone: LocalDateTime -> Zoned)
    requires vehicle.isVehicle && vehicle.runningNumber == Some("A")
    ensures var x := Product(false, None, None, Some("X"), None);
      var y := Product(false, None, None, Some("Y"), None);
      var rows := [Row("A", None, None, None), Row("", None, None, Some(x)), Row("B", None, None, None), Row("", None, None, Some(y))];
      var b := BuildSpec(vehicle, Some(line), Some(ProdPlan(line, None, rows)), atZone);
      b.Ok? && Some("X") in b.value.features && Some("Y") !in b.value.features
  {
    var x := Product(false, None, None, Some("X"), None);
    var y := Product(false, None, None, Some("Y"), None);
    var rows := [Row("A", None, None, None), Row("", None, None, Some(x)), Row("B", None, None, None), Row("", None, None, Some(y))];
    var plan := Some(ProdPlan(line, None, rows));
    BuildFromPlan(vehicle, Some(line), plan, atZone);
    assert "B" != "A" && "" != "A";
    assert Opens(rows[0], vehicle) && !Opens(rows[1], vehicle) && !Opens(rows[2], vehicle) && !Opens(rows[3], vehicle);
    assert LastOpening(rows, vehicle) == Some(0);
    assert rows[1..][1..] == rows[2..] && rows[2..][0] == rows[2];
    assert TailCodes(rows[2..]) == [];
    assert TailCodes(rows[1..]) == [Some("X")];
    assert BlockFeatures(rows, vehicle) == [Some("X")];
    assert rows[..1][..0] == [] && rows[..2][..1] == rows[..1] && rows[..3][..2] == rows[..2] && rows[..3] == rows[..|rows| - 1];
    assert PlannedDates(rows[..1], vehicle, atZone) == Ok([]);
    assert PlannedDates(rows[..2], vehicle, atZone) == Ok([]);
    assert PlannedDates(rows[..3], vehicle, atZone) == Ok([]);
    assert PlannedDates(rows, vehicle, atZone) == Ok([]);
    var b := BuildSpec(vehicle, Some(line), plan, atZone);
    assert b.value.features == [Some("X"), b.value.seriesNumber];
    assert b.value.seriesNumber != Some("Y");
  }
}
