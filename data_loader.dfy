/** The spreadsheet loader (`load_excel_data`): it reshapes a wide sheet, with one
    row per district and one column per month, into long (date, district, price)
    records; it drops rows that are not districts and cells that do not convert;
    and it sorts the records by district, then date. Reading the workbook and the
    pandas converters are outside the model: they are given as values. */
module DataLoader {

  import opened Wrappers
  import opened Seqs
  import opened Sorting
  import opened Strings

  /** A pandas Timestamp, by its position on the time line. */
  datatype Timestamp = Timestamp(ns: int)

  /** A cell or a column label as pandas reads it; an empty cell is NaN (`Blank`). */
  datatype Cell = Blank | Text(s: string) | Num(x: real) | Stamp(t: Timestamp)

  /** A labelled column. Cells past the end of `cells` are empty. */
  datatype Column = Column(header: Cell, cells: seq<Cell>)

  /** A data frame in column order, `height` rows tall. */
  datatype Frame = Frame(height: nat, columns: seq<Column>)

  /** What the uploader hands over: nothing, or a file that the Excel reader either
      turns into a frame or fails on (`None`). */
  datatype Upload = NoFile | File(read: Option<Frame>)

  /** The conversions the loader borrows from Python and pandas:
      `str()` of a number and of a Timestamp, `pd.to_datetime` on text (`None` when
      it raises or gives NaT) and `pd.to_numeric(errors='coerce')` on text (`None`
      for NaN). */
  datatype Converters = Converters(
    numberText: real -> string,
    stampText: Timestamp -> string,
    toDatetime: string -> Option<Timestamp>,
    toNumeric: string -> Option<real>)

  /** One row of the melted (long) table before cleaning. */
  datatype Melted = Melted(district: Cell, date: Cell, price: Cell)

  /** A melted row once its district is text. */
  datatype Row = Row(district: string, date: Cell, price: Cell)

  /** A row once its date has been parsed. */
  datatype Dated = Dated(district: string, date: Timestamp, price: Cell)

  /** One row of the loader's result, with columns date, district, price. */
  datatype Record = Record(date: Timestamp, district: string, price: real)

  const DistrictHeader: Cell := Text("자치구별(2)")
  const LevelOneHeader: Cell := Text("자치구별(1)")
  /** The `value_name` of the melt. From pandas 2.0 on, `melt` raises when the
      frame already has a column with that label. */
  const PriceHeader: Cell := Text("price")
  /** The `var_name` of the melt. A district column with this label collides with
      the melted dates: both are renamed to `district`, and the district column
      can then no longer be read as one column. */
  const DateHeader: Cell := Text("date")
  const ExcludeKeywords: seq<string> := ["소계", "서울", "아파트", "nan", "전국"]

  // ---------------------------------------------------------------------------
  // Reshaping the sheet
  // ---------------------------------------------------------------------------

  /** Cell `i` of a column; rows the column does not reach read as NaN. */
  function At(cells: seq<Cell>, i: nat): Cell {
    if i < |cells| then cells[i] else Blank
  }

  function Headers(cols: seq<Column>): seq<Cell> {
    seq(|cols|, j requires 0 <= j < |cols| => cols[j].header)
  }

  /** The column that names the districts: `자치구별(2)` when the sheet has one,
      otherwise the second column; `None` when there is no second column (the
      source's `df.columns[1]` raises). */
  function DistrictColumn(headers: seq<Cell>): (r: Option<Cell>)
    ensures r.Some? ==> r.value in headers
    ensures r.None? <==> DistrictHeader !in headers && |headers| < 2
    ensures DistrictHeader in headers ==> r == Some(DistrictHeader)
    ensures DistrictHeader !in headers && |headers| >= 2 ==> r == Some(headers[1])
  {
    if DistrictHeader in headers then Some(DistrictHeader)
    else if |headers| >= 2 then Some(headers[1])
    else None
  }

  /** Removes every column labelled `h` (`df.drop(columns=[h])` when present). */
  function DropColumn(cols: seq<Column>, h: Cell): (r: seq<Column>)
    ensures h !in Headers(r)
    ensures forall c :: c in r ==> c in cols
    ensures forall c :: c in cols && c.header != h ==> c in r
  {
    var r := Filter(cols, (c: Column) => c.header != h);
    assert forall j :: 0 <= j < |r| ==> Headers(r)[j] != h by {
      forall j | 0 <= j < |r| ensures Headers(r)[j] != h {
        assert r[j] in r;
      }
    }
    r
  }

  /** The first position of `h`, as a label lookup finds it. */
  function IndexOf(headers: seq<Cell>, h: Cell): (r: Option<nat>)
    ensures r.None? <==> h !in headers
    ensures r.Some? ==> r.value < |headers| && headers[r.value] == h
    ensures r.Some? ==> forall j :: 0 <= j < r.value ==> headers[j] != h
  {
    if headers == [] then None
    else if headers[0] == h then Some(0)
    else match IndexOf(headers[1..], h)
      case None => None
      case Some(j) => Some(j + 1)
  }

  function MeltColumn(id: Column, col: Column, height: nat): seq<Melted> {
    seq(height, i requires 0 <= i < height => Melted(At(id.cells, i), col.header, At(col.cells, i)))
  }

  /** `melt(id_vars=[id])`: each value column in turn contributes one row per sheet
      row, holding that row's district cell, the column's label as the date and the
      row's cell in that column as the price. */
  function Melt(id: Column, values: seq<Column>, height: nat): (r: seq<Melted>)
    ensures |r| == |values| * height
  {
    if values == [] then []
    else MeltColumn(id, values[0], height) + Melt(id, values[1..], height)
  }

  /** The wide-to-long layout: sheet row `i` of value column `j` lands at
      position `j * height + i`. */
  lemma {:induction false} MeltAt(id: Column, values: seq<Column>, height: nat, j: nat, i: nat)
    requires j < |values| && i < height
    ensures j * height + i < |Melt(id, values, height)|
    ensures Melt(id, values, height)[j * height + i]
            == Melted(At(id.cells, i), values[j].header, At(values[j].cells, i))
  {
    if j == 0 {
    } else {
      MeltAt(id, values[1..], height, j - 1, i);
      assert j * height + i == height + ((j - 1) * height + i);
    }
  }

  /** The part of the pipeline that can raise: choosing the district column,
      dropping `자치구별(1)`, then melting on the district column, which refuses a
      frame that already has a `price` column; a district column labelled `date`
      fails once renamed. */
  function Reshape(frame: Frame): Option<seq<Melted>> {
    match DistrictColumn(Headers(frame.columns))
    case None => None
    case Some(districtCol) =>
      var kept := DropColumn(frame.columns, LevelOneHeader);
      if PriceHeader in Headers(kept) || districtCol == DateHeader then None
      else match IndexOf(Headers(kept), districtCol)
      case None => None
      case Some(id) => Some(Melt(kept[id], kept[..id] + kept[id + 1..], frame.height))
  }

  /** Reshaping fails exactly when there is no `자치구별(2)` column and either there
      is no second column or the second column is `자치구별(1)`, which is dropped
      before the melt looks for it; or when some column is labelled `price`; or
      when the second column stands in for the district column and is labelled
      `date`. */
  lemma ReshapeFails(frame: Frame)
    ensures Reshape(frame).None? <==>
      || (DistrictHeader !in Headers(frame.columns)
          && (|frame.columns| < 2 || frame.columns[1].header == LevelOneHeader))
      || PriceHeader in Headers(frame.columns)
      || (DistrictHeader !in Headers(frame.columns)
          && |frame.columns| >= 2 && frame.columns[1].header == DateHeader)
  {
    var headers := Headers(frame.columns);
    if PriceHeader in headers {
      var j :| 0 <= j < |frame.columns| && headers[j] == PriceHeader;
      KeptHeader(frame.columns, frame.columns[j]);
    } else {
      DroppedHeaders(frame.columns, PriceHeader);
      if DistrictHeader in headers {
        var j :| 0 <= j < |frame.columns| && headers[j] == DistrictHeader;
        KeptHeader(frame.columns, frame.columns[j]);
      } else if |frame.columns| >= 2 && frame.columns[1].header != LevelOneHeader {
        KeptHeader(frame.columns, frame.columns[1]);
      }
    }
  }

  /** Dropping columns brings in no label. */
  lemma DroppedHeaders(cols: seq<Column>, h: Cell)
    ensures h in Headers(DropColumn(cols, LevelOneHeader)) ==> h in Headers(cols)
  {
    var kept := DropColumn(cols, LevelOneHeader);
    if h in Headers(kept) {
      var m :| 0 <= m < |kept| && Headers(kept)[m] == h;
      assert kept[m] in kept;
      var j :| 0 <= j < |cols| && cols[j] == kept[m];
      assert Headers(cols)[j] == h;
    }
  }

  /** A column not labelled `자치구별(1)` keeps its label through the drop. */
  lemma KeptHeader(cols: seq<Column>, c: Column)
    requires c in cols && c.header != LevelOneHeader
    ensures c.header in Headers(DropColumn(cols, LevelOneHeader))
  {
    var kept := DropColumn(cols, LevelOneHeader);
    var m :| 0 <= m < |kept| && kept[m] == c;
    assert Headers(kept)[m] == c.header;
  }

  // ---------------------------------------------------------------------------
  // Cleaning the long table
  // ---------------------------------------------------------------------------

  /** Python's `str()` of a cell; NaN prints as "nan". */
  function CellText(c: Cell, conv: Converters): string {
    match c
    case Blank => "nan"
    case Text(s) => s
    case Num(x) => conv.numberText(x)
    case Stamp(t) => conv.stampText(t)
  }

  /** A district name is excluded when it contains any of the keywords. */
  predicate Excluded(district: string) {
    ContainsAny(district, ExcludeKeywords)
  }

  /** The text `parse_date` hands to `pd.to_datetime`: dots become dashes and the
      white space around it is removed. */
  function NormalizeDateText(s: string): (r: string)
    ensures |r| <= |s|
    ensures '.' !in r
  {
    var replaced := ReplaceChar(s, '.', '-');
    StripKeepsOut(replaced, '.');
    Strip(replaced)
  }

  /** `parse_date`: a Timestamp passes through; anything else is printed,
      normalised and handed to `pd.to_datetime`; a failure gives `None`. */
  function ParseDate(c: Cell, conv: Converters): (r: Option<Timestamp>)
    ensures c.Stamp? ==> r == Some(c.t)
  {
    if c.Stamp? then Some(c.t)
    else conv.toDatetime(NormalizeDateText(CellText(c, conv)))
  }

  /** `pd.to_numeric(errors='coerce')` on one price cell: numbers stay, NaN and
      Timestamps become NaN (`None`), text goes to the converter. */
  function ToNumeric(c: Cell, conv: Converters): Option<real> {
    match c
    case Num(x) => Some(x)
    case Text(s) => conv.toNumeric(s)
    case Blank => None
    case Stamp(_) => None
  }

  function TrimDistrict(m: Melted, conv: Converters): Row {
    Row(Strip(CellText(m.district, conv)), m.date, m.price)
  }

  /** Step 5-1, first half: `astype(str).str.strip()` on the district column. */
  function TrimDistricts(melted: seq<Melted>, conv: Converters): (r: seq<Row>)
    ensures |r| == |melted|
    ensures forall i :: 0 <= i < |melted| ==> r[i] == TrimDistrict(melted[i], conv)
  {
    seq(|melted|, i requires 0 <= i < |melted| => TrimDistrict(melted[i], conv))
  }

  /** What trimming does to each row: the district becomes the printed cell with
      the white space around it removed, so neither of its ends is white space,
      and date and price are carried over. */
  lemma TrimmedRows(melted: seq<Melted>, conv: Converters)
    ensures var r := TrimDistricts(melted, conv);
            && |r| == |melted|
            && (forall i :: 0 <= i < |r| ==> r[i].date == melted[i].date && r[i].price == melted[i].price)
            && (forall i :: 0 <= i < |r| ==> StrippedFrom(CellText(melted[i].district, conv), r[i].district))
  {
    var r := TrimDistricts(melted, conv);
    forall i | 0 <= i < |r| ensures StrippedFrom(CellText(melted[i].district, conv), r[i].district) {
      TrimmedRow(melted[i], conv);
    }
  }

  /** One row: its trimmed district is its printed cell stripped of white space. */
  lemma TrimmedRow(m: Melted, conv: Converters)
    ensures StrippedFrom(CellText(m.district, conv), TrimDistrict(m, conv).district)
  {
    var s := CellText(m.district, conv);
    TrimmedPadded(s);
    assert PaddedAt(s, TrimDistrict(m, conv).district, |s| - |TrimStart(s)|);
  }

  predicate Kept(r: Row) {
    !Excluded(r.district)
  }

  /** Step 5-1, second half: the keyword mask. A row is kept exactly when its
      district contains none of the keywords. */
  function KeepDistricts(rows: seq<Row>): (r: seq<Row>)
    ensures forall x :: x in r <==> x in rows && !Excluded(x.district)
  {
    Filter(rows, Kept)
  }

  function DateRow(r: Row, conv: Converters): Option<Dated> {
    var t := ParseDate(r.date, conv);
    if t.Some? then Some(Dated(r.district, t.value, r.price)) else None
  }

  /** Step 5-2: `apply(parse_date)` then `dropna(subset=['date'])`. */
  function ParseDates(rows: seq<Row>, conv: Converters): (r: seq<Dated>)
    ensures forall x :: x in rows && DateRow(x, conv).Some? ==> DateRow(x, conv).value in r
    ensures forall d :: d in r ==> exists x :: x in rows && DateRow(x, conv) == Some(d)
  {
    Collect(rows, DateParser(conv))
  }

  /** `parse_date` applied to a row's date, as a function of the row. */
  function DateParser(conv: Converters): Row -> Option<Dated> {
    (x: Row) => DateRow(x, conv)
  }

  function PriceRow(d: Dated, conv: Converters): Option<Record> {
    var p := ToNumeric(d.price, conv);
    if p.Some? then Some(Record(d.date, d.district, p.value)) else None
  }

  /** Step 5-3: `pd.to_numeric(errors='coerce')` then `dropna(subset=['price'])`,
      projected onto the columns date, district, price. */
  function ParsePrices(dated: seq<Dated>, conv: Converters): (r: seq<Record>)
    ensures forall d :: d in dated && PriceRow(d, conv).Some? ==> PriceRow(d, conv).value in r
    ensures forall x :: x in r ==> exists d :: d in dated && PriceRow(d, conv) == Some(x)
  {
    Collect(dated, PriceParser(conv))
  }

  /** `pd.to_numeric` applied to a row's price, as a function of the row. */
  function PriceParser(conv: Converters): Dated -> Option<Record> {
    (d: Dated) => PriceRow(d, conv)
  }

  /** Steps 5-1 to 5-3 in order, before the final sort. */
  function Clean(melted: seq<Melted>, conv: Converters): seq<Record> {
    ParsePrices(ParseDates(KeepDistricts(TrimDistricts(melted, conv)), conv), conv)
  }

  /** What one melted row becomes, if it survives: its trimmed district is not
      excluded, its date parses and its price converts. */
  predicate Survives(m: Melted, conv: Converters, x: Record) {
    var district := Strip(CellText(m.district, conv));
    && !Excluded(district)
    && x.district == district
    && ParseDate(m.date, conv) == Some(x.date)
    && ToNumeric(m.price, conv) == Some(x.price)
  }

  /** A row the keyword mask keeps is the trimmed form of some melted row. */
  lemma KeptFrom(melted: seq<Melted>, conv: Converters, r: Row)
    requires r in KeepDistricts(TrimDistricts(melted, conv))
    ensures !Excluded(r.district)
    ensures exists i :: 0 <= i < |melted| && r == TrimDistrict(melted[i], conv)
  {
    var rows := TrimDistricts(melted, conv);
    assert r in rows;
    var i :| 0 <= i < |rows| && rows[i] == r;
  }

  /** Every cleaned row comes from a melted row that survives as it. */
  lemma CleanedSurvives(melted: seq<Melted>, conv: Converters, x: Record)
    requires x in Clean(melted, conv)
    ensures exists i :: 0 <= i < |melted| && Survives(melted[i], conv, x)
  {
    var kept := KeepDistricts(TrimDistricts(melted, conv));
    var dated := ParseDates(kept, conv);
    var d :| d in dated && PriceRow(d, conv) == Some(x);
    var r :| r in kept && DateRow(r, conv) == Some(d);
    KeptFrom(melted, conv, r);
    var i :| 0 <= i < |melted| && r == TrimDistrict(melted[i], conv);
    StagesSurvive(melted[i], conv, r, d, x);
  }

  lemma StagesSurvive(m: Melted, conv: Converters, r: Row, d: Dated, x: Record)
    requires r == TrimDistrict(m, conv) && !Excluded(r.district)
    requires DateRow(r, conv) == Some(d) && PriceRow(d, conv) == Some(x)
    ensures Survives(m, conv, x)
  {
  }

  /** Every melted row that survives is in the cleaned rows. */
  lemma SurvivorCleaned(melted: seq<Melted>, conv: Converters, x: Record, i: int)
    requires 0 <= i < |melted| && Survives(melted[i], conv, x)
    ensures x in Clean(melted, conv)
  {
    var rows := TrimDistricts(melted, conv);
    var kept := KeepDistricts(rows);
    var r := rows[i];
    assert r in rows;
    assert r in kept;
    var d := Dated(x.district, x.date, melted[i].price);
    assert DateRow(r, conv) == Some(d);
    var dated := ParseDates(kept, conv);
    assert d in dated;
    assert PriceRow(d, conv) == Some(x);
  }

  /** The cleaned rows are exactly the survivors of the melted rows. */
  lemma CleanContents(melted: seq<Melted>, conv: Converters, x: Record)
    ensures x in Clean(melted, conv) <==> exists i :: 0 <= i < |melted| && Survives(melted[i], conv, x)
  {
    if x in Clean(melted, conv) {
      CleanedSurvives(melted, conv, x);
    }
    if exists i :: 0 <= i < |melted| && Survives(melted[i], conv, x) {
      var i :| 0 <= i < |melted| && Survives(melted[i], conv, x);
      SurvivorCleaned(melted, conv, x, i);
    }
  }

  /** Cleaning keeps the relative order of the rows it keeps: cleaning a
      concatenation cleans each part. */
  lemma CleanConcat(a: seq<Melted>, b: seq<Melted>, conv: Converters)
    ensures Clean(a + b, conv) == Clean(a, conv) + Clean(b, conv)
  {
    var ta, tb := TrimDistricts(a, conv), TrimDistricts(b, conv);
    TrimDistrictsConcat(a, b, conv);
    var ka, kb := KeepDistricts(ta), KeepDistricts(tb);
    FilterConcat(ta, tb, Kept);
    assert KeepDistricts(TrimDistricts(a + b, conv)) == ka + kb;
    var da, db := ParseDates(ka, conv), ParseDates(kb, conv);
    CollectConcat(ka, kb, DateParser(conv));
    assert ParseDates(ka + kb, conv) == da + db;
    CollectConcat(da, db, PriceParser(conv));
    assert ParsePrices(da + db, conv) == ParsePrices(da, conv) + ParsePrices(db, conv);
  }

  /** Trimming works row by row, so it distributes over concatenation. */
  lemma TrimDistrictsConcat(a: seq<Melted>, b: seq<Melted>, conv: Converters)
    ensures TrimDistricts(a + b, conv) == TrimDistricts(a, conv) + TrimDistricts(b, conv)
  {
  }

  /** An empty district cell prints as "nan", which is an excluded keyword, so such
      a row never survives. */
  lemma BlankDistrictDropped(m: Melted, conv: Converters, x: Record)
    requires m.district.Blank?
    ensures !Survives(m, conv, x)
  {
    assert Strip("nan") == "nan";
    assert Contains("nan", ExcludeKeywords[3]);
  }

  // ---------------------------------------------------------------------------
  // Sorting and the whole loader
  // ---------------------------------------------------------------------------

  /** The order of `sort_values(by=['district', 'date'])`. */
  predicate RecordLe(a: Record, b: Record) {
    if a.district == b.district then a.date.ns <= b.date.ns
    else LexLe(a.district, b.district)
  }

  lemma RecordLeTotalPreorder()
    ensures TotalPreorder(RecordLe)
  {
    forall a, b ensures RecordLe(a, b) || RecordLe(b, a) {
      LexLeTotal(a.district, b.district);
    }
    forall a, b, c | RecordLe(a, b) && RecordLe(b, c) ensures RecordLe(a, c) {
      if a.district != b.district && b.district != c.district {
        LexLeTransitive(a.district, b.district, c.district);
        if a.district == c.district {
          LexLeAntisymmetric(a.district, b.district);
        }
      }
    }
  }

  /** `load_excel_data`. No upload gives `None`; so does any failure inside the
      pipeline, because every exception is caught and turned into `None`: an
      unreadable file, no usable district column, or an empty long table. On an
      empty long table the keyword mask is an empty Series of object dtype, which
      pandas does not take as a boolean mask; indexing with it selects no
      columns, and the lookup of the `date` column raises. A result is sorted by
      district then date, and every district in it is trimmed and not excluded. */
  function LoadExcelData(upload: Upload, conv: Converters): (r: Option<seq<Record>>)
    ensures upload.NoFile? ==> r.None?
    ensures upload.File? && upload.read.None? ==> r.None?
    ensures upload.File? && upload.read.Some? ==>
              (r.None? <==> Reshape(upload.read.value).None? || Reshape(upload.read.value).value == [])
    ensures r.Some? ==> SortedBy(r.value, RecordLe)
    ensures r.Some? ==> forall x :: x in r.value ==> x.district == Strip(x.district) && !Excluded(x.district)
  {
    match upload
    case NoFile => None
    case File(read) =>
      match read
      case None => None
      case Some(frame) =>
        match Reshape(frame)
        case None => None
        case Some(melted) =>
          if melted == [] then None
          else
          var cleaned := Clean(melted, conv);
          var out := SortBy(cleaned, RecordLe);
          RecordLeTotalPreorder();
          SortBySorted(cleaned, RecordLe);
          assert forall x :: x in out ==> x.district == Strip(x.district) && !Excluded(x.district) by {
            forall x | x in out ensures x.district == Strip(x.district) && !Excluded(x.district) {
              assert x in multiset(cleaned);
              CleanContents(melted, conv, x);
              var i :| 0 <= i < |melted| && Survives(melted[i], conv, x);
              StripIdempotent(CellText(melted[i].district, conv));
            }
          }
          Some(out)
  }

  /** A sheet with a header row and no data rows melts to an empty table, so
      loading it fails. */
  lemma NoDataRowsFails(frame: Frame, conv: Converters)
    requires frame.height == 0
    ensures LoadExcelData(File(Some(frame)), conv).None?
  {
    if Reshape(frame).Some? {
      var districtCol := DistrictColumn(Headers(frame.columns)).value;
      var kept := DropColumn(frame.columns, LevelOneHeader);
      var id := IndexOf(Headers(kept), districtCol).value;
      assert |Reshape(frame).value| == |kept[..id] + kept[id + 1..]| * 0;
    }
  }

  /** A sheet without a `자치구별(2)` column whose second column is labelled `date`
      does not load. */
  lemma DateColumnFails(frame: Frame, conv: Converters)
    requires DistrictHeader !in Headers(frame.columns)
    requires |frame.columns| >= 2 && frame.columns[1].header == DateHeader
    ensures LoadExcelData(File(Some(frame)), conv).None?
  {
    ReshapeFails(frame);
  }

  /** A sheet that already has a `price` column does not load. */
  lemma PriceColumnFails(frame: Frame, conv: Converters)
    requires PriceHeader in Headers(frame.columns)
    ensures LoadExcelData(File(Some(frame)), conv).None?
  {
    ReshapeFails(frame);
  }

  /** Loading a sheet that melts to a non-empty table succeeds; the result is a
      permutation of the cleaned rows, and a record is in it exactly when some
      melted row survives cleaning as that record. */
  lemma LoadExcelDataContents(frame: Frame, conv: Converters, x: Record)
    requires Reshape(frame).Some? && Reshape(frame).value != []
    ensures LoadExcelData(File(Some(frame)), conv).Some?
    ensures multiset(LoadExcelData(File(Some(frame)), conv).value)
            == multiset(Clean(Reshape(frame).value, conv))
    ensures x in LoadExcelData(File(Some(frame)), conv).value <==>
            exists i :: 0 <= i < |Reshape(frame).value| && Survives(Reshape(frame).value[i], conv, x)
  {
    var melted := Reshape(frame).value;
    var out := LoadExcelData(File(Some(frame)), conv).value;
    assert x in out <==> x in multiset(out);
    assert x in Clean(melted, conv) <==> x in multiset(Clean(melted, conv));
    CleanContents(melted, conv, x);
  }
}
