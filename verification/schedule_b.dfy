/**
 * The quarterly Schedule B extractor (`extract_sch_b`): one fixed data row
 * of the "Sch B" sheet, read through a fixed column-to-metric table; each
 * cell is turned into text, stripped of everything but digits, '.' and '-',
 * and parsed, a failed parse giving 0. A missing sheet, a sheet under 20
 * rows, or a row too short for the table yields None ("no data").
 */
module ScheduleB {
  import opened Frames
  import opened Series

  const SheetName: string := "Sch B"
  /** Zero-based index of the data row. */
  const DataRow: nat := 19
  /** Fewer rows than this and the sheet has no data row. */
  const MinRows: nat := 20
  /** The rightmost column the table reads. */
  const LastColumn: nat := 54

  /** One entry of the position table: a column index and the metric it holds. */
  datatype Column = Column(index: nat, name: string)

  /** The position table, in the order `extract_sch_b` lists it. */
  const ColMap: seq<Column> := [
    Column(4, "Sch C1 People # Loans (LMI Borrowers)"),
    Column(6, "Sch C1 People $ Volume (LMI Borrowers)"),
    Column(8, "Sch C1 People # Loans (Other Targeted Populations)"),
    Column(10, "Sch C1 People $ Volume (Other Targeted Populations)"),
    Column(12, "Sch C1 People # Loans (Low Income Borrowers Deep)"),
    Column(14, "Sch C1 People $ Volume (Low Income Borrowers Deep)"),
    Column(16, "Sch C1 People # Loans (Mortgage Lending Other Deep)"),
    Column(18, "Sch C1 People $ Volume (Mortgage Lending Other Deep)"),
    Column(52, "Sch C2 Business # Loans"),
    Column(54, "Sch C2 Business $ Volume"),
    Column(20, "Sch D1 Rural # Loans"),
    Column(22, "Sch D1 Rural $ Volume"),
    Column(24, "Sch D2 Urban # Loans"),
    Column(26, "Sch D2 Urban $ Volume"),
    Column(28, "Sch D3 Underserved # Loans"),
    Column(30, "Sch D3 Underserved $ Volume"),
    Column(32, "Sch D4 Minority # Loans"),
    Column(34, "Sch D4 Minority $ Volume"),
    Column(36, "Sch D5 Poverty # Loans"),
    Column(38, "Sch D5 Poverty $ Volume"),
    Column(40, "Sch D6 Reserv # Loans"),
    Column(42, "Sch D6 Reserv $ Volume"),
    Column(44, "Sch D7 Terr or PR # Loans"),
    Column(46, "Sch D7 Terr or PR $ Volume")
  ]

  /** The metric names of a table. */
  function NamesOf(cols: seq<Column>): set<string>
  {
    if |cols| == 0 then {} else NamesOf(cols[..|cols| - 1]) + {cols[|cols| - 1].name}
  }

  /** The 24 metric names of the position table. */
  function Names(): set<string>
  {
    NamesOf(ColMap)
  }

  // ---------------------------------------------------------------------
  // Cell cleaning

  /** The characters the cleaning keeps: digits, '.' and '-'. */
  predicate Allowed(ch: char) { IsDigit(ch) || ch == '.' || ch == '-' }

  /** `.replace(r"[^0-9.-]", "", regex=True)`. */
  function Clean(s: string): string
  {
    if |s| == 0 then ""
    else Clean(s[..|s| - 1]) + (if Allowed(s[|s| - 1]) then [s[|s| - 1]] else "")
  }

  /** `r` is `s` with some characters left out, the rest kept in order. */
  predicate IsSubsequence(r: string, s: string)
  {
    if |r| == 0 then true
    else if |s| == 0 then false
    else if r[|r| - 1] == s[|s| - 1] then IsSubsequence(r[..|r| - 1], s[..|s| - 1])
    else IsSubsequence(r, s[..|s| - 1])
  }

  lemma {:induction false} CleanOnlyAllowed(s: string)
    ensures forall i :: 0 <= i < |Clean(s)| ==> Allowed(Clean(s)[i])
    ensures |Clean(s)| <= |s|
  {
    if |s| > 0 {
      CleanOnlyAllowed(s[..|s| - 1]);
    }
  }

  /** Each allowed character occurs as often as in the input; no other character occurs. */
  lemma {:induction false} CleanKeepsAllowedCounts(s: string, ch: char)
    ensures multiset(Clean(s))[ch] == if Allowed(ch) then multiset(s)[ch] else 0
  {
    if |s| > 0 {
      CleanKeepsAllowedCounts(s[..|s| - 1], ch);
      assert s == s[..|s| - 1] + [s[|s| - 1]];
      assert multiset(s) == multiset(s[..|s| - 1]) + multiset{s[|s| - 1]};
    }
  }

  /** Cleaning distributes over concatenation. */
  lemma {:induction false} CleanAppend(a: string, b: string)
    ensures Clean(a + b) == Clean(a) + Clean(b)
  {
    if |b| == 0 {
      assert a + b == a;
    } else {
      CleanAppend(a, b[..|b| - 1]);
      assert (a + b)[..|a + b| - 1] == a + b[..|b| - 1];
    }
  }

  /** A text made of allowed characters only is left as it is. */
  lemma {:induction false} CleanKeepsAllowedText(s: string)
    requires forall i :: 0 <= i < |s| ==> Allowed(s[i])
    ensures Clean(s) == s
  {
    if |s| > 0 {
      CleanKeepsAllowedText(s[..|s| - 1]);
    }
  }

  /** Cleaning twice is cleaning once. */
  lemma CleanIdempotent(s: string)
    ensures Clean(Clean(s)) == Clean(s)
  {
    CleanOnlyAllowed(s);
    CleanKeepsAllowedText(Clean(s));
  }

  /** The cleaned text is an in-order subsequence of the original. */
  lemma {:induction false} CleanIsSubsequence(s: string)
    ensures IsSubsequence(Clean(s), s)
  {
    if |s| > 0 {
      var p := s[..|s| - 1];
      CleanIsSubsequence(p);
      CleanOnlyAllowed(p);
      if Allowed(s[|s| - 1]) {
        assert Clean(s)[..|Clean(s)| - 1] == Clean(p);
      } else {
        assert Clean(s) == Clean(p);
        if |Clean(p)| > 0 {
          assert Allowed(Clean(p)[|Clean(p)| - 1]);
        }
      }
    }
  }

  // ---------------------------------------------------------------------
  // One cell

  /**
   * `.astype(str)` on one cell: NaN becomes "nan", text stays as it is, and
   * a number is rendered by `toText`, which stands for Python's `str` on a
   * float.
   */
  function CellText(c: Cell, toText: real -> string): string
  {
    match c
    case Empty => "nan"
    case Num(v) => toText(v)
    case Text(s) => s
  }

  /** Clean, `pd.to_numeric(errors="coerce")`, then `fillna(0)`. */
  function CellValue(c: Cell, toText: real -> string): real
  {
    match ParseDecimal(Clean(CellText(c, toText)))
    case Some(v) => v
    case None => 0.0
  }

  lemma ParseThousands()
    ensures ParseDecimal("1234.50") == Some(1234.5)
  {
    assert DotIndex("1234.50") == 4;
    assert "1234.50"[..4] == "1234";
    assert "1234.50"[5..] == "50";
    ThousandsDigits();
    assert "50"[..1] == "5" && DigitsValue("5") == 5;
    assert AllDigits("50") && DigitsValue("50") == 50;
    assert Pow10(2) == 100;
    assert ParseUnsigned("1234.50") == Some(1234.0 + 50.0 / 100.0);
  }

  lemma ThousandsDigits()
    ensures AllDigits("1234") && DigitsValue("1234") == 1234
  {
    assert "1234"[..3] == "123" && "123"[..2] == "12" && "12"[..1] == "1";
    assert DigitsValue("1") == 1 && DigitsValue("12") == 12 && DigitsValue("123") == 123;
  }

  lemma ParseNegative()
    ensures ParseDecimal("-56") == Some(-56.0)
  {
    assert "-56"[1..] == "56";
    assert DotIndex("56") == 2 && "56"[..2] == "56";
    assert "56"[..1] == "5" && DigitsValue("5") == 5;
    assert DigitsValue("56") == 56;
  }

  lemma CleanBlanks()
    ensures Clean(" -56 ") == "-56"
  {
    assert " -56 "[..4] == " -56" && " -56"[..3] == " -5" && " -5"[..2] == " -" && " -"[..1] == " ";
    assert Clean(" ") == "" && Clean(" -") == "-" && Clean(" -5") == "-5" && Clean(" -56") == "-56";
  }

  lemma CleanDollars()
    ensures Clean("$1,234.50") == "1234.50"
  {
    assert Clean("$") == "";
    assert "$1"[..1] == "$";
    assert Clean("$1") == "1";
    assert "$1,"[..2] == "$1";
    assert Clean("$1,") == "1";
    assert "$1,2"[..3] == "$1,";
    assert Clean("$1,2") == "12";
    assert "$1,23"[..4] == "$1,2";
    assert Clean("$1,23") == "123";
    assert "$1,234"[..5] == "$1,23";
    assert Clean("$1,234") == "1234";
    assert "$1,234."[..6] == "$1,234";
    assert Clean("$1,234.") == "1234.";
    assert "$1,234.5"[..7] == "$1,234.";
    assert Clean("$1,234.5") == "1234.5";
    assert "$1,234.50"[..8] == "$1,234.5";
    assert Clean("$1,234.50") == "1234.50";
  }

  /** Currency signs, thousands separators and blanks are stripped before parsing. */
  lemma CellValueExamples(toText: real -> string)
    ensures CellValue(Text("$1,234.50"), toText) == 1234.5
    ensures CellValue(Text(" -56 "), toText) == -56.0
  {
    CleanDollars();
    ParseThousands();
    CleanBlanks();
    ParseNegative();
  }

  /** A cell that does not parse after cleaning reads as 0, never as an error. */
  lemma CellValueFallsBackToZero(toText: real -> string)
    ensures CellValue(Empty, toText) == 0.0
    ensures CellValue(Text(""), toText) == 0.0
    ensures CellValue(Text("-"), toText) == 0.0
    ensures CellValue(Text("1.2.3"), toText) == 0.0
    ensures CellValue(Text("n/a"), toText) == 0.0
  {
    assert Clean("nan") == "";
    assert Clean("-") == "-";
    CleanKeepsAllowedText("1.2.3");
    assert Clean("n/a") == "";
    ParseRejects();
  }

  /**
   * A number cell whose rendering is a plain decimal (as Python renders a
   * whole-number float, "1234.0") is read back exactly.
   */
  lemma WholeNumberCellReadBack(n: int, toText: real -> string)
    requires toText(n as real) == IntText(n) + ".0"
    ensures CellValue(Num(n as real), toText) == n as real
  {
    var t := IntText(n) + ".0";
    IntTextAllowed(n);
    assert forall i :: 0 <= i < |t| ==> Allowed(t[i]);
    CleanKeepsAllowedText(t);
    WholeFloatTextRoundTrip(n);
  }

  lemma IntTextAllowed(n: int)
    ensures forall i :: 0 <= i < |IntText(n)| ==> Allowed(IntText(n)[i])
  {
    var m: nat := if n < 0 then -n else n;
    NatTextDigits(m);
  }

  // ---------------------------------------------------------------------
  // The extractor

  predicate ColumnsInRange(g: Grid)
  {
    forall i :: 0 <= i < |ColMap| ==> ColMap[i].index < Width(g)
  }

  /** The table reads column 54 and nothing to its right. */
  lemma ColumnsInRangeIff(g: Grid)
    ensures ColumnsInRange(g) <==> LastColumn < Width(g)
  {
    assert ColMap[9].index == LastColumn;
    assert forall i :: 0 <= i < |ColMap| ==> ColMap[i].index <= LastColumn;
  }

  /** No two table entries name the same metric. */
  lemma NamesDistinct()
    ensures forall i, j :: 0 <= i < j < |ColMap| ==> ColMap[i].name != ColMap[j].name
  {
    NamesDistinctBelow();
    NamesDistinctAbove();
    NamesDistinctAcross();
  }

  lemma NamesDistinctBelow()
    ensures forall i, j :: 0 <= i < j < 12 ==> ColMap[i].name != ColMap[j].name
  {
  }

  lemma NamesDistinctAbove()
    ensures forall i, j :: 12 <= i < j < 24 ==> ColMap[i].name != ColMap[j].name
  {
  }

  lemma NamesDistinctAcross()
    ensures forall i, j :: 0 <= i < 12 <= j < 24 ==> ColMap[i].name != ColMap[j].name
  {
  }

  /** `row.rename(index=col_map)` over the first entries of a table. */
  function Rename(g: Grid, cols: seq<Column>, toText: real -> string): Metrics
    requires DataRow < |g|
    requires forall i :: 0 <= i < |cols| ==> cols[i].index < Width(g)
  {
    if |cols| == 0 then map[]
    else
      var c := cols[|cols| - 1];
      Rename(g, cols[..|cols| - 1], toText)[c.name := CellValue(At(g, DataRow, c.index), toText)]
  }

  lemma {:induction false} RenameKeys(g: Grid, cols: seq<Column>, toText: real -> string)
    requires DataRow < |g|
    requires forall i :: 0 <= i < |cols| ==> cols[i].index < Width(g)
    ensures Rename(g, cols, toText).Keys == NamesOf(cols)
  {
    if |cols| > 0 {
      RenameKeys(g, cols[..|cols| - 1], toText);
    }
  }

  lemma {:induction false} RenameValue(g: Grid, cols: seq<Column>, toText: real -> string, i: nat)
    requires DataRow < |g|
    requires forall i :: 0 <= i < |cols| ==> cols[i].index < Width(g)
    requires forall i, j :: 0 <= i < j < |cols| ==> cols[i].name != cols[j].name
    requires i < |cols|
    ensures cols[i].name in Rename(g, cols, toText)
    ensures Rename(g, cols, toText)[cols[i].name] == CellValue(At(g, DataRow, cols[i].index), toText)
  {
    if i < |cols| - 1 {
      var p := cols[..|cols| - 1];
      RenameValue(g, p, toText, i);
      assert p[i] == cols[i];
    }
  }

  /** Each entry's metric holds the converted cell of the data row under its column. */
  predicate HoldsDataRow(m: Metrics, g: Grid, cols: seq<Column>, toText: real -> string)
  {
    forall i :: 0 <= i < |cols| ==>
      DataRow < |g| && cols[i].index < Width(g) && cols[i].name in m &&
      m[cols[i].name] == CellValue(At(g, DataRow, cols[i].index), toText)
  }

  lemma RenameReadsEveryColumn(g: Grid, cols: seq<Column>, toText: real -> string)
    requires DataRow < |g|
    requires forall i :: 0 <= i < |cols| ==> cols[i].index < Width(g)
    requires forall i, j :: 0 <= i < j < |cols| ==> cols[i].name != cols[j].name
    ensures Rename(g, cols, toText).Keys == NamesOf(cols)
    ensures HoldsDataRow(Rename(g, cols, toText), g, cols, toText)
  {
    RenameKeys(g, cols, toText);
    forall i | 0 <= i < |cols|
      ensures cols[i].name in Rename(g, cols, toText) && Rename(g, cols, toText)[cols[i].name] == CellValue(At(g, DataRow, cols[i].index), toText)
    {
      RenameValue(g, cols, toText, i);
    }
  }

  /** `extract_sch_b`: the 24 metrics of the data row, or None for no data. */
  function ExtractSchB(wb: Workbook, toText: real -> string): (r: Option<Metrics>)
    ensures r.Some? <==> SheetName in wb && |wb[SheetName]| >= MinRows && LastColumn < Width(wb[SheetName])
    ensures r.Some? ==> r.value.Keys == Names()
    ensures r.Some? ==> HoldsDataRow(r.value, wb[SheetName], ColMap, toText)
  {
    if SheetName !in wb then None
    else
      var g := wb[SheetName];
      if |g| < MinRows then None
      else
        ColumnsInRangeIff(g);
        if !ColumnsInRange(g) then None
        else
          NamesDistinct();
          RenameReadsEveryColumn(g, ColMap, toText);
          Some(Rename(g, ColMap, toText))
  }

  /** A sheet too short for the data row gives no data, not a mapping of zeros. */
  lemma ShortSheetIsNoData(wb: Workbook, toText: real -> string)
    requires SheetName in wb && |wb[SheetName]| < MinRows
    ensures ExtractSchB(wb, toText) == None
  {
  }

  /** A successful extraction has exactly 24 metrics. */
  lemma ExtractionHas24Metrics(wb: Workbook, toText: real -> string)
    requires ExtractSchB(wb, toText).Some?
    ensures |ExtractSchB(wb, toText).value| == |ColMap| == 24
  {
    NamesDistinct();
    NamesCount(ColMap);
  }

  lemma {:induction false} NamesCount(cols: seq<Column>)
    requires forall i, j :: 0 <= i < j < |cols| ==> cols[i].name != cols[j].name
    ensures |NamesOf(cols)| == |cols|
  {
    if |cols| > 0 {
      var p := cols[..|cols| - 1];
      NamesCount(p);
      NamesOfMembers(p);
      assert cols[|cols| - 1].name !in NamesOf(p);
    }
  }

  lemma {:induction false} NamesOfMembers(cols: seq<Column>)
    ensures forall x :: x in NamesOf(cols) <==> exists i :: 0 <= i < |cols| && cols[i].name == x
  {
    if |cols| > 0 {
      var p := cols[..|cols| - 1];
      NamesOfMembers(p);
      forall x | x in NamesOf(cols) ensures exists i :: 0 <= i < |cols| && cols[i].name == x {
        if x in NamesOf(p) {
          var i :| 0 <= i < |p| && p[i].name == x;
          assert cols[i].name == x;
        } else {
          assert cols[|cols| - 1].name == x;
        }
      }
      forall x | exists i :: 0 <= i < |cols| && cols[i].name == x ensures x in NamesOf(cols) {
        var i :| 0 <= i < |cols| && cols[i].name == x;
        if i < |p| {
          assert p[i].name == x;
        }
      }
    }
  }
}
