/**
 * The annual Schedules C & D extractor (`extract_c_and_d_data`). Each
 * section is a sheet of its own and is read only when the sheet is present
 * and has enough rows:
 *   - "Sch C1 People" and "Sch C2 Business" (at least 21 rows): sums of
 *     fixed columns of row index 20, NaN as soon as one summed cell is blank;
 *   - the seven "Sch D" tabs (at least 6 rows): the numeric sum of two
 *     whole columns from row index 5 down, non-numeric cells left out.
 * A section that is absent or too short adds no metric at all.
 */
module CdParser {
  import opened Frames
  import opened Series

  const C1Sheet: string := "Sch C1 People"
  const C2Sheet: string := "Sch C2 Business"
  /** The row C1 and C2 read. */
  const FixedRow: nat := 20
  /** C1 and C2 need the fixed row to exist. */
  const FixedRowMinRows: nat := 21
  /** The first row of a D tab's column sums. */
  const DFirstRow: nat := 5
  /** A D tab needs at least one row from its first data row on. */
  const DMinRows: nat := 6

  const C1LmiLoans: string := "Sch C1 People # Loans (LMI Borrowers)"
  const C1LmiVolume: string := "Sch C1 People $ Volume (LMI Borrowers)"
  const C1OtherLoans: string := "Sch C1 People # Loans (Other Targeted Populations)"
  const C1OtherVolume: string := "Sch C1 People $ Volume (Other Targeted Populations)"
  const C2Loans: string := "Sch C2 Business # Loans"
  const C2Volume: string := "Sch C2 Business $ Volume"

  const LoansSuffix: string := " # Loans"
  const VolumeSuffix: string := " $ Volume"

  /** C1's "Other Targeted Populations" columns, loans and dollars. */
  const C1OtherLoanCols: seq<nat> := [11, 13, 15, 17, 19, 21, 23, 25]
  const C1OtherVolumeCols: seq<nat> := [12, 14, 16, 18, 20, 22, 24, 26]

  /** Python's `range(start, stop, step)` for a positive step. */
  function PyRange(start: nat, stop: nat, step: nat): seq<nat>
    requires step > 0
    decreases stop - start
  {
    if start >= stop then [] else [start] + PyRange(start + step, stop, step)
  }

  /** C2's loan and dollar columns, `range(3, 24, 2)` and `range(4, 25, 2)` (see C2ColumnsAreRanges). */
  const C2LoanCols: seq<nat> := [3, 5, 7, 9, 11, 13, 15, 17, 19, 21, 23]
  const C2VolumeCols: seq<nat> := [4, 6, 8, 10, 12, 14, 16, 18, 20, 22, 24]

  /** Every column of row index 20 that C1 reads. */
  function C1Cols(): seq<nat> { [3, 5, 4, 6] + C1OtherLoanCols + C1OtherVolumeCols }
  /** Every column of row index 20 that C2 reads. */
  function C2Cols(): seq<nat> { C2LoanCols + C2VolumeCols }

  /** A D tab: its sheet name and the letters of its loan and dollar columns. */
  datatype DTab = DTab(name: string, loanLetter: char, dollarLetter: char)

  /** `d_tabs`, in the order `extract_c_and_d_data` lists it. */
  const DTabs: seq<DTab> := [
    DTab("Sch D1 Rural", 'F', 'G'),
    DTab("Sch D2 Urban", 'F', 'G'),
    DTab("Sch D3 Underserved", 'F', 'G'),
    DTab("Sch D4 Minority", 'F', 'G'),
    DTab("Sch D5 Poverty", 'F', 'G'),
    DTab("Sch D6 Reserv", 'E', 'F'),
    DTab("Sch D7 Terr or PR", 'E', 'F')
  ]

  // ---------------------------------------------------------------------
  // Column letters

  /** `str.upper` on one character, for the ASCII letters. */
  function Upper(c: char): char
  {
    if 'a' <= c <= 'z' then (c as int - 32) as char else c
  }

  /** `ord(c.upper()) - 65`. */
  function ColumnIndex(c: char): int
  {
    Upper(c) as int - 65
  }

  /** The letters resolve to their zero-based positions, lower case alike. */
  lemma ColumnIndexExamples()
    ensures ColumnIndex('E') == 4 && ColumnIndex('F') == 5 && ColumnIndex('G') == 6
    ensures ColumnIndex('e') == 4 && ColumnIndex('f') == 5 && ColumnIndex('g') == 6
  {
  }

  /** The i-th letter of the alphabet, upper or lower case, resolves to i. */
  lemma ColumnIndexOfLetter(i: nat)
    requires i < 26
    ensures ColumnIndex(('A' as int + i) as char) == i
    ensures ColumnIndex(('a' as int + i) as char) == i
  {
  }

  /** Distinct upper-case letters resolve to distinct columns, all in 0..25. */
  lemma ColumnIndexOfUpper(c: char)
    requires 'A' <= c <= 'Z'
    ensures 0 <= ColumnIndex(c) < 26
    ensures ('A' as int + ColumnIndex(c)) as char == c
  {
  }

  // ---------------------------------------------------------------------
  // Section guards and reads

  /** The sheet is present and has at least `rows` rows. */
  predicate Usable(wb: Workbook, sheet: string, rows: nat)
  {
    sheet in wb && |wb[sheet]| >= rows
  }

  /**
   * Row index 20 exists and column `c` of it can take part in a float sum: it
   * holds a number, or nothing (NaN). Adding a text cell to a number raises
   * a TypeError; two text cells added together would join into text, which
   * no figure of this model can hold.
   */
  predicate SummableAt(g: Grid, c: nat)
  {
    FixedRow < |g| && c < Width(g) && !At(g, FixedRow, c).Text?
  }

  /** Row index 20 exists and holds a number in column `c`. */
  predicate NumAt(g: Grid, c: nat)
  {
    FixedRow < |g| && c < Width(g) && At(g, FixedRow, c).Num?
  }

  /** Row index 20 exists and its cell in column `c` is blank. */
  predicate BlankAt(g: Grid, c: nat)
  {
    FixedRow < |g| && c < Width(g) && At(g, FixedRow, c).Empty?
  }

  /** Row index 20 exists and each listed column of it can be summed. */
  predicate RowSummable(g: Grid, cols: seq<nat>)
  {
    FixedRow < |g| && forall i :: 0 <= i < |cols| ==> SummableAt(g, cols[i])
  }

  /** Row index 20 exists and each listed column holds a number there. */
  predicate RowNumeric(g: Grid, cols: seq<nat>)
  {
    FixedRow < |g| && forall i :: 0 <= i < |cols| ==> NumAt(g, cols[i])
  }

  /** Both letters of a D tab resolve to columns of the sheet. */
  predicate TabColumnsExist(g: Grid, tab: DTab)
  {
    0 <= ColumnIndex(tab.loanLetter) < Width(g) && 0 <= ColumnIndex(tab.dollarLetter) < Width(g)
  }

  /** Each of the D tabs that is read has the columns its letters name. */
  predicate TabsReadable(wb: Workbook, tabs: seq<DTab>)
  {
    forall i :: 0 <= i < |tabs| && Usable(wb, tabs[i].name, DMinRows) ==>
      TabColumnsExist(wb[tabs[i].name], tabs[i])
  }

  /**
   * What `extract_c_and_d_data` needs of a workbook to run without an
   * exception and produce numeric figures: a C1 or C2 sheet that is read is
   * wide enough for every column its sums name (columns 3 to 26 for C1, 3
   * to 24 for C2; a missing `row[i]` is a KeyError), none of those cells
   * holds text, and each D tab that is read has the columns its letters name.
   */
  predicate AnnualReadable(wb: Workbook)
  {
    && (Usable(wb, C1Sheet, FixedRowMinRows) ==> RowSummable(wb[C1Sheet], C1Cols()))
    && (Usable(wb, C2Sheet, FixedRowMinRows) ==> RowSummable(wb[C2Sheet], C2Cols()))
    && TabsReadable(wb, DTabs)
  }

  /** `row[c]` of row index 20 as a float: a blank cell is NaN. */
  function RowReading(g: Grid, c: nat): Option<real>
    requires SummableAt(g, c)
  {
    match At(g, FixedRow, c)
    case Num(v) => Some(v)
    case Empty => None
  }

  /** `row[c]` of row index 20 where it holds a number. */
  function RowValue(g: Grid, c: nat): real
    requires NumAt(g, c)
  {
    At(g, FixedRow, c).v
  }

  /** `sum(row[i] for i in cols)` over row index 20: starts from 0 and adds left to right. */
  function RowSum(g: Grid, cols: seq<nat>): Option<real>
    requires RowSummable(g, cols)
  {
    if |cols| == 0 then Some(0.0)
    else NanAdd(RowSum(g, cols[..|cols| - 1]), RowReading(g, cols[|cols| - 1]))
  }

  /** `pd.to_numeric(df.iloc[from:, col], errors="coerce")`. */
  function NumericColumn(g: Grid, col: nat, from: nat): seq<Option<real>>
    requires col < Width(g)
    decreases |g| - from
  {
    if from >= |g| then [] else [ToNumeric(At(g, from, col))] + NumericColumn(g, col, from + 1)
  }

  /** The `.sum()` of a D tab's column from its first data row down. */
  function ColumnTotal(g: Grid, col: nat): real
    requires col < Width(g)
  {
    SkipNaSum(NumericColumn(g, col, DFirstRow))
  }

  // ---------------------------------------------------------------------
  // The metrics each section contributes

  function C1Keys(): set<string> { {C1LmiLoans, C1LmiVolume, C1OtherLoans, C1OtherVolume} }
  function C2Keys(): set<string> { {C2Loans, C2Volume} }
  /** The two metric names of a D tab: `f"{tab} # Loans"` and `f"{tab} $ Volume"`. */
  function NameKeys(name: string): set<string> { {name + LoansSuffix, name + VolumeSuffix} }
  function TabKeys(tab: DTab): set<string> { NameKeys(tab.name) }

  /** The reads of C1 are well defined on a readable sheet. */
  lemma C1Readable(g: Grid)
    requires RowSummable(g, C1Cols())
    ensures RowSummable(g, C1OtherLoanCols) && RowSummable(g, C1OtherVolumeCols)
    ensures SummableAt(g, 3) && SummableAt(g, 4) && SummableAt(g, 5) && SummableAt(g, 6)
  {
    RowSummableSlice(g, C1Cols(), 4, 12);
    RowSummableSlice(g, C1Cols(), 12, 20);
    assert C1Cols()[0] == 3 && C1Cols()[1] == 5 && C1Cols()[2] == 4 && C1Cols()[3] == 6;
    assert C1Cols()[4..12] == C1OtherLoanCols;
    assert C1Cols()[12..20] == C1OtherVolumeCols;
  }

  /** The reads of C2 are well defined on a readable sheet. */
  lemma C2Readable(g: Grid)
    requires RowSummable(g, C2Cols())
    ensures RowSummable(g, C2LoanCols) && RowSummable(g, C2VolumeCols)
  {
    var n := |C2LoanCols|;
    RowSummableSlice(g, C2Cols(), 0, n);
    RowSummableSlice(g, C2Cols(), n, |C2Cols()|);
    assert C2Cols()[0..n] == C2LoanCols;
    assert C2Cols()[n..|C2Cols()|] == C2VolumeCols;
  }

  function C1Entries(wb: Workbook): Readings
    requires AnnualReadable(wb)
  {
    if Usable(wb, C1Sheet, FixedRowMinRows) then
      var g := wb[C1Sheet];
      C1Readable(g);
      map[C1LmiLoans := NanAdd(RowReading(g, 3), RowReading(g, 5)),
          C1LmiVolume := NanAdd(RowReading(g, 4), RowReading(g, 6)),
          C1OtherLoans := RowSum(g, C1OtherLoanCols),
          C1OtherVolume := RowSum(g, C1OtherVolumeCols)]
    else map[]
  }

  function C2Entries(wb: Workbook): Readings
    requires AnnualReadable(wb)
  {
    if Usable(wb, C2Sheet, FixedRowMinRows) then
      var g := wb[C2Sheet];
      C2Readable(g);
      map[C2Loans := RowSum(g, C2LoanCols), C2Volume := RowSum(g, C2VolumeCols)]
    else map[]
  }

  function TabEntries(wb: Workbook, tab: DTab): Readings
    requires Usable(wb, tab.name, DMinRows) ==> TabColumnsExist(wb[tab.name], tab)
  {
    if Usable(wb, tab.name, DMinRows) then
      var g := wb[tab.name];
      map[tab.name + LoansSuffix := Some(ColumnTotal(g, ColumnIndex(tab.loanLetter) as nat)),
          tab.name + VolumeSuffix := Some(ColumnTotal(g, ColumnIndex(tab.dollarLetter) as nat))]
    else map[]
  }

  /** The D tabs' metrics, tab after tab. */
  function DEntries(wb: Workbook, tabs: seq<DTab>): Readings
    requires TabsReadable(wb, tabs)
  {
    if |tabs| == 0 then map[]
    else DEntries(wb, tabs[..|tabs| - 1]) + TabEntries(wb, tabs[|tabs| - 1])
  }

  /** What `extract_c_and_d_data` returns, section by section. */
  function AnnualSpec(wb: Workbook): Readings
    requires AnnualReadable(wb)
  {
    C1Entries(wb) + C2Entries(wb) + DEntries(wb, DTabs)
  }

  /** The four updates of the C1 block build C1's entries. */
  lemma C1EntriesBuilt(wb: Workbook)
    requires AnnualReadable(wb) && Usable(wb, C1Sheet, FixedRowMinRows)
    ensures RowSummable(wb[C1Sheet], C1OtherLoanCols) && RowSummable(wb[C1Sheet], C1OtherVolumeCols)
    ensures var g := wb[C1Sheet]; SummableAt(g, 3) && SummableAt(g, 4) && SummableAt(g, 5) && SummableAt(g, 6)
    ensures var g := wb[C1Sheet];
      map[][C1LmiLoans := NanAdd(RowReading(g, 3), RowReading(g, 5))]
           [C1LmiVolume := NanAdd(RowReading(g, 4), RowReading(g, 6))]
           [C1OtherLoans := RowSum(g, C1OtherLoanCols)]
           [C1OtherVolume := RowSum(g, C1OtherVolumeCols)] == C1Entries(wb)
  {
    C1Readable(wb[C1Sheet]);
  }

  /** The two updates of the C2 block add C2's entries. */
  lemma C2EntriesAdded(wb: Workbook, m: Readings)
    requires AnnualReadable(wb) && Usable(wb, C2Sheet, FixedRowMinRows)
    ensures RowSummable(wb[C2Sheet], C2LoanCols) && RowSummable(wb[C2Sheet], C2VolumeCols)
    ensures var g := wb[C2Sheet];
      m[C2Loans := RowSum(g, C2LoanCols)][C2Volume := RowSum(g, C2VolumeCols)] == m + C2Entries(wb)
  {
    C2Readable(wb[C2Sheet]);
  }

  /** The updates of one pass of the D loop add that tab's entries. */
  lemma TabEntriesAdded(wb: Workbook, tab: DTab, before: Readings, after: Readings)
    requires Usable(wb, tab.name, DMinRows) ==> TabColumnsExist(wb[tab.name], tab)
    requires !Usable(wb, tab.name, DMinRows) ==> after == before
    requires Usable(wb, tab.name, DMinRows) ==>
      var g := wb[tab.name];
      after == before[tab.name + LoansSuffix := Some(ColumnTotal(g, ColumnIndex(tab.loanLetter) as nat))]
                     [tab.name + VolumeSuffix := Some(ColumnTotal(g, ColumnIndex(tab.dollarLetter) as nat))]
    ensures after == before + TabEntries(wb, tab)
  {
  }

  lemma TabReadableAt(wb: Workbook, i: nat)
    requires AnnualReadable(wb) && i < |DTabs|
    ensures Usable(wb, DTabs[i].name, DMinRows) ==> TabColumnsExist(wb[DTabs[i].name], DTabs[i])
  {
  }

  /** One pass of the D loop extends the entries by the next tab's. */
  lemma DLoopStep(wb: Workbook, i: nat, sections: Readings, before: Readings, after: Readings)
    requires AnnualReadable(wb) && i < |DTabs|
    requires TabsReadable(wb, DTabs[..i]) && before == sections + DEntries(wb, DTabs[..i])
    requires after == before + TabEntries(wb, DTabs[i])
    ensures TabsReadable(wb, DTabs[..i + 1])
    ensures after == sections + DEntries(wb, DTabs[..i + 1])
  {
    TabsReadablePrefix(wb, DTabs, i + 1);
    assert DTabs[..i + 1][..i] == DTabs[..i];
    DEntriesStep(wb, DTabs[..i + 1]);
    UnionAssociates(sections, DEntries(wb, DTabs[..i]), TabEntries(wb, DTabs[i]));
  }

  /** After the last pass, the entries are the whole annual result. */
  lemma DLoopDone(wb: Workbook, sections: Readings, extracted: Readings)
    requires AnnualReadable(wb) && sections == C1Entries(wb) + C2Entries(wb)
    requires TabsReadable(wb, DTabs[..|DTabs|]) && extracted == sections + DEntries(wb, DTabs[..|DTabs|])
    ensures extracted == AnnualSpec(wb)
  {
    assert DTabs[..|DTabs|] == DTabs;
  }

  lemma DLoopStart(wb: Workbook, sections: Readings)
    requires AnnualReadable(wb)
    ensures TabsReadable(wb, DTabs[..0]) && sections == sections + DEntries(wb, DTabs[..0])
  {
    assert DEntries(wb, DTabs[..0]) == map[];
  }

  lemma TabsReadablePrefix(wb: Workbook, tabs: seq<DTab>, n: nat)
    requires TabsReadable(wb, tabs) && n <= |tabs|
    ensures TabsReadable(wb, tabs[..n])
  {
    assert forall i :: 0 <= i < n ==> tabs[..n][i] == tabs[i];
  }

  lemma DEntriesStep(wb: Workbook, tabs: seq<DTab>)
    requires TabsReadable(wb, tabs) && |tabs| > 0
    ensures TabsReadable(wb, tabs[..|tabs| - 1])
    ensures DEntries(wb, tabs) == DEntries(wb, tabs[..|tabs| - 1]) + TabEntries(wb, tabs[|tabs| - 1])
  {
  }

  lemma UnionAssociates(a: Readings, b: Readings, c: Readings)
    ensures a + b + c == a + (b + c)
  {
  }

  lemma RowSummableSlice(g: Grid, cols: seq<nat>, lo: nat, hi: nat)
    requires RowSummable(g, cols) && lo <= hi <= |cols|
    ensures RowSummable(g, cols[lo..hi])
  {
    assert forall i :: 0 <= i < hi - lo ==> cols[lo..hi][i] == cols[lo + i];
  }

  // ---------------------------------------------------------------------
  // The extractor

  /** `extract_c_and_d_data`: builds the mapping section by section. */
  method ExtractCAndD(wb: Workbook) returns (extracted: Readings)
    requires AnnualReadable(wb)
    ensures extracted == AnnualSpec(wb)
  {
    extracted := map[];

    if C1Sheet in wb {
      var df := wb[C1Sheet];
      if |df| >= FixedRowMinRows {
        C1Readable(df);
        extracted := extracted[C1LmiLoans := NanAdd(RowReading(df, 3), RowReading(df, 5))];
        extracted := extracted[C1LmiVolume := NanAdd(RowReading(df, 4), RowReading(df, 6))];
        extracted := extracted[C1OtherLoans := RowSum(df, C1OtherLoanCols)];
        extracted := extracted[C1OtherVolume := RowSum(df, C1OtherVolumeCols)];
        C1EntriesBuilt(wb);
      }
    }

    if C2Sheet in wb {
      var df := wb[C2Sheet];
      if |df| >= FixedRowMinRows {
        C2Readable(df);
        extracted := extracted[C2Loans := RowSum(df, C2LoanCols)];
        extracted := extracted[C2Volume := RowSum(df, C2VolumeCols)];
        C2EntriesAdded(wb, C1Entries(wb));
      }
    }

    ghost var sections := extracted;
    assert sections == C1Entries(wb) + C2Entries(wb);
    DLoopStart(wb, sections);
    var i := 0;
    while i < |DTabs|
      invariant 0 <= i <= |DTabs|
      invariant TabsReadable(wb, DTabs[..i])
      invariant extracted == sections + DEntries(wb, DTabs[..i])
    {
      var tab := DTabs[i];
      ghost var before := extracted;
      TabReadableAt(wb, i);
      if tab.name in wb {
        var df := wb[tab.name];
        if |df| >= DMinRows {
          var loanIdx := ColumnIndex(tab.loanLetter);
          var dollarIdx := ColumnIndex(tab.dollarLetter);
          extracted := extracted[tab.name + LoansSuffix := Some(ColumnTotal(df, loanIdx as nat))];
          extracted := extracted[tab.name + VolumeSuffix := Some(ColumnTotal(df, dollarIdx as nat))];
        }
      }
      TabEntriesAdded(wb, tab, before, extracted);
      DLoopStep(wb, i, sections, before, extracted);
      i := i + 1;
    }
    DLoopDone(wb, sections, extracted);
  }

  // ---------------------------------------------------------------------
  // The key vocabulary

  /** Every metric name the annual extractor can produce. */
  function AnnualVocabulary(): set<string>
  {
    C1Keys() + C2Keys() + TabKeysOf(DTabs)
  }

  function TabKeysOf(tabs: seq<DTab>): set<string>
  {
    if |tabs| == 0 then {} else TabKeysOf(tabs[..|tabs| - 1]) + TabKeys(tabs[|tabs| - 1])
  }

  /** The D tabs' metric names, spelled out. */
  lemma TabKeysSpelled()
    ensures TabKeys(DTabs[0]) == {"Sch D1 Rural # Loans", "Sch D1 Rural $ Volume"}
    ensures TabKeys(DTabs[1]) == {"Sch D2 Urban # Loans", "Sch D2 Urban $ Volume"}
    ensures TabKeys(DTabs[2]) == {"Sch D3 Underserved # Loans", "Sch D3 Underserved $ Volume"}
    ensures TabKeys(DTabs[3]) == {"Sch D4 Minority # Loans", "Sch D4 Minority $ Volume"}
    ensures TabKeys(DTabs[4]) == {"Sch D5 Poverty # Loans", "Sch D5 Poverty $ Volume"}
    ensures TabKeys(DTabs[5]) == {"Sch D6 Reserv # Loans", "Sch D6 Reserv $ Volume"}
    ensures TabKeys(DTabs[6]) == {"Sch D7 Terr or PR # Loans", "Sch D7 Terr or PR $ Volume"}
  {
    UrbanTabKeysSpelled();
    OtherTabKeysSpelled();
  }

  lemma UrbanTabKeysSpelled()
    ensures TabKeys(DTabs[0]) == {"Sch D1 Rural # Loans", "Sch D1 Rural $ Volume"}
    ensures TabKeys(DTabs[1]) == {"Sch D2 Urban # Loans", "Sch D2 Urban $ Volume"}
    ensures TabKeys(DTabs[2]) == {"Sch D3 Underserved # Loans", "Sch D3 Underserved $ Volume"}
    ensures TabKeys(DTabs[3]) == {"Sch D4 Minority # Loans", "Sch D4 Minority $ Volume"}
  {
    assert "Sch D1 Rural" + LoansSuffix == "Sch D1 Rural # Loans";
    assert "Sch D1 Rural" + VolumeSuffix == "Sch D1 Rural $ Volume";
    assert "Sch D2 Urban" + LoansSuffix == "Sch D2 Urban # Loans";
    assert "Sch D2 Urban" + VolumeSuffix == "Sch D2 Urban $ Volume";
    assert "Sch D3 Underserved" + LoansSuffix == "Sch D3 Underserved # Loans";
    assert "Sch D3 Underserved" + VolumeSuffix == "Sch D3 Underserved $ Volume";
    assert "Sch D4 Minority" + LoansSuffix == "Sch D4 Minority # Loans";
    assert "Sch D4 Minority" + VolumeSuffix == "Sch D4 Minority $ Volume";
  }

  lemma OtherTabKeysSpelled()
    ensures TabKeys(DTabs[4]) == {"Sch D5 Poverty # Loans", "Sch D5 Poverty $ Volume"}
    ensures TabKeys(DTabs[5]) == {"Sch D6 Reserv # Loans", "Sch D6 Reserv $ Volume"}
    ensures TabKeys(DTabs[6]) == {"Sch D7 Terr or PR # Loans", "Sch D7 Terr or PR $ Volume"}
  {
    assert "Sch D5 Poverty" + LoansSuffix == "Sch D5 Poverty # Loans";
    assert "Sch D5 Poverty" + VolumeSuffix == "Sch D5 Poverty $ Volume";
    assert "Sch D6 Reserv" + LoansSuffix == "Sch D6 Reserv # Loans";
    assert "Sch D6 Reserv" + VolumeSuffix == "Sch D6 Reserv $ Volume";
    assert "Sch D7 Terr or PR" + LoansSuffix == "Sch D7 Terr or PR # Loans";
    assert "Sch D7 Terr or PR" + VolumeSuffix == "Sch D7 Terr or PR $ Volume";
  }

  /** No two sections share a sheet name. */
  lemma SheetNamesDistinct()
    ensures C1Sheet != C2Sheet
    ensures forall i :: 0 <= i < |DTabs| ==> DTabs[i].name != C1Sheet && DTabs[i].name != C2Sheet
    ensures forall i, j :: 0 <= i < j < |DTabs| ==> DTabs[i].name != DTabs[j].name
  {
  }

  /** C1, C2 and the D tabs produce disjoint sets of metric names. */
  lemma SectionKeysDisjoint()
    ensures C1Keys() !! C2Keys()
    ensures forall i :: 0 <= i < |DTabs| ==> TabKeys(DTabs[i]) !! C1Keys() && TabKeys(DTabs[i]) !! C2Keys()
  {
    TabKeysSpelled();
  }

  /** Two D tabs never produce the same metric name, nor does one tab twice. */
  lemma TabKeysDisjoint()
    ensures forall i, j :: 0 <= i < j < |DTabs| ==> TabKeys(DTabs[i]) !! TabKeys(DTabs[j])
    ensures forall i :: 0 <= i < |DTabs| ==> DTabs[i].name + LoansSuffix != DTabs[i].name + VolumeSuffix
  {
    TabKeysSpelled();
  }

  // ---------------------------------------------------------------------
  // Column lists

  lemma {:induction false} PyRangeShape(start: nat, stop: nat, step: nat)
    requires step > 0
    ensures forall k :: 0 <= k < |PyRange(start, stop, step)| ==> PyRange(start, stop, step)[k] == start + step * k
    decreases stop - start
  {
    if start < stop {
      PyRangeShape(start + step, stop, step);
      var r := PyRange(start, stop, step);
      var t := PyRange(start + step, stop, step);
      forall k | 0 <= k < |r| ensures r[k] == start + step * k {
        if k > 0 {
          assert r[k] == t[k - 1];
          assert step * k == step * (k - 1) + step;
        }
      }
    }
  }

  /** A range whose last term lies below `stop` and whose next would not has n terms. */
  lemma {:induction false} PyRangeLength(start: nat, stop: nat, step: nat, n: nat)
    requires step > 0
    requires n == 0 ==> stop <= start
    requires n > 0 ==> start + step * (n - 1) < stop <= start + step * n
    ensures |PyRange(start, stop, step)| == n
    decreases n
  {
    if n > 0 {
      assert step * (n - 1) == step * (n - 2) + step by {
        assert n >= 2 ==> step * (n - 1) == step * (n - 2) + step;
      }
      PyRangeLength(start + step, stop, step, n - 1);
    }
  }

  /** An evenly spaced list of n columns is the range with the same start, step and end. */
  lemma EvenlySpacedIsRange(cols: seq<nat>, start: nat, stop: nat, step: nat)
    requires step > 0 && |cols| > 0
    requires start + step * (|cols| - 1) < stop <= start + step * |cols|
    requires forall k :: 0 <= k < |cols| ==> cols[k] == start + step * k
    ensures cols == PyRange(start, stop, step)
  {
    PyRangeLength(start, stop, step, |cols|);
    PyRangeShape(start, stop, step);
  }

  /** C2's column lists are `range(3, 24, 2)` and `range(4, 25, 2)`. */
  lemma C2ColumnsAreRanges()
    ensures C2LoanCols == PyRange(3, 24, 2)
    ensures C2VolumeCols == PyRange(4, 25, 2)
  {
    EvenlySpacedIsRange(C2LoanCols, 3, 24, 2);
    EvenlySpacedIsRange(C2VolumeCols, 4, 25, 2);
  }

  /** C2 sums the 11 odd columns 3..23 for loans and the column right of each for dollars. */
  lemma C2ColumnsShape()
    ensures |C2LoanCols| == |C2VolumeCols| == 11
    ensures forall k :: 0 <= k < 11 ==>
      C2LoanCols[k] == 3 + 2 * k && C2VolumeCols[k] == C2LoanCols[k] + 1
  {
    C2ColumnsAreRanges();
    PyRangeShape(3, 24, 2);
    PyRangeShape(4, 25, 2);
  }

  /** C1's written-out lists are evenly spaced runs, as `range` would give them. */
  lemma C1ListsAsRanges()
    ensures C1OtherLoanCols == PyRange(11, 26, 2)
    ensures C1OtherVolumeCols == PyRange(12, 27, 2)
  {
    EvenlySpacedIsRange(C1OtherLoanCols, 11, 26, 2);
    EvenlySpacedIsRange(C1OtherVolumeCols, 12, 27, 2);
  }

  /** C1 sums the 8 odd columns 11..25 for other loans and the column right of each for dollars. */
  lemma C1ColumnsShape()
    ensures |C1OtherLoanCols| == |C1OtherVolumeCols| == 8
    ensures forall k :: 0 <= k < 8 ==>
      C1OtherLoanCols[k] == 11 + 2 * k && C1OtherVolumeCols[k] == C1OtherLoanCols[k] + 1
  {
    C1ListsAsRanges();
    PyRangeShape(11, 26, 2);
    PyRangeShape(12, 27, 2);
  }

  /** With numbers in every cell, C1's "Other Targeted Populations" sums are the eight-term sums. */
  lemma C1OtherSumsSpelled(g: Grid)
    requires RowNumeric(g, C1OtherLoanCols) && RowNumeric(g, C1OtherVolumeCols)
    ensures NumAt(g, 11) && NumAt(g, 13) && NumAt(g, 15) && NumAt(g, 17)
    ensures NumAt(g, 19) && NumAt(g, 21) && NumAt(g, 23) && NumAt(g, 25)
    ensures NumAt(g, 12) && NumAt(g, 14) && NumAt(g, 16) && NumAt(g, 18)
    ensures NumAt(g, 20) && NumAt(g, 22) && NumAt(g, 24) && NumAt(g, 26)
    ensures RowSummable(g, C1OtherLoanCols) && RowSummable(g, C1OtherVolumeCols)
    ensures RowSum(g, C1OtherLoanCols)
      == Some(RowValue(g, 11) + RowValue(g, 13) + RowValue(g, 15) + RowValue(g, 17)
            + RowValue(g, 19) + RowValue(g, 21) + RowValue(g, 23) + RowValue(g, 25))
    ensures RowSum(g, C1OtherVolumeCols)
      == Some(RowValue(g, 12) + RowValue(g, 14) + RowValue(g, 16) + RowValue(g, 18)
            + RowValue(g, 20) + RowValue(g, 22) + RowValue(g, 24) + RowValue(g, 26))
  {
    var l := C1OtherLoanCols;
    assert NumAt(g, l[0]) && NumAt(g, l[1]) && NumAt(g, l[2]) && NumAt(g, l[3]);
    assert NumAt(g, l[4]) && NumAt(g, l[5]) && NumAt(g, l[6]) && NumAt(g, l[7]);
    var v := C1OtherVolumeCols;
    assert NumAt(g, v[0]) && NumAt(g, v[1]) && NumAt(g, v[2]) && NumAt(g, v[3]);
    assert NumAt(g, v[4]) && NumAt(g, v[5]) && NumAt(g, v[6]) && NumAt(g, v[7]);
    RowSumUnfold(g, l);
    RowSumUnfold(g, v);
  }

  /** A row whose cells all hold numbers can be summed. */
  lemma NumericSummable(g: Grid, cols: seq<nat>)
    requires RowNumeric(g, cols)
    ensures RowSummable(g, cols)
    ensures forall i :: 0 <= i < |cols| ==> RowReading(g, cols[i]) == Some(RowValue(g, cols[i]))
  {
  }

  lemma RowSumPrefix(g: Grid, cols: seq<nat>, n: nat)
    requires RowSummable(g, cols) && 0 < n <= |cols|
    ensures RowSummable(g, cols[..n]) && RowSummable(g, cols[..n - 1])
    ensures RowSum(g, cols[..n]) == NanAdd(RowSum(g, cols[..n - 1]), RowReading(g, cols[n - 1]))
  {
    RowSummableSlice(g, cols, 0, n);
    RowSummableSlice(g, cols, 0, n - 1);
    assert cols[..n][..n - 1] == cols[..n - 1];
  }

  lemma RowSumUnfold(g: Grid, cols: seq<nat>)
    requires |cols| == 8 && RowNumeric(g, cols)
    ensures RowSummable(g, cols)
    ensures RowSum(g, cols)
      == Some(RowValue(g, cols[0]) + RowValue(g, cols[1]) + RowValue(g, cols[2]) + RowValue(g, cols[3])
            + RowValue(g, cols[4]) + RowValue(g, cols[5]) + RowValue(g, cols[6]) + RowValue(g, cols[7]))
  {
    NumericSummable(g, cols);
    assert cols[..8] == cols;
    RowSumPrefix(g, cols, 8);
    RowSumPrefix(g, cols, 7);
    RowSumPrefix(g, cols, 6);
    RowSumPrefix(g, cols, 5);
    RowSumPrefix(g, cols, 4);
    RowSumPrefix(g, cols, 3);
    RowSumPrefix(g, cols, 2);
    RowSumPrefix(g, cols, 1);
  }

  /** The plain left-to-right sum of the listed cells of row index 20, each holding a number. */
  function RowValueSum(g: Grid, cols: seq<nat>): real
    requires RowNumeric(g, cols)
  {
    if |cols| == 0 then 0.0
    else
      var p := cols[..|cols| - 1];
      assert forall i :: 0 <= i < |p| ==> p[i] == cols[i];
      RowValueSum(g, p) + RowValue(g, cols[|cols| - 1])
  }

  /** With a number in every cell it adds, `sum` over row index 20 is never NaN: it is the plain sum. */
  lemma {:induction false} RowSumNumeric(g: Grid, cols: seq<nat>)
    requires RowNumeric(g, cols)
    ensures RowSummable(g, cols)
    ensures RowSum(g, cols) == Some(RowValueSum(g, cols))
  {
    NumericSummable(g, cols);
    if |cols| > 0 {
      var p := cols[..|cols| - 1];
      assert forall i :: 0 <= i < |p| ==> p[i] == cols[i];
      RowSumNumeric(g, p);
    }
  }

  /** `sum` over a row is NaN exactly when one of the cells it adds is blank. */
  lemma {:induction false} RowSumBlank(g: Grid, cols: seq<nat>)
    requires RowSummable(g, cols)
    ensures RowSum(g, cols).None? <==> exists i :: 0 <= i < |cols| && BlankAt(g, cols[i])
  {
    if |cols| > 0 {
      var n := |cols|;
      var p := cols[..n - 1];
      RowSummableSlice(g, cols, 0, n - 1);
      RowSumBlank(g, p);
      if exists i :: 0 <= i < |p| && BlankAt(g, p[i]) {
        var i :| 0 <= i < |p| && BlankAt(g, p[i]);
        assert cols[i] == p[i];
      }
      if exists i :: 0 <= i < n && BlankAt(g, cols[i]) {
        var i :| 0 <= i < n && BlankAt(g, cols[i]);
        if i < n - 1 {
          assert p[i] == cols[i];
        }
      }
    }
  }

  // ---------------------------------------------------------------------
  // D-tab column sums

  lemma {:induction false} NumericColumnAt(g: Grid, col: nat, from: nat)
    requires col < Width(g)
    ensures |NumericColumn(g, col, from)| == if from >= |g| then 0 else |g| - from
    ensures forall j :: 0 <= j < |NumericColumn(g, col, from)| ==>
      NumericColumn(g, col, from)[j] == ToNumeric(At(g, from + j, col))
    decreases |g| - from
  {
    if from < |g| {
      NumericColumnAt(g, col, from + 1);
      var r := NumericColumn(g, col, from);
      var t := NumericColumn(g, col, from + 1);
      assert r == [ToNumeric(At(g, from, col))] + t;
      forall j | 0 <= j < |r| ensures r[j] == ToNumeric(At(g, from + j, col)) {
        if j > 0 {
          assert r[j] == t[j - 1];
          assert from + j == (from + 1) + (j - 1);
        }
      }
    }
  }

  /**
   * A D tab's total adds the numeric cells of its column from row index 5 down
   * and leaves every other cell out; with no numeric cell it is 0.
   */
  lemma ColumnTotalMeaning(g: Grid, col: nat)
    requires col < Width(g)
    ensures ColumnTotal(g, col) == Sum(Present(NumericColumn(g, col, DFirstRow)))
    ensures (forall r :: DFirstRow <= r < |g| ==> ToNumeric(At(g, r, col)).None?) ==> ColumnTotal(g, col) == 0.0
  {
    SkipNaSumIsSumOfPresent(NumericColumn(g, col, DFirstRow));
    NumericColumnAt(g, col, DFirstRow);
    if forall r :: DFirstRow <= r < |g| ==> ToNumeric(At(g, r, col)).None? {
      var xs := NumericColumn(g, col, DFirstRow);
      forall j | 0 <= j < |xs| ensures xs[j].None? {
        assert xs[j] == ToNumeric(At(g, DFirstRow + j, col));
      }
      SkipNaSumAllNa(xs);
    }
  }

  // ---------------------------------------------------------------------
  // The key set and the values of the result

  lemma {:induction false} TabKeysOfMembers(tabs: seq<DTab>)
    ensures forall k :: k in TabKeysOf(tabs) <==> exists i :: 0 <= i < |tabs| && k in TabKeys(tabs[i])
  {
    if |tabs| > 0 {
      var p := tabs[..|tabs| - 1];
      TabKeysOfMembers(p);
      forall k | k in TabKeysOf(tabs) ensures exists i :: 0 <= i < |tabs| && k in TabKeys(tabs[i]) {
        if k in TabKeysOf(p) {
          var i :| 0 <= i < |p| && k in TabKeys(p[i]);
          assert tabs[i] == p[i];
        }
      }
      forall k | exists i :: 0 <= i < |tabs| && k in TabKeys(tabs[i]) ensures k in TabKeysOf(tabs) {
        var i :| 0 <= i < |tabs| && k in TabKeys(tabs[i]);
        if i < |p| {
          assert tabs[i] == p[i];
        }
      }
    }
  }

  lemma {:induction false} DEntriesKeys(wb: Workbook, tabs: seq<DTab>)
    requires TabsReadable(wb, tabs)
    ensures forall k :: k in DEntries(wb, tabs) <==>
      exists i :: 0 <= i < |tabs| && Usable(wb, tabs[i].name, DMinRows) && k in TabKeys(tabs[i])
  {
    if |tabs| > 0 {
      var p := tabs[..|tabs| - 1];
      TabsReadablePrefix(wb, tabs, |tabs| - 1);
      DEntriesKeys(wb, p);
      forall k ensures k in DEntries(wb, tabs) <==>
        exists i :: 0 <= i < |tabs| && Usable(wb, tabs[i].name, DMinRows) && k in TabKeys(tabs[i])
      {
        ContributingTabStep(wb, tabs, p, k);
      }
    }
  }

  /** Some tab among `tabs` contributes k exactly when one of the first |tabs| - 1 or the last does. */
  lemma ContributingTabStep(wb: Workbook, tabs: seq<DTab>, p: seq<DTab>, k: string)
    requires |tabs| > 0 && p == tabs[..|tabs| - 1]
    ensures (exists i :: 0 <= i < |tabs| && Usable(wb, tabs[i].name, DMinRows) && k in TabKeys(tabs[i]))
      <==> ((exists i :: 0 <= i < |p| && Usable(wb, p[i].name, DMinRows) && k in TabKeys(p[i]))
        || (Usable(wb, tabs[|tabs| - 1].name, DMinRows) && k in TabKeys(tabs[|tabs| - 1])))
  {
    if exists i :: 0 <= i < |tabs| && Usable(wb, tabs[i].name, DMinRows) && k in TabKeys(tabs[i]) {
      var i :| 0 <= i < |tabs| && Usable(wb, tabs[i].name, DMinRows) && k in TabKeys(tabs[i]);
      if i < |p| {
        assert p[i] == tabs[i];
      }
    }
    if exists i :: 0 <= i < |p| && Usable(wb, p[i].name, DMinRows) && k in TabKeys(p[i]) {
      var i :| 0 <= i < |p| && Usable(wb, p[i].name, DMinRows) && k in TabKeys(p[i]);
      assert p[i] == tabs[i];
    }
  }

  lemma {:induction false} DEntriesValue(wb: Workbook, tabs: seq<DTab>, i: nat)
    requires TabsReadable(wb, tabs) && i < |tabs| && Usable(wb, tabs[i].name, DMinRows)
    requires forall j :: i < j < |tabs| ==> TabKeys(tabs[i]) !! TabKeys(tabs[j])
    ensures TabColumnsExist(wb[tabs[i].name], tabs[i])
    ensures TabKeys(tabs[i]) <= DEntries(wb, tabs).Keys
    ensures var g := wb[tabs[i].name];
      && DEntries(wb, tabs)[tabs[i].name + LoansSuffix] == Some(ColumnTotal(g, ColumnIndex(tabs[i].loanLetter) as nat))
      && DEntries(wb, tabs)[tabs[i].name + VolumeSuffix] == Some(ColumnTotal(g, ColumnIndex(tabs[i].dollarLetter) as nat))
  {
    var p := tabs[..|tabs| - 1];
    TabsReadablePrefix(wb, tabs, |tabs| - 1);
    if i < |tabs| - 1 {
      assert p[i] == tabs[i];
      DEntriesValue(wb, p, i);
    } else {
      assert |LoansSuffix| != |VolumeSuffix|;
      assert tabs[i].name + LoansSuffix != tabs[i].name + VolumeSuffix;
    }
  }

  /** No D tab yields a C1 or C2 metric name. */
  lemma DKeysApart(wb: Workbook)
    requires TabsReadable(wb, DTabs)
    ensures C1Keys() !! DEntries(wb, DTabs).Keys && C2Keys() !! DEntries(wb, DTabs).Keys
  {
    SectionKeysDisjoint();
    DEntriesKeys(wb, DTabs);
  }

  /** C1's four metrics are in the result exactly when C1 is present with at least 21 rows. */
  lemma C1Presence(wb: Workbook)
    requires AnnualReadable(wb)
    ensures forall k :: k in C1Keys() ==> (k in AnnualSpec(wb) <==> Usable(wb, C1Sheet, FixedRowMinRows))
  {
    SectionKeysDisjoint();
    DKeysApart(wb);
    assert C1Keys() !! C2Entries(wb).Keys;
    assert C1Keys() !! DEntries(wb, DTabs).Keys;
  }

  /** C2's two metrics are in the result exactly when C2 is present with at least 21 rows. */
  lemma C2Presence(wb: Workbook)
    requires AnnualReadable(wb)
    ensures forall k :: k in C2Keys() ==> (k in AnnualSpec(wb) <==> Usable(wb, C2Sheet, FixedRowMinRows))
  {
    SectionKeysDisjoint();
    DKeysApart(wb);
    assert C2Keys() !! C1Entries(wb).Keys;
    assert C2Keys() !! DEntries(wb, DTabs).Keys;
  }

  /** A D tab's two metrics are in the result exactly when the tab is present with at least 6 rows. */
  lemma DPresence(wb: Workbook, i: nat)
    requires AnnualReadable(wb) && i < |DTabs|
    ensures forall k :: k in TabKeys(DTabs[i]) ==> (k in AnnualSpec(wb) <==> Usable(wb, DTabs[i].name, DMinRows))
  {
    forall k | k in TabKeys(DTabs[i])
      ensures k in AnnualSpec(wb) <==> Usable(wb, DTabs[i].name, DMinRows)
    {
      DKeyFromTabs(wb, i, k);
      DKeyOwner(wb, i, k);
    }
  }

  /** A D metric is in the result exactly when it is among the D entries, with the same value. */
  lemma DKeyFromTabs(wb: Workbook, i: nat, k: string)
    requires AnnualReadable(wb) && i < |DTabs| && k in TabKeys(DTabs[i])
    ensures k in AnnualSpec(wb) <==> k in DEntries(wb, DTabs)
    ensures k in AnnualSpec(wb) ==> AnnualSpec(wb)[k] == DEntries(wb, DTabs)[k]
  {
    SectionKeysDisjoint();
    assert k !in C1Entries(wb) && k !in C2Entries(wb);
  }

  /** Only tab i can contribute its own metric names. */
  lemma DKeyOwner(wb: Workbook, i: nat, k: string)
    requires AnnualReadable(wb) && i < |DTabs| && k in TabKeys(DTabs[i])
    ensures k in DEntries(wb, DTabs) <==> Usable(wb, DTabs[i].name, DMinRows)
  {
    TabKeysDisjoint();
    DEntriesKeys(wb, DTabs);
    if k in DEntries(wb, DTabs) {
      var j :| 0 <= j < |DTabs| && Usable(wb, DTabs[j].name, DMinRows) && k in TabKeys(DTabs[j]);
      assert i == j;
    }
  }

  /** The result never holds a metric outside the annual vocabulary. */
  lemma AnnualKeysInVocabulary(wb: Workbook)
    requires AnnualReadable(wb)
    ensures AnnualSpec(wb).Keys <= AnnualVocabulary()
  {
    TabKeysOfMembers(DTabs);
    DEntriesKeys(wb, DTabs);
  }

  /** C1's four metrics: LMI = columns 3+5 and 4+6 of row index 20, the others the eight-term sums. */
  lemma C1Values(wb: Workbook)
    requires AnnualReadable(wb) && Usable(wb, C1Sheet, FixedRowMinRows)
    ensures var g := wb[C1Sheet];
      SummableAt(g, 3) && SummableAt(g, 4) && SummableAt(g, 5) && SummableAt(g, 6) &&
      RowSummable(g, C1OtherLoanCols) && RowSummable(g, C1OtherVolumeCols)
    ensures var g := wb[C1Sheet]; var r := AnnualSpec(wb);
      && C1Keys() <= r.Keys
      && r[C1LmiLoans] == NanAdd(RowReading(g, 3), RowReading(g, 5))
      && r[C1LmiVolume] == NanAdd(RowReading(g, 4), RowReading(g, 6))
      && r[C1OtherLoans] == RowSum(g, C1OtherLoanCols)
      && r[C1OtherVolume] == RowSum(g, C1OtherVolumeCols)
  {
    C1Readable(wb[C1Sheet]);
    C1Presence(wb);
    SectionKeysDisjoint();
    DKeysApart(wb);
    assert C1Keys() !! C2Entries(wb).Keys;
    assert C1Keys() !! DEntries(wb, DTabs).Keys;
  }

  /** C2's two metrics: the sums of row index 20 over `range(3, 24, 2)` and `range(4, 25, 2)`. */
  lemma C2Values(wb: Workbook)
    requires AnnualReadable(wb) && Usable(wb, C2Sheet, FixedRowMinRows)
    ensures RowSummable(wb[C2Sheet], C2LoanCols) && RowSummable(wb[C2Sheet], C2VolumeCols)
    ensures var g := wb[C2Sheet]; var r := AnnualSpec(wb);
      && C2Keys() <= r.Keys
      && r[C2Loans] == RowSum(g, C2LoanCols)
      && r[C2Volume] == RowSum(g, C2VolumeCols)
  {
    C2Readable(wb[C2Sheet]);
    C2Presence(wb);
    SectionKeysDisjoint();
    DKeysApart(wb);
    assert C2Keys() !! DEntries(wb, DTabs).Keys;
  }

  /** With numbers in columns 3 and 5, C1's LMI loan count is their sum. */
  lemma C1LmiLoansFigure(wb: Workbook)
    requires AnnualReadable(wb) && Usable(wb, C1Sheet, FixedRowMinRows)
    requires NumAt(wb[C1Sheet], 3) && NumAt(wb[C1Sheet], 5)
    ensures C1LmiLoans in AnnualSpec(wb)
    ensures AnnualSpec(wb)[C1LmiLoans] == Some(RowValue(wb[C1Sheet], 3) + RowValue(wb[C1Sheet], 5))
  {
    C1Values(wb);
  }

  /** With numbers in all eleven cells of a range, that C2 figure is the plain sum of those cells. */
  lemma C2NumericSums(wb: Workbook)
    requires AnnualReadable(wb) && Usable(wb, C2Sheet, FixedRowMinRows)
    ensures var g := wb[C2Sheet]; var r := AnnualSpec(wb);
      && C2Keys() <= r.Keys
      && (RowNumeric(g, C2LoanCols) ==> r[C2Loans] == Some(RowValueSum(g, C2LoanCols)))
      && (RowNumeric(g, C2VolumeCols) ==> r[C2Volume] == Some(RowValueSum(g, C2VolumeCols)))
  {
    var g := wb[C2Sheet];
    C2Values(wb);
    if RowNumeric(g, C2LoanCols) {
      RowSumNumeric(g, C2LoanCols);
    }
    if RowNumeric(g, C2VolumeCols) {
      RowSumNumeric(g, C2VolumeCols);
    }
  }

  /** A D tab's two metrics are the totals of the columns its letters name, never NaN. */
  lemma DValues(wb: Workbook, i: nat)
    requires AnnualReadable(wb) && i < |DTabs| && Usable(wb, DTabs[i].name, DMinRows)
    ensures TabColumnsExist(wb[DTabs[i].name], DTabs[i])
    ensures var t := DTabs[i]; var g := wb[t.name]; var r := AnnualSpec(wb);
      && TabKeys(t) <= r.Keys
      && r[t.name + LoansSuffix] == Some(ColumnTotal(g, ColumnIndex(t.loanLetter) as nat))
      && r[t.name + VolumeSuffix] == Some(ColumnTotal(g, ColumnIndex(t.dollarLetter) as nat))
  {
    TabKeysDisjoint();
    DEntriesValue(wb, DTabs, i);
  }

  /**
   * A C1 figure is NaN exactly when a cell it adds is blank: columns 3 or 5
   * for LMI loans, 4 or 6 for LMI dollars, and any of the eight columns of
   * an "Other Targeted Populations" sum.
   */
  lemma C1Blanks(wb: Workbook)
    requires AnnualReadable(wb) && Usable(wb, C1Sheet, FixedRowMinRows)
    ensures C1Keys() <= AnnualSpec(wb).Keys
    ensures var g := wb[C1Sheet]; var r := AnnualSpec(wb);
      && (r[C1LmiLoans].None? <==> BlankAt(g, 3) || BlankAt(g, 5))
      && (r[C1LmiVolume].None? <==> BlankAt(g, 4) || BlankAt(g, 6))
      && (r[C1OtherLoans].None? <==> exists i :: 0 <= i < |C1OtherLoanCols| && BlankAt(g, C1OtherLoanCols[i]))
      && (r[C1OtherVolume].None? <==> exists i :: 0 <= i < |C1OtherVolumeCols| && BlankAt(g, C1OtherVolumeCols[i]))
  {
    C1Values(wb);
    var g := wb[C1Sheet];
    RowSumBlank(g, C1OtherLoanCols);
    RowSumBlank(g, C1OtherVolumeCols);
  }

  /** A C2 figure is NaN exactly when one of the eleven cells it adds is blank. */
  lemma C2Blanks(wb: Workbook)
    requires AnnualReadable(wb) && Usable(wb, C2Sheet, FixedRowMinRows)
    ensures C2Keys() <= AnnualSpec(wb).Keys
    ensures var g := wb[C2Sheet]; var r := AnnualSpec(wb);
      && (r[C2Loans].None? <==> exists i :: 0 <= i < |C2LoanCols| && BlankAt(g, C2LoanCols[i]))
      && (r[C2Volume].None? <==> exists i :: 0 <= i < |C2VolumeCols| && BlankAt(g, C2VolumeCols[i]))
  {
    C2Values(wb);
    RowSumBlank(wb[C2Sheet], C2LoanCols);
    RowSumBlank(wb[C2Sheet], C2VolumeCols);
  }

  lemma C1FromSection(wb: Workbook, k: string)
    requires AnnualReadable(wb) && k in C1Keys() && k in AnnualSpec(wb)
    ensures k in C1Entries(wb) && AnnualSpec(wb)[k] == C1Entries(wb)[k]
  {
    SectionKeysDisjoint();
    DKeysApart(wb);
    assert C1Keys() !! C2Entries(wb).Keys;
    assert C1Keys() !! DEntries(wb, DTabs).Keys;
  }

  lemma C2FromSection(wb: Workbook, k: string)
    requires AnnualReadable(wb) && k in C2Keys() && k in AnnualSpec(wb)
    ensures k in C2Entries(wb) && AnnualSpec(wb)[k] == C2Entries(wb)[k]
  {
    SectionKeysDisjoint();
    DKeysApart(wb);
    assert C2Keys() !! DEntries(wb, DTabs).Keys;
  }

  lemma C1EntriesWithout(wb: Workbook, sheet: string)
    requires AnnualReadable(wb) && sheet != C1Sheet
    ensures AnnualReadable(wb - {sheet})
    ensures C1Entries(wb - {sheet}) == C1Entries(wb)
  {
    ReadableWithout(wb, sheet);
    if C1Sheet in wb {
      assert (wb - {sheet})[C1Sheet] == wb[C1Sheet];
    }
  }

  lemma C2EntriesWithout(wb: Workbook, sheet: string)
    requires AnnualReadable(wb) && sheet != C2Sheet
    ensures AnnualReadable(wb - {sheet})
    ensures C2Entries(wb - {sheet}) == C2Entries(wb)
  {
    ReadableWithout(wb, sheet);
    if C2Sheet in wb {
      assert (wb - {sheet})[C2Sheet] == wb[C2Sheet];
    }
  }

  // ---------------------------------------------------------------------
  // A missing sheet

  /** The metric names a sheet contributes, whichever section it is. */
  function SectionKeys(sheet: string): set<string>
  {
    if sheet == C1Sheet then C1Keys()
    else if sheet == C2Sheet then C2Keys()
    else if exists i :: 0 <= i < |DTabs| && DTabs[i].name == sheet then NameKeys(sheet)
    else {}
  }

  lemma ReadableWithout(wb: Workbook, sheet: string)
    requires AnnualReadable(wb)
    ensures AnnualReadable(wb - {sheet})
  {
    var w := wb - {sheet};
    forall i | 0 <= i < |DTabs| && Usable(w, DTabs[i].name, DMinRows)
      ensures TabColumnsExist(w[DTabs[i].name], DTabs[i])
    {
      assert Usable(wb, DTabs[i].name, DMinRows);
    }
  }

  lemma MissingSheetC1(wb: Workbook, sheet: string, k: string)
    requires AnnualReadable(wb) && k in C1Keys()
    ensures AnnualReadable(wb - {sheet})
    ensures k in SectionKeys(sheet) <==> sheet == C1Sheet
    ensures sheet == C1Sheet ==> k !in AnnualSpec(wb - {sheet})
    ensures sheet != C1Sheet ==> (k in AnnualSpec(wb - {sheet}) <==> k in AnnualSpec(wb))
    ensures sheet != C1Sheet && k in AnnualSpec(wb) ==> AnnualSpec(wb - {sheet})[k] == AnnualSpec(wb)[k]
  {
    var w := wb - {sheet};
    ReadableWithout(wb, sheet);
    C1Owner(sheet, k);
    C1Presence(wb);
    C1Presence(w);
    if sheet != C1Sheet {
      C1EntriesWithout(wb, sheet);
      if k in AnnualSpec(wb) {
        C1FromSection(wb, k);
        C1FromSection(w, k);
      }
    }
  }

  lemma C1Owner(sheet: string, k: string)
    requires k in C1Keys()
    ensures k in SectionKeys(sheet) <==> sheet == C1Sheet
  {
    SheetNamesDistinct();
    SectionKeysDisjoint();
    if exists i :: 0 <= i < |DTabs| && DTabs[i].name == sheet {
      var i :| 0 <= i < |DTabs| && DTabs[i].name == sheet;
      assert SectionKeys(sheet) == TabKeys(DTabs[i]);
    }
  }

  lemma MissingSheetC2(wb: Workbook, sheet: string, k: string)
    requires AnnualReadable(wb) && k in C2Keys()
    ensures AnnualReadable(wb - {sheet})
    ensures k in SectionKeys(sheet) <==> sheet == C2Sheet
    ensures sheet == C2Sheet ==> k !in AnnualSpec(wb - {sheet})
    ensures sheet != C2Sheet ==> (k in AnnualSpec(wb - {sheet}) <==> k in AnnualSpec(wb))
    ensures sheet != C2Sheet && k in AnnualSpec(wb) ==> AnnualSpec(wb - {sheet})[k] == AnnualSpec(wb)[k]
  {
    var w := wb - {sheet};
    ReadableWithout(wb, sheet);
    C2Owner(sheet, k);
    C2Presence(wb);
    C2Presence(w);
    if sheet != C2Sheet {
      C2EntriesWithout(wb, sheet);
      if k in AnnualSpec(wb) {
        C2FromSection(wb, k);
        C2FromSection(w, k);
      }
    }
  }

  lemma C2Owner(sheet: string, k: string)
    requires k in C2Keys()
    ensures k in SectionKeys(sheet) <==> sheet == C2Sheet
  {
    SheetNamesDistinct();
    SectionKeysDisjoint();
    if exists i :: 0 <= i < |DTabs| && DTabs[i].name == sheet {
      var i :| 0 <= i < |DTabs| && DTabs[i].name == sheet;
      assert SectionKeys(sheet) == TabKeys(DTabs[i]);
    }
  }

  lemma MissingSheetD(wb: Workbook, sheet: string, i: nat, k: string)
    requires AnnualReadable(wb) && i < |DTabs| && k in TabKeys(DTabs[i])
    ensures AnnualReadable(wb - {sheet})
    ensures k in SectionKeys(sheet) <==> sheet == DTabs[i].name
    ensures sheet == DTabs[i].name ==> k !in AnnualSpec(wb - {sheet})
    ensures sheet != DTabs[i].name ==> (k in AnnualSpec(wb - {sheet}) <==> k in AnnualSpec(wb))
    ensures sheet != DTabs[i].name && k in AnnualSpec(wb) ==> AnnualSpec(wb - {sheet})[k] == AnnualSpec(wb)[k]
  {
    var w := wb - {sheet};
    ReadableWithout(wb, sheet);
    DOwner(sheet, i, k);
    DPresence(wb, i);
    DPresence(w, i);
    if sheet != DTabs[i].name && Usable(wb, DTabs[i].name, DMinRows) {
      DValues(wb, i);
      DValues(w, i);
    }
  }

  lemma DOwner(sheet: string, i: nat, k: string)
    requires i < |DTabs| && k in TabKeys(DTabs[i])
    ensures k in SectionKeys(sheet) <==> sheet == DTabs[i].name
  {
    SheetNamesDistinct();
    SectionKeysDisjoint();
    TabKeysDisjoint();
    if exists j :: 0 <= j < |DTabs| && DTabs[j].name == sheet {
      var j :| 0 <= j < |DTabs| && DTabs[j].name == sheet;
      assert SectionKeys(sheet) == TabKeys(DTabs[j]);
      assert i != j ==> TabKeys(DTabs[i]) !! TabKeys(DTabs[j]);
    }
  }

  /**
   * A sheet missing from the workbook takes away exactly the metrics of its
   * own section; every other metric is present as before, with its value.
   */
  lemma MissingSheet(wb: Workbook, sheet: string)
    requires AnnualReadable(wb)
    ensures AnnualReadable(wb - {sheet})
    ensures AnnualSpec(wb - {sheet}) == AnnualSpec(wb) - SectionKeys(sheet)
  {
    var w := wb - {sheet};
    ReadableWithout(wb, sheet);
    AnnualKeysInVocabulary(wb);
    AnnualKeysInVocabulary(w);
    TabKeysOfMembers(DTabs);
    var l := AnnualSpec(w);
    var r := AnnualSpec(wb) - SectionKeys(sheet);
    forall k | k in AnnualVocabulary()
      ensures (k in l <==> k in r) && (k in l ==> l[k] == r[k])
    {
      if k in C1Keys() {
        MissingSheetC1(wb, sheet, k);
      } else if k in C2Keys() {
        MissingSheetC2(wb, sheet, k);
      } else {
        assert k in TabKeysOf(DTabs);
        var i :| 0 <= i < |DTabs| && k in TabKeys(DTabs[i]);
        MissingSheetD(wb, sheet, i, k);
      }
    }
    assert l.Keys == r.Keys;
  }
}
