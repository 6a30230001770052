/**
 * The validator's session state and the loops that fill it: quarterly
 * Schedule B uploads are accumulated per EC with the fill-value add, annual
 * Schedule C & D uploads overwrite the EC's annual figures, and the
 * validation matrix reconciles every EC that has both.
 *
 * An upload is described by what the script derives from it: the EC number
 * found in its file name (None when there is none, in which case the file is
 * skipped), the bank name derived from the file name, and the workbook.
 */
module Validator {
  import opened Frames
  import opened Series
  import ScheduleB
  import CdParser

  datatype Upload = Upload(ec: Option<string>, bank: string, doc: Workbook)

  /** `ec_data`, `cd_data` and `bank_names` as values. */
  datatype Tables = Tables(
    ecData: map<string, Metrics>,
    cdData: map<string, Readings>,
    bankNames: map<string, string>)

  const NoTables := Tables(map[], map[], map[])

  /** `ec_data[ec]` on the defaultdict: an EC never seen reads as the empty series. */
  function Lookup(data: map<string, Metrics>, ec: string): Metrics
  {
    if ec in data then data[ec] else map[]
  }

  // ---------------------------------------------------------------------
  // Quarterly uploads

  /** One pass of the quarterly upload loop. */
  function QuarterlyStep(t: Tables, u: Upload, toText: real -> string): Tables
  {
    match u.ec
    case None => t
    case Some(ec) =>
      match ScheduleB.ExtractSchB(u.doc, toText)
      case None => t
      case Some(m) =>
        Tables(t.ecData[ec := AddFill(Lookup(t.ecData, ec), m)], t.cdData, t.bankNames[ec := u.bank])
  }

  function QuarterlyFold(t: Tables, files: seq<Upload>, toText: real -> string): Tables
  {
    if |files| == 0 then t
    else QuarterlyStep(QuarterlyFold(t, files[..|files| - 1], toText), files[|files| - 1], toText)
  }

  /** What one upload adds to an EC's quarterly total: its extraction, or nothing. */
  function Contribution(u: Upload, ec: string, toText: real -> string): Metrics
  {
    if u.ec == Some(ec) && ScheduleB.ExtractSchB(u.doc, toText).Some? then
      ScheduleB.ExtractSchB(u.doc, toText).value
    else map[]
  }

  /** The fill-value sum of every extraction uploaded for an EC. */
  function QuarterSum(files: seq<Upload>, ec: string, toText: real -> string): Metrics
  {
    if |files| == 0 then map[]
    else AddFill(QuarterSum(files[..|files| - 1], ec, toText), Contribution(files[|files| - 1], ec, toText))
  }

  /** The upload is for the EC and yielded Schedule B data. */
  predicate Yields(u: Upload, ec: string, toText: real -> string)
  {
    u.ec == Some(ec) && ScheduleB.ExtractSchB(u.doc, toText).Some?
  }

  /** Some upload for the EC yielded Schedule B data. */
  predicate HasQuarter(files: seq<Upload>, ec: string, toText: real -> string)
  {
    |files| > 0 && (HasQuarter(files[..|files| - 1], ec, toText) || Yields(files[|files| - 1], ec, toText))
  }

  lemma AddFillEmptyRight(a: Metrics)
    ensures AddFill(a, map[]) == a
  {
    AddFillCommutes(a, map[]);
    AddFillEmpty(a);
  }

  /**
   * After the loop, an EC's quarterly total is what it held before plus the
   * fill-value sum of all its extractions.
   */
  lemma {:induction false} QuarterlyTotals(t: Tables, files: seq<Upload>, ec: string, toText: real -> string)
    ensures Lookup(QuarterlyFold(t, files, toText).ecData, ec) == AddFill(Lookup(t.ecData, ec), QuarterSum(files, ec, toText))
  {
    if |files| == 0 {
      AddFillEmptyRight(Lookup(t.ecData, ec));
    } else {
      var p := files[..|files| - 1];
      var u := files[|files| - 1];
      QuarterlyTotals(t, p, ec, toText);
      QuarterlyStepTotal(QuarterlyFold(t, p, toText), u, ec, toText);
      AddFillAssociates(Lookup(t.ecData, ec), QuarterSum(p, ec, toText), Contribution(u, ec, toText));
    }
  }

  /** One quarterly pass adds the upload's contribution to the EC's total. */
  lemma QuarterlyStepTotal(t: Tables, u: Upload, ec: string, toText: real -> string)
    ensures Lookup(QuarterlyStep(t, u, toText).ecData, ec) == AddFill(Lookup(t.ecData, ec), Contribution(u, ec, toText))
  {
    if !Yields(u, ec, toText) {
      AddFillEmptyRight(Lookup(t.ecData, ec));
    }
  }

  /** An EC has a quarterly total exactly when it had one or some upload for it yielded data. */
  lemma {:induction false} QuarterlyKeys(t: Tables, files: seq<Upload>, ec: string, toText: real -> string)
    ensures ec in QuarterlyFold(t, files, toText).ecData <==> ec in t.ecData || HasQuarter(files, ec, toText)
  {
    if |files| > 0 {
      var p := files[..|files| - 1];
      var u := files[|files| - 1];
      QuarterlyKeys(t, p, ec, toText);
      QuarterlyStepKeys(QuarterlyFold(t, p, toText), u, ec, toText);
    }
  }

  lemma QuarterlyStepKeys(t: Tables, u: Upload, ec: string, toText: real -> string)
    ensures ec in QuarterlyStep(t, u, toText).ecData <==> ec in t.ecData || Yields(u, ec, toText)
  {
  }

  lemma {:induction false} HasQuarterAppend(a: seq<Upload>, b: seq<Upload>, ec: string, toText: real -> string)
    ensures HasQuarter(a + b, ec, toText) <==> HasQuarter(a, ec, toText) || HasQuarter(b, ec, toText)
  {
    if |b| == 0 {
      assert a + b == a;
    } else {
      HasQuarterAppend(a, b[..|b| - 1], ec, toText);
      assert (a + b)[..|a + b| - 1] == a + b[..|b| - 1];
    }
  }

  lemma {:induction false} QuarterSumAppend(a: seq<Upload>, b: seq<Upload>, ec: string, toText: real -> string)
    ensures QuarterSum(a + b, ec, toText) == AddFill(QuarterSum(a, ec, toText), QuarterSum(b, ec, toText))
  {
    if |b| == 0 {
      assert a + b == a;
      AddFillEmptyRight(QuarterSum(a, ec, toText));
    } else {
      var bp := b[..|b| - 1];
      QuarterSumAppend(a, bp, ec, toText);
      assert (a + b)[..|a + b| - 1] == a + bp;
      AddFillAssociates(QuarterSum(a, ec, toText), QuarterSum(bp, ec, toText), Contribution(b[|b| - 1], ec, toText));
    }
  }

  lemma QuarterSumPair(x: Upload, y: Upload, ec: string, toText: real -> string)
    ensures QuarterSum([x, y], ec, toText) == QuarterSum([y, x], ec, toText)
  {
    QuarterSumOne(x, ec, toText);
    QuarterSumOne(y, ec, toText);
    QuarterSumAppend([x], [y], ec, toText);
    QuarterSumAppend([y], [x], ec, toText);
    assert [x] + [y] == [x, y] && [y] + [x] == [y, x];
    AddFillCommutes(Contribution(x, ec, toText), Contribution(y, ec, toText));
  }

  lemma QuarterSumOne(x: Upload, ec: string, toText: real -> string)
    ensures QuarterSum([x], ec, toText) == Contribution(x, ec, toText)
  {
    assert [x][..0] == [];
    AddFillEmpty(Contribution(x, ec, toText));
  }

  /** Exchanging two neighbouring uploads changes no EC's quarterly total. */
  lemma QuarterSumSwap(a: seq<Upload>, x: Upload, y: Upload, b: seq<Upload>, ec: string, toText: real -> string)
    ensures QuarterSum(a + [x, y] + b, ec, toText) == QuarterSum(a + [y, x] + b, ec, toText)
  {
    QuarterSumAppend(a + [x, y], b, ec, toText);
    QuarterSumAppend(a + [y, x], b, ec, toText);
    QuarterSumAppend(a, [x, y], ec, toText);
    QuarterSumAppend(a, [y, x], ec, toText);
    QuarterSumPair(x, y, ec, toText);
  }

  lemma HasQuarterSwap(a: seq<Upload>, x: Upload, y: Upload, b: seq<Upload>, ec: string, toText: real -> string)
    ensures HasQuarter(a + [x, y] + b, ec, toText) <==> HasQuarter(a + [y, x] + b, ec, toText)
  {
    HasQuarterAppend(a + [x, y], b, ec, toText);
    HasQuarterAppend(a + [y, x], b, ec, toText);
    HasQuarterAppend(a, [x, y], ec, toText);
    HasQuarterAppend(a, [y, x], ec, toText);
    assert [x, y][..1] == [x] && [y, x][..1] == [y];
    assert [x][..0] == [] && [y][..0] == [];
  }

  /** The order of the quarterly files does not matter: swapping two neighbours leaves `ec_data` as it was. */
  lemma QuarterOrderIrrelevant(t: Tables, a: seq<Upload>, x: Upload, y: Upload, b: seq<Upload>, toText: real -> string)
    ensures QuarterlyFold(t, a + [x, y] + b, toText).ecData == QuarterlyFold(t, a + [y, x] + b, toText).ecData
  {
    var l := QuarterlyFold(t, a + [x, y] + b, toText).ecData;
    var r := QuarterlyFold(t, a + [y, x] + b, toText).ecData;
    forall ec ensures (ec in l <==> ec in r) && Lookup(l, ec) == Lookup(r, ec) {
      QuarterlyKeys(t, a + [x, y] + b, ec, toText);
      QuarterlyKeys(t, a + [y, x] + b, ec, toText);
      HasQuarterSwap(a, x, y, b, ec, toText);
      QuarterlyTotals(t, a + [x, y] + b, ec, toText);
      QuarterlyTotals(t, a + [y, x] + b, ec, toText);
      QuarterSumSwap(a, x, y, b, ec, toText);
    }
    assert l.Keys == r.Keys;
    forall ec | ec in l ensures l[ec] == r[ec] {
      assert Lookup(l, ec) == Lookup(r, ec);
    }
  }

  /** Uploads that rearrange one another add up to the same quarterly sum and yield data for the same ECs. */
  lemma {:induction false} QuarterSumPermutation(a: seq<Upload>, b: seq<Upload>, ec: string, toText: real -> string)
    requires multiset(a) == multiset(b)
    ensures QuarterSum(a, ec, toText) == QuarterSum(b, ec, toText)
    ensures HasQuarter(a, ec, toText) <==> HasQuarter(b, ec, toText)
    decreases |a|
  {
    if |a| == 0 {
      assert |b| == |multiset(b)| == 0;
    } else {
      var x := a[|a| - 1];
      var i := LastElsewhere(a, b);
      var b1, b2 := b[..i], b[i + 1..];
      assert b == b1 + [x] + b2;
      QuarterSumPermutation(a[..|a| - 1], b1 + b2, ec, toText);
      QuarterSumMiddle(b1, x, b2, ec, toText);
      HasQuarterMiddle(b1, x, b2, ec, toText);
    }
  }

  /** The last element of a sequence sits somewhere in any rearrangement of it; taking both out leaves rearrangements. */
  lemma LastElsewhere<T>(a: seq<T>, b: seq<T>) returns (i: nat)
    requires multiset(a) == multiset(b) && |a| > 0
    ensures i < |b| && b[i] == a[|a| - 1]
    ensures multiset(a[..|a| - 1]) == multiset(b[..i] + b[i + 1..])
  {
    var x := a[|a| - 1];
    assert a == a[..|a| - 1] + [x];
    assert x in multiset(b);
    i :| 0 <= i < |b| && b[i] == x;
    assert b == b[..i] + [x] + b[i + 1..];
    assert multiset(a) == multiset(a[..|a| - 1]) + multiset{x};
    assert multiset(b) == multiset(b[..i]) + multiset{x} + multiset(b[i + 1..]);
    assert multiset(b[..i] + b[i + 1..]) == multiset(b[..i]) + multiset(b[i + 1..]);
    assert multiset(a[..|a| - 1]) == multiset(a) - multiset{x};
    assert multiset(b[..i]) + multiset(b[i + 1..]) == multiset(b) - multiset{x};
  }

  /** An upload in the middle of the files counts as if it came last. */
  lemma QuarterSumMiddle(b1: seq<Upload>, x: Upload, b2: seq<Upload>, ec: string, toText: real -> string)
    ensures QuarterSum(b1 + [x] + b2, ec, toText) == AddFill(QuarterSum(b1 + b2, ec, toText), Contribution(x, ec, toText))
  {
    QuarterSumAppend(b1 + [x], b2, ec, toText);
    QuarterSumAppend(b1, [x], ec, toText);
    QuarterSumAppend(b1, b2, ec, toText);
    QuarterSumOne(x, ec, toText);
    var s1, s2, cx := QuarterSum(b1, ec, toText), QuarterSum(b2, ec, toText), Contribution(x, ec, toText);
    AddFillAssociates(s1, cx, s2);
    AddFillCommutes(cx, s2);
    AddFillAssociates(s1, s2, cx);
  }

  lemma HasQuarterMiddle(b1: seq<Upload>, x: Upload, b2: seq<Upload>, ec: string, toText: real -> string)
    ensures HasQuarter(b1 + [x] + b2, ec, toText) <==> HasQuarter(b1 + b2, ec, toText) || Yields(x, ec, toText)
  {
    HasQuarterAppend(b1 + [x], b2, ec, toText);
    HasQuarterAppend(b1, [x], ec, toText);
    HasQuarterAppend(b1, b2, ec, toText);
    assert [x][..0] == [];
  }

  /** Any rearrangement of the quarterly files leaves `ec_data` as it was. */
  lemma QuarterOrderPermutation(t: Tables, a: seq<Upload>, b: seq<Upload>, toText: real -> string)
    requires multiset(a) == multiset(b)
    ensures QuarterlyFold(t, a, toText).ecData == QuarterlyFold(t, b, toText).ecData
  {
    var l := QuarterlyFold(t, a, toText).ecData;
    var r := QuarterlyFold(t, b, toText).ecData;
    forall ec ensures (ec in l <==> ec in r) && Lookup(l, ec) == Lookup(r, ec) {
      QuarterlyKeys(t, a, ec, toText);
      QuarterlyKeys(t, b, ec, toText);
      QuarterlyTotals(t, a, ec, toText);
      QuarterlyTotals(t, b, ec, toText);
      QuarterSumPermutation(a, b, ec, toText);
    }
    assert l.Keys == r.Keys;
    forall ec | ec in l ensures l[ec] == r[ec] {
      assert Lookup(l, ec) == Lookup(r, ec);
    }
  }

  /** An EC for which no quarterly upload yields data keeps its quarterly total and its bank name. */
  lemma {:induction false} QuarterlyUntouched(t: Tables, files: seq<Upload>, ec: string, toText: real -> string)
    requires forall k :: 0 <= k < |files| ==> !Yields(files[k], ec, toText)
    ensures (ec in QuarterlyFold(t, files, toText).ecData) == (ec in t.ecData)
    ensures ec in t.ecData ==> QuarterlyFold(t, files, toText).ecData[ec] == t.ecData[ec]
    ensures (ec in QuarterlyFold(t, files, toText).bankNames) == (ec in t.bankNames)
    ensures ec in t.bankNames ==> QuarterlyFold(t, files, toText).bankNames[ec] == t.bankNames[ec]
  {
    if |files| > 0 {
      var p := files[..|files| - 1];
      assert forall k :: 0 <= k < |p| ==> p[k] == files[k];
      QuarterlyUntouched(t, p, ec, toText);
      QuarterlyStepBank(QuarterlyFold(t, p, toText), files[|files| - 1], ec, toText);
    }
  }

  /** Quarterly uploads never touch the annual figures. */
  lemma {:induction false} QuarterlyKeepsAnnual(t: Tables, files: seq<Upload>, toText: real -> string)
    ensures QuarterlyFold(t, files, toText).cdData == t.cdData
  {
    if |files| > 0 {
      QuarterlyKeepsAnnual(t, files[..|files| - 1], toText);
    }
  }

  /** The bank name of an EC is the one of the last quarterly upload for it that yielded data. */
  lemma {:induction false} QuarterlyBankLastWins(t: Tables, files: seq<Upload>, ec: string, j: nat, toText: real -> string)
    requires j < |files| && Yields(files[j], ec, toText)
    requires forall k :: j < k < |files| ==> !Yields(files[k], ec, toText)
    ensures ec in QuarterlyFold(t, files, toText).bankNames
    ensures QuarterlyFold(t, files, toText).bankNames[ec] == files[j].bank
  {
    var p := files[..|files| - 1];
    QuarterlyStepBank(QuarterlyFold(t, p, toText), files[|files| - 1], ec, toText);
    if j < |files| - 1 {
      assert p[j] == files[j];
      QuarterlyBankLastWins(t, p, ec, j, toText);
    }
  }

  /**
   * One quarterly pass sets an EC's bank name when it yields data for it,
   * and otherwise leaves the EC's total and bank name as they were.
   */
  lemma QuarterlyStepBank(t: Tables, u: Upload, ec: string, toText: real -> string)
    ensures var s := QuarterlyStep(t, u, toText);
      Yields(u, ec, toText) ==> ec in s.bankNames && s.bankNames[ec] == u.bank
    ensures var s := QuarterlyStep(t, u, toText);
      !Yields(u, ec, toText) ==>
        && (ec in s.ecData <==> ec in t.ecData) && (ec in t.ecData ==> s.ecData[ec] == t.ecData[ec])
        && (ec in s.bankNames <==> ec in t.bankNames) && (ec in t.bankNames ==> s.bankNames[ec] == t.bankNames[ec])
  {
  }

  // ---------------------------------------------------------------------
  // Annual uploads

  predicate AllReadable(files: seq<Upload>)
  {
    forall i :: 0 <= i < |files| && files[i].ec.Some? ==> CdParser.AnnualReadable(files[i].doc)
  }

  /** One pass of the annual upload loop: a non-empty extraction replaces the EC's annual figures. */
  function AnnualStep(t: Tables, u: Upload): Tables
    requires u.ec.Some? ==> CdParser.AnnualReadable(u.doc)
  {
    match u.ec
    case None => t
    case Some(ec) =>
      var m := CdParser.AnnualSpec(u.doc);
      if m == map[] then t
      else Tables(t.ecData, t.cdData[ec := m], t.bankNames[ec := u.bank])
  }

  function AnnualFold(t: Tables, files: seq<Upload>): Tables
    requires AllReadable(files)
  {
    if |files| == 0 then t
    else
      var p := files[..|files| - 1];
      assert AllReadable(p) by {
        forall i | 0 <= i < |p| && p[i].ec.Some? ensures CdParser.AnnualReadable(p[i].doc) {
          assert p[i] == files[i];
        }
      }
      AnnualStep(AnnualFold(t, p), files[|files| - 1])
  }

  lemma AllReadablePrefix(files: seq<Upload>, n: nat)
    requires AllReadable(files) && n <= |files|
    ensures AllReadable(files[..n])
  {
    assert forall i :: 0 <= i < n ==> files[..n][i] == files[i];
  }

  /** Annual storage is overwrite-only: the last non-empty extraction for an EC wins. */
  lemma {:induction false} AnnualLastWins(t: Tables, files: seq<Upload>, ec: string, j: nat)
    requires AllReadable(files) && j < |files| && files[j].ec == Some(ec)
    requires CdParser.AnnualSpec(files[j].doc) != map[]
    requires forall k :: j < k < |files| && files[k].ec == Some(ec) ==> CdParser.AnnualSpec(files[k].doc) == map[]
    ensures ec in AnnualFold(t, files).cdData && ec in AnnualFold(t, files).bankNames
    ensures AnnualFold(t, files).cdData[ec] == CdParser.AnnualSpec(files[j].doc)
    ensures AnnualFold(t, files).bankNames[ec] == files[j].bank
  {
    var p := files[..|files| - 1];
    AllReadablePrefix(files, |files| - 1);
    if j < |files| - 1 {
      assert p[j] == files[j];
      AnnualLastWins(t, p, ec, j);
    }
  }

  /** An EC without a non-empty annual extraction keeps its annual figures and its bank name. */
  lemma {:induction false} AnnualUntouched(t: Tables, files: seq<Upload>, ec: string)
    requires AllReadable(files)
    requires forall k :: 0 <= k < |files| && files[k].ec == Some(ec) ==> CdParser.AnnualSpec(files[k].doc) == map[]
    ensures (ec in AnnualFold(t, files).cdData) == (ec in t.cdData)
    ensures ec in t.cdData ==> AnnualFold(t, files).cdData[ec] == t.cdData[ec]
    ensures (ec in AnnualFold(t, files).bankNames) == (ec in t.bankNames)
    ensures ec in t.bankNames ==> AnnualFold(t, files).bankNames[ec] == t.bankNames[ec]
  {
    if |files| > 0 {
      var p := files[..|files| - 1];
      AllReadablePrefix(files, |files| - 1);
      assert forall k :: 0 <= k < |p| ==> p[k] == files[k];
      AnnualUntouched(t, p, ec);
    }
  }

  /** Annual uploads never touch the quarterly totals. */
  lemma {:induction false} AnnualKeepsQuarters(t: Tables, files: seq<Upload>)
    requires AllReadable(files)
    ensures AnnualFold(t, files).ecData == t.ecData
  {
    if |files| > 0 {
      AllReadablePrefix(files, |files| - 1);
      AnnualKeepsQuarters(t, files[..|files| - 1]);
    }
  }

  // ---------------------------------------------------------------------
  // The invariant of the tables

  /**
   * Every EC with data has a bank name and no other EC has one; a quarterly
   * total holds exactly the 24 Schedule B metrics; annual figures are never
   * empty and use only the annual vocabulary.
   */
  predicate WellFormed(t: Tables)
  {
    && t.bankNames.Keys == t.ecData.Keys + t.cdData.Keys
    && QuarterShapes(t.ecData)
    && AnnualShapes(t.cdData)
  }

  predicate QuarterShapes(data: map<string, Metrics>)
  {
    forall ec :: ec in data ==> data[ec].Keys == ScheduleB.Names()
  }

  predicate AnnualShapes(data: map<string, Readings>)
  {
    forall ec :: ec in data ==> data[ec] != map[] && data[ec].Keys <= CdParser.AnnualVocabulary()
  }

  lemma QuarterlyStepKeeps(t: Tables, u: Upload, toText: real -> string)
    requires WellFormed(t)
    ensures WellFormed(QuarterlyStep(t, u, toText))
  {
    QuarterlyStepBanks(t, u, toText);
    QuarterlyStepShapes(t, u, toText);
    QuarterlyKeepsAnnual(t, [u], toText);
    assert [u][..0] == [];
  }

  /** One quarterly pass names a bank for exactly the ECs it gives data. */
  lemma QuarterlyStepBanks(t: Tables, u: Upload, toText: real -> string)
    requires t.bankNames.Keys == t.ecData.Keys + t.cdData.Keys
    ensures var s := QuarterlyStep(t, u, toText); s.bankNames.Keys == s.ecData.Keys + s.cdData.Keys
  {
  }

  lemma QuarterlyStepShapes(t: Tables, u: Upload, toText: real -> string)
    requires QuarterShapes(t.ecData)
    ensures QuarterShapes(QuarterlyStep(t, u, toText).ecData)
  {
    if u.ec.Some? && ScheduleB.ExtractSchB(u.doc, toText).Some? {
      var ec := u.ec.value;
      var m := ScheduleB.ExtractSchB(u.doc, toText).value;
      QuarterShapesAdd(t.ecData, ec, m);
    }
  }

  lemma QuarterShapesAdd(data: map<string, Metrics>, ec: string, m: Metrics)
    requires QuarterShapes(data) && m.Keys == ScheduleB.Names()
    ensures QuarterShapes(data[ec := AddFill(Lookup(data, ec), m)])
  {
    assert AddFill(Lookup(data, ec), m).Keys == Lookup(data, ec).Keys + m.Keys;
  }

  lemma {:induction false} QuarterlyFoldKeeps(t: Tables, files: seq<Upload>, toText: real -> string)
    requires WellFormed(t)
    ensures WellFormed(QuarterlyFold(t, files, toText))
  {
    if |files| > 0 {
      QuarterlyFoldKeeps(t, files[..|files| - 1], toText);
      QuarterlyStepKeeps(QuarterlyFold(t, files[..|files| - 1], toText), files[|files| - 1], toText);
    }
  }

  lemma AnnualStepKeeps(t: Tables, u: Upload)
    requires WellFormed(t) && (u.ec.Some? ==> CdParser.AnnualReadable(u.doc))
    ensures WellFormed(AnnualStep(t, u))
  {
    if u.ec.Some? {
      var m := CdParser.AnnualSpec(u.doc);
      if m != map[] {
        CdParser.AnnualKeysInVocabulary(u.doc);
        AnnualShapesSet(t.cdData, u.ec.value, m);
      }
    }
  }

  lemma AnnualShapesSet(data: map<string, Readings>, ec: string, m: Readings)
    requires AnnualShapes(data) && m != map[] && m.Keys <= CdParser.AnnualVocabulary()
    ensures AnnualShapes(data[ec := m])
  {
  }

  lemma {:induction false} AnnualFoldKeeps(t: Tables, files: seq<Upload>)
    requires WellFormed(t) && AllReadable(files)
    ensures WellFormed(AnnualFold(t, files))
  {
    if |files| > 0 {
      AllReadablePrefix(files, |files| - 1);
      AnnualFoldKeeps(t, files[..|files| - 1]);
      AnnualStepKeeps(AnnualFold(t, files[..|files| - 1]), files[|files| - 1]);
    }
  }

  // ---------------------------------------------------------------------
  // Sorting EC numbers

  /** Python's string order: lexicographic by code point, a proper prefix first. */
  predicate StrLt(a: string, b: string)
  {
    if |a| == 0 then |b| > 0
    else if |b| == 0 then false
    else if a[0] != b[0] then a[0] < b[0]
    else StrLt(a[1..], b[1..])
  }

  lemma {:induction false} StrLtIrreflexive(a: string)
    ensures !StrLt(a, a)
  {
    if |a| > 0 {
      StrLtIrreflexive(a[1..]);
    }
  }

  lemma {:induction false} StrLtTransitive(a: string, b: string, c: string)
    requires StrLt(a, b) && StrLt(b, c)
    ensures StrLt(a, c)
  {
    if |a| > 0 && |b| > 0 && |c| > 0 && a[0] == b[0] && b[0] == c[0] {
      StrLtTransitive(a[1..], b[1..], c[1..]);
    }
  }

  lemma {:induction false} StrLtTotal(a: string, b: string)
    requires a != b
    ensures StrLt(a, b) || StrLt(b, a)
  {
    if |a| > 0 && |b| > 0 && a[0] == b[0] {
      assert a == [a[0]] + a[1..] && b == [b[0]] + b[1..];
      StrLtTotal(a[1..], b[1..]);
    }
  }

  /** The least of a non-empty set of EC numbers. */
  method Least(keys: set<string>) returns (m: string)
    requires keys != {}
    ensures m in keys
    ensures forall k :: k in keys && k != m ==> StrLt(m, k)
  {
    m :| m in keys;
    var todo := keys - {m};
    while todo != {}
      invariant todo <= keys && m in keys && m !in todo
      invariant forall k :: k in keys - todo && k != m ==> StrLt(m, k)
      decreases |todo|
    {
      var x :| x in todo;
      if StrLt(x, m) {
        forall k | k in keys - (todo - {x}) && k != x ensures StrLt(x, k) {
          if k != m {
            StrLtTransitive(x, m, k);
          }
        }
        m := x;
      } else {
        StrLtTotal(x, m);
      }
      todo := todo - {x};
    }
  }

  /** `sorted(keys)`: every key once, in increasing order. */
  method SortedKeys(keys: set<string>) returns (s: seq<string>)
    ensures forall k :: k in keys <==> k in s
    ensures forall i, j :: 0 <= i < j < |s| ==> StrLt(s[i], s[j])
  {
    s := [];
    var rest := keys;
    while rest != {}
      invariant rest <= keys
      invariant forall k :: k in keys <==> k in rest || k in s
      invariant forall i, j :: 0 <= i < j < |s| ==> StrLt(s[i], s[j])
      invariant forall i, k :: 0 <= i < |s| && k in rest ==> StrLt(s[i], k)
      decreases |rest|
    {
      var m := Least(rest);
      s := s + [m];
      rest := rest - {m};
    }
  }

  // ---------------------------------------------------------------------
  // The validation matrix

  /** One line of the matrix; the EC it is about is kept alongside the two displayed columns. */
  datatype MatrixRow = MatrixRow(ec: string, bank: string, hasIssues: string)

  /** `bank_names.get(ec, f"EC{ec}")`. */
  function BankLabel(t: Tables, ec: string): string
  {
    if ec in t.bankNames then t.bankNames[ec] else "EC" + ec
  }

  function Verdict(b: Metrics, cd: Readings): string
  {
    if HasIssues(b, cd) then "Yes" else "No"
  }

  function RowOf(t: Tables, ec: string): MatrixRow
    requires ec in t.ecData && ec in t.cdData
  {
    MatrixRow(ec, BankLabel(t, ec), Verdict(t.ecData[ec], t.cdData[ec]))
  }

  /** In well-formed tables a reconciled EC always has its own bank name; the fallback is never shown. */
  lemma BankLabelKnown(t: Tables, ec: string)
    requires WellFormed(t) && ec in t.ecData && ec in t.cdData
    ensures ec in t.bankNames && BankLabel(t, ec) == t.bankNames[ec]
  {
  }

  /** Every metric the annual extractor can report is one of the 24 Schedule B metrics. */
  lemma AnnualVocabularyInNames()
    ensures CdParser.AnnualVocabulary() <= ScheduleB.Names()
  {
    forall k | k in CdParser.AnnualVocabulary() ensures k in ScheduleB.Names() {
      var n := VocabularyEntry(k);
      NameIn(n);
    }
  }

  /** Each annual metric is the name of a Schedule B entry other than the four "Deep" ones. */
  lemma VocabularyEntry(k: string) returns (n: nat)
    requires k in CdParser.AnnualVocabulary()
    ensures n < |ScheduleB.ColMap| && (n < 4 || 8 <= n) && ScheduleB.ColMap[n].name == k
  {
    if k in CdParser.C1Keys() {
      C1KeysAreNames();
      n := if k == ScheduleB.ColMap[0].name then 0 else if k == ScheduleB.ColMap[1].name then 1
        else if k == ScheduleB.ColMap[2].name then 2 else 3;
    } else if k in CdParser.C2Keys() {
      C2KeysAreNames();
      n := if k == ScheduleB.ColMap[8].name then 8 else 9;
    } else {
      CdParser.TabKeysOfMembers(CdParser.DTabs);
      var j :| 0 <= j < |CdParser.DTabs| && k in CdParser.TabKeys(CdParser.DTabs[j]);
      TabKeysAreNames(j);
      n := if k == ScheduleB.ColMap[10 + 2 * j].name then 10 + 2 * j else 11 + 2 * j;
    }
  }

  lemma NameIn(n: nat)
    requires n < |ScheduleB.ColMap|
    ensures ScheduleB.ColMap[n].name in ScheduleB.Names()
  {
    ScheduleB.NamesOfMembers(ScheduleB.ColMap);
  }

  /** C1's metrics are Schedule B's entries 0 to 3. */
  lemma C1KeysAreNames()
    ensures CdParser.C1Keys() ==
      {ScheduleB.ColMap[0].name, ScheduleB.ColMap[1].name, ScheduleB.ColMap[2].name, ScheduleB.ColMap[3].name}
  {
  }

  /** C2's metrics are Schedule B's entries 8 and 9. */
  lemma C2KeysAreNames()
    ensures CdParser.C2Keys() == {ScheduleB.ColMap[8].name, ScheduleB.ColMap[9].name}
  {
  }

  /** D tab i's two metrics are Schedule B's entries 10 + 2i and 11 + 2i. */
  lemma TabKeysAreNames(i: nat)
    requires i < |CdParser.DTabs|
    ensures CdParser.TabKeys(CdParser.DTabs[i]) == {ScheduleB.ColMap[10 + 2 * i].name, ScheduleB.ColMap[11 + 2 * i].name}
  {
    CdParser.TabKeysSpelled();
  }

  /**
   * For well-formed tables, an EC has issues exactly when some metric of
   * its annual figures differs from its quarterly total by more than 1.
   */
  lemma VerdictIff(t: Tables, ec: string)
    requires WellFormed(t) && ec in t.ecData && ec in t.cdData
    ensures t.cdData[ec].Keys <= t.ecData[ec].Keys
    ensures RowOf(t, ec).hasIssues == "Yes" <==>
      exists k :: Known(t.cdData[ec], k) && Abs(t.ecData[ec][k] - t.cdData[ec][k].value) > Threshold
    ensures RowOf(t, ec).hasIssues == "No" <==> !HasIssues(t.ecData[ec], t.cdData[ec])
  {
    AnnualVocabularyInNames();
    HasIssuesIff(t.ecData[ec], t.cdData[ec]);
  }

  /**
   * The four "Deep" metrics of Schedule B have no annual counterpart, so
   * their difference is always 0 and they never raise an issue.
   */
  lemma DeepMetricsNeverCompared(t: Tables, ec: string, i: nat)
    requires WellFormed(t) && ec in t.ecData && ec in t.cdData
    requires 4 <= i < 8
    ensures ScheduleB.ColMap[i].name in t.ecData[ec]
    ensures ScheduleB.ColMap[i].name !in t.cdData[ec]
    ensures Diff(t.ecData[ec], t.cdData[ec])[ScheduleB.ColMap[i].name] == 0.0
  {
    DeepNotAnnual(i);
    ScheduleB.NamesOfMembers(ScheduleB.ColMap);
    assert ScheduleB.ColMap[i].name in t.ecData[ec];
  }

  lemma DeepNotAnnual(i: nat)
    requires 4 <= i < 8
    ensures ScheduleB.ColMap[i].name !in CdParser.AnnualVocabulary()
  {
    if ScheduleB.ColMap[i].name in CdParser.AnnualVocabulary() {
      var n := VocabularyEntry(ScheduleB.ColMap[i].name);
      ScheduleB.NamesDistinct();
      assert false;
    }
  }

  /** Four quarters of 10 against an annual 40 reconcile; against 45 they do not. */
  lemma FourQuartersExample()
    ensures AddFill(AddFill(AddFill(AddFill(map[], map["m" := 10.0]), map["m" := 10.0]), map["m" := 10.0]), map["m" := 10.0])
      == map["m" := 40.0]
    ensures Verdict(map["m" := 40.0], map["m" := Some(40.0)]) == "No"
    ensures Verdict(map["m" := 40.0], map["m" := Some(45.0)]) == "Yes"
  {
    AddFillEmpty(map["m" := 10.0]);
    AddFillSame("m", 10.0, 10.0);
    AddFillSame("m", 20.0, 10.0);
    AddFillSame("m", 30.0, 10.0);
    SingleMetricVerdict("m", 40.0, 40.0);
    SingleMetricVerdict("m", 40.0, 45.0);
  }

  /** The tables after the quarterly uploads and then the annual uploads, starting empty. */
  function Run(quarterly: seq<Upload>, annual: seq<Upload>, toText: real -> string): Tables
    requires AllReadable(annual)
  {
    AnnualFold(QuarterlyFold(NoTables, quarterly, toText), annual)
  }

  /**
   * From the workbooks to the matrix, for C1's LMI loan count: after the
   * quarterly uploads and then the annual uploads, where upload j is the
   * last annual upload with figures for an EC, the EC's quarterly total is
   * the fill-value sum of its Schedule B extractions, its annual figures are
   * what `extract_c_and_d_data` returns for upload j, with the LMI loan
   * count equal to `row[3] + row[5]` of the C1 sheet's row index 20, and its
   * matrix row names upload j's bank and reconciles exactly those two series.
   */
  lemma {:induction false} C1LmiLoansEndToEnd(files: seq<Upload>, annual: seq<Upload>, j: nat, ec: string, toText: real -> string)
    requires HasQuarter(files, ec, toText)
    requires AllReadable(annual) && j < |annual| && annual[j].ec == Some(ec)
    requires CdParser.Usable(annual[j].doc, CdParser.C1Sheet, CdParser.FixedRowMinRows)
    requires CdParser.NumAt(annual[j].doc[CdParser.C1Sheet], 3) && CdParser.NumAt(annual[j].doc[CdParser.C1Sheet], 5)
    requires forall k :: j < k < |annual| && annual[k].ec == Some(ec) ==> CdParser.AnnualSpec(annual[k].doc) == map[]
    ensures var t := Run(files, annual, toText);
      && ec in t.ecData && ec in t.cdData
      && t.ecData[ec] == QuarterSum(files, ec, toText)
      && t.cdData[ec] == CdParser.AnnualSpec(annual[j].doc)
      && RowOf(t, ec) == MatrixRow(ec, annual[j].bank, Verdict(t.ecData[ec], t.cdData[ec]))
      && CdParser.C1LmiLoans in t.ecData[ec] && CdParser.C1LmiLoans in t.cdData[ec]
      && t.cdData[ec][CdParser.C1LmiLoans]
        == Some(CdParser.RowValue(annual[j].doc[CdParser.C1Sheet], 3) + CdParser.RowValue(annual[j].doc[CdParser.C1Sheet], 5))
  {
    var q := QuarterlyFold(NoTables, files, toText);
    QuarterlyFromScratch(files, ec, toText);
    C1LmiLoansStored(q, annual, j, ec);
    AnnualRowReconciled(q, annual, j, ec);
    assert CdParser.C1LmiLoans in q.ecData[ec] by {
      C1KeysAreNames();
      ScheduleB.NamesOfMembers(ScheduleB.ColMap);
    }
  }

  /** After the annual loop, C1's LMI loan count for the EC is the sum of cells 3 and 5 of the last non-empty upload. */
  lemma {:induction false} C1LmiLoansStored(q: Tables, annual: seq<Upload>, j: nat, ec: string)
    requires AllReadable(annual) && j < |annual| && annual[j].ec == Some(ec)
    requires CdParser.Usable(annual[j].doc, CdParser.C1Sheet, CdParser.FixedRowMinRows)
    requires CdParser.NumAt(annual[j].doc[CdParser.C1Sheet], 3) && CdParser.NumAt(annual[j].doc[CdParser.C1Sheet], 5)
    requires forall k :: j < k < |annual| && annual[k].ec == Some(ec) ==> CdParser.AnnualSpec(annual[k].doc) == map[]
    ensures var t := AnnualFold(q, annual);
      && ec in t.cdData && CdParser.AnnualSpec(annual[j].doc) != map[]
      && CdParser.C1LmiLoans in t.cdData[ec]
      && t.cdData[ec][CdParser.C1LmiLoans]
        == Some(CdParser.RowValue(annual[j].doc[CdParser.C1Sheet], 3) + CdParser.RowValue(annual[j].doc[CdParser.C1Sheet], 5))
  {
    CdParser.C1LmiLoansFigure(annual[j].doc);
    AnnualLastWins(q, annual, ec, j);
  }

  /**
   * After the annual loop, an EC with quarterly data whose last non-empty
   * annual extraction is upload `j` is reconciled against that extraction,
   * under the bank name of that upload; the quarterly table is untouched.
   */
  lemma {:induction false} AnnualRowReconciled(q: Tables, annual: seq<Upload>, j: nat, ec: string)
    requires WellFormed(q) && ec in q.ecData
    requires AllReadable(annual) && j < |annual| && annual[j].ec == Some(ec)
    requires CdParser.AnnualSpec(annual[j].doc) != map[]
    requires forall k :: j < k < |annual| && annual[k].ec == Some(ec) ==> CdParser.AnnualSpec(annual[k].doc) == map[]
    ensures var t := AnnualFold(q, annual);
      && t.ecData == q.ecData && ec in t.cdData
      && t.cdData[ec] == CdParser.AnnualSpec(annual[j].doc)
      && RowOf(t, ec) == MatrixRow(ec, annual[j].bank, Verdict(t.ecData[ec], t.cdData[ec]))
  {
    AnnualLastWins(q, annual, ec, j);
    AnnualKeepsQuarters(q, annual);
  }

  /**
   * A metric on both sides whose annual figure is a number more than 1 away
   * from its quarterly total makes the verdict "Yes"; a "No" verdict means
   * every such metric agrees to within 1.
   */
  lemma FlaggedMetric(b: Metrics, cd: Readings, k: string, v: real)
    requires k in b && k in cd && cd[k] == Some(v)
    ensures Abs(b[k] - v) > Threshold ==> Verdict(b, cd) == "Yes"
    ensures Verdict(b, cd) == "No" ==> Abs(b[k] - v) <= Threshold
  {
    HasIssuesIff(b, cd);
    assert Known(cd, k);
  }

  /** The quarterly loop run from empty tables: well-formed, each EC holding the sum of its extractions. */
  lemma QuarterlyFromScratch(files: seq<Upload>, ec: string, toText: real -> string)
    ensures WellFormed(QuarterlyFold(NoTables, files, toText))
    ensures ec in QuarterlyFold(NoTables, files, toText).ecData <==> HasQuarter(files, ec, toText)
    ensures Lookup(QuarterlyFold(NoTables, files, toText).ecData, ec) == QuarterSum(files, ec, toText)
    ensures HasQuarter(files, ec, toText) ==> QuarterlyFold(NoTables, files, toText).ecData[ec] == QuarterSum(files, ec, toText)
  {
    QuarterlyKeys(NoTables, files, ec, toText);
    QuarterlyTotals(NoTables, files, ec, toText);
    AddFillEmpty(QuarterSum(files, ec, toText));
    QuarterlyFoldKeeps(NoTables, files, toText);
  }

  lemma AddFillSame(k: string, a: real, b: real)
    ensures AddFill(map[k := a], map[k := b]) == map[k := a + b]
  {
    assert AddFill(map[k := a], map[k := b]).Keys == {k};
  }

  /**
   * With one metric on each side, the verdict is whether the two values
   * differ by more than 1; against a NaN annual figure it is always "No".
   */
  lemma SingleMetricVerdict(k: string, b: real, cd: real)
    ensures Verdict(map[k := b], map[k := Some(cd)]) == if Abs(b - cd) > Threshold then "Yes" else "No"
    ensures Verdict(map[k := b], map[k := None]) == "No"
  {
    HasIssuesIff(map[k := b], map[k := Some(cd)]);
    if Abs(b - cd) > Threshold {
      assert k in map[k := b] && Known(map[k := Some(cd)], k);
    }
    HasIssuesIff(map[k := b], map[k := None]);
  }

  predicate StrictlyIncreasing(keys: seq<string>)
  {
    forall i, j :: 0 <= i < j < |keys| ==> StrLt(keys[i], keys[j])
  }

  predicate RowsIncreasing(rows: seq<MatrixRow>)
  {
    forall a, b :: 0 <= a < b < |rows| ==> StrLt(rows[a].ec, rows[b].ec)
  }

  predicate RowsFaithful(t: Tables, rows: seq<MatrixRow>)
  {
    forall a :: 0 <= a < |rows| ==> rows[a].ec in t.ecData && rows[a].ec in t.cdData && rows[a] == RowOf(t, rows[a].ec)
  }

  /** Every row comes before the keys from position i on. */
  predicate RowsBefore(rows: seq<MatrixRow>, keys: seq<string>, i: nat)
  {
    forall a, j :: 0 <= a < |rows| && i <= j < |keys| ==> StrLt(rows[a].ec, keys[j])
  }

  /** Every key before position i that has annual data has a row. */
  predicate KeysCovered(t: Tables, rows: seq<MatrixRow>, keys: seq<string>, i: nat)
  {
    forall j :: 0 <= j < i && j < |keys| && keys[j] in t.cdData ==> exists a :: 0 <= a < |rows| && rows[a].ec == keys[j]
  }

  /** A pass of the matrix loop over a key with annual data appends its row and keeps the loop's invariants. */
  lemma MatrixAppend(t: Tables, rows: seq<MatrixRow>, keys: seq<string>, i: nat)
    requires StrictlyIncreasing(keys) && i < |keys| && keys[i] in t.ecData && keys[i] in t.cdData
    requires RowsIncreasing(rows) && RowsFaithful(t, rows) && RowsBefore(rows, keys, i) && KeysCovered(t, rows, keys, i)
    ensures var r := rows + [RowOf(t, keys[i])];
      RowsIncreasing(r) && RowsFaithful(t, r) && RowsBefore(r, keys, i + 1) && KeysCovered(t, r, keys, i + 1)
  {
    var r := rows + [RowOf(t, keys[i])];
    assert forall a :: 0 <= a < |rows| ==> r[a] == rows[a];
    forall j | 0 <= j < i + 1 && j < |keys| && keys[j] in t.cdData ensures exists a :: 0 <= a < |r| && r[a].ec == keys[j] {
      if j < i {
        var a :| 0 <= a < |rows| && rows[a].ec == keys[j];
        assert r[a].ec == keys[j];
      } else {
        assert r[|rows|].ec == keys[j];
      }
    }
  }

  /** A pass over a key without annual data appends nothing and keeps the loop's invariants. */
  lemma MatrixSkip(t: Tables, rows: seq<MatrixRow>, keys: seq<string>, i: nat)
    requires i < |keys| && keys[i] !in t.cdData
    requires RowsBefore(rows, keys, i) && KeysCovered(t, rows, keys, i)
    ensures RowsBefore(rows, keys, i + 1) && KeysCovered(t, rows, keys, i + 1)
  {
  }

  // ---------------------------------------------------------------------
  // The session

  /** The validator's three dictionaries, filled in place by the upload loops. */
  class Session {
    var ecData: map<string, Metrics>
    var cdData: map<string, Readings>
    var bankNames: map<string, string>

    function State(): Tables
      reads this
    {
      Tables(ecData, cdData, bankNames)
    }

    predicate Valid()
      reads this
    {
      WellFormed(State())
    }

    constructor()
      ensures State() == NoTables && Valid()
    {
      ecData := map[];
      cdData := map[];
      bankNames := map[];
    }

    /** The quarterly upload loop (qsr_validator_app.py, lines 64-75). */
    method UploadQuarterly(files: seq<Upload>, toText: real -> string)
      requires Valid()
      modifies this
      ensures Valid()
      ensures State() == QuarterlyFold(old(State()), files, toText)
    {
      ghost var start := State();
      QuarterlyFoldKeeps(start, files, toText);
      for i := 0 to |files|
        invariant State() == QuarterlyFold(start, files[..i], toText)
      {
        assert files[..i + 1][..i] == files[..i];
        var file := files[i];
        match file.ec {
          case None =>
          case Some(ecNum) =>
            var extracted := ScheduleB.ExtractSchB(file.doc, toText);
            if extracted.Some? {
              ecData := ecData[ecNum := AddFill(Lookup(ecData, ecNum), extracted.value)];
              bankNames := bankNames[ecNum := file.bank];
            }
        }
      }
      assert files[..|files|] == files;
    }

    /** The annual upload loop (qsr_validator_app.py, lines 82-92). */
    method UploadAnnual(files: seq<Upload>)
      requires Valid() && AllReadable(files)
      modifies this
      ensures Valid()
      ensures State() == AnnualFold(old(State()), files)
    {
      ghost var start := State();
      AnnualFoldKeeps(start, files);
      for i := 0 to |files|
        invariant AllReadable(files[..i])
        invariant State() == AnnualFold(start, files[..i])
      {
        assert files[..i + 1][..i] == files[..i];
        AllReadablePrefix(files, i + 1);
        var file := files[i];
        match file.ec {
          case None =>
          case Some(ec) =>
            var extracted := CdParser.ExtractCAndD(file.doc);
            if extracted != map[] {
              cdData := cdData[ec := extracted];
              bankNames := bankNames[ec := file.bank];
            }
        }
      }
      assert files[..|files|] == files;
    }

    /**
     * The validation matrix (qsr_validator_app.py, lines 113-122): one row per EC that has both
     * quarterly and annual data, in increasing EC order.
     */
    method ValidationMatrix() returns (rows: seq<MatrixRow>)
      ensures forall i, j :: 0 <= i < j < |rows| ==> StrLt(rows[i].ec, rows[j].ec)
      ensures forall ec :: ec in ecData && ec in cdData <==> exists i :: 0 <= i < |rows| && rows[i].ec == ec
      ensures forall i :: 0 <= i < |rows| ==>
        rows[i].ec in ecData && rows[i].ec in cdData && rows[i] == RowOf(State(), rows[i].ec)
    {
      var keys := SortedKeys(ecData.Keys);
      rows := [];
      for i := 0 to |keys|
        invariant RowsIncreasing(rows) && RowsFaithful(State(), rows)
        invariant RowsBefore(rows, keys, i) && KeysCovered(State(), rows, keys, i)
      {
        var ecNum := keys[i];
        if ecNum in cdData {
          var dfB := ecData[ecNum];
          var dfCd := cdData[ecNum];
          var hasIssues := HasIssues(dfB, dfCd);
          var bank := if ecNum in bankNames then bankNames[ecNum] else "EC" + ecNum;
          var row := MatrixRow(ecNum, bank, if hasIssues then "Yes" else "No");
          assert row == RowOf(State(), ecNum);
          MatrixAppend(State(), rows, keys, i);
          rows := rows + [row];
        } else {
          MatrixSkip(State(), rows, keys, i);
        }
      }
      forall ec | ec in ecData && ec in cdData ensures exists a :: 0 <= a < |rows| && rows[a].ec == ec {
        var j :| 0 <= j < |keys| && keys[j] == ec;
      }
    }
  }
}
