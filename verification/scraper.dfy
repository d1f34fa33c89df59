/**
 * The row-level logic of wordstream_scraper.py: reading a number out of a table cell, the
 * rule that turns a table row into a keyword record, tagging each record with the website it
 * came from, and the per-source top-N selection written to the CSV file.
 */
module Scraper {
  import opened Wrappers
  import opened Strings
  import opened Numbers
  import Batching

  // ---------------------------------------------------------------------------------------
  // extract_number

  /** `text.replace(',', '').replace('$', '').replace('K', '000').replace('M', '000000')` */
  function Cleaned(text: string): (r: string)
    ensures ',' !in r && '$' !in r && 'K' !in r && 'M' !in r
  {
    var noComma := Replace(text, [','], "");
    var noDollar := Replace(noComma, ['$'], "");
    var noK := Replace(noDollar, ['K'], "000");
    ReplaceCharFree(text, ',', "", ',');
    ReplaceCharFree(noComma, '$', "", ',');
    ReplaceCharFree(noComma, '$', "", '$');
    ReplaceCharFree(noDollar, 'K', "000", ',');
    ReplaceCharFree(noDollar, 'K', "000", '$');
    ReplaceCharFree(noDollar, 'K', "000", 'K');
    ReplaceCharFree(noK, 'M', "000000", ',');
    ReplaceCharFree(noK, 'M', "000000", '$');
    ReplaceCharFree(noK, 'M', "000000", 'K');
    ReplaceCharFree(noK, 'M', "000000", 'M');
    Replace(noK, ['M'], "000000")
  }

  /** `extract_number`: `int(float(cleaned))`, or 0 when `float` rejects the cleaned text. */
  function ExtractNumber(text: string): (n: int)
    ensures ParseFloat(Cleaned(text)).None? ==> n == 0
    ensures ParseFloat(Cleaned(text)).Some? ==>
      var x := ParseFloat(Cleaned(text)).value;
      (x >= 0.0 ==> 0.0 <= n as real <= x < n as real + 1.0) && (x < 0.0 ==> n as real - 1.0 < x <= n as real <= 0.0)
  {
    match ParseFloat(Cleaned(text))
    case Some(x) => Truncate(x)
    case None => 0
  }

  /** Text without `,`, `$`, `K` and `M` is not changed by the cleaning. */
  lemma CleanedPlain(s: string)
    requires ',' !in s && '$' !in s && 'K' !in s && 'M' !in s
    ensures Cleaned(s) == s
  {
    ReplaceCharAbsent(s, ',', "");
    ReplaceCharAbsent(s, '$', "");
    ReplaceCharAbsent(s, 'K', "000");
    ReplaceCharAbsent(s, 'M', "000000");
  }

  lemma DigitsArePlain(s: string)
    requires AllDigits(s)
    ensures ',' !in s && '$' !in s && 'K' !in s && 'M' !in s && '.' !in s
  {
  }

  /** Round trip: the decimal digits of a count read back as the count. */
  lemma ExtractNumberOfDigits(n: nat)
    ensures ExtractNumber(NatToDigits(n)) == n
  {
    var s := NatToDigits(n);
    DigitsArePlain(s);
    CleanedPlain(s);
    DigitsParse(s);
    DigitsOfNat(n);
  }

  /** Cleaning works piece by piece across a concatenation. */
  lemma CleanedAppend(a: string, b: string)
    ensures Cleaned(a + b) == Cleaned(a) + Cleaned(b)
  {
    ReplaceCharAppend(a, b, ',', "");
    var a1, b1 := Replace(a, [','], ""), Replace(b, [','], "");
    ReplaceCharAppend(a1, b1, '$', "");
    var a2, b2 := Replace(a1, ['$'], ""), Replace(b1, ['$'], "");
    ReplaceCharAppend(a2, b2, 'K', "000");
    var a3, b3 := Replace(a2, ['K'], "000"), Replace(b2, ['K'], "000");
    ReplaceCharAppend(a3, b3, 'M', "000000");
  }

  /** Thousands separators anywhere in the text are ignored: "12,345" reads as 12345. */
  lemma CommaIgnored(a: string, b: string)
    ensures ExtractNumber(a + "," + b) == ExtractNumber(a + b)
  {
    CleanedAppend(a + ",", b);
    CleanedAppend(a, ",");
    CleanedAppend(a, b);
    assert Cleaned(",") == "";
    assert Cleaned(a) + "" == Cleaned(a);
  }

  /** A currency sign anywhere in the text is ignored: "$2" reads as 2. */
  lemma DollarIgnored(a: string, b: string)
    ensures ExtractNumber(a + "$" + b) == ExtractNumber(a + b)
  {
    CleanedAppend(a + "$", b);
    CleanedAppend(a, "$");
    CleanedAppend(a, b);
    assert Cleaned("$") == "";
    assert Cleaned(a) + "" == Cleaned(a);
  }

  /** A `K` suffix multiplies a whole number by a thousand: "3K" reads as 3000. */
  lemma ThousandsSuffix(digits: string)
    requires digits != [] && AllDigits(digits)
    ensures ExtractNumber(digits + "K") == DigitsValue(digits) * 1000
  {
    CleanedK();
    SuffixExpands(digits, 'K', "000");
  }

  lemma CleanedK()
    ensures Cleaned("K") == "000" && Pow10(|"000"|) == 1000
    ensures forall i :: 0 <= i < |"000"| ==> "000"[i] == '0'
  {
    assert |"000"| == 3;
    assert Pow10(3) == 1000 by {
      assert Pow10(1) == 10 && Pow10(2) == 100;
    }
  }

  lemma CleanedM()
    ensures Cleaned("M") == "000000" && Pow10(|"000000"|) == 1000000
    ensures forall i :: 0 <= i < |"000000"| ==> "000000"[i] == '0'
  {
    assert |"000000"| == 6;
    assert Pow10(6) == 1000000 by {
      assert Pow10(1) == 10 && Pow10(2) == 100 && Pow10(3) == 1000;
      assert Pow10(4) == 10000 && Pow10(5) == 100000;
    }
  }

  /** An `M` suffix multiplies a whole number by a million. */
  lemma MillionsSuffix(digits: string)
    requires digits != [] && AllDigits(digits)
    ensures ExtractNumber(digits + "M") == DigitsValue(digits) * 1000000
  {
    CleanedM();
    SuffixExpands(digits, 'M', "000000");
  }

  /** A suffix that cleans to zeros multiplies the whole number before it. */
  lemma SuffixExpands(digits: string, suffix: char, zeros: string)
    requires digits != [] && AllDigits(digits)
    requires Cleaned([suffix]) == zeros && forall i :: 0 <= i < |zeros| ==> zeros[i] == '0'
    ensures ExtractNumber(digits + [suffix]) == DigitsValue(digits) * Pow10(|zeros|)
  {
    DigitsArePlain(digits);
    CleanedPlain(digits);
    CleanedAppend(digits, [suffix]);
    var s := digits + zeros;
    assert Cleaned(digits + [suffix]) == s;
    ZerosValue(zeros);
    DigitsValueAppend(digits, zeros);
    var v := DigitsValue(digits) * Pow10(|zeros|);
    assert DigitsValue(s) == v;
    DigitsParse(s);
    assert ParseFloat(s) == Some(v as real);
  }

  /** A string of zeros is worth nothing. */
  lemma {:induction false} ZerosValue(s: string)
    requires forall i :: 0 <= i < |s| ==> s[i] == '0'
    ensures AllDigits(s) && DigitsValue(s) == 0
  {
    if s != [] {
      ZerosValue(s[..|s| - 1]);
    }
  }

  /**
   * The suffix is expanded as text, so it does not scale a fraction: "1.5K" becomes "1.5000",
   * which reads as 1.
   */
  lemma FractionSuffixNotScaled(whole: string, frac: string)
    requires whole != [] && AllDigits(whole) && AllDigits(frac)
    ensures ExtractNumber(whole + "." + frac + "K") == DigitsValue(whole)
  {
    CleanedFraction(whole, frac);
    ZerosValue("000");
    DigitsValueAppend(frac, "000");
    DecimalTruncated(whole + "." + frac + "K", whole, frac + "000");
  }

  /** Text that cleans to `digits.digits` reads as its whole part. */
  lemma DecimalTruncated(text: string, whole: string, tail: string)
    requires Cleaned(text) == whole + "." + tail
    requires whole != [] && AllDigits(whole) && AllDigits(tail)
    ensures ExtractNumber(text) == DigitsValue(whole)
  {
    DecimalTruncates(Cleaned(text), whole, tail);
  }

  /** Cleaning `digits.digitsK` turns the `K` into three zeros after the fraction. */
  lemma CleanedFraction(whole: string, frac: string)
    requires AllDigits(whole) && AllDigits(frac)
    ensures Cleaned(whole + "." + frac + "K") == whole + "." + (frac + "000")
  {
    var head := whole + "." + frac;
    DigitsArePlain(whole);
    DigitsArePlain(frac);
    CleanedPlain(head);
    CleanedAppend(head, "K");
    CleanedK();
  }

  // ---------------------------------------------------------------------------------------
  // extract_table_data

  /**
   * One `tr` of the results table: the text of its first `th` cell if it has one, and the
   * texts of its `td` cells.
   */
  datatype TableRow = TableRow(th: Option<string>, tds: seq<string>)

  /** One scraped keyword; `source` is absent until the record is tagged. */
  datatype ScrapedRow = ScrapedRow(
    keyword: string,
    searchVolume: int,
    bidLow: int,
    bidHigh: int,
    competition: string,
    source: Option<string>)

  /** The smallest search volume a keyword must have to be kept. */
  const MinVolume: int := 500

  /** The record of the keyword `keyword` whose four data cells start at `cells[at]`, if its volume is high enough. */
  function RecordAt(keyword: string, cells: seq<string>, at: nat): (r: Option<ScrapedRow>)
    requires at + 4 <= |cells|
    ensures r.Some? <==> ExtractNumber(Strip(cells[at])) >= MinVolume
    ensures r.Some? ==> r.value == ScrapedRow(keyword, ExtractNumber(Strip(cells[at])),
      ExtractNumber(Strip(cells[at + 1])), ExtractNumber(Strip(cells[at + 2])), Strip(cells[at + 3]), None)
  {
    var searchVolume := ExtractNumber(Strip(cells[at]));
    if searchVolume >= MinVolume then
      Some(ScrapedRow(keyword, searchVolume, ExtractNumber(Strip(cells[at + 1])),
        ExtractNumber(Strip(cells[at + 2])), Strip(cells[at + 3]), None))
    else None
  }

  /**
   * The row rule of `extract_table_data`. With a `th` cell, the keyword is its text and the
   * row needs four `td` cells; a row with a `th` and fewer cells is skipped. Without a `th`,
   * the fallback reads all cells (then only `td` cells) and needs five, the first being the
   * keyword.
   */
  function RowRecord(row: TableRow): (r: Option<ScrapedRow>)
    ensures r.Some? ==> r.value.searchVolume >= MinVolume && r.value.source.None?
    ensures row.th.Some? ==> (r.Some? <==> |row.tds| >= 4 && ExtractNumber(Strip(row.tds[0])) >= MinVolume)
    ensures row.th.None? ==> (r.Some? <==> |row.tds| >= 5 && ExtractNumber(Strip(row.tds[1])) >= MinVolume)
    ensures r.Some? && row.th.Some? ==> r.value.keyword == Strip(row.th.value)
    ensures r.Some? && row.th.None? ==> r.value.keyword == Strip(row.tds[0])
  {
    match row.th
    case Some(th) =>
      if |row.tds| >= 4 then RecordAt(Strip(th), row.tds, 0) else None
    case None =>
      var allCells := row.tds;
      if |allCells| >= 5 then RecordAt(Strip(allCells[0]), allCells, 1) else None
  }

  /** The records of the rows, in order. */
  function Records(rows: seq<TableRow>): (r: seq<ScrapedRow>)
    ensures |r| <= |rows|
    ensures forall k :: 0 <= k < |r| ==> r[k].searchVolume >= MinVolume && r[k].source.None?
  {
    if rows == [] then []
    else
      var last := RowRecord(rows[|rows| - 1]);
      Records(rows[..|rows| - 1]) + (if last.Some? then [last.value] else [])
  }

  /** Every record comes from one of the rows. */
  lemma {:induction false} RecordsFromRows(rows: seq<TableRow>, k: nat)
    requires k < |Records(rows)|
    ensures exists i :: 0 <= i < |rows| && RowRecord(rows[i]) == Some(Records(rows)[k])
  {
    var init := rows[..|rows| - 1];
    if k < |Records(init)| {
      RecordsFromRows(init, k);
      var i :| 0 <= i < |init| && RowRecord(init[i]) == Some(Records(init)[k]);
      assert rows[i] == init[i];
    } else {
      assert RowRecord(rows[|rows| - 1]) == Some(Records(rows)[k]);
    }
  }

  /** The records of two runs of rows are the records of the first run followed by those of the second. */
  lemma {:induction false} RecordsAppend(a: seq<TableRow>, b: seq<TableRow>)
    ensures Records(a + b) == Records(a) + Records(b)
    decreases |b|
  {
    if b == [] {
      assert a + b == a;
    } else {
      var init, last := b[..|b| - 1], b[|b| - 1];
      assert b == init + [last];
      assert a + b == (a + init) + [last];
      RecordsAppend(a, init);
      RecordsSnoc(a + init, last);
      RecordsSnoc(init, last);
    }
  }

  /** One more row adds its record, if it has one, at the end. */
  lemma RecordsSnoc(rows: seq<TableRow>, row: TableRow)
    ensures Records(rows + [row]) == Records(rows) + if RowRecord(row).Some? then [RowRecord(row).value] else []
  {
    assert (rows + [row])[..|rows|] == rows;
  }

  /** A single row yields its record when it is accepted, and nothing otherwise. */
  lemma RecordsOfRow(row: TableRow)
    ensures Records([row]) == if RowRecord(row).Some? then [RowRecord(row).value] else []
  {
    assert [row][..0] == [];
  }

  /**
   * Every accepted row yields its record, in place: the records before it come from the rows
   * before it, and those after it from the rows after it.
   */
  lemma RecordsKeepAccepted(rows: seq<TableRow>, i: nat, record: ScrapedRow)
    requires i < |rows| && RowRecord(rows[i]) == Some(record)
    ensures Records(rows) == Records(rows[..i]) + [record] + Records(rows[i + 1..])
  {
    var before, row, after := rows[..i], rows[i], rows[i + 1..];
    SplitAt(rows, i);
    RecordsOfRow(row);
    RecordsAppend(before, [row]);
    RecordsAppend(before + [row], after);
  }

  /** A sequence is its prefix, the element at `i` and its suffix. */
  lemma SplitAt<T>(s: seq<T>, i: nat)
    requires i < |s|
    ensures s == s[..i] + [s[i]] + s[i + 1..]
  {
  }

  /** `extract_table_data` over the rows of the table, the first (header) row being skipped. */
  method ExtractTableData(rows: seq<TableRow>) returns (keywordsData: seq<ScrapedRow>)
    ensures keywordsData == Records(if rows == [] then [] else rows[1..])
  {
    keywordsData := [];
    if rows == [] {
      return;
    }
    var body := rows[1..];
    var i := 0;
    while i < |body|
      invariant i <= |body|
      invariant keywordsData == Records(body[..i])
    {
      assert body[..i + 1][..i] == body[..i];
      var record := RowRecord(body[i]);
      if record.Some? {
        keywordsData := keywordsData + [record.value];
      }
      i := i + 1;
    }
    assert body[..i] == body;
  }

  // ---------------------------------------------------------------------------------------
  // scrape_both_websites

  const BrandSource: string := "brand_website"
  const CompetitorSource: string := "competitor_website"

  /** The records with `source` set to `tag`. */
  function Tagged(rows: seq<ScrapedRow>, tag: string): (r: seq<ScrapedRow>)
    ensures |r| == |rows|
    ensures forall i :: 0 <= i < |rows| ==> r[i] == rows[i].(source := Some(tag))
  {
    seq(|rows|, i requires 0 <= i < |rows| => rows[i].(source := Some(tag)))
  }

  /** `for kw in keywords: kw['source'] = tag`, on the records in place. */
  method TagSource(a: array<ScrapedRow>, tag: string)
    modifies a
    ensures a[..] == Tagged(old(a[..]), tag)
  {
    var i := 0;
    while i < a.Length
      invariant i <= a.Length
      invariant forall j :: 0 <= j < i ==> a[j] == old(a[j]).(source := Some(tag))
      invariant forall j :: i <= j < a.Length ==> a[j] == old(a[j])
    {
      a[i] := a[i].(source := Some(tag));
      i := i + 1;
    }
  }

  /**
   * `scrape_both_websites`, given what the two scrapes returned: the brand records tagged
   * `brand_website`, then the competitor records tagged `competitor_website`.
   */
  method ScrapeBothWebsites(brand: array<ScrapedRow>, competitor: array<ScrapedRow>) returns (all: seq<ScrapedRow>)
    requires brand != competitor
    modifies brand, competitor
    ensures all == Tagged(old(brand[..]), BrandSource) + Tagged(old(competitor[..]), CompetitorSource)
    ensures |all| == brand.Length + competitor.Length
    ensures brand[..] == all[..brand.Length] && competitor[..] == all[brand.Length..]
  {
    all := [];
    TagSource(brand, BrandSource);
    all := all + brand[..];
    TagSource(competitor, CompetitorSource);
    all := all + competitor[..];
  }

  /** After tagging, every record carries its website and nothing else about it changed. */
  lemma TaggedSources(brand: seq<ScrapedRow>, competitor: seq<ScrapedRow>)
    ensures var all := Tagged(brand, BrandSource) + Tagged(competitor, CompetitorSource);
      (forall i :: 0 <= i < |brand| ==> all[i].source == Some(BrandSource) && all[i].(source := None) == brand[i].(source := None))
      && (forall i :: 0 <= i < |competitor| ==>
            (all[|brand| + i].source == Some(CompetitorSource)
             && all[|brand| + i].(source := None) == competitor[i].(source := None)))
  {
  }

  // ---------------------------------------------------------------------------------------
  // save_to_csv: the rows written

  /** Python's `<` on strings: code point by code point, a proper prefix first. */
  predicate LexLess(a: string, b: string)
    decreases |a|
  {
    b != [] && (a == [] || a[0] < b[0] || (a[0] == b[0] && LexLess(a[1..], b[1..])))
  }

  lemma {:induction false} LexIrreflexive(a: string)
    ensures !LexLess(a, a)
    decreases |a|
  {
    if a != [] {
      LexIrreflexive(a[1..]);
    }
  }

  lemma {:induction false} LexTransitive(a: string, b: string, c: string)
    requires LexLess(a, b) && LexLess(b, c)
    ensures LexLess(a, c)
    decreases |a|
  {
    if a != [] && a[0] == b[0] && b[0] == c[0] {
      LexTransitive(a[1..], b[1..], c[1..]);
    }
  }

  lemma {:induction false} LexTotal(a: string, b: string)
    requires a != b
    ensures LexLess(a, b) || LexLess(b, a)
    decreases |a|
  {
    if a != [] && b != [] && a[0] == b[0] {
      assert a == [a[0]] + a[1..] && b == [b[0]] + b[1..];
      LexTotal(a[1..], b[1..]);
    }
  }

  /** `sort_values('source')` puts missing sources after every present one. */
  function SourceLess(a: Option<string>, b: Option<string>): (r: bool)
    ensures a.None? ==> !r
    ensures a.Some? && b.None? ==> r
    ensures a.Some? && b.Some? ==> (r <==> LexLess(a.value, b.value))
  {
    a.Some? && (b.None? || LexLess(a.value, b.value))
  }

  /** `x` goes strictly before `y`: by source ascending, then by search volume descending. */
  function Precedes(x: ScrapedRow, y: ScrapedRow): (r: bool)
    ensures x.source == y.source ==> (r <==> x.searchVolume > y.searchVolume)
    ensures x.source != y.source ==> (r <==> SourceLess(x.source, y.source))
  {
    SourceLessOrder(x.source, y.source, y.source);
    SourceLess(x.source, y.source) || (x.source == y.source && x.searchVolume > y.searchVolume)
  }

  /** No row goes before an earlier one. */
  predicate Ordered(rows: seq<ScrapedRow>) {
    forall i, j :: 0 <= i < j < |rows| ==> !Precedes(rows[j], rows[i])
  }

  lemma SourceLessOrder(a: Option<string>, b: Option<string>, c: Option<string>)
    ensures !SourceLess(a, a)
    ensures SourceLess(a, b) ==> !SourceLess(b, a)
    ensures SourceLess(a, b) && SourceLess(b, c) ==> SourceLess(a, c)
    ensures a != b ==> SourceLess(a, b) || SourceLess(b, a)
  {
    if a.Some? {
      LexIrreflexive(a.value);
    }
    if SourceLess(a, b) && SourceLess(b, a) {
      LexTransitive(a.value, b.value, a.value);
    }
    if SourceLess(a, b) && SourceLess(b, c) && c.Some? {
      LexTransitive(a.value, b.value, c.value);
    }
    if a != b && a.Some? && b.Some? {
      LexTotal(a.value, b.value);
    }
  }

  /** `Precedes` is a strict weak order: what is not after `y` and not before `z`... */
  lemma NotPrecedesTransitive(x: ScrapedRow, y: ScrapedRow, z: ScrapedRow)
    requires !Precedes(x, y) && !Precedes(y, z)
    ensures !Precedes(x, z)
  {
    SourceLessOrder(x.source, y.source, z.source);
    SourceLessOrder(y.source, z.source, x.source);
    SourceLessOrder(z.source, x.source, y.source);
    SourceLessOrder(x.source, z.source, y.source);
    SourceLessOrder(y.source, x.source, z.source);
    SourceLessOrder(z.source, y.source, x.source);
  }

  lemma PrecedesAsymmetric(x: ScrapedRow, y: ScrapedRow)
    requires Precedes(x, y)
    ensures !Precedes(y, x)
  {
    SourceLessOrder(x.source, y.source, x.source);
  }

  /** `x` placed after every row of `s` that does not go after it. */
  function InsertRow(s: seq<ScrapedRow>, x: ScrapedRow): (r: seq<ScrapedRow>)
    requires Ordered(s)
    ensures Ordered(r)
    ensures multiset(r) == multiset(s) + multiset{x}
  {
    if s == [] || !Precedes(x, s[|s| - 1]) then
      NotBeforeAny(s, x);
      OrderedSnoc(s, x);
      s + [x]
    else
      var init, last := s[..|s| - 1], s[|s| - 1];
      var front := InsertRow(init, x);
      PrecedesAsymmetric(x, last);
      LastAfterAll(s, x, front);
      OrderedSnoc(front, last);
      assert s == init + [last];
      front + [last]
  }

  /** A row that does not go before the last row of an ordered list goes before none of it. */
  lemma NotBeforeAny(s: seq<ScrapedRow>, x: ScrapedRow)
    requires Ordered(s) && (s == [] || !Precedes(x, s[|s| - 1]))
    ensures forall i :: 0 <= i < |s| ==> !Precedes(x, s[i])
  {
    forall i | 0 <= i < |s| ensures !Precedes(x, s[i]) {
      if i < |s| - 1 {
        NotPrecedesTransitive(x, s[|s| - 1], s[i]);
      }
    }
  }

  /** An ordered list stays ordered with a row after it that goes before none of it. */
  lemma OrderedSnoc(s: seq<ScrapedRow>, x: ScrapedRow)
    requires Ordered(s) && forall i :: 0 <= i < |s| ==> !Precedes(x, s[i])
    ensures Ordered(s + [x])
  {
    var t := s + [x];
    forall i, j | 0 <= i < j < |t| ensures !Precedes(t[j], t[i]) {
      assert t[i] == s[i];
      if j < |s| {
        assert t[j] == s[j];
      }
    }
  }

  /** The last row of an ordered list goes before none of the others, nor before `x`. */
  lemma LastAfterAll(s: seq<ScrapedRow>, x: ScrapedRow, front: seq<ScrapedRow>)
    requires Ordered(s) && s != [] && !Precedes(s[|s| - 1], x)
    requires multiset(front) == multiset(s[..|s| - 1]) + multiset{x}
    ensures forall i :: 0 <= i < |front| ==> !Precedes(s[|s| - 1], front[i])
  {
    var init := s[..|s| - 1];
    forall i | 0 <= i < |front| ensures !Precedes(s[|s| - 1], front[i]) {
      var y := front[i];
      assert y in multiset(front);
      if y != x {
        assert y in multiset(init);
        var k :| 0 <= k < |init| && init[k] == y;
        assert s[k] == y;
      }
    }
  }

  /** `sort_values(['source', 'search_volume'], ascending=[True, False])` */
  function SortRows(rows: seq<ScrapedRow>): (r: seq<ScrapedRow>)
    ensures Ordered(r)
    ensures multiset(r) == multiset(rows)
  {
    if rows == [] then []
    else
      assert rows == rows[..|rows| - 1] + [rows[|rows| - 1]];
      InsertRow(SortRows(rows[..|rows| - 1]), rows[|rows| - 1])
  }

  /** The number of rows from `source`. */
  function CountSource(rows: seq<ScrapedRow>, source: string): nat {
    if rows == [] then 0
    else CountSource(rows[..|rows| - 1], source) + (if rows[|rows| - 1].source == Some(source) then 1 else 0)
  }

  /** Row `i` is among the first `n` rows of its source; rows without a source belong to no group. */
  predicate Kept(rows: seq<ScrapedRow>, i: nat, n: nat)
    requires i < |rows|
  {
    rows[i].source.Some? && CountSource(rows[..i], rows[i].source.value) < n
  }

  /** `groupby('source').head(n)`: the first `n` rows of each source, in their order. */
  function HeadPerSource(rows: seq<ScrapedRow>, n: nat): (r: seq<ScrapedRow>)
    ensures multiset(r) <= multiset(rows)
    ensures forall k :: 0 <= k < |r| ==> r[k].source.Some?
  {
    if rows == [] then []
    else
      var init := rows[..|rows| - 1];
      assert rows == init + [rows[|rows| - 1]];
      HeadPerSource(init, n) + (if Kept(rows, |rows| - 1, n) then [rows[|rows| - 1]] else [])
  }

  /** What `save_to_csv` writes: nothing for no rows; the top `n` per source; else the first `n`. */
  function SelectTopN(rows: seq<ScrapedRow>, n: nat): (r: Option<seq<ScrapedRow>>)
    ensures r.None? <==> rows == []
    ensures r.Some? ==> multiset(r.value) <= multiset(rows)
  {
    if rows == [] then None
    else if exists k :: 0 <= k < |rows| && rows[k].source.Some? then
      Some(HeadPerSource(SortRows(rows), n))
    else
      assert rows == rows[..Batching.Min(n, |rows|)] + rows[Batching.Min(n, |rows|)..];
      Some(rows[..Batching.Min(n, |rows|)])
  }

  /** Each source keeps `min(count, n)` of its rows. */
  lemma {:induction false} HeadCounts(rows: seq<ScrapedRow>, n: nat, source: string)
    ensures CountSource(HeadPerSource(rows, n), source) == Batching.Min(CountSource(rows, source), n)
  {
    if rows != [] {
      var init := rows[..|rows| - 1];
      HeadCounts(init, n, source);
      var head := HeadPerSource(init, n);
      var last := rows[|rows| - 1];
      assert rows[..|rows| - 1] == init;
      if Kept(rows, |rows| - 1, n) {
        assert (head + [last])[..|head|] == head;
      } else {
        assert HeadPerSource(rows, n) == head + [];
        assert head + [] == head;
      }
    }
  }

  /** Filtering keeps the order. */
  lemma {:induction false} HeadOrdered(rows: seq<ScrapedRow>, n: nat)
    requires Ordered(rows)
    ensures Ordered(HeadPerSource(rows, n))
  {
    if rows != [] {
      var init, last := rows[..|rows| - 1], rows[|rows| - 1];
      HeadOrdered(init, n);
      var head := HeadPerSource(init, n);
      if Kept(rows, |rows| - 1, n) {
        forall k | 0 <= k < |head| ensures !Precedes(last, head[k]) {
          assert head[k] in multiset(init);
          var i :| 0 <= i < |init| && init[i] == head[k];
          assert rows[i] == head[k];
        }
      }
    }
  }

  /** Counting over a longer prefix never gives less. */
  lemma {:induction false} CountPrefixMonotone(rows: seq<ScrapedRow>, i: nat, j: nat, source: string)
    requires i <= j <= |rows|
    ensures CountSource(rows[..i], source) <= CountSource(rows[..j], source)
    decreases j - i
  {
    if i < j {
      CountPrefixMonotone(rows, i, j - 1, source);
      assert rows[..j][..j - 1] == rows[..j - 1];
    }
  }

  /**
   * Within one source of the sorted rows, every kept row has at least the volume of every
   * dropped row.
   */
  lemma KeptBeatsDropped(rows: seq<ScrapedRow>, n: nat, i: nat, j: nat)
    requires Ordered(rows) && i < |rows| && j < |rows|
    requires rows[i].source == rows[j].source && Kept(rows, i, n) && !Kept(rows, j, n)
    ensures rows[i].searchVolume >= rows[j].searchVolume
  {
    var s := rows[i].source.value;
    if j < i {
      CountPrefixMonotone(rows, j, i, s);
      assert false;
    }
    assert i != j;
    assert !Precedes(rows[j], rows[i]);
  }

  /**
   * With a `source` column: the rows written are ordered by source then volume descending,
   * each source keeps `min(count, n)` rows, and untagged rows are dropped.
   */
  lemma TopNPerSource(rows: seq<ScrapedRow>, n: nat)
    requires exists k :: 0 <= k < |rows| && rows[k].source.Some?
    ensures var out := SelectTopN(rows, n).value;
      Ordered(out)
      && (forall s :: CountSource(out, s) == Batching.Min(CountSource(rows, s), n))
      && (forall k :: 0 <= k < |out| ==> out[k].source.Some?)
  {
    var sorted := SortRows(rows);
    HeadOrdered(sorted, n);
    forall s ensures CountSource(HeadPerSource(sorted, n), s) == Batching.Min(CountSource(rows, s), n) {
      HeadCounts(sorted, n, s);
      SortCount(rows, s);
    }
  }

  lemma {:induction false} CountAppend(a: seq<ScrapedRow>, x: ScrapedRow, source: string)
    ensures CountSource(a + [x], source) == CountSource(a, source) + (if x.source == Some(source) then 1 else 0)
  {
    assert (a + [x])[..|a|] == a;
  }

  /** Inserting a row adds it to the count of its source. */
  lemma {:induction false} InsertCount(s: seq<ScrapedRow>, x: ScrapedRow, source: string)
    requires Ordered(s)
    ensures CountSource(InsertRow(s, x), source) == CountSource(s, source) + (if x.source == Some(source) then 1 else 0)
  {
    if s == [] || !Precedes(x, s[|s| - 1]) {
      CountAppend(s, x, source);
    } else {
      var init, last := s[..|s| - 1], s[|s| - 1];
      InsertCount(init, x, source);
      CountAppend(InsertRow(init, x), last, source);
      assert s == init + [last];
      CountAppend(init, last, source);
    }
  }

  /** Sorting keeps the count of every source. */
  lemma {:induction false} SortCount(rows: seq<ScrapedRow>, source: string)
    ensures CountSource(SortRows(rows), source) == CountSource(rows, source)
  {
    if rows != [] {
      var init := rows[..|rows| - 1];
      SortCount(init, source);
      InsertCount(SortRows(init), rows[|rows| - 1], source);
    }
  }

  /** Without a `source` column the first `n` rows are written. */
  lemma TopNWithoutSource(rows: seq<ScrapedRow>, n: nat)
    requires rows != [] && forall k :: 0 <= k < |rows| ==> rows[k].source.None?
    ensures SelectTopN(rows, n) == Some(rows[..Batching.Min(n, |rows|)])
  {
  }
}
