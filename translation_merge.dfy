/**
 * The ChatGPT importer's merge pass: for every language and every data row
 * whose key is set and whose value cell is empty, a suggestion from the
 * imported translations fills the value cell and marks the metadata cell;
 * a key present in the import without a usable suggestion is reported.
 *
 * The grid is the object `SheetValues`, whose rows the pass changes in
 * place; `FillRow`, `FillLanguage` and `Merge` specify the result.
 */
module TranslationMerge {
  import opened Cells
  import opened Columns
  import opened SheetGrid

  /** The note written to the metadata cell of every filled value. */
  const Provenance := "Translated by ChatGPT; human review required."

  const KeyColumn := 1

  /** The imported file: key to language code to suggested translation. */
  type Suggestions = map<string, map<string, string>>

  /** A `missing translation {code}/{key}` report. */
  datatype Missing = Missing(code: string, key: string)

  function MetadataIndex(li: nat): nat { li * 2 + 2 }

  function ValueIndex(li: nat): nat { MetadataIndex(li) + 1 }

  /** The number of columns fetched and written back: keys, comments and two per language. */
  function MergeColumns(languageCount: nat): nat { languageCount * 2 + 2 }

  /** The range of the final upload: every fetched column, from row 1 to the last row. */
  function MergeUploadRange(sheet: string, languageCount: nat, rowCount: nat): string {
    RangeString(sheet, 1, MergeColumns(languageCount), rowCount)
  }

  /** `gpt_translations.get(key, {}).get(code, '')`. */
  function Suggestion(src: Suggestions, key: string, code: string): (t: string)
    ensures key in src && code in src[key] ==> t == src[key][code]
    ensures !(key in src && code in src[key]) ==> t == ""
  {
    if key in src && code in src[key] then src[key][code] else ""
  }

  /**
   * `assign_with_filling(lst, index, value, fill)`: the list extended with
   * `fill` up to `index` when too short, then `value` stored at `index`.
   */
  function Filled(lst: seq<string>, index: nat, value: string, fill: string): (r: seq<string>)
    ensures |r| == if index < |lst| then |lst| else index + 1
    ensures r[index] == value
  {
    var longer := if index >= |lst| then Padded(lst, index - |lst| + 1, fill) else lst;
    longer[index := value]
  }

  /** Every other cell keeps its value, and the cells added to reach `index` hold `fill`. */
  lemma FilledCells(lst: seq<string>, index: nat, value: string, fill: string)
    ensures var r := Filled(lst, index, value, fill);
            && (forall k :: 0 <= k < |lst| && k != index ==> r[k] == lst[k])
            && (forall k :: |lst| <= k < |r| && k != index ==> r[k] == fill)
  {
  }

  /** With `""` as the fill, only the cell at `index` reads differently afterwards. */
  lemma FilledReads(lst: seq<string>, index: nat, value: string, c: nat)
    ensures ItemOrEmpty(Filled(lst, index, value, ""), c) == if c == index then value else ItemOrEmpty(lst, c)
  {
  }

  function Key(row: seq<string>): string { ItemOrEmpty(row, KeyColumn) }

  /** The row has a key and no value for the language at `li`. */
  predicate NeedsFill(row: seq<string>, li: nat) {
    Key(row) != "" && ItemOrEmpty(row, ValueIndex(li)) == ""
  }

  /** The pass fills this row for the language at `li`. */
  predicate Fills(row: seq<string>, li: nat, code: string, src: Suggestions) {
    NeedsFill(row, li) && Suggestion(src, Key(row), code) != ""
  }

  /** The pass reports this row as missing for the language at `li`. */
  predicate Reports(row: seq<string>, li: nat, code: string, src: Suggestions) {
    NeedsFill(row, li) && Suggestion(src, Key(row), code) == "" && Key(row) in src
  }

  /** One data row after the pass for the language at `li`. */
  function FillRow(row: seq<string>, li: nat, code: string, src: Suggestions): seq<string> {
    if Fills(row, li, code, src) then
      Filled(row, ValueIndex(li), Suggestion(src, Key(row), code), "")[MetadataIndex(li) := Provenance]
    else row
  }

  /**
   * A filled row gets the suggestion as its value and the note as its
   * metadata, whatever the metadata cell held; every other cell, and every
   * cell of a row not filled, reads as before.
   */
  lemma FillRowCells(row: seq<string>, li: nat, code: string, src: Suggestions)
    ensures var out := FillRow(row, li, code, src);
            && (forall c: nat {:trigger ItemOrEmpty(row, c)} :: c != MetadataIndex(li) && c != ValueIndex(li) ==>
                  ItemOrEmpty(out, c) == ItemOrEmpty(row, c))
            && ItemOrEmpty(out, ValueIndex(li))
               == (if Fills(row, li, code, src) then Suggestion(src, Key(row), code) else ItemOrEmpty(row, ValueIndex(li)))
            && ItemOrEmpty(out, MetadataIndex(li))
               == (if Fills(row, li, code, src) then Provenance else ItemOrEmpty(row, MetadataIndex(li)))
  {
    if Fills(row, li, code, src) {
      var t := Suggestion(src, Key(row), code);
      var filled := Filled(row, ValueIndex(li), t, "");
      forall c: nat ensures ItemOrEmpty(filled, c) == if c == ValueIndex(li) then t else ItemOrEmpty(row, c) {
        FilledReads(row, ValueIndex(li), t, c);
      }
    }
  }

  /** For a key a suggestion fills an empty value, or it is reported, or the key is not in the import. */
  lemma EmptyValueOutcomes(row: seq<string>, li: nat, code: string, src: Suggestions)
    requires NeedsFill(row, li)
    ensures Fills(row, li, code, src) || Reports(row, li, code, src) || Key(row) !in src
    ensures !(Fills(row, li, code, src) && Reports(row, li, code, src))
    ensures Key(row) !in src ==> !Fills(row, li, code, src) && !Reports(row, li, code, src)
  {
  }

  /** The rows after the pass for the language at `li` has reached row `n`. */
  function PartialFill(rows: seq<seq<string>>, li: nat, code: string, src: Suggestions, n: nat): (r: seq<seq<string>>)
    requires n <= |rows|
    ensures |r| == |rows|
  {
    if n == 0 then rows
    else PartialFill(rows, li, code, src, n - 1)[n - 1 := if 2 <= n - 1 then FillRow(rows[n - 1], li, code, src) else rows[n - 1]]
  }

  /** A row after the pass has reached row `n`: filled when it is a data row before `n`. */
  lemma {:induction false} PartialFillAt(rows: seq<seq<string>>, li: nat, code: string, src: Suggestions, n: nat, k: nat)
    requires n <= |rows| && k < |rows|
    ensures PartialFill(rows, li, code, src, n)[k] == if 2 <= k < n then FillRow(rows[k], li, code, src) else rows[k]
  {
    if n > 0 {
      PartialFillAt(rows, li, code, src, n - 1, k);
    }
  }

  /** The pass for one language: every row but the heading and header rows. */
  function FillLanguage(rows: seq<seq<string>>, li: nat, code: string, src: Suggestions): (r: seq<seq<string>>)
    ensures |r| == |rows|
  {
    PartialFill(rows, li, code, src, |rows|)
  }

  /** The reports of the pass for the language at `li` over rows `0 .. n - 1`. */
  function LanguageReports(rows: seq<seq<string>>, li: nat, code: string, src: Suggestions, n: nat): seq<Missing>
    requires n <= |rows|
  {
    if n == 0 then []
    else LanguageReports(rows, li, code, src, n - 1)
         + (if n - 1 >= 2 && Reports(rows[n - 1], li, code, src) then [Missing(code, Key(rows[n - 1]))] else [])
  }

  /** The grid after the passes for the first `n` languages. */
  function MergeUpTo(rows: seq<seq<string>>, languages: seq<Language>, src: Suggestions, n: nat): (r: seq<seq<string>>)
    requires n <= |languages|
    ensures |r| == |rows|
  {
    if n == 0 then rows
    else FillLanguage(MergeUpTo(rows, languages, src, n - 1), n - 1, languages[n - 1].code, src)
  }

  function Merge(rows: seq<seq<string>>, languages: seq<Language>, src: Suggestions): seq<seq<string>> {
    MergeUpTo(rows, languages, src, |languages|)
  }

  /** The reports of the passes for the first `n` languages, in order. */
  function MergeReports(rows: seq<seq<string>>, languages: seq<Language>, src: Suggestions, n: nat): seq<Missing>
    requires n <= |languages|
  {
    if n == 0 then []
    else
      var before := MergeUpTo(rows, languages, src, n - 1);
      MergeReports(rows, languages, src, n - 1) + LanguageReports(before, n - 1, languages[n - 1].code, src, |rows|)
  }

  /** The values fetched from the sheet, changed in place by the pass. */
  class SheetValues {
    var rows: seq<seq<string>>

    constructor (values: seq<seq<string>>)
      ensures rows == values
    {
      rows := values;
    }

    /** `assign_with_filling(values[r], index, value, fill)`. */
    method AssignWithFilling(r: nat, index: nat, value: string, fill: string)
      requires r < |rows|
      modifies this
      ensures rows == old(rows)[r := Filled(old(rows)[r], index, value, fill)]
    {
      var row := rows[r];
      if index >= |row| {
        row := row + seq(index - |row| + 1, _ => fill);
      }
      row := row[index := value];
      rows := rows[r := row];
    }

    /** The language loop of `upload_chatgpt_translations`, and the range it then uploads. */
    method UploadChatgptTranslations(sheet: string, languages: seq<Language>, src: Suggestions)
      returns (missing: seq<Missing>, range: string)
      modifies this
      ensures rows == Merge(old(rows), languages, src)
      ensures missing == MergeReports(old(rows), languages, src, |languages|)
      ensures range == MergeUploadRange(sheet, |languages|, |rows|)
    {
      missing := [];
      var li := 0;
      while li < |languages|
        invariant 0 <= li <= |languages|
        invariant rows == MergeUpTo(old(rows), languages, src, li)
        invariant missing == MergeReports(old(rows), languages, src, li)
      {
        MergeStep(old(rows), languages, src, li);
        var reported := FillLanguagePass(li, languages[li].code, src);
        missing := missing + reported;
        li := li + 1;
      }
      range := MergeUploadRange(sheet, |languages|, |rows|);
    }

    /** The row loop for one language. */
    method FillLanguagePass(li: nat, code: string, src: Suggestions) returns (missing: seq<Missing>)
      modifies this
      ensures rows == FillLanguage(old(rows), li, code, src)
      ensures missing == LanguageReports(old(rows), li, code, src, |old(rows)|)
    {
      missing := [];
      var r := 0;
      while r < |rows|
        invariant 0 <= r <= |old(rows)|
        invariant rows == PartialFill(old(rows), li, code, src, r)
        invariant missing == LanguageReports(old(rows), li, code, src, r)
      {
        FillStep(old(rows), li, code, src, r);
        ReportStep(old(rows), li, code, src, r);
        if r >= 2 {
          var reported := FillOneRow(r, li, code, src);
          missing := missing + reported;
        }
        r := r + 1;
      }
    }

    /** The body of the row loop, for a data row. */
    method FillOneRow(r: nat, li: nat, code: string, src: Suggestions) returns (reported: seq<Missing>)
      requires r < |rows|
      modifies this
      ensures rows == old(rows)[r := FillRow(old(rows)[r], li, code, src)]
      ensures reported == if Reports(old(rows)[r], li, code, src) then [Missing(code, Key(old(rows)[r]))] else []
    {
      reported := [];
      var metadataIndex := li * 2 + 2;
      var valueIndex := metadataIndex + 1;
      var key := ItemOrEmpty(rows[r], KeyColumn);
      var value := ItemOrEmpty(rows[r], valueIndex);
      if key != "" && value == "" {
        var suggestion := if key in src && code in src[key] then src[key][code] else "";
        if suggestion == "" {
          if key in src {
            reported := [Missing(code, key)];
          }
        } else {
          AssignWithFilling(r, valueIndex, suggestion, "");
          rows := rows[r := rows[r][metadataIndex := Provenance]];
        }
      }
    }
  }

  /** One more language's pass, on the grid the earlier passes left. */
  lemma MergeStep(rows: seq<seq<string>>, languages: seq<Language>, src: Suggestions, n: nat)
    requires n < |languages|
    ensures var before := MergeUpTo(rows, languages, src, n);
            && MergeUpTo(rows, languages, src, n + 1) == FillLanguage(before, n, languages[n].code, src)
            && MergeReports(rows, languages, src, n + 1)
               == MergeReports(rows, languages, src, n) + LanguageReports(before, n, languages[n].code, src, |before|)
  {
  }

  /** Moving the pass on by one row changes that row alone. */
  lemma FillStep(rows: seq<seq<string>>, li: nat, code: string, src: Suggestions, n: nat)
    requires n < |rows|
    ensures PartialFill(rows, li, code, src, n)[n] == rows[n]
    ensures PartialFill(rows, li, code, src, n + 1)
         == PartialFill(rows, li, code, src, n)[n := if 2 <= n then FillRow(rows[n], li, code, src) else rows[n]]
  {
    PartialFillAt(rows, li, code, src, n, n);
  }

  /** Moving the pass on by one row adds that row's report, if any. */
  lemma ReportStep(rows: seq<seq<string>>, li: nat, code: string, src: Suggestions, n: nat)
    requires n < |rows|
    ensures LanguageReports(rows, li, code, src, n + 1)
         == LanguageReports(rows, li, code, src, n)
            + (if 2 <= n && Reports(rows[n], li, code, src) then [Missing(code, Key(rows[n]))] else [])
  {
  }

  // ----- What the merge leaves -----

  /** The heading row and the header row are never changed, nor is the number of rows. */
  lemma {:induction false} MergeKeepsHeadingRows(rows: seq<seq<string>>, languages: seq<Language>, src: Suggestions, n: nat)
    requires n <= |languages|
    ensures |MergeUpTo(rows, languages, src, n)| == |rows|
    ensures forall r :: 0 <= r < 2 && r < |rows| ==> MergeUpTo(rows, languages, src, n)[r] == rows[r]
  {
    if n > 0 {
      MergeKeepsHeadingRows(rows, languages, src, n - 1);
      var prev := MergeUpTo(rows, languages, src, n - 1);
      forall r | 0 <= r < 2 && r < |rows| ensures MergeUpTo(rows, languages, src, n)[r] == rows[r] {
        PartialFillAt(prev, n - 1, languages[n - 1].code, src, |prev|, r);
      }
    }
  }

  /**
   * A cell of a data row after the passes for the first `n` languages: a
   * metadata or value cell of one of those languages is what that
   * language's pass makes of the original row; every other cell is as it
   * was fetched.
   */
  lemma {:induction false} MergeUpToCells(rows: seq<seq<string>>, languages: seq<Language>, src: Suggestions, n: nat, r: nat, c: nat)
    requires n <= |languages| && 2 <= r < |rows|
    ensures ItemOrEmpty(MergeUpTo(rows, languages, src, n)[r], c)
         == if 2 <= c < MergeColumns(n) then ItemOrEmpty(FillRow(rows[r], (c - 2) / 2, languages[(c - 2) / 2].code, src), c)
            else ItemOrEmpty(rows[r], c)
  {
    if n > 0 {
      var li := n - 1;
      var code := languages[li].code;
      var prev := MergeUpTo(rows, languages, src, li);
      PartialFillAt(prev, li, code, src, |prev|, r);
      FillRowCells(prev[r], li, code, src);
      if c == MetadataIndex(li) || c == ValueIndex(li) {
        assert (c - 2) / 2 == li;
        MergeUpToCells(rows, languages, src, li, r, KeyColumn);
        MergeUpToCells(rows, languages, src, li, r, MetadataIndex(li));
        MergeUpToCells(rows, languages, src, li, r, ValueIndex(li));
        FillRowCells(rows[r], li, code, src);
      } else {
        MergeUpToCells(rows, languages, src, li, r, c);
        assert ItemOrEmpty(FillRow(prev[r], li, code, src), c) == ItemOrEmpty(prev[r], c);
      }
    }
  }

  /**
   * For a data row and a language: when the row has a key, no value and a
   * suggestion, the value becomes the suggestion and the metadata the note;
   * otherwise both cells read as before.
   */
  lemma MergeFillsEmptyValues(rows: seq<seq<string>>, languages: seq<Language>, src: Suggestions, r: nat, li: nat)
    requires 2 <= r < |rows| && li < |languages|
    ensures var m := Merge(rows, languages, src)[r];
            var fills := Fills(rows[r], li, languages[li].code, src);
            && (fills ==> ItemOrEmpty(m, ValueIndex(li)) == Suggestion(src, Key(rows[r]), languages[li].code)
                          && ItemOrEmpty(m, MetadataIndex(li)) == Provenance)
            && (!fills ==> ItemOrEmpty(m, ValueIndex(li)) == ItemOrEmpty(rows[r], ValueIndex(li))
                           && ItemOrEmpty(m, MetadataIndex(li)) == ItemOrEmpty(rows[r], MetadataIndex(li)))
  {
    MergedLanguageCell(rows, languages, src, r, li, ValueIndex(li));
    MergedLanguageCell(rows, languages, src, r, li, MetadataIndex(li));
    FillRowCells(rows[r], li, languages[li].code, src);
  }

  /** A language's metadata or value cell after the merge is what its own pass makes of the fetched row. */
  lemma MergedLanguageCell(rows: seq<seq<string>>, languages: seq<Language>, src: Suggestions, r: nat, li: nat, c: nat)
    requires 2 <= r < |rows| && li < |languages|
    requires c == MetadataIndex(li) || c == ValueIndex(li)
    ensures ItemOrEmpty(Merge(rows, languages, src)[r], c) == ItemOrEmpty(FillRow(rows[r], li, languages[li].code, src), c)
  {
    MergeUpToCells(rows, languages, src, |languages|, r, c);
    assert (c - 2) / 2 == li;
  }

  /** A value cell that was not empty is never overwritten. */
  lemma MergeNeverOverwritesValues(rows: seq<seq<string>>, languages: seq<Language>, src: Suggestions, r: nat, li: nat)
    requires 2 <= r < |rows| && li < |languages|
    requires ItemOrEmpty(rows[r], ValueIndex(li)) != ""
    ensures ItemOrEmpty(Merge(rows, languages, src)[r], ValueIndex(li)) == ItemOrEmpty(rows[r], ValueIndex(li))
  {
    MergeFillsEmptyValues(rows, languages, src, r, li);
  }

  /** Comments, keys and every column past the languages' are left as they were. */
  lemma MergeKeepsOtherColumns(rows: seq<seq<string>>, languages: seq<Language>, src: Suggestions, r: nat, c: nat)
    requires r < |rows|
    requires c < 2 || c >= MergeColumns(|languages|)
    ensures ItemOrEmpty(Merge(rows, languages, src)[r], c) == ItemOrEmpty(rows[r], c)
  {
    MergeKeepsHeadingRows(rows, languages, src, |languages|);
    if r >= 2 {
      MergeUpToCells(rows, languages, src, |languages|, r, c);
    }
  }

  /** A second merge with the same import changes nothing. */
  lemma MergeIsIdempotent(rows: seq<seq<string>>, languages: seq<Language>, src: Suggestions)
    ensures Merge(Merge(rows, languages, src), languages, src) == Merge(rows, languages, src)
  {
    var m := Merge(rows, languages, src);
    forall li | 0 <= li < |languages| ensures FillLanguage(m, li, languages[li].code, src) == m {
      MergedRowsNeedNoFill(rows, languages, src, li);
    }
    MergeOfSettled(m, languages, src, |languages|);
  }

  /** After the merge no data row is filled again for any language. */
  lemma MergedRowsNeedNoFill(rows: seq<seq<string>>, languages: seq<Language>, src: Suggestions, li: nat)
    requires li < |languages|
    ensures FillLanguage(Merge(rows, languages, src), li, languages[li].code, src) == Merge(rows, languages, src)
  {
    var m := Merge(rows, languages, src);
    var code := languages[li].code;
    MergeKeepsHeadingRows(rows, languages, src, |languages|);
    forall r | 0 <= r < |m| ensures FillLanguage(m, li, code, src)[r] == m[r] {
      PartialFillAt(m, li, code, src, |m|, r);
      if r >= 2 {
        MergeFillsEmptyValues(rows, languages, src, r, li);
        MergeKeepsOtherColumns(rows, languages, src, r, KeyColumn);
        assert !Fills(m[r], li, code, src);
      }
    }
  }

  /** A grid that no single pass changes is left alone by all of them. */
  lemma {:induction false} MergeOfSettled(m: seq<seq<string>>, languages: seq<Language>, src: Suggestions, n: nat)
    requires n <= |languages|
    requires forall li :: 0 <= li < |languages| ==> FillLanguage(m, li, languages[li].code, src) == m
    ensures MergeUpTo(m, languages, src, n) == m
  {
    if n > 0 {
      MergeOfSettled(m, languages, src, n - 1);
    }
  }

  // ----- Reports -----

  /** Which rows a pass reports depends only on their key and value cells. */
  lemma {:induction false} ReportsAgree(a: seq<seq<string>>, b: seq<seq<string>>, li: nat, code: string, src: Suggestions, n: nat)
    requires n <= |a| == |b|
    requires forall r :: 2 <= r < n ==> Key(a[r]) == Key(b[r]) && ItemOrEmpty(a[r], ValueIndex(li)) == ItemOrEmpty(b[r], ValueIndex(li))
    ensures LanguageReports(a, li, code, src, n) == LanguageReports(b, li, code, src, n)
  {
    if n > 0 {
      ReportsAgree(a, b, li, code, src, n - 1);
    }
  }

  /** Each language's reports are about the sheet as fetched, not as changed by earlier passes. */
  lemma {:induction false} MergeReportsReadFetchedSheet(rows: seq<seq<string>>, languages: seq<Language>, src: Suggestions, n: nat)
    requires n <= |languages|
    ensures MergeReports(rows, languages, src, n) == FetchedReports(rows, languages, src, n)
  {
    if n > 0 {
      MergeReportsReadFetchedSheet(rows, languages, src, n - 1);
      var li := n - 1;
      var prev := MergeUpTo(rows, languages, src, li);
      forall r | 2 <= r < |rows|
        ensures Key(prev[r]) == Key(rows[r]) && ItemOrEmpty(prev[r], ValueIndex(li)) == ItemOrEmpty(rows[r], ValueIndex(li))
      {
        MergeUpToCells(rows, languages, src, li, r, KeyColumn);
        MergeUpToCells(rows, languages, src, li, r, ValueIndex(li));
      }
      ReportsAgree(prev, rows, li, languages[li].code, src, |rows|);
    }
  }

  /** The reports each language's pass would make on the fetched sheet, in language order. */
  function FetchedReports(rows: seq<seq<string>>, languages: seq<Language>, src: Suggestions, n: nat): seq<Missing>
    requires n <= |languages|
  {
    if n == 0 then []
    else FetchedReports(rows, languages, src, n - 1) + LanguageReports(rows, n - 1, languages[n - 1].code, src, |rows|)
  }

  /** A pass reports exactly the data rows with a key in the import, no value and no suggestion. */
  lemma LanguageReportsExactly(rows: seq<seq<string>>, li: nat, code: string, src: Suggestions, n: nat, m: Missing)
    requires n <= |rows|
    ensures m in LanguageReports(rows, li, code, src, n)
        <==> exists r :: 2 <= r < n && Reports(rows[r], li, code, src) && m == Missing(code, Key(rows[r]))
  {
    if m in LanguageReports(rows, li, code, src, n) {
      ListedRowReports(rows, li, code, src, n, m);
    }
    forall r | 2 <= r < n && Reports(rows[r], li, code, src) && m == Missing(code, Key(rows[r]))
      ensures m in LanguageReports(rows, li, code, src, n)
    {
      ReportedRowIsListed(rows, li, code, src, n, r);
    }
  }

  /** Every report is about a data row the pass reports. */
  lemma {:induction false} ListedRowReports(rows: seq<seq<string>>, li: nat, code: string, src: Suggestions, n: nat, m: Missing)
    requires n <= |rows| && m in LanguageReports(rows, li, code, src, n)
    ensures exists r :: 2 <= r < n && Reports(rows[r], li, code, src) && m == Missing(code, Key(rows[r]))
  {
    var k := n - 1;
    ReportStep(rows, li, code, src, k);
    if m in LanguageReports(rows, li, code, src, k) {
      ListedRowReports(rows, li, code, src, k, m);
    } else {
      assert 2 <= k < n && Reports(rows[k], li, code, src) && m == Missing(code, Key(rows[k]));
    }
  }

  /** Every data row the pass reports is listed. */
  lemma {:induction false} ReportedRowIsListed(rows: seq<seq<string>>, li: nat, code: string, src: Suggestions, n: nat, r: nat)
    requires 2 <= r < n <= |rows| && Reports(rows[r], li, code, src)
    ensures Missing(code, Key(rows[r])) in LanguageReports(rows, li, code, src, n)
  {
    ReportStep(rows, li, code, src, n - 1);
    if r < n - 1 {
      ReportedRowIsListed(rows, li, code, src, n - 1, r);
    }
  }

  // ----- Examples -----

  /** A metadata cell that already held a note is overwritten when its value is filled. */
  lemma MetadataCellIsOverwritten()
    ensures var rows := [["Comments", "Key", "en - English"], ["Header", "", ""], ["", "hello", "old note"]];
            var src: Suggestions := map["hello" := map["en" := "Hello"]];
            Merge(rows, [Language("en", "English")], src)[2] == ["", "hello", Provenance, "Hello"]
  {
    var rows := [["Comments", "Key", "en - English"], ["Header", "", ""], ["", "hello", "old note"]];
    var src: Suggestions := map["hello" := map["en" := "Hello"]];
    var langs := [Language("en", "English")];
    assert Key(rows[2]) == "hello" && ItemOrEmpty(rows[2], 3) == "";
    assert Suggestion(src, "hello", "en") == "Hello";
    assert Fills(rows[2], 0, "en", src);
    assert MergeUpTo(rows, langs, src, 0) == rows;
    assert Filled(rows[2], 3, "Hello", "") == ["", "hello", "old note", "Hello"];
  }
}
