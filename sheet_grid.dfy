/**
 * The translation sheet: the columns the upload writes (comments in column
 * A, keys in B, one language per column from C on), the rows a sheet made
 * of those columns returns, and the `Localizable.strings` text the download
 * writes for each language from those rows.
 *
 * The Sheets service itself is not modelled: an upload is the update it is
 * asked to make (a range and the cells of one column), and a download starts
 * from the rows the service returned.
 */
module SheetGrid {
  import opened Wrappers
  import opened Text
  import opened Cells
  import opened Columns
  import opened Escaping
  import opened KeyValuePattern
  import opened StringsParser

  /** A `(code, name)` pair of the languages list. */
  datatype Language = Language(code: string, name: string)

  /** The heading of a language column, `"{code} - {name}"`. */
  function LanguageLabel(lang: Language): string {
    lang.code + " - " + lang.name
  }

  /** `dict.get(key, "")`. */
  function Lookup(dict: map<string, string>, key: string): (r: string)
    ensures key in dict ==> r == dict[key]
    ensures key !in dict ==> r == ""
  {
    if key in dict then dict[key] else ""
  }

  // ----- Upload -----

  /** One call of `upload_to_sheets`: the A1 range and the cells, one per row, of one column. */
  datatype ColumnUpdate = ColumnUpdate(range: string, cells: seq<string>)

  /** `upload_to_sheets(..., sheet_name, values, column_index)`. */
  function UploadToSheets(sheet: string, cells: seq<string>, column: int): ColumnUpdate {
    ColumnUpdate(RangeString(sheet, column, column, |cells|), cells)
  }

  function CommentCell(line: Line): string {
    if line.Comment? then line.text else ""
  }

  function KeyCell(line: Line): string {
    if line.Entry? then line.key else ""
  }

  /** A translation's value for the reference line, or `""` for comments and missing keys. */
  function TranslationCell(translation: Document, line: Line): string {
    if line.Entry? then Lookup(translation.dict, line.key) else ""
  }

  /** Column A: the heading, the literal `"Header"`, then the reference's comments. */
  function CommentsColumn(reference: Document): (c: seq<string>)
    ensures |c| == |reference.lines| + 2 && c[0] == "Comments" && c[1] == "Header"
  {
    ["Comments", "Header"] + seq(|reference.lines|, i requires 0 <= i < |reference.lines| => CommentCell(reference.lines[i]))
  }

  /** Column B: the heading, an empty cell, then the reference's keys. */
  function KeysColumn(reference: Document): (c: seq<string>)
    ensures |c| == |reference.lines| + 2 && c[0] == "Key" && c[1] == ""
  {
    ["Key", ""] + seq(|reference.lines|, i requires 0 <= i < |reference.lines| => KeyCell(reference.lines[i]))
  }

  /** A language column: its heading, the translation's header, then its value for each reference line. */
  function TranslationColumn(lang: Language, reference: Document, translation: Document): (c: seq<string>)
    ensures |c| == |reference.lines| + 2 && c[0] == LanguageLabel(lang) && c[1] == translation.header
  {
    [LanguageLabel(lang), translation.header]
      + seq(|reference.lines|, i requires 0 <= i < |reference.lines| => TranslationCell(translation, reference.lines[i]))
  }

  /** `upload_keys_to_sheets`: columns A and B. */
  function UploadKeys(sheet: string, reference: Document): (r: seq<ColumnUpdate>)
    ensures |r| == 2
    ensures r[0].range == RangeString(sheet, 1, 1, |reference.lines| + 2)
    ensures r[1].range == RangeString(sheet, 2, 2, |reference.lines| + 2)
  {
    [UploadToSheets(sheet, CommentsColumn(reference), 1), UploadToSheets(sheet, KeysColumn(reference), 2)]
  }

  /** `upload_translations_to_sheets`. */
  function UploadTranslation(sheet: string, lang: Language, reference: Document, translation: Document, column: int): (r: ColumnUpdate)
    ensures r.range == RangeString(sheet, column, column, |reference.lines| + 2)
  {
    UploadToSheets(sheet, TranslationColumn(lang, reference, translation), column)
  }

  /**
   * Every column of the sheet, left to right. The reference is the first
   * language's file parsed with comments combined; each translation is its
   * language's file parsed without.
   */
  function UploadColumns(reference: Document, translations: seq<(Language, Document)>): (cols: seq<seq<string>>)
    ensures |cols| == |translations| + 2
  {
    [CommentsColumn(reference), KeysColumn(reference)]
      + seq(|translations|, j requires 0 <= j < |translations| => TranslationColumn(translations[j].0, reference, translations[j].1))
  }

  /** The updates `upload_localizable_files` makes, in order: keys first, then one per language from column C. */
  function UploadPlan(sheet: string, reference: Document, translations: seq<(Language, Document)>, n: nat): seq<ColumnUpdate>
    requires n <= |translations|
  {
    if n == 0 then UploadKeys(sheet, reference)
    else
      var (lang, translation) := translations[n - 1];
      UploadPlan(sheet, reference, translations, n - 1) + [UploadTranslation(sheet, lang, reference, translation, n + 2)]
  }

  /** The loop of `upload_localizable_files`, issuing one update per language after the keys. */
  method UploadLocalizableFiles(sheet: string, reference: Document, translations: seq<(Language, Document)>)
    returns (updates: seq<ColumnUpdate>)
    ensures updates == UploadPlan(sheet, reference, translations, |translations|)
  {
    updates := UploadKeys(sheet, reference);
    var index := 0;
    while index < |translations|
      invariant 0 <= index <= |translations|
      invariant updates == UploadPlan(sheet, reference, translations, index)
    {
      UploadPlanStep(sheet, reference, translations, index);
      var (lang, translation) := translations[index];
      updates := updates + [UploadTranslation(sheet, lang, reference, translation, index + 3)];
      index := index + 1;
    }
  }

  /**
   * The `j`-th update writes column `j` of the sheet, all of it, into the
   * column labelled `Label(j + 1)`, starting at row 1.
   */
  lemma {:induction false} UploadPlanWritesColumns(sheet: string, reference: Document, translations: seq<(Language, Document)>, n: nat)
    requires n <= |translations|
    ensures var plan := UploadPlan(sheet, reference, translations, n);
            var cols := UploadColumns(reference, translations);
            && |plan| == n + 2
            && forall j :: 0 <= j < n + 2 ==>
                 plan[j] == ColumnUpdate(RangeString(sheet, j + 1, j + 1, |reference.lines| + 2), cols[j])
  {
    UploadPlanLength(sheet, reference, translations, n);
    forall j | 0 <= j < n + 2
      ensures UploadPlan(sheet, reference, translations, n)[j]
           == ColumnUpdate(RangeString(sheet, j + 1, j + 1, |reference.lines| + 2), UploadColumns(reference, translations)[j])
    {
      UploadPlanColumn(sheet, reference, translations, n, j);
    }
  }

  lemma {:induction false} UploadPlanLength(sheet: string, reference: Document, translations: seq<(Language, Document)>, n: nat)
    requires n <= |translations|
    ensures |UploadPlan(sheet, reference, translations, n)| == n + 2
  {
    if n > 0 {
      UploadPlanLength(sheet, reference, translations, n - 1);
    }
  }

  /** The `j`-th update of the first `n + 2` writes column `j`. */
  lemma {:induction false} UploadPlanColumn(sheet: string, reference: Document, translations: seq<(Language, Document)>, n: nat, j: nat)
    requires n <= |translations| && j < n + 2
    ensures |UploadPlan(sheet, reference, translations, n)| == n + 2
    ensures UploadPlan(sheet, reference, translations, n)[j]
         == ColumnUpdate(RangeString(sheet, j + 1, j + 1, |reference.lines| + 2), UploadColumns(reference, translations)[j])
  {
    UploadPlanLength(sheet, reference, translations, n);
    if n == 0 {
      KeyColumns(sheet, reference, translations, j);
    } else if j < n + 1 {
      UploadPlanColumn(sheet, reference, translations, n - 1, j);
      UploadPlanKeepsEarlier(sheet, reference, translations, n, j);
    } else {
      LastUpdate(sheet, reference, translations, n);
    }
  }

  /** A later language does not change the updates before it. */
  lemma UploadPlanKeepsEarlier(sheet: string, reference: Document, translations: seq<(Language, Document)>, n: nat, j: nat)
    requires 0 < n <= |translations| && j < n + 1
    requires |UploadPlan(sheet, reference, translations, n - 1)| == n + 1
    ensures |UploadPlan(sheet, reference, translations, n)| == n + 2
    ensures UploadPlan(sheet, reference, translations, n)[j] == UploadPlan(sheet, reference, translations, n - 1)[j]
  {
    UploadPlanStep(sheet, reference, translations, n - 1);
  }

  /** The update for the `n`-th language writes column `n + 1`. */
  lemma LastUpdate(sheet: string, reference: Document, translations: seq<(Language, Document)>, n: nat)
    requires 0 < n <= |translations|
    requires |UploadPlan(sheet, reference, translations, n - 1)| == n + 1
    ensures |UploadPlan(sheet, reference, translations, n)| == n + 2
    ensures UploadPlan(sheet, reference, translations, n)[n + 1]
         == ColumnUpdate(RangeString(sheet, n + 2, n + 2, |reference.lines| + 2), UploadColumns(reference, translations)[n + 1])
  {
    UploadPlanStep(sheet, reference, translations, n - 1);
    LanguageColumn(reference, translations, n - 1);
  }

  /** The first two updates write the comments and keys columns. */
  lemma KeyColumns(sheet: string, reference: Document, translations: seq<(Language, Document)>, j: nat)
    requires j < 2
    ensures UploadPlan(sheet, reference, translations, 0)[j]
         == ColumnUpdate(RangeString(sheet, j + 1, j + 1, |reference.lines| + 2), UploadColumns(reference, translations)[j])
  {
    var cols := UploadColumns(reference, translations);
    var keys := UploadKeys(sheet, reference);
    if j == 0 {
      assert cols[0] == CommentsColumn(reference);
      assert keys[0] == UploadToSheets(sheet, CommentsColumn(reference), 1);
    } else {
      assert cols[1] == KeysColumn(reference);
      assert keys[1] == UploadToSheets(sheet, KeysColumn(reference), 2);
    }
  }

  /** The update for one more language goes after those already made. */
  lemma UploadPlanStep(sheet: string, reference: Document, translations: seq<(Language, Document)>, n: nat)
    requires n < |translations|
    ensures UploadPlan(sheet, reference, translations, n + 1)
         == UploadPlan(sheet, reference, translations, n)
            + [UploadTranslation(sheet, translations[n].0, reference, translations[n].1, n + 3)]
  {
  }

  /** Column `j + 2` of the sheet is the `j`-th language's. */
  lemma LanguageColumn(reference: Document, translations: seq<(Language, Document)>, j: nat)
    requires j < |translations|
    ensures UploadColumns(reference, translations)[j + 2]
         == TranslationColumn(translations[j].0, reference, translations[j].1)
  {
  }

  /** All columns have the same height: two heading rows and one row per reference line. */
  lemma ColumnsShareHeight(reference: Document, translations: seq<(Language, Document)>)
    ensures forall c :: 0 <= c < |UploadColumns(reference, translations)| ==>
              |UploadColumns(reference, translations)[c]| == |reference.lines| + 2
  {
    var cols := UploadColumns(reference, translations);
    forall c | 0 <= c < |cols| ensures |cols[c]| == |reference.lines| + 2 {
      if c >= 2 {
        assert cols[c] == TranslationColumn(translations[c - 2].0, reference, translations[c - 2].1);
      }
    }
  }

  /** Row `r` of a sheet; a row past the last one holds no cells. */
  function RowAt(rows: seq<seq<string>>, r: nat): seq<string> {
    if r < |rows| then rows[r] else []
  }

  function Max(a: nat, b: nat): nat { if a < b then b else a }

  /** Row `r` of the sheet after the columns are written over `row`: their cells first, then the rest of `row`. */
  function OverlayRow(row: seq<string>, cols: seq<seq<string>>, r: nat): (out: seq<string>)
    ensures forall c :: 0 <= c < |cols| ==> ItemOrEmpty(out, c) == ItemOrEmpty(cols[c], r)
    ensures forall c :: |cols| <= c ==> ItemOrEmpty(out, c) == ItemOrEmpty(row, c)
  {
    seq(Max(|cols|, |row|), c requires 0 <= c < Max(|cols|, |row|) => if c < |cols| then ItemOrEmpty(cols[c], r) else row[c])
  }

  /**
   * The rows the sheet `prior` returns once the updates have written `cols`
   * over rows `0 .. height - 1` of its first `|cols|` columns: a written cell
   * reads as its column, every other cell as before, and rows below the
   * written ones are left as they were.
   */
  function Overlay(prior: seq<seq<string>>, cols: seq<seq<string>>, height: nat): (rows: seq<seq<string>>)
    ensures |rows| == Max(|prior|, height)
    ensures forall r, c :: 0 <= r < height && 0 <= c < |cols| ==> ItemOrEmpty(rows[r], c) == ItemOrEmpty(cols[c], r)
    ensures forall r, c :: 0 <= r < height && |cols| <= c ==> ItemOrEmpty(rows[r], c) == ItemOrEmpty(RowAt(prior, r), c)
    ensures forall r :: height <= r < |rows| ==> rows[r] == prior[r]
  {
    seq(Max(|prior|, height), r requires 0 <= r < Max(|prior|, height) =>
      if r < height then OverlayRow(RowAt(prior, r), cols, r) else prior[r])
  }

  /** The sheet `prior` after an upload: nothing clears the cells outside the written range. */
  function UploadedRows(prior: seq<seq<string>>, reference: Document, translations: seq<(Language, Document)>): seq<seq<string>> {
    Overlay(prior, UploadColumns(reference, translations), |reference.lines| + 2)
  }

  /** The rows of `prior` below the `height` rows an upload writes. */
  function StaleRows(prior: seq<seq<string>>, height: nat): (r: seq<seq<string>>)
    ensures |r| == Max(|prior|, height) - height
    ensures forall k :: 0 <= k < |r| ==> r[k] == prior[height + k]
  {
    if |prior| <= height then [] else prior[height..]
  }

  // ----- Download -----

  /** `download_from_sheets`' range: every row of columns A to the last language. */
  function DownloadRange(sheet: string, columns: int): string {
    sheet + "!A1:" + Label(columns)
  }

  /**
   * The download range names the sheet, then `A1:` and letters that read back
   * as the column count: the fetched rows hold at most `columns` cells, which
   * `ClippedRowReadsAlike` shows loses nothing for the columns written.
   */
  lemma DownloadRangeDecodes(sheet: string, columns: int)
    requires columns >= 1
    ensures exists b :: && DownloadRange(sheet, columns) == sheet + "!A1:" + b
                        && b != [] && IsLetters(b) && Value(b) == columns
  {
    LabelShape(columns);
    ValueOfLabel(columns);
    var b := Label(columns);
    assert DownloadRange(sheet, columns) == sheet + "!A1:" + b;
  }

  /** The message of the `IndexError` when the sheet has no header row. */
  const NoHeaderRow := "list index out of range"

  /** The file path written for a language, relative to the resources path. */
  function OutputPath(code: string, fileName: string): string {
    code + ".lproj/" + fileName
  }

  /** What one data row writes to the file of the language in column `index`. */
  function RowText(row: seq<string>, index: nat): (t: string)
    ensures ItemOrEmpty(row, 0) != "" ==> t == ReplaceAll(ItemOrEmpty(row, 0), EmptyLine, "") + "\n"
    ensures ItemOrEmpty(row, 0) == "" && (ItemOrEmpty(row, 1) == "" || ItemOrEmpty(row, index) == "") ==> t == ""
    ensures ItemOrEmpty(row, 0) == "" && ItemOrEmpty(row, 1) != "" && ItemOrEmpty(row, index) != ""
            ==> t == EntryLine(ItemOrEmpty(row, 1), Encode(ItemOrEmpty(row, index))) + "\n"
  {
    var comment := ItemOrEmpty(row, 0);
    var key := ItemOrEmpty(row, 1);
    var value := ItemOrEmpty(row, index);
    if comment != "" then ReplaceAll(comment, EmptyLine, "") + "\n"
    else if key != "" && value != "" then EntryLine(key, Encode(value)) + "\n"
    else ""
  }

  /** The header line, when the header cell is not empty. */
  function HeaderText(header: string): string {
    if header != "" then header + "\n" else ""
  }

  /** The text written once the header row and rows `2 .. n - 1` are read. */
  function FileText(values: seq<seq<string>>, n: nat, index: nat): string
    requires 2 <= n <= |values|
  {
    if n == 2 then HeaderText(ItemOrEmpty(values[1], index))
    else FileText(values, n - 1, index) + RowText(values[n - 1], index)
  }

  /** The whole file for the language in column `index`; the header row must exist. */
  function RenderedFile(values: seq<seq<string>>, index: nat): (r: Result<string, string>)
    ensures |values| < 2 <==> r == Err(NoHeaderRow)
  {
    if |values| < 2 then Err(NoHeaderRow)
    else Ok(FileText(values, |values|, index))
  }

  /** The body of the language loop of `download_localizable_files`: one file's text. */
  method DownloadLocalizableFile(values: seq<seq<string>>, index: nat) returns (r: Result<string, string>)
    ensures r == RenderedFile(values, index)
  {
    if |values| < 2 {
      return Err(NoHeaderRow);
    }
    var text := "";
    var header := ItemOrEmpty(values[1], index);
    if header != "" {
      text := header + "\n";
    }
    var n := 2;
    while n < |values|
      invariant 2 <= n <= |values|
      invariant text == FileText(values, n, index)
    {
      text := WriteRow(text, values[n], index);
      n := n + 1;
    }
    return Ok(text);
  }

  /** One pass of the row loop: a comment, or else an entry when both key and value are present. */
  method WriteRow(text: string, row: seq<string>, index: nat) returns (out: string)
    ensures out == text + RowText(row, index)
  {
    var comment := ItemOrEmpty(row, 0);
    var key := ItemOrEmpty(row, 1);
    var value := ItemOrEmpty(row, index);
    out := text;
    if comment != "" {
      out := out + (ReplaceAll(comment, EmptyLine, "") + "\n");
    } else if key != "" && value != "" {
      out := out + (EntryLine(key, Encode(value)) + "\n");
    } else {
      assert out + "" == out;
    }
  }

  /** A file written by the download. */
  datatype OutputFile = OutputFile(path: string, text: string)

  /** The files written for the first `n` languages, stopping at the first error. */
  function DownloadPrefix(values: seq<seq<string>>, languages: seq<Language>, fileName: string, n: nat): Result<seq<OutputFile>, string>
    requires n <= |languages|
  {
    if n == 0 then Ok([])
    else
      match DownloadPrefix(values, languages, fileName, n - 1)
      case Err(e) => Err(e)
      case Ok(files) =>
        match RenderedFile(values, n + 1)
        case Err(e) => Err(e)
        case Ok(text) => Ok(files + [OutputFile(OutputPath(languages[n - 1].code, fileName), text)])
  }

  /** Every file the download writes. */
  function DownloadAll(values: seq<seq<string>>, languages: seq<Language>, fileName: string): Result<seq<OutputFile>, string>
  {
    DownloadPrefix(values, languages, fileName, |languages|)
  }

  /** `download_localizable_files`, given the rows fetched for `DownloadRange(sheet, |languages| + 2)`. */
  method DownloadLocalizableFiles(values: seq<seq<string>>, languages: seq<Language>, fileName: string)
    returns (r: Result<seq<OutputFile>, string>)
    ensures r == DownloadAll(values, languages, fileName)
  {
    var files: seq<OutputFile> := [];
    var i := 0;
    while i < |languages|
      invariant 0 <= i <= |languages|
      invariant DownloadPrefix(values, languages, fileName, i) == Ok(files)
    {
      var text := DownloadLocalizableFile(values, i + 2);
      DownloadStep(values, languages, fileName, i, files, text);
      if text.Err? {
        return Err(text.error);
      }
      files := files + [OutputFile(OutputPath(languages[i].code, fileName), text.value)];
      i := i + 1;
    }
    return Ok(files);
  }

  /** One turn of the language loop: an error ends the download, a text adds one file. */
  lemma DownloadStep(values: seq<seq<string>>, languages: seq<Language>, fileName: string, i: nat,
                     files: seq<OutputFile>, text: Result<string, string>)
    requires i < |languages|
    requires DownloadPrefix(values, languages, fileName, i) == Ok(files)
    requires text == RenderedFile(values, i + 2)
    ensures text.Err? ==> DownloadAll(values, languages, fileName) == Err(text.error)
    ensures text.Ok? ==> DownloadPrefix(values, languages, fileName, i + 1)
                         == Ok(files + [OutputFile(OutputPath(languages[i].code, fileName), text.value)])
  {
    if text.Err? {
      DownloadErrorStops(values, languages, fileName, i + 1, |languages|);
    }
  }

  /** The first error ends the download: no later language is written. */
  lemma {:induction false} DownloadErrorStops(values: seq<seq<string>>, languages: seq<Language>, fileName: string, m: nat, n: nat)
    requires m <= n <= |languages|
    requires DownloadPrefix(values, languages, fileName, m).Err?
    ensures DownloadPrefix(values, languages, fileName, n) == DownloadPrefix(values, languages, fileName, m)
    decreases n - m
  {
    if m < n {
      DownloadErrorStops(values, languages, fileName, m, n - 1);
      DownloadErrorPasses(values, languages, fileName, n);
    }
  }

  lemma DownloadErrorPasses(values: seq<seq<string>>, languages: seq<Language>, fileName: string, n: nat)
    requires 0 < n <= |languages|
    requires DownloadPrefix(values, languages, fileName, n - 1).Err?
    ensures DownloadPrefix(values, languages, fileName, n) == DownloadPrefix(values, languages, fileName, n - 1)
  {
  }

  /**
   * The first `n` languages get one file each; the download fails, with the
   * header row's `IndexError`, exactly when there is a language but no
   * header row.
   */
  lemma {:induction false} DownloadPrefixOutcome(values: seq<seq<string>>, languages: seq<Language>, fileName: string, n: nat)
    requires n <= |languages|
    ensures var r := DownloadPrefix(values, languages, fileName, n);
            && (r.Err? <==> n > 0 && |values| < 2)
            && (r.Err? ==> r.error == NoHeaderRow)
            && (r.Ok? ==> |r.value| == n)
  {
    if |values| < 2 {
      if n > 0 {
        DownloadWithoutHeader(values, languages, fileName, n);
      }
    } else {
      DownloadWithHeader(values, languages, fileName, n);
    }
  }

  /** With the header row every language gets its file. */
  lemma {:induction false} DownloadWithHeader(values: seq<seq<string>>, languages: seq<Language>, fileName: string, n: nat)
    requires n <= |languages| && |values| >= 2
    ensures DownloadPrefix(values, languages, fileName, n).Ok?
    ensures |DownloadPrefix(values, languages, fileName, n).value| == n
  {
    if n > 0 {
      DownloadWithHeader(values, languages, fileName, n - 1);
      var prev := DownloadPrefix(values, languages, fileName, n - 1).value;
      var text := RenderedFile(values, n + 1).value;
      assert DownloadPrefix(values, languages, fileName, n)
          == Ok(prev + [OutputFile(OutputPath(languages[n - 1].code, fileName), text)]);
    }
  }

  /**
   * Without it the first language raises the `IndexError` and no file is
   * produced (on disk the first language's file has already been opened for
   * writing, and so emptied, when the error is raised).
   */
  lemma {:induction false} DownloadWithoutHeader(values: seq<seq<string>>, languages: seq<Language>, fileName: string, n: nat)
    requires 0 < n <= |languages| && |values| < 2
    ensures DownloadPrefix(values, languages, fileName, n) == Err(NoHeaderRow)
  {
    if n == 1 {
      assert DownloadPrefix(values, languages, fileName, 0) == Ok([]);
      assert RenderedFile(values, 2) == Err(NoHeaderRow);
    } else {
      DownloadWithoutHeader(values, languages, fileName, n - 1);
      DownloadErrorPasses(values, languages, fileName, n);
    }
  }

  /** The `i`-th file is at `{code}.lproj/{file}` for the `i`-th language and holds that language's rendering. */
  lemma {:induction false} DownloadPrefixFile(values: seq<seq<string>>, languages: seq<Language>, fileName: string, n: nat, i: nat)
    requires i < n <= |languages|
    requires DownloadPrefix(values, languages, fileName, n).Ok?
    ensures |DownloadPrefix(values, languages, fileName, n).value| == n
    ensures DownloadPrefix(values, languages, fileName, n).value[i]
         == OutputFile(OutputPath(languages[i].code, fileName), RenderedFile(values, i + 2).value)
  {
    DownloadPrefixOutcome(values, languages, fileName, n);
    var prev := DownloadPrefix(values, languages, fileName, n - 1);
    assert prev.Ok?;
    if i < n - 1 {
      DownloadPrefixFile(values, languages, fileName, n - 1, i);
      var files := DownloadPrefix(values, languages, fileName, n).value;
      assert files == prev.value + [files[n - 1]];
      assert files[i] == prev.value[i];
    }
  }

  /** The whole download: one file per language, or the header row's error. */
  lemma DownloadAllFiles(values: seq<seq<string>>, languages: seq<Language>, fileName: string)
    ensures var r := DownloadAll(values, languages, fileName);
            && (r.Err? <==> |languages| > 0 && |values| < 2)
            && (r.Err? ==> r.error == NoHeaderRow)
            && (r.Ok? ==> |r.value| == |languages|)
            && (r.Ok? ==> forall i :: 0 <= i < |languages| ==>
                  r.value[i].path == OutputPath(languages[i].code, fileName)
                  && Ok(r.value[i].text) == RenderedFile(values, i + 2))
  {
    DownloadPrefixOutcome(values, languages, fileName, |languages|);
    var r := DownloadAll(values, languages, fileName);
    if r.Ok? {
      forall i | 0 <= i < |languages|
        ensures r.value[i].path == OutputPath(languages[i].code, fileName)
                && Ok(r.value[i].text) == RenderedFile(values, i + 2)
      {
        DownloadPrefixFile(values, languages, fileName, |languages|, i);
      }
    }
  }

  // ----- Properties of the download -----

  /** A data row writes nothing, or one comment, or one entry line that the parser's pattern reads back. */
  lemma RowTextIsOneLine(row: seq<string>, index: nat)
    ensures var t := RowText(row, index);
            || (t == "" && ItemOrEmpty(row, 0) == "" && (ItemOrEmpty(row, 1) == "" || ItemOrEmpty(row, index) == ""))
            || (ItemOrEmpty(row, 0) != "" && t == ReplaceAll(ItemOrEmpty(row, 0), EmptyLine, "") + "\n")
            || (ItemOrEmpty(row, 0) == "" && t == EntryLine(ItemOrEmpty(row, 1), Encode(ItemOrEmpty(row, index))) + "\n"
                && ItemOrEmpty(row, 1) != "" && ItemOrEmpty(row, index) != "")
  {
  }

  /**
   * An entry line the download writes is matched by the parser with the same
   * key and the encoded value, which decodes back to the cell, when neither
   * holds a quote, the key no line break and the value no backslash.
   */
  lemma WrittenEntryReadsBack(key: string, value: string)
    requires '"' !in key && '\n' !in key && '"' !in value && '\\' !in value
    ensures MatchKeyValue(EntryLine(key, Encode(value))) == Some(KeyValue(key, Encode(value)))
    ensures DecodeNewlines(Encode(value)) == value
  {
    EncodeShape(value);
    EncodeKeepsOtherChars(value, '"');
    EntryLineMatches(key, Encode(value));
    DecodeEncode(value);
  }

  /**
   * Restricting the rows to the fetched columns (those of `DownloadRange`)
   * changes no row's text for a column inside the range.
   */
  lemma ClippedRowReadsAlike(row: seq<string>, columns: nat, index: nat)
    requires 2 <= columns && index < columns
    ensures RowText(row[..if columns < |row| then columns else |row|], index) == RowText(row, index)
  {
  }

  /** Cells padded with `""` at the end of a row change nothing written. */
  lemma PaddedRowReadsAlike(row: seq<string>, count: nat, index: nat)
    ensures RowText(Padded(row, count, ""), index) == RowText(row, index)
  {
    PaddingReadsAsMissing(row, count, 0);
    PaddingReadsAsMissing(row, count, 1);
    PaddingReadsAsMissing(row, count, index);
  }

  /** Empty rows at the end of the sheet, which the service omits, change nothing written. */
  lemma {:induction false} TrailingEmptyRowsWriteNothing(values: seq<seq<string>>, extra: nat, index: nat)
    requires |values| >= 2
    ensures RenderedFile(values + seq(extra, _ => []), index) == RenderedFile(values, index)
  {
    if extra > 0 {
      var shorter := values + seq(extra - 1, _ => []);
      TrailingEmptyRowsWriteNothing(values, extra - 1, index);
      assert values + seq(extra, _ => []) == shorter + [[]];
      EmptyRowWritesNothing(shorter, index);
    } else {
      assert values + seq(extra, _ => []) == values;
    }
  }

  /** One empty row at the end of the sheet changes nothing written. */
  lemma EmptyRowWritesNothing(values: seq<seq<string>>, index: nat)
    requires |values| >= 2
    ensures RenderedFile(values + [[]], index) == RenderedFile(values, index)
  {
    var longer := values + [[]];
    FileTextOfPrefix(longer, values, |values|, index);
    assert RowText(longer[|values|], index) == "";
    assert FileText(longer, |longer|, index) == FileText(longer, |values|, index) + RowText(longer[|values|], index);
    assert FileText(longer, |longer|, index) == FileText(values, |values|, index);
  }

  /** The text of the first rows depends only on those rows. */
  lemma {:induction false} FileTextOfPrefix(a: seq<seq<string>>, b: seq<seq<string>>, n: nat, index: nat)
    requires 2 <= n <= |a| && n <= |b|
    requires forall k :: 0 <= k < n ==> a[k] == b[k]
    ensures FileText(a, n, index) == FileText(b, n, index)
  {
    if n > 2 {
      FileTextOfPrefix(a, b, n - 1, index);
    } else {
      assert a[1] == b[1];
    }
  }

  /** A row's text depends only on its comment, key and value cells. */
  lemma RowTextOfCells(a: seq<string>, b: seq<string>, index: nat)
    requires ItemOrEmpty(a, 0) == ItemOrEmpty(b, 0) && ItemOrEmpty(a, 1) == ItemOrEmpty(b, 1)
    requires ItemOrEmpty(a, index) == ItemOrEmpty(b, index)
    ensures RowText(a, index) == RowText(b, index)
  {
  }

  /** Sheets with the same header cell whose rows write the same texts give the same file. */
  lemma {:induction false} FileTextOfAlikeRows(a: seq<seq<string>>, b: seq<seq<string>>, n: nat, index: nat)
    requires 2 <= n <= |a| && n <= |b|
    requires ItemOrEmpty(a[1], index) == ItemOrEmpty(b[1], index)
    requires forall k :: 2 <= k < n ==> RowText(a[k], index) == RowText(b[k], index)
    ensures FileText(a, n, index) == FileText(b, n, index)
    decreases n
  {
    if n > 2 {
      FileTextOfAlikeRows(a, b, n - 1, index);
    }
  }

  // ----- Upload then download -----

  /** What a reference line writes for a translation: its comment, or its key and the translation's value. */
  function LineText(line: Line, dict: map<string, string>): string {
    match line
    case Comment(text) => if text != "" then ReplaceAll(text, EmptyLine, "") + "\n" else ""
    case Entry(key, _) =>
      if key != "" && Lookup(dict, key) != "" then EntryLine(key, Encode(Lookup(dict, key))) + "\n" else ""
  }

  /** The file a language gets: its own header, then the reference's lines filled from its dictionary. */
  function LocalizedText(reference: Document, translation: Document): string {
    LocalizedPrefix(translation.header, reference.lines, |reference.lines|, translation.dict)
  }

  /** The header, then what the first `n` lines write. */
  function LocalizedPrefix(header: string, lines: seq<Line>, n: nat, dict: map<string, string>): string
    requires n <= |lines|
  {
    if n == 0 then HeaderText(header) else LocalizedPrefix(header, lines, n - 1, dict) + LineText(lines[n - 1], dict)
  }

  /** A row reads as its reference line when its comment, key and value cells hold that line's cells. */
  lemma RowTextOfLine(row: seq<string>, line: Line, translation: Document, index: nat)
    requires ItemOrEmpty(row, 0) == CommentCell(line) && ItemOrEmpty(row, 1) == KeyCell(line)
    requires ItemOrEmpty(row, index) == TranslationCell(translation, line)
    ensures RowText(row, index) == LineText(line, translation.dict)
  {
  }

  /** Row `k + 2` of the uploaded sheet holds the cells of reference line `k`. */
  lemma UploadedRowCells(prior: seq<seq<string>>, reference: Document, translations: seq<(Language, Document)>, i: nat, k: nat)
    requires i < |translations| && k < |reference.lines|
    ensures var row := UploadedRows(prior, reference, translations)[k + 2];
            var line := reference.lines[k];
            && ItemOrEmpty(row, 0) == CommentCell(line) && ItemOrEmpty(row, 1) == KeyCell(line)
            && ItemOrEmpty(row, i + 2) == TranslationCell(translations[i].1, line)
  {
    var cols := UploadColumns(reference, translations);
    var line := reference.lines[k];
    assert cols[0][k + 2] == CommentCell(line);
    assert cols[1][k + 2] == KeyCell(line);
    assert cols[i + 2] == TranslationColumn(translations[i].0, reference, translations[i].1);
    assert cols[i + 2][k + 2] == TranslationCell(translations[i].1, line);
  }

  /** Rows that each write what their line writes give the lines' text. */
  lemma {:induction false} FileTextOfLines(rows: seq<seq<string>>, lines: seq<Line>, header: string, dict: map<string, string>, index: nat, n: nat)
    requires |rows| >= |lines| + 2 && 2 <= n <= |lines| + 2
    requires ItemOrEmpty(rows[1], index) == header
    requires forall k :: 0 <= k < |lines| ==> RowText(rows[k + 2], index) == LineText(lines[k], dict)
    ensures FileText(rows, n, index) == LocalizedPrefix(header, lines, n - 2, dict)
  {
    if n > 2 {
      FileTextOfLines(rows, lines, header, dict, index, n - 1);
      assert RowText(rows[(n - 3) + 2], index) == LineText(lines[n - 3], dict);
    }
  }

  /**
   * Upload then download: over any earlier sheet, the download reads the
   * uploaded rows and then the earlier sheet's rows below them, exactly as if
   * those stale rows had been appended to a fresh upload.
   */
  lemma UploadThenDownload(prior: seq<seq<string>>, reference: Document, translations: seq<(Language, Document)>, i: nat)
    requires i < |translations|
    ensures RenderedFile(UploadedRows(prior, reference, translations), i + 2)
         == RenderedFile(UploadedRows([], reference, translations) + StaleRows(prior, |reference.lines| + 2), i + 2)
  {
    var rows := UploadedRows(prior, reference, translations);
    var b := UploadedRows([], reference, translations) + StaleRows(prior, |reference.lines| + 2);
    UploadedRowAlike(prior, reference, translations, i, 1);
    forall k | 2 <= k < |rows| ensures RowText(rows[k], i + 2) == RowText(b[k], i + 2) {
      UploadedRowAlike(prior, reference, translations, i, k);
    }
    FileTextOfAlikeRows(rows, b, |rows|, i + 2);
  }

  /**
   * Row `k` of an upload over `prior` writes the same text, and holds the same
   * header cell, as row `k` of a fresh upload with the stale rows appended.
   */
  lemma UploadedRowAlike(prior: seq<seq<string>>, reference: Document, translations: seq<(Language, Document)>, i: nat, k: nat)
    requires i < |translations| && k < |UploadedRows(prior, reference, translations)|
    ensures var b := UploadedRows([], reference, translations) + StaleRows(prior, |reference.lines| + 2);
            && |b| == |UploadedRows(prior, reference, translations)|
            && ItemOrEmpty(UploadedRows(prior, reference, translations)[k], i + 2) == ItemOrEmpty(b[k], i + 2)
            && RowText(UploadedRows(prior, reference, translations)[k], i + 2) == RowText(b[k], i + 2)
  {
    var height := |reference.lines| + 2;
    var rows := UploadedRows(prior, reference, translations);
    var clean := UploadedRows([], reference, translations);
    var stale := StaleRows(prior, height);
    var b := clean + stale;
    if k < height {
      assert b[k] == clean[k];
      RowTextOfCells(rows[k], clean[k], i + 2);
    } else {
      assert b[k] == stale[k - height];
    }
  }

  /**
   * On a sheet no taller than the upload, and so on an empty one, each
   * language's file is that language's header followed by the reference file's
   * comments and keys, each key with the language's value for it.
   */
  lemma UploadThenDownloadFresh(prior: seq<seq<string>>, reference: Document, translations: seq<(Language, Document)>, i: nat)
    requires i < |translations| && |prior| <= |reference.lines| + 2
    ensures RenderedFile(UploadedRows(prior, reference, translations), i + 2) == Ok(LocalizedText(reference, translations[i].1))
  {
    UploadedRowsText(prior, reference, translations, i);
  }

  /** The rows the upload writes render as the language's localized text. */
  lemma UploadedRowsText(prior: seq<seq<string>>, reference: Document, translations: seq<(Language, Document)>, i: nat)
    requires i < |translations|
    ensures |UploadedRows(prior, reference, translations)| >= |reference.lines| + 2
    ensures FileText(UploadedRows(prior, reference, translations), |reference.lines| + 2, i + 2)
         == LocalizedText(reference, translations[i].1)
  {
    var rows := UploadedRows(prior, reference, translations);
    var cols := UploadColumns(reference, translations);
    var translation := translations[i].1;
    assert cols[i + 2] == TranslationColumn(translations[i].0, reference, translation);
    assert ItemOrEmpty(rows[1], i + 2) == cols[i + 2][1];
    forall k | 0 <= k < |reference.lines|
      ensures RowText(rows[k + 2], i + 2) == LineText(reference.lines[k], translation.dict)
    {
      UploadedRowCells(prior, reference, translations, i, k);
      RowTextOfLine(rows[k + 2], reference.lines[k], translation, i + 2);
    }
    FileTextOfLines(rows, reference.lines, translation.header, translation.dict, i + 2, |reference.lines| + 2);
  }
}
