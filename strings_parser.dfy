/**
 * The parser of `Localizable.strings` files: a line-by-line state machine
 * that collects comments, blank-line markers and key/value entries in file
 * order, a dictionary in which the last value of a key wins, and a header
 * taken from the first block comment that is closed.
 *
 * The Python parser keeps its state in local variables of one function and
 * hands the `lines` list to `append_comment`, which changes it in place. Here
 * that state is the object `Parser`; `ParseState` is its value, and
 * `Step`/`RunPrefix` specify what reading each line does to it.
 */
module StringsParser {
  import opened Wrappers
  import opened Text
  import opened KeyValuePattern

  /** The comment stored for a blank line of the file. */
  const EmptyLine := "<<< EMPTY LINE >>>"

  /** An element of the ordered `lines` list: a comment string or a key/value entry. */
  datatype Line = Comment(text: string) | Entry(key: string, value: string)

  /** What `parse_localizable_file` returns. */
  datatype Document = Document(header: string, lines: seq<Line>, dict: map<string, string>)

  /** The parser's state: `lines`, `dict`, the pending block comment and `header`. */
  datatype ParseState = ParseState(lines: seq<Line>, dict: map<string, string>, pending: string, header: string)

  const Initial := ParseState([], map[], "", "")

  /**
   * How a line that opens a block comment is treated. `AsWritten` is the
   * source: the opening test comes first, so `/* ... */` on one line does not
   * close itself. `SelfClosing` is the evidently intended rule, under which
   * such a line is a complete block comment.
   */
  datatype BlockRule = AsWritten | SelfClosing

  /** `append_comment(list, comment, combine_comments)`, as a function of the list. */
  function WithComment(lines: seq<Line>, comment: string, combine: bool): (r: seq<Line>)
    ensures combine && |lines| > 0 && lines[|lines| - 1].Comment? ==>
              && |r| == |lines|
              && r[..|lines| - 1] == lines[..|lines| - 1]
              && r[|lines| - 1] == Comment(lines[|lines| - 1].text + "\n" + comment)
    ensures !(combine && |lines| > 0 && lines[|lines| - 1].Comment?) ==>
              |r| == |lines| + 1 && r[..|lines|] == lines && r[|lines|] == Comment(comment)
  {
    var n := |lines|;
    if combine && n > 0 && lines[n - 1].Comment? then
      lines[n - 1 := Comment(lines[n - 1].text + "\n" + comment)]
    else
      lines + [Comment(comment)]
  }

  /** A trimmed line that is a whole block comment by itself. */
  predicate SelfClosed(t: string) {
    |t| >= 4 && StartsWith(t, "/*") && EndsWith(t, "*/")
  }

  /** A closed block comment becomes the header when there is none yet, and a comment otherwise. */
  function CloseBlock(st: ParseState, text: string, combine: bool): ParseState
  {
    if st.header != "" then st.(lines := WithComment(st.lines, text, combine), pending := "")
    else st.(header := text, pending := "")
  }

  /** Reading one line from `readlines()`: the body of the parser's loop. */
  function Step(rule: BlockRule, st: ParseState, raw: string, combine: bool, decode: string -> string): (r: ParseState)
    ensures st.header != "" ==> r.header == st.header
  {
    var line := StripChar(raw, '\n');
    var t := Trim(line);
    if rule == SelfClosing && SelfClosed(t) then CloseBlock(st, line, combine)
    else if StartsWith(t, "/*") then st.(pending := line + "\n")
    else if EndsWith(t, "*/") then CloseBlock(st, st.pending + line, combine)
    else if st.pending != "" then st.(pending := st.pending + line + "\n")
    else if StartsWith(t, "//") then st.(lines := WithComment(st.lines, line, combine))
    else if t == "" then st.(lines := WithComment(st.lines, EmptyLine, combine))
    else if '"' in line then
      match MatchKeyValue(line)
      case Some(kv) =>
        var v := decode(kv.value);
        st.(lines := st.lines + [Entry(kv.key, v)], dict := st.dict[kv.key := v])
      case None => st
    else st
  }

  /** The state after the first `n` lines. */
  function RunPrefix(rule: BlockRule, fileLines: seq<string>, n: nat, combine: bool, decode: string -> string): ParseState
    requires n <= |fileLines|
  {
    if n == 0 then Initial
    else Step(rule, RunPrefix(rule, fileLines, n - 1, combine, decode), fileLines[n - 1], combine, decode)
  }

  /** The document for a whole file; a block comment still open at the end is dropped. */
  function Parse(rule: BlockRule, fileLines: seq<string>, combine: bool, decode: string -> string): Document
  {
    var st := RunPrefix(rule, fileLines, |fileLines|, combine, decode);
    Document(st.header, st.lines, st.dict)
  }

  class Parser {
    var lines: seq<Line>
    var dict: map<string, string>
    var currentComment: string
    var header: string

    function State(): ParseState
      reads this
    {
      ParseState(lines, dict, currentComment, header)
    }

    constructor ()
      ensures State() == Initial
    {
      lines, dict, currentComment, header := [], map[], "", "";
    }

    /** `append_comment(lines, comment, combine_comments)`. */
    method AppendComment(comment: string, combine: bool)
      modifies this
      ensures lines == WithComment(old(lines), comment, combine)
      ensures dict == old(dict) && currentComment == old(currentComment) && header == old(header)
    {
      if combine && |lines| > 0 && lines[|lines| - 1].Comment? {
        lines := lines[|lines| - 1 := Comment(lines[|lines| - 1].text + "\n" + comment)];
      } else {
        lines := lines + [Comment(comment)];
      }
    }

    /** One pass of the loop in `parse_localizable_file`. */
    method ParseLine(raw: string, combine: bool, decode: string -> string)
      modifies this
      ensures State() == Step(AsWritten, old(State()), raw, combine, decode)
    {
      var line := StripChar(raw, '\n');
      var strippedLine := Trim(line);
      if StartsWith(strippedLine, "/*") {
        currentComment := line + "\n";
      } else if EndsWith(strippedLine, "*/") {
        currentComment := currentComment + line;
        if header != "" {
          AppendComment(currentComment, combine);
        } else {
          header := currentComment;
        }
        currentComment := "";
      } else if currentComment != "" {
        currentComment := currentComment + line + "\n";
      } else if StartsWith(strippedLine, "//") {
        AppendComment(line, combine);
      } else if strippedLine == "" {
        AppendComment(EmptyLine, combine);
      } else if '"' in line {
        var found := MatchKeyValue(line);
        if found.Some? {
          var value := decode(found.value.value);
          dict := dict[found.value.key := value];
          lines := lines + [Entry(found.value.key, value)];
        }
      }
    }
  }

  /**
   * `parse_localizable_file` on the lines `readlines()` returned; `decode`
   * stands for `decode_escaped_string`.
   */
  method ParseLocalizableFile(fileLines: seq<string>, combine: bool, decode: string -> string)
    returns (doc: Document)
    ensures doc == Parse(AsWritten, fileLines, combine, decode)
  {
    var parser := new Parser();
    var i := 0;
    while i < |fileLines|
      invariant 0 <= i <= |fileLines|
      invariant parser.State() == RunPrefix(AsWritten, fileLines, i, combine, decode)
    {
      RunPrefixNext(AsWritten, fileLines, i, combine, decode);
      parser.ParseLine(fileLines[i], combine, decode);
      i := i + 1;
    }
    doc := Document(parser.header, parser.lines, parser.dict);
  }

  lemma RunPrefixNext(rule: BlockRule, fileLines: seq<string>, n: nat, combine: bool, decode: string -> string)
    requires n < |fileLines|
    ensures RunPrefix(rule, fileLines, n + 1, combine, decode)
         == Step(rule, RunPrefix(rule, fileLines, n, combine, decode), fileLines[n], combine, decode)
  {
  }

  // ----- What reading one line does -----

  /**
   * A line opening a block comment restarts the pending comment with that
   * line, dropping what was pending, even when it also ends with the closing
   * marker; nothing else changes.
   */
  lemma OpeningLineRestartsComment(st: ParseState, raw: string, combine: bool, decode: string -> string)
    requires StartsWith(Trim(StripChar(raw, '\n')), "/*")
    ensures Step(AsWritten, st, raw, combine, decode) == st.(pending := StripChar(raw, '\n') + "\n")
  {
  }

  /**
   * A closing line ends the pending comment: before any header exists it
   * becomes the header and is not listed; afterwards it goes through
   * `append_comment`.
   */
  lemma ClosingLineEndsComment(rule: BlockRule, st: ParseState, raw: string, combine: bool, decode: string -> string)
    requires var t := Trim(StripChar(raw, '\n')); !StartsWith(t, "/*") && EndsWith(t, "*/")
    ensures var text := st.pending + StripChar(raw, '\n');
            var r := Step(rule, st, raw, combine, decode);
            && r.pending == "" && r.dict == st.dict
            && (st.header == "" ==> r.header == text && r.header != "" && r.lines == st.lines)
            && (st.header != "" ==> r.header == st.header && r.lines == WithComment(st.lines, text, combine))
  {
    var line := StripChar(raw, '\n');
    assert |Trim(line)| <= |line|;
  }

  /**
   * While a block comment is pending, a line that neither opens nor closes
   * one is added to it, whatever it holds; lines, entries and header stay.
   */
  lemma PendingCommentAbsorbsLine(rule: BlockRule, st: ParseState, raw: string, combine: bool, decode: string -> string)
    requires st.pending != ""
    requires var t := Trim(StripChar(raw, '\n')); !StartsWith(t, "/*") && !EndsWith(t, "*/")
    ensures Step(rule, st, raw, combine, decode) == st.(pending := st.pending + StripChar(raw, '\n') + "\n")
  {
  }

  /** The line, trimmed to `t`, neither opens, closes nor continues a block comment. */
  predicate OutsideBlock(rule: BlockRule, st: ParseState, t: string) {
    && !(rule == SelfClosing && SelfClosed(t))
    && !StartsWith(t, "/*") && !EndsWith(t, "*/") && st.pending == ""
  }

  /**
   * Outside a block comment, a `//` line goes through `append_comment` as it
   * is read (without its line break); nothing else changes.
   */
  lemma LineCommentIsAppended(rule: BlockRule, st: ParseState, raw: string, combine: bool, decode: string -> string)
    requires var t := Trim(StripChar(raw, '\n')); OutsideBlock(rule, st, t) && StartsWith(t, "//")
    ensures Step(rule, st, raw, combine, decode) == st.(lines := WithComment(st.lines, StripChar(raw, '\n'), combine))
  {
  }

  /**
   * Outside a block comment, a blank line goes through `append_comment` as
   * the empty-line placeholder; nothing else changes.
   */
  lemma BlankLineIsAppended(rule: BlockRule, st: ParseState, raw: string, combine: bool, decode: string -> string)
    requires var t := Trim(StripChar(raw, '\n')); OutsideBlock(rule, st, t) && t == ""
    ensures Step(rule, st, raw, combine, decode) == st.(lines := WithComment(st.lines, EmptyLine, combine))
  {
  }

  /** The test the parser applies before trying the key/value pattern. */
  predicate ReachesKeyValue(rule: BlockRule, st: ParseState, line: string) {
    var t := Trim(line);
    OutsideBlock(rule, st, t) && !StartsWith(t, "//") && t != ""
  }

  /**
   * A key/value line outside a comment appends exactly one entry and sets
   * the key in the dictionary; a line that does not match is dropped.
   */
  lemma KeyValueLine(rule: BlockRule, st: ParseState, raw: string, combine: bool, decode: string -> string)
    requires ReachesKeyValue(rule, st, StripChar(raw, '\n'))
    ensures var r := Step(rule, st, raw, combine, decode);
            match MatchKeyValue(StripChar(raw, '\n'))
            case Some(kv) =>
              && r.lines == st.lines + [Entry(kv.key, decode(kv.value))]
              && r.dict == st.dict[kv.key := decode(kv.value)]
              && r.pending == st.pending && r.header == st.header
            case None => r == st
  {
    MatchNeedsQuote(StripChar(raw, '\n'));
  }

  // ----- Entries and the dictionary -----

  /** The key/value entries of a list of lines, in order. */
  function Entries(lines: seq<Line>): seq<KeyValue>
  {
    if lines == [] then []
    else
      var last := lines[|lines| - 1];
      Entries(lines[..|lines| - 1]) + (if last.Entry? then [KeyValue(last.key, last.value)] else [])
  }

  /** The dictionary the entries of `lines` build when each later value overwrites the earlier. */
  function EntryMap(lines: seq<Line>): map<string, string>
  {
    if lines == [] then map[]
    else
      var last := lines[|lines| - 1];
      var m := EntryMap(lines[..|lines| - 1]);
      if last.Entry? then m[last.key := last.value] else m
  }

  predicate HasKeyAt(lines: seq<Line>, i: int, k: string) {
    0 <= i < |lines| && lines[i].Entry? && lines[i].key == k
  }

  /**
   * A key is in the entry map exactly when some entry has it, and then its
   * value is the value of the last such entry.
   */
  lemma {:induction false} EntryMapLastEntry(lines: seq<Line>, k: string)
    ensures k in EntryMap(lines) <==> exists i :: HasKeyAt(lines, i, k)
    ensures k in EntryMap(lines) ==>
              exists i :: HasKeyAt(lines, i, k) && lines[i].value == EntryMap(lines)[k]
                && forall j :: i < j < |lines| ==> !HasKeyAt(lines, j, k)
  {
    if lines != [] {
      var n := |lines|;
      var init := lines[..n - 1];
      EntryMapLastEntry(init, k);
      forall i | HasKeyAt(init, i, k) ensures HasKeyAt(lines, i, k) {}
      forall i | HasKeyAt(lines, i, k) && i < n - 1 ensures HasKeyAt(init, i, k) {}
      if HasKeyAt(lines, n - 1, k) {
        assert lines[n - 1].value == EntryMap(lines)[k];
      } else if k in EntryMap(lines) {
        var i :| HasKeyAt(init, i, k) && init[i].value == EntryMap(init)[k]
                 && forall j :: i < j < |init| ==> !HasKeyAt(init, j, k);
        assert HasKeyAt(lines, i, k);
      }
    }
  }

  /** `append_comment` never touches the entries, so neither the entry list nor the entry map change. */
  lemma WithCommentKeepsEntries(lines: seq<Line>, comment: string, combine: bool)
    ensures Entries(WithComment(lines, comment, combine)) == Entries(lines)
    ensures EntryMap(WithComment(lines, comment, combine)) == EntryMap(lines)
  {
    var r := WithComment(lines, comment, combine);
    var n := |lines|;
    if combine && n > 0 && lines[n - 1].Comment? {
      assert r[..n - 1] == lines[..n - 1];
    } else {
      assert r[..n] == lines;
    }
  }

  lemma AppendEntry(lines: seq<Line>, k: string, v: string)
    ensures Entries(lines + [Entry(k, v)]) == Entries(lines) + [KeyValue(k, v)]
    ensures EntryMap(lines + [Entry(k, v)]) == EntryMap(lines)[k := v]
  {
    assert (lines + [Entry(k, v)])[..|lines|] == lines;
  }

  lemma CloseBlockKeepsDict(st: ParseState, text: string, combine: bool)
    requires st.dict == EntryMap(st.lines)
    ensures var r := CloseBlock(st, text, combine); r.dict == EntryMap(r.lines)
  {
    WithCommentKeepsEntries(st.lines, text, combine);
  }

  /** Every step keeps the dictionary equal to the entry map of the lines list. */
  lemma StepKeepsDict(rule: BlockRule, st: ParseState, raw: string, combine: bool, decode: string -> string)
    requires st.dict == EntryMap(st.lines)
    ensures var r := Step(rule, st, raw, combine, decode); r.dict == EntryMap(r.lines)
  {
    var line := StripChar(raw, '\n');
    var t := Trim(line);
    var r := Step(rule, st, raw, combine, decode);
    if rule == SelfClosing && SelfClosed(t) {
      CloseBlockKeepsDict(st, line, combine);
    } else if StartsWith(t, "/*") {
    } else if EndsWith(t, "*/") {
      CloseBlockKeepsDict(st, st.pending + line, combine);
    } else if st.pending != "" {
    } else if StartsWith(t, "//") {
      assert r.lines == WithComment(st.lines, line, combine) && r.dict == st.dict;
      WithCommentKeepsEntries(st.lines, line, combine);
    } else if t == "" {
      assert r.lines == WithComment(st.lines, EmptyLine, combine) && r.dict == st.dict;
      WithCommentKeepsEntries(st.lines, EmptyLine, combine);
    } else if '"' in line {
      match MatchKeyValue(line)
      case Some(kv) =>
        var v := decode(kv.value);
        assert r.lines == st.lines + [Entry(kv.key, v)] && r.dict == st.dict[kv.key := v];
        AppendEntry(st.lines, kv.key, v);
      case None =>
    }
  }

  /**
   * Only a key/value line that the parser reaches adds to the entries or the
   * dictionary; every other line leaves both unchanged.
   */
  lemma OnlyKeyValueLinesAddEntries(rule: BlockRule, st: ParseState, raw: string, combine: bool, decode: string -> string)
    requires !ReachesKeyValue(rule, st, StripChar(raw, '\n'))
    ensures var r := Step(rule, st, raw, combine, decode);
            Entries(r.lines) == Entries(st.lines) && r.dict == st.dict
  {
    var line := StripChar(raw, '\n');
    var t := Trim(line);
    var r := Step(rule, st, raw, combine, decode);
    if rule == SelfClosing && SelfClosed(t) {
      assert r == CloseBlock(st, line, combine);
      CloseBlockKeepsEntries(st, line, combine);
    } else if StartsWith(t, "/*") {
    } else if EndsWith(t, "*/") {
      assert r == CloseBlock(st, st.pending + line, combine);
      CloseBlockKeepsEntries(st, st.pending + line, combine);
    } else if st.pending != "" {
    } else if StartsWith(t, "//") {
      assert r.lines == WithComment(st.lines, line, combine) && r.dict == st.dict;
      WithCommentKeepsEntries(st.lines, line, combine);
    } else {
      assert r.lines == WithComment(st.lines, EmptyLine, combine) && r.dict == st.dict;
      WithCommentKeepsEntries(st.lines, EmptyLine, combine);
    }
  }

  lemma CloseBlockKeepsEntries(st: ParseState, text: string, combine: bool)
    ensures var r := CloseBlock(st, text, combine);
            Entries(r.lines) == Entries(st.lines) && r.dict == st.dict
  {
    WithCommentKeepsEntries(st.lines, text, combine);
  }

  lemma {:induction false} RunKeepsDict(rule: BlockRule, fileLines: seq<string>, n: nat, combine: bool, decode: string -> string)
    requires n <= |fileLines|
    ensures var st := RunPrefix(rule, fileLines, n, combine, decode); st.dict == EntryMap(st.lines)
  {
    if n > 0 {
      RunKeepsDict(rule, fileLines, n - 1, combine, decode);
      StepKeepsDict(rule, RunPrefix(rule, fileLines, n - 1, combine, decode), fileLines[n - 1], combine, decode);
    }
  }

  /**
   * In a parsed document a key is in the dictionary exactly when an entry in
   * `lines` has it, and its value is that of the last such entry.
   */
  lemma ParsedDictIsLastEntry(rule: BlockRule, fileLines: seq<string>, combine: bool, decode: string -> string, k: string)
    ensures var doc := Parse(rule, fileLines, combine, decode);
            && (k in doc.dict <==> exists i :: HasKeyAt(doc.lines, i, k))
            && (k in doc.dict ==>
                  exists i :: HasKeyAt(doc.lines, i, k) && doc.lines[i].value == doc.dict[k]
                    && forall j :: i < j < |doc.lines| ==> !HasKeyAt(doc.lines, j, k))
  {
    RunKeepsDict(rule, fileLines, |fileLines|, combine, decode);
    EntryMapLastEntry(Parse(rule, fileLines, combine, decode).lines, k);
  }

  // ----- Combining comments -----

  predicate NoAdjacentComments(lines: seq<Line>) {
    forall i :: 0 < i < |lines| ==> !(lines[i - 1].Comment? && lines[i].Comment?)
  }

  lemma WithCommentKeepsApart(lines: seq<Line>, comment: string)
    requires NoAdjacentComments(lines)
    ensures NoAdjacentComments(WithComment(lines, comment, true))
  {
    var r := WithComment(lines, comment, true);
    var n := |lines|;
    if n > 0 && lines[n - 1].Comment? {
      forall i | 0 < i < |r| ensures !(r[i - 1].Comment? && r[i].Comment?) {
        assert r[i - 1] == lines[i - 1];
        if i < n - 1 {
          assert r[i] == lines[i];
        }
      }
    } else {
      forall i | 0 < i < |r| ensures !(r[i - 1].Comment? && r[i].Comment?) {
        if i < n {
          assert r[i - 1] == lines[i - 1] && r[i] == lines[i];
        }
      }
    }
  }

  lemma StepKeepsApart(rule: BlockRule, st: ParseState, raw: string, decode: string -> string)
    requires NoAdjacentComments(st.lines)
    ensures NoAdjacentComments(Step(rule, st, raw, true, decode).lines)
  {
    var line := StripChar(raw, '\n');
    WithCommentKeepsApart(st.lines, line);
    WithCommentKeepsApart(st.lines, EmptyLine);
    WithCommentKeepsApart(st.lines, st.pending + line);
    match MatchKeyValue(line)
    case Some(kv) =>
      var r := st.lines + [Entry(kv.key, decode(kv.value))];
      forall i | 0 < i < |r| ensures !(r[i - 1].Comment? && r[i].Comment?) {
        if i < |st.lines| {
          assert r[i - 1] == st.lines[i - 1] && r[i] == st.lines[i];
        }
      }
    case None =>
  }

  lemma {:induction false} RunKeepsApart(rule: BlockRule, fileLines: seq<string>, n: nat, decode: string -> string)
    requires n <= |fileLines|
    ensures NoAdjacentComments(RunPrefix(rule, fileLines, n, true, decode).lines)
  {
    if n > 0 {
      RunKeepsApart(rule, fileLines, n - 1, decode);
      StepKeepsApart(rule, RunPrefix(rule, fileLines, n - 1, true, decode), fileLines[n - 1], decode);
    }
  }

  /**
   * With comment combining on, no two neighbouring elements of `lines` are
   * both comments; blank-line markers are comments and are combined too.
   */
  lemma CombinedCommentsAreApart(rule: BlockRule, fileLines: seq<string>, decode: string -> string)
    ensures NoAdjacentComments(Parse(rule, fileLines, true, decode).lines)
  {
    RunKeepsApart(rule, fileLines, |fileLines|, decode);
  }

  // ----- The header -----

  lemma RunKeepsHeader(rule: BlockRule, fileLines: seq<string>, n: nat, combine: bool, decode: string -> string)
    requires n < |fileLines|
    requires RunPrefix(rule, fileLines, n, combine, decode).header != ""
    ensures RunPrefix(rule, fileLines, n + 1, combine, decode).header == RunPrefix(rule, fileLines, n, combine, decode).header
  {
    RunPrefixNext(rule, fileLines, n, combine, decode);
  }

  /** Once a header is set, no later line changes it. */
  lemma {:induction false} HeaderIsKept(rule: BlockRule, fileLines: seq<string>, m: nat, n: nat, combine: bool, decode: string -> string)
    requires m <= n <= |fileLines|
    requires RunPrefix(rule, fileLines, m, combine, decode).header != ""
    ensures RunPrefix(rule, fileLines, n, combine, decode).header == RunPrefix(rule, fileLines, m, combine, decode).header
    decreases n - m
  {
    if m < n {
      RunKeepsHeader(rule, fileLines, m, combine, decode);
      HeaderIsKept(rule, fileLines, m + 1, n, combine, decode);
    }
  }

  // ----- The self-closing rule -----

  /**
   * Under the intended rule a one-line block comment is complete at once: it
   * becomes the header when there is none, or a comment otherwise, and
   * nothing stays pending.
   */
  lemma SelfClosedLineIsComplete(st: ParseState, raw: string, combine: bool, decode: string -> string)
    requires SelfClosed(Trim(StripChar(raw, '\n')))
    ensures var line := StripChar(raw, '\n');
            var r := Step(SelfClosing, st, raw, combine, decode);
            && r.pending == "" && r.dict == st.dict
            && (st.header == "" ==> r.header == line && r.lines == st.lines)
            && (st.header != "" ==> r.header == st.header && r.lines == WithComment(st.lines, line, combine))
  {
  }

  /** Both rules treat every line other than a one-line block comment alike. */
  lemma RulesAgreeElsewhere(st: ParseState, raw: string, combine: bool, decode: string -> string)
    requires !SelfClosed(Trim(StripChar(raw, '\n')))
    ensures Step(SelfClosing, st, raw, combine, decode) == Step(AsWritten, st, raw, combine, decode)
  {
  }
}
