/**
 * A hand-written matcher for the key/value line pattern
 * `"(.*?)"\s*=\s*"(.*?)";` under `re.search`: the leftmost start, then the
 * shortest key, then the shortest value. `.` matches everything except a
 * line break and `\s` is `Text.IsSpace`.
 */
module KeyValuePattern {
  import opened Wrappers
  import opened Text

  datatype KeyValue = KeyValue(key: string, value: string)

  /**
   * The pattern matches `s` with the key's quotes at `i` and `j`, the `=` at
   * `a`, the value's opening quote at `b` and the closing `";` at `e`.
   */
  ghost predicate MatchesAt(s: string, i: int, j: int, a: int, b: int, e: int) {
    && 0 <= i < j < a < b < e && e + 1 < |s|
    && s[i] == '"' && s[j] == '"' && s[a] == '=' && s[b] == '"' && s[e] == '"' && s[e + 1] == ';'
    && (forall t :: i < t < j ==> s[t] != '\n')
    && (forall t :: j < t < a ==> IsSpace(s[t]))
    && (forall t :: a < t < b ==> IsSpace(s[t]))
    && (forall t :: b < t < e ==> s[t] != '\n')
  }

  ghost predicate Matches(s: string) {
    exists i, j, a, b, e :: MatchesAt(s, i, j, a, b, e)
  }

  /** The end of the run of white space starting at `k` (`\s*` is greedy). */
  function SkipSpaces(s: string, k: nat): (r: nat)
    requires k <= |s|
    ensures k <= r <= |s|
    ensures forall t :: k <= t < r ==> IsSpace(s[t])
    ensures r < |s| ==> !IsSpace(s[r])
    decreases |s| - k
  {
    if k < |s| && IsSpace(s[k]) then SkipSpaces(s, k + 1) else k
  }

  /** The shortest value starting at `k`: the first `";` reached before any line break. */
  function ValueEnd(s: string, k: nat): (r: Option<nat>)
    requires k <= |s|
    ensures r.Some? ==> k <= r.value && r.value + 1 < |s| && s[r.value] == '"' && s[r.value + 1] == ';'
    ensures r.Some? ==> forall t :: k <= t < r.value ==> s[t] != '\n'
    ensures r.Some? ==> forall t :: k <= t < r.value ==> !(s[t] == '"' && s[t + 1] == ';')
    decreases |s| - k
  {
    if k + 1 >= |s| then None
    else if s[k] == '"' && s[k + 1] == ';' then Some(k)
    else if s[k] == '\n' then None
    else ValueEnd(s, k + 1)
  }

  /** With the key opened at `i`, tries the closing quote at `j`, `j + 1`, ... */
  function MatchFrom(s: string, i: nat, j: nat): Option<KeyValue>
    requires i < j <= |s|
    decreases |s| - j
  {
    if j >= |s| || s[j] == '\n' then None
    else if s[j] == '"' then
      var a := SkipSpaces(s, j + 1);
      if a < |s| && s[a] == '=' then
        var b := SkipSpaces(s, a + 1);
        if b < |s| && s[b] == '"' then
          match ValueEnd(s, b + 1)
          case Some(e) => Some(KeyValue(s[i + 1..j], s[b + 1..e]))
          case None => MatchFrom(s, i, j + 1)
        else MatchFrom(s, i, j + 1)
      else MatchFrom(s, i, j + 1)
    else MatchFrom(s, i, j + 1)
  }

  /** Tries each start position from `i` on, as `re.search` does. */
  function SearchFrom(s: string, i: nat): Option<KeyValue>
    requires i <= |s|
    decreases |s| - i
  {
    if i >= |s| then None
    else if s[i] == '"' then
      match MatchFrom(s, i, i + 1)
      case Some(kv) => Some(kv)
      case None => SearchFrom(s, i + 1)
    else SearchFrom(s, i + 1)
  }

  /** `re.search(r'"(.*?)"\s*=\s*"(.*?)";', line)` and its two groups. */
  function MatchKeyValue(line: string): Option<KeyValue>
  {
    SearchFrom(line, 0)
  }

  lemma {:induction false} MatchFromSound(s: string, i: nat, j: nat)
    requires i < j <= |s| && s[i] == '"'
    requires forall t :: i < t < j ==> s[t] != '\n'
    ensures MatchFrom(s, i, j).Some? ==>
              exists j', a, b, e :: MatchesAt(s, i, j', a, b, e)
                && MatchFrom(s, i, j).value == KeyValue(s[i + 1..j'], s[b + 1..e])
    decreases |s| - j
  {
    if j < |s| && s[j] != '\n' {
      MatchFromStep(s, i, j);
      if MatchFrom(s, i, j) == MatchFrom(s, i, j + 1) {
        MatchFromSound(s, i, j + 1);
      } else {
        MatchFromFound(s, i, j);
      }
    }
  }

  /** A key position that does not pass on to the next one is where the match is made. */
  lemma MatchFromFound(s: string, i: nat, j: nat)
    requires i < j < |s| && s[i] == '"' && s[j] != '\n'
    requires forall t :: i < t < j ==> s[t] != '\n'
    requires MatchFrom(s, i, j) != MatchFrom(s, i, j + 1)
    ensures exists a, b, e :: MatchesAt(s, i, j, a, b, e)
              && MatchFrom(s, i, j).value == KeyValue(s[i + 1..j], s[b + 1..e])
  {
    var a := SkipSpaces(s, j + 1);
    var b := SkipSpaces(s, a + 1);
    var e := ValueEnd(s, b + 1).value;
    assert MatchesAt(s, i, j, a, b, e);
  }

  lemma {:induction false} SearchFromSound(s: string, i: nat)
    requires i <= |s|
    ensures SearchFrom(s, i).Some? ==>
              exists i', j, a, b, e :: MatchesAt(s, i', j, a, b, e)
                && SearchFrom(s, i).value == KeyValue(s[i' + 1..j], s[b + 1..e])
    decreases |s| - i
  {
    if i < |s| {
      if s[i] == '"' {
        MatchFromSound(s, i, i + 1);
        if MatchFrom(s, i, i + 1).Some? {
          return;
        }
      }
      SearchFromSound(s, i + 1);
    }
  }

  /** Every match reported is a genuine decomposition of the line. */
  lemma MatchKeyValueSound(line: string)
    ensures MatchKeyValue(line).Some? ==>
              exists i, j, a, b, e :: MatchesAt(line, i, j, a, b, e)
                && MatchKeyValue(line).value == KeyValue(line[i + 1..j], line[b + 1..e])
  {
    SearchFromSound(line, 0);
  }

  lemma {:induction false} ValueEndComplete(s: string, k: nat, e: nat)
    requires k <= e && e + 1 < |s| && s[e] == '"' && s[e + 1] == ';'
    requires forall t :: k <= t < e ==> s[t] != '\n'
    ensures ValueEnd(s, k).Some?
    decreases e - k
  {
    if k < e && !(s[k] == '"' && s[k + 1] == ';') {
      ValueEndComplete(s, k + 1, e);
    }
  }

  lemma SkipSpacesTo(s: string, k: nat, a: nat)
    requires k <= a < |s| && !IsSpace(s[a])
    requires forall t :: k <= t < a ==> IsSpace(s[t])
    ensures SkipSpaces(s, k) == a
  {
  }

  lemma {:induction false} MatchFromComplete(s: string, i: nat, j0: nat, j: nat, a: nat, b: nat, e: nat)
    requires MatchesAt(s, i, j, a, b, e)
    requires i < j0 <= j
    ensures MatchFrom(s, i, j0).Some?
    decreases j - j0
  {
    if j0 == j {
      SkipSpacesTo(s, j + 1, a);
      SkipSpacesTo(s, a + 1, b);
      ValueEndComplete(s, b + 1, e);
      MatchFromAtKeyEnd(s, i, j, a, b);
    } else {
      assert s[j0] != '\n';
      MatchFromStep(s, i, j0);
      MatchFromComplete(s, i, j0 + 1, j, a, b, e);
    }
  }

  /** A closing quote followed by a well-placed `=` and value makes the match. */
  lemma MatchFromAtKeyEnd(s: string, i: nat, j: nat, a: nat, b: nat)
    requires i < j < a < b < |s| && s[j] == '"' && s[a] == '=' && s[b] == '"'
    requires SkipSpaces(s, j + 1) == a && SkipSpaces(s, a + 1) == b && ValueEnd(s, b + 1).Some?
    ensures MatchFrom(s, i, j).Some?
  {
  }

  /** A key position that fails passes on to the next one. */
  lemma MatchFromStep(s: string, i: nat, j: nat)
    requires i < j < |s| && s[j] != '\n'
    ensures MatchFrom(s, i, j).Some? || MatchFrom(s, i, j) == MatchFrom(s, i, j + 1)
  {
  }

  lemma {:induction false} SearchFromComplete(s: string, i0: nat, i: nat, j: nat, a: nat, b: nat, e: nat)
    requires MatchesAt(s, i, j, a, b, e)
    requires i0 <= i
    ensures SearchFrom(s, i0).Some?
    decreases i - i0
  {
    if i0 == i {
      MatchFromComplete(s, i, i + 1, j, a, b, e);
    } else if !(s[i0] == '"' && MatchFrom(s, i0, i0 + 1).Some?) {
      SearchFromComplete(s, i0 + 1, i, j, a, b, e);
    }
  }

  /** Every line the pattern matches somewhere yields a key and a value. */
  lemma MatchKeyValueComplete(line: string)
    ensures Matches(line) ==> MatchKeyValue(line).Some?
  {
    if Matches(line) {
      var i, j, a, b, e :| MatchesAt(line, i, j, a, b, e);
      SearchFromComplete(line, 0, i, j, a, b, e);
    }
  }

  /**
   * A matching line holds a quote and a semicolon, so the parser's
   * `'"' in line` test never hides a match.
   */
  lemma MatchNeedsQuote(line: string)
    ensures MatchKeyValue(line).Some? ==> '"' in line && ';' in line
  {
    MatchKeyValueSound(line);
    if MatchKeyValue(line).Some? {
      var i, j, a, b, e :| MatchesAt(line, i, j, a, b, e);
      assert line[i] in line && line[e + 1] in line;
    }
  }

  lemma {:induction false} MatchFromSkipsKey(s: string, i: nat, j0: nat, j: nat)
    requires i < j0 <= j <= |s|
    requires forall t :: j0 <= t < j ==> s[t] != '"' && s[t] != '\n'
    ensures MatchFrom(s, i, j0) == MatchFrom(s, i, j)
    decreases j - j0
  {
    if j0 < j {
      MatchFromSkipsKey(s, i, j0 + 1, j);
    }
  }

  lemma {:induction false} ValueEndAt(s: string, k: nat, e: nat)
    requires k <= e && e + 1 < |s| && s[e] == '"' && s[e + 1] == ';'
    requires forall t :: k <= t < e ==> s[t] != '"' && s[t] != '\n'
    ensures ValueEnd(s, k) == Some(e)
    decreases e - k
  {
    if k < e {
      ValueEndAt(s, k + 1, e);
    }
  }

  /** The line `"k" = "v";` as the strings file writes it. */
  function EntryLine(k: string, v: string): string
  {
    "\"" + k + "\" = \"" + v + "\";"
  }

  /**
   * A line written as `"k" = "v";` is matched with exactly that key and value
   * when neither holds a quote or a line break.
   */
  lemma EntryLineMatches(k: string, v: string)
    requires '"' !in k && '\n' !in k && '"' !in v && '\n' !in v
    ensures MatchKeyValue(EntryLine(k, v)) == Some(KeyValue(k, v))
  {
    var s := EntryLine(k, v);
    var j := |k| + 1;
    var b := j + 4;
    var e := b + 1 + |v|;
    EntryLineShape(k, v);
    MatchFromSkipsKey(s, 0, 1, j);
    ValueEndAt(s, b + 1, e);
    ClosingQuoteMatches(s, j, e);
  }

  /** Where the quotes, the `=` and the two groups of `EntryLine(k, v)` sit. */
  lemma EntryLineShape(k: string, v: string)
    requires '"' !in k && '\n' !in k && '"' !in v && '\n' !in v
    ensures var s := EntryLine(k, v); var j := |k| + 1; var b := j + 4; var e := b + 1 + |v|;
            && |s| == e + 2 && s[0] == '"' && s[j] == '"' && s[j + 1] == ' ' && s[j + 2] == '='
            && s[j + 3] == ' ' && s[b] == '"' && s[e] == '"' && s[e + 1] == ';'
            && (forall t :: 1 <= t < j ==> s[t] != '"' && s[t] != '\n')
            && (forall t :: b + 1 <= t < e ==> s[t] != '"' && s[t] != '\n')
            && s[1..j] == k && s[b + 1..e] == v
  {
    var s := EntryLine(k, v);
    var j := |k| + 1;
    var b := j + 4;
    var e := b + 1 + |v|;
    assert |s| == e + 2;
    forall t | 1 <= t < j ensures s[t] != '"' && s[t] != '\n' {
      assert s[t] == k[t - 1];
    }
    forall t | b + 1 <= t < e ensures s[t] != '"' && s[t] != '\n' {
      assert s[t] == v[t - b - 1];
    }
    assert s[1..j] == k && s[b + 1..e] == v;
  }

  /** A closing quote followed by ` = "` and a value ending at `e` completes the match. */
  lemma ClosingQuoteMatches(s: string, j: nat, e: nat)
    requires 0 < j && j + 5 <= e && e + 1 < |s|
    requires s[j] == '"' && s[j + 1] == ' ' && s[j + 2] == '=' && s[j + 3] == ' ' && s[j + 4] == '"'
    requires ValueEnd(s, j + 5) == Some(e)
    ensures MatchFrom(s, 0, j) == Some(KeyValue(s[1..j], s[j + 5..e]))
  {
    assert SkipSpaces(s, j + 2) == j + 2;
    assert SkipSpaces(s, j + 1) == j + 2;
    assert SkipSpaces(s, j + 4) == j + 4;
    assert SkipSpaces(s, j + 3) == j + 4;
  }

  lemma ExampleSimple()
    ensures MatchKeyValue("\"k\" = \"v\";") == Some(KeyValue("k", "v"))
  {
    var s := "\"k\" = \"v\";";
    assert SkipSpaces(s, 3) == 4;
    assert SkipSpaces(s, 5) == 6;
    assert ValueEnd(s, 7) == Some(8);
    assert s[1..2] == "k" && s[7..8] == "v";
    assert MatchFrom(s, 0, 2) == Some(KeyValue("k", "v"));
    assert MatchFrom(s, 0, 1) == MatchFrom(s, 0, 2);
  }

  /** The shortest key may run over a quote that is not followed by `=`. */
  lemma ExampleQuoteInKey(t: string)
    requires t == "\"a\"b\" = \"c\";"
    ensures MatchKeyValue(t) == Some(KeyValue("a\"b", "c"))
  {
    MatchFromSkipsKey(t, 0, 1, 2);
    assert SkipSpaces(t, 3) == 3;
    assert MatchFrom(t, 0, 2) == MatchFrom(t, 0, 3);
    MatchFromSkipsKey(t, 0, 3, 4);
    ValueEndAt(t, 9, 10);
    ClosingQuoteMatches(t, 4, 10);
    assert t[1..4] == "a\"b" && t[9..10] == "c";
  }

  /** Without the closing `;` the line does not match. */
  lemma ExampleNoSemicolon(u: string)
    requires u == "\"k\" = \"v\""
    ensures MatchKeyValue(u) == None
  {
    MatchNeedsQuote(u);
    assert ';' !in u;
  }
}
