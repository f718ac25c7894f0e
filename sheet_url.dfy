/**
 * `extract_sheet_id_from_url`: the first match of
 * `/spreadsheets/d/([a-zA-Z0-9-_]+)` in a URL, or a fixed message when there
 * is none. The character class holds letters, digits, '-' and '_'.
 */
module SheetUrl {
  import opened Wrappers
  import opened Text

  const Marker := "/spreadsheets/d/"
  const NotFound := "No Sheet ID found in URL"

  predicate IsIdChar(c: char) {
    ('a' <= c <= 'z') || ('A' <= c <= 'Z') || ('0' <= c <= '9') || c == '-' || c == '_'
  }

  predicate IsId(s: string) {
    s != [] && forall k :: 0 <= k < |s| ==> IsIdChar(s[k])
  }

  /** The pattern matches at position `p`: the marker, then at least one id character. */
  predicate HasIdAt(url: string, p: int) {
    OccursAt(url, Marker, p) && p + |Marker| < |url| && IsIdChar(url[p + |Marker|])
  }

  /** The end of the greedy run of id characters that starts at `k`. */
  function IdEnd(url: string, k: nat): (e: nat)
    requires k <= |url|
    ensures k <= e <= |url|
    ensures forall j :: k <= j < e ==> IsIdChar(url[j])
    ensures e < |url| ==> !IsIdChar(url[e])
    decreases |url| - k
  {
    if k < |url| && IsIdChar(url[k]) then IdEnd(url, k + 1) else k
  }

  /** The leftmost match position at or after `i`, as `re.search` scans. */
  function FindMatch(url: string, i: nat): (r: Option<nat>)
    ensures r.Some? ==> i <= r.value && HasIdAt(url, r.value)
    ensures r.Some? ==> forall q :: i <= q < r.value ==> !HasIdAt(url, q)
    ensures r.None? ==> forall q :: i <= q ==> !HasIdAt(url, q)
    decreases |url| - i
  {
    if i + |Marker| >= |url| then None
    else if HasIdAt(url, i) then Some(i)
    else FindMatch(url, i + 1)
  }

  function ExtractSheetId(url: string): string
  {
    match FindMatch(url, 0)
    case Some(p) => url[p + |Marker|..IdEnd(url, p + |Marker|)]
    case None => NotFound
  }

  /** The fixed message holds spaces, so it is never an id. */
  lemma NotFoundIsNotId()
    ensures !IsId(NotFound)
  {
    assert !IsIdChar(NotFound[2]);
  }

  /**
   * The id found is the whole greedy run of id characters after the leftmost
   * marker that is followed by one.
   */
  lemma ExtractSheetIdFound(url: string, p: nat)
    requires HasIdAt(url, p)
    requires forall q :: 0 <= q < p ==> !HasIdAt(url, q)
    ensures var s := p + |Marker|;
            var e := IdEnd(url, s);
            && ExtractSheetId(url) == url[s..e]
            && IsId(url[s..e])
            && (e == |url| || !IsIdChar(url[e]))
  {
    FirstMatch(url, p);
    RunIsId(url, p + |Marker|);
  }

  lemma FirstMatch(url: string, p: nat)
    requires HasIdAt(url, p)
    requires forall q :: 0 <= q < p ==> !HasIdAt(url, q)
    ensures FindMatch(url, 0) == Some(p)
  {
    var r := FindMatch(url, 0);
    assert r.None? ==> !HasIdAt(url, p);
    assert r.value > p ==> !HasIdAt(url, p);
  }

  lemma RunIsId(url: string, s: nat)
    requires s < |url| && IsIdChar(url[s])
    ensures IsId(url[s..IdEnd(url, s)])
  {
    var id := url[s..IdEnd(url, s)];
    assert id[0] == url[s];
  }

  /** Without a marker followed by an id character the fixed message comes back. */
  lemma ExtractSheetIdMissing(url: string)
    requires forall p :: !HasIdAt(url, p)
    ensures ExtractSheetId(url) == NotFound
  {
  }

  /** The result is an id exactly when the pattern matches somewhere. */
  lemma ExtractSheetIdIsId(url: string)
    ensures (exists p :: HasIdAt(url, p)) <==> IsId(ExtractSheetId(url))
  {
    NotFoundIsNotId();
    match FindMatch(url, 0)
    case Some(p) =>
      ExtractSheetIdFound(url, p);
    case None =>
  }
}
