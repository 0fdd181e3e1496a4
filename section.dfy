/** The inflation merger's section search:
    `re.search(HICP_HEADER + '.*?(?=CORE INFLATION EXPECTATIONS|GROWTH EXPECTATIONS|EXPECTED UNEMPLOYMENT RATE|$)', content, re.DOTALL)`.
    The search finds the first occurrence of the header; the lazy `.*?` then
    stops at the first position after the header where one of the three
    following section headers begins or where `$` holds. */
module SectionExtractor {
  import opened Wrappers

  const HICP_HEADER: string := "INFLATION EXPECTATIONS; YEAR-ON-YEAR CHANGE IN HICP"
  const CORE_HEADER: string := "CORE INFLATION EXPECTATIONS"
  const GROWTH_HEADER: string := "GROWTH EXPECTATIONS"
  const UNEMPLOYMENT_HEADER: string := "EXPECTED UNEMPLOYMENT RATE"

  /** `pat` occurs in `text` starting at index `i`. */
  predicate OccursAt(text: string, pat: string, i: nat) {
    i + |pat| <= |text| && forall k :: 0 <= k < |pat| ==> text[i + k] == pat[k]
  }

  /** Python's `$` without MULTILINE: at the end of the text, or just before a
      newline that ends the text. */
  predicate EndAnchor(text: string, p: nat) {
    p == |text| || (p + 1 == |text| && text[p] == '\n')
  }

  /** The lookahead succeeds at `p`. */
  predicate StopsAt(text: string, p: nat) {
    OccursAt(text, CORE_HEADER, p) || OccursAt(text, GROWTH_HEADER, p)
    || OccursAt(text, UNEMPLOYMENT_HEADER, p) || EndAnchor(text, p)
  }

  /** The first index at or after `from` where `pat` occurs. */
  function Find(text: string, pat: string, from: nat): (r: Option<nat>)
    ensures r.Some? ==> from <= r.value && OccursAt(text, pat, r.value)
    ensures r.Some? ==> forall i :: from <= i < r.value ==> !OccursAt(text, pat, i)
    ensures r.None? ==> forall i: nat :: from <= i ==> !OccursAt(text, pat, i)
    decreases |text| - from
  {
    if from + |pat| > |text| then None
    else if OccursAt(text, pat, from) then Some(from)
    else Find(text, pat, from + 1)
  }

  /** Where the lazy `.*?` stops: the first index at or after `from` where the
      lookahead succeeds. */
  function StopFrom(text: string, from: nat): (p: nat)
    requires from <= |text|
    ensures from <= p <= |text| && StopsAt(text, p)
    ensures forall q :: from <= q < p ==> !StopsAt(text, q)
    decreases |text| - from
  {
    if StopsAt(text, from) then from else StopFrom(text, from + 1)
  }

  /** The bounds of `match.group(0)` in the text. */
  datatype Span = Span(start: nat, end: nat)

  /** `re.search`: None when the header never occurs; otherwise the header's
      first occurrence and the first stop after it. */
  function SearchSection(text: string): (r: Option<Span>)
    ensures r.None? <==> forall i :: !OccursAt(text, HICP_HEADER, i)
    ensures r.Some? ==> r.value.start + |HICP_HEADER| <= r.value.end <= |text|
    ensures r.Some? ==> OccursAt(text, HICP_HEADER, r.value.start)
    ensures r.Some? ==> forall i: nat :: i < r.value.start ==> !OccursAt(text, HICP_HEADER, i)
    ensures r.Some? ==> StopsAt(text, r.value.end)
    ensures r.Some? ==> forall q :: r.value.start + |HICP_HEADER| <= q < r.value.end ==> !StopsAt(text, q)
  {
    match Find(text, HICP_HEADER, 0)
    case None => None
    case Some(start) => Some(Span(start, StopFrom(text, start + |HICP_HEADER|)))
  }

  /** `match.group(0)`, or None for `if not match`. */
  function ExtractSection(text: string): (r: Option<string>)
    ensures r.Some? <==> SearchSection(text).Some?
    ensures r.Some? ==> |r.value| >= |HICP_HEADER|
  {
    match SearchSection(text)
    case None => None
    case Some(span) => Some(text[span.start..span.end])
  }

  /** The section starts with the header. */
  lemma SectionStartsWithHeader(text: string)
    requires ExtractSection(text).Some?
    ensures OccursAt(ExtractSection(text).value, HICP_HEADER, 0)
  {
    var span := SearchSection(text).value;
    var sec := ExtractSection(text).value;
    forall k | 0 <= k < |HICP_HEADER| ensures sec[k] == HICP_HEADER[k] {
      assert sec[k] == text[span.start + k];
    }
  }

  /** An occurrence inside a slice is an occurrence in the whole text. */
  lemma OccursInSlice(text: string, a: nat, b: nat, pat: string, q: nat)
    requires a <= b <= |text| && !OccursAt(text, pat, a + q)
    ensures !OccursAt(text[a..b], pat, q)
  {
    var sec := text[a..b];
    if q + |pat| <= |sec| {
      var k :| 0 <= k < |pat| && text[a + q + k] != pat[k];
      assert sec[q + k] == text[a + q + k];
    }
  }

  /** Where the lookahead fails, no following header begins in a slice. */
  lemma NoStopInSlice(text: string, a: nat, b: nat, q: nat)
    requires a <= b <= |text| && !StopsAt(text, a + q)
    ensures !OccursAt(text[a..b], CORE_HEADER, q)
    ensures !OccursAt(text[a..b], GROWTH_HEADER, q)
    ensures !OccursAt(text[a..b], UNEMPLOYMENT_HEADER, q)
  {
    OccursInSlice(text, a, b, CORE_HEADER, q);
    OccursInSlice(text, a, b, GROWTH_HEADER, q);
    OccursInSlice(text, a, b, UNEMPLOYMENT_HEADER, q);
  }

  /** No following section header begins inside the section after its own
      header: the section holds the inflation block only. */
  lemma NoFollowingHeaderInside(text: string, q: nat)
    requires ExtractSection(text).Some? && |HICP_HEADER| <= q
    ensures !OccursAt(ExtractSection(text).value, CORE_HEADER, q)
    ensures !OccursAt(ExtractSection(text).value, GROWTH_HEADER, q)
    ensures !OccursAt(ExtractSection(text).value, UNEMPLOYMENT_HEADER, q)
  {
    var span := SearchSection(text).value;
    var sec := text[span.start..span.end];
    assert ExtractSection(text).value == sec;
    var p := span.start + q;
    if p < span.end {
      assert !StopsAt(text, p);
      NoStopInSlice(text, span.start, span.end, q);
    } else {
      assert |sec| <= q;
    }
  }

  /** When no following section header appears after the inflation header, the
      section runs to the end of the text, leaving out a final newline only. */
  lemma SectionRunsToEnd(text: string)
    requires ExtractSection(text).Some?
    requires forall p :: !OccursAt(text, CORE_HEADER, p)
    requires forall p :: !OccursAt(text, GROWTH_HEADER, p)
    requires forall p :: !OccursAt(text, UNEMPLOYMENT_HEADER, p)
    ensures SearchSection(text).value.end == |text|
            || (SearchSection(text).value.end + 1 == |text| && text[|text| - 1] == '\n')
  {
  }
}
