/** The notice-number capture of the pattern
      fnDetail\(\s*['"]?(\d+)['"]?\s*\)
    searched for in an anchor's `onclick` attribute (src/main.py:86, 92-96).

    Every quantified piece of the pattern is greedy, and at each of them giving
    characters back cannot help: the character handed back is a space or a
    digit, which the next piece of the pattern cannot start with. So the match
    starting at a given position, if any, is the one found by consuming
    greedily, and `Search` returns the capture of the leftmost such position,
    as the regular-expression search does. */
module DetailPattern {
  import opened Notices
  import opened Decimal

  const Call: string := "fnDetail("

  /** `\s`, restricted to ASCII whitespace. */
  predicate IsSpace(c: char)
  {
    c == ' ' || c == '\t' || c == '\n' || c == '\r' || c == '\U{B}' || c == '\U{C}'
  }

  predicate IsQuote(c: char)
  {
    c == '\'' || c == '"'
  }

  /** The end of the longest run of spaces starting at `i`. */
  function SkipSpaces(s: string, i: nat): (j: nat)
    requires i <= |s|
    ensures i <= j <= |s|
    ensures forall k :: i <= k < j ==> IsSpace(s[k])
    ensures j == |s| || !IsSpace(s[j])
    decreases |s| - i
  {
    if i < |s| && IsSpace(s[i]) then SkipSpaces(s, i + 1) else i
  }

  /** The end of the longest run of digits starting at `i`. */
  function SkipDigits(s: string, i: nat): (j: nat)
    requires i <= |s|
    ensures i <= j <= |s|
    ensures forall k :: i <= k < j ==> IsDigit(s[k])
    ensures j == |s| || !IsDigit(s[j])
    decreases |s| - i
  {
    if i < |s| && IsDigit(s[i]) then SkipDigits(s, i + 1) else i
  }

  /** `['"]?`: one optional quote character. */
  function SkipQuote(s: string, i: nat): (j: nat)
    requires i <= |s|
    ensures j == if i < |s| && IsQuote(s[i]) then i + 1 else i
  {
    if i < |s| && IsQuote(s[i]) then i + 1 else i
  }

  /** The literal `fnDetail(` occurs at position `p`. */
  predicate CallAt(s: string, p: nat)
  {
    p + |Call| <= |s| && s[p..p + |Call|] == Call
  }

  /** The captured digits of a match of the whole pattern that starts at `p`. */
  function MatchAt(s: string, p: nat): Option<string>
    requires p <= |s|
  {
    if CallAt(s, p) then
      var a := SkipQuote(s, SkipSpaces(s, p + |Call|));
      var b := SkipDigits(s, a);
      var c := SkipSpaces(s, SkipQuote(s, b));
      if a < b && c < |s| && s[c] == ')' then Some(s[a..b]) else None
    else None
  }

  /** The capture of the leftmost match at or after `p`. */
  function SearchFrom(s: string, p: nat): Option<string>
    requires p <= |s|
    decreases |s| - p
  {
    if MatchAt(s, p).Some? then MatchAt(s, p)
    else if p == |s| then None
    else SearchFrom(s, p + 1)
  }

  /** `pattern.search(onclick)`, reduced to its group 1. */
  function Search(onclick: string): Option<string>
  {
    SearchFrom(onclick, 0)
  }

  /** The `onclick` text the board writes for notice `no`, with the
      argument quoted by `q`. */
  function DetailCall(no: string, q: char): string
  {
    Call + [q] + no + [q] + ")"
  }

  /** A capture is a non-empty string of digits. */
  lemma {:induction false} MatchAtDigits(s: string, p: nat)
    requires p <= |s| && MatchAt(s, p).Some?
    ensures MatchAt(s, p).value != [] && AllDigits(MatchAt(s, p).value)
  {
    var a := SkipQuote(s, SkipSpaces(s, p + |Call|));
    var b := SkipDigits(s, a);
    assert MatchAt(s, p).value == s[a..b];
  }

  lemma {:induction false} SearchFromDigits(s: string, p: nat)
    requires p <= |s| && SearchFrom(s, p).Some?
    ensures SearchFrom(s, p).value != [] && AllDigits(SearchFrom(s, p).value)
    decreases |s| - p
  {
    if MatchAt(s, p).Some? {
      MatchAtDigits(s, p);
    } else {
      SearchFromDigits(s, p + 1);
    }
  }

  /** Whatever the search captures is a non-empty string of ASCII digits. */
  lemma SearchDigits(onclick: string)
    requires Search(onclick).Some?
    ensures Search(onclick).value != [] && AllDigits(Search(onclick).value)
  {
    SearchFromDigits(onclick, 0);
  }

  /** An `onclick` without the text `fnDetail(` never yields a number. */
  lemma {:induction false} SearchFromNeedsCall(s: string, p: nat)
    requires p <= |s|
    requires forall q :: p <= q <= |s| ==> !CallAt(s, q)
    ensures SearchFrom(s, p) == None
    decreases |s| - p
  {
    if p < |s| {
      SearchFromNeedsCall(s, p + 1);
    }
  }

  lemma SearchNeedsCall(onclick: string)
    requires forall q :: 0 <= q <= |onclick| ==> !CallAt(onclick, q)
    ensures Search(onclick) == None
  {
    SearchFromNeedsCall(onclick, 0);
  }

  /** Searching the board's own call for a number recovers that number,
      whether the argument is single-quoted or double-quoted. */
  lemma DetailCallRoundTrip(no: string, q: char)
    requires no != [] && AllDigits(no) && IsQuote(q)
    ensures Search(DetailCall(no, q)) == Some(no)
  {
    var s := DetailCall(no, q);
    var n := |Call|;
    assert s[0..n] == Call;
    assert CallAt(s, 0);
    assert !IsSpace(s[n]);
    assert SkipSpaces(s, n) == n;
    assert SkipQuote(s, n) == n + 1;
    assert forall k :: n + 1 <= k < n + 1 + |no| ==> s[k] == no[k - n - 1];
    SkipDigitsRun(s, n + 1, n + 1 + |no|);
    assert s[n + 1 + |no|] == q;
    assert s[n + 2 + |no|] == ')';
    assert SkipSpaces(s, n + 2 + |no|) == n + 2 + |no|;
    assert s[n + 1..n + 1 + |no|] == no;
  }

  /** Over a maximal run of digits the scan stops exactly at its end. */
  lemma {:induction false} SkipDigitsRun(s: string, i: nat, j: nat)
    requires i <= j <= |s|
    requires forall k :: i <= k < j ==> IsDigit(s[k])
    requires j == |s| || !IsDigit(s[j])
    ensures SkipDigits(s, i) == j
    decreases j - i
  {
    if i < j {
      SkipDigitsRun(s, i + 1, j);
    }
  }
}
