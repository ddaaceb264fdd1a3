/** The notice extractor `parse_top_notices` (src/main.py:84-123), after the
    page has been turned into a tree: the abstract input is the page's
    `a[onclick]` anchors in document order. */
module Extractor {
  import opened Notices
  import opened DetailPattern
  import opened DateShape
  import opened Decimal

  const DetailBase: string := "https://www.nl.go.kr/kolisnet/notice/noticeDetail.do"

  /** The number of notices `main` asks for, and the default of `limit`. */
  const DefaultLimit: int := 5

  /** An anchor carrying an `onclick` attribute: the attribute's text, the
      anchor's stripped visible text, and the stripped texts of the `td`
      cells of its enclosing `tr`, or `None` when it has no such row. */
  datatype Anchor = Anchor(onclick: string, title: string, row: Option<seq<string>>)

  /** `DETAIL_BASE + "?" + urlencode({"no": no})`. The number is all digits,
      which URL encoding leaves untouched. */
  function DetailLink(no: string): string
  {
    DetailBase + "?no=" + no
  }

  /** The notice number a detail link points at, if it is a detail link. */
  function LinkNumber(link: string): Option<string>
  {
    var prefix := DetailBase + "?no=";
    if |prefix| <= |link| && link[..|prefix|] == prefix then Some(link[|prefix|..]) else None
  }

  /** Links and notice numbers determine each other. */
  lemma LinkRoundTrip(no: string)
    ensures LinkNumber(DetailLink(no)) == Some(no)
  {
    var prefix := DetailBase + "?no=";
    assert DetailLink(no) == prefix + no;
    assert DetailLink(no)[..|prefix|] == prefix;
    assert DetailLink(no)[|prefix|..] == no;
  }

  /** The first cell, in row order, that has the date shape; `""` if none does. */
  function FirstDate(cells: seq<string>): string
  {
    if cells == [] then ""
    else if DateShaped(cells[0]) then cells[0]
    else FirstDate(cells[1..])
  }

  /** Cells before the first date-shaped one can be dropped. */
  lemma {:induction false} FirstDateSkip(cells: seq<string>, j: nat)
    requires j <= |cells|
    requires forall i :: 0 <= i < j ==> !DateShaped(cells[i])
    ensures FirstDate(cells) == FirstDate(cells[j..])
  {
    if j > 0 {
      assert cells[1..][j - 1..] == cells[j..];
      FirstDateSkip(cells[1..], j - 1);
    }
  }

  /** `FirstDate` is empty exactly when no cell has the date shape, and
      otherwise it is the earliest cell that does. */
  lemma {:induction false} FirstDateIsFirstMatch(cells: seq<string>)
    ensures FirstDate(cells) == "" <==> forall i :: 0 <= i < |cells| ==> !DateShaped(cells[i])
    ensures FirstDate(cells) != "" ==>
      exists k :: 0 <= k < |cells| && FirstDate(cells) == cells[k] && DateShaped(cells[k])
        && forall i :: 0 <= i < k ==> !DateShaped(cells[i])
  {
    if cells != [] {
      FirstDateIsFirstMatch(cells[1..]);
      if !DateShaped(cells[0]) {
        forall i | 0 <= i < |cells[1..]| ensures cells[1..][i] == cells[i + 1] { }
        if FirstDate(cells[1..]) != "" {
          var k :| 0 <= k < |cells[1..]| && FirstDate(cells[1..]) == cells[1..][k] && DateShaped(cells[1..][k])
            && forall i :: 0 <= i < k ==> !DateShaped(cells[1..][i]);
          assert FirstDate(cells) == cells[k + 1];
          assert forall i :: 0 <= i < k + 1 ==> !DateShaped(cells[i]) by {
            forall i | 0 < i < k + 1 ensures !DateShaped(cells[i]) {
              assert cells[i] == cells[1..][i - 1];
            }
          }
        }
      } else {
        assert |cells[0]| == 10;
      }
    }
  }

  /** The date loop over the enclosing row's cells (src/main.py:107-110). */
  method FindDate(cells: seq<string>) returns (date: string)
    ensures date == FirstDate(cells)
  {
    date := "";
    var j := 0;
    while j < |cells|
      invariant 0 <= j <= |cells|
      invariant forall i :: 0 <= i < j ==> !DateShaped(cells[i])
    {
      if DateShaped(cells[j]) {
        date := cells[j];
        FirstDateSkip(cells, j);
        return;
      }
      j := j + 1;
    }
    FirstDateSkip(cells, j);
  }

  /** The date of an anchor: `""` without an enclosing row. */
  function RowDate(row: Option<seq<string>>): string
  {
    match row
    case None => ""
    case Some(cells) => FirstDate(cells)
  }

  /** The record an anchor contributes, if any: none without a `fnDetail`
      number or with an empty title. */
  function Candidate(a: Anchor): Option<Notice>
  {
    match Search(a.onclick)
    case None => None
    case Some(no) =>
      if a.title == "" then None
      else Some(Notice(no, a.title, RowDate(a.row), DetailLink(no)))
  }

  /** The records of all anchors, in anchor order. */
  function Candidates(anchors: seq<Anchor>): seq<Notice>
  {
    if anchors == [] then []
    else
      var rest := Candidates(anchors[..|anchors| - 1]);
      match Candidate(anchors[|anchors| - 1])
      case None => rest
      case Some(n) => rest + [n]
  }

  /** The first loop of `parse_top_notices` (src/main.py:88-112). */
  method CollectItems(anchors: seq<Anchor>) returns (items: seq<Notice>)
    ensures items == Candidates(anchors)
  {
    items := [];
    var i := 0;
    while i < |anchors|
      invariant 0 <= i <= |anchors|
      invariant items == Candidates(anchors[..i])
    {
      var a := anchors[i];
      assert anchors[..i + 1][..i] == anchors[..i];
      var m := Search(a.onclick);
      if m.Some? && a.title != "" {
        var no := m.value;
        var link := DetailLink(no);
        var date := "";
        if a.row.Some? {
          date := FindDate(a.row.value);
        }
        items := items + [Notice(no, a.title, date, link)];
      }
      i := i + 1;
    }
    assert anchors[..i] == anchors;
  }

  /** Which anchors contribute is decided anchor by anchor, in order. */
  lemma {:induction false} CandidatesAppend(xs: seq<Anchor>, ys: seq<Anchor>)
    ensures Candidates(xs + ys) == Candidates(xs) + Candidates(ys)
    decreases |ys|
  {
    if ys == [] {
      assert xs + ys == xs;
    } else {
      var ys' := ys[..|ys| - 1];
      assert (xs + ys)[..|xs + ys| - 1] == xs + ys';
      assert (xs + ys)[|xs + ys| - 1] == ys[|ys| - 1];
      CandidatesAppend(xs, ys');
    }
  }

  /** A record that has everything the extractor guarantees: a digit-string
      number, a non-empty title, the detail link of its number, and a date
      that is empty or date-shaped. */
  predicate WellFormed(n: Notice)
  {
    && n.no != [] && AllDigits(n.no)
    && n.title != ""
    && n.link == DetailLink(n.no)
    && (n.date == "" || DateShaped(n.date))
  }

  lemma CandidateWellFormed(a: Anchor)
    requires Candidate(a).Some?
    ensures WellFormed(Candidate(a).value)
    ensures Candidate(a).value.date == RowDate(a.row)
  {
    SearchDigits(a.onclick);
    if a.row.Some? {
      FirstDateIsFirstMatch(a.row.value);
      if FirstDate(a.row.value) != "" {
        var k :| 0 <= k < |a.row.value| && FirstDate(a.row.value) == a.row.value[k] && DateShaped(a.row.value[k]);
      }
    }
  }

  lemma {:induction false} CandidatesWellFormed(anchors: seq<Anchor>)
    ensures forall k :: 0 <= k < |Candidates(anchors)| ==> WellFormed(Candidates(anchors)[k])
  {
    if anchors != [] {
      CandidatesWellFormed(anchors[..|anchors| - 1]);
      var a := anchors[|anchors| - 1];
      if Candidate(a).Some? {
        CandidateWellFormed(a);
      }
    }
  }

  /** An anchor calling `fnDetail('123')`, titled and in a row whose third
      cell is `2024/05/10`, yields notice 123 dated `2024/05/10`; the same
      anchor outside any row yields it undated. */
  lemma DateCellExample()
    ensures Candidate(Anchor(DetailCall("123", '\''), "Notice", Some(["123", "Notice", "2024/05/10"])))
      == Some(Notice("123", "Notice", "2024/05/10", DetailLink("123")))
    ensures Candidate(Anchor(DetailCall("123", '\''), "Notice", None))
      == Some(Notice("123", "Notice", "", DetailLink("123")))
    ensures Candidate(Anchor(DetailCall("123", '\''), "", None)) == None
  {
    DetailCallRoundTrip("123", '\'');
    assert !DateShaped("123") && !DateShaped("Notice") && DateShaped("2024/05/10");
    assert ["123", "Notice", "2024/05/10"][1..] == ["Notice", "2024/05/10"];
    assert ["Notice", "2024/05/10"][1..] == ["2024/05/10"];
  }

  /** `unique`: the records with the numbers seen for the first time, in order. */
  function Dedup(items: seq<Notice>): seq<Notice>
  {
    if items == [] then []
    else
      var d := Dedup(items[..|items| - 1]);
      var x := items[|items| - 1];
      if x.no in Ids(d) then d else d + [x]
  }

  /** The de-duplication loop (src/main.py:115-121). */
  method DedupByNumber(items: seq<Notice>) returns (unique: seq<Notice>)
    ensures unique == Dedup(items)
  {
    unique := [];
    var seen: set<string> := {};
    var i := 0;
    while i < |items|
      invariant 0 <= i <= |items|
      invariant unique == Dedup(items[..i])
      invariant seen == Ids(unique)
    {
      var x := items[i];
      assert items[..i + 1][..i] == items[..i];
      if x.no !in seen {
        IdsSnoc(unique, x);
        seen := seen + {x.no};
        unique := unique + [x];
      }
      i := i + 1;
    }
    assert items[..i] == items;
  }

  /** De-duplication keeps exactly the first record of each number: the
      output numbers are pairwise distinct, no number is lost, every output
      record is the input's first record with its number, and the output
      follows input order. */
  lemma {:induction false} DedupFirstOccurrences(items: seq<Notice>)
    ensures DistinctIds(Dedup(items))
    ensures Ids(Dedup(items)) == Ids(items)
    ensures |Dedup(items)| <= |items|
    ensures forall k :: 0 <= k < |Dedup(items)| ==>
      Dedup(items)[k].no in Ids(items) && Dedup(items)[k] == items[FirstIndex(items, Dedup(items)[k].no)]
    ensures forall k1, k2 :: 0 <= k1 < k2 < |Dedup(items)| ==>
      Dedup(items)[k1].no in Ids(items) && Dedup(items)[k2].no in Ids(items) &&
      FirstIndex(items, Dedup(items)[k1].no) < FirstIndex(items, Dedup(items)[k2].no)
  {
    if items != [] {
      var p := items[..|items| - 1];
      var x := items[|items| - 1];
      assert items == p + [x];
      DedupFirstOccurrences(p);
      var d := Dedup(p);
      IdsSnoc(p, x);
      forall id | id in Ids(p) ensures id in Ids(items) && FirstIndex(items, id) == FirstIndex(p, id) {
        FirstIndexSnoc(p, x, id);
      }
      if x.no !in Ids(d) {
        IdsSnoc(d, x);
        FirstIndexLast(p, x);
        assert Dedup(items) == d + [x];
      }
    }
  }

  /** Input whose numbers are already distinct passes through unchanged. */
  lemma {:induction false} DedupDistinct(items: seq<Notice>)
    requires DistinctIds(items)
    ensures Dedup(items) == items
  {
    if items != [] {
      var p := items[..|items| - 1];
      var x := items[|items| - 1];
      assert DistinctIds(p) by {
        forall i, j | 0 <= i < j < |p| ensures p[i].no != p[j].no {
          assert p[i] == items[i] && p[j] == items[j];
        }
      }
      DedupDistinct(p);
      assert x.no !in Ids(p) by {
        forall i | 0 <= i < |p| ensures p[i].no != x.no {
          assert p[i] == items[i];
        }
      }
      assert items == p + [x];
    }
  }

  /** Python's `s[:limit]`: a negative limit counts from the end. */
  function Take(s: seq<Notice>, limit: int): seq<Notice>
  {
    if limit >= 0 then s[..if limit < |s| then limit else |s|]
    else s[..if |s| + limit > 0 then |s| + limit else 0]
  }

  /** The slice is a prefix, of at most `limit` records when `limit` is not
      negative, and all of `s` when `s` is no longer than `limit`. */
  lemma TakePrefix(s: seq<Notice>, limit: int)
    ensures |Take(s, limit)| <= |s| && Take(s, limit) == s[..|Take(s, limit)|]
    ensures limit >= 0 ==> |Take(s, limit)| == if limit < |s| then limit else |s|
    ensures limit < 0 ==> |Take(s, limit)| == if |s| + limit > 0 then |s| + limit else 0
  {
  }

  /** What `parse_top_notices(html, limit)` returns for the page's anchors. */
  function TopNotices(anchors: seq<Anchor>, limit: int): seq<Notice>
  {
    Take(Dedup(Candidates(anchors)), limit)
  }

  /** `parse_top_notices` after the tree is built (src/main.py:84-123). */
  method ParseTopNotices(anchors: seq<Anchor>, limit: int) returns (notices: seq<Notice>)
    ensures notices == TopNotices(anchors, limit)
  {
    var items := CollectItems(anchors);
    var unique := DedupByNumber(items);
    notices := Take(unique, limit);
  }

  /** The extractor's promises: at most `limit` records; distinct numbers;
      every record well formed; every record the first one its number has
      among the anchors' records, in anchor order. */
  lemma TopNoticesProperties(anchors: seq<Anchor>, limit: int)
    ensures limit >= 0 ==> |TopNotices(anchors, limit)| <= limit
    ensures DistinctIds(TopNotices(anchors, limit))
    ensures forall k :: 0 <= k < |TopNotices(anchors, limit)| ==> WellFormed(TopNotices(anchors, limit)[k])
    ensures forall k :: 0 <= k < |TopNotices(anchors, limit)| ==>
      var c := Candidates(anchors);
      TopNotices(anchors, limit)[k].no in Ids(c) &&
      TopNotices(anchors, limit)[k] == c[FirstIndex(c, TopNotices(anchors, limit)[k].no)]
    ensures forall k1, k2 :: 0 <= k1 < k2 < |TopNotices(anchors, limit)| ==>
      var c := Candidates(anchors);
      TopNotices(anchors, limit)[k1].no in Ids(c) && TopNotices(anchors, limit)[k2].no in Ids(c) &&
      FirstIndex(c, TopNotices(anchors, limit)[k1].no) < FirstIndex(c, TopNotices(anchors, limit)[k2].no)
  {
    var c := Candidates(anchors);
    var u := Dedup(c);
    DedupFirstOccurrences(c);
    CandidatesWellFormed(anchors);
    TakePrefix(u, limit);
    var r := TopNotices(anchors, limit);
    forall k | 0 <= k < |r| ensures r[k] == u[k] && WellFormed(r[k]) {
      assert r[k] == u[k];
      var j := FirstIndex(c, u[k].no);
      assert u[k] == c[j];
    }
  }

  /** When more distinct numbers match than `limit` allows, exactly `limit`
      records come back: the first `limit` of the de-duplicated ones. */
  lemma TopNoticesTruncates(anchors: seq<Anchor>, limit: nat)
    requires |Dedup(Candidates(anchors))| >= limit
    ensures TopNotices(anchors, limit) == Dedup(Candidates(anchors))[..limit]
  {
  }
}
