/** The notice record that flows from the extractor through the record store
    to the notifier, and the facts about notice identifiers that all three use. */
module Notices {

  datatype Option<+T> = None | Some(value: T)

  /** One notice: `(no, title, date, link)`. `no` is the board's notice number,
      the primary key of the `notices` table. */
  datatype Notice = Notice(no: string, title: string, date: string, link: string)

  /** The set of notice numbers occurring in `s`. */
  function Ids(s: seq<Notice>): set<string>
  {
    set i | 0 <= i < |s| :: s[i].no
  }

  /** No two records of `s` share a notice number. */
  predicate DistinctIds(s: seq<Notice>)
  {
    forall i, j :: 0 <= i < j < |s| ==> s[i].no != s[j].no
  }

  /** The position of the first record of `s` whose number is `id`. */
  function FirstIndex(s: seq<Notice>, id: string): (k: nat)
    requires id in Ids(s)
    ensures k < |s| && s[k].no == id
    ensures forall j :: 0 <= j < k ==> s[j].no != id
  {
    if s[0].no == id then 0
    else
      var i :| 0 <= i < |s| && s[i].no == id;
      assert s[1..][i - 1].no == id;
      1 + FirstIndex(s[1..], id)
  }

  lemma IdsSnoc(s: seq<Notice>, x: Notice)
    ensures Ids(s + [x]) == Ids(s) + {x.no}
  {
    var t := s + [x];
    forall id | id in Ids(s) ensures id in Ids(t) {
      var i :| 0 <= i < |s| && s[i].no == id;
      assert t[i].no == id;
    }
    assert t[|s|].no == x.no;
  }

  /** The first occurrence is the only position with the number and no earlier one. */
  lemma FirstIndexUnique(s: seq<Notice>, id: string, k: nat)
    requires k < |s| && s[k].no == id
    requires forall j :: 0 <= j < k ==> s[j].no != id
    ensures id in Ids(s) && FirstIndex(s, id) == k
  {
  }

  /** Appending a record does not move the first occurrence of a number already present. */
  lemma FirstIndexSnoc(s: seq<Notice>, x: Notice, id: string)
    requires id in Ids(s)
    ensures id in Ids(s + [x]) && FirstIndex(s + [x], id) == FirstIndex(s, id)
  {
    IdsSnoc(s, x);
    var k := FirstIndex(s, id);
    FirstIndexUnique(s + [x], id, k);
  }

  /** The first occurrence of a number that is new in the last record is that record. */
  lemma FirstIndexLast(s: seq<Notice>, x: Notice)
    requires x.no !in Ids(s)
    ensures x.no in Ids(s + [x]) && FirstIndex(s + [x], x.no) == |s|
  {
    forall j | 0 <= j < |s| ensures (s + [x])[j].no != x.no {
      assert (s + [x])[j] == s[j];
    }
    FirstIndexUnique(s + [x], x.no, |s|);
  }
}
