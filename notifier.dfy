/** The notifier `send_email_for_new_items` (src/main.py:126-159) up to the
    hand-over to the mail transport: whether to send, and the one digest
    message it would send. */
module Notifier {
  import opened Notices
  import opened Decimal

  /** The three mail settings: sender address, sender app password and
      recipient address, already stripped. */
  datatype Config = Config(sender: string, password: string, recipient: string)

  /** The single message of a run. */
  datatype Digest = Digest(from: string, to: string, subject: string, body: string)

  /** What the notifier does with a batch of new notices. */
  datatype Outcome =
    | NothingNew          // no new notices: return quietly
    | ConfigMissing       // a mail setting is empty: print a diagnostic, send nothing
    | Send(digest: Digest)

  predicate ConfigComplete(cfg: Config)
  {
    cfg.sender != "" && cfg.password != "" && cfg.recipient != ""
  }

  const SubjectPrefix: string := "[국회도서관 공지] NEW "
  const SubjectSuffix: string := "건"

  /** `f"[국회도서관 공지] NEW {len(new_items)}건"` */
  function Subject(count: nat): string
  {
    SubjectPrefix + NatToString(count) + SubjectSuffix
  }

  /** The count a subject line announces, if it is a digest subject. */
  function SubjectCount(subject: string): Option<nat>
  {
    var lo, hi := |SubjectPrefix|, |subject| - |SubjectSuffix|;
    if lo <= hi && subject[..lo] == SubjectPrefix && subject[hi..] == SubjectSuffix
       && subject[lo..hi] != [] && AllDigits(subject[lo..hi])
    then Some(ParseDecimal(subject[lo..hi]))
    else None
  }

  /** The subject carries the number of new notices, and it can be read back. */
  lemma SubjectCarriesCount(count: nat)
    ensures SubjectCount(Subject(count)) == Some(count)
  {
    NatToStringRoundTrip(count);
    var s := Subject(count);
    var lo, hi := |SubjectPrefix|, |s| - |SubjectSuffix|;
    assert s[..lo] == SubjectPrefix;
    assert s[hi..] == SubjectSuffix;
    assert s[lo..hi] == NatToString(count);
  }

  /** `f"새 공지 {len(new_items)}건이 감지되었습니다.\n"`: the first body line,
      itself ending in a newline. */
  function Header(count: nat): string
  {
    "새 공지 " + NatToString(count) + "건이 감지되었습니다.\n"
  }

  /** An empty date shows as `-`. */
  function DateOrDash(date: string): (shown: string)
    ensures shown != ""
    ensures date != "" ==> shown == date
  {
    if date == "" then "-" else date
  }

  /** `f"{i}. ({date_str}) {title}"` */
  function ItemLine(position: nat, n: Notice): string
  {
    NatToString(position) + ". (" + DateOrDash(n.date) + ") " + n.title
  }

  /** `f"   {link}"` */
  function LinkLine(n: Notice): string
  {
    "   " + n.link
  }

  /** The two lines of every item, numbered from 1. */
  function EntryLines(items: seq<Notice>): seq<string>
  {
    if items == [] then []
    else
      var last := items[|items| - 1];
      EntryLines(items[..|items| - 1]) + [ItemLine(|items|, last), LinkLine(last)]
  }

  /** `lines`, in full. */
  function DigestLines(items: seq<Notice>): seq<string>
  {
    [Header(|items|)] + EntryLines(items)
  }

  /** The body is the header line followed by two lines per item, numbered
      from 1 in order: the item's date or `-` and its title, then its link. */
  lemma {:induction false} EntryLinesShape(items: seq<Notice>)
    ensures |EntryLines(items)| == 2 * |items|
    ensures forall k :: 0 <= k < |items| ==>
      EntryLines(items)[2 * k] == ItemLine(k + 1, items[k]) && EntryLines(items)[2 * k + 1] == LinkLine(items[k])
  {
    if items != [] {
      var p := items[..|items| - 1];
      EntryLinesShape(p);
      forall k | 0 <= k < |p| ensures p[k] == items[k] { }
    }
  }

  lemma DigestLinesShape(items: seq<Notice>)
    ensures |DigestLines(items)| == 1 + 2 * |items|
    ensures DigestLines(items)[0] == Header(|items|)
    ensures forall k :: 0 <= k < |items| ==>
      DigestLines(items)[2 * k + 1] == ItemLine(k + 1, items[k]) && DigestLines(items)[2 * k + 2] == LinkLine(items[k])
    ensures forall k :: 0 <= k < |items| && items[k].date == "" ==>
      DigestLines(items)[2 * k + 1] == NatToString(k + 1) + ". (-) " + items[k].title
    ensures forall k :: 0 <= k < |items| && items[k].date != "" ==>
      DigestLines(items)[2 * k + 1] == NatToString(k + 1) + ". (" + items[k].date + ") " + items[k].title
    ensures forall k :: 0 <= k < |items| ==> DigestLines(items)[2 * k + 2] == "   " + items[k].link
  {
    EntryLinesShape(items);
  }

  /** The loop that fills `lines` (src/main.py:139-144). */
  method BuildLines(items: seq<Notice>) returns (lines: seq<string>)
    ensures lines == DigestLines(items)
  {
    lines := [Header(|items|)];
    var i := 0;
    while i < |items|
      invariant 0 <= i <= |items|
      invariant lines == [Header(|items|)] + EntryLines(items[..i])
    {
      assert items[..i + 1][..i] == items[..i];
      var dateStr := if items[i].date != "" then items[i].date else "-";
      lines := lines + [NatToString(i + 1) + ". (" + dateStr + ") " + items[i].title];
      lines := lines + ["   " + items[i].link];
      i := i + 1;
    }
    assert items[..i] == items;
  }

  /** `"\n".join(lines)` */
  function Join(lines: seq<string>): string
  {
    if lines == [] then ""
    else if |lines| == 1 then lines[0]
    else Join(lines[..|lines| - 1]) + "\n" + lines[|lines| - 1]
  }

  /** A single line is joined as itself. */
  lemma JoinSingle(line: string)
    ensures Join([line]) == line
  {
  }

  /** Joining two non-empty runs of lines puts one newline between them, so
      the body reads as its lines in order, one newline apart. */
  lemma {:induction false} JoinAppend(a: seq<string>, b: seq<string>)
    requires a != [] && b != []
    ensures Join(a + b) == Join(a) + "\n" + Join(b)
    decreases |b|
  {
    var ab := a + b;
    if |b| == 1 {
      assert ab[..|ab| - 1] == a;
    } else {
      var b' := b[..|b| - 1];
      assert ab[..|ab| - 1] == a + b';
      assert ab[|ab| - 1] == b[|b| - 1];
      JoinAppend(a, b');
    }
  }

  /** The digest body: the header, a newline, then the item lines joined. */
  lemma DigestBody(items: seq<Notice>)
    requires items != []
    ensures Join(DigestLines(items)) == Header(|items|) + "\n" + Join(EntryLines(items))
  {
    EntryLinesShape(items);
    JoinAppend([Header(|items|)], EntryLines(items));
  }

  /** The notifier's decision for a batch. */
  function Decide(cfg: Config, newItems: seq<Notice>): Outcome
  {
    if newItems == [] then NothingNew
    else if !ConfigComplete(cfg) then ConfigMissing
    else Send(Digest(cfg.sender, cfg.recipient, Subject(|newItems|), Join(DigestLines(newItems))))
  }

  /** No new notices never sends; an empty setting never sends; otherwise
      exactly one message goes from the sender to the recipient, its subject
      announcing the number of new notices and its body listing them. */
  lemma DecideGating(cfg: Config, newItems: seq<Notice>)
    ensures Decide(cfg, newItems) == NothingNew <==> newItems == []
    ensures Decide(cfg, newItems) == ConfigMissing <==> newItems != [] && !ConfigComplete(cfg)
    ensures Decide(cfg, newItems).Send? <==> newItems != [] && ConfigComplete(cfg)
    ensures Decide(cfg, newItems).Send? ==>
      var m := Decide(cfg, newItems).digest;
      m.from == cfg.sender && m.to == cfg.recipient &&
      SubjectCount(m.subject) == Some(|newItems|) &&
      m.body == Join(DigestLines(newItems))
  {
    SubjectCarriesCount(|newItems|);
  }

  /** `send_email_for_new_items` up to the transport (src/main.py:126-151). */
  method SendEmailForNewItems(cfg: Config, newItems: seq<Notice>) returns (outcome: Outcome)
    ensures outcome == Decide(cfg, newItems)
  {
    if |newItems| == 0 {
      return NothingNew;
    }
    if cfg.sender == "" || cfg.password == "" || cfg.recipient == "" {
      return ConfigMissing;
    }
    var subject := SubjectPrefix + NatToString(|newItems|) + SubjectSuffix;
    var lines := BuildLines(newItems);
    var body := Join(lines);
    outcome := Send(Digest(cfg.sender, cfg.recipient, subject, body));
  }
}
