/** The run orchestrator `main` (src/main.py:162-179): open the store, take
    the page's anchors, extract at most five notices, reconcile them against
    the store and hand the new ones to the notifier, in that fixed order. */
module Pipeline {
  import opened Notices
  import opened Extractor
  import opened RecordStore
  import opened Notifier

  /** One run over an already fetched and parsed page. */
  method Run(store: NoticeStore, anchors: seq<Anchor>, cfg: Config)
    returns (notices: seq<Notice>, newItems: seq<Notice>, outcome: Outcome)
    requires store.Valid()
    modifies store
    ensures store.Valid()
    ensures notices == TopNotices(anchors, DefaultLimit)
    ensures Reconciled(store.rows, newItems) == Reconcile(old(store.rows), notices)
    ensures outcome == Decide(cfg, newItems)
  {
    notices := ParseTopNotices(anchors, DefaultLimit);
    newItems := store.SaveNoticesAndCollectNew(notices);
    outcome := SendEmailForNewItems(cfg, newItems);
  }

  /** A run against a table, as a value: the table afterwards and the
      notifier's decision. */
  function RunOnce(rows: map<string, Notice>, anchors: seq<Anchor>, cfg: Config): (Reconciled, Outcome)
  {
    var r := Reconcile(rows, TopNotices(anchors, DefaultLimit));
    (r, Decide(cfg, r.newItems))
  }

  /** A second run over the same page finds nothing new, leaves the table as
      the first run left it, and sends nothing. */
  lemma SecondRunIsQuiet(rows: map<string, Notice>, anchors: seq<Anchor>, cfg: Config)
    ensures var first := RunOnce(rows, anchors, cfg).0;
      RunOnce(first.rows, anchors, cfg) == (Reconciled(first.rows, []), NothingNew)
  {
    ReconcileIdempotent(rows, TopNotices(anchors, DefaultLimit));
  }

  /** On a fresh table every extracted notice is new, the table then holds
      exactly those notices, and with complete settings one digest goes out
      announcing all of them, at most five. */
  lemma FirstRunReportsAll(anchors: seq<Anchor>, cfg: Config)
    ensures var (r, outcome) := RunOnce(map[], anchors, cfg);
      && r.newItems == TopNotices(anchors, DefaultLimit)
      && r.rows.Keys == Ids(r.newItems)
      && |r.newItems| <= DefaultLimit
      && (r.newItems != [] && ConfigComplete(cfg) ==>
            outcome.Send? && outcome.digest.body == Join(DigestLines(r.newItems)))
  {
    var notices := TopNotices(anchors, DefaultLimit);
    TopNoticesProperties(anchors, DefaultLimit);
    ReconcileIntoEmpty(notices);
    ReconcileIntoEmptyRows(notices);
  }
}
