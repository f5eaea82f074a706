/**
 * `scrapeCurrentPage`, `startScraping` and the restart button (content.js:117-123,
 * 300-418): the session state `profiles`, `totalScraped` and `vipScraped`, the
 * messages sent to the background script, and the page loop.
 */
module Harvest {
  import opened Wrappers
  import opened Strings
  import opened Dicts
  import opened ContactFetcher
  import opened Profiles

  /** The payload of `PROFILE_SCRAPED` and of each element of `ALL_PROFILES_SCRAPED`. */
  datatype Summary = Summary(
    fullName: string, email: string, dob: string, phone: string,
    profileUrl: string, jobTitle: string, location: string, connectionDegree: string)

  /** A `chrome.runtime.sendMessage` call. */
  datatype Message =
    | FieldScraped(key: string, value: string)
    | ProfileScraped(payload: Summary)
    | AllProfilesScraped(payloads: seq<Summary>)

  function Summarize(m: Record): Summary {
    Summary(m.fullName, m.email, GetOrEmpty(m.contactInfo, "dob"), GetOrEmpty(m.contactInfo, "phone"),
            m.profileUrl, m.jobTitle, m.location, m.connectionDegree)
  }

  function Summaries(ps: seq<Record>): (r: seq<Summary>)
    ensures |r| == |ps|
    ensures forall i :: 0 <= i < |ps| ==> r[i] == Summarize(ps[i])
  {
    if ps == [] then [] else [Summarize(ps[0])] + Summaries(ps[1..])
  }

  /** The `new_one_profile_scraped` messages among a fetch's effects, in order. */
  function FieldMessages(es: seq<Effect>): seq<Message> {
    if es == [] then []
    else (if es[0].SendField? then [FieldScraped(es[0].key, es[0].value)] else []) + FieldMessages(es[1..])
  }

  datatype Session = Session(profiles: seq<Record>, totalScraped: nat, vipScraped: nat, sent: seq<Message>)

  const Fresh := Session([], 0, 0, [])

  /** A session state, and whether an exception is propagating out of the code that produced it. */
  datatype Run = Run(session: Session, failed: bool)

  /**
   * The messages one entry sends: the fetch's `new_one_profile_scraped` messages,
   * then `PROFILE_SCRAPED` unless the entry aborts; nothing without a profile link.
   */
  function EntryMessages(e: Entry): seq<Message> {
    if ParseEntry(e).profileUrl == "" then []
    else FieldMessages(FetchSpec(e.tab).1) + if Aborts(e) then [] else [ProfileScraped(Summarize(EntryRecord(e)))]
  }

  lemma EntryAborted(e: Entry, c: FetchResult, effects: seq<Effect>)
    requires ParseEntry(e).profileUrl != "" && (c, effects) == FetchSpec(e.tab) && c.contactInfo.None?
    ensures Aborts(e) && EntryMessages(e) == FieldMessages(effects)
  {
  }

  lemma EntryCompleted(e: Entry, c: FetchResult, effects: seq<Effect>)
    requires ParseEntry(e).profileUrl != "" && (c, effects) == FetchSpec(e.tab) && c.contactInfo.Some?
    ensures !Aborts(e) && EntryRecord(e) == Merge(ParseEntry(e), c)
    ensures EntryMessages(e) == FieldMessages(effects) + [ProfileScraped(Summarize(Merge(ParseEntry(e), c)))]
  {
  }

  lemma EntryWithoutLink(e: Entry)
    requires ParseEntry(e).profileUrl == ""
    ensures !Aborts(e) && EntryRecord(e) == ParseEntry(e) && EntryMessages(e) == []
  {
  }

  /** What processing one entry does to the session. */
  datatype Outcome = Outcome(vip: bool, aborts: bool, record: Record, messages: seq<Message>)

  /** The entry's VIP test, whether it aborts, the record it appends unless it aborts, and its messages. */
  function EntryOutcome(e: Entry): Outcome {
    Outcome(IsVip(e), Aborts(e), if Aborts(e) then ParseEntry(e) else EntryRecord(e), EntryMessages(e))
  }

  function Outcomes(es: seq<Entry>): (os: seq<Outcome>)
    ensures |os| == |es|
    ensures forall i :: 0 <= i < |es| ==> os[i] == EntryOutcome(es[i])
  {
    seq(|es|, i requires 0 <= i < |es| => EntryOutcome(es[i]))
  }

  /**
   * One iteration of the loop of content.js:303-356: `vipScraped` is bumped first;
   * then either the record is appended and counted, or the entry aborts.
   */
  function Apply(s: Session, o: Outcome): Run {
    var vip := s.vipScraped + if o.vip then 1 else 0;
    if o.aborts then Run(Session(s.profiles, s.totalScraped, vip, s.sent + o.messages), true)
    else Run(Session(s.profiles + [o.record], s.totalScraped + 1, vip, s.sent + o.messages), false)
  }

  /** Entries in order, stopping at the first exception. */
  function HarvestOutcomes(s: Session, os: seq<Outcome>): Run {
    if os == [] then Run(s, false)
    else
      var r := HarvestOutcomes(s, os[..|os| - 1]);
      if r.failed then r else Apply(r.session, os[|os| - 1])
  }

  /** The rest of a computation after `r`, skipped when `r` failed. */
  function ThenOutcomes(r: Run, os: seq<Outcome>): Run {
    if r.failed then r else HarvestOutcomes(r.session, os)
  }

  /** `scrapeCurrentPage` over a page's entries, in document order. */
  function HarvestEntries(s: Session, es: seq<Entry>): Run {
    HarvestOutcomes(s, Outcomes(es))
  }

  /** One search-results page: its entries and whether an enabled next button is present. */
  datatype Page = Page(entries: seq<Entry>, hasNext: bool)

  /** Several pages in order, stopping at the first exception. */
  function HarvestPages(s: Session, pages: seq<Page>): Run {
    if pages == [] then Run(s, false)
    else ThenOutcomes(HarvestPages(s, pages[..|pages| - 1]), Outcomes(pages[|pages| - 1].entries))
  }

  /** Some page has no enabled next button, so the loop ends. */
  predicate Ends(pages: seq<Page>) {
    pages != [] && (!pages[0].hasNext || Ends(pages[1..]))
  }

  /** The index of the first page without an enabled next button: the last page visited. */
  function StopIndex(pages: seq<Page>): (k: nat)
    requires Ends(pages)
    ensures k < |pages| && !pages[k].hasNext
    ensures forall j :: 0 <= j < k ==> pages[j].hasNext
  {
    if !pages[0].hasNext then 0
    else
      var k := 1 + StopIndex(pages[1..]);
      assert forall j :: 1 <= j <= k ==> pages[j] == pages[1..][j - 1];
      k
  }

  /**
   * The end of `startScraping`: `ALL_PROFILES_SCRAPED` with every record, sent on
   * completion, and after an exception only when some record was kept.
   */
  function Report(r: Run): Session {
    if !r.failed || r.session.profiles != [] then
      r.session.(sent := r.session.sent + [AllProfilesScraped(Summaries(r.session.profiles))])
    else r.session
  }

  /** `startScraping`: the pages up to the first one without a next button, then the report. */
  function StartSpec(s: Session, pages: seq<Page>): Run
    requires Ends(pages)
  {
    var r := HarvestPages(s, pages[..StopIndex(pages) + 1]);
    Run(Report(r), r.failed)
  }

  /** The state the content script's closure keeps across button clicks. */
  class HarvestSession {
    var profiles: seq<Record>
    var totalScraped: nat
    var vipScraped: nat
    var sent: seq<Message>

    function State(): Session
      reads this
    {
      Session(profiles, totalScraped, vipScraped, sent)
    }

    constructor ()
      ensures State() == Fresh
    {
      profiles, totalScraped, vipScraped, sent := [], 0, 0, [];
    }

    /** One entry; `failed` reports the TypeError thrown at content.js:334. */
    method ScrapeEntry(e: Entry) returns (failed: bool)
      modifies this
      ensures failed == Aborts(e)
      ensures profiles == old(profiles) + (if failed then [] else [EntryRecord(e)])
      ensures totalScraped == old(totalScraped) + (if failed then 0 else 1)
      ensures vipScraped == old(vipScraped) + (if IsVip(e) then 1 else 0)
      ensures sent == old(sent) + EntryMessages(e)
    {
      var profile := ParseEntry(e);
      if IsVip(e) {
        vipScraped := vipScraped + 1;
      }
      if profile.profileUrl != "" {
        failed, profile := ScrapeContact(e);
        if failed {
          return;
        }
      } else {
        EntryWithoutLink(e);
        failed := false;
      }
      profiles := profiles + [profile];
      totalScraped := totalScraped + 1;
    }

    /**
     * The contact fetch of an entry with a profile link (content.js:332-349): the
     * fetch's field messages, then the summary unless reading `contactInfo.email` throws.
     */
    method ScrapeContact(e: Entry) returns (failed: bool, profile: Record)
      requires ParseEntry(e).profileUrl != ""
      modifies this
      ensures failed == Aborts(e)
      ensures !failed ==> profile == EntryRecord(e)
      ensures sent == old(sent) + EntryMessages(e)
      ensures profiles == old(profiles) && totalScraped == old(totalScraped) && vipScraped == old(vipScraped)
    {
      var contact, effects, _ := FetchContactInfo(e.tab);
      if contact.contactInfo.None? {
        EntryAborted(e, contact, effects);
        sent := sent + FieldMessages(effects);
        return true, ParseEntry(e);
      }
      EntryCompleted(e, contact, effects);
      profile := Merge(ParseEntry(e), contact);
      sent := sent + FieldMessages(effects) + [ProfileScraped(Summarize(profile))];
      failed := false;
    }

    method ScrapeCurrentPage(entries: seq<Entry>) returns (failed: bool)
      modifies this
      ensures Run(State(), failed) == HarvestEntries(old(State()), entries)
    {
      ghost var os := Outcomes(entries);
      for i := 0 to |entries|
        invariant HarvestOutcomes(old(State()), os[..i]) == Run(State(), false)
      {
        HarvestOutcomesSnoc(old(State()), os, i);
        failed := ScrapeEntry(entries[i]);
        if failed {
          HarvestOutcomesStable(old(State()), os, i + 1);
          return;
        }
      }
      assert os[..|entries|] == os;
      failed := false;
    }

    /** `startScraping`, where `pages[page - 1]` is the page the source calls `page`. */
    method StartScraping(pages: seq<Page>) returns (failed: bool)
      requires Ends(pages)
      modifies this
      ensures Run(State(), failed) == StartSpec(old(State()), pages)
    {
      var stop := StopIndex(pages);
      var page := 0;
      while true
        invariant page <= stop
        invariant HarvestPages(old(State()), pages[..page]) == Run(State(), false)
        decreases stop - page
      {
        HarvestPagesSnoc(old(State()), pages, page);
        ghost var before := State();
        failed := ScrapeCurrentPage(pages[page].entries);
        ghost var now := HarvestPages(old(State()), pages[..page + 1]);
        assert now == ThenOutcomes(Run(before, false), Outcomes(pages[page].entries));
        assert now == Run(State(), failed);
        if failed {
          HarvestPagesStable(old(State()), pages, page + 1, stop + 1);
          break;
        }
        if pages[page].hasNext {
          page := page + 1;
        } else {
          assert page == stop;
          break;
        }
      }
      ghost var r := Run(State(), failed);
      assert HarvestPages(old(State()), pages[..stop + 1]) == r;
      if !failed || |profiles| > 0 {
        sent := sent + [AllProfilesScraped(Summaries(profiles))];
      }
      assert State() == Report(r);
    }

    /** The restart button: the record list and both counters start over. */
    method Restart()
      modifies this
      ensures profiles == [] && totalScraped == 0 && vipScraped == 0
      ensures sent == old(sent)
    {
      profiles := [];
      totalScraped, vipScraped := 0, 0;
    }
  }

  // ---------------------------------------------------------------------------
  // Stopping at an exception

  lemma {:induction false} HarvestOutcomesSnoc(s: Session, os: seq<Outcome>, k: nat)
    requires k < |os|
    ensures var r := HarvestOutcomes(s, os[..k]);
      HarvestOutcomes(s, os[..k + 1]) == if r.failed then r else Apply(r.session, os[k])
  {
    assert os[..k + 1][..k] == os[..k];
  }

  lemma {:induction false} HarvestOutcomesStable(s: Session, os: seq<Outcome>, k: nat)
    requires k <= |os| && HarvestOutcomes(s, os[..k]).failed
    ensures HarvestOutcomes(s, os) == HarvestOutcomes(s, os[..k])
    decreases |os|
  {
    if k < |os| {
      assert os[..|os| - 1][..k] == os[..k];
      HarvestOutcomesStable(s, os[..|os| - 1], k);
    } else {
      assert os[..k] == os;
    }
  }

  lemma {:induction false} HarvestPagesSnoc(s: Session, pages: seq<Page>, k: nat)
    requires k < |pages|
    ensures HarvestPages(s, pages[..k + 1]) == ThenOutcomes(HarvestPages(s, pages[..k]), Outcomes(pages[k].entries))
  {
    assert pages[..k + 1][..k] == pages[..k];
  }

  lemma {:induction false} HarvestPagesStable(s: Session, pages: seq<Page>, k: nat, n: nat)
    requires k <= n <= |pages| && HarvestPages(s, pages[..k]).failed
    ensures HarvestPages(s, pages[..n]) == HarvestPages(s, pages[..k])
    decreases n - k
  {
    if k < n {
      HarvestPagesSnoc(s, pages, k);
      HarvestPagesStable(s, pages, k + 1, n);
    }
  }

  /** Harvesting `a + b` is harvesting `a` and then, unless that failed, `b`. */
  lemma {:induction false} HarvestOutcomesAppend(s: Session, a: seq<Outcome>, b: seq<Outcome>)
    ensures HarvestOutcomes(s, a + b) == ThenOutcomes(HarvestOutcomes(s, a), b)
  {
    if b == [] {
      assert a + b == a;
    } else {
      var b' := b[..|b| - 1];
      assert (a + b)[..|a + b| - 1] == a + b';
      assert (a + b)[|a + b| - 1] == b[|b| - 1];
      HarvestOutcomesAppend(s, a, b');
    }
  }

  /** All entries of the pages, in page order and then document order. */
  function Flatten(pages: seq<Page>): seq<Entry> {
    if pages == [] then [] else Flatten(pages[..|pages| - 1]) + pages[|pages| - 1].entries
  }

  lemma {:induction false} OutcomesAppend(a: seq<Entry>, b: seq<Entry>)
    ensures Outcomes(a + b) == Outcomes(a) + Outcomes(b)
  {
    assert forall i :: 0 <= i < |a| ==> (a + b)[i] == a[i];
    assert forall i :: |a| <= i < |a + b| ==> (a + b)[i] == b[i - |a|];
  }

  /** Harvesting page by page is harvesting the concatenated entries. */
  lemma {:induction false} HarvestPagesFlat(s: Session, pages: seq<Page>)
    ensures HarvestPages(s, pages) == HarvestOutcomes(s, Outcomes(Flatten(pages)))
  {
    if pages != [] {
      var init := pages[..|pages| - 1];
      var es := pages[|pages| - 1].entries;
      HarvestPagesFlat(s, init);
      OutcomesAppend(Flatten(init), es);
      HarvestOutcomesAppend(s, Outcomes(Flatten(init)), Outcomes(es));
    }
  }

  // ---------------------------------------------------------------------------
  // What a run of entries leaves behind

  /** How many entries complete before the first one that aborts (all of them if none does). */
  function Completed(os: seq<Outcome>): (c: nat)
    ensures c <= |os|
    ensures forall i :: 0 <= i < c ==> !os[i].aborts
    ensures c < |os| ==> os[c].aborts
  {
    if os == [] then 0
    else if os[0].aborts then 0
    else
      var c := 1 + Completed(os[1..]);
      assert forall i :: 1 <= i < c ==> os[i] == os[1..][i - 1];
      c
  }

  /** The records the entries append, in order. */
  function Records(os: seq<Outcome>): (rs: seq<Record>)
    ensures |rs| == |os|
    ensures forall i :: 0 <= i < |os| ==> rs[i] == os[i].record
  {
    if os == [] then [] else Records(os[..|os| - 1]) + [os[|os| - 1].record]
  }

  function VipCount(os: seq<Outcome>): (n: nat)
    ensures n <= |os|
  {
    if os == [] then 0 else VipCount(os[..|os| - 1]) + if os[|os| - 1].vip then 1 else 0
  }

  /** The entries whose processing began: the completed ones and the one that aborted, if any. */
  function Started(os: seq<Outcome>): (st: seq<Outcome>)
    ensures |st| == if Completed(os) < |os| then Completed(os) + 1 else |os|
  {
    if Completed(os) < |os| then os[..Completed(os) + 1] else os
  }

  /** How `Completed` depends on the last entry. */
  lemma {:induction false} CompletedSnoc(os: seq<Outcome>)
    requires os != []
    ensures var init := os[..|os| - 1];
      Completed(os) == if Completed(init) < |init| then Completed(init)
                       else if os[|os| - 1].aborts then |init| else |os|
  {
    var init := os[..|os| - 1];
    var ci := Completed(init);
    forall i | 0 <= i < |init| ensures init[i] == os[i] { }
  }

  /**
   * Entries complete in order up to the first that aborts, and exactly their
   * records are appended and counted.
   */
  lemma {:induction false} HarvestOutcomesRecords(s: Session, os: seq<Outcome>)
    ensures var r, c := HarvestOutcomes(s, os), Completed(os);
      && (r.failed <==> c < |os|)
      && r.session.profiles == s.profiles + Records(os[..c])
      && r.session.totalScraped == s.totalScraped + c
  {
    if os != [] {
      var init := os[..|os| - 1];
      HarvestOutcomesRecords(s, init);
      CompletedSnoc(os);
      var r0 := HarvestOutcomes(s, init);
      var c0 := Completed(init);
      if !r0.failed {
        assert init[..c0] == init;
        if Completed(os) == |os| {
          assert os[..|os|] == os;
          assert Records(os) == Records(init) + [os[|os| - 1].record];
        } else {
          assert os[..Completed(os)] == init;
        }
      } else {
        assert init[..c0] == os[..c0];
      }
    }
  }

  /** `vipScraped` counts the VIP entries among those whose processing began, the aborting one included. */
  lemma {:induction false} HarvestOutcomesVip(s: Session, os: seq<Outcome>)
    ensures HarvestOutcomes(s, os).session.vipScraped == s.vipScraped + VipCount(Started(os))
  {
    if os != [] {
      var init := os[..|os| - 1];
      HarvestOutcomesVip(s, init);
      HarvestOutcomesRecords(s, init);
      CompletedSnoc(os);
      if !HarvestOutcomes(s, init).failed {
        assert Started(init) == init;
        assert Started(os) == os;
      } else {
        assert Started(init) == Started(os);
      }
    }
  }

  // ---------------------------------------------------------------------------
  // startScraping

  /** The entries `startScraping` reaches, in page order and then document order, as outcomes. */
  function Visited(pages: seq<Page>): seq<Outcome>
    requires Ends(pages)
  {
    Outcomes(Flatten(pages[..StopIndex(pages) + 1]))
  }

  lemma StartFlat(s: Session, pages: seq<Page>)
    requires Ends(pages)
    ensures var r := HarvestOutcomes(s, Visited(pages));
      StartSpec(s, pages) == Run(Report(r), r.failed)
  {
    HarvestPagesFlat(s, pages[..StopIndex(pages) + 1]);
  }

  /**
   * `startScraping` keeps the records of the entries that completed before the
   * first abort; it sends `ALL_PROFILES_SCRAPED` with all of them on completion,
   * and after an abort only when at least one record was kept.
   */
  lemma StartOutcome(s: Session, pages: seq<Page>)
    requires Ends(pages)
    ensures var os := Visited(pages);
      var r, c := StartSpec(s, pages), Completed(os);
      && (r.failed <==> c < |os|)
      && r.session.profiles == s.profiles + Records(os[..c])
      && r.session.totalScraped == s.totalScraped + c
      && r.session.vipScraped == s.vipScraped + VipCount(Started(os))
      && var reported := !r.failed || r.session.profiles != [];
      && (reported ==> r.session.sent == HarvestOutcomes(s, os).session.sent + [AllProfilesScraped(Summaries(r.session.profiles))])
      && (!reported ==> r.session.sent == HarvestOutcomes(s, os).session.sent)
  {
    StartFlat(s, pages);
    HarvestOutcomesRecords(s, Visited(pages));
    HarvestOutcomesVip(s, Visited(pages));
  }

  /**
   * Starting from consistent counters, `totalScraped` still counts the records,
   * and `vipScraped` stays at or below it on completion but can be one ahead after
   * an abort.
   */
  lemma CountersAfterStart(s: Session, pages: seq<Page>)
    requires Ends(pages)
    requires s.totalScraped == |s.profiles| && s.vipScraped <= s.totalScraped
    ensures var r := StartSpec(s, pages);
      && r.session.totalScraped == |r.session.profiles|
      && (!r.failed ==> r.session.vipScraped <= r.session.totalScraped)
      && (r.failed ==> r.session.vipScraped <= r.session.totalScraped + 1)
  {
    StartOutcome(s, pages);
  }

  /** With no enabled next button on page 1, only page 1 is harvested. */
  lemma OnlyFirstPage(s: Session, pages: seq<Page>)
    requires |pages| >= 1 && !pages[0].hasNext
    ensures StartSpec(s, pages) == Run(Report(HarvestEntries(s, pages[0].entries)), HarvestEntries(s, pages[0].entries).failed)
  {
    HarvestPagesSnoc(s, pages, 0);
    assert pages[..0] == [];
  }

  /** An open tab that is found closed on the first poll. */
  const ClosedTab := Tab(true, [Seen(true, false, NoButton, None)])

  /** A first-degree connection whose contact tab is found closed. */
  const AbortingVip := Entry(None, Some("https://www.linkedin.com/in/x"), None, None, Some("1st"), None, None, false, ClosedTab)

  /** From a fresh session, that one entry leaves `vipScraped` one ahead of `totalScraped`. */
  lemma VipAheadAfterAbort()
    ensures StartSpec(Fresh, [Page([AbortingVip], false)]).failed
    ensures StartSpec(Fresh, [Page([AbortingVip], false)]).session.vipScraped == 1
    ensures StartSpec(Fresh, [Page([AbortingVip], false)]).session.totalScraped == 0
  {
    DecidedAt(ClosedTab, 0);
    assert Trim("1st") == "1st";
    assert Contains("1st", "1st");
    assert IsVip(AbortingVip);
    assert Aborts(AbortingVip);
    OnlyFirstPage(Fresh, [Page([AbortingVip], false)]);
    var os := Outcomes([AbortingVip]);
    HarvestOutcomesSnoc(Fresh, os, 0);
    assert os[..0] == [];
    assert os[..1] == os;
  }
}
