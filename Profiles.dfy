/**
 * The per-entry part of `scrapeCurrentPage` (content.js:303-350): the record a
 * search-result entry yields, the name split, the VIP test, and how a fetched
 * contact result is merged into the record.
 */
module Profiles {
  import opened Wrappers
  import opened Strings
  import opened Dicts
  import opened ContactPanel
  import opened ContactFetcher

  /** The `.presence-entity__image` element: its `src` and `alt`. */
  datatype Image = Image(src: string, alt: string)

  /**
   * One `li > div[data-chameleon-result-urn]` search result, as its selectors see
   * it: the urn attribute, the app-aware link's `href`, the image, the text of the
   * title, badge, job and location elements, whether a premium badge is present,
   * and the tab its contact overlay would open.
   */
  datatype Entry = Entry(
    urn: Option<string>, link: Option<string>, image: Option<Image>,
    title: Option<string>, badge: Option<string>, job: Option<string>, place: Option<string>,
    premium: bool, tab: Tab)

  /** The profile object pushed into `profiles` (the `Email` property is `email` here). */
  datatype Record = Record(
    urn: string, profileUrl: string, profileImageUrl: string,
    firstName: string, lastName: string, fullName: string,
    connectionDegree: string, jobTitle: string, location: string,
    contactInfo: Dict, contactInfoError: string, contactInfoRaw: string, errorReason: string,
    email: string)

  /** The defaults of content.js:304-309. */
  const Defaults := Record("", "", "", "", "", "", "", "", "", Empty, "false", "", "", "")

  /** `(alt).split(/\s+/)`: the first piece, and the rest joined with single spaces. */
  function NameParts(alt: string): (string, string) {
    var parts := SplitSpaceRuns(alt);
    (parts[0], Join(parts[1..], " "))
  }

  /** `el?.textContent.trim() || ""`. */
  function TextOf(el: Option<string>): string {
    if el.Some? then Trim(el.value) else ""
  }

  /** The record built from the entry's own markup, before any contact info is fetched. */
  function ParseEntry(e: Entry): (r: Record)
    ensures e.image.None? ==> r.firstName == "" && r.lastName == "" && r.profileImageUrl == ""
    ensures r.contactInfo == Empty && r.contactInfoError == "false" && r.contactInfoRaw == ""
    ensures r.errorReason == "" && r.email == ""
  {
    var names := if e.image.Some? then NameParts(e.image.value.alt) else ("", "");
    Defaults.(
      urn := e.urn.GetOr(""),
      profileUrl := e.link.GetOr(""),
      profileImageUrl := if e.image.Some? then e.image.value.src else "",
      firstName := names.0,
      lastName := names.1,
      fullName := TextOf(e.title),
      connectionDegree := TextOf(e.badge),
      jobTitle := TextOf(e.job),
      location := TextOf(e.place))
  }

  /** The VIP test of content.js:327. */
  predicate IsVip(e: Entry) {
    Contains(ParseEntry(e).connectionDegree, "1st") || e.premium
  }

  /** The entry's processing throws: a contact fetch was made and returned no `contactInfo` (content.js:334). */
  predicate Aborts(e: Entry) {
    ParseEntry(e).profileUrl != "" && FetchSpec(e.tab).0.contactInfo.None?
  }

  /** `profile.Email = contact.contactInfo.email || ""` followed by `Object.assign(profile, contact)`. */
  function Merge(r: Record, c: FetchResult): Record
    requires c.contactInfo.Some?
  {
    r.(email := GetOrEmpty(c.contactInfo.value, "email"),
       contactInfo := c.contactInfo.value, contactInfoRaw := c.contactInfoRaw,
       contactInfoError := c.contactInfoError, errorReason := c.errorReason)
  }

  /** The record an entry that does not abort appends to `profiles`. */
  function EntryRecord(e: Entry): Record
    requires !Aborts(e)
  {
    var r := ParseEntry(e);
    if r.profileUrl == "" then r else Merge(r, FetchSpec(e.tab).0)
  }

  // ---------------------------------------------------------------------------
  // Properties

  /**
   * The first name is the text before the first white-space run, and has none;
   * with no white space it is the whole alt text and the last name is empty;
   * otherwise first and last name, joined by one space, are the alt text with each
   * run turned into one space. Leading white space leaves the first name empty.
   */
  lemma NameSplit(alt: string)
    ensures var (first, last) := NameParts(alt);
      && NoSpace(first)
      && (NoSpace(alt) ==> first == alt && last == "")
      && (!NoSpace(alt) ==> first + " " + last == ReplaceSpaceRuns(alt, ' '))
      && (alt != [] && IsSpace(alt[0]) ==> first == "")
  {
    var parts := SplitSpaceRuns(alt);
    SplitSpaceRunsCount(alt);
    JoinSplitIsReplace(alt, ' ');
    if |parts| >= 2 {
      JoinCons(parts[0], parts[1..], " ");
      assert [parts[0]] + parts[1..] == parts;
    }
  }

  /** An element the entry lacks leaves its field at the empty default. */
  lemma MissingElementsEmpty(e: Entry)
    ensures var r := ParseEntry(e);
      && (e.urn.None? ==> r.urn == "")
      && (e.link.None? ==> r.profileUrl == "")
      && (e.title.None? ==> r.fullName == "")
      && (e.badge.None? ==> r.connectionDegree == "")
      && (e.job.None? ==> r.jobTitle == "")
      && (e.place.None? ==> r.location == "")
  {
  }

  /**
   * A record that was appended has a contact-info map; when it reports a contact
   * error, that map is empty and the reason is the pop-up failure, since polling
   * failures abort the entry before it is appended. A successful fetch leaves no
   * reason, and the email column is the stored `email` key.
   */
  lemma AppendedRecordContact(e: Entry)
    requires !Aborts(e)
    ensures var m := EntryRecord(e);
      && m.email == GetOrEmpty(m.contactInfo, "email")
      && (m.contactInfoError != "false" ==> m.contactInfoError == "true" && m.contactInfo == Empty && m.errorReason == OpenFailedReason)
      && (m.contactInfoError == "false" ==> m.errorReason == "")
      && (m.profileUrl == "" ==> m.contactInfo == Empty && m.contactInfoRaw == "")
  {
    FetchResultShape(e.tab);
  }

  /** An entry aborts exactly when it has a profile link and the tab opened but polling failed. */
  lemma AbortsWhenPollingFails(e: Entry)
    ensures Aborts(e) <==> ParseEntry(e).profileUrl != "" && e.tab.opens && FetchSpec(e.tab).0.contactInfoError != "false"
  {
    FetchResultShape(e.tab);
  }

  /**
   * The contact map of an appended record is a well-formed dictionary whose keys
   * are normalized, and neither its keys nor its values are suspicious.
   */
  lemma RecordContactClean(e: Entry)
    requires !Aborts(e)
    ensures var m := EntryRecord(e);
      && Valid(m.contactInfo)
      && forall k :: k in Keys(m.contactInfo) ==>
           IsNormalized(k) && !IsSuspicious(k) && !IsSuspicious(GetOrEmpty(m.contactInfo, k))
  {
    var m := EntryRecord(e);
    FetchResultShape(e.tab);
    if ParseEntry(e).profileUrl != "" && e.tab.opens {
      var r := FetchSpec(e.tab).0;
      var k :| 0 <= k < MaxTicks && ObservationAt(e.tab, k).Seen? && ObservationAt(e.tab, k).section.Some?
        && r.contactInfo == Some(ContactData(ObservationAt(e.tab, k).section.value.blocks));
      var blocks := ObservationAt(e.tab, k).section.value.blocks;
      FromPairsValid(Filter(Candidates(blocks)));
      forall key | key in Keys(m.contactInfo)
        ensures IsNormalized(key) && !IsSuspicious(key) && !IsSuspicious(GetOrEmpty(m.contactInfo, key))
      {
        ContactDataClean(blocks, key);
      }
    }
  }
}
