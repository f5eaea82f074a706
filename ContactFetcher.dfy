/**
 * `fetchContactInfo` (content.js:132-298): open the profile's contact-info overlay
 * in a new tab, then poll it every 300 ms. Each poll is one tick over what the tab
 * shows at that moment; the tab's behaviour is given as a `Tab` value.
 */
module ContactFetcher {
  import opened Wrappers
  import opened Strings
  import opened Dicts
  import opened ContactPanel

  const MaxAttempts: nat := 16
  const MaxClickAttempts: nat := 3
  /** Polling has always ended after this many ticks. */
  const MaxTicks: nat := MaxAttempts + 1

  const TabClosedReason := "Tab closed prematurely"
  const ChallengeReason := "CAPTCHA or login required"
  const NotFoundReason := "Contact section not found after click"
  const OpenFailedReason := "Failed to open new tab. Ensure pop-ups are allowed."

  /** The contact-info button: absent, present but not rendered (`offsetParent === null`), or visible. */
  datatype Button = NoButton | HiddenButton | VisibleButton

  /** The contact section found by either selector: its contact-type blocks and its `textContent`. */
  datatype Section = Section(blocks: seq<ContactBlock>, text: string)

  /**
   * What one tick sees: whether the tab is closed, whether a checkpoint or login
   * element is present, the button, and the section; or an exception raised while
   * inspecting the tab, before anything else happens in that tick.
   */
  datatype Observation =
    | Seen(tabClosed: bool, challenge: bool, button: Button, section: Option<Section>)
    | Throws(message: string)

  /** An open tab on which nothing of interest has rendered. */
  const Quiet: Observation := Seen(false, false, NoButton, None)

  /** The new tab: whether `window.open` returned a window, and what each tick sees in it. */
  datatype Tab = Tab(opens: bool, ticks: seq<Observation>)

  /** Ticks past the end of the given sequence see a quiet tab. */
  function ObservationAt(t: Tab, k: nat): Observation {
    if k < |t.ticks| then t.ticks[k] else Quiet
  }

  /**
   * The object `fetchContactInfo` resolves to. `contactInfo` is `None` when the
   * object has no `contactInfo` property at all.
   */
  datatype FetchResult = FetchResult(contactInfo: Option<Dict>, contactInfoRaw: string, contactInfoError: string, errorReason: string)

  /** The initial `contactInfo` object of content.js:146. */
  const Pending := FetchResult(None, "", "true", "")
  /** What the outer `catch` returns when the tab could not be opened (content.js:296). */
  const OpenFailed := FetchResult(Some(Empty), "", "true", OpenFailedReason)

  /** What a tick does to the outside world. */
  datatype Effect = DispatchClick | SendField(key: string, value: string) | CloseTab

  datatype PollState = PollState(
    attempts: nat, clickAttempts: nat, buttonClicked: bool,
    result: FetchResult, finished: bool, effects: seq<Effect>)

  const Start := PollState(0, 0, false, Pending, false, [])

  /** Polling ends with `errorReason` set, closing the tab unless `close` is false. */
  function Fail(s: PollState, reason: string, close: bool): PollState {
    s.(result := s.result.(errorReason := reason), finished := true,
       effects := s.effects + (if close then [CloseTab] else []))
  }

  /** The click attempt of content.js:168-178. */
  function ClickPhase(s: PollState, b: Button): PollState {
    if b != NoButton && !s.buttonClicked && s.clickAttempts < MaxClickAttempts then
      if b == VisibleButton then
        s.(effects := s.effects + [DispatchClick], buttonClicked := true, clickAttempts := s.clickAttempts + 1)
      else s.(clickAttempts := s.clickAttempts + 1)
    else s
  }

  /**
   * The section lookup of content.js:180-282: success when a section is present,
   * the timeout once 16 attempts have been made before this one, otherwise another
   * attempt.
   */
  function SectionPhase(c: PollState, section: Option<Section>): PollState {
    if section.Some? then
      var blocks := section.value.blocks;
      c.(result := FetchResult(Some(ContactData(blocks)), Trim(section.value.text), "false", ""),
         finished := true,
         effects := c.effects + SendEffects(Filter(Candidates(blocks))) + [CloseTab],
         attempts := c.attempts + 1)
    else if c.attempts >= MaxAttempts then
      Fail(c, NotFoundReason, true).(attempts := c.attempts + 1)
    else
      c.(attempts := c.attempts + 1)
  }

  /** One `new_one_profile_scraped` message per kept pair. */
  function SendEffects(pairs: seq<Pair>): (es: seq<Effect>)
    ensures |es| == |pairs|
    ensures forall i :: 0 <= i < |pairs| ==> es[i] == SendField(pairs[i].0, pairs[i].1)
  {
    if pairs == [] then [] else [SendField(pairs[0].0, pairs[0].1)] + SendEffects(pairs[1..])
  }

  /** One interval tick (content.js:149-287); once polling has ended, ticks change nothing. */
  function Tick(s: PollState, o: Observation): PollState {
    if s.finished then s
    else match o
      case Throws(m) => Fail(s, m, true)
      case Seen(closed, challenge, button, section) =>
        if closed then Fail(s, TabClosedReason, false)
        else if challenge then Fail(s, ChallengeReason, true)
        else
          SectionPhase(ClickPhase(s, button), section)
  }

  /** The state after the first `n` ticks. */
  function RunTicks(t: Tab, n: nat): PollState {
    if n == 0 then Start else Tick(RunTicks(t, n - 1), ObservationAt(t, n - 1))
  }

  /** The state in which polling ends. */
  function Poll(t: Tab): PollState {
    RunTicks(t, MaxTicks)
  }

  /** What `fetchContactInfo` returns, with the effects it had on the tab and the relay. */
  function FetchSpec(t: Tab): (FetchResult, seq<Effect>) {
    if !t.opens then (OpenFailed, []) else (Poll(t).result, Poll(t).effects)
  }

  /** The interval callback's closure state. */
  class ContactPoller {
    var attempts: nat
    var clickAttempts: nat
    var buttonClicked: bool
    var contactInfo: FetchResult
    var finished: bool
    var effects: seq<Effect>

    function State(): PollState
      reads this
    {
      PollState(attempts, clickAttempts, buttonClicked, contactInfo, finished, effects)
    }

    constructor ()
      ensures State() == Start
    {
      attempts, clickAttempts, buttonClicked := 0, 0, false;
      contactInfo, finished, effects := Pending, false, [];
    }

    /** One run of the interval callback; after `clearInterval` it no longer runs. */
    method Step(o: Observation)
      modifies this
      ensures State() == Tick(old(State()), o)
    {
      if finished {
        return;
      }
      match o {
        case Throws(m) =>
          contactInfo := contactInfo.(errorReason := m);
          effects := effects + [CloseTab];
          finished := true;
        case Seen(closed, challenge, button, section) =>
          if closed {
            contactInfo := contactInfo.(errorReason := TabClosedReason);
            finished := true;
            return;
          }
          if challenge {
            contactInfo := contactInfo.(errorReason := ChallengeReason);
            effects := effects + [CloseTab];
            finished := true;
            return;
          }
          TryClick(button);
          LookForSection(section);
      }
    }

    /** The click attempt. */
    method TryClick(button: Button)
      modifies this
      ensures State() == ClickPhase(old(State()), button)
    {
      if button != NoButton && !buttonClicked && clickAttempts < MaxClickAttempts {
        if button == VisibleButton {
          effects := effects + [DispatchClick];
          buttonClicked := true;
        }
        clickAttempts := clickAttempts + 1;
      }
    }

    /** The section lookup, and `attempts++` at the end of the tick. */
    method LookForSection(section: Option<Section>)
      modifies this
      ensures State() == SectionPhase(old(State()), section)
    {
      if section.Some? {
        var rawText := Trim(section.value.text);
        var data, sent := ExtractContactData(section.value.blocks);
        contactInfo := FetchResult(Some(data), rawText, "false", "");
        effects := effects + SendEffects(sent) + [CloseTab];
        finished := true;
      } else if attempts >= MaxAttempts {
        contactInfo := contactInfo.(errorReason := NotFoundReason);
        effects := effects + [CloseTab];
        finished := true;
      }
      attempts := attempts + 1;
    }
  }

  /**
   * `fetchContactInfo`: the result, the effects in order, and the number of ticks
   * the interval ran for.
   */
  method FetchContactInfo(t: Tab) returns (r: FetchResult, effects: seq<Effect>, ticks: nat)
    ensures (r, effects) == FetchSpec(t)
    ensures ticks <= MaxTicks
    ensures !t.opens ==> ticks == 0
  {
    if !t.opens {
      return OpenFailed, [], 0;
    }
    var poller := new ContactPoller();
    ticks := 0;
    while !poller.finished
      invariant ticks <= MaxTicks
      invariant poller.State() == RunTicks(t, ticks)
      decreases MaxTicks - ticks
    {
      RunTicksBound(t, ticks);
      poller.Step(ObservationAt(t, ticks));
      ticks := ticks + 1;
    }
    RunTicksStable(t, ticks, MaxTicks);
    r, effects := poller.contactInfo, poller.effects;
  }

  // ---------------------------------------------------------------------------
  // Termination

  /** While polling goes on, the attempt counter equals the number of ticks, and it never passes 16. */
  lemma {:induction false} RunTicksBound(t: Tab, n: nat)
    ensures !RunTicks(t, n).finished ==> RunTicks(t, n).attempts == n && n <= MaxAttempts
  {
    if n > 0 {
      RunTicksBound(t, n - 1);
    }
  }

  /** Once polling has ended, further ticks change nothing. */
  lemma {:induction false} RunTicksStable(t: Tab, m: nat, n: nat)
    requires m <= n && RunTicks(t, m).finished
    ensures RunTicks(t, n) == RunTicks(t, m)
  {
    if m < n {
      RunTicksStable(t, m, n - 1);
    }
  }

  /** Polling has ended by the 17th tick, whatever the tab shows. */
  lemma PollTerminates(t: Tab)
    ensures Poll(t).finished
  {
    RunTicksBound(t, MaxTicks);
  }

  // ---------------------------------------------------------------------------
  // Clicks

  function CountClicks(es: seq<Effect>): nat {
    if es == [] then 0 else (if es[0] == DispatchClick then 1 else 0) + CountClicks(es[1..])
  }

  lemma {:induction false} CountClicksAppend(a: seq<Effect>, b: seq<Effect>)
    ensures CountClicks(a + b) == CountClicks(a) + CountClicks(b)
  {
    if a == [] {
      assert a + b == b;
    } else {
      assert (a + b)[1..] == a[1..] + b;
      CountClicksAppend(a[1..], b);
    }
  }

  lemma {:induction false} SendEffectsNoClicks(pairs: seq<Pair>)
    ensures CountClicks(SendEffects(pairs)) == 0
  {
    if pairs != [] {
      SendEffectsNoClicks(pairs[1..]);
    }
  }

  /** At most one click is ever dispatched, and it is recorded by `buttonClicked`. */
  ghost predicate ClickInvariant(s: PollState) {
    s.clickAttempts <= MaxClickAttempts && CountClicks(s.effects) == (if s.buttonClicked then 1 else 0)
  }

  lemma {:induction false} TickKeepsClickInvariant(s: PollState, o: Observation)
    requires ClickInvariant(s)
    ensures ClickInvariant(Tick(s, o))
  {
    if !s.finished {
      CountClicksAppend(s.effects, [CloseTab]);
      CountClicksAppend(s.effects, []);
      match o
      case Throws(_) =>
      case Seen(closed, challenge, button, section) =>
        var c := ClickPhase(s, button);
        CountClicksAppend(s.effects, [DispatchClick]);
        assert ClickInvariant(c);
        CountClicksAppend(c.effects, [CloseTab]);
        if section.Some? {
          var sends := SendEffects(Filter(Candidates(section.value.blocks)));
          SendEffectsNoClicks(Filter(Candidates(section.value.blocks)));
          CountClicksAppend(c.effects, sends);
          CountClicksAppend(c.effects + sends, [CloseTab]);
        }
    }
  }

  lemma {:induction false} RunTicksClickInvariant(t: Tab, n: nat)
    ensures ClickInvariant(RunTicks(t, n))
  {
    if n > 0 {
      RunTicksClickInvariant(t, n - 1);
      TickKeepsClickInvariant(RunTicks(t, n - 1), ObservationAt(t, n - 1));
    }
  }

  /** A fetch dispatches at most one click and makes at most three click attempts. */
  lemma FetchClicksBounded(t: Tab)
    ensures CountClicks(FetchSpec(t).1) <= 1
    ensures Poll(t).clickAttempts <= MaxClickAttempts
  {
    RunTicksClickInvariant(t, MaxTicks);
  }

  // ---------------------------------------------------------------------------
  // How polling ends

  /** A tick that decides nothing: tab open, no challenge, no section. */
  predicate Idle(o: Observation) {
    o.Seen? && !o.tabClosed && !o.challenge && o.section.None?
  }

  /** After `k <= 16` idle ticks polling is still going on, with `k` attempts made. */
  lemma {:induction false} IdlePrefix(t: Tab, k: nat)
    requires k <= MaxAttempts
    requires forall j :: 0 <= j < k ==> Idle(ObservationAt(t, j))
    ensures !RunTicks(t, k).finished && RunTicks(t, k).attempts == k
    ensures RunTicks(t, k).result == Pending
  {
    if k > 0 {
      IdlePrefix(t, k - 1);
    }
  }

  /**
   * The first tick that is not idle decides the result, checking in order: tab
   * closed, challenge, section. This holds up to and including the 17th tick, so a
   * section found on the last tick wins over the timeout.
   */
  lemma DecidedAt(t: Tab, k: nat)
    requires k <= MaxAttempts
    requires forall j :: 0 <= j < k ==> Idle(ObservationAt(t, j))
    requires !Idle(ObservationAt(t, k))
    ensures var o, r := ObservationAt(t, k), Poll(t).result;
      && (o.Throws? ==> r == Pending.(errorReason := o.message))
      && (o.Seen? && o.tabClosed ==> r == Pending.(errorReason := TabClosedReason))
      && (o.Seen? && !o.tabClosed && o.challenge ==> r == Pending.(errorReason := ChallengeReason))
      && (o.Seen? && !o.tabClosed && !o.challenge ==>
            r == FetchResult(Some(ContactData(o.section.value.blocks)), Trim(o.section.value.text), "false", ""))
  {
    IdlePrefix(t, k);
    RunTicksStable(t, k + 1, MaxTicks);
  }

  /** Seventeen idle ticks time out. */
  lemma AllIdleTimesOut(t: Tab)
    requires forall j :: 0 <= j < MaxTicks ==> Idle(ObservationAt(t, j))
    ensures Poll(t).result == Pending.(errorReason := NotFoundReason)
  {
    IdlePrefix(t, MaxAttempts);
  }

  /** A challenge on the first tick ends the fetch with the challenge reason and no contact data. */
  lemma ChallengeOnFirstTick(t: Tab)
    requires t.opens && ObservationAt(t, 0).Seen? && !ObservationAt(t, 0).tabClosed && ObservationAt(t, 0).challenge
    ensures FetchSpec(t).0.errorReason == ChallengeReason && FetchSpec(t).0.contactInfo == None
  {
    DecidedAt(t, 0);
  }

  // ---------------------------------------------------------------------------
  // The shape of the result

  /** What the result can be after `n` ticks of polling an opened tab. */
  ghost predicate Shaped(t: Tab, n: nat, s: PollState) {
    && (!s.finished ==> s.result == Pending)
    && (s.finished && s.result.contactInfoError == "false" ==>
          exists k :: 0 <= k < n && ObservationAt(t, k).Seen? && ObservationAt(t, k).section.Some?
            && s.result == FetchResult(Some(ContactData(ObservationAt(t, k).section.value.blocks)),
                                       Trim(ObservationAt(t, k).section.value.text), "false", ""))
    && (s.finished && s.result.contactInfoError != "false" ==>
          && s.result.contactInfoError == "true" && s.result.contactInfo == None && s.result.contactInfoRaw == ""
          && (s.result.errorReason in {TabClosedReason, ChallengeReason, NotFoundReason}
              || exists k :: 0 <= k < n && ObservationAt(t, k) == Throws(s.result.errorReason)))
  }

  lemma {:induction false} RunTicksShaped(t: Tab, n: nat)
    ensures Shaped(t, n, RunTicks(t, n))
  {
    if n > 0 {
      RunTicksShaped(t, n - 1);
      var s := RunTicks(t, n - 1);
      var o := ObservationAt(t, n - 1);
      if s.finished {
        var r := s.result;
        if r.contactInfoError == "false" {
          var k :| 0 <= k < n - 1 && ObservationAt(t, k).Seen? && ObservationAt(t, k).section.Some?
            && r == FetchResult(Some(ContactData(ObservationAt(t, k).section.value.blocks)),
                                Trim(ObservationAt(t, k).section.value.text), "false", "");
        } else if r.errorReason !in {TabClosedReason, ChallengeReason, NotFoundReason} {
          var k :| 0 <= k < n - 1 && ObservationAt(t, k) == Throws(r.errorReason);
        }
      }
    }
  }

  /**
   * A fetch either succeeds, with `contactInfoError` "false", an empty `errorReason`
   * and the data of a section the tab showed; or reports that the tab did not open,
   * with an empty map; or fails while polling, with `contactInfoError` "true", no
   * `contactInfo` at all, and one of the three fixed reasons or an exception's message.
   */
  lemma FetchResultShape(t: Tab)
    ensures var r := FetchSpec(t).0;
      && (!t.opens ==> r == OpenFailed)
      && (r.contactInfoError == "false" ==>
            t.opens && r.errorReason == "" &&
            exists k :: 0 <= k < MaxTicks && ObservationAt(t, k).Seen? && ObservationAt(t, k).section.Some?
              && r.contactInfo == Some(ContactData(ObservationAt(t, k).section.value.blocks))
              && r.contactInfoRaw == Trim(ObservationAt(t, k).section.value.text))
      && (t.opens && r.contactInfoError != "false" ==>
            && r.contactInfoError == "true" && r.contactInfo == None
            && (r.errorReason in {TabClosedReason, ChallengeReason, NotFoundReason}
                || exists k :: 0 <= k < MaxTicks && ObservationAt(t, k) == Throws(r.errorReason)))
  {
    PollTerminates(t);
    RunTicksShaped(t, MaxTicks);
  }

  /** The only fetch results that carry a `contactInfo` map are successes and the unopened tab. */
  lemma MapOnlyOnSuccessOrOpenFailure(t: Tab)
    ensures FetchSpec(t).0.contactInfo.Some? <==> FetchSpec(t).0.contactInfoError == "false" || !t.opens
  {
    FetchResultShape(t);
  }
}
