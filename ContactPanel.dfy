/**
 * Extraction of key/value pairs from the rendered contact-info panel
 * (content.js:226-262). Each `.pv-contact-info__contact-type` block of the panel
 * is given as the data the scraper reads from it.
 */
module ContactPanel {
  import opened Wrappers
  import opened Strings
  import opened Dicts

  /** An anchor inside a block: its (resolved) `href` and its `textContent`. */
  datatype Link = Link(href: string, text: string)

  /**
   * One contact-type block: the `textContent` of its header element, its first
   * anchor, the `textContent` of its first span, and its own `textContent`.
   */
  datatype ContactBlock = ContactBlock(header: Option<string>, link: Option<Link>, span: Option<string>, text: string)

  /** `s.toLowerCase().replace(/\s+/g, '_')`. */
  function NormalizeKey(s: string): string {
    ReplaceSpaceRuns(ToLower(s), '_')
  }

  /** What `NormalizeKey` produces: lower case, no white space. */
  predicate IsNormalized(k: string) {
    NoSpace(k) && NoUpper(k)
  }

  lemma {:induction false} NormalizeKeyShape(s: string)
    ensures IsNormalized(NormalizeKey(s))
  {
    ReplaceSpaceRunsNoSpace(ToLower(s), '_');
    ReplaceSpaceRunsNoUpper(ToLower(s), '_');
  }

  /** Normalizing a normalized key changes nothing, so normalizing is idempotent. */
  lemma {:induction false} NormalizeKeyIdempotent(s: string)
    ensures NormalizeKey(NormalizeKey(s)) == NormalizeKey(s)
    ensures IsNormalized(s) ==> NormalizeKey(s) == s
  {
    NormalizeKeyShape(s);
    NormalizedFixed(NormalizeKey(s));
    if IsNormalized(s) { NormalizedFixed(s); }
  }

  lemma {:induction false} NormalizedFixed(k: string)
    requires IsNormalized(k)
    ensures NormalizeKey(k) == k
  {
    ToLowerIdentity(k);
    ReplaceSpaceRunsIdentity(k, '_');
  }

  /** The key of the block at index `i`: the trimmed header text, or `UnknownKey{i}`, normalized. */
  function BlockKey(b: ContactBlock, i: nat): string {
    var headerText := if b.header.Some? then Trim(b.header.value) else "";
    NormalizeKey(if headerText != "" then headerText else "UnknownKey" + NatToString(i))
  }

  /** `href.replace(/^mailto:/, '')` when `href` starts with `mailto:`, else `href || text`. */
  function LinkValue(l: Link): string {
    var href := Trim(l.href);
    var text := Trim(l.text);
    if IsPrefix("mailto:", href) then href[7..]
    else if href != "" then href
    else text
  }

  /** The value of a block: from its anchor if it has one, else its span, else its own text. */
  function BlockValue(b: ContactBlock): string {
    if b.link.Some? then LinkValue(b.link.value)
    else if b.span.Some? then Trim(b.span.value)
    else Trim(b.text)
  }

  /** `isSuspicious`: contains `s_profile`, is shorter than 3, or has no ASCII letter. */
  predicate IsSuspicious(s: string) {
    Contains(s, "s_profile") || |s| < 3 || !HasAsciiLetter(s)
  }

  /** A candidate pair is kept when neither its key nor its value is suspicious. */
  predicate Keep(p: Pair) {
    !IsSuspicious(p.0) && !IsSuspicious(p.1)
  }

  /** The candidate pair of every block, in block order. */
  function Candidates(blocks: seq<ContactBlock>): (ps: seq<Pair>)
    ensures |ps| == |blocks|
    ensures forall i :: 0 <= i < |blocks| ==> ps[i] == (BlockKey(blocks[i], i), BlockValue(blocks[i]))
  {
    seq(|blocks|, i requires 0 <= i < |blocks| => (BlockKey(blocks[i], i), BlockValue(blocks[i])))
  }

  /** The pairs of `ps` that the filter keeps, in order. */
  function Filter(ps: seq<Pair>): seq<Pair> {
    if ps == [] then []
    else Filter(ps[..|ps| - 1]) + (if Keep(ps[|ps| - 1]) then [ps[|ps| - 1]] else [])
  }

  /** Filtering one more pair appends it exactly when it is accepted. */
  lemma {:induction false} FilterStep(ps: seq<Pair>, i: nat)
    requires i < |ps|
    ensures Filter(ps[..i + 1]) == Filter(ps[..i]) + (if Keep(ps[i]) then [ps[i]] else [])
  {
    assert ps[..i + 1][..i] == ps[..i];
  }

  /** The `contactData` object the panel yields. */
  function ContactData(blocks: seq<ContactBlock>): Dict {
    FromPairs(Filter(Candidates(blocks)))
  }

  /**
   * The extraction loop: `contactData[key] = value` for each admitted block, and the
   * pairs it sends as `new_one_profile_scraped` messages, in order.
   */
  method ExtractContactData(blocks: seq<ContactBlock>) returns (data: Dict, sent: seq<Pair>)
    ensures sent == Filter(Candidates(blocks))
    ensures data == ContactData(blocks)
  {
    data, sent := Empty, [];
    var i := 0;
    while i < |blocks|
      invariant 0 <= i <= |blocks|
      invariant sent == Filter(Candidates(blocks)[..i])
      invariant data == FromPairs(sent)
    {
      var key := BlockKey(blocks[i], i);
      var value := BlockValue(blocks[i]);
      ExtractStep(blocks, i);
      assert Candidates(blocks)[i] == (key, value);
      if !IsSuspicious(key) && !IsSuspicious(value) {
        FromPairsSnoc(sent, (key, value));
        data := Put(data, key, value);
        sent := sent + [(key, value)];
      }
      i := i + 1;
    }
    assert Candidates(blocks)[..|blocks|] == Candidates(blocks);
  }

  /** One turn of the extraction loop extends the filtered prefix by the block's pair if it is kept. */
  lemma {:induction false} ExtractStep(blocks: seq<ContactBlock>, i: nat)
    requires i < |blocks|
    ensures var c := Candidates(blocks)[i]; var sent := Filter(Candidates(blocks)[..i]);
      Filter(Candidates(blocks)[..i + 1]) == if Keep(c) then sent + [c] else sent
  {
    FilterStep(Candidates(blocks), i);
    assert Filter(Candidates(blocks)[..i]) + [] == Filter(Candidates(blocks)[..i]);
  }

  // ---------------------------------------------------------------------------
  // Properties of the filtered dictionary

  /** The filtered pairs are exactly the accepted ones. */
  lemma {:induction false} FilterExact(ps: seq<Pair>, p: Pair)
    ensures p in Filter(ps) <==> p in ps && Keep(p)
  {
    if ps != [] {
      var n := |ps| - 1;
      FilterExact(ps[..n], p);
      FilterStep(ps, n);
      assert ps[..n + 1] == ps;
      assert ps == ps[..n] + [ps[n]];
    }
  }

  /** A key is stored exactly when some accepted pair has it. */
  lemma {:induction false} FilteredKeys(ps: seq<Pair>, k: string)
    ensures Get(FromPairs(Filter(ps)), k).Some? <==> exists i :: 0 <= i < |ps| && Keep(ps[i]) && ps[i].0 == k
  {
    if ps != [] {
      FilteredKeys(ps[..|ps| - 1], k);
      GetFilteredLast(ps, k);
      KeyWitnessSnoc(ps, k);
    }
  }

  /** The value under `k` after all of `ps`, in terms of the last pair. */
  lemma {:induction false} GetFilteredLast(ps: seq<Pair>, k: string)
    requires ps != []
    ensures var last := ps[|ps| - 1];
      Get(FromPairs(Filter(ps)), k) ==
        if Keep(last) && last.0 == k then Some(last.1) else Get(FromPairs(Filter(ps[..|ps| - 1])), k)
  {
    var f := Filter(ps[..|ps| - 1]);
    var last := ps[|ps| - 1];
    if Keep(last) {
      FromPairsSnoc(f, last);
    } else {
      assert f + [] == f;
    }
  }

  lemma {:induction false} KeyWitnessSnoc(ps: seq<Pair>, k: string)
    requires ps != []
    ensures var init, last := ps[..|ps| - 1], ps[|ps| - 1];
      (exists i :: 0 <= i < |ps| && Keep(ps[i]) && ps[i].0 == k) <==>
        (exists i :: 0 <= i < |init| && Keep(init[i]) && init[i].0 == k) || (Keep(last) && last.0 == k)
  {
    var n := |ps| - 1;
    var init := ps[..n];
    if exists i :: 0 <= i < |ps| && Keep(ps[i]) && ps[i].0 == k {
      var i :| 0 <= i < |ps| && Keep(ps[i]) && ps[i].0 == k;
      if i < n {
        assert init[i] == ps[i];
      }
    }
    if exists i :: 0 <= i < |init| && Keep(init[i]) && init[i].0 == k {
      var i :| 0 <= i < |init| && Keep(init[i]) && init[i].0 == k;
      assert ps[i] == init[i];
    }
  }

  /** A stored value comes from an accepted pair with that key. */
  lemma {:induction false} FilteredValues(ps: seq<Pair>, k: string)
    requires Get(FromPairs(Filter(ps)), k).Some?
    ensures exists i :: 0 <= i < |ps| && Keep(ps[i]) && ps[i] == (k, Get(FromPairs(Filter(ps)), k).value)
  {
    var v := Get(FromPairs(Filter(ps)), k).value;
    var n := |ps| - 1;
    GetFilteredLast(ps, k);
    if Keep(ps[n]) && ps[n].0 == k {
      assert Keep(ps[n]) && ps[n] == (k, v);
    } else {
      var init := ps[..n];
      FilteredValues(init, k);
      var i :| 0 <= i < |init| && Keep(init[i]) && init[i] == (k, v);
      assert ps[i] == init[i];
    }
  }

  /** The value under a key is that of the last accepted pair with the key. */
  lemma {:induction false} FilteredLastWins(ps: seq<Pair>, i: nat)
    requires i < |ps| && Keep(ps[i])
    requires forall j :: i < j < |ps| && Keep(ps[j]) ==> ps[j].0 != ps[i].0
    ensures Get(FromPairs(Filter(ps)), ps[i].0) == Some(ps[i].1)
  {
    var n := |ps| - 1;
    var init := ps[..n];
    var k := ps[i].0;
    GetFilteredLast(ps, k);
    if i < n {
      assert init[i] == ps[i];
      assert forall j :: i < j < |init| ==> init[j] == ps[j];
      FilteredLastWins(init, i);
      assert !(Keep(ps[n]) && ps[n].0 == k);
      assert Get(FromPairs(Filter(init)), k) == Some(ps[i].1);
    }
  }

  // ---------------------------------------------------------------------------
  // Properties of the extraction from a panel

  /** A key is stored exactly when some block whose key and value pass the filter has it. */
  lemma {:induction false} ContactDataKeys(blocks: seq<ContactBlock>, k: string)
    ensures k in Keys(ContactData(blocks)) <==>
      exists i :: 0 <= i < |blocks| && !IsSuspicious(BlockKey(blocks[i], i)) && !IsSuspicious(BlockValue(blocks[i])) && BlockKey(blocks[i], i) == k
  {
    var cs := Candidates(blocks);
    FromPairsValid(Filter(cs));
    FilteredKeys(cs, k);
    if exists i :: 0 <= i < |cs| && Keep(cs[i]) && cs[i].0 == k {
      var i :| 0 <= i < |cs| && Keep(cs[i]) && cs[i].0 == k;
      assert cs[i] == (BlockKey(blocks[i], i), BlockValue(blocks[i]));
    }
    if exists i :: 0 <= i < |blocks| && !IsSuspicious(BlockKey(blocks[i], i)) && !IsSuspicious(BlockValue(blocks[i])) && BlockKey(blocks[i], i) == k {
      var i :| 0 <= i < |blocks| && !IsSuspicious(BlockKey(blocks[i], i)) && !IsSuspicious(BlockValue(blocks[i])) && BlockKey(blocks[i], i) == k;
      assert cs[i] == (BlockKey(blocks[i], i), BlockValue(blocks[i]));
      assert Keep(cs[i]) && cs[i].0 == k;
    }
  }

  /** A later kept block with the same key overwrites an earlier one: the last one wins. */
  lemma {:induction false} ContactDataLastWins(blocks: seq<ContactBlock>, i: nat)
    requires i < |blocks| && !IsSuspicious(BlockKey(blocks[i], i)) && !IsSuspicious(BlockValue(blocks[i]))
    requires forall j :: i < j < |blocks| && !IsSuspicious(BlockKey(blocks[j], j)) && !IsSuspicious(BlockValue(blocks[j])) ==>
                BlockKey(blocks[j], j) != BlockKey(blocks[i], i)
    ensures Get(ContactData(blocks), BlockKey(blocks[i], i)) == Some(BlockValue(blocks[i]))
  {
    var cs := Candidates(blocks);
    FilteredLastWins(cs, i);
  }

  /** Every stored key is normalized, and no stored key or value is suspicious. */
  lemma {:induction false} ContactDataClean(blocks: seq<ContactBlock>, k: string)
    requires k in Keys(ContactData(blocks))
    ensures IsNormalized(k) && !IsSuspicious(k)
    ensures !IsSuspicious(GetOrEmpty(ContactData(blocks), k))
  {
    var cs := Candidates(blocks);
    FromPairsValid(Filter(cs));
    FilteredValues(cs, k);
    var i :| 0 <= i < |cs| && Keep(cs[i]) && cs[i] == (k, Get(ContactData(blocks), k).value);
    var headerText := if blocks[i].header.Some? then Trim(blocks[i].header.value) else "";
    NormalizeKeyShape(if headerText != "" then headerText else "UnknownKey" + NatToString(i));
  }

  /** A link whose trimmed `href` is exactly `mailto:` gives the empty value, so its block is dropped. */
  lemma {:induction false} BareMailtoDropped(b: ContactBlock)
    requires b.link.Some? && Trim(b.link.value.href) == "mailto:"
    ensures BlockValue(b) == ""
    ensures IsSuspicious(BlockValue(b))
  {
    assert Trim(b.link.value.href)[7..] == "";
  }

  /**
   * A link's value is its trimmed `href` with one leading `mailto:` taken off, so
   * putting the prefix back gives the `href`; other links give the `href`, and the
   * link text only when the `href` is empty.
   */
  lemma {:induction false} LinkValueMailto(l: Link)
    ensures IsPrefix("mailto:", Trim(l.href)) ==> "mailto:" + LinkValue(l) == Trim(l.href)
    ensures !IsPrefix("mailto:", Trim(l.href)) && Trim(l.href) != "" ==> LinkValue(l) == Trim(l.href)
    ensures Trim(l.href) == "" ==> LinkValue(l) == Trim(l.text)
  {
    var href := Trim(l.href);
    if IsPrefix("mailto:", href) {
      PrefixRestored("mailto:", href);
    }
  }

  lemma PrefixRestored(p: string, s: string)
    requires IsPrefix(p, s)
    ensures p + s[|p|..] == s
  {
    assert s == s[..|p|] + s[|p|..];
  }

  /** A block without a usable header gets the key `unknownkey{i}`, which the filter never rejects. */
  lemma {:induction false} UnknownKeyNeverSuspicious(b: ContactBlock, i: nat)
    requires b.header.None? || Trim(b.header.value) == ""
    ensures BlockKey(b, i) == "unknownkey" + NatToString(i)
    ensures !IsSuspicious(BlockKey(b, i))
  {
    var k := "unknownkey" + NatToString(i);
    LowerUnknownKey(NatToString(i));
    UnknownKeyChars(NatToString(i));
    ReplaceSpaceRunsIdentity(k, '_');
    NoUnderscoreNoMarker(k);
  }

  lemma {:induction false} UnknownKeyChars(digits: string)
    requires forall j :: 0 <= j < |digits| ==> '0' <= digits[j] <= '9'
    ensures NoSpace("unknownkey" + digits)
    ensures forall j :: 0 <= j < |"unknownkey" + digits| ==> ("unknownkey" + digits)[j] != '_'
    ensures |"unknownkey" + digits| >= 3 && HasAsciiLetter("unknownkey" + digits)
  {
    var k := "unknownkey" + digits;
    forall j | 0 <= j < |k| ensures !IsSpace(k[j]) && k[j] != '_' {
      if j >= 10 { assert k[j] == digits[j - 10]; } else { assert k[j] == "unknownkey"[j]; }
    }
    assert IsAsciiLetter(k[0]);
  }

  lemma {:induction false} LowerUnknownKey(digits: string)
    requires forall j :: 0 <= j < |digits| ==> '0' <= digits[j] <= '9'
    ensures ToLower("UnknownKey" + digits) == "unknownkey" + digits
  {
    var raw := "UnknownKey" + digits;
    var k := "unknownkey" + digits;
    forall j | 0 <= j < |raw| ensures ToLower(raw)[j] == k[j] {
      if j >= 10 {
        assert raw[j] == digits[j - 10] == k[j];
      } else {
        assert raw[j] == "UnknownKey"[j] && k[j] == "unknownkey"[j];
      }
    }
  }
}
