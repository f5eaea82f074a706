/**
 * The body of the download button's handler (content.js:63-102): the CSV text built
 * from the scraped records. Cells are quoted with the quote-doubling rule of
 * section 2 (rule 7) of RFC 4180, but lines end with LF alone, a newline inside a
 * value becomes a space instead of being quoted, and the header line is not quoted.
 */
module CsvExport {
  import opened Wrappers
  import opened Strings
  import opened Dicts
  import opened ContactPanel
  import opened Profiles

  // ---------------------------------------------------------------------------
  // Header

  /** `profiles.flatMap(p => Object.keys(p.contactInfo || {}))`. */
  function AllKeys(ps: seq<Record>): seq<string> {
    if ps == [] then [] else AllKeys(ps[..|ps| - 1]) + Keys(ps[|ps| - 1].contactInfo)
  }

  predicate Distinct(ks: seq<string>) {
    forall i, j :: 0 <= i < j < |ks| ==> ks[i] != ks[j]
  }

  /** `Array.from(new Set(ks))`: each key once, at the place it is first seen. */
  function Dedup(ks: seq<string>): (r: seq<string>)
    ensures Distinct(r)
    ensures forall k :: k in r <==> k in ks
  {
    if ks == [] then []
    else
      var d := Dedup(ks[..|ks| - 1]);
      var k := ks[|ks| - 1];
      assert forall x :: x in ks <==> x in ks[..|ks| - 1] || x == k;
      if k in d then d else d + [k]
  }

  /** The normalized contact keys of the header, with `.map(key => ...)` applied after deduplication. */
  function ContactKeys(ps: seq<Record>): (r: seq<string>)
    ensures |r| == |Dedup(AllKeys(ps))|
    ensures forall i :: 0 <= i < |r| ==> r[i] == NormalizeKey(Dedup(AllKeys(ps))[i])
    ensures forall i :: 0 <= i < |r| ==> IsNormalized(r[i])
  {
    var d := Dedup(AllKeys(ps));
    NormalizeKeysShape(d);
    seq(|d|, i requires 0 <= i < |d| => NormalizeKey(d[i]))
  }

  lemma NormalizeKeysShape(ks: seq<string>)
    ensures forall i :: 0 <= i < |ks| ==> IsNormalized(NormalizeKey(ks[i]))
  {
    forall i | 0 <= i < |ks| ensures IsNormalized(NormalizeKey(ks[i])) {
      NormalizeKeyShape(ks[i]);
    }
  }

  const FixedHeaders: seq<string> := [
    "urn", "profileUrl", "profileImageUrl", "firstName", "lastName",
    "fullName", "connectionDegree", "jobTitle", "location",
    "contactInfoError", "contactInfoRaw", "errorReason"]

  function Headers(ps: seq<Record>): seq<string> {
    FixedHeaders + ContactKeys(ps)
  }

  // ---------------------------------------------------------------------------
  // Cells

  /** `profile[h] || ""` for the fixed column `h`. */
  function Field(p: Record, h: string): string {
    if h == "urn" then p.urn
    else if h == "profileUrl" then p.profileUrl
    else if h == "profileImageUrl" then p.profileImageUrl
    else if h == "firstName" then p.firstName
    else if h == "lastName" then p.lastName
    else if h == "fullName" then p.fullName
    else if h == "connectionDegree" then p.connectionDegree
    else if h == "jobTitle" then p.jobTitle
    else if h == "location" then p.location
    else if h == "contactInfoError" then p.contactInfoError
    else if h == "contactInfoRaw" then p.contactInfoRaw
    else if h == "errorReason" then p.errorReason
    else ""
  }

  /** `h.replace(/_/g, ' ')`: the property a contact column reads. */
  function LookupKey(h: string): string {
    ReplaceAll(h, '_', " ")
  }

  /** The value of column `h`: a contact key reads the map, any other header the fixed field. */
  function CellValue(p: Record, contactKeys: seq<string>, h: string): string {
    if h in contactKeys then GetOrEmpty(p.contactInfo, LookupKey(h)) else Field(p, h)
  }

  function Escape(v: string): string {
    ReplaceAll(v, '"', "\"\"")
  }

  function Clean(v: string): string {
    ReplaceAll(v, '\n', " ")
  }

  /** `"${String(value).replace(/"/g, '""').replace(/\n/g, ' ')}"`. */
  function Quote(v: string): string {
    "\"" + Clean(Escape(v)) + "\""
  }

  /** The values of a record's row, one per header column. */
  function Values(p: Record, contactKeys: seq<string>, headers: seq<string>): (vs: seq<string>)
    ensures |vs| == |headers|
    ensures forall j :: 0 <= j < |headers| ==> vs[j] == CellValue(p, contactKeys, headers[j])
  {
    seq(|headers|, j requires 0 <= j < |headers| => CellValue(p, contactKeys, headers[j]))
  }

  function RowLine(ps: seq<Record>, p: Record): string {
    Join(QuoteAll(Values(p, ContactKeys(ps), Headers(ps))), ",")
  }

  /** `rows`: one line per record, in record order. */
  function RowLines(ps: seq<Record>): (rs: seq<string>)
    ensures |rs| == |ps|
    ensures forall i :: 0 <= i < |ps| ==> rs[i] == RowLine(ps, ps[i])
  {
    seq(|ps|, i requires 0 <= i < |ps| => RowLine(ps, ps[i]))
  }

  function HeaderLine(ps: seq<Record>): string {
    Join(Headers(ps), ",")
  }

  /** `[headers.join(","), ...rows]`. */
  function Lines(ps: seq<Record>): seq<string> {
    [HeaderLine(ps)] + RowLines(ps)
  }

  datatype Export = NoProfiles | Csv(text: string)

  /** The download: nothing without records, else the lines joined with LF. */
  function ExportCsv(ps: seq<Record>): (r: Export)
    ensures r.NoProfiles? <==> ps == []
  {
    if ps == [] then NoProfiles else Csv(Join(Lines(ps), "\n"))
  }

  // ---------------------------------------------------------------------------
  // A reader for the quoted rows

  /**
   * Reads the body of a quoted cell, whose opening quote has been consumed: `""`
   * stands for one quote and a lone quote ends the cell. Gives the value and what
   * follows the closing quote.
   */
  function ReadBody(s: string): (r: Option<(string, string)>)
    ensures r.Some? ==> |r.value.1| < |s|
  {
    if s == [] then None
    else if s[0] == '"' then
      if |s| >= 2 && s[1] == '"' then
        match ReadBody(s[2..])
        case None => None
        case Some(vr) => Some(("\"" + vr.0, vr.1))
      else Some(("", s[1..]))
    else
      match ReadBody(s[1..])
      case None => None
      case Some(vr) => Some(([s[0]] + vr.0, vr.1))
  }

  /** Reads a line of quoted cells separated by commas. */
  function ReadRecord(s: string): Option<seq<string>>
    decreases |s|
  {
    if s == [] || s[0] != '"' then None
    else
      match ReadBody(s[1..])
      case None => None
      case Some(vr) =>
        if vr.1 == [] then Some([vr.0])
        else if vr.1[0] != ',' then None
        else
          match ReadRecord(vr.1[1..])
          case None => None
          case Some(rest) => Some([vr.0] + rest)
  }

  // ---------------------------------------------------------------------------
  // Cell quoting

  /** Replacing quotes and replacing newlines commute, so a quoted cell is the escaped cleaned value. */
  lemma {:induction false} EscapeCleanCommute(v: string)
    ensures Clean(Escape(v)) == Escape(Clean(v))
    decreases |v|
  {
    if v != [] {
      EscapeCleanCommute(v[1..]);
      EscapeCons(v);
      CleanCons(v);
      var head := if v[0] == '"' then "\"\"" else [v[0]];
      var chead := if v[0] == '\n' then " " else [v[0]];
      ReplaceAllAppend(head, Escape(v[1..]), '\n', " ");
      ReplaceAllAppend(chead, Clean(v[1..]), '"', "\"\"");
      HeadsCommute(v[0]);
    }
  }

  /** Cleaning goes character by character: a newline becomes a space, anything else stays. */
  lemma CleanCons(v: string)
    requires v != []
    ensures Clean(v) == (if v[0] == '\n' then " " else [v[0]]) + Clean(v[1..])
  {
    ReplaceAllAppend([v[0]], v[1..], '\n', " ");
    assert v == [v[0]] + v[1..];
  }

  lemma ReplaceOne(c: char, x: char, rep: string)
    ensures ReplaceAll([c], x, rep) == if c == x then rep else [c]
  {
    assert [c][1..] == [];
  }

  lemma HeadsCommute(c: char)
    ensures Clean(if c == '"' then "\"\"" else [c]) == Escape(if c == '\n' then " " else [c])
  {
    if c == '"' {
      ReplaceAllAppend("\"", "\"", '\n', " ");
      assert "\"\"" == "\"" + "\"";
      ReplaceOne('"', '\n', " ");
      ReplaceOne('"', '"', "\"\"");
    } else if c == '\n' {
      ReplaceOne('\n', '\n', " ");
      ReplaceOne(' ', '"', "\"\"");
    } else {
      ReplaceOne(c, '\n', " ");
      ReplaceOne(c, '"', "\"\"");
    }
  }

  /** Escaping goes character by character: a quote becomes two, anything else stays. */
  lemma EscapeCons(v: string)
    requires v != []
    ensures Escape(v) == (if v[0] == '"' then "\"\"" else [v[0]]) + Escape(v[1..])
  {
    ReplaceAllAppend([v[0]], v[1..], '"', "\"\"");
    assert v == [v[0]] + v[1..];
  }

  lemma ReadBodyQuotePair(tail: string, c: string, rest: string)
    requires ReadBody(tail) == Some((c, rest))
    ensures ReadBody("\"\"" + tail) == Some(("\"" + c, rest))
  {
    assert ("\"\"" + tail)[2..] == tail;
  }

  lemma ReadBodyChar(ch: char, tail: string, c: string, rest: string)
    requires ch != '"' && ReadBody(tail) == Some((c, rest))
    ensures ReadBody([ch] + tail) == Some(([ch] + c, rest))
  {
    assert ([ch] + tail)[1..] == tail;
  }

  /** Reading an escaped body back gives the value, when what follows does not start with a quote. */
  lemma {:induction false} ReadEscaped(v: string, rest: string)
    requires rest == [] || rest[0] != '"'
    ensures ReadBody(Escape(v) + "\"" + rest) == Some((v, rest))
    decreases |v|
  {
    if v == [] {
      assert Escape(v) + "\"" + rest == "\"" + rest;
    } else {
      var tail := Escape(v[1..]) + "\"" + rest;
      ReadEscaped(v[1..], rest);
      EscapeCons(v);
      if v[0] == '"' {
        assert Escape(v) + "\"" + rest == "\"\"" + tail;
        ReadBodyQuotePair(tail, v[1..], rest);
        assert "\"" + v[1..] == v;
      } else {
        assert Escape(v) + "\"" + rest == [v[0]] + tail;
        ReadBodyChar(v[0], tail, v[1..], rest);
        assert [v[0]] + v[1..] == v;
      }
    }
  }

  function QuoteAll(vs: seq<string>): (qs: seq<string>)
    ensures |qs| == |vs|
    ensures forall i :: 0 <= i < |vs| ==> qs[i] == Quote(vs[i])
  {
    seq(|vs|, i requires 0 <= i < |vs| => Quote(vs[i]))
  }

  function CleanAll(vs: seq<string>): (cs: seq<string>)
    ensures |cs| == |vs|
    ensures forall i :: 0 <= i < |vs| ==> cs[i] == Clean(vs[i])
  {
    seq(|vs|, i requires 0 <= i < |vs| => Clean(vs[i]))
  }

  /** What follows the first cell of a quoted row: nothing, or a comma and the other cells. */
  function RowTail(vs: seq<string>): string
    requires |vs| >= 1
  {
    if |vs| == 1 then "" else "," + Join(QuoteAll(vs[1..]), ",")
  }

  /** A quoted row is the first quoted cell followed by the tail. */
  lemma RowFront(vs: seq<string>)
    requires |vs| >= 1
    ensures Join(QuoteAll(vs), ",") == Quote(vs[0]) + RowTail(vs)
  {
    if |vs| == 1 {
      assert QuoteAll(vs) == [Quote(vs[0])];
    } else {
      assert QuoteAll(vs) == [Quote(vs[0])] + QuoteAll(vs[1..]);
      JoinCons(Quote(vs[0]), QuoteAll(vs[1..]), ",");
    }
  }

  /** A quoted cell is an opening quote, the escaped cleaned value and a closing quote. */
  lemma QuotedCellFront(v: string, tail: string)
    ensures Quote(v) + tail == "\"" + (Escape(Clean(v)) + "\"" + tail)
  {
    EscapeCleanCommute(v);
  }

  lemma ReadRecordOne(body: string, c: string)
    requires ReadBody(body) == Some((c, ""))
    ensures ReadRecord("\"" + body) == Some([c])
  {
    assert ("\"" + body)[1..] == body;
  }

  lemma ReadRecordMore(body: string, c: string, rest: string, cells: seq<string>)
    requires ReadBody(body) == Some((c, "," + rest)) && ReadRecord(rest) == Some(cells)
    ensures ReadRecord("\"" + body) == Some([c] + cells)
  {
    assert ("\"" + body)[1..] == body;
    assert ("," + rest)[1..] == rest;
  }

  /** The first cell of a quoted row reads back, leaving the rest of the row. */
  lemma ReadFirstCell(vs: seq<string>)
    requires |vs| >= 1
    ensures Join(QuoteAll(vs), ",") == "\"" + (Escape(Clean(vs[0])) + "\"" + RowTail(vs))
    ensures ReadBody(Escape(Clean(vs[0])) + "\"" + RowTail(vs)) == Some((Clean(vs[0]), RowTail(vs)))
  {
    RowFront(vs);
    QuotedCellFront(vs[0], RowTail(vs));
    ReadEscaped(Clean(vs[0]), RowTail(vs));
  }

  lemma ReadRowCons(vs: seq<string>)
    requires |vs| >= 2 && ReadRecord(Join(QuoteAll(vs[1..]), ",")) == Some(CleanAll(vs[1..]))
    ensures ReadRecord(Join(QuoteAll(vs), ",")) == Some(CleanAll(vs))
  {
    ReadFirstCell(vs);
    ReadRecordMore(Escape(Clean(vs[0])) + "\"" + RowTail(vs), Clean(vs[0]), Join(QuoteAll(vs[1..]), ","), CleanAll(vs[1..]));
    assert CleanAll(vs) == [Clean(vs[0])] + CleanAll(vs[1..]);
  }

  /** A row of quoted cells reads back as the values with newlines turned into spaces, one per cell. */
  lemma {:induction false} ReadQuotedRow(vs: seq<string>)
    requires |vs| >= 1
    ensures ReadRecord(Join(QuoteAll(vs), ",")) == Some(CleanAll(vs))
    decreases |vs|
  {
    if |vs| == 1 {
      ReadFirstCell(vs);
      ReadRecordOne(Escape(Clean(vs[0])) + "\"" + RowTail(vs), Clean(vs[0]));
      assert CleanAll(vs) == [Clean(vs[0])];
    } else {
      ReadQuotedRow(vs[1..]);
      ReadRowCons(vs);
    }
  }

  /**
   * Every row reads back as exactly one cell per header column, each the
   * column's value with newlines turned into spaces.
   */
  lemma RowCells(ps: seq<Record>, p: Record)
    ensures ReadRecord(RowLine(ps, p)) == Some(CleanAll(Values(p, ContactKeys(ps), Headers(ps))))
    ensures |CleanAll(Values(p, ContactKeys(ps), Headers(ps)))| == |Headers(ps)|
  {
    ReadQuotedRow(Values(p, ContactKeys(ps), Headers(ps)));
  }

  // ---------------------------------------------------------------------------
  // Lines

  predicate Avoids(s: string, c: char) {
    forall i :: 0 <= i < |s| ==> s[i] != c
  }

  lemma {:induction false} JoinAvoids(parts: seq<string>, sep: string, c: char)
    requires Avoids(sep, c)
    requires forall k :: 0 <= k < |parts| ==> Avoids(parts[k], c)
    ensures Avoids(Join(parts, sep), c)
  {
    if |parts| >= 2 {
      JoinAvoids(parts[1..], sep, c);
    }
  }

  lemma QuoteHasNoNewline(v: string)
    ensures Avoids(Quote(v), '\n')
  {
    ReplaceAllRemoves(Escape(v), '\n', " ");
  }

  lemma HeaderHasNoNewline(ps: seq<Record>)
    ensures Avoids(Join(Headers(ps), ","), '\n')
  {
    var hs := Headers(ps);
    forall k | 0 <= k < |hs| ensures Avoids(hs[k], '\n') {
      if k >= |FixedHeaders| {
        NormalizeKeyShape(Dedup(AllKeys(ps))[k - |FixedHeaders|]);
      }
    }
    JoinAvoids(hs, ",", '\n');
  }

  lemma RowHasNoNewline(ps: seq<Record>, p: Record)
    ensures Avoids(RowLine(ps, p), '\n')
  {
    var cs := QuoteAll(Values(p, ContactKeys(ps), Headers(ps)));
    forall j | 0 <= j < |cs| ensures Avoids(cs[j], '\n') {
      QuoteHasNoNewline(Values(p, ContactKeys(ps), Headers(ps))[j]);
    }
    JoinAvoids(cs, ",", '\n');
  }

  /**
   * The download splits at LF into the header line, the 12 fixed names followed
   * by the contact keys joined by commas without quoting, and then one line per
   * record, in record order.
   */
  lemma ExportFraming(ps: seq<Record>)
    requires ps != []
    ensures SplitOn(ExportCsv(ps).text, '\n') == Lines(ps)
    ensures |Lines(ps)| == |ps| + 1
    ensures Lines(ps)[0] == Join(FixedHeaders + ContactKeys(ps), ",")
    ensures forall i :: 0 <= i < |ps| ==> Lines(ps)[i + 1] == RowLine(ps, ps[i])
  {
    LinesAvoidNewline(ps);
    SplitOnJoin(Lines(ps), '\n');
  }

  lemma LinesAvoidNewline(ps: seq<Record>)
    ensures forall k :: 0 <= k < |Lines(ps)| ==> Avoids(Lines(ps)[k], '\n')
  {
    var ls := Lines(ps);
    var rows := RowLines(ps);
    assert ls == [HeaderLine(ps)] + rows;
    forall k | 0 <= k < |ls| ensures Avoids(ls[k], '\n') {
      if k == 0 {
        HeaderHasNoNewline(ps);
      } else {
        assert ls[k] == rows[k - 1];
        RowHasNoNewline(ps, ps[k - 1]);
      }
    }
  }

  // ---------------------------------------------------------------------------
  // The contact keys of the header

  /** Deduplication leaves a list without repeats as it is. */
  lemma {:induction false} DedupDistinct(ks: seq<string>)
    requires Distinct(ks)
    ensures Dedup(ks) == ks
  {
    if ks != [] {
      DedupDistinct(ks[..|ks| - 1]);
      assert ks == ks[..|ks| - 1] + [ks[|ks| - 1]];
    }
  }

  /** Later keys never move earlier ones: the deduplicated prefix is a prefix of the whole. */
  lemma {:induction false} DedupPrefix(a: seq<string>, b: seq<string>)
    ensures |Dedup(a)| <= |Dedup(a + b)| && Dedup(a + b)[..|Dedup(a)|] == Dedup(a)
  {
    if b != [] {
      var b' := b[..|b| - 1];
      DedupPrefix(a, b');
      assert (a + b)[..|a + b| - 1] == a + b';
    } else {
      assert a + b == a;
    }
  }

  /** Stored keys that are already normalized give a header without repeated contact keys. */
  lemma ContactKeysDistinct(ps: seq<Record>)
    requires forall i, k :: 0 <= i < |ps| && k in Keys(ps[i].contactInfo) ==> IsNormalized(k)
    ensures Distinct(ContactKeys(ps))
    ensures forall k :: k in ContactKeys(ps) <==> k in AllKeys(ps)
  {
    var d := Dedup(AllKeys(ps));
    AllKeysNormalized(ps);
    forall i | 0 <= i < |d| ensures NormalizeKey(d[i]) == d[i] {
      assert d[i] in AllKeys(ps);
      NormalizedFixed(d[i]);
    }
    assert ContactKeys(ps) == d;
  }

  lemma {:induction false} AllKeysNormalized(ps: seq<Record>)
    requires forall i, k :: 0 <= i < |ps| && k in Keys(ps[i].contactInfo) ==> IsNormalized(k)
    ensures forall k :: k in AllKeys(ps) ==> IsNormalized(k)
  {
    if ps != [] {
      var init := ps[..|ps| - 1];
      assert forall i :: 0 <= i < |init| ==> init[i] == ps[i];
      AllKeysNormalized(init);
    }
  }

  // ---------------------------------------------------------------------------
  // What a cell holds

  /**
   * A contact column reads the map under its header with `_` replaced by a
   * space. So when no stored key has white space, a header with `_` in it (such
   * as `phone_number`) always exports blank; one without `_` reads its own key.
   */
  lemma ContactCell(p: Record, contactKeys: seq<string>, h: string)
    requires h in contactKeys
    requires Valid(p.contactInfo)
    requires forall k :: k in Keys(p.contactInfo) ==> NoSpace(k)
    ensures '_' in h ==> CellValue(p, contactKeys, h) == ""
    ensures '_' !in h ==> CellValue(p, contactKeys, h) == GetOrEmpty(p.contactInfo, h)
  {
    if '_' in h {
      var i :| 0 <= i < |h| && h[i] == '_';
      LookupHasSpace(h, i);
      assert LookupKey(h) !in Keys(p.contactInfo);
    } else {
      ReplaceAllAbsent(h, '_', " ");
    }
  }

  lemma {:induction false} LookupHasSpace(h: string, i: nat)
    requires i < |h| && h[i] == '_'
    ensures !NoSpace(LookupKey(h))
  {
    if i == 0 {
      ReplaceAllAppend([h[0]], h[1..], '_', " ");
      assert h == [h[0]] + h[1..];
      assert LookupKey(h)[0] == ' ';
    } else {
      LookupHasSpace(h[1..], i - 1);
      ReplaceAllAppend([h[0]], h[1..], '_', " ");
      assert h == [h[0]] + h[1..];
      var j :| 0 <= j < |LookupKey(h[1..])| && IsSpace(LookupKey(h[1..])[j]);
      assert LookupKey(h)[j + 1] == LookupKey(h[1..])[j];
    }
  }

  /**
   * A fixed column reads the record's own field, unless a contact key has the same
   * name: then that column reads the contact map instead.
   */
  lemma FixedCell(p: Record, contactKeys: seq<string>, j: nat)
    requires j < |FixedHeaders|
    ensures FixedHeaders[j] !in contactKeys ==> CellValue(p, contactKeys, FixedHeaders[j]) == Field(p, FixedHeaders[j])
    ensures FixedHeaders[j] in contactKeys ==> CellValue(p, contactKeys, FixedHeaders[j]) == GetOrEmpty(p.contactInfo, FixedHeaders[j])
  {
    ReplaceAllAbsent(FixedHeaders[j], '_', " ");
  }

  /** The position of an upper-case letter in each fixed name that has one. */
  const UpperAt: seq<nat> := [0, 7, 7, 5, 4, 4, 10, 3, 0, 7, 7, 5]

  /** Of the fixed names, only `urn` and `location` have the shape of a normalized contact key. */
  lemma ShadowableColumns(j: nat)
    requires j < |FixedHeaders|
    ensures IsNormalized(FixedHeaders[j]) <==> j == 0 || j == 8
  {
    if j != 0 && j != 8 {
      assert IsUpper(FixedHeaders[j][UpperAt[j]]);
    }
  }
}
