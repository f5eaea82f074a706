/**
 * The JavaScript string operations the scraper relies on, over `seq<char>`:
 * `trim`, `toLowerCase`, `split(/\s+/)`, `replace(/\s+/g, c)`, `replace(/x/g, y)`,
 * `includes`, `startsWith`, `join` and the `/[a-z]/i` test.
 */
module Strings {

  /** The characters JavaScript's `\s` and `String.prototype.trim` treat as white space. */
  predicate IsSpace(c: char) {
    c == '\t' || c == '\n' || c == '\U{B}' || c == '\U{C}' || c == '\r' || c == ' '
    || c == '\U{A0}' || c == '\U{1680}' || ('\U{2000}' <= c <= '\U{200A}')
    || c == '\U{2028}' || c == '\U{2029}' || c == '\U{202F}' || c == '\U{205F}'
    || c == '\U{3000}' || c == '\U{FEFF}'
  }

  predicate NoSpace(s: string) {
    forall i :: 0 <= i < |s| ==> !IsSpace(s[i])
  }

  predicate IsUpper(c: char) { 'A' <= c <= 'Z' }

  predicate NoUpper(s: string) {
    forall i :: 0 <= i < |s| ==> !IsUpper(s[i])
  }

  predicate IsAsciiLetter(c: char) { 'a' <= c <= 'z' || 'A' <= c <= 'Z' }

  /** `/[a-z]/i.test(s)`: some character is an ASCII letter. */
  predicate HasAsciiLetter(s: string) {
    exists i :: 0 <= i < |s| && IsAsciiLetter(s[i])
  }

  /** Leading white space removed. */
  function TrimStart(s: string): (r: string)
    ensures |r| <= |s| && r == s[|s| - |r|..]
    ensures r == [] || !IsSpace(r[0])
    ensures forall i :: 0 <= i < |s| - |r| ==> IsSpace(s[i])
  {
    if s == [] || !IsSpace(s[0]) then s else TrimStart(s[1..])
  }

  /** Trailing white space removed. */
  function TrimEnd(s: string): (r: string)
    ensures |r| <= |s| && r == s[..|r|]
    ensures r == [] || !IsSpace(r[|r| - 1])
    ensures forall i :: |r| <= i < |s| ==> IsSpace(s[i])
  {
    if s == [] || !IsSpace(s[|s| - 1]) then s else TrimEnd(s[..|s| - 1])
  }

  /** `s.trim()`. */
  function Trim(s: string): (r: string)
    ensures r == [] || (!IsSpace(r[0]) && !IsSpace(r[|r| - 1]))
  {
    TrimEnd(TrimStart(s))
  }

  function LowerChar(c: char): (d: char)
    ensures !IsUpper(d)
    ensures !IsUpper(c) ==> d == c
    ensures IsSpace(d) <==> IsSpace(c)
  {
    if IsUpper(c) then (c as int + 32) as char else c
  }

  /** `s.toLowerCase()` on the ASCII letters. */
  function ToLower(s: string): (r: string)
    ensures |r| == |s|
    ensures forall i :: 0 <= i < |s| ==> r[i] == LowerChar(s[i])
  {
    if s == [] then [] else [LowerChar(s[0])] + ToLower(s[1..])
  }

  /** `s.replace(/\s+/g, c)`: every maximal run of white space becomes the one character `c`. */
  function ReplaceSpaceRuns(s: string, c: char): (r: string)
    decreases |s|
  {
    if s == [] then []
    else if IsSpace(s[0]) then [c] + ReplaceSpaceRuns(TrimStart(s), c)
    else [s[0]] + ReplaceSpaceRuns(s[1..], c)
  }

  /**
   * `s.split(/\s+/)`: the pieces between maximal runs of white space. A leading
   * or trailing run yields an empty first or last piece, and `""` splits to `[""]`.
   */
  function SplitSpaceRuns(s: string): (parts: seq<string>)
    ensures |parts| >= 1
    ensures forall k :: 0 <= k < |parts| ==> NoSpace(parts[k])
    decreases |s|
  {
    if s == [] then [""]
    else if IsSpace(s[0]) then [""] + SplitSpaceRuns(TrimStart(s))
    else
      var rest := SplitSpaceRuns(s[1..]);
      [[s[0]] + rest[0]] + rest[1..]
  }

  /** `parts.join(sep)`. */
  function Join(parts: seq<string>, sep: string): string {
    if |parts| == 0 then ""
    else if |parts| == 1 then parts[0]
    else parts[0] + sep + Join(parts[1..], sep)
  }

  /** `s.split(c)` on a single-character separator. */
  function SplitOn(s: string, c: char): (parts: seq<string>)
    ensures |parts| >= 1
  {
    if s == [] then [""]
    else if s[0] == c then [""] + SplitOn(s[1..], c)
    else
      var rest := SplitOn(s[1..], c);
      [[s[0]] + rest[0]] + rest[1..]
  }

  /** `s.replace(/c/g, rep)`: every occurrence of the character `c` becomes `rep`. */
  function ReplaceAll(s: string, c: char, rep: string): string {
    if s == [] then []
    else (if s[0] == c then rep else [s[0]]) + ReplaceAll(s[1..], c, rep)
  }

  predicate IsPrefix(p: string, s: string) {
    |p| <= |s| && s[..|p|] == p
  }

  /** `s.includes(sub)`. */
  predicate Contains(s: string, sub: string) {
    IsPrefix(sub, s) || (s != [] && Contains(s[1..], sub))
  }

  /** Decimal notation of `n`, as JavaScript's template literal `${n}` writes it. */
  function NatToString(n: nat): (r: string)
    ensures |r| >= 1
    ensures forall i :: 0 <= i < |r| ==> '0' <= r[i] <= '9'
  {
    if n < 10 then [Digit(n)] else NatToString(n / 10) + [Digit(n % 10)]
  }

  function Digit(d: nat): (c: char)
    requires d < 10
    ensures '0' <= c <= '9'
  {
    "0123456789"[d]
  }

  // ---------------------------------------------------------------------------
  // Facts about these operations

  lemma {:induction false} JoinCons(x: string, rest: seq<string>, sep: string)
    requires |rest| >= 1
    ensures Join([x] + rest, sep) == x + sep + Join(rest, sep)
  {
    assert ([x] + rest)[1..] == rest;
  }

  /** Extending the first piece of a split extends the joined text at the front. */
  lemma {:induction false} JoinGrowFirst(ch: char, parts: seq<string>, sep: string)
    requires |parts| >= 1
    ensures Join([[ch] + parts[0]] + parts[1..], sep) == [ch] + Join(parts, sep)
  {
    if |parts| == 1 {
    } else {
      JoinCons([ch] + parts[0], parts[1..], sep);
      JoinCons(parts[0], parts[1..], sep);
      assert [parts[0]] + parts[1..] == parts;
    }
  }

  /** Splitting on white-space runs and joining with `c` is the same as replacing each run by `c`. */
  lemma {:induction false} JoinSplitIsReplace(s: string, c: char)
    ensures Join(SplitSpaceRuns(s), [c]) == ReplaceSpaceRuns(s, c)
    decreases |s|
  {
    if s == [] {
    } else if IsSpace(s[0]) {
      JoinSplitIsReplace(TrimStart(s), c);
      JoinCons("", SplitSpaceRuns(TrimStart(s)), [c]);
    } else {
      JoinSplitIsReplace(s[1..], c);
      JoinGrowFirst(s[0], SplitSpaceRuns(s[1..]), [c]);
    }
  }

  /** The replacement character is the only thing a run can leave behind. */
  lemma {:induction false} ReplaceSpaceRunsNoSpace(s: string, c: char)
    requires !IsSpace(c)
    ensures NoSpace(ReplaceSpaceRuns(s, c))
    decreases |s|
  {
    if s == [] {
    } else if IsSpace(s[0]) {
      ReplaceSpaceRunsNoSpace(TrimStart(s), c);
    } else {
      ReplaceSpaceRunsNoSpace(s[1..], c);
    }
  }

  lemma {:induction false} ReplaceSpaceRunsNoUpper(s: string, c: char)
    requires NoUpper(s) && !IsUpper(c)
    ensures NoUpper(ReplaceSpaceRuns(s, c))
    decreases |s|
  {
    if s == [] {
    } else if IsSpace(s[0]) {
      var t := TrimStart(s);
      assert forall i :: 0 <= i < |t| ==> t[i] == s[|s| - |t| + i];
      ReplaceSpaceRunsNoUpper(t, c);
    } else {
      ReplaceSpaceRunsNoUpper(s[1..], c);
    }
  }

  /** Text without white space is left alone by the run replacement. */
  lemma {:induction false} ReplaceSpaceRunsIdentity(s: string, c: char)
    requires NoSpace(s)
    ensures ReplaceSpaceRuns(s, c) == s
  {
    if s != [] {
      assert !IsSpace(s[0]);
      ReplaceSpaceRunsIdentity(s[1..], c);
    }
  }

  lemma {:induction false} ToLowerIdentity(s: string)
    requires NoUpper(s)
    ensures ToLower(s) == s
  {
  }

  lemma {:induction false} ToLowerNoSpace(s: string)
    requires NoSpace(s)
    ensures NoSpace(ToLower(s))
  {
  }

  lemma {:induction false} ReplaceAllAppend(a: string, b: string, c: char, rep: string)
    ensures ReplaceAll(a + b, c, rep) == ReplaceAll(a, c, rep) + ReplaceAll(b, c, rep)
  {
    if a == [] {
      assert a + b == b;
    } else {
      assert (a + b)[0] == a[0];
      assert (a + b)[1..] == a[1..] + b;
      ReplaceAllAppend(a[1..], b, c, rep);
    }
  }

  lemma {:induction false} ReplaceAllAbsent(s: string, c: char, rep: string)
    requires forall i :: 0 <= i < |s| ==> s[i] != c
    ensures ReplaceAll(s, c, rep) == s
  {
    if s != [] {
      ReplaceAllAbsent(s[1..], c, rep);
    }
  }

  /** After replacing `c` by a text without `c`, no `c` is left. */
  lemma {:induction false} ReplaceAllRemoves(s: string, c: char, rep: string)
    requires forall i :: 0 <= i < |rep| ==> rep[i] != c
    ensures forall i :: 0 <= i < |ReplaceAll(s, c, rep)| ==> ReplaceAll(s, c, rep)[i] != c
  {
    if s != [] {
      ReplaceAllRemoves(s[1..], c, rep);
      var head := if s[0] == c then rep else [s[0]];
      assert ReplaceAll(s, c, rep) == head + ReplaceAll(s[1..], c, rep);
    }
  }

  /** A piece without separator characters round-trips through join and split. */
  lemma {:induction false} SplitOnJoin(parts: seq<string>, c: char)
    requires |parts| >= 1
    requires forall k, i :: 0 <= k < |parts| && 0 <= i < |parts[k]| ==> parts[k][i] != c
    ensures SplitOn(Join(parts, [c]), c) == parts
    decreases |parts|, |parts[0]|
  {
    var p := parts[0];
    if |parts| == 1 {
      SplitOnNoSeparator(p, c);
    } else if p == [] {
      JoinCons(p, parts[1..], [c]);
      var rest := Join(parts[1..], [c]);
      assert Join(parts, [c]) == [c] + rest;
      assert ([c] + rest)[1..] == rest;
      SplitOnJoin(parts[1..], c);
      assert [""] + parts[1..] == parts;
    } else {
      var shorter := [p[1..]] + parts[1..];
      assert shorter[1..] == parts[1..];
      forall k, i | 0 <= k < |shorter| && 0 <= i < |shorter[k]| ensures shorter[k][i] != c {
        if k == 0 { assert shorter[k][i] == p[i + 1]; } else { assert shorter[k] == parts[k]; }
      }
      SplitOnJoin(shorter, c);
      JoinGrowFirst(p[0], shorter, [c]);
      assert [p[0]] + p[1..] == p;
      assert [[p[0]] + shorter[0]] + shorter[1..] == parts;
      var s := Join(parts, [c]);
      assert s == [p[0]] + Join(shorter, [c]);
      assert s[0] == p[0] && s[1..] == Join(shorter, [c]);
    }
  }

  lemma {:induction false} SplitOnNoSeparator(s: string, c: char)
    requires forall i :: 0 <= i < |s| ==> s[i] != c
    ensures SplitOn(s, c) == [s]
  {
    if s != [] {
      SplitOnNoSeparator(s[1..], c);
      assert [s[0]] + s[1..] == s;
    }
  }

  /** A text without `_` never contains the marker `s_profile`. */
  lemma {:induction false} NoUnderscoreNoMarker(s: string)
    requires forall i :: 0 <= i < |s| ==> s[i] != '_'
    ensures !Contains(s, "s_profile")
  {
    if s != [] {
      if |s| >= 9 {
        assert s[..9][1] == s[1] != "s_profile"[1];
      }
      NoUnderscoreNoMarker(s[1..]);
    } else {
      assert !IsPrefix("s_profile", s);
    }
  }

  /** Text without white space splits into itself alone; any white space gives two or more pieces. */
  lemma {:induction false} SplitSpaceRunsCount(s: string)
    ensures NoSpace(s) ==> SplitSpaceRuns(s) == [s]
    ensures !NoSpace(s) ==> |SplitSpaceRuns(s)| >= 2
    decreases |s|
  {
    if s != [] && !IsSpace(s[0]) {
      SplitSpaceRunsCount(s[1..]);
      if !NoSpace(s) {
        var i :| 0 <= i < |s| && IsSpace(s[i]);
        assert s[1..][i - 1] == s[i];
      } else {
        assert [s[0]] + s[1..] == s;
      }
    }
  }
}
