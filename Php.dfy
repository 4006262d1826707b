/**
 * The PHP string semantics the plugin's code depends on: `strtolower`,
 * `empty()`, `strpos`/`stripos`, `substr` with a negative start, `explode`,
 * `trim`, `strip_tags`, `intval` and the decimal form of an integer.
 * PHP strings are byte strings; here they are `string`.
 */
module Php {
  import opened Base

  // ---------------------------------------------------------------- case

  /** `strtolower` since PHP 8.2: only the ASCII letters A-Z change. */
  function LowerChar(c: char): char {
    if 'A' <= c <= 'Z' then (c as int + 32) as char else c
  }

  function Lower(s: string): (r: string)
    ensures |r| == |s|
  {
    seq(|s|, i requires 0 <= i < |s| => LowerChar(s[i]))
  }

  /** Lower-casing twice is lower-casing once. */
  lemma LowerIdempotent(s: string)
    ensures Lower(Lower(s)) == Lower(s)
  {
  }

  // ---------------------------------------------------------------- empty()

  /** `empty($s)` for a string: true for "" and for "0". */
  predicate Empty(s: string) {
    s == "" || s == "0"
  }

  // ---------------------------------------------------------------- strpos

  /** `needle` occurs in `hay` at index `i`. */
  predicate OccursAt(hay: string, needle: string, i: int) {
    0 <= i && i + |needle| <= |hay| && hay[i..i + |needle|] == needle
  }

  /** Reference definition of "substring". */
  ghost predicate IsSubstring(needle: string, hay: string) {
    exists i :: OccursAt(hay, needle, i)
  }

  function FindFrom(hay: string, needle: string, from: nat): Option<nat>
    decreases |hay| - from
  {
    if from + |needle| > |hay| then None
    else if hay[from..from + |needle|] == needle then Some(from)
    else FindFrom(hay, needle, from + 1)
  }

  /** `strpos($hay, $needle)`: the first index of `needle`, `false` (None) if absent; an empty needle is found at 0 (PHP 8). */
  function StrPos(hay: string, needle: string): Option<nat> {
    FindFrom(hay, needle, 0)
  }

  lemma {:induction false} FindFromCorrect(hay: string, needle: string, from: nat)
    ensures FindFrom(hay, needle, from).Some? ==>
              var i := FindFrom(hay, needle, from).value;
              from <= i && OccursAt(hay, needle, i) &&
              forall j :: from <= j < i ==> !OccursAt(hay, needle, j)
    ensures FindFrom(hay, needle, from).None? ==>
              forall j :: from <= j ==> !OccursAt(hay, needle, j)
    decreases |hay| - from
  {
    if from + |needle| > |hay| {
    } else if hay[from..from + |needle|] == needle {
    } else {
      FindFromCorrect(hay, needle, from + 1);
      assert !OccursAt(hay, needle, from);
    }
  }

  /** `strpos` finds the first occurrence, and finds nothing only when there is none. */
  lemma StrPosCorrect(hay: string, needle: string)
    ensures StrPos(hay, needle).Some? ==>
              OccursAt(hay, needle, StrPos(hay, needle).value) &&
              forall j :: 0 <= j < StrPos(hay, needle).value ==> !OccursAt(hay, needle, j)
    ensures StrPos(hay, needle).None? <==> !IsSubstring(needle, hay)
  {
    FindFromCorrect(hay, needle, 0);
  }

  /** `strpos($hay, $needle) !== false`. */
  predicate Contains(hay: string, needle: string) {
    StrPos(hay, needle).Some?
  }

  /** `stripos($hay, $needle) !== false`: ASCII case-insensitive containment. */
  predicate ContainsCaseless(hay: string, needle: string) {
    Contains(Lower(hay), Lower(needle))
  }

  lemma ContainsIsSubstring(hay: string, needle: string)
    ensures Contains(hay, needle) <==> IsSubstring(needle, hay)
  {
    StrPosCorrect(hay, needle);
  }

  /** `strpos($hay, $needle) === 0` holds exactly when `needle` is a prefix of `hay`. */
  lemma StartsAtZeroIsPrefix(hay: string, needle: string)
    ensures StrPos(hay, needle) == Some(0) <==> needle <= hay
  {
    StrPosCorrect(hay, needle);
    if needle <= hay {
      assert OccursAt(hay, needle, 0);
    }
  }

  // ---------------------------------------------------------------- substr

  /** `substr($s, -$n)` for `$n >= 0` (PHP 8): `-0` is `0`, so the whole string; a start before the beginning clamps to 0. */
  function SubstrTail(s: string, n: nat): string {
    if n == 0 || n >= |s| then s else s[|s| - n..]
  }

  /** The `ends_with` test of the rules engine: `substr($text, -strlen($value)) === $value`. */
  predicate EndsWithPhp(text: string, value: string) {
    SubstrTail(text, |value|) == value
  }

  /** For a non-empty value this is "is a suffix"; for the empty value it holds only of the empty text. */
  lemma EndsWithPhpMeaning(text: string, value: string)
    ensures value == [] ==> (EndsWithPhp(text, value) <==> text == [])
    ensures value != [] ==>
              (EndsWithPhp(text, value) <==> |value| <= |text| && text[|text| - |value|..] == value)
  {
  }

  // ---------------------------------------------------------------- explode

  /** `explode($d, $s)` for a one-character delimiter. */
  function Split(s: string, d: char): (parts: seq<string>)
    ensures |parts| >= 1
    decreases |s|
  {
    if |s| == 0 then [""]
    else if s[0] == d then [""] + Split(s[1..], d)
    else
      var rest := Split(s[1..], d);
      [[s[0]] + rest[0]] + rest[1..]
  }

  /** `implode($d, $parts)`. */
  function Join(parts: seq<string>, d: char): string
    requires |parts| >= 1
    decreases |parts|
  {
    if |parts| == 1 then parts[0] else parts[0] + [d] + Join(parts[1..], d)
  }

  /** Splitting loses nothing: joining the parts back gives the string. */
  lemma {:induction false} SplitJoin(s: string, d: char)
    ensures Join(Split(s, d), d) == s
    decreases |s|
  {
    if |s| == 0 {
    } else if s[0] == d {
      SplitJoin(s[1..], d);
      assert Split(s, d)[1..] == Split(s[1..], d);
      assert s == [d] + s[1..];
    } else {
      SplitJoin(s[1..], d);
      JoinPrefix([s[0]], Split(s[1..], d), d);
      assert s == [s[0]] + s[1..];
    }
  }

  /** Prefixing the first part prefixes the joined string. */
  lemma JoinPrefix(a: string, parts: seq<string>, d: char)
    requires |parts| >= 1
    ensures Join([a + parts[0]] + parts[1..], d) == a + Join(parts, d)
  {
    var q := [a + parts[0]] + parts[1..];
    assert q[1..] == parts[1..];
  }

  /** No part holds the delimiter. */
  lemma {:induction false} SplitPartsClean(s: string, d: char)
    ensures forall k :: 0 <= k < |Split(s, d)| ==> d !in Split(s, d)[k]
    decreases |s|
  {
    if |s| > 0 {
      SplitPartsClean(s[1..], d);
      var rest := Split(s[1..], d);
      if s[0] == d {
        assert forall k :: 1 <= k < |Split(s, d)| ==> Split(s, d)[k] == rest[k - 1];
      } else {
        assert forall k :: 1 <= k < |Split(s, d)| ==> Split(s, d)[k] == rest[k];
      }
    }
  }

  /** A string without the delimiter splits into itself. */
  lemma {:induction false} SplitNoDelimiter(s: string, d: char)
    requires d !in s
    ensures Split(s, d) == [s]
    decreases |s|
  {
    if |s| > 0 {
      SplitNoDelimiter(s[1..], d);
      assert [s[0]] + s[1..] == s;
    }
  }

  /** Splitting `a + d + b` with no delimiter in `a` yields `a` followed by the parts of `b`. */
  lemma {:induction false} SplitAtFirst(a: string, d: char, b: string)
    requires d !in a
    ensures Split(a + [d] + b, d) == [a] + Split(b, d)
    decreases |a|
  {
    if |a| == 0 {
      assert a + [d] + b == [d] + b;
      assert ([d] + b)[1..] == b;
    } else {
      SplitAtFirst(a[1..], d, b);
      var s := a + [d] + b;
      assert s[0] == a[0];
      assert s[1..] == a[1..] + [d] + b;
      assert [a[0]] + a[1..] == a;
    }
  }

  // ---------------------------------------------------------------- trim

  /** The characters PHP's `trim` removes by default. */
  predicate TrimSpace(c: char) {
    c == ' ' || c == '\t' || c == '\n' || c == '\r' || c == 0 as char || c == 11 as char
  }

  function TrimLeft(s: string): (r: string)
    ensures |r| <= |s| && r == s[|s| - |r|..]
    ensures r == [] || !TrimSpace(r[0])
    decreases |s|
  {
    if |s| > 0 && TrimSpace(s[0]) then TrimLeft(s[1..]) else s
  }

  function TrimRight(s: string): (r: string)
    ensures |r| <= |s| && r == s[..|r|]
    ensures r == [] || !TrimSpace(r[|r| - 1])
    decreases |s|
  {
    if |s| > 0 && TrimSpace(s[|s| - 1]) then TrimRight(s[..|s| - 1]) else s
  }

  /** `trim($s)`. */
  function Trim(s: string): string {
    TrimRight(TrimLeft(s))
  }

  /** The trimmed string neither starts nor ends with trimmable space. */
  lemma TrimEnds(s: string)
    ensures var t := Trim(s); t == [] || (!TrimSpace(t[0]) && !TrimSpace(t[|t| - 1]))
  {
    var l := TrimLeft(s);
    var t := TrimRight(l);
    if t != [] {
      assert t[0] == l[0];
    }
  }

  // ---------------------------------------------------------------- strip_tags

  /** C's `isspace`: a `<` followed by one of these is text, not a tag. */
  predicate CSpace(c: char) {
    c == ' ' || '\t' <= c <= '\r'
  }

  /** The next character of `s` is whitespace (PHP reads the terminating NUL past the end, which is not). */
  predicate SpaceFollows(s: string) {
    |s| > 0 && CSpace(s[0])
  }

  /** Where `strip_tags` is: in text, or inside a tag with the quote that is open there and the depth of nested `<`. */
  datatype TagState = InText | InTag(quote: Option<char>, depth: nat)

  /**
   * `strip_tags` with no allowed tags, for its text and HTML-tag states:
   * NUL bytes are dropped; a `<` followed by whitespace is text; any other
   * `<` opens a tag, which ends at the `>` that is neither quoted nor closes
   * a nested `<`.
   */
  function StripTagsFrom(s: string, st: TagState): (r: string)
    ensures |r| <= |s|
    ensures 0 as char !in r
    decreases |s|
  {
    if |s| == 0 then []
    else
      var c, rest := s[0], s[1..];
      match st
      case InText =>
        if c == 0 as char then StripTagsFrom(rest, InText)
        else if c == '<' && !SpaceFollows(rest) then StripTagsFrom(rest, InTag(None, 0))
        else [c] + StripTagsFrom(rest, InText)
      case InTag(q, depth) =>
        if c == '<' then
          if q.Some? || SpaceFollows(rest) then StripTagsFrom(rest, st)
          else StripTagsFrom(rest, InTag(q, depth + 1))
        else if c == '>' then
          if depth > 0 then StripTagsFrom(rest, InTag(q, depth - 1))
          else if q.Some? then StripTagsFrom(rest, st)
          else StripTagsFrom(rest, InText)
        else if c == '"' || c == '\'' then
          if q.None? then StripTagsFrom(rest, InTag(Some(c), depth))
          else if q.value == c then StripTagsFrom(rest, InTag(None, depth))
          else StripTagsFrom(rest, st)
        else StripTagsFrom(rest, st)
  }

  function StripTags(s: string): string {
    StripTagsFrom(s, InText)
  }

  /** `s` without its NUL bytes. */
  function DropNul(s: string): (r: string)
    ensures 0 as char !in r
    decreases |s|
  {
    if |s| == 0 then []
    else if s[0] == 0 as char then DropNul(s[1..])
    else [s[0]] + DropNul(s[1..])
  }

  /** Every `<` of `s` is followed by whitespace, so none of them opens a tag. */
  predicate NoTagOpens(s: string) {
    forall i :: 0 <= i < |s| && s[i] == '<' ==> SpaceFollows(s[i + 1..])
  }

  /** Text in which no `<` opens a tag (for instance `1 < 2`) loses exactly its NUL bytes. */
  lemma {:induction false} StripTagsPlainText(s: string)
    requires NoTagOpens(s)
    ensures StripTags(s) == DropNul(s)
    decreases |s|
  {
    if |s| > 0 {
      assert NoTagOpens(s[1..]) by {
        forall i | 0 <= i < |s[1..]| && s[1..][i] == '<'
          ensures SpaceFollows(s[1..][i + 1..])
        {
          assert s[1..][i + 1..] == s[i + 2..];
        }
      }
      StripTagsPlainText(s[1..]);
      assert s[0] == '<' ==> SpaceFollows(s[1..]);
    }
  }

  /** Text that holds neither `<` nor `>` nor a quote. */
  predicate Unmarked(t: string) {
    '<' !in t && '>' !in t && '"' !in t && '\'' !in t
  }

  /** Inside a tag with nothing open, text without markup is skipped up to the closing `>`. */
  lemma {:induction false} StripTagBody(t: string, b: string)
    requires Unmarked(t)
    ensures StripTagsFrom(t + ">" + b, InTag(None, 0)) == StripTags(b)
    decreases |t|
  {
    var s := t + ">" + b;
    if |t| == 0 {
      assert s[1..] == b;
    } else {
      assert s[1..] == t[1..] + ">" + b;
      StripTagBody(t[1..], b);
    }
  }

  /** A tag `<t>` whose name starts right after the `<` is removed, and the text around it is kept. */
  lemma StripTagsDropsTag(a: string, t: string, b: string)
    requires '<' !in a && 0 as char !in a
    requires Unmarked(t) && t != [] && !CSpace(t[0])
    ensures StripTags(a + "<" + t + ">" + b) == a + StripTags(b)
  {
    StripTextPrefix(a, "<" + t + ">" + b);
    var s := "<" + t + ">" + b;
    assert s[1..] == t + ">" + b;
    StripTagBody(t, b);
    assert a + s == a + "<" + t + ">" + b;
  }

  /** Text without `<` and NUL passes through unchanged in front of whatever follows. */
  lemma {:induction false} StripTextPrefix(a: string, s: string)
    requires '<' !in a && 0 as char !in a
    ensures StripTags(a + s) == a + StripTags(s)
    decreases |a|
  {
    if |a| > 0 {
      assert (a + s)[1..] == a[1..] + s;
      StripTextPrefix(a[1..], s);
    } else {
      assert a + s == s;
    }
  }

  // ---------------------------------------------------------------- intval / decimal

  predicate IsDigit(c: char) {
    '0' <= c <= '9'
  }

  function DigitValue(c: char): nat
    requires IsDigit(c)
  {
    c as int - '0' as int
  }

  /** The value of a string of decimal digits. */
  function DigitsValue(ds: string): nat
    requires forall k :: 0 <= k < |ds| ==> IsDigit(ds[k])
    decreases |ds|
  {
    if |ds| == 0 then 0 else DigitsValue(ds[..|ds| - 1]) * 10 + DigitValue(ds[|ds| - 1])
  }

  /** The longest prefix made of digits. */
  function LeadingDigits(s: string): (ds: string)
    ensures ds <= s
    ensures forall k :: 0 <= k < |ds| ==> IsDigit(ds[k])
    ensures |ds| == |s| || !IsDigit(s[|ds|])
    decreases |s|
  {
    if |s| > 0 && IsDigit(s[0]) then [s[0]] + LeadingDigits(s[1..]) else []
  }

  /** The whitespace `intval` skips before a number. */
  predicate LeadingSpace(c: char) {
    c == ' ' || c == '\t' || c == '\n' || c == '\r' || c == 11 as char || c == 12 as char
  }

  function SkipSpace(s: string): string
    decreases |s|
  {
    if |s| > 0 && LeadingSpace(s[0]) then SkipSpace(s[1..]) else s
  }

  /** `intval($s)` for a string: optional leading whitespace and sign, then the leading digits; 0 when there are none. */
  function IntVal(s: string): int {
    var t := SkipSpace(s);
    if |t| > 0 && t[0] == '-' then 0 - DigitsValue(LeadingDigits(t[1..])) as int
    else if |t| > 0 && t[0] == '+' then DigitsValue(LeadingDigits(t[1..]))
    else DigitsValue(LeadingDigits(t))
  }

  function DigitChar(d: nat): (c: char)
    requires d < 10
    ensures IsDigit(c) && DigitValue(c) == d
  {
    ('0' as int + d) as char
  }

  /** The decimal form of a natural number, as PHP prints an integer. */
  function NatToString(n: nat): (s: string)
    ensures |s| >= 1
    ensures forall k :: 0 <= k < |s| ==> IsDigit(s[k])
    decreases n
  {
    if n < 10 then [DigitChar(n)] else NatToString(n / 10) + [DigitChar(n % 10)]
  }

  /** The decimal form of an integer, with a leading `-` when negative. */
  function IntToString(i: int): string {
    if i < 0 then "-" + NatToString(-i) else NatToString(i)
  }

  lemma {:induction false} DigitsOfNatToString(n: nat)
    ensures DigitsValue(NatToString(n)) == n
    decreases n
  {
    if n >= 10 {
      DigitsOfNatToString(n / 10);
      var s := NatToString(n);
      assert s[..|s| - 1] == NatToString(n / 10);
    }
  }

  lemma {:induction false} LeadingDigitsOfDigits(s: string)
    requires forall k :: 0 <= k < |s| ==> IsDigit(s[k])
    ensures LeadingDigits(s) == s
    decreases |s|
  {
    if |s| > 0 {
      LeadingDigitsOfDigits(s[1..]);
    }
  }

  /** Reading back the decimal form gives the number: `intval((string) $n) == $n`. */
  lemma IntValNatToString(n: nat)
    ensures IntVal(NatToString(n)) == n
  {
    var s := NatToString(n);
    assert !LeadingSpace(s[0]);
    assert SkipSpace(s) == s;
    LeadingDigitsOfDigits(s);
    DigitsOfNatToString(n);
  }

  /** Different numbers print differently. */
  lemma NatToStringInjective(m: nat, n: nat)
    requires NatToString(m) == NatToString(n)
    ensures m == n
  {
    IntValNatToString(m);
    IntValNatToString(n);
  }
}
