/** The parts of Rust's `str` interface that the modelled code uses. */
module Text {
  import opened Wrappers

  /** Rust's `char::is_whitespace`, the Unicode White_Space property. */
  predicate IsWhitespace(c: char) {
    || '\t' <= c <= '\r' || c == ' ' || c == '\U{85}' || c == '\U{A0}' || c == '\U{1680}'
    || '\U{2000}' <= c <= '\U{200A}' || c == '\U{2028}' || c == '\U{2029}'
    || c == '\U{202F}' || c == '\U{205F}' || c == '\U{3000}'
  }

  function TrimStart(s: string): string {
    if s != "" && IsWhitespace(s[0]) then TrimStart(s[1..]) else s
  }

  function TrimEnd(s: string): string {
    if s != "" && IsWhitespace(Last(s)) then TrimEnd(Init(s)) else s
  }

  function Trim(s: string): string {
    TrimEnd(TrimStart(s))
  }

  predicate StartsWith(s: string, prefix: string) {
    prefix <= s
  }

  predicate IsDigit(c: char) {
    '0' <= c <= '9'
  }

  predicate IsAsciiAlphanumeric(c: char) {
    IsDigit(c) || 'a' <= c <= 'z' || 'A' <= c <= 'Z'
  }

  function Utf8Width(c: char): nat {
    if c < '\U{80}' then 1 else if c < '\U{800}' then 2 else if c < '\U{10000}' then 3 else 4
  }

  /** `str::len`. */
  function Utf8Length(s: string): nat {
    if s == "" then 0 else Utf8Width(s[0]) + Utf8Length(s[1..])
  }

  function DigitsValue(s: string): nat
    requires forall c <- s :: IsDigit(c)
  {
    if s == "" then 0
    else assert IsDigit(Last(s)); 10 * DigitsValue(Init(s)) + (Last(s) - '0') as nat
  }

  /** `str::parse::<usize>` on a 64-bit machine: an optional plus sign and digits. */
  function ParseUsize(s: string): Option<nat> {
    var digits := if s != "" && s[0] == '+' then s[1..] else s;
    if digits == "" || (exists c <- digits :: !IsDigit(c)) then None
    else if DigitsValue(digits) < 0x1_0000_0000_0000_0000 then Some(DigitsValue(digits))
    else None
  }

  /** `str::split_once`: the text before and after the first `c`. */
  function SplitOnce(s: string, c: char): Option<(string, string)> {
    if s == "" then None
    else if s[0] == c then Some(("", s[1..]))
    else match SplitOnce(s[1..], c)
      case None => None
      case Some((left, right)) => Some(([s[0]] + left, right))
  }

  lemma {:induction false} SplitOnceSound(s: string, c: char)
    ensures SplitOnce(s, c).None? <==> c !in s
    ensures SplitOnce(s, c).Some? ==>
      var (left, right) := SplitOnce(s, c).value;
      c !in left && s == left + [c] + right
  {
    if s == "" {
    } else {
      SplitOnceSound(s[1..], c);
      assert s == [s[0]] + s[1..];
    }
  }

  lemma {:induction false} SplitOnceComplete(left: string, c: char, right: string)
    requires c !in left
    ensures SplitOnce(left + [c] + right, c) == Some((left, right))
  {
    var s := left + [c] + right;
    if left == "" {
      assert s[1..] == right;
    } else {
      SplitOnceComplete(left[1..], c, right);
      assert s[0] == left[0] && s[1..] == left[1..] + [c] + right;
      assert [left[0]] + left[1..] == left;
    }
  }

  lemma SplitOnceShortens(s: string, c: char)
    requires SplitOnce(s, c).Some?
    ensures |SplitOnce(s, c).value.1| < |s|
  {
    SplitOnceSound(s, c);
  }

  /** `str::split`: the pieces between occurrences of `c`; never empty. */
  function SplitAll(s: string, c: char): (r: seq<string>)
    ensures r != []
    decreases |s|
  {
    match SplitOnce(s, c)
    case None => [s]
    case Some((left, right)) =>
      SplitOnceShortens(s, c);
      [left] + SplitAll(right, c)
  }

  function Join(parts: seq<string>, c: char): string
    requires parts != []
  {
    if |parts| == 1 then parts[0] else parts[0] + [c] + Join(parts[1..], c)
  }

  lemma {:induction false} JoinSplit(s: string, c: char)
    ensures Join(SplitAll(s, c), c) == s
    ensures forall p <- SplitAll(s, c) :: c !in p
    decreases |s|
  {
    SplitOnceSound(s, c);
    match SplitOnce(s, c)
    case None =>
    case Some((left, right)) =>
      JoinSplit(right, c);
      assert SplitAll(s, c)[1..] == SplitAll(right, c);
  }

  lemma {:induction false} SplitJoin(parts: seq<string>, c: char)
    requires parts != [] && forall p <- parts :: c !in p
    ensures SplitAll(Join(parts, c), c) == parts
    decreases |parts|
  {
    if |parts| == 1 {
      assert parts[0] in parts;
      SplitOnceSound(parts[0], c);
      assert parts == [parts[0]];
    } else {
      assert parts[0] in parts && forall p <- parts[1..] :: p in parts;
      SplitOnceComplete(parts[0], c, Join(parts[1..], c));
      SplitJoin(parts[1..], c);
      assert [parts[0]] + parts[1..] == parts;
    }
  }

  lemma {:induction false} JoinLacks(parts: seq<string>, c: char, d: char)
    requires parts != [] && d != c && forall p <- parts :: d !in p
    ensures d !in Join(parts, c)
  {
    assert parts[0] in parts;
    if |parts| > 1 {
      assert forall p <- parts[1..] :: p in parts;
      JoinLacks(parts[1..], c, d);
    }
  }

  // ---------------------------------------------------------------------------
  // Lines

  /** `str::split_inclusive('\n')`. */
  function Lines(s: string): seq<string>
    decreases |s|
  {
    if s == "" then [] else
    match SplitOnce(s, '\n')
    case None => [s]
    case Some((left, right)) =>
      SplitOnceShortens(s, '\n');
      [left + ['\n']] + Lines(right)
  }

  function Flatten(lines: seq<string>): string {
    if lines == [] then "" else lines[0] + Flatten(lines[1..])
  }

  lemma {:induction false} FlattenLines(s: string)
    ensures Flatten(Lines(s)) == s
    decreases |s|
  {
    if s == "" {
    } else {
      SplitOnceSound(s, '\n');
      match SplitOnce(s, '\n')
      case None =>
        assert Lines(s)[1..] == [];
      case Some((left, right)) =>
        FlattenLines(right);
        assert Lines(s)[1..] == Lines(right);
    }
  }

  lemma {:induction false} FlattenConcat(a: seq<string>, b: seq<string>)
    ensures Flatten(a + b) == Flatten(a) + Flatten(b)
  {
    if a == [] {
      assert a + b == b;
    } else {
      FlattenConcat(a[1..], b);
      assert (a + b)[0] == a[0] && (a + b)[1..] == a[1..] + b;
    }
  }

  /** A complete line: one newline, at its end. */
  predicate IsLine(line: string) {
    line != "" && Last(line) == '\n' && '\n' !in Init(line)
  }

  lemma LinesCons(line: string, rest: string)
    requires IsLine(line)
    ensures Lines(line + rest) == [line] + Lines(rest)
  {
    assert line + rest == Init(line) + ['\n'] + rest;
    assert Init(line) + ['\n'] == line;
    SplitOnceComplete(Init(line), '\n', rest);
  }

  /** Every line but possibly the last is complete. */
  lemma {:induction false} LinesComplete(s: string, k: nat)
    requires k < |Lines(s)|
    ensures k + 1 < |Lines(s)| ==> IsLine(Lines(s)[k])
    ensures Lines(s)[k] != ""
    decreases |s|
  {
    SplitOnceSound(s, '\n');
    match SplitOnce(s, '\n')
    case None =>
    case Some((left, right)) =>
      assert Init(left + ['\n']) == left;
      if k > 0 {
        LinesComplete(right, k - 1);
      }
  }

  /** Reading a list of complete lines gives back those lines. */
  lemma {:induction false} LinesFlatten(lines: seq<string>, rest: string)
    requires forall k :: 0 <= k < |lines| ==> IsLine(lines[k])
    ensures Lines(Flatten(lines) + rest) == lines + Lines(rest)
  {
    if lines == [] {
      assert Flatten(lines) + rest == rest;
    } else {
      LinesFlatten(lines[1..], rest);
      LinesCons(lines[0], Flatten(lines[1..]) + rest);
      assert Flatten(lines) + rest == lines[0] + (Flatten(lines[1..]) + rest);
      assert [lines[0]] + lines[1..] == lines;
    }
  }
}
