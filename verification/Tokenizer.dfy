/** The command tokenizer and the SCP classification of src/ssh/mod.rs.

    The source splits a command in one pass over its characters.  The reference
    definition works in two phases: `Unquote` resolves quotes and backslashes into
    glyphs and gaps, and `Words` groups the glyphs between gaps.  The loop is proved
    equal to the composition of the two, and the laws are proved about the phases.
 */
module Tokenizer {
  import opened Wrappers
  import opened Text

  // ---------------------------------------------------------------------------
  // Reference definition

  datatype Quote = Unquoted | InSingle | InDouble

  datatype Item = Glyph(c: char) | Gap

  function After(done: seq<Item>, rest: Option<seq<Item>>): Option<seq<Item>> {
    if rest.Some? then Some(done + rest.value) else None
  }

  /** Glyphs and gaps denoted by `s` when reading starts inside quotation `q`. */
  function Unquote(s: string, q: Quote): Option<seq<Item>> {
    if s == "" then
      if q == Unquoted then Some([]) else None
    else if s[0] == '\'' && q != InDouble then
      Unquote(s[1..], if q == InSingle then Unquoted else InSingle)
    else if s[0] == '"' && q != InSingle then
      Unquote(s[1..], if q == InDouble then Unquoted else InDouble)
    else if s[0] == '\\' && q != InSingle then
      if |s| == 1 then None else After([Glyph(s[1])], Unquote(s[2..], q))
    else if q == Unquoted && IsWhitespace(s[0]) then
      After([Gap], Unquote(s[1..], q))
    else
      After([Glyph(s[0])], Unquote(s[1..], q))
  }

  /** The glyphs after the last gap. */
  function Trail(items: seq<Item>): string {
    if items == [] || Last(items).Gap? then "" else Trail(Init(items)) + [Last(items).c]
  }

  /** The words that a later gap has already closed. */
  function Closed(items: seq<Item>): seq<string>
    decreases |items|, 0
  {
    if items == [] then []
    else if Last(items).Gap? then Words(Init(items))
    else Closed(Init(items))
  }

  function Words(items: seq<Item>): seq<string>
    decreases |items|, 1
  {
    Closed(items) + (if Trail(items) == "" then [] else [Trail(items)])
  }

  function Split(command: string): Option<seq<string>> {
    var items := Unquote(command, Unquoted);
    if items.Some? then Some(Words(items.value)) else None
  }

  // ---------------------------------------------------------------------------
  // The single-pass loop

  function QuoteOf(inSingle: bool, inDouble: bool): Quote {
    if inSingle then InSingle else if inDouble then InDouble else Unquoted
  }

  method ShellLikeSplit(command: string) returns (r: Option<seq<string>>)
    ensures r == Split(command)
  {
    var tokens: seq<string> := [];
    var current := "";
    var inSingle, inDouble := false, false;
    var i := 0;
    ghost var items: seq<Item> := [];
    assert command[0..] == command;
    assert forall x: seq<Item> :: items + x == x;
    while i < |command|
      invariant 0 <= i <= |command|
      invariant !(inSingle && inDouble)
      invariant Unquote(command, Unquoted)
             == After(items, Unquote(command[i..], QuoteOf(inSingle, inDouble)))
      invariant tokens == Closed(items) && current == Trail(items)
    {
      var ch := command[i];
      ghost var rest := command[i..];
      assert rest[0] == ch && rest[1..] == command[i + 1..];
      if ch == '\'' && !inDouble {
        inSingle := !inSingle;
      } else if ch == '"' && !inSingle {
        inDouble := !inDouble;
      } else if ch == '\\' && !inSingle {
        i := i + 1;
        if i == |command| {
          return None;
        }
        assert rest[2..] == command[i + 1..] && rest[1] == command[i];
        current := current + [command[i]];
        items := Extended(items, Glyph(command[i]), Unquote(rest[2..], QuoteOf(inSingle, inDouble)));
      } else if IsWhitespace(ch) && !inSingle && !inDouble {
        items := Extended(items, Gap, Unquote(rest[1..], QuoteOf(inSingle, inDouble)));
        if current != "" {
          tokens := tokens + [current];
          current := "";
        }
      } else {
        current := current + [ch];
        items := Extended(items, Glyph(ch), Unquote(rest[1..], QuoteOf(inSingle, inDouble)));
      }
      i := i + 1;
    }
    assert command[i..] == "";
    ghost var nothing: seq<Item> := [];
    assert items + nothing == items;
    assert Unquote("", QuoteOf(inSingle, inDouble)) == if inSingle || inDouble then None else Some(nothing);
    if inSingle || inDouble {
      return None;
    }
    assert Unquote(command, Unquoted) == Some(items);
    if current != "" {
      tokens := tokens + [current];
    }
    assert tokens == Words(items);
    return Some(tokens);
  }

  /** Moves one item from the front of `rest` to the end of the items already read. */
  ghost function Extended(items: seq<Item>, item: Item, rest: Option<seq<Item>>): (r: seq<Item>)
    ensures r == items + [item] && Init(r) == items && Last(r) == item
    ensures After(items, After([item], rest)) == After(r, rest)
  {
    assert rest.Some? ==> items + ([item] + rest.value) == (items + [item]) + rest.value;
    assert Init(items + [item]) == items;
    items + [item]
  }

  // ---------------------------------------------------------------------------
  // Laws

  lemma AfterAssociates(x: seq<Item>, y: seq<Item>, z: Option<seq<Item>>)
    ensures After(x, After(y, z)) == After(x + y, z)
  {
    if z.Some? {
      assert x + (y + z.value) == (x + y) + z.value;
    }
  }

  lemma {:induction false} UnquoteConcat(a: string, q: Quote, b: string)
    requires Unquote(a, q).Some?
    ensures Unquote(a + b, q) == After(Unquote(a, q).value, Unquote(b, Unquoted))
    decreases |a|
  {
    var ab := a + b;
    if a == "" {
      assert ab == b;
      assert forall x: seq<Item> :: [] + x == x;
    } else {
      assert ab[0] == a[0] && ab[1..] == a[1..] + b;
      if a[0] == '\'' && q != InDouble {
        UnquoteConcat(a[1..], if q == InSingle then Unquoted else InSingle, b);
      } else if a[0] == '"' && q != InSingle {
        UnquoteConcat(a[1..], if q == InDouble then Unquoted else InDouble, b);
      } else if a[0] == '\\' && q != InSingle {
        assert ab[1] == a[1] && ab[2..] == a[2..] + b;
        UnquoteConcat(a[2..], q, b);
        AfterAssociates([Glyph(a[1])], Unquote(a[2..], q).value, Unquote(b, Unquoted));
      } else {
        UnquoteConcat(a[1..], q, b);
        var item := if q == Unquoted && IsWhitespace(a[0]) then Gap else Glyph(a[0]);
        AfterAssociates([item], Unquote(a[1..], q).value, Unquote(b, Unquoted));
      }
    }
  }

  lemma {:induction false} WordsConcat(x: seq<Item>, y: seq<Item>)
    ensures Trail(x + [Gap] + y) == Trail(y)
    ensures Closed(x + [Gap] + y) == Words(x) + Closed(y)
    ensures Words(x + [Gap] + y) == Words(x) + Words(y)
    decreases |y|
  {
    var whole := x + [Gap] + y;
    if y == [] {
      assert whole == x + [Gap] && Init(whole) == x;
    } else {
      WordsConcat(x, Init(y));
      assert Init(whole) == x + [Gap] + Init(y) && Last(whole) == Last(y);
    }
  }

  /** Splitting commutes with concatenation at any whitespace character. */
  lemma SplitConcat(a: string, w: char, b: string)
    requires IsWhitespace(w) && Split(a).Some? && Split(b).Some?
    ensures Split(a + [w] + b) == Some(Split(a).value + Split(b).value)
  {
    var x, y := Unquote(a, Unquoted).value, Unquote(b, Unquoted).value;
    var tail := [w] + b;
    assert tail[0] == w && tail[1..] == b;
    assert Unquote(tail, Unquoted) == Some([Gap] + y);
    UnquoteConcat(a, Unquoted, tail);
    assert a + [w] + b == a + tail;
    assert x + ([Gap] + y) == x + [Gap] + y;
    WordsConcat(x, y);
  }

  /** Lexical mode of a reader that keeps no tokens. */
  datatype Mode = Plain | Single | Double | PlainEscape | DoubleEscape

  function NextMode(m: Mode, c: char): Mode {
    match m
    case Plain => if c == '\'' then Single else if c == '"' then Double
                  else if c == '\\' then PlainEscape else Plain
    case Single => if c == '\'' then Plain else Single
    case Double => if c == '"' then Plain else if c == '\\' then DoubleEscape else Double
    case PlainEscape => Plain
    case DoubleEscape => Double
  }

  function ModeAfter(s: string, m: Mode): Mode {
    if s == "" then m else ModeAfter(s[1..], NextMode(m, s[0]))
  }

  function ModeOf(q: Quote): Mode {
    match q case Unquoted => Plain case InSingle => Single case InDouble => Double
  }

  lemma {:induction false} UnquoteFailsExactly(s: string, q: Quote)
    ensures Unquote(s, q).None? <==> ModeAfter(s, ModeOf(q)) != Plain
    decreases |s|
  {
    if s == "" {
    } else {
      var m := ModeOf(q);
      if s[0] == '\'' && q != InDouble {
        UnquoteFailsExactly(s[1..], if q == InSingle then Unquoted else InSingle);
      } else if s[0] == '"' && q != InSingle {
        UnquoteFailsExactly(s[1..], if q == InDouble then Unquoted else InDouble);
      } else if s[0] == '\\' && q != InSingle {
        if |s| > 1 {
          UnquoteFailsExactly(s[2..], q);
          assert s[1..][0] == s[1] && s[1..][1..] == s[2..];
          assert ModeAfter(s, m) == ModeAfter(s[1..], NextMode(m, s[0]));
        } else {
          assert s[1..] == "";
        }
      } else {
        UnquoteFailsExactly(s[1..], q);
      }
    }
  }

  /** Splitting fails exactly on an open quote or a dangling backslash. */
  lemma SplitFailsExactly(command: string)
    ensures Split(command).None? <==> ModeAfter(command, Plain) != Plain
  {
    UnquoteFailsExactly(command, Unquoted);
  }

  /** Writes a token with a backslash before every character. */
  function Quoted(token: string): string {
    if token == "" then "" else ['\\', token[0]] + Quoted(token[1..])
  }

  function JoinQuoted(tokens: seq<string>): string {
    if tokens == [] then ""
    else if |tokens| == 1 then Quoted(tokens[0])
    else Quoted(tokens[0]) + [' '] + JoinQuoted(tokens[1..])
  }

  function Glyphs(token: string): seq<Item> {
    seq(|token|, i requires 0 <= i < |token| => Glyph(token[i]))
  }

  lemma {:induction false} UnquoteQuoted(token: string)
    ensures Unquote(Quoted(token), Unquoted) == Some(Glyphs(token))
  {
    if token == "" {
      assert Glyphs(token) == [];
    } else {
      var s := Quoted(token);
      UnquoteQuoted(token[1..]);
      assert s[0] == '\\' && s[1] == token[0] && s[2..] == Quoted(token[1..]);
      assert [Glyph(token[0])] + Glyphs(token[1..]) == Glyphs(token);
    }
  }

  lemma {:induction false} GlyphsAreOneWord(token: string)
    ensures Trail(Glyphs(token)) == token && Closed(Glyphs(token)) == []
  {
    if token == "" {
    } else {
      GlyphsAreOneWord(Init(token));
      assert Init(Glyphs(token)) == Glyphs(Init(token));
      assert Init(token) + [Last(token)] == token;
    }
  }

  /** Splitting inverts backslash quoting for every list of nonempty tokens. */
  lemma {:induction false} QuoteRoundTrip(tokens: seq<string>)
    requires forall t <- tokens :: t != ""
    ensures Split(JoinQuoted(tokens)) == Some(tokens)
  {
    if tokens == [] {
      var nothing: seq<Item> := [];
      assert Unquote("", Unquoted) == Some(nothing);
      assert Words(nothing) == [];
    } else {
      UnquoteQuoted(tokens[0]);
      GlyphsAreOneWord(tokens[0]);
      assert Words(Glyphs(tokens[0])) == [tokens[0]] by { assert tokens[0] in tokens; }
      if |tokens| == 1 {
        assert tokens == [tokens[0]];
      } else {
        assert forall t <- tokens[1..] :: t in tokens;
        QuoteRoundTrip(tokens[1..]);
        SplitConcat(Quoted(tokens[0]), ' ', JoinQuoted(tokens[1..]));
        assert [tokens[0]] + tokens[1..] == tokens;
      }
    }
  }

  // ---------------------------------------------------------------------------
  // SCP classification

  datatype ScpMode = Sink | Source

  /** The part of a path after its last slash. */
  function Basename(path: string): string {
    if path == "" || Last(path) == '/' then "" else Basename(Init(path)) + [Last(path)]
  }

  predicate IsFlagToken(token: string) {
    token != "" && token[0] == '-' && token != "-"
  }

  /** The flag characters that precede the first `--`, in order. */
  function FlagText(tokens: seq<string>): string {
    if tokens == [] || tokens[0] == "--" then ""
    else (if IsFlagToken(tokens[0]) then tokens[0][1..] else "") + FlagText(tokens[1..])
  }

  function ModeOfFlag(flag: char): Option<ScpMode> {
    if flag == 't' then Some(Sink) else if flag == 'f' then Some(Source) else None
  }

  function FirstMode(flags: string): Option<ScpMode> {
    if flags == "" then None
    else if ModeOfFlag(flags[0]).Some? then ModeOfFlag(flags[0])
    else FirstMode(flags[1..])
  }

  /** Reference classification: the first `t` or `f` among the flags of an scp command.
      `None` as input stands for bytes that are not UTF-8. */
  function ScpModeOf(data: Option<string>): Option<ScpMode> {
    if data.None? then None else
    var tokens := Split(Trim(data.value));
    if tokens.None? || tokens.value == [] || Basename(tokens.value[0]) != "scp" then None
    else FirstMode(FlagText(tokens.value[1..]))
  }

  lemma FirstModeConcat(a: string, b: string)
    ensures FirstMode(a + b) == if FirstMode(a).Some? then FirstMode(a) else FirstMode(b)
  {
    if a == "" {
      assert a + b == b;
    } else {
      assert (a + b)[0] == a[0] && (a + b)[1..] == a[1..] + b;
    }
  }

  lemma {:induction false} AtLeastOneByteEach(s: string)
    ensures |s| <= Utf8Length(s)
  {
    if s == "" {
    } else {
      AtLeastOneByteEach(s[1..]);
    }
  }

  lemma TwoBytes(token: string)
    requires token != "" && token[0] == '-' && Utf8Length(token) == 2
    ensures |token| == 2
  {
    AtLeastOneByteEach(token[1..]);
  }

  method ClassifyScpExecRequest(data: Option<string>) returns (r: Option<ScpMode>)
    ensures r == ScpModeOf(data)
  {
    if data.None? {
      return None;
    }
    var command := Trim(data.value);
    if command == "" {
      return None;
    }
    var split := ShellLikeSplit(command);
    if split.None? || split.value == [] {
      return None;
    }
    var tokens := split.value;
    if Basename(tokens[0]) != "scp" {
      return None;
    }
    var afterDoubleDash := false;
    var i := 1;
    while i < |tokens|
      invariant 1 <= i <= |tokens|
      invariant FirstMode(FlagText(tokens[1..]))
             == if afterDoubleDash then None else FirstMode(FlagText(tokens[i..]))
    {
      var token := tokens[i];
      ghost var rest := tokens[i..];
      assert rest[0] == token && rest[1..] == tokens[i + 1..];
      i := i + 1;
      if afterDoubleDash {
        break;
      }
      if token == "--" {
        afterDoubleDash := true;
        continue;
      }
      if token == "" || token[0] != '-' || token == "-" {
        assert "" + FlagText(rest[1..]) == FlagText(rest[1..]);
        continue;
      }
      FirstModeConcat(token[1..], FlagText(rest[1..]));
      if Utf8Length(token) == 2 {
        // One-character flag: decided on its second byte alone.
        assert |token| == 2 by { TwoBytes(token); }
        assert token[1..] == [token[1]];
        assert FirstMode(token[1..]) == ModeOfFlag(token[1]) by { assert token[1..][1..] == ""; }
        if token[1] == 't' {
          return Some(Sink);
        } else if token[1] == 'f' {
          return Some(Source);
        }
        continue;
      }
      var j := 1;
      while j < |token|
        invariant 1 <= j <= |token|
        invariant FirstMode(token[1..]) == FirstMode(token[j..])
      {
        assert token[j..][0] == token[j] && token[j..][1..] == token[j + 1..];
        if token[j] == 't' {
          return Some(Sink);
        } else if token[j] == 'f' {
          return Some(Source);
        }
        j := j + 1;
      }
      assert token[j..] == "";
    }
    assert !afterDoubleDash ==> tokens[i..] == [];
    return None;
  }

  predicate DeclaresMode(tokens: seq<string>, i: nat, j: nat) {
    && i < |tokens| && "--" !in tokens[..i + 1]
    && IsFlagToken(tokens[i]) && 1 <= j < |tokens[i]| && ModeOfFlag(tokens[i][j]).Some?
  }

  lemma ModeInText(flags: string)
    ensures FirstMode(flags).Some? <==> exists k :: 0 <= k < |flags| && ModeOfFlag(flags[k]).Some?
  {
    if flags != "" {
      ModeInText(flags[1..]);
      if FirstMode(flags[1..]).Some? {
        var k :| 0 <= k < |flags[1..]| && ModeOfFlag(flags[1..][k]).Some?;
        assert ModeOfFlag(flags[k + 1]).Some?;
      }
      forall k | 0 <= k < |flags| && ModeOfFlag(flags[k]).Some? ensures FirstMode(flags).Some? {
        assert k > 0 ==> flags[1..][k - 1] == flags[k];
      }
    }
  }

  /** A mode is found exactly when some flag token before `--` carries a `t` or an `f`. */
  lemma {:induction false} ModeFoundExactly(tokens: seq<string>)
    ensures FirstMode(FlagText(tokens)).Some? <==> exists i: nat, j: nat :: DeclaresMode(tokens, i, j)
  {
    if tokens == [] {
    } else {
      var head, tail := tokens[0], tokens[1..];
      if head == "--" {
        forall i: nat, j: nat ensures !DeclaresMode(tokens, i, j) {
          assert i < |tokens| ==> tokens[..i + 1][0] == head;
        }
      } else {
        ModeFoundExactly(tail);
        var own := if IsFlagToken(head) then head[1..] else "";
        FirstModeConcat(own, FlagText(tail));
        ModeInText(own);
        if FirstMode(own).Some? {
          var k :| 0 <= k < |own| && ModeOfFlag(own[k]).Some?;
          assert tokens[..1] == [head];
          assert DeclaresMode(tokens, 0, k + 1);
        } else if FirstMode(FlagText(tail)).Some? {
          var i: nat, j: nat :| DeclaresMode(tail, i, j);
          assert tokens[..i + 2] == [head] + tail[..i + 1];
          assert DeclaresMode(tokens, i + 1, j);
        }
        forall i: nat, j: nat | DeclaresMode(tokens, i, j) ensures FirstMode(FlagText(tokens)).Some? {
          if i == 0 {
            assert own[j - 1] == head[j];
          } else {
            assert tokens[..i + 1] == [head] + tail[..i];
            assert DeclaresMode(tail, i - 1, j);
          }
        }
      }
    }
  }
}
