/** The in-band menu's line editor (src/ssh/mod.rs), against three references: a parser
    that removes escape sequences from a whole stream, a stack of typed characters, and
    a terminal that plays back what was echoed.
 */
module LineEditor {
  import opened Wrappers

  type Byte = b: int | 0 <= b < 256

  const BACKSPACE: Byte := 0x08
  const DELETE: Byte := 0x7F
  const ESCAPE: Byte := 0x1B
  const OPEN_BRACKET: Byte := 0x5B
  const CR: Byte := 0x0D
  const LF: Byte := 0x0A
  const BLANK: Byte := 0x20

  predicate IsNewline(b: Byte) {
    b == CR || b == LF
  }

  predicate IsErase(b: Byte) {
    b == BACKSPACE || b == DELETE
  }

  predicate IsPrintable(b: Byte) {
    0x20 <= b <= 0x7E
  }

  /** Final bytes of a control sequence, section 5.4 of ECMA-48. */
  predicate IsCsiFinal(b: Byte) {
    0x40 <= b <= 0x7E
  }

  // ---------------------------------------------------------------------------
  // The byte automaton

  datatype EscapeState = Normal | SawEscape | SawCsi

  datatype Action = Ignore | CompleteEscapeSequence | SubmitLine | EraseOne | EchoAndBuffer(b: Byte)

  /** The next escape state and the action, which the source returns through `&mut state`. */
  function MenuInputByteAction(state: EscapeState, b: Byte): (EscapeState, Action) {
    match state
    case Normal =>
      if IsNewline(b) then (Normal, SubmitLine)
      else if IsErase(b) then (Normal, EraseOne)
      else if b == ESCAPE then (SawEscape, Ignore)
      else if IsPrintable(b) then (Normal, EchoAndBuffer(b))
      else (Normal, Ignore)
    case SawEscape =>
      (if b == OPEN_BRACKET then SawCsi else Normal, Ignore)
    case SawCsi =>
      if IsCsiFinal(b) then (Normal, CompleteEscapeSequence) else (SawCsi, Ignore)
  }

  function StateAfter(state: EscapeState, s: seq<Byte>): EscapeState
    decreases |s|
  {
    if s == [] then state else StateAfter(MenuInputByteAction(state, s[0]).0, s[1..])
  }

  // ---------------------------------------------------------------------------
  // References

  /** What follows the first final byte. */
  function AfterFinal(s: seq<Byte>): (r: seq<Byte>)
    ensures |r| <= |s|
  {
    if s == [] then [] else if IsCsiFinal(s[0]) then s[1..] else AfterFinal(s[1..])
  }

  /** A stream without its escape sequences: ESC x, and ESC [ up to a final byte. */
  function StripEscapes(s: seq<Byte>): seq<Byte>
    decreases |s|
  {
    if s == [] then []
    else if s[0] != ESCAPE then [s[0]] + StripEscapes(s[1..])
    else if |s| == 1 then []
    else if s[1] != OPEN_BRACKET then StripEscapes(s[2..])
    else StripEscapes(AfterFinal(s[2..]))
  }

  /** The stack of characters left by typing `s`. */
  function Typed(s: seq<Byte>): seq<Byte> {
    if s == [] then []
    else
      var before := Typed(Init(s));
      if IsErase(Last(s)) then (if before == [] then [] else Init(before))
      else if IsPrintable(Last(s)) then before + [Last(s)]
      else before
  }

  predicate Submits(s: seq<Byte>) {
    exists i :: 0 <= i < |StripEscapes(s)| && IsNewline(StripEscapes(s)[i])
  }

  /** One line of a terminal. */
  datatype Screen = Screen(cells: seq<Byte>, cursor: nat) {
    function Put(b: Byte): Screen {
      if b == BACKSPACE then Screen(cells, if cursor == 0 then 0 else cursor - 1)
      else if b == CR then Screen(cells, 0)
      else if b == LF then Screen(seq(cursor, _ => BLANK), cursor)
      else if !IsPrintable(b) then this
      else if cursor < |cells| then Screen(cells[cursor := b], cursor + 1)
      else Screen(cells + [b], cursor + 1)
    }

    /** The line reads `text` with the cursor behind it. */
    predicate Shows(text: seq<Byte>) {
      && cursor == |text| <= |cells| && cells[..|text|] == text
      && forall i :: |text| <= i < |cells| ==> cells[i] == BLANK
    }
  }

  function Play(output: seq<Byte>): Screen {
    if output == [] then Screen([], 0) else Play(Init(output)).Put(Last(output))
  }

  lemma PlayOne(output: seq<Byte>, b: Byte)
    ensures Play(output + [b]) == Play(output).Put(b)
  {
    assert Init(output + [b]) == output;
  }

  /** Echoing backspace, blank, backspace removes the last character from the display. */
  lemma EraseShows(output: seq<Byte>, text: seq<Byte>)
    requires text != [] && Play(output).Shows(text)
    ensures Play(output + [BACKSPACE, BLANK, BACKSPACE]).Shows(Init(text))
  {
    PlayOne(output, BACKSPACE);
    PlayOne(output + [BACKSPACE], BLANK);
    PlayOne(output + [BACKSPACE] + [BLANK], BACKSPACE);
    assert output + [BACKSPACE, BLANK, BACKSPACE] == output + [BACKSPACE] + [BLANK] + [BACKSPACE];
    var before, after := Play(output).cells, Play(output + [BACKSPACE, BLANK, BACKSPACE]).cells;
    assert after == before[|text| - 1 := BLANK];
    assert before[..|text|][..|text| - 1] == before[..|text| - 1] == after[..|text| - 1];
  }

  lemma EchoShows(output: seq<Byte>, text: seq<Byte>, b: Byte)
    requires IsPrintable(b) && Play(output).Shows(text)
    ensures Play(output + [b]).Shows(text + [b])
  {
    PlayOne(output, b);
    var before, after := Play(output).cells, Play(output + [b]).cells;
    if |text| < |before| {
      assert after == before[|text| := b];
      assert after[..|text| + 1] == before[..|text|] + [b];
    } else {
      assert before == text && after == text + [b];
    }
  }

  lemma NewlineShows(output: seq<Byte>)
    ensures Play(output + [CR, LF]).Shows([])
  {
    PlayOne(output, CR);
    PlayOne(output + [CR], LF);
    assert output + [CR, LF] == output + [CR] + [LF];
  }

  lemma {:induction false} StateSnoc(state: EscapeState, s: seq<Byte>, b: Byte)
    ensures StateAfter(state, s + [b]) == MenuInputByteAction(StateAfter(state, s), b).0
    decreases |s|
  {
    if s == [] {
      assert (s + [b])[1..] == [];
    } else {
      assert (s + [b])[1..] == s[1..] + [b];
      StateSnoc(MenuInputByteAction(state, s[0]).0, s[1..], b);
    }
  }

  predicate HasFinal(s: seq<Byte>) {
    exists i :: 0 <= i < |s| && IsCsiFinal(s[i])
  }

  /** Inside a control sequence: either no final byte has come, or what follows it is ordinary. */
  lemma {:induction false} AfterFinalSnoc(s: seq<Byte>, b: Byte)
    ensures !HasFinal(s) ==> AfterFinal(s + [b]) == [] == AfterFinal(s) && StateAfter(SawCsi, s) == SawCsi
    ensures HasFinal(s) ==> AfterFinal(s + [b]) == AfterFinal(s) + [b]
    ensures HasFinal(s) ==> StateAfter(SawCsi, s) == StateAfter(Normal, AfterFinal(s))
  {
    if s == [] {
      assert (s + [b])[1..] == [];
    } else {
      assert (s + [b])[1..] == s[1..] + [b];
      if !IsCsiFinal(s[0]) {
        AfterFinalSnoc(s[1..], b);
        assert HasFinal(s) ==> HasFinal(s[1..]) by {
          if i :| 0 <= i < |s| && IsCsiFinal(s[i]) {
            assert s[1..][i - 1] == s[i];
          }
        }
        assert HasFinal(s[1..]) ==> HasFinal(s) by {
          if i :| 0 <= i < |s[1..]| && IsCsiFinal(s[1..][i]) {
            assert s[i + 1] == s[1..][i];
          }
        }
      }
    }
  }

  /** One more byte: the automaton keeps it exactly when it is outside escape sequences. */
  lemma {:induction false} StripSnoc(s: seq<Byte>, b: Byte)
    ensures StripEscapes(s + [b])
         == StripEscapes(s) + (if StateAfter(Normal, s) == Normal && b != ESCAPE then [b] else [])
    ensures StateAfter(Normal, s + [b]) == MenuInputByteAction(StateAfter(Normal, s), b).0
    decreases |s|
  {
    var sb := s + [b];
    StateSnoc(Normal, s, b);
    if s == [] {
      assert sb[1..] == [];
    } else if s[0] != ESCAPE {
      StripSnoc(s[1..], b);
      assert sb[1..] == s[1..] + [b];
    } else if |s| == 1 {
      assert sb[2..] == [] && s[1..] == [];
      assert StateAfter(Normal, s) == StateAfter(SawEscape, s[1..]) == SawEscape;
    } else {
      assert sb[2..] == s[2..] + [b];
      assert StateAfter(Normal, s) == StateAfter(SawEscape, s[1..]);
      assert s[1..][1..] == s[2..];
      if s[1] != OPEN_BRACKET {
        StripSnoc(s[2..], b);
        assert StateAfter(SawEscape, s[1..]) == StateAfter(Normal, s[2..]);
      } else {
        assert StateAfter(SawEscape, s[1..]) == StateAfter(SawCsi, s[2..]);
        AfterFinalSnoc(s[2..], b);
        if HasFinal(s[2..]) {
          StripSnoc(AfterFinal(s[2..]), b);
        }
      }
    }
  }

  lemma {:induction false} TypedIsPrintable(s: seq<Byte>)
    ensures forall c <- Typed(s) :: IsPrintable(c)
  {
    if s == [] {
    } else {
      TypedIsPrintable(Init(s));
    }
  }

  lemma TypedSnoc(s: seq<Byte>, b: Byte)
    ensures Typed(s + [b]) ==
      if IsErase(b) then (if Typed(s) == [] then [] else Init(Typed(s)))
      else if IsPrintable(b) then Typed(s) + [b]
      else Typed(s)
  {
    assert Init(s + [b]) == s;
  }

  lemma SubmitsSnoc(s: seq<Byte>, b: Byte)
    ensures Submits(s + [b]) <==> Submits(s) || (StateAfter(Normal, s) == Normal && IsNewline(b))
  {
    StripSnoc(s, b);
    var kept, more := StripEscapes(s), StripEscapes(s + [b]);
    if Submits(s) {
      var i :| 0 <= i < |kept| && IsNewline(kept[i]);
      assert more[i] == kept[i];
    }
    if StateAfter(Normal, s) == Normal && IsNewline(b) {
      assert more[|kept|] == b;
    }
  }

  lemma {:induction false} SubmitsMonotone(s: seq<Byte>, t: seq<Byte>)
    requires Submits(s)
    ensures Submits(s + t)
    decreases |t|
  {
    if t == [] {
      assert s + t == s;
    } else {
      SubmitsSnoc(s, t[0]);
      assert s + t == (s + [t[0]]) + t[1..];
      SubmitsMonotone(s + [t[0]], t[1..]);
    }
  }

  datatype Line = Line(buffer: seq<Byte>, state: EscapeState, submitted: Option<seq<Byte>>)

  /** What one byte makes of buffer and escape state, and the line it submits, if any. */
  function FeedOne(buffer: seq<Byte>, state: EscapeState, b: Byte): Line {
    var (next, action) := MenuInputByteAction(state, b);
    match action
    case SubmitLine => Line([], next, Some(buffer))
    case EraseOne => Line(if buffer == [] then [] else Init(buffer), next, None)
    case EchoAndBuffer(c) => Line(buffer + [c], next, None)
    case _ => Line(buffer, next, None)
  }

  /** The same for a chunk, up to the first submitted line. */
  function Feed(buffer: seq<Byte>, state: EscapeState, data: seq<Byte>): Line
    decreases |data|
  {
    if data == [] then Line(buffer, state, None)
    else
      var one := FeedOne(buffer, state, data[0]);
      if one.submitted.Some? then one else Feed(one.buffer, one.state, data[1..])
  }

  /** One byte fed to what a stream has left is what the longer stream leaves. */
  lemma FeedOneMeans(s: seq<Byte>, b: Byte)
    requires !Submits(s)
    ensures var fed := FeedOne(Typed(StripEscapes(s)), StateAfter(Normal, s), b);
            && fed.state == StateAfter(Normal, s + [b])
            && (fed.submitted.Some? <==> Submits(s + [b]))
            && (fed.submitted.Some? ==> fed.buffer == [] && fed.state == Normal)
            && (fed.submitted.None? ==> fed.buffer == Typed(StripEscapes(s + [b])))
  {
    StripSnoc(s, b);
    SubmitsSnoc(s, b);
    TypedSnoc(StripEscapes(s), b);
    assert StripEscapes(s) + [] == StripEscapes(s);
  }

  // ---------------------------------------------------------------------------
  // The editor of one channel

  class MenuEditor {
    var inputBuffer: seq<Byte>
    var escapeState: EscapeState
    /** Bytes sent back to the client. */
    var echoed: seq<Byte>
    /** Bytes taken from the client since the buffer was last cleared. */
    ghost var received: seq<Byte>

    ghost predicate Valid()
      reads this
    {
      && escapeState == StateAfter(Normal, received)
      && !Submits(received)
      && inputBuffer == Typed(StripEscapes(received))
      && Play(echoed).Shows(inputBuffer)
    }

    constructor ()
      ensures Valid() && received == [] && echoed == []
    {
      inputBuffer, escapeState, echoed, received := [], Normal, [], [];
    }

    method TakeByte(b: Byte) returns (line: Option<seq<Byte>>)
      requires Valid()
      modifies this
      ensures Valid()
      ensures Line(inputBuffer, escapeState, line) == FeedOne(old(inputBuffer), old(escapeState), b)
      ensures line.Some? <==> Submits(old(received) + [b])
      ensures received == if line.Some? then [] else old(received) + [b]
      ensures line.Some? ==> inputBuffer == [] && line.value == old(inputBuffer)
    {
      line := None;
      FeedOneMeans(received, b);
      var (next, action) := MenuInputByteAction(escapeState, b);
      escapeState := next;
      match action {
        case Ignore =>
        case CompleteEscapeSequence =>
        case SubmitLine =>
          NewlineShows(echoed);
          echoed := echoed + [CR, LF];
          line := Some(inputBuffer);
          inputBuffer, received := [], [];
          return;
        case EraseOne =>
          if inputBuffer != [] {
            EraseShows(echoed, inputBuffer);
            inputBuffer := Init(inputBuffer);
            echoed := echoed + [BACKSPACE, BLANK, BACKSPACE];
          }
        case EchoAndBuffer(c) =>
          EchoShows(echoed, inputBuffer, c);
          inputBuffer := inputBuffer + [c];
          echoed := echoed + [c];
      }
      received := received + [b];
    }

    /** Takes one chunk; the chunk's bytes after a submitted line are dropped. */
    method Input(data: seq<Byte>) returns (line: Option<seq<Byte>>)
      requires Valid()
      modifies this
      ensures Valid()
      ensures Line(inputBuffer, escapeState, line) == Feed(old(inputBuffer), old(escapeState), data)
      ensures line.Some? <==> Submits(old(received) + data)
      ensures line.None? ==> received == old(received) + data
      ensures line.Some? ==> received == [] && inputBuffer == []
      ensures line.Some? ==> exists n :: 0 <= n < |data| && SubmitsAt(old(received), data, n, line.value)
    {
      ghost var before := received;
      var i := 0;
      while i < |data|
        invariant 0 <= i <= |data|
        invariant Valid() && received == before + data[..i]
        invariant Feed(inputBuffer, escapeState, data[i..]) == Feed(old(inputBuffer), old(escapeState), data)
      {
        assert data[i..][0] == data[i] && data[i..][1..] == data[i + 1..];
        ChunkNext(before, data, i);
        line := TakeByte(data[i]);
        if line.Some? {
          SubmitsWithin(before, data, i);
          assert SubmitsAt(before, data, i, line.value);
          return;
        }
        i := i + 1;
      }
      assert before + data[..i] == before + data;
      return None;
    }
  }

  lemma ChunkNext(before: seq<Byte>, data: seq<Byte>, i: nat)
    requires i < |data|
    ensures before + data[..i + 1] == before + data[..i] + [data[i]]
  {
  }

  lemma SubmitsWithin(before: seq<Byte>, data: seq<Byte>, i: nat)
    requires i < |data| && Submits(before + data[..i] + [data[i]])
    ensures Submits(before + data)
  {
    SubmitsMonotone(before + data[..i] + [data[i]], data[i + 1..]);
    assert before + data[..i] + [data[i]] + data[i + 1..] == before + data;
  }

  /** The first byte that submits is `data[n]`, and `line` is what was typed before it. */
  ghost predicate SubmitsAt(before: seq<Byte>, data: seq<Byte>, n: nat, line: seq<Byte>)
    requires n < |data|
  {
    var typed := before + data[..n];
    !Submits(typed) && Submits(typed + [data[n]]) && line == Typed(StripEscapes(typed))
  }
}
