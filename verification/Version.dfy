/** Release tags and manifest versions, after src/version_support.rs.

    The parser is compared with the grammar of Semantic Versioning 2.0.0 (items 2, 9
    and 10), written as an abstract syntax `Parts` and its rendering.
 */
module Version {
  import opened Wrappers
  import opened Text

  datatype VersionError =
    | TagPrefix
    | BuildMetadata
    | Prerelease
    | NotThreeParts
    | EmptyIdentifier
    | NotNumeric
    | BadCharacter
    | LeadingZero
    | NoPackageVersion

  type Check = Result<(), VersionError>

  // ---------------------------------------------------------------------------
  // Grammar

  predicate AllDigits(s: string) {
    forall c <- s :: IsDigit(c)
  }

  predicate IsNumeric(s: string) {
    s != "" && AllDigits(s) && (s[0] == '0' ==> s == "0")
  }

  predicate IsIdentifier(s: string) {
    s != "" && forall c <- s :: IsAsciiAlphanumeric(c) || c == '-'
  }

  /** Build identifiers may have leading zeros; numeric prerelease identifiers may not. */
  predicate IdentifierAllowed(s: string, forbidLeadingZero: bool) {
    IsIdentifier(s) && (forbidLeadingZero && AllDigits(s) ==> IsNumeric(s))
  }

  predicate AllAllowed(ids: seq<string>, forbidLeadingZero: bool) {
    forall id <- ids :: IdentifierAllowed(id, forbidLeadingZero)
  }

  /** Abstract syntax of a version: three numbers and two optional identifier lists. */
  datatype Parts = Parts(core: seq<string>, pre: Option<seq<string>>, build: Option<seq<string>>) {
    predicate WellFormed() {
      && |core| == 3 && (forall n <- core :: IsNumeric(n))
      && (pre.Some? ==> pre.value != [] && AllAllowed(pre.value, true))
      && (build.Some? ==> build.value != [] && AllAllowed(build.value, false))
    }

    function Render(): string
      requires WellFormed()
    {
      Join(core, '.')
      + (if pre.Some? then ['-'] + Join(pre.value, '.') else "")
      + (if build.Some? then ['+'] + Join(build.value, '.') else "")
    }
  }

  ghost predicate IsSemVer(s: string) {
    exists p: Parts :: p.WellFormed() && p.Render() == s
  }

  // ---------------------------------------------------------------------------
  // The validators

  function ValidateNumericIdentifier(value: string, prerelease: bool): (r: Check)
    ensures r.Ok? <==> IsNumeric(value)
  {
    if value == "" then Err(EmptyIdentifier)
    else if !AllDigits(value) then Err(NotNumeric)
    else if |value| > 1 && value[0] == '0' then Err(LeadingZero)
    else if prerelease && value[0] == '0' && |value| > 1 then Err(LeadingZero)
    else Ok(())
  }

  method ValidateCore(core: string) returns (r: Check)
    ensures r.Ok? <==> |SplitAll(core, '.')| == 3 && forall n <- SplitAll(core, '.') :: IsNumeric(n)
  {
    var parts := SplitAll(core, '.');
    var next := 0;
    for k := 0 to 3
      invariant next == k <= |parts|
      invariant forall i :: 0 <= i < k ==> IsNumeric(parts[i])
    {
      if next == |parts| {
        return Err(NotThreeParts);
      }
      var valid := ValidateNumericIdentifier(parts[next], false);
      if valid.Err? {
        assert parts[next] in parts;
        return valid;
      }
      next := next + 1;
    }
    if next < |parts| {
      return Err(NotThreeParts);
    }
    return Ok(());
  }

  method ValidateIdentifiers(value: string, forbidLeadingZero: bool) returns (r: Check)
    ensures r.Ok? <==> AllAllowed(SplitAll(value, '.'), forbidLeadingZero)
  {
    var idents := SplitAll(value, '.');
    for k := 0 to |idents|
      invariant forall i :: 0 <= i < k ==> IdentifierAllowed(idents[i], forbidLeadingZero)
    {
      var ident := idents[k];
      assert ident in idents;
      if ident == "" {
        assert !IdentifierAllowed(ident, forbidLeadingZero);
        return Err(EmptyIdentifier);
      }
      if exists c <- ident :: !(IsAsciiAlphanumeric(c) || c == '-') {
        assert !IdentifierAllowed(ident, forbidLeadingZero);
        return Err(BadCharacter);
      }
      if forbidLeadingZero && AllDigits(ident) {
        var valid := ValidateNumericIdentifier(ident, true);
        if valid.Err? {
          assert !IdentifierAllowed(ident, forbidLeadingZero);
          return valid;
        }
      }
    }
    return Ok(());
  }

  datatype Pieces = Pieces(core: string, pre: Option<string>, build: Option<string>)

  function SplitVersion(version: string): Result<Pieces, VersionError> {
    var plus := SplitOnce(version, '+');
    if plus.Some? && (plus.value.1 == "" || '+' in plus.value.1) then Err(BuildMetadata) else
    var coreAndPre := if plus.Some? then plus.value.0 else version;
    var build := if plus.Some? then Some(plus.value.1) else None;
    var dash := SplitOnce(coreAndPre, '-');
    if dash.Some? && dash.value.1 == "" then Err(Prerelease)
    else if dash.Some? then Ok(Pieces(dash.value.0, Some(dash.value.1), build))
    else Ok(Pieces(coreAndPre, None, build))
  }

  /** The only decomposition the parser can find. */
  function PartsOf(p: Pieces): Parts {
    Parts(SplitAll(p.core, '.'),
          if p.pre.Some? then Some(SplitAll(p.pre.value, '.')) else None,
          if p.build.Some? then Some(SplitAll(p.build.value, '.')) else None)
  }

  lemma CoreLacks(p: Parts, c: char)
    requires p.WellFormed() && (c == '+' || c == '-')
    ensures c !in Join(p.core, '.')
  {
    JoinLacks(p.core, '.', c);
  }

  lemma IdentifiersLackPlus(ids: seq<string>)
    requires ids != [] && forall id <- ids :: IdentifierAllowed(id, false) || IdentifierAllowed(id, true)
    ensures '+' !in Join(ids, '.') && Join(ids, '.') != ""
    ensures SplitAll(Join(ids, '.'), '.') == ids
  {
    JoinLacks(ids, '.', '+');
    assert ids[0] in ids;
    SplitJoin(ids, '.');
  }

  lemma SplitInvertsRender(p: Parts)
    requires p.WellFormed()
    ensures SplitVersion(p.Render()).Ok?
    ensures PartsOf(SplitVersion(p.Render()).value) == p
  {
    var core := Join(p.core, '.');
    var pre := if p.pre.Some? then ['-'] + Join(p.pre.value, '.') else "";
    CoreLacks(p, '+');
    CoreLacks(p, '-');
    SplitJoin(p.core, '.');
    if p.pre.Some? {
      IdentifiersLackPlus(p.pre.value);
      SplitOnceComplete(core, '-', Join(p.pre.value, '.'));
      assert core + pre == core + ['-'] + Join(p.pre.value, '.');
    } else {
      assert core + pre == core;
      SplitOnceSound(core, '-');
    }
    if p.build.Some? {
      IdentifiersLackPlus(p.build.value);
      SplitOnceComplete(core + pre, '+', Join(p.build.value, '.'));
      assert p.Render() == (core + pre) + ['+'] + Join(p.build.value, '.');
    } else {
      assert p.Render() == core + pre;
      SplitOnceSound(core + pre, '+');
    }
  }

  /** The text that a split was made from. */
  function Rejoin(p: Pieces): string {
    p.core + (if p.pre.Some? then ['-'] + p.pre.value else "")
           + (if p.build.Some? then ['+'] + p.build.value else "")
  }

  lemma Regroup(left: string, c: char, right: string)
    ensures left + ([c] + right) == left + [c] + right
  {
  }

  lemma RejoinInvertsSplit(s: string)
    requires SplitVersion(s).Ok?
    ensures Rejoin(SplitVersion(s).value) == s
  {
    SplitOnceSound(s, '+');
    var plus := SplitOnce(s, '+');
    var coreAndPre := if plus.Some? then plus.value.0 else s;
    SplitOnceSound(coreAndPre, '-');
    var p, dash := SplitVersion(s).value, SplitOnce(coreAndPre, '-');
    var front := p.core + (if p.pre.Some? then ['-'] + p.pre.value else "");
    if dash.Some? {
      assert front == dash.value.0 + (['-'] + dash.value.1);
      Regroup(dash.value.0, '-', dash.value.1);
    } else {
      assert front == coreAndPre + "";
    }
    assert front == coreAndPre;
    if plus.Some? {
      assert Rejoin(p) == coreAndPre + (['+'] + plus.value.1);
      Regroup(coreAndPre, '+', plus.value.1);
    } else {
      assert Rejoin(p) == coreAndPre + "";
    }
  }

  lemma RenderInvertsSplit(s: string)
    requires SplitVersion(s).Ok? && PartsOf(SplitVersion(s).value).WellFormed()
    ensures PartsOf(SplitVersion(s).value).Render() == s
  {
    var pieces := SplitVersion(s).value;
    JoinSplit(pieces.core, '.');
    if pieces.pre.Some? {
      JoinSplit(pieces.pre.value, '.');
    }
    if pieces.build.Some? {
      JoinSplit(pieces.build.value, '.');
    }
    assert PartsOf(pieces).Render() == Rejoin(pieces);
    RejoinInvertsSplit(s);
  }

  /** A string is a semantic version exactly when the parser's decomposition is well formed. */
  lemma ParsesExactly(s: string)
    ensures IsSemVer(s) <==> SplitVersion(s).Ok? && PartsOf(SplitVersion(s).value).WellFormed()
  {
    if IsSemVer(s) {
      var p: Parts :| p.WellFormed() && p.Render() == s;
      SplitInvertsRender(p);
    }
    if SplitVersion(s).Ok? && PartsOf(SplitVersion(s).value).WellFormed() {
      RenderInvertsSplit(s);
    }
  }

  method ValidateSemver(version: string) returns (r: Check)
    ensures r.Ok? <==> IsSemVer(version)
  {
    ParsesExactly(version);
    var split := SplitVersion(version);
    if split.Err? {
      return Err(split.error);
    }
    var pieces := split.value;
    r := ValidateCore(pieces.core);
    if r.Ok? && pieces.pre.Some? {
      r := ValidateIdentifiers(pieces.pre.value, true);
    }
    if r.Ok? && pieces.build.Some? {
      r := ValidateIdentifiers(pieces.build.value, false);
    }
  }

  /** A tag is accepted exactly when it is a `v` or `V` before a semantic version. */
  method NormalizeReleaseTag(tag: string) returns (r: Result<string, VersionError>)
    ensures r.Ok? <==> tag != "" && tag[0] in "vV" && IsSemVer(tag[1..])
    ensures r.Ok? ==> r.value == tag[1..]
  {
    if tag == "" || (tag[0] != 'v' && tag[0] != 'V') {
      return Err(TagPrefix);
    }
    var valid := ValidateSemver(tag[1..]);
    return if valid.Ok? then Ok(tag[1..]) else Err(valid.error);
  }

  // ---------------------------------------------------------------------------
  // Parsing inverts rendering

  /** A version has one decomposition. */
  lemma DecompositionUnique(p: Parts, q: Parts)
    requires p.WellFormed() && q.WellFormed() && p.Render() == q.Render()
    ensures p == q
  {
    SplitInvertsRender(p);
    SplitInvertsRender(q);
  }

  // ---------------------------------------------------------------------------
  // Manifest rewriting

  const VERSION_KEY := "version = "

  function TrimLineEnd(line: string): string {
    if line != "" && (Last(line) == '\r' || Last(line) == '\n') then TrimLineEnd(Init(line)) else line
  }

  /** `Some(b)` when the line is a section header; `b` says whether it opens `[package]`. */
  function Header(line: string): Option<bool> {
    var section := Trim(TrimLineEnd(line));
    if section != "" && section[0] == '[' && Last(section) == ']' then Some(section == "[package]")
    else None
  }

  /** Whether the last header among the first `n` lines opens the package section. */
  predicate InPackage(lines: seq<string>, n: nat)
    requires n <= |lines|
  {
    n > 0 && (if Header(lines[n - 1]).Some? then Header(lines[n - 1]).value
              else InPackage(lines, n - 1))
  }

  predicate IsVersionLine(lines: seq<string>, k: nat) {
    k < |lines| && InPackage(lines, k + 1) && StartsWith(TrimLineEnd(lines[k]), VERSION_KEY)
  }

  predicate NoVersionLineBefore(lines: seq<string>, k: nat) {
    forall i: nat :: i < k ==> !IsVersionLine(lines, i)
  }

  predicate IsFirstVersionLine(lines: seq<string>, k: nat) {
    IsVersionLine(lines, k) && NoVersionLineBefore(lines, k)
  }

  function VersionLine(version: string): string {
    VERSION_KEY + "\"" + version + "\"\n"
  }

  /** The relation that `RewriteManifestVersion` computes. */
  ghost predicate Rewrites(contents: string, version: string, output: string) {
    exists k: nat :: IsFirstVersionLine(Lines(contents), k)
                  && output == Flatten(Lines(contents)[k := VersionLine(version)])
  }

  ghost predicate IsReplacedAt(lines: seq<string>, k: nat, version: string, written: seq<string>) {
    IsFirstVersionLine(lines, k) && written == lines[k := VersionLine(version)]
  }

  lemma SingleLine(line: string)
    ensures Flatten([line]) == line
  {
    assert [line][1..] == [];
  }

  lemma FlattenNext(lines: seq<string>, i: nat)
    requires i < |lines|
    ensures Flatten(lines[..i + 1]) == Flatten(lines[..i]) + lines[i]
  {
    assert lines[..i + 1] == lines[..i] + [lines[i]];
    FlattenConcat(lines[..i], [lines[i]]);
    SingleLine(lines[i]);
  }

  /** After `i` lines: what has been written, and whether and where the version line came. */
  ghost predicate Progress(lines: seq<string>, i: nat, version: string, replaced: bool, at: nat,
                           written: seq<string>, output: string)
  {
    && i <= |lines| == |written| && output == Flatten(written[..i])
    && (if replaced then at < i && IsReplacedAt(lines, at, version, written)
        else written == lines && NoVersionLineBefore(lines, i))
  }

  lemma ProgressReplaces(lines: seq<string>, i: nat, version: string, at: nat, output: string)
    requires i < |lines| && Progress(lines, i, version, false, at, lines, output) && IsVersionLine(lines, i)
    ensures Progress(lines, i + 1, version, true, i, lines[i := VersionLine(version)], output + VersionLine(version))
  {
    var written := lines[i := VersionLine(version)];
    assert written[..i] == lines[..i];
    FlattenNext(written, i);
  }

  lemma ProgressCopies(lines: seq<string>, i: nat, version: string, replaced: bool, at: nat,
                       written: seq<string>, output: string)
    requires i < |lines| && Progress(lines, i, version, replaced, at, written, output)
    requires !replaced ==> !IsVersionLine(lines, i)
    ensures Progress(lines, i + 1, version, replaced, at, written, output + lines[i])
  {
    FlattenNext(written, i);
  }

  method RewriteManifestVersion(contents: string, version: string)
    returns (r: Result<string, VersionError>)
    ensures r.Err? ==> NoVersionLineBefore(Lines(contents), |Lines(contents)|)
    ensures r.Ok? ==> Rewrites(contents, version, r.value)
  {
    var output := "";
    var inPackage, replaced := false, false;
    var lines := Lines(contents);
    ghost var written, at := lines, 0;
    var i := 0;
    while i < |lines|
      invariant 0 <= i <= |lines|
      invariant inPackage == InPackage(lines, i)
      invariant Progress(lines, i, version, replaced, at, written, output)
    {
      var line := lines[i];
      var header := Header(line);
      if header.Some? {
        inPackage := header.value;
      }
      if inPackage && !replaced && StartsWith(TrimLineEnd(line), VERSION_KEY) {
        ProgressReplaces(lines, i, version, at, output);
        written, at := lines[i := VersionLine(version)], i;
        output := output + VersionLine(version);
        replaced := true;
      } else {
        ProgressCopies(lines, i, version, replaced, at, written, output);
        output := output + line;
      }
      i := i + 1;
    }
    assert written[..i] == written;
    return if replaced then Ok(output) else Err(NoPackageVersion);
  }

  lemma TrimKeepsHead(s: string)
    requires s != "" && !IsWhitespace(s[0])
    ensures TrimEnd(s) != "" && TrimEnd(s)[0] == s[0]
    ensures TrimLineEnd(s) != "" && TrimLineEnd(s)[0] == s[0]
  {
    if |s| > 1 {
      TrimKeepsHead(Init(s));
    }
  }

  /** A line that starts with the version key keeps it after trimming and is no header. */
  lemma VersionKeyLine(rest: string)
    ensures StartsWith(TrimLineEnd(VERSION_KEY + rest), VERSION_KEY)
    ensures Header(VERSION_KEY + rest).None?
    decreases |rest|
  {
    var line := VERSION_KEY + rest;
    if rest == "" {
      assert line == VERSION_KEY;
    } else {
      VersionKeyLine(Init(rest));
      assert Init(line) == VERSION_KEY + Init(rest);
    }
    TrimKeepsHead(line);
    var trimmed := TrimLineEnd(line);
    assert trimmed[0] == 'v' && TrimStart(trimmed) == trimmed;
    TrimKeepsHead(trimmed);
  }

  lemma {:induction false} InPackagePrefix(a: seq<string>, b: seq<string>, n: nat)
    requires n <= |a| && n <= |b| && a[..n] == b[..n]
    ensures InPackage(a, n) == InPackage(b, n)
  {
    if n == 0 {
    } else {
      assert a[n - 1] == a[..n][n - 1] == b[n - 1];
      assert a[..n - 1] == a[..n][..n - 1] == b[..n - 1];
      InPackagePrefix(a, b, n - 1);
    }
  }

  /** Replacing the first version line by another line with the version key keeps it first. */
  lemma FirstVersionLineStays(a: seq<string>, b: seq<string>, k: nat, rest: string)
    requires IsFirstVersionLine(a, k)
    requires k < |b| && b[..k] == a[..k] && b[k] == VERSION_KEY + rest
    requires Header(a[k]).None?
    ensures IsFirstVersionLine(b, k)
  {
    VersionKeyLine(rest);
    InPackagePrefix(a, b, k);
    forall i: nat | i < k ensures !IsVersionLine(b, i) {
      assert a[..i + 1] == a[..k][..i + 1] == b[..i + 1];
      assert a[i] == a[..i + 1][i] == b[i];
      InPackagePrefix(a, b, i + 1);
      assert !IsVersionLine(a, i);
    }
  }

  lemma FirstVersionLineUnique(lines: seq<string>, j: nat, k: nat)
    requires IsFirstVersionLine(lines, j) && IsFirstVersionLine(lines, k)
    ensures j == k
  {
  }

  lemma VersionLineIsNoHeader(lines: seq<string>, k: nat)
    requires IsVersionLine(lines, k)
    ensures Header(lines[k]).None?
  {
    var trimmed := TrimLineEnd(lines[k]);
    assert trimmed[0] == VERSION_KEY[0];
    TrimKeepsHead(trimmed);
    assert TrimStart(trimmed) == trimmed;
  }

  lemma FirstLineStays(lines: seq<string>, block: seq<string>, k: nat)
    requires IsFirstVersionLine(lines, k) && Header(lines[k]).None?
    requires block != [] && VERSION_KEY <= block[0]
    ensures IsFirstVersionLine(lines[..k] + block + lines[k + 1..], k)
  {
    var after := lines[..k] + block + lines[k + 1..];
    assert after[..k] == lines[..k] && after[k] == block[0];
    FirstVersionLineStays(lines, after, k, block[0][|VERSION_KEY|..]);
  }

  lemma Gather(a: seq<string>, b: seq<string>, c: seq<string>)
    ensures a + (b + c) == a + b + c
  {
  }

  lemma FlattenAround(lines: seq<string>, line: string, k: nat)
    requires k < |lines|
    ensures Flatten(lines[k := line]) == Flatten(lines[..k]) + (line + Flatten(lines[k + 1..]))
  {
    var head, tail := lines[..k], lines[k + 1..];
    assert lines[k := line] == head + ([line] + tail);
    FlattenConcat(head, [line] + tail);
    assert ([line] + tail)[1..] == tail;
  }

  lemma {:induction false} LinesTail(s: string, k: nat)
    requires k <= |Lines(s)|
    ensures Lines(Flatten(Lines(s)[k..])) == Lines(s)[k..]
    decreases |s|
  {
    if k == 0 {
      FlattenLines(s);
    } else {
      match SplitOnce(s, '\n')
      case None =>
        assert Lines(s)[k..] == [];
      case Some((left, right)) =>
        SplitOnceShortens(s, '\n');
        LinesTail(right, k - 1);
        assert Lines(s)[k..] == Lines(right)[k - 1..];
    }
  }

  /** Text that ends in a newline contributes whole lines. */
  lemma {:induction false} LinesOfTerminated(s: string, rest: string)
    requires s != "" && Last(s) == '\n'
    ensures Lines(s + rest) == Lines(s) + Lines(rest)
    decreases |s|
  {
    SplitOnceSound(s, '\n');
    var (left, right) := SplitOnce(s, '\n').value;
    SplitOnceComplete(left, '\n', right + rest);
    assert s + rest == left + ['\n'] + (right + rest);
    if right == "" {
      assert right + rest == rest;
    } else {
      assert Last(right) == Last(s);
      LinesOfTerminated(right, rest);
      assert [left + ['\n']] + (Lines(right) + Lines(rest)) == Lines(s) + Lines(rest);
    }
  }

  /** Replacing a line by terminated text replaces it by the lines of that text. */
  lemma LinesAroundReplaced(contents: string, line: string, k: nat)
    requires k < |Lines(contents)| && line != "" && Last(line) == '\n'
    requires forall i: nat :: i < k ==> IsLine(Lines(contents)[i])
    ensures var lines := Lines(contents);
            Lines(Flatten(lines[k := line])) == lines[..k] + Lines(line) + lines[k + 1..]
  {
    var lines := Lines(contents);
    var head, tail := lines[..k], lines[k + 1..];
    var text := line + Flatten(tail);
    FlattenAround(lines, line, k);
    assert Lines(text) == Lines(line) + tail by {
      LinesTail(contents, k + 1);
      LinesOfTerminated(line, Flatten(tail));
    }
    LinesFlatten(head, text);
    Gather(head, Lines(line), tail);
  }

  lemma VersionLineLines(version: string)
    ensures var lines := Lines(VersionLine(version));
            && lines != [] && VERSION_KEY <= lines[0]
            && ('\n' !in version ==> lines == [VersionLine(version)])
            && ('\n' in version ==> |lines| > 1)
  {
    var line := VersionLine(version);
    SplitOnceSound(version, '\n');
    match SplitOnce(version, '\n')
    case None =>
      assert '\n' !in VERSION_KEY + "\"" + version + "\"";
      assert Init(line) == VERSION_KEY + "\"" + version + "\"";
      LinesCons(line, "");
      assert line + "" == line && Lines(line) == [line] + Lines("");
    case Some((left, right)) =>
      var first := VERSION_KEY + "\"" + left + ['\n'];
      assert Init(first) == VERSION_KEY + "\"" + left;
      assert '\n' !in VERSION_KEY + "\"" + left;
      LinesCons(first, right + "\"\n");
      assert line == first + (right + "\"\n");
      FlattenLines(right + "\"\n");
      assert VERSION_KEY == first[..|VERSION_KEY|];
  }

  /** The lines of a rewritten manifest. */
  lemma RewrittenLines(contents: string, version: string, output: string, k: nat)
    requires IsFirstVersionLine(Lines(contents), k)
    requires output == Flatten(Lines(contents)[k := VersionLine(version)])
    ensures var lines := Lines(contents);
            Lines(output) == lines[..k] + Lines(VersionLine(version)) + lines[k + 1..]
    ensures IsFirstVersionLine(Lines(output), k)
    ensures '\n' !in version ==> Lines(VersionLine(version)) == [VersionLine(version)]
    ensures '\n' in version ==> |Lines(VersionLine(version))| > 1
  {
    var lines, line := Lines(contents), VersionLine(version);
    forall i: nat | i < k ensures IsLine(lines[i]) {
      LinesComplete(contents, i);
    }
    LinesAroundReplaced(contents, line, k);
    VersionLineLines(version);
    VersionLineIsNoHeader(lines, k);
    FirstLineStays(lines, Lines(line), k);
  }

  lemma Splice(lines: seq<string>, k: nat, line: string)
    requires k < |lines|
    ensures lines[..k] + [line] + lines[k + 1..] == lines[k := line]
  {
  }

  /** For a newline-free version, rewriting changes exactly one line of the manifest. */
  lemma RewriteChangesOneLine(contents: string, version: string, output: string)
    requires '\n' !in version && Rewrites(contents, version, output)
    ensures exists k: nat :: IsFirstVersionLine(Lines(contents), k)
                          && Lines(output) == Lines(contents)[k := VersionLine(version)]
  {
    var k: nat :| IsFirstVersionLine(Lines(contents), k)
               && output == Flatten(Lines(contents)[k := VersionLine(version)]);
    RewrittenLines(contents, version, output, k);
    Splice(Lines(contents), k, VersionLine(version));
  }

  /** The rewritten line is determined by the manifest. */
  lemma RewriteAt(contents: string, version: string, output: string, k: nat)
    requires IsFirstVersionLine(Lines(contents), k) && Rewrites(contents, version, output)
    ensures output == Flatten(Lines(contents)[k := VersionLine(version)])
  {
    var j: nat :| IsFirstVersionLine(Lines(contents), j)
               && output == Flatten(Lines(contents)[j := VersionLine(version)]);
    FirstVersionLineUnique(Lines(contents), j, k);
  }

  /** What is left of `written` after its first line is replaced stays in the text. */
  lemma ReplacedText(head: seq<string>, line: string, written: seq<string>, tail: seq<string>)
    requires written != []
    ensures Flatten(head + [line] + (written[1..] + tail)) == Flatten(head + [line] + tail)
       <==> Flatten(written[1..]) == ""
  {
    FlattenConcat(head + [line], tail);
    FlattenConcat(head + [line], written[1..] + tail);
    FlattenConcat(written[1..], tail);
    var a, b, c := Flatten(head + [line]), Flatten(written[1..]), Flatten(tail);
    if b == "" {
      assert b + c == c;
    } else {
      assert |a + (b + c)| > |a + c|;
    }
  }

  lemma RewrittenOverWritten(lines: seq<string>, k: nat, line: string, written: seq<string>)
    requires k < |lines| && written != []
    ensures var over := lines[..k] + written + lines[k + 1..];
            Flatten(over[k := line]) == Flatten(lines[k := line]) <==> Flatten(written[1..]) == ""
  {
    var over := lines[..k] + written + lines[k + 1..];
    ReplacedText(lines[..k], line, written, lines[k + 1..]);
    assert lines[k := line] == lines[..k] + [line] + lines[k + 1..];
    assert over[k := line] == lines[..k] + [line] + (written[1..] + lines[k + 1..]);
  }

  /** The last write wins exactly when the first written version has no newline. */
  lemma LastWriteWinsExactly(contents: string, v: string, w: string,
                             once: string, twice: string, direct: string)
    requires Rewrites(contents, v, once) && Rewrites(once, w, twice) && Rewrites(contents, w, direct)
    ensures twice == direct <==> '\n' !in v
  {
    var lines := Lines(contents);
    var k: nat :| IsFirstVersionLine(lines, k) && once == Flatten(lines[k := VersionLine(v)]);
    RewrittenLines(contents, v, once, k);
    RewriteAt(once, w, twice, k);
    RewriteAt(contents, w, direct, k);
    var first, written := VersionLine(w), Lines(VersionLine(v));
    RewrittenOverWritten(lines, k, first, written);
    if '\n' in v {
      LinesComplete(VersionLine(v), 1);
      assert written[1..][0] == written[1];
    } else {
      assert written[1..] == [];
    }
  }
}
