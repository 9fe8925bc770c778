/** Splitting a PEM file into its sections (sections 2 and 3 of RFC 7468). */
module PemSections {
  import opened Sequences

  // ---------------------------------------------------------------------------
  // Markers
  // ---------------------------------------------------------------------------

  datatype Marker = Begin(name: string) | End(name: string) | NoMarker

  const BEGIN := "-----BEGIN "
  const END := "-----END "
  const DASHES := "-----"

  predicate EndsWith(s: string, t: string) { |t| <= |s| && s[|s| - |t|..] == t }

  /** The two ends of a marker do not overlap, as the front ends in a space. */
  lemma Parts(line: string, front: string)
    requires front <= line && EndsWith(line, DASHES) && front != "" && front[|front| - 1] == ' '
    ensures |front| + 5 <= |line| && line == front + line[|front|..|line| - 5] + DASHES
  {
    var n := |line| - 5;
    assert line[|front| - 1] == ' ' && forall k :: n <= k < |line| ==> line[k] == line[n..][k - n] == '-';
    assert line == line[..|front|] + line[|front|..n] + line[n..];
  }

  /** `_is_pem_section_marker`. */
  function MarkerOf(line: string): (m: Marker)
    ensures m.Begin? ==> line == BEGIN + m.name + DASHES
    ensures m.End? ==> line == END + m.name + DASHES
  {
    if BEGIN <= line && EndsWith(line, DASHES) then
      Parts(line, BEGIN);
      Begin(line[11..|line| - 5])
    else if END <= line && EndsWith(line, DASHES) then
      Parts(line, END);
      End(line[9..|line| - 5])
    else NoMarker
  }

  /** Exactly the lines "-----BEGIN name-----" and "-----END name-----" are markers. */
  lemma MarkerExact(line: string, name: string)
    ensures MarkerOf(line) == Begin(name) <==> line == BEGIN + name + DASHES
    ensures MarkerOf(line) == End(name) <==> line == END + name + DASHES
  {
    if line == BEGIN + name + DASHES {
      assert line[|line| - 5..] == DASHES && line[11..|line| - 5] == name && line[..11] == BEGIN;
    }
    if line == END + name + DASHES {
      assert line[|line| - 5..] == DASHES && line[9..|line| - 5] == name && line[..9] == END;
      assert line[5] == 'E' && BEGIN[5] == 'B';
    }
  }

  /** A line with the marker it is. */
  datatype Line = Line(text: string, marker: Marker)

  function Marked(text: string): Line { Line(text, MarkerOf(text)) }

  // ---------------------------------------------------------------------------
  // Lines
  // ---------------------------------------------------------------------------

  /** The characters `splitlines` breaks at. */
  predicate IsLineBreak(c: char) {
    '\n' <= c <= '\r' || '\U{001C}' <= c <= '\U{001E}' || c == '\U{0085}' || c == '\U{2028}' || c == '\U{2029}'
  }

  /** The characters `strip` removes. */
  predicate IsSpace(c: char) {
    || IsLineBreak(c) || c == '\t' || c == ' ' || c == '\U{001F}' || c == '\U{00A0}' || c == '\U{1680}'
    || '\U{2000}' <= c <= '\U{200A}' || c == '\U{202F}' || c == '\U{205F}' || c == '\U{3000}'
  }

  /** The index of the first line break, or the length. */
  function FirstBreak(s: string): (k: nat)
    ensures k <= |s| && (forall i :: 0 <= i < k ==> !IsLineBreak(s[i])) && (k < |s| ==> IsLineBreak(s[k]))
  {
    if s == "" || IsLineBreak(s[0]) then 0 else 1 + FirstBreak(s[1..])
  }

  /** The lines of a text; a pair of break characters leaves an empty line, which is dropped later. */
  function RawLines(s: string): seq<string>
    decreases |s|
  {
    if s == "" then []
    else
      var k := FirstBreak(s);
      if k == |s| then [s] else [s[..k]] + RawLines(s[k + 1..])
  }

  function Strip(s: string): (t: string)
    ensures t == "" || (!IsSpace(t[0]) && !IsSpace(t[|t| - 1]))
  {
    if s == "" then s
    else if IsSpace(s[0]) then Strip(s[1..])
    else if IsSpace(s[|s| - 1]) then Strip(s[..|s| - 1])
    else s
  }

  lemma {:induction false} StripUnbroken(s: string)
    requires forall i :: 0 <= i < |s| ==> !IsLineBreak(s[i])
    ensures forall i :: 0 <= i < |Strip(s)| ==> !IsLineBreak(Strip(s)[i])
  {
    if s != "" && IsSpace(s[0]) {
      StripUnbroken(s[1..]);
    } else if s != "" && IsSpace(s[|s| - 1]) {
      StripUnbroken(s[..|s| - 1]);
    }
  }

  /** The lines that are looked at: stripped, and not empty. */
  function Stripped(raw: seq<string>): seq<Line> {
    if raw == [] then []
    else
      var text := Strip(raw[0]);
      (if text == "" then [] else [Marked(text)]) + Stripped(raw[1..])
  }

  function Lines(contents: string): seq<Line> { Stripped(RawLines(contents)) }

  predicate IsClean(l: Line) {
    l.text != "" && Strip(l.text) == l.text && l.marker == MarkerOf(l.text) &&
    forall i :: 0 <= i < |l.text| ==> !IsLineBreak(l.text[i])
  }

  predicate AllClean(ls: seq<Line>) { forall i :: 0 <= i < |ls| ==> IsClean(ls[i]) }

  function Join(ls: seq<Line>): string {
    if ls == [] then "" else ls[0].text + "\n" + Join(ls[1..])
  }

  predicate Unbroken(raw: seq<string>) {
    forall i, j :: 0 <= i < |raw| && 0 <= j < |raw[i]| ==> !IsLineBreak(raw[i][j])
  }

  lemma StripAgain(s: string)
    ensures Strip(Strip(s)) == Strip(s)
  {
  }

  lemma {:induction false} StrippedClean(raw: seq<string>)
    requires Unbroken(raw)
    ensures AllClean(Stripped(raw))
  {
    if raw != [] {
      StripUnbroken(raw[0]);
      StripAgain(raw[0]);
      StrippedClean(raw[1..]);
    }
  }

  lemma {:induction false} RawLinesUnbroken(s: string)
    ensures Unbroken(RawLines(s))
    decreases |s|
  {
    if s != "" {
      var k := FirstBreak(s);
      if k < |s| { RawLinesUnbroken(s[k + 1..]); }
    }
  }

  lemma LinesClean(contents: string)
    ensures AllClean(Lines(contents))
  {
    RawLinesUnbroken(contents);
    StrippedClean(RawLines(contents));
  }

  lemma LinesCons(l: Line, rest: string)
    requires IsClean(l)
    ensures Lines(l.text + "\n" + rest) == [l] + Lines(rest)
  {
    var s := l.text + "\n" + rest;
    var n := |l.text|;
    assert forall i :: 0 <= i < n ==> s[i] == l.text[i];
    assert s[n] == '\n';
    assert FirstBreak(s) == n;
    assert s[..n] == l.text && s[n + 1..] == rest;
    StrippedCons(l.text, RawLines(rest));
  }

  lemma StrippedCons(text: string, raw: seq<string>)
    requires text != "" && Strip(text) == text
    ensures Stripped([text] + raw) == [Marked(text)] + Stripped(raw)
  {
    assert ([text] + raw)[1..] == raw;
  }

  lemma ConsCat<T>(a: seq<T>, b: seq<T>)
    requires a != []
    ensures [a[0]] + (a[1..] + b) == a + b
  {
  }

  /** Clean lines that are written out are read back unchanged. */
  lemma {:induction false} LinesOfJoin(ls: seq<Line>, rest: string)
    requires AllClean(ls)
    ensures Lines(Join(ls) + rest) == ls + Lines(rest)
  {
    if ls == [] {
      assert Join(ls) + rest == rest;
    } else {
      LinesOfJoin(ls[1..], rest);
      CatAssoc(ls[0].text + "\n", Join(ls[1..]), rest);
      LinesCons(ls[0], Join(ls[1..]) + rest);
      ConsCat(ls, Lines(rest));
    }
  }

  function Texts(ls: seq<Line>): seq<string> {
    if ls == [] then [] else [ls[0].text] + Texts(ls[1..])
  }

  /** Written out, each line is followed by a newline, and no other line break is put in. */
  lemma {:induction false} JoinExact(ls: seq<Line>)
    requires AllClean(ls)
    ensures RawLines(Join(ls)) == Texts(ls)
    ensures forall i :: 0 <= i < |Join(ls)| && IsLineBreak(Join(ls)[i]) ==> Join(ls)[i] == '\n'
    ensures ls != [] ==> Join(ls)[|Join(ls)| - 1] == '\n'
  {
    if ls != [] {
      JoinExact(ls[1..]);
      assert IsClean(ls[0]);
      RawCons(ls[0].text, Join(ls[1..]));
    }
  }

  lemma RawCons(text: string, rest: string)
    requires forall i :: 0 <= i < |text| ==> !IsLineBreak(text[i])
    ensures RawLines(text + "\n" + rest) == [text] + RawLines(rest)
  {
    var s := text + "\n" + rest;
    assert forall i :: 0 <= i < |text| ==> s[i] == text[i];
    assert s[|text|] == '\n' && FirstBreak(s) == |text|;
    assert s[..|text|] == text && s[|text| + 1..] == rest;
  }

  // ---------------------------------------------------------------------------
  // Which stretches of a text its lines are
  // ---------------------------------------------------------------------------

  /** These are the pieces of the text from `from` on: each ends at a line break or with the text, and what
      is between them is one break character each, up to the end. */
  predicate PiecesFrom(s: string, from: nat, raw: seq<string>)
    decreases |raw|
  {
    if raw == [] then from >= |s|
    else IsPiece(s, from, raw[0]) && PiecesFrom(s, from + |raw[0]| + 1, raw[1..])
  }

  predicate IsPiece(s: string, from: nat, piece: string) {
    var to := from + |piece|;
    && from < |s| && to <= |s| && piece == s[from..to]
    && (to < |s| ==> IsLineBreak(s[to])) && forall i :: from <= i < to ==> !IsLineBreak(s[i])
  }

  /** The same, by what is left of the text. */
  predicate CutsInto(rest: string, raw: seq<string>)
    decreases |raw|
  {
    if raw == [] then rest == ""
    else if raw[0] == rest then rest != "" && raw[1..] == [] && NoBreak(rest)
    else CutsAt(rest, raw[0]) && CutsInto(rest[|raw[0]| + 1..], raw[1..])
  }

  predicate NoBreak(piece: string) { forall i :: 0 <= i < |piece| ==> !IsLineBreak(piece[i]) }

  predicate CutsAt(rest: string, piece: string) {
    |piece| < |rest| && piece == rest[..|piece|] && IsLineBreak(rest[|piece|]) && NoBreak(piece)
  }

  lemma {:induction false} RawLinesCut(rest: string)
    ensures CutsInto(rest, RawLines(rest))
    decreases |rest|
  {
    if rest != "" {
      var k := FirstBreak(rest);
      if k < |rest| {
        RawLinesCut(rest[k + 1..]);
        CutsCons(rest, rest[..k], RawLines(rest[k + 1..]));
      }
    }
  }

  lemma CutsCons(rest: string, piece: string, later: seq<string>)
    requires CutsAt(rest, piece) && CutsInto(rest[|piece| + 1..], later)
    ensures CutsInto(rest, [piece] + later)
  {
    assert ([piece] + later)[1..] == later;
  }

  lemma {:induction false} CutPieces(s: string, from: nat, rest: string, raw: seq<string>)
    requires from <= |s| && rest == s[from..] && CutsInto(rest, raw)
    ensures PiecesFrom(s, from, raw)
    decreases |raw|
  {
    if raw != [] {
      FirstPiece(s, from, rest, raw[0]);
      if raw[0] != rest { CutPieces(s, from + |raw[0]| + 1, rest[|raw[0]| + 1..], raw[1..]); }
    }
  }

  lemma FirstPiece(s: string, from: nat, rest: string, piece: string)
    requires from <= |s| && rest == s[from..] && (CutsAt(rest, piece) || (piece == rest != "" && NoBreak(rest)))
    ensures IsPiece(s, from, piece) && (piece != rest ==> rest[|piece| + 1..] == s[from + |piece| + 1..])
  {
    assert forall i :: from <= i < |s| ==> s[i] == rest[i - from];
  }

  /** Nothing of a text is lost when it is cut into pieces, also not a last one without line break. */
  lemma RawLinesExact(s: string)
    ensures PiecesFrom(s, 0, RawLines(s))
  {
    RawLinesCut(s);
    CutPieces(s, 0, s, RawLines(s));
  }

  /** No line break in the stretch, and no space at either end. */
  predicate Solid(s: string, a: int, b: int) {
    0 <= a < b <= |s| && !IsSpace(s[a]) && !IsSpace(s[b - 1]) && forall i :: a <= i < b ==> !IsLineBreak(s[i])
  }

  /** The stretch is such, and as long as can be. */
  ghost predicate IsStretch(s: string, a: int, b: int) {
    Solid(s, a, b) && forall a', b' :: a' <= a && b <= b' && Solid(s, a', b') ==> a' == a && b' == b
  }

  /** These are all such stretches from `from` on, in order, and the lines are what stands there. */
  ghost predicate Stretches(s: string, from: nat, spans: seq<(nat, nat)>, ls: seq<Line>)
    decreases |ls|
  {
    if ls == [] then spans == [] && forall a, b :: IsStretch(s, a, b) ==> a < from
    else
      && spans != []
      && var (a, b) := spans[0];
         && from <= a && IsStretch(s, a, b) && ls[0] == Marked(s[a..b])
         && (forall a', b' :: IsStretch(s, a', b') && from <= a' < b ==> a' == a && b' == b)
         && Stretches(s, b, spans[1..], ls[1..])
  }

  predicate Spaces(s: string, from: nat, to: nat) {
    forall k :: from <= k < to && k < |s| ==> IsSpace(s[k])
  }

  /** Stripping a piece takes away a front and a back that consist of spaces, and nothing else. */
  lemma {:induction false} StripExact(s: string, from: nat, to: nat, i: nat, j: nat)
    requires from <= i <= j <= to <= |s| && Spaces(s, from, i) && Spaces(s, j, to)
    requires i < j ==> !IsSpace(s[i]) && !IsSpace(s[j - 1])
    ensures Strip(s[from..to]) == s[i..j]
    decreases |s[from..to]|
  {
    StripOnce(s, from, to);
    if from < i {
      StripExact(s, from + 1, to, i, j);
    } else if i < j < to {
      StripExact(s, from, to - 1, i, j);
    } else if j < to {
      StripExact(s, from + 1, to, from + 1, from + 1);
    }
  }

  /** Every piece has such a front and back. */
  lemma StripBounds(s: string, from: nat, to: nat) returns (i: nat, j: nat)
    requires from <= to <= |s|
    ensures from <= i <= j <= to && Spaces(s, from, i) && Spaces(s, j, to)
    ensures i < j ==> !IsSpace(s[i]) && !IsSpace(s[j - 1])
  {
    i, j := from, to;
    while i < to && IsSpace(s[i])
      invariant from <= i <= to && Spaces(s, from, i)
    {
      i := i + 1;
    }
    while i < j && IsSpace(s[j - 1])
      invariant i <= j <= to && Spaces(s, j, to)
    {
      j := j - 1;
    }
  }

  lemma StripOnce(s: string, from: nat, to: nat)
    requires from <= to <= |s|
    ensures Strip(s[from..to]) ==
            if from < to && IsSpace(s[from]) then Strip(s[from + 1..to])
            else if from < to && IsSpace(s[to - 1]) then Strip(s[from..to - 1])
            else s[from..to]
  {
    var piece := s[from..to];
    if from < to {
      assert piece[1..] == s[from + 1..to] && piece[..|piece| - 1] == s[from..to - 1];
    }
  }

  /** A piece has at most one such stretch: what is left of it when it is stripped. */
  lemma PieceStretch(s: string, from: nat, piece: string) returns (i: nat, j: nat)
    requires IsPiece(s, from, piece) && (from > 0 ==> IsLineBreak(s[from - 1]))
    ensures from <= i <= j <= from + |piece| && Strip(piece) == s[i..j] && (i < j ==> IsStretch(s, i, j))
    ensures forall a, b :: IsStretch(s, a, b) && from <= a <= from + |piece| ==> i < j && a == i && b == j
  {
    var to := from + |piece|;
    i, j := StripBounds(s, from, to);
    StripExact(s, from, to, i, j);
    StretchIs(s, from, to, i, j);
  }

  lemma StretchIs(s: string, from: nat, to: nat, i: nat, j: nat)
    requires from <= i <= j <= to <= |s|
    requires (from == 0 || IsLineBreak(s[from - 1])) && (to == |s| || IsLineBreak(s[to]))
    requires forall k :: from <= k < to ==> !IsLineBreak(s[k]) && (!(i <= k < j) ==> IsSpace(s[k]))
    requires i < j ==> !IsSpace(s[i]) && !IsSpace(s[j - 1])
    ensures i < j ==> IsStretch(s, i, j)
    ensures forall a, b :: IsStretch(s, a, b) && from <= a <= to ==> i < j && a == i && b == j
  {
    forall a, b | Solid(s, a, b) && a <= to && from < b
      ensures i <= a && b <= j && i < j
    {
      assert to < |s| ==> IsLineBreak(s[to]);
      assert from > 0 ==> IsLineBreak(s[from - 1]);
    }
    forall a, b | IsStretch(s, a, b) && from <= a <= to
      ensures i < j && a == i && b == j
    {
      assert Solid(s, i, j);
    }
  }

  /** Where no stretch starts, none is missed. */
  lemma StretchesEarlier(s: string, from: nat, mid: nat, spans: seq<(nat, nat)>, ls: seq<Line>)
    requires from <= mid && Stretches(s, mid, spans, ls)
    requires forall a, b :: IsStretch(s, a, b) && from <= a ==> mid <= a
    ensures Stretches(s, from, spans, ls)
  {
  }

  lemma StretchesCons(s: string, from: nat, a: nat, b: nat, spans: seq<(nat, nat)>, ls: seq<Line>)
    requires from <= a && IsStretch(s, a, b) && Stretches(s, b, spans, ls)
    requires forall a', b' :: IsStretch(s, a', b') && from <= a' < b ==> a' == a && b' == b
    ensures Stretches(s, from, [(a, b)] + spans, [Marked(s[a..b])] + ls)
  {
    assert ([(a, b)] + spans)[1..] == spans && ([Marked(s[a..b])] + ls)[1..] == ls;
  }

  /** A piece adds its stretch. */
  lemma StretchesAdd(s: string, from: nat, to: nat, i: nat, j: nat, later: seq<(nat, nat)>, ls: seq<Line>)
    requires from <= i < j <= to && IsStretch(s, i, j) && Stretches(s, to + 1, later, ls)
    requires forall a, b :: IsStretch(s, a, b) && from <= a <= to ==> a == i && b == j
    ensures Stretches(s, from, [(i, j)] + later, [Marked(s[i..j])] + ls)
  {
    StretchesEarlier(s, j, to + 1, later, ls);
    StretchesCons(s, from, i, j, later, ls);
  }

  lemma StrippedHead(raw: seq<string>, text: string)
    requires raw != [] && text == Strip(raw[0])
    ensures text == "" ==> Stripped(raw) == Stripped(raw[1..])
    ensures text != "" ==> Stripped(raw) == [Marked(text)] + Stripped(raw[1..])
  {
  }

  /** The lines of a text are exactly its maximal stretches without line break that neither begin nor end
      with a space. */
  lemma {:induction false} LinesExact(s: string, from: nat, raw: seq<string>) returns (spans: seq<(nat, nat)>, ls: seq<Line>)
    requires PiecesFrom(s, from, raw) && (0 < from <= |s| ==> IsLineBreak(s[from - 1]))
    ensures ls == Stripped(raw) && Stretches(s, from, spans, ls)
    decreases |raw|
  {
    spans, ls := [], [];
    if raw != [] {
      var to := from + |raw[0]|;
      var i, j := PieceStretch(s, from, raw[0]);
      spans, ls := LinesExact(s, to + 1, raw[1..]);
      StrippedHead(raw, s[i..j]);
      if i < j {
        StretchesAdd(s, from, to, i, j, spans, ls);
        spans, ls := [(i, j)] + spans, [Marked(s[i..j])] + ls;
      } else {
        StretchesEarlier(s, from, to + 1, spans, ls);
      }
    }
  }

  // ---------------------------------------------------------------------------
  // The loop
  // ---------------------------------------------------------------------------

  /** The loop's variables; no open section is the empty name, as both are false in Python. */
  datatype State = State(result: map<string, string>, lines: seq<Line>, name: string)

  function Step(st: State, line: Line): State {
    var m := line.marker;
    var name := if m.Begin? then m.name else if m.End? && st.name != m.name then "" else st.name;
    var lines := if m.Begin? then [] else st.lines;
    if name == "" then State(st.result, lines, name)
    else if m.End? then State(st.result[name := Join(lines + [line])], lines + [line], "")
    else State(st.result, lines + [line], name)
  }

  function Fold(st: State, ls: seq<Line>): State
    decreases |ls|
  {
    if ls == [] then st else Step(Fold(st, ls[..|ls| - 1]), ls[|ls| - 1])
  }

  lemma FoldSnoc(st: State, ls: seq<Line>, line: Line)
    ensures Fold(st, ls + [line]) == Step(Fold(st, ls), line)
  {
    assert (ls + [line])[..|ls|] == ls;
  }

  const START := State(map[], [], "")

  function Split(contents: string): map<string, string> { Fold(START, Lines(contents)).result }

  /** `_split_pem_into_sections`, without its warnings. */
  method SplitPemIntoSections(contents: string) returns (result: map<string, string>)
    ensures result == Split(contents)
  {
    var raw := RawLines(contents);
    var pemLines, name, i := [], "", 0;
    result := map[];
    while i < |raw|
      invariant i <= |raw| && Fold(START, Stripped(raw[..i])) == State(result, pemLines, name)
    {
      var line := Strip(raw[i]);
      LoopStep(raw, i);
      i := i + 1;
      if line == "" { continue; }
      result, pemLines, name := ProcessLine(Line(line, MarkerOf(line)), result, pemLines, name);
    }
    assert raw[..|raw|] == raw;
  }

  lemma LoopStep(raw: seq<string>, i: nat)
    requires i < |raw|
    ensures
      var st, text := Fold(START, Stripped(raw[..i])), Strip(raw[i]);
      Fold(START, Stripped(raw[..i + 1])) == if text == "" then st else Step(st, Marked(text))
  {
    var before := Stripped(raw[..i]);
    assert raw[..i + 1] == raw[..i] + [raw[i]];
    StrippedSnoc(raw[..i], raw[i]);
    assert before + [] == before;
    FoldSnoc(START, before, Marked(Strip(raw[i])));
  }

  /** The loop's body, for a line that is not empty. */
  method ProcessLine(line: Line, was: map<string, string>, lines: seq<Line>, section: string)
    returns (result: map<string, string>, pemLines: seq<Line>, name: string)
    ensures State(result, pemLines, name) == Step(State(was, lines, section), line)
  {
    result, pemLines, name := was, lines, section;
    var marker := line.marker;
    if marker.Begin? {
      name, pemLines := marker.name, [];
    } else if marker.End? {
      if name != "" && name != marker.name { name := ""; }
    }
    if name != "" {
      pemLines := pemLines + [line];
      if marker.End? {
        result := result[name := Join(pemLines)];
        name := "";
      }
    }
  }

  lemma {:induction false} StrippedSnoc(raw: seq<string>, s: string)
    ensures Stripped(raw + [s]) == Stripped(raw) + if Strip(s) == "" then [] else [Marked(Strip(s))]
  {
    if raw == [] {
      assert (raw + [s])[1..] == [];
    } else {
      assert (raw + [s])[1..] == raw[1..] + [s];
      StrippedSnoc(raw[1..], s);
    }
  }

  // ---------------------------------------------------------------------------
  // What the result means
  // ---------------------------------------------------------------------------

  /** Lines i to j are a complete section: BEGIN n, no markers, END n. */
  predicate IsBlock(ls: seq<Line>, i: int, j: int, n: string) {
    && 0 <= i < j < |ls| && n != ""
    && ls[i].marker == Begin(n) && ls[j].marker == End(n)
    && forall k :: i < k < j ==> ls[k].marker == NoMarker
  }

  /** From line i on there is BEGIN n and no marker yet. */
  predicate IsOpen(ls: seq<Line>, i: int, n: string) {
    && 0 <= i < |ls| && n != "" && ls[i].marker == Begin(n)
    && forall k :: i < k < |ls| ==> ls[k].marker == NoMarker
  }

  /** n's last section is lines i to j. */
  ghost predicate IsLastBlock(ls: seq<Line>, i: int, j: int, n: string) {
    IsBlock(ls, i, j, n) && forall i', j' :: IsBlock(ls, i', j', n) ==> j' <= j
  }

  ghost predicate OpenOk(ls: seq<Line>, st: State) {
    if st.name == "" then forall i, n :: !IsOpen(ls, i, n)
    else exists i :: IsOpen(ls, i, st.name) && st.lines == ls[i..]
  }

  ghost predicate ResultOk(ls: seq<Line>, result: map<string, string>) {
    && (forall n, i, j :: IsBlock(ls, i, j, n) ==> n in result)
    && (forall n :: n in result ==> exists i, j :: IsLastBlock(ls, i, j, n) && result[n] == Join(ls[i..j + 1]))
  }

  /** A block of a longer text is an earlier block, or ends with the last line and was open before. */
  lemma BlockSnoc(ls: seq<Line>, line: Line, i: int, j: int, n: string)
    ensures
      IsBlock(ls + [line], i, j, n) <==>
      IsBlock(ls, i, j, n) || (j == |ls| && IsOpen(ls, i, n) && line.marker == End(n))
  {
    var all := ls + [line];
    assert forall k :: 0 <= k < |ls| ==> all[k] == ls[k];
    assert all[|ls|] == line;
  }

  lemma OpenSnoc(ls: seq<Line>, line: Line, i: int, n: string)
    ensures
      IsOpen(ls + [line], i, n) <==>
      (i == |ls| && n != "" && line.marker == Begin(n)) || (IsOpen(ls, i, n) && line.marker == NoMarker)
  {
    var all := ls + [line];
    assert forall k :: 0 <= k < |ls| ==> all[k] == ls[k];
    assert all[|ls|] == line;
  }

  lemma OpenUnique(ls: seq<Line>, i: int, n: string, i': int, n': string)
    requires IsOpen(ls, i, n) && IsOpen(ls, i', n')
    ensures i == i' && n == n'
  {
  }

  lemma OpenStep(ls: seq<Line>, line: Line, st: State)
    requires OpenOk(ls, st)
    ensures OpenOk(ls + [line], Step(st, line))
  {
    var st' := Step(st, line);
    forall i, n ensures IsOpen(ls + [line], i, n) <==>
      (i == |ls| && n != "" && line.marker == Begin(n)) || (IsOpen(ls, i, n) && line.marker == NoMarker)
    {
      OpenSnoc(ls, line, i, n);
    }
    if st'.name != "" {
      if line.marker.Begin? {
        assert (ls + [line])[|ls|..] == [line];
        assert IsOpen(ls + [line], |ls|, st'.name);
      } else {
        var i :| IsOpen(ls, i, st.name) && st.lines == ls[i..];
        assert (ls + [line])[i..] == ls[i..] + [line];
        assert IsOpen(ls + [line], i, st'.name);
      }
    }
  }

  lemma ResultStep(ls: seq<Line>, line: Line, st: State)
    requires OpenOk(ls, st) && ResultOk(ls, st.result)
    ensures ResultOk(ls + [line], Step(st, line).result)
  {
    var all, result := ls + [line], Step(st, line).result;
    forall n | n in result
      ensures exists i, j :: IsLastBlock(all, i, j, n) && result[n] == Join(all[i..j + 1])
    {
      EntryStep(ls, line, st, n);
    }
    forall n, i, j | IsBlock(all, i, j, n) ensures n in result {
      BlockSnoc(ls, line, i, j, n);
      if !IsBlock(ls, i, j, n) { OpenIsName(ls, st, i, n); }
    }
  }

  lemma EntryStep(ls: seq<Line>, line: Line, st: State, n: string)
    requires OpenOk(ls, st) && ResultOk(ls, st.result) && n in Step(st, line).result
    ensures
      var all := ls + [line];
      exists i, j :: IsLastBlock(all, i, j, n) && Step(st, line).result[n] == Join(all[i..j + 1])
  {
    if line.marker == End(n) && st.name == n {
      ClosingEntry(ls, line, st, n);
    } else {
      KeptEntry(ls, line, st, st.result[n], n);
    }
  }

  lemma KeptEntry(ls: seq<Line>, line: Line, st: State, text: string, n: string)
    requires OpenOk(ls, st) && !(line.marker == End(n) && st.name == n)
    requires exists i, j :: IsLastBlock(ls, i, j, n) && text == Join(ls[i..j + 1])
    ensures
      var all := ls + [line];
      exists i, j :: IsLastBlock(all, i, j, n) && text == Join(all[i..j + 1])
  {
    var i, j :| IsLastBlock(ls, i, j, n) && text == Join(ls[i..j + 1]);
    SliceBefore(ls, line, i, j + 1);
    OtherStaysLast(ls, line, st, i, j, n);
  }

  lemma SliceBefore(ls: seq<Line>, line: Line, i: int, j: int)
    requires 0 <= i <= j <= |ls|
    ensures (ls + [line])[i..j] == ls[i..j]
  {
  }

  lemma ClosingEntry(ls: seq<Line>, line: Line, st: State, n: string)
    requires OpenOk(ls, st) && line.marker == End(n) && st.name == n && n != ""
    ensures
      var all := ls + [line];
      exists i, j :: IsLastBlock(all, i, j, n) && Step(st, line).result[n] == Join(all[i..j + 1])
  {
    var all := ls + [line];
    var i :| IsOpen(ls, i, n) && st.lines == ls[i..];
    assert all[i..|ls| + 1] == ls[i..] + [line];
    BlockSnoc(ls, line, i, |ls|, n);
    assert IsLastBlock(all, i, |ls|, n);
  }

  lemma OpenIsName(ls: seq<Line>, st: State, i: int, n: string)
    requires OpenOk(ls, st) && IsOpen(ls, i, n)
    ensures st.name == n
  {
    var i' :| IsOpen(ls, i', st.name) && st.lines == ls[i'..];
    OpenUnique(ls, i, n, i', st.name);
  }

  lemma OtherStaysLast(ls: seq<Line>, line: Line, st: State, i: int, j: int, n: string)
    requires OpenOk(ls, st) && IsLastBlock(ls, i, j, n)
    requires !(line.marker == End(n) && st.name == n)
    ensures IsLastBlock(ls + [line], i, j, n)
  {
    BlockSnoc(ls, line, i, j, n);
    forall i', j' | IsBlock(ls + [line], i', j', n) ensures j' <= j {
      BlockSnoc(ls, line, i', j', n);
      if !IsBlock(ls, i', j', n) { OpenIsName(ls, st, i', n); }
    }
  }

  lemma {:induction false} FoldOk(ls: seq<Line>)
    ensures OpenOk(ls, Fold(START, ls)) && ResultOk(ls, Fold(START, ls).result)
    decreases |ls|
  {
    if ls != [] {
      var front, line := ls[..|ls| - 1], ls[|ls| - 1];
      assert ls == front + [line];
      FoldOk(front);
      OpenStep(front, line, Fold(START, front));
      ResultStep(front, line, Fold(START, front));
    }
  }

  lemma FoldExact(ls: seq<Line>, n: string)
    ensures
      var result := Fold(START, ls).result;
      && (n in result <==> exists i, j :: IsBlock(ls, i, j, n))
      && (n in result ==> n != "" && exists i, j :: IsLastBlock(ls, i, j, n) && result[n] == Join(ls[i..j + 1]))
  {
    FoldOk(ls);
    var result := Fold(START, ls).result;
    if n in result {
      var i, j :| IsLastBlock(ls, i, j, n) && result[n] == Join(ls[i..j + 1]);
      assert IsBlock(ls, i, j, n);
    }
  }

  /** For any text, the result sends a name to the text of the last complete section of that name, and
      has no other names: the empty one is never there. The lines of the text are its maximal stretches
      without line break that neither begin nor end with a space, the last one included if nothing
      follows it. */
  lemma SplitExact(contents: string, n: string)
    ensures
      var ls, result := Lines(contents), Split(contents);
      && (n in result <==> exists i, j :: IsBlock(ls, i, j, n))
      && (n in result ==> n != "" && exists i, j :: IsLastBlock(ls, i, j, n) && result[n] == Join(ls[i..j + 1]))
      && exists spans :: Stretches(contents, 0, spans, ls)
  {
    FoldExact(Lines(contents), n);
    assert contents[0..] == contents;
    RawLinesExact(contents);
    var spans, ls := LinesExact(contents, 0, RawLines(contents));
  }

  // ---------------------------------------------------------------------------
  // Reading the result again
  // ---------------------------------------------------------------------------

  /** The sections written one after the other, in this order. */
  function Concatenated(result: map<string, string>, order: seq<string>): string
    requires forall n :: n in order ==> n in result
  {
    if order == [] then "" else result[order[0]] + Concatenated(result, order[1..])
  }

  lemma {:induction false} FoldCat(st: State, a: seq<Line>, b: seq<Line>)
    ensures Fold(st, a + b) == Fold(Fold(st, a), b)
    decreases |b|
  {
    if b == [] {
      assert a + b == a;
    } else {
      assert (a + b)[..|a + b| - 1] == a + b[..|b| - 1];
      FoldCat(st, a, b[..|b| - 1]);
    }
  }

  lemma {:induction false} FoldInside(st: State, ls: seq<Line>, n: string)
    requires ls != [] && n != "" && ls[0].marker == Begin(n)
    requires forall k :: 0 < k < |ls| ==> ls[k].marker == NoMarker
    ensures Fold(st, ls) == State(st.result, ls, n)
    decreases |ls|
  {
    var front, last := ls[..|ls| - 1], ls[|ls| - 1];
    assert ls == front + [last];
    FoldSnoc(st, front, last);
    if front == [] {
      assert Fold(st, front) == st && [] + [last] == [last];
    } else {
      FoldInside(st, front, n);
    }
  }

  /** A complete section adds itself, whatever came before. */
  lemma FoldBlock(st: State, ls: seq<Line>, n: string)
    requires IsBlock(ls, 0, |ls| - 1, n)
    ensures Fold(st, ls).result == st.result[n := Join(ls)]
  {
    var front := ls[..|ls| - 1];
    FoldInside(st, front, n);
    assert ls == front + [ls[|ls| - 1]];
  }

  /** The text is that of a complete section. */
  ghost predicate IsSection(n: string, text: string) { exists block :: IsSectionOf(block, n, text) }

  predicate IsSectionOf(block: seq<Line>, n: string, text: string) {
    AllClean(block) && IsBlock(block, 0, |block| - 1, n) && Join(block) == text
  }

  /** Reading a section again adds just this section. */
  lemma ReadSection(st: State, block: seq<Line>, n: string, text: string, rest: string)
    requires IsSectionOf(block, n, text)
    ensures Fold(st, Lines(text + rest)) == Fold(Fold(st, block), Lines(rest))
    ensures Fold(st, block).result == st.result[n := text]
  {
    LinesOfJoin(block, rest);
    FoldCat(st, block, Lines(rest));
    FoldBlock(st, block, n);
  }

  /** `before` with the named sections put in, one after the other. */
  function Adding(before: map<string, string>, result: map<string, string>, order: seq<string>): map<string, string>
    requires forall n :: n in order ==> n in result
    decreases |order|
  {
    if order == [] then before else Adding(before[order[0] := result[order[0]]], result, order[1..])
  }

  lemma {:induction false} AddingAll(before: map<string, string>, result: map<string, string>, order: seq<string>)
    requires forall n :: n in order ==> n in result
    ensures
      var after := Adding(before, result, order);
      && (forall n :: n in after <==> n in order || n in before)
      && (forall n :: n in after ==> after[n] == if n in order then result[n] else before[n])
    decreases |order|
  {
    if order != [] {
      assert order == [order[0]] + order[1..];
      AddingAll(before[order[0] := result[order[0]]], result, order[1..]);
    }
  }

  lemma {:induction false} ReadSections(st: State, result: map<string, string>, order: seq<string>)
    requires forall n :: n in order ==> n in result && IsSection(n, result[n])
    ensures Fold(st, Lines(Concatenated(result, order))).result == Adding(st.result, result, order)
    decreases |order|
  {
    if order != [] {
      var n := order[0];
      var block :| IsSectionOf(block, n, result[n]);
      ReadSection(st, block, n, result[n], Concatenated(result, order[1..]));
      ReadSections(Fold(st, block), result, order[1..]);
    }
  }

  /** Line k of a slice is line i + k of the whole. */
  lemma SliceAt(ls: seq<Line>, i: int, j: int, k: int)
    requires 0 <= i <= i + k < j <= |ls|
    ensures ls[i..j][k] == ls[i + k]
  {
  }

  lemma SliceClean(ls: seq<Line>, i: int, j: int)
    requires AllClean(ls) && 0 <= i <= j <= |ls|
    ensures AllClean(ls[i..j])
  {
    forall k | 0 <= k < j - i ensures IsClean(ls[i..j][k]) { SliceAt(ls, i, j, k); }
  }

  lemma SliceIsSection(ls: seq<Line>, i: int, j: int, n: string)
    requires AllClean(ls) && IsBlock(ls, i, j, n)
    ensures IsSectionOf(ls[i..j + 1], n, Join(ls[i..j + 1]))
  {
    SliceClean(ls, i, j + 1);
    SliceIsBlock(ls, i, j, n);
    SectionOfBlock(ls[i..j + 1], n);
  }

  lemma SectionOfBlock(block: seq<Line>, n: string)
    requires AllClean(block) && IsBlock(block, 0, |block| - 1, n)
    ensures IsSectionOf(block, n, Join(block))
  {
  }

  lemma SliceIsBlock(ls: seq<Line>, i: int, j: int, n: string)
    requires IsBlock(ls, i, j, n)
    ensures IsBlock(ls[i..j + 1], 0, |ls[i..j + 1]| - 1, n)
  {
    SliceAt(ls, i, j + 1, 0);
    SliceAt(ls, i, j + 1, j - i);
    var block := ls[i..j + 1];
    forall k | 0 < k < j - i ensures block[k].marker == NoMarker { SliceAt(ls, i, j + 1, k); }
  }

  lemma SectionsComplete(ls: seq<Line>, result: map<string, string>, n: string)
    requires AllClean(ls) && ResultOk(ls, result) && n in result
    ensures IsSection(n, result[n])
  {
    var i, j :| IsLastBlock(ls, i, j, n) && result[n] == Join(ls[i..j + 1]);
    SliceIsSection(ls, i, j, n);
  }

  lemma SameMap(a: map<string, string>, b: map<string, string>)
    requires (forall n :: n in a <==> n in b) && forall n :: n in a ==> a[n] == b[n]
    ensures a == b
  {
  }

  lemma SplitComplete(contents: string, result: map<string, string>)
    requires result == Split(contents)
    ensures forall n :: n in result ==> IsSection(n, result[n])
  {
    var ls := Lines(contents);
    LinesClean(contents);
    FoldOk(ls);
    forall n | n in result ensures IsSection(n, result[n]) {
      SectionsComplete(ls, result, n);
    }
  }

  /** Writing all sections of a result one after the other, in any order, and splitting again gives the
      same result. */
  lemma ReparseSame(contents: string, order: seq<string>)
    requires forall n :: n in order <==> n in Split(contents)
    ensures Split(Concatenated(Split(contents), order)) == Split(contents)
  {
    var result := Split(contents);
    SplitComplete(contents, result);
    ReadSections(START, result, order);
    AddingAll(map[], result, order);
    SameMap(Split(Concatenated(result, order)), result);
  }
}
