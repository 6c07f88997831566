/** The bufio split function that cuts a YAML stream into documents, and the
    scanner loop that drives it over a reader delivering the stream in pieces.
    Models pkg/kubernetes/resource/load.go. */
module YamlSplitter {

  import opened Common

  const NL: byte := 10
  const DASH: byte := 45

  /** The separator: a newline followed by three dashes. */
  const SEPARATOR: seq<byte> := [NL, DASH, DASH, DASH]

  predicate SepAt(data: seq<byte>, i: int) {
    0 <= i && i + 4 <= |data| && data[i..i + 4] == SEPARATOR
  }

  predicate HasSep(data: seq<byte>) {
    exists i :: 0 <= i < |data| && SepAt(data, i)
  }

  /** bytes.Index(data, separator), looking from a given position on. */
  function IndexSep(data: seq<byte>, from: nat): (r: int)
    requires from <= |data|
    ensures r == -1 || (from <= r && SepAt(data, r))
    ensures forall k :: from <= k < (if r == -1 then |data| else r) ==> !SepAt(data, k)
    decreases |data| - from
  {
    if |data| - from < 4 then -1
    else if SepAt(data, from) then from
    else IndexSep(data, from + 1)
  }

  /** bytes.IndexByte(data, '\n'), looking from a given position on. */
  function IndexNewline(data: seq<byte>, from: nat): (r: int)
    requires from <= |data|
    ensures r == -1 || (from <= r < |data| && data[r] == NL)
    ensures forall k :: from <= k < (if r == -1 then |data| else r) ==> data[k] != NL
    decreases |data| - from
  {
    if from == |data| then -1
    else if data[from] == NL then from
    else IndexNewline(data, from + 1)
  }

  /** What a split function tells the scanner: ask for more data (or stop, at
      the end of input), or take a token and advance. */
  datatype Split = More | Token(advance: nat, text: seq<byte>)

  function SplitYamlDocument(data: seq<byte>, atEOF: bool): (r: Split)
    ensures r.Token? ==> 0 < r.advance <= |data| && r.text <= data && !HasSep(r.text)
  {
    if atEOF && |data| == 0 then More
    else
      var i := IndexSep(data, 0);
      if i >= 0 then
        assert !HasSep(data[..i]) by { NoSepInPrefix(data, i); }
        if i + 4 == |data| then
          if atEOF then Token(|data|, data[..i]) else More
        else
          var j := IndexNewline(data, i + 4);
          if j >= 0 then Token(j + 1, data[..i]) else More
      else if atEOF then Token(|data|, data)
      else More
  }

  lemma NoSepInPrefix(data: seq<byte>, i: nat)
    requires i <= |data| && forall k :: 0 <= k < i ==> !SepAt(data, k)
    ensures !HasSep(data[..i])
  {
    forall k | 0 <= k < i ensures !SepAt(data[..i], k) {
      assert !SepAt(data, k);
      if k + 4 <= i { assert data[..i][k..k + 4] == data[k..k + 4]; }
    }
  }

  /** The searches are decided by the first hit. */
  lemma IndexSepIs(data: seq<byte>, i: nat)
    requires SepAt(data, i) && forall k :: 0 <= k < i ==> !SepAt(data, k)
    ensures IndexSep(data, 0) == i
  {
  }

  lemma SepAtExtends(data: seq<byte>, more: seq<byte>, k: nat)
    requires k + 4 <= |data|
    ensures SepAt(data + more, k) == SepAt(data, k)
  {
    assert (data + more)[k..k + 4] == data[k..k + 4];
  }

  /** A token found without knowing that the input ended is final: it is
      returned unchanged on every extension of the buffer, ended or not. */
  lemma TokenIsStable(data: seq<byte>, more: seq<byte>, atEOF: bool)
    requires SplitYamlDocument(data, false).Token?
    ensures SplitYamlDocument(data + more, atEOF) == SplitYamlDocument(data, false)
  {
    var all := data + more;
    var i := IndexSep(data, 0);
    assert i >= 0 && i + 4 < |data|;
    forall k | 0 <= k <= i ensures SepAt(all, k) == SepAt(data, k) {
      SepAtExtends(data, more, k);
    }
    IndexSepIs(all, i);
    var j := IndexNewline(data, i + 4);
    assert all[j] == NL;
    assert forall k :: i + 4 <= k < j ==> all[k] == data[k] != NL;
    assert all[..i] == data[..i];
  }

  /** The outcome of scanning a whole stream: its tokens in order, and whether
      the scan stopped because a document does not fit the buffer. */
  datatype Scan = Scan(tokens: seq<seq<byte>>, tooLong: bool) {
    function After(earlier: seq<seq<byte>>): Scan {
      Scan(earlier + tokens, tooLong)
    }
  }

  function Window(data: seq<byte>, max: nat): seq<byte> {
    if |data| <= max then data else data[..max]
  }

  /** The documents of a stream, with no mention of how it is delivered: the
      next document is decided by at most `max` bytes, or by the end of input
      when fewer than `max` remain. */
  function Documents(data: seq<byte>, max: nat): Scan
    requires max > 0
    decreases |data|
  {
    match SplitYamlDocument(Window(data, max), false)
    case Token(advance, text) => Documents(data[advance..], max).After([text])
    case More =>
      if |data| >= max then Scan([], true)
      else if SplitYamlDocument(data, true).Token? then Scan([SplitYamlDocument(data, true).text], false)
      else Scan([], false)
  }

  /** A token taken from a partly filled buffer is the next document of the
      buffered and unread bytes together. */
  lemma ScanStep(buffer: seq<byte>, unread: seq<byte>, eof: bool, max: nat)
    requires max > 0 && |buffer| <= max
    requires eof ==> unread == [] && |buffer| < max
    requires SplitYamlDocument(buffer, eof).Token?
    ensures var t := SplitYamlDocument(buffer, eof);
            Documents(buffer + unread, max) == Documents(buffer[t.advance..] + unread, max).After([t.text])
  {
    var all := buffer + unread;
    var t := SplitYamlDocument(buffer, eof);
    assert all[t.advance..] == buffer[t.advance..] + unread;
    if SplitYamlDocument(buffer, false).Token? {
      var window := Window(all, max);
      assert window == buffer + window[|buffer|..];
      TokenIsStable(buffer, window[|buffer|..], false);
      TokenIsStable(buffer, [], eof);
      assert buffer + [] == buffer;
    } else {
      assert all == buffer && buffer[t.advance..] + unread == [];
    }
  }

  /** With no token in the buffer, the scan is over at the end of input and
      when the buffer is full. */
  lemma ScanStop(buffer: seq<byte>, unread: seq<byte>, eof: bool, max: nat)
    requires max > 0 && SplitYamlDocument(buffer, eof).More?
    requires if eof then unread == [] && |buffer| < max else |buffer| == max
    ensures Documents(buffer + unread, max) == Scan([], !eof)
  {
    assert Window(buffer + unread, max) == buffer;
    if eof {
      assert buffer + unread == buffer;
      if SplitYamlDocument(buffer, false).Token? { TokenIsStable(buffer, [], true); }
    }
  }

  /** `goal` is what remains to be scanned after the tokens found so far. */
  ghost predicate Progress(goal: Scan, tokens: seq<seq<byte>>, rest: seq<byte>, max: nat)
    requires max > 0
  {
    goal == Documents(rest, max).After(tokens)
  }

  lemma AfterAfter(scan: Scan, first: seq<seq<byte>>, second: seq<seq<byte>>)
    ensures scan.After(second).After(first) == scan.After(first + second)
  {
    assert first + (second + scan.tokens) == (first + second) + scan.tokens;
  }

  lemma ProgressStep(goal: Scan, tokens: seq<seq<byte>>, buffer: seq<byte>, unread: seq<byte>, eof: bool, max: nat)
    requires max > 0 && |buffer| <= max
    requires eof ==> unread == [] && |buffer| < max
    requires SplitYamlDocument(buffer, eof).Token?
    requires Progress(goal, tokens, buffer + unread, max)
    ensures var t := SplitYamlDocument(buffer, eof);
            Progress(goal, tokens + [t.text], buffer[t.advance..] + unread, max)
  {
    ScanStep(buffer, unread, eof, max);
    var t := SplitYamlDocument(buffer, eof);
    AfterAfter(Documents(buffer[t.advance..] + unread, max), tokens, [t.text]);
  }

  function Flatten(pieces: seq<seq<byte>>): seq<byte> {
    if pieces == [] then [] else pieces[0] + Flatten(pieces[1..])
  }

  lemma {:induction false} FlattenAppend(pieces: seq<seq<byte>>, piece: seq<byte>)
    ensures Flatten(pieces + [piece]) == Flatten(pieces) + piece
  {
    if pieces == [] {
      assert Flatten([piece]) == piece + Flatten([]) == [] + piece;
    } else {
      FlattenAppend(pieces[1..], piece);
      assert (pieces + [piece])[1..] == pieces[1..] + [piece];
      Regroup(pieces[0], Flatten(pieces[1..]), piece);
    }
  }

  lemma Regroup(a: seq<byte>, b: seq<byte>, c: seq<byte>)
    ensures a + (b + c) == (a + b) + c
  {
  }

  lemma NextPiece(pieces: seq<seq<byte>>, i: nat)
    requires i < |pieces|
    ensures Flatten(pieces[i..]) == pieces[i] + Flatten(pieces[i + 1..])
  {
    assert pieces[i..][1..] == pieces[i + 1..];
  }

  lemma MoveIntoBuffer(buffer: seq<byte>, piece: seq<byte>, later: seq<byte>, n: nat)
    requires n <= |piece|
    ensures buffer + (piece + later) == (buffer + piece[..n]) + (piece[n..] + later)
  {
  }

  /** bufio.Scanner over a reader that delivers `pieces`, one a call and
      any piece split further when the buffer has no room, with a buffer that
      may grow to `max`. Whatever the pieces, the tokens are those of the
      concatenated stream. */
  method ScanReader(pieces: seq<seq<byte>>, max: nat) returns (tokens: seq<seq<byte>>, tooLong: bool)
    requires max > 0
    ensures Scan(tokens, tooLong) == Documents(Flatten(pieces), max)
  {
    var buffer, piece, i, eof := [], [], 0, false;
    tokens := [];
    ghost var later := Flatten(pieces);
    ghost var goal := Documents(later, max);
    assert buffer + (piece + later) == later && goal.After([]) == goal;
    while true
      invariant i <= |pieces| && |buffer| <= max
      invariant later == Flatten(pieces[i..])
      invariant eof ==> piece + later == [] && |buffer| < max
      invariant Progress(goal, tokens, buffer + (piece + later), max)
      decreases !eof, |pieces| - i, |piece|, |buffer|
    {
      var split := SplitYamlDocument(buffer, eof);
      if split.Token? {
        ProgressStep(goal, tokens, buffer, piece + later, eof, max);
        tokens, buffer := tokens + [split.text], buffer[split.advance..];
      } else if eof {
        ScanStop(buffer, piece + later, eof, max);
        return tokens, false;
      } else if |buffer| == max {
        ScanStop(buffer, piece + later, eof, max);
        return tokens, true;
      } else if piece != [] {
        var n := if |piece| <= max - |buffer| then |piece| else max - |buffer|;
        MoveIntoBuffer(buffer, piece, later, n);
        buffer, piece := buffer + piece[..n], piece[n..];
      } else if i < |pieces| {
        NextPiece(pieces, i);
        assert piece + later == later;
        piece, i, later := pieces[i], i + 1, Flatten(pieces[i + 1..]);
      } else {
        eof := true;
      }
    }
  }

  // ----- What the documents of a stream are, without the split function -----

  /** A separator up to and including the newline that ends its line. */
  predicate SeparatorLine(s: seq<byte>) {
    |s| >= 5 && s[..4] == SEPARATOR && s[|s| - 1] == NL && forall k :: 4 <= k < |s| - 1 ==> s[k] != NL
  }

  /** A stretch whose first separator starts a line that is never ended. */
  predicate UnterminatedSeparator(s: seq<byte>) {
    exists i :: 0 <= i < |s| && SepAt(s, i) && i + 4 < |s| && !HasSep(s[..i]) && NL !in s[i + 4..]
  }

  function Weave(tokens: seq<seq<byte>>, separators: seq<seq<byte>>): seq<byte>
    requires |tokens| == |separators|
  {
    if tokens == [] then [] else tokens[0] + separators[0] + Weave(tokens[1..], separators[1..])
  }

  /** How the text after a token may look: a separator line, or (after the last
      token, when nothing was dropped) nothing or a bare separator. */
  predicate Ends(separators: seq<seq<byte>>, i: nat, dropped: seq<byte>)
    requires i < |separators|
  {
    SeparatorLine(separators[i]) ||
    (i == |separators| - 1 && dropped == [] && (separators[i] == [] || separators[i] == SEPARATOR))
  }

  /** The stream is its documents joined by separator lines, plus a dropped
      tail; no document contains a separator; and a scan that did not run out
      of buffer dropped a tail only if the tail ends inside an unterminated
      separator line. */
  ghost predicate Woven(data: seq<byte>, scan: Scan, separators: seq<seq<byte>>, dropped: seq<byte>) {
    && |separators| == |scan.tokens|
    && data == Weave(scan.tokens, separators) + dropped
    && (forall i :: 0 <= i < |separators| ==> Ends(separators, i, dropped))
    && (forall t :: t in scan.tokens ==> !HasSep(t))
    && (!scan.tooLong && dropped != [] ==> UnterminatedSeparator(dropped))
  }

  /** Scanning loses nothing but separators and one tail. */
  lemma {:induction false} Lossless(data: seq<byte>, max: nat) returns (separators: seq<seq<byte>>, dropped: seq<byte>)
    requires max > 0
    ensures Woven(data, Documents(data, max), separators, dropped)
    decreases |data|
  {
    var window := Window(data, max);
    var split := SplitYamlDocument(window, false);
    if split.Token? {
      var later, tail := Lossless(data[split.advance..], max);
      TokenThenLine(window);
      var line := window[|split.text|..split.advance];
      var rest := data[split.advance..];
      ThreeParts(data, window, split.text, split.advance);
      WeaveMore(rest, Documents(rest, max), later, tail, split.text, line);
      separators, dropped := [line] + later, tail;
    } else {
      separators, dropped := LosslessTail(data, max);
    }
  }

  lemma LosslessTail(data: seq<byte>, max: nat) returns (separators: seq<seq<byte>>, dropped: seq<byte>)
    requires max > 0 && SplitYamlDocument(Window(data, max), false).More?
    ensures Woven(data, Documents(data, max), separators, dropped)
  {
    if |data| < max && SplitYamlDocument(data, true).Token? {
      var token := SplitYamlDocument(data, true).text;
      FinalToken(data);
      separators, dropped := [data[|token|..]], [];
      assert Weave([token], separators) == token + separators[0] == data;
    } else {
      separators, dropped := [], data;
      if |data| < max && data != [] { UnendedTail(data); }
    }
  }

  lemma WeaveMore(data: seq<byte>, scan: Scan, separators: seq<seq<byte>>, dropped: seq<byte>,
                  text: seq<byte>, line: seq<byte>)
    requires Woven(data, scan, separators, dropped) && !HasSep(text) && SeparatorLine(line)
    ensures Woven(text + line + data, scan.After([text]), [line] + separators, dropped)
  {
    var all := [line] + separators;
    assert scan.After([text]).tokens[1..] == scan.tokens && all[1..] == separators;
    assert text + line + (Weave(scan.tokens, separators) + dropped) == (text + line + Weave(scan.tokens, separators)) + dropped;
    forall i | 0 <= i < |all| ensures Ends(all, i, dropped) {
      if i > 0 { assert Ends(separators, i - 1, dropped) && all[i] == separators[i - 1]; }
    }
  }

  lemma ThreeParts(data: seq<byte>, window: seq<byte>, text: seq<byte>, advance: nat)
    requires text <= window <= data && |text| <= advance <= |window|
    ensures text + window[|text|..advance] + data[advance..] == data
  {
  }

  lemma TokenThenLine(data: seq<byte>)
    requires SplitYamlDocument(data, false).Token?
    ensures var t := SplitYamlDocument(data, false);
            |t.text| <= t.advance && SeparatorLine(data[|t.text|..t.advance])
  {
    var i := IndexSep(data, 0);
    var j := IndexNewline(data, i + 4);
    assert data[i..j + 1][..4] == data[i..i + 4];
  }

  lemma FinalToken(data: seq<byte>)
    requires SplitYamlDocument(data, false).More? && SplitYamlDocument(data, true).Token?
    ensures var rest := data[|SplitYamlDocument(data, true).text|..];
            rest == [] || rest == SEPARATOR
  {
    var i := IndexSep(data, 0);
    if i >= 0 { assert data[i..] == data[i..i + 4]; } else { assert data[|data|..] == []; }
  }

  lemma UnendedTail(data: seq<byte>)
    requires data != [] && SplitYamlDocument(data, true).More?
    ensures UnterminatedSeparator(data)
  {
    var i := IndexSep(data, 0);
    NoSepInPrefix(data, i);
  }

  /** The last document of a scan that reached the end of input, from what follows
      the last separator line: none if that is empty or starts another separator
      line without ending it; else all of it, up to a bare separator at its end. */
  function LastToken(rest: seq<byte>): seq<seq<byte>> {
    if rest == [] || UnterminatedSeparator(rest) then []
    else if SepAt(rest, |rest| - 4) then [rest[..|rest| - 4]]
    else [rest]
  }

  /** The stream is cut at its separator lines, and the scan follows the cuts. It
      fails if and only if the rest after the last cut fills the buffer, and
      otherwise the rest gives the last document. */
  ghost predicate Cuts(data: seq<byte>, max: nat, scan: Scan, texts: seq<seq<byte>>, lines: seq<seq<byte>>, rest: seq<byte>) {
    && |texts| == |lines| && data == Weave(texts, lines) + rest
    && (forall i :: 0 <= i < |lines| ==> SeparatorLine(lines[i]) && !HasSep(texts[i]) && |texts[i]| + |lines[i]| <= max)
    && scan == Scan(texts + (if |rest| >= max then [] else LastToken(rest)), |rest| >= max)
  }

  /** The documents, exactly. What follows the last separator line is dropped if
      and only if it is empty or an unterminated separator line. */
  lemma {:induction false} DocumentsAre(data: seq<byte>, max: nat)
    returns (texts: seq<seq<byte>>, lines: seq<seq<byte>>, rest: seq<byte>)
    requires max > 0
    ensures Cuts(data, max, Documents(data, max), texts, lines, rest)
    ensures !Documents(data, max).tooLong ==>
              (Documents(data, max).tokens == texts <==> rest == [] || UnterminatedSeparator(rest))
    decreases |data|
  {
    var window := Window(data, max);
    var split := SplitYamlDocument(window, false);
    if split.Token? {
      var later, line := data[split.advance..], window[|split.text|..split.advance];
      TokenThenLine(window);
      ThreeParts(data, window, split.text, split.advance);
      texts, lines, rest := DocumentsAre(later, max);
      CutMore(later, max, Documents(later, max), texts, lines, rest, split.text, line);
      texts, lines := [split.text] + texts, [line] + lines;
    } else {
      texts, lines, rest := [], [], data;
      assert Weave([], []) + data == data;
      if |data| < max { LastTokenIs(data); }
    }
    assert |LastToken(rest)| == if rest == [] || UnterminatedSeparator(rest) then 0 else 1;
  }

  lemma CutMore(data: seq<byte>, max: nat, scan: Scan, texts: seq<seq<byte>>, lines: seq<seq<byte>>, rest: seq<byte>,
                text: seq<byte>, line: seq<byte>)
    requires Cuts(data, max, scan, texts, lines, rest)
    requires SeparatorLine(line) && !HasSep(text) && |text| + |line| <= max
    ensures Cuts(text + line + data, max, scan.After([text]), [text] + texts, [line] + lines, rest)
  {
    var allTexts, allLines := [text] + texts, [line] + lines;
    assert allTexts[1..] == texts && allLines[1..] == lines;
    assert text + line + (Weave(texts, lines) + rest) == (text + line + Weave(texts, lines)) + rest;
    forall i | 0 <= i < |allLines|
      ensures SeparatorLine(allLines[i]) && !HasSep(allTexts[i]) && |allTexts[i]| + |allLines[i]| <= max
    {
      if i > 0 { assert allLines[i] == lines[i - 1] && allTexts[i] == texts[i - 1]; }
    }
    assert [text] + (texts + (if |rest| >= max then [] else LastToken(rest))) ==
           allTexts + (if |rest| >= max then [] else LastToken(rest));
  }

  lemma LastTokenIs(data: seq<byte>)
    requires SplitYamlDocument(data, false).More?
    ensures var split := SplitYamlDocument(data, true);
      LastToken(data) == if split.Token? then [split.text] else []
  {
    var i := IndexSep(data, 0);
    if data != [] && SplitYamlDocument(data, true).More? {
      UnendedTail(data);
    } else if i >= 0 {
      assert i + 4 == |data|;
      OnlyAtTheEnd(data, i);
    }
  }

  /** A separator whose line cannot be unterminated: nothing follows it. */
  lemma OnlyAtTheEnd(data: seq<byte>, i: nat)
    requires IndexSep(data, 0) == i && i + 4 == |data|
    ensures !UnterminatedSeparator(data)
  {
    forall j | 0 <= j < |data| && SepAt(data, j) ensures j + 4 == |data| {}
  }
}
