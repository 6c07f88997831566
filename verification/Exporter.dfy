/** Writing the managed objects of a namespace as one multi-document YAML
    stream and reading that stream back.
    Models Export, isAgent and appendYAML of pkg/kubernetes/kubernetes.go and
    ParseMultidoc of pkg/kubernetes/resource/load.go. YAML encoding and decoding
    of a single document are parameters. */
module Exporter {
  import opened Common
  import opened YamlSplitter
  import opened ResourceKeys

  /** "apiVersion: " */
  const API_VERSION: seq<byte> := [97, 112, 105, 86, 101, 114, 115, 105, 111, 110, 58, 32]
  /** a newline, then "kind: " */
  const KIND: seq<byte> := [NL, 107, 105, 110, 100, 58, 32]
  /** the document marker line */
  const MARKER: seq<byte> := [DASH, DASH, DASH, NL]

  /** An object listed from the cluster: the texts that are written for it, and
      the kind and name a YAML decoder reads back from them. */
  datatype K8sResource = K8sResource(apiVersion: seq<byte>, kindText: seq<byte>, body: seq<byte>,
                                     kind: string, name: string)

  function Head(r: K8sResource): seq<byte> {
    API_VERSION + r.apiVersion + KIND + r.kindText
  }

  function Text(r: K8sResource): seq<byte> {
    Head(r) + ([NL] + r.body)
  }

  /** What appendYAML writes for one object. */
  function Written(r: K8sResource): seq<byte> {
    MARKER + Text(r)
  }

  function Pieces(rs: seq<K8sResource>): seq<seq<byte>> {
    seq(|rs|, i requires 0 <= i < |rs| => Written(rs[i]))
  }

  /** Everything appendYAML has written for a list of objects. */
  function ExportText(rs: seq<K8sResource>): seq<byte> {
    Flatten(Pieces(rs))
  }

  /** What GetResources returns for one kind. */
  datatype Listing = Listed(items: seq<K8sResource>) | NotSupported | Broken

  /** The objects of a listing that are not the agent's own. */
  function Foreign(items: seq<K8sResource>, namespace: string): seq<K8sResource> {
    if items == [] then []
    else
      var earlier, last := Foreign(items[..|items| - 1], namespace), items[|items| - 1];
      if last.name == namespace then earlier else earlier + [last]
  }

  function Exported(kinds: seq<Listing>, namespace: string): seq<K8sResource> {
    if kinds == [] then []
    else
      var earlier, last := Exported(kinds[..|kinds| - 1], namespace), kinds[|kinds| - 1];
      if last.Listed? then earlier + Foreign(last.items, namespace) else earlier
  }

  lemma AppendOne(rs: seq<K8sResource>, r: K8sResource)
    ensures ExportText(rs + [r]) == ExportText(rs) + Written(r)
  {
    assert Pieces(rs + [r]) == Pieces(rs) + [Written(r)];
    FlattenAppend(Pieces(rs), Written(r));
  }

  /** The inner loop of Export: append the objects of one kind. */
  method AppendListing(start: seq<byte>, ghost before: seq<K8sResource>, items: seq<K8sResource>, namespace: string)
    returns (buffer: seq<byte>)
    requires start == ExportText(before)
    ensures buffer == ExportText(before + Foreign(items, namespace))
  {
    buffer := start;
    ghost var done := before;
    assert before + Foreign(items[..0], namespace) == done;
    for i := 0 to |items|
      invariant done == before + Foreign(items[..i], namespace)
      invariant buffer == ExportText(done)
    {
      NextForeign(before, items, i, namespace);
      if items[i].name != namespace {
        AppendOne(done, items[i]);
        buffer, done := buffer + Written(items[i]), done + [items[i]];
      }
    }
    assert items[..|items|] == items;
  }

  lemma NextForeign(before: seq<K8sResource>, items: seq<K8sResource>, i: nat, namespace: string)
    requires i < |items|
    ensures var done := before + Foreign(items[..i], namespace);
            before + Foreign(items[..i + 1], namespace) == if items[i].name == namespace then done else done + [items[i]]
  {
    assert items[..i + 1][..i] == items[..i];
  }

  /** Export, over the kinds in whatever order the kind map is ranged. */
  method Export(kinds: seq<Listing>, namespace: string) returns (r: Option<seq<byte>>)
    ensures r.None? <==> Broken in kinds
    ensures r.Some? ==> r.value == ExportText(Exported(kinds, namespace))
  {
    var buffer: seq<byte> := [];
    for k := 0 to |kinds|
      invariant Broken !in kinds[..k]
      invariant buffer == ExportText(Exported(kinds[..k], namespace))
    {
      assert kinds[..k + 1][..k] == kinds[..k];
      if kinds[k].Broken? {
        return None;
      } else if kinds[k].Listed? {
        buffer := AppendListing(buffer, Exported(kinds[..k], namespace), kinds[k].items, namespace);
      }
    }
    assert kinds[..|kinds|] == kinds;
    r := Some(buffer);
  }

  // ----- Reading a stream back -----

  /** strings.TrimSpace(token) == "" (ASCII white space). */
  predicate Blank(token: seq<byte>) {
    forall i :: 0 <= i < |token| ==> token[i] in {9, 10, 11, 12, 13, 32}
  }

  /** The kind and name a YAML decoder finds in a document, if it accepts it. */
  type Decoder = seq<byte> -> Option<(string, string)>

  datatype Entry = Entry(kind: string, name: string, bytes: seq<byte>)

  datatype Parsed = Parsed(objs: map<string, Entry>) | DecodeError | ScanError(objs: map<string, Entry>)

  /** The resources of a list of documents, a later one replacing an earlier
      one of the same key; None if a document that is not blank does not decode. */
  function Collect(tokens: seq<seq<byte>>, decode: Decoder): Option<map<string, Entry>> {
    if tokens == [] then Some(map[])
    else
      var last := tokens[|tokens| - 1];
      match Collect(tokens[..|tokens| - 1], decode)
      case None => None
      case Some(objs) =>
        if Blank(last) then Some(objs)
        else match decode(last)
          case None => None
          case Some((kind, name)) => Some(objs[Key(kind, name) := Entry(kind, name, last)])
  }

  function ParseText(data: seq<byte>, decode: Decoder, max: nat): Parsed
    requires max > 0
  {
    var scan := Documents(data, max);
    match Collect(scan.tokens, decode)
    case None => DecodeError
    case Some(objs) => if scan.tooLong then ScanError(objs) else Parsed(objs)
  }

  /** ParseMultidoc: the result depends on the bytes of the stream only, not on
      how the reader delivers them. */
  method ParseMultidoc(pieces: seq<seq<byte>>, decode: Decoder, max: nat) returns (r: Parsed)
    requires max > 0
    ensures r == ParseText(Flatten(pieces), decode, max)
  {
    var tokens, tooLong := ScanReader(pieces, max);
    var objs := CollectTokens(tokens, decode);
    if objs.None? { return DecodeError; }
    r := if tooLong then ScanError(objs.value) else Parsed(objs.value);
  }

  /** The loop over the tokens, which stops at one that does not decode. */
  method CollectTokens(tokens: seq<seq<byte>>, decode: Decoder) returns (r: Option<map<string, Entry>>)
    ensures r == Collect(tokens, decode)
  {
    var objs: map<string, Entry> := map[];
    for i := 0 to |tokens|
      invariant Collect(tokens[..i], decode) == Some(objs)
    {
      assert tokens[..i + 1][..i] == tokens[..i];
      if !Blank(tokens[i]) {
        match decode(tokens[i])
        case None =>
          CollectStaysNone(tokens, i + 1, decode);
          return None;
        case Some((kind, name)) =>
          objs := objs[Key(kind, name) := Entry(kind, name, tokens[i])];
      }
    }
    assert tokens[..|tokens|] == tokens;
    r := Some(objs);
  }

  lemma {:induction false} CollectStaysNone(tokens: seq<seq<byte>>, i: nat, decode: Decoder)
    requires i <= |tokens| && Collect(tokens[..i], decode).None?
    ensures Collect(tokens, decode).None?
    decreases |tokens|
  {
    if i < |tokens| {
      assert tokens[..|tokens| - 1][..i] == tokens[..i];
      CollectStaysNone(tokens[..|tokens| - 1], i, decode);
    } else {
      assert tokens[..i] == tokens;
    }
  }

  // ----- Export then parse -----

  /** A document as it appears in the stream: ends its last line and holds no
      separator. */
  predicate Doc(t: seq<byte>) {
    |t| > 0 && t[|t| - 1] == NL && !HasSep(t)
  }

  /** Documents joined by marker lines. */
  function Joined(ts: seq<seq<byte>>): seq<byte>
    requires ts != []
  {
    if |ts| == 1 then ts[0] else ts[0] + (MARKER + Joined(ts[1..]))
  }

  /** The tokens of joined documents: each but the last lost its final newline
      to the separator. */
  function Cut(ts: seq<seq<byte>>): seq<seq<byte>>
    requires forall t :: t in ts ==> Doc(t)
  {
    if |ts| <= 1 then ts else
      assert Doc(ts[0]);
      [ts[0][..|ts[0]| - 1]] + Cut(ts[1..])
  }

  /** Every document, with the marker line after it, fits the scanner's buffer. */
  predicate Fits(ts: seq<seq<byte>>, max: nat)
    requires ts != []
  {
    |ts[|ts| - 1]| < max && forall i :: 0 <= i < |ts| - 1 ==> |ts[i]| + 4 <= max
  }

  /** The separator that the scanner sees after a document is the one formed by
      its final newline and the next marker line. */
  lemma SplitBeforeMarker(t: seq<byte>, rest: seq<byte>)
    requires Doc(t)
    ensures SplitYamlDocument(t + (MARKER + rest), false) == Token(|t| + 4, t[..|t| - 1])
  {
    var data, i := t + (MARKER + rest), |t| - 1;
    assert data[i..i + 4] == SEPARATOR;
    forall k | 0 <= k < i ensures !SepAt(data, k) {
      assert !SepAt(t, k);
      if k + 4 <= |t| {
        SepAtExtends(t, MARKER + rest, k);
      } else {
        assert data[k..k + 4][i - k] == data[i] == NL;
      }
    }
    IndexSepIs(data, i);
    assert data[i + 4] == NL;
    assert data[..i] == t[..i];
  }

  lemma FirstOfMany(t: seq<byte>, rest: seq<byte>, max: nat)
    requires Doc(t) && max > 0
    ensures var data := t + (MARKER + rest);
            Documents(data, max) ==
            if |t| + 4 <= max then Documents(rest, max).After([t[..|t| - 1]]) else Scan([], true)
  {
    var data := t + (MARKER + rest);
    var window := Window(data, max);
    SplitBeforeMarker(t, rest);
    if |t| + 4 <= max {
      assert window == t + (MARKER + window[|t| + 4..]);
      SplitBeforeMarker(t, window[|t| + 4..]);
      assert data[|t| + 4..] == rest;
    } else {
      assert data == window + data[|window|..];
      if SplitYamlDocument(window, false).Token? {
        TokenIsStable(window, data[|window|..], false);
      }
    }
  }

  lemma LastDocument(t: seq<byte>, max: nat)
    requires Doc(t) && max > 0
    ensures Documents(t, max) == if |t| < max then Scan([t], false) else Scan([], true)
  {
    var window := Window(t, max);
    assert forall k :: 0 <= k < |window| ==> !SepAt(t, k);
    NoSepInPrefix(t, |window|);
    assert window == t[..|window|];
    assert IndexSep(window, 0) == -1 && IndexSep(t, 0) == -1;
  }

  /** The documents of a joined stream are the documents that were joined, and
      the scan fails exactly when one of them is too long for the buffer. */
  lemma {:induction false} JoinedDocuments(ts: seq<seq<byte>>, max: nat)
    requires ts != [] && max > 0 && forall t :: t in ts ==> Doc(t)
    ensures Documents(Joined(ts), max).tooLong == !Fits(ts, max)
    ensures Fits(ts, max) ==> Documents(Joined(ts), max).tokens == Cut(ts)
  {
    if |ts| == 1 {
      LastDocument(ts[0], max);
    } else {
      var later := ts[1..];
      FirstOfMany(ts[0], Joined(later), max);
      JoinedDocuments(later, max);
      FitsSplits(ts, max);
    }
  }

  lemma FitsSplits(ts: seq<seq<byte>>, max: nat)
    requires |ts| > 1
    ensures Fits(ts, max) <==> |ts[0]| + 4 <= max && Fits(ts[1..], max)
  {
    if |ts[0]| + 4 <= max && Fits(ts[1..], max) {
      forall i | 0 <= i < |ts| - 1 ensures |ts[i]| + 4 <= max {
        if i > 0 { assert ts[1..][i - 1] == ts[i]; }
      }
    }
  }

  /** The body is whole lines, none of which starts with three dashes, and the
      version and kind written before it are single-line. */
  predicate WellFormed(r: K8sResource) {
    && NL !in r.apiVersion && NL !in r.kindText
    && |r.body| > 0 && r.body[|r.body| - 1] == NL && !HasSep([NL] + r.body)
  }

  lemma TextIsDoc(r: K8sResource)
    requires WellFormed(r)
    ensures Doc(Text(r)) && Doc(Written(r))
  {
    var text, head, tail := Text(r), Head(r), [NL] + r.body;
    var n := |API_VERSION| + |r.apiVersion|;
    assert text[n + 1] == 107;
    forall i | 0 <= i < |text| ensures !SepAt(text, i) {
      if i < |head| {
        assert text[i] == head[i];
        assert head[i] == NL ==> i == n;
      } else if i + 4 <= |text| {
        assert !SepAt(tail, i - |head|);
        assert text[i..i + 4] == tail[i - |head|..i - |head| + 4];
      }
    }
    MarkedIsDoc(text);
  }

  lemma MarkedIsDoc(text: seq<byte>)
    requires Doc(text) && text[0] == 97
    ensures Doc(MARKER + text)
  {
    var all := MARKER + text;
    forall i | 0 <= i < |all| ensures !SepAt(all, i) {
      if i < 4 {
        assert all[i] == MARKER[i] && all[4] == text[0];
      } else {
        assert all[i..] == text[i - 4..];
        assert !SepAt(text, i - 4);
        if i + 4 <= |all| { assert all[i..i + 4] == text[i - 4..i]; }
      }
    }
  }

  function Texts(rs: seq<K8sResource>): seq<seq<byte>> {
    seq(|rs|, i requires 0 <= i < |rs| => Text(rs[i]))
  }

  /** The documents of an exported stream. The first keeps its marker line: no
      newline precedes it. */
  function Docs(rs: seq<K8sResource>): seq<seq<byte>>
    requires rs != []
  {
    [Written(rs[0])] + Texts(rs)[1..]
  }

  lemma {:induction false} MarkersBetween(rs: seq<K8sResource>)
    requires rs != []
    ensures MARKER + Joined(Texts(rs)) == ExportText(rs)
  {
    var later := rs[1..];
    assert Pieces(rs)[1..] == Pieces(later) && Texts(rs)[1..] == Texts(later);
    if |rs| == 1 {
      assert Written(rs[0]) + Flatten(Pieces(later)) == Written(rs[0]);
    } else {
      MarkersBetween(later);
      Regroup(MARKER, Text(rs[0]), ExportText(later));
    }
  }

  lemma ExportIsJoined(rs: seq<K8sResource>)
    requires rs != []
    ensures ExportText(rs) == Joined(Docs(rs))
  {
    MarkersBetween(rs);
    assert Docs(rs)[1..] == Texts(rs)[1..];
    if |rs| > 1 { Regroup(MARKER, Text(rs[0]), MARKER + Joined(Texts(rs)[1..])); }
  }

  /** A decoder reads an object's kind and name back from its document, with or
      without the leading marker line and the final newline. */
  predicate Decodes(decode: Decoder, r: K8sResource) {
    var t, w := Text(r), Written(r);
    decode(t) == decode(t[..|t| - 1]) == decode(w) == decode(w[..|w| - 1]) == Some((r.kind, r.name))
  }

  lemma {:induction false} CutAt(ts: seq<seq<byte>>, i: nat)
    requires i < |ts| && forall t :: t in ts ==> Doc(t)
    ensures |Cut(ts)| == |ts|
    ensures Doc(ts[i]) && (Cut(ts)[i] == ts[i] || Cut(ts)[i] == ts[i][..|ts[i]| - 1])
  {
    assert Doc(ts[i]);
    if |ts| > 1 { CutAt(ts[1..], if i > 0 then i - 1 else 0); }
  }

  lemma TokenDecodes(rs: seq<K8sResource>, i: nat, decode: Decoder)
    requires i < |rs| && forall r :: r in rs ==> WellFormed(r) && Decodes(decode, r)
    requires forall t :: t in Docs(rs) ==> Doc(t)
    ensures var tokens := Cut(Docs(rs));
            |tokens| == |rs| && !Blank(tokens[i]) && decode(tokens[i]) == Some((rs[i].kind, rs[i].name))
  {
    CutAt(Docs(rs), i);
    var token := Cut(Docs(rs))[i];
    assert WellFormed(rs[i]) && Decodes(decode, rs[i]);
    assert Docs(rs)[i] == if i == 0 then Written(rs[0]) else Text(rs[i]);
    assert token[0] == if i == 0 then DASH else 97;
  }

  function KeyOf(r: K8sResource): string {
    Key(r.kind, r.name)
  }

  function KeysOf(rs: seq<K8sResource>): seq<string> {
    seq(|rs|, i requires 0 <= i < |rs| => KeyOf(rs[i]))
  }

  /** Document i decodes to kinds and names whose key is keys[i]. */
  predicate DecodesTo(tokens: seq<seq<byte>>, keys: seq<string>, decode: Decoder)
    requires |tokens| == |keys|
  {
    forall i :: 0 <= i < |keys| ==>
      !Blank(tokens[i]) && decode(tokens[i]).Some? && Key(decode(tokens[i]).value.0, decode(tokens[i]).value.1) == keys[i]
  }

  function EntryOf(token: seq<byte>, decode: Decoder): Entry
    requires decode(token).Some?
  {
    Entry(decode(token).value.0, decode(token).value.1, token)
  }

  function Entries(tokens: seq<seq<byte>>, keys: seq<string>, decode: Decoder): seq<Entry>
    requires |tokens| == |keys| && DecodesTo(tokens, keys, decode)
  {
    seq(|keys|, i requires 0 <= i < |keys| => EntryOf(tokens[i], decode))
  }

  lemma EntriesMore(tokens: seq<seq<byte>>, keys: seq<string>, decode: Decoder)
    requires |tokens| == |keys| > 0 && DecodesTo(tokens, keys, decode)
    ensures var n := |keys| - 1;
            Entries(tokens, keys, decode) == Entries(tokens[..n], keys[..n], decode) + [EntryOf(tokens[n], decode)]
  {
  }

  lemma {:induction false} CollectAll(tokens: seq<seq<byte>>, keys: seq<string>, decode: Decoder)
    requires |tokens| == |keys| && DecodesTo(tokens, keys, decode) && Distinct(keys)
    ensures Collect(tokens, decode).Some?
    ensures Tabulates(Collect(tokens, decode).value, keys, Entries(tokens, keys, decode))
  {
    if keys != [] {
      var n := |keys| - 1;
      CollectAll(tokens[..n], keys[..n], decode);
      var before := Collect(tokens[..n], decode).value;
      var entries := Entries(tokens[..n], keys[..n], decode);
      LastSplit(keys);
      TabulatesMore(before, keys[..n], entries, keys[n], EntryOf(tokens[n], decode));
      EntriesMore(tokens, keys, decode);
    }
  }

  /** One resource per object, under its own key, with its kind and name. */
  ghost predicate Recovers(objs: map<string, Entry>, rs: seq<K8sResource>) {
    && |objs| == |rs| && objs.Keys == Elements(KeysOf(rs))
    && forall i :: 0 <= i < |rs| ==>
         KeyOf(rs[i]) in objs && objs[KeyOf(rs[i])].kind == rs[i].kind && objs[KeyOf(rs[i])].name == rs[i].name
  }

  /** What the round trip asks of the objects: whole-line bodies, a decoder
      that reads them, and no two with the same kind (up to case) and name. */
  ghost predicate Exportable(rs: seq<K8sResource>, decode: Decoder) {
    && (forall r :: r in rs ==> WellFormed(r) && Decodes(decode, r) && '/' !in r.kind)
    && forall i, j :: 0 <= i < j < |rs| ==> ToLower(rs[i].kind) != ToLower(rs[j].kind) || rs[i].name != rs[j].name
  }

  lemma DistinctKeys(rs: seq<K8sResource>, decode: Decoder)
    requires Exportable(rs, decode)
    ensures Distinct(KeysOf(rs))
  {
    forall i, j | 0 <= i < j < |rs| ensures KeysOf(rs)[i] != KeysOf(rs)[j] {
      assert '/' !in rs[i].kind && '/' !in rs[j].kind;
      if KeyOf(rs[i]) == KeyOf(rs[j]) { KeyIsInjective(rs[i].kind, rs[i].name, rs[j].kind, rs[j].name); }
    }
  }

  lemma AllDocs(rs: seq<K8sResource>, decode: Decoder)
    requires rs != [] && Exportable(rs, decode)
    ensures forall t :: t in Docs(rs) ==> Doc(t)
  {
    forall t | t in Docs(rs) ensures Doc(t) {
      var i :| 0 <= i < |Docs(rs)| && Docs(rs)[i] == t;
      TextIsDoc(rs[i]);
    }
  }

  lemma TokensRecover(rs: seq<K8sResource>, decode: Decoder)
    requires rs != [] && Exportable(rs, decode) && forall t :: t in Docs(rs) ==> Doc(t)
    ensures var objs := Collect(Cut(Docs(rs)), decode);
            objs.Some? && Recovers(objs.value, rs)
  {
    var tokens := Cut(Docs(rs));
    forall i | 0 <= i < |rs|
      ensures |tokens| == |rs| && !Blank(tokens[i]) && decode(tokens[i]) == Some((rs[i].kind, rs[i].name))
    {
      TokenDecodes(rs, i, decode);
    }
    TokenDecodes(rs, 0, decode);
    assert DecodesTo(tokens, KeysOf(rs), decode);
    DistinctKeys(rs, decode);
    CollectAll(tokens, KeysOf(rs), decode);
    var objs := Collect(tokens, decode).value;
    forall i | 0 <= i < |rs|
      ensures KeyOf(rs[i]) in objs && objs[KeyOf(rs[i])].kind == rs[i].kind && objs[KeyOf(rs[i])].name == rs[i].name
    {
      assert KeysOf(rs)[i] == KeyOf(rs[i]) && Entries(tokens, KeysOf(rs), decode)[i] == EntryOf(tokens[i], decode);
    }
  }

  /** Export then parse: the exported stream reads back as exactly one resource
      per object, under the object's own key, if and only if every document
      fits the scanner's buffer. */
  lemma ExportParseRoundTrip(rs: seq<K8sResource>, decode: Decoder, max: nat)
    requires max > 0 && Exportable(rs, decode)
    ensures var back := ParseText(ExportText(rs), decode, max);
            && (back.Parsed? <==> rs == [] || Fits(Docs(rs), max))
            && (back.Parsed? ==> Recovers(back.objs, rs))
  {
    if rs == [] {
      assert Documents([], max) == Scan([], false);
    } else {
      AllDocs(rs, decode);
      ExportIsJoined(rs);
      JoinedDocuments(Docs(rs), max);
      if Fits(Docs(rs), max) { TokensRecover(rs, decode); }
    }
  }
}
