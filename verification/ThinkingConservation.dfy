/** Every run of the parser accounts for each character of its input. */
module ThinkingConservation {
  import opened Text
  import opened ThinkingParser
  import opened ThinkingProperties
  import opened ThinkingRuns

  /** What leaves the buffer, in input order: text shown, text kept as reasoning, and deleted tags. */
  datatype Piece = Shown(text: string) | Hidden(text: string) | Deleted(text: string, tag: Tag)

  function Piece1(text: string, hidden: bool): seq<Piece> {
    if text == "" then [] else if hidden then [Hidden(text)] else [Shown(text)]
  }

  /** The pieces of the first loop round. */
  function RoundPieces(b: string, inside: bool): seq<Piece> {
    match FirstCut(b, inside)
    case NoCut => Piece1(b[..HeldBack(b)], inside)
    case Cut(at, tag) => Piece1(b[..at], tag == Close) + [Deleted(b[at..at + TagLen(tag)], tag)]
  }

  /** The pieces one feed takes off the buffer. */
  function ScanPieces(b: string, inside: bool): seq<Piece>
    decreases |b|
  {
    match FirstCut(b, inside)
    case NoCut => RoundPieces(b, inside)
    case Cut(at, tag) => RoundPieces(b, inside) + ScanPieces(b[at + TagLen(tag)..], tag == Open)
  }

  /** The pieces of a whole run, the flushed buffer last. */
  function RunPieces(buf: string, inside: bool, chunks: seq<string>): seq<Piece>
    decreases |chunks|
  {
    if chunks == [] then Piece1(buf, inside)
    else
      var s := Scan(buf + chunks[0], inside);
      ScanPieces(buf + chunks[0], inside) + RunPieces(s.buf, s.inside, chunks[1..])
  }

  function Source(ps: seq<Piece>): string {
    if ps == [] then "" else ps[0].text + Source(ps[1..])
  }

  function Shows(ps: seq<Piece>): Output {
    if ps == [] then Output("", "")
    else if ps[0].Deleted? then Shows(ps[1..])
    else Shows(ps[1..]).After(ps[0].text, ps[0].Hidden?)
  }

  /** The total length of the deleted tags. */
  function TagChars(ps: seq<Piece>): nat {
    if ps == [] then 0 else (if ps[0].Deleted? then TagLen(ps[0].tag) else 0) + TagChars(ps[1..])
  }

  /** No complete tag stands anywhere in the text. */
  predicate NoTag(text: string, tag: Tag) {
    forall j: nat :: j < |text| ==> !TagAt(text, tag, j)
  }

  /** A shown piece holds no tag at all, a hidden piece no closer, a deleted piece is exactly its tag. */
  predicate PieceOk(p: Piece) {
    match p
    case Shown(text) => text != "" && NoTag(text, Open) && NoTag(text, Close)
    case Hidden(text) => text != "" && NoTag(text, Close)
    case Deleted(text, tag) => |text| == TagLen(tag) && TagAt(text, tag, 0)
  }

  predicate AllOk(ps: seq<Piece>) {
    forall k :: 0 <= k < |ps| ==> PieceOk(ps[k])
  }

  lemma {:induction false} SourceAppend(a: seq<Piece>, b: seq<Piece>)
    ensures Source(a + b) == Source(a) + Source(b)
  {
    if a == [] {
      assert a + b == b;
    } else {
      SourceAppend(a[1..], b);
      assert (a + b)[1..] == a[1..] + b;
      Assoc(a[0].text, Source(a[1..]), Source(b));
    }
  }

  lemma {:induction false} ShowsAppend(a: seq<Piece>, b: seq<Piece>)
    ensures Shows(a + b) == Shows(a).Then(Shows(b))
  {
    if a == [] {
      assert a + b == b;
      assert "" + Shows(b).vis == Shows(b).vis && "" + Shows(b).rsn == Shows(b).rsn;
    } else {
      ShowsAppend(a[1..], b);
      assert (a + b)[1..] == a[1..] + b;
      AfterThen(Shows(a[1..]), Shows(b), a[0].text, a[0].Hidden?);
    }
  }

  lemma Piece1Facts(text: string, hidden: bool)
    ensures Source(Piece1(text, hidden)) == text && Shows(Piece1(text, hidden)) == Only(text, hidden)
  {
    if text != "" {
      var p := Piece1(text, hidden);
      assert p[1..] == [] && text + "" == text;
    }
  }

  lemma RoundConserves(b: string, inside: bool)
    ensures match FirstCut(b, inside)
            case NoCut =>
              Source(RoundPieces(b, inside)) == b[..HeldBack(b)] &&
              Shows(RoundPieces(b, inside)) == Only(b[..HeldBack(b)], inside)
            case Cut(at, tag) =>
              Source(RoundPieces(b, inside)) == b[..at + TagLen(tag)] &&
              Shows(RoundPieces(b, inside)) == Only(b[..at], tag == Close)
  {
    match FirstCut(b, inside)
    case NoCut =>
      Piece1Facts(b[..HeldBack(b)], inside);
    case Cut(at, tag) =>
      var p, d := Piece1(b[..at], tag == Close), [Deleted(b[at..at + TagLen(tag)], tag)];
      Piece1Facts(b[..at], tag == Close);
      SourceAppend(p, d);
      ShowsAppend(p, d);
      assert d[1..] == [];
      NilRight(d[0].text);
      NilRight(Shows(p).vis);
      NilRight(Shows(p).rsn);
      assert b[..at] + b[at..at + TagLen(tag)] == b[..at + TagLen(tag)];
  }

  lemma {:induction false} ScanKeepsSource(b: string, inside: bool)
    ensures Source(ScanPieces(b, inside)) + Scan(b, inside).buf == b
    decreases |b|
  {
    RoundConserves(b, inside);
    match FirstCut(b, inside)
    case NoCut =>
    case Cut(at, tag) =>
      ScanKeepsSource(b[at + TagLen(tag)..], tag == Open);
      ScanSourceCut(b, inside, at, tag);
  }

  lemma ScanSourceCut(b: string, inside: bool, at: nat, tag: Tag)
    requires FirstCut(b, inside) == Cut(at, tag)
    requires var rest := b[at + TagLen(tag)..];
             Source(ScanPieces(rest, tag == Open)) + Scan(rest, tag == Open).buf == rest
    ensures Source(ScanPieces(b, inside)) + Scan(b, inside).buf == b
  {
    var rest := b[at + TagLen(tag)..];
    RoundConserves(b, inside);
    SourceAppend(RoundPieces(b, inside), ScanPieces(rest, tag == Open));
    ScanFromCut(b, inside, at, tag);
    SplitAgain(b, at + TagLen(tag), Source(ScanPieces(rest, tag == Open)), Scan(rest, tag == Open).buf);
  }

  lemma SplitAgain(b: string, n: nat, x: string, y: string)
    requires n <= |b| && x + y == b[n..]
    ensures (b[..n] + x) + y == b
  {
    Assoc(b[..n], x, y);
    assert b[..n] + b[n..] == b;
  }

  lemma ScanShowsCut(b: string, inside: bool, at: nat, tag: Tag)
    requires FirstCut(b, inside) == Cut(at, tag)
    requires var rest := b[at + TagLen(tag)..]; Shows(ScanPieces(rest, tag == Open)) == Scan(rest, tag == Open).out
    ensures Shows(ScanPieces(b, inside)) == Scan(b, inside).out
  {
    var rest := b[at + TagLen(tag)..];
    RoundConserves(b, inside);
    ShowsAppend(RoundPieces(b, inside), ScanPieces(rest, tag == Open));
    OnlyThen(b[..at], tag == Close, Scan(rest, tag == Open).out);
    ScanFromCut(b, inside, at, tag);
  }

  lemma {:induction false} ScanShows(b: string, inside: bool)
    ensures Shows(ScanPieces(b, inside)) == Scan(b, inside).out
    decreases |b|
  {
    RoundConserves(b, inside);
    match FirstCut(b, inside)
    case NoCut =>
    case Cut(at, tag) =>
      ScanShows(b[at + TagLen(tag)..], tag == Open);
      ScanShowsCut(b, inside, at, tag);
  }

  // ----- the shape of the pieces -----

  /** A stretch of the buffer before which the parser saw no tag. */
  lemma StretchOk(b: string, inside: bool, n: nat, hidden: bool)
    requires n <= |b| && TagFree(b, inside, n) && (inside ==> hidden)
    ensures AllOk(Piece1(b[..n], hidden))
  {
    forall j: nat | j < n
      ensures !TagAt(b[..n], Close, j) && (!inside ==> !TagAt(b[..n], Open, j))
    {
      assert !TagHere(b, inside, j);
      if j + 8 <= n {
        TagPrefix(b, n, Close, j);
      }
      if j + 7 <= n {
        TagPrefix(b, n, Open, j);
      }
    }
  }

  lemma DeletedOk(b: string, at: nat, tag: Tag)
    requires TagAt(b, tag, at)
    ensures PieceOk(Deleted(b[at..at + TagLen(tag)], tag))
  {
    TagShift(b, tag, at, 0);
    TagPrefix(b[at..], TagLen(tag), tag, 0);
    assert b[at..][..TagLen(tag)] == b[at..at + TagLen(tag)];
  }

  lemma RoundPiecesOk(b: string, inside: bool)
    ensures AllOk(RoundPieces(b, inside))
  {
    FirstCutIsFirst(b, inside);
    match FirstCut(b, inside)
    case NoCut =>
      StretchOk(b, inside, HeldBack(b), inside);
    case Cut(at, tag) =>
      StretchOk(b, inside, at, tag == Close);
      DeletedOk(b, at, tag);
  }

  lemma {:induction false} ScanPiecesOk(b: string, inside: bool)
    ensures AllOk(ScanPieces(b, inside))
    decreases |b|
  {
    RoundPiecesOk(b, inside);
    match FirstCut(b, inside)
    case NoCut =>
    case Cut(at, tag) =>
      var rest := b[at + TagLen(tag)..];
      ScanPiecesOk(rest, tag == Open);
  }

  lemma {:induction false} RunKeepsSource(buf: string, inside: bool, chunks: seq<string>)
    ensures Source(RunPieces(buf, inside, chunks)) == buf + Join(chunks)
    decreases |chunks|
  {
    if chunks == [] {
      Piece1Facts(buf, inside);
      NilRight(buf);
    } else {
      var b, more := buf + chunks[0], Join(chunks[1..]);
      var s := Scan(b, inside);
      var ps := ScanPieces(b, inside);
      ScanKeepsSource(b, inside);
      RunKeepsSource(s.buf, s.inside, chunks[1..]);
      SourceAppend(ps, RunPieces(s.buf, s.inside, chunks[1..]));
      Assoc(Source(ps), s.buf, more);
      Assoc(buf, chunks[0], more);
    }
  }

  lemma {:induction false} RunShows(buf: string, inside: bool, chunks: seq<string>)
    ensures Shows(RunPieces(buf, inside, chunks)) == Run(buf, inside, chunks)
    decreases |chunks|
  {
    if chunks == [] {
      Piece1Facts(buf, inside);
    } else {
      var b := buf + chunks[0];
      var s := Scan(b, inside);
      ScanShows(b, inside);
      RunShows(s.buf, s.inside, chunks[1..]);
      ShowsAppend(ScanPieces(b, inside), RunPieces(s.buf, s.inside, chunks[1..]));
    }
  }

  lemma {:induction false} RunPiecesOk(buf: string, inside: bool, chunks: seq<string>)
    requires Settled(buf, inside)
    ensures AllOk(RunPieces(buf, inside, chunks))
    decreases |chunks|
  {
    if chunks == [] {
      FirstCutIsFirst(buf, inside);
      assert buf[..|buf|] == buf;
      StretchOk(buf, inside, |buf|, inside);
    } else {
      var b := buf + chunks[0];
      var s := Scan(b, inside);
      ScanSettles(b, inside);
      ScanPiecesOk(b, inside);
      RunPiecesOk(s.buf, s.inside, chunks[1..]);
    }
  }

  /** For every text and chunking the input is the emitted and deleted pieces laid end to end,
      the totals are what those pieces show, and each piece has the right shape. */
  lemma Conservation(chunks: seq<string>)
    ensures var ps := RunPieces("", false, chunks);
            Source(ps) == Join(chunks) && Shows(ps) == Totals(chunks) && AllOk(ps)
  {
    RunKeepsSource("", false, chunks);
    NilLeft(Join(chunks));
    RunShows("", false, chunks);
    RunPiecesOk("", false, chunks);
  }

  lemma {:induction false} LengthsAddUp(ps: seq<Piece>)
    requires AllOk(ps)
    ensures |Source(ps)| == |Shows(ps).vis| + |Shows(ps).rsn| + TagChars(ps)
  {
    if ps != [] {
      LengthsAddUp(ps[1..]);
    }
  }

  /** No run loses or repeats a character. */
  lemma NothingLost(chunks: seq<string>)
    ensures var ps, out := RunPieces("", false, chunks), Totals(chunks);
            |Join(chunks)| == |out.vis| + |out.rsn| + TagChars(ps)
  {
    Conservation(chunks);
    LengthsAddUp(RunPieces("", false, chunks));
  }

  /** Between calls the buffer holds at most seven characters and no tag the parser reacts to. */
  lemma BufferStaysShort(b: string, inside: bool)
    ensures var s := Scan(b, inside);
            |s.buf| <= 7 && NoTag(s.buf, Close) && (!s.inside ==> NoTag(s.buf, Open))
  {
    ScanSettles(b, inside);
    var s := Scan(b, inside);
    FirstCutIsFirst(s.buf, s.inside);
    forall j: nat | j < |s.buf|
      ensures !TagAt(s.buf, Close, j) && (!s.inside ==> !TagAt(s.buf, Open, j))
    {
      NotHere(s.buf, s.inside, j);
    }
  }
}
