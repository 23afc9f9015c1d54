/** The streaming and the single-response path of the reasoning-aware chat client. */
module LlmClient {
  import opened Options
  import opened Text
  import opened Lists
  import opened ThinkingParser
  import opened ThinkingProperties
  import opened ThinkingRuns

  /** Message content is a string or some other provider structure. */
  datatype Content = Str(text: string) | Other

  /** A message or stream chunk: its content, `additional_kwargs["reasoning"]`, and everything else. */
  datatype Chunk = Chunk(content: Content, reasoning: Option<string>, rest: nat)

  /** The text a chunk feeds to the parser. */
  function TextOf(c: Chunk): string {
    if c.content.Str? then c.content.text else ""
  }

  function Texts(cs: seq<Chunk>): seq<string> {
    seq(|cs|, i requires 0 <= i < |cs| => TextOf(cs[i]))
  }

  /** The message with new content, and the reasoning filled in unless it is blank or already there. */
  function Finished(c: Chunk, content: string, rsn: string): Chunk {
    Chunk(Str(content), Collected(c.reasoning, rsn), c.rest)
  }

  /** The provider's own reasoning if there is any, else the stripped reasoning of the text unless it is blank. */
  predicate Carries(r: Option<string>, own: Option<string>, rsn: string) {
    if own.Some? then r == own else if Strip(rsn) == "" then r == None else r == Some(Strip(rsn))
  }

  function Collected(own: Option<string>, rsn: string): Option<string> {
    if own == None && Strip(rsn) != "" then Some(Strip(rsn)) else own
  }

  /** `_sanitize_response`: the complete message with its think blocks stripped. */
  function Sanitized(c: Chunk): Chunk {
    if TextOf(c) == "" then c
    else
      var out := Totals([TextOf(c)]);
      if Strip(out.vis) == Strip(TextOf(c)) && Strip(out.rsn) == "" then c
      else Finished(c, Strip(out.vis), out.rsn)
  }

  method SanitizeResponse(response: Chunk) returns (r: Chunk)
    ensures r == Sanitized(response)
  {
    var content := TextOf(response);
    if content == "" {
      return response;
    }
    var parser := new ThinkingOutputParser();
    var v, w := parser.Feed(content);
    OneFeed("", false, content);
    NilLeft(content);
    ghost var vis, rsn := parser.visible, parser.reasoning;
    assert vis == [v] && rsn == [w];
    var v2, w2 := parser.Flush();
    JoinSnoc([], v);
    JoinSnoc([], w);
    assert [] + [v] == vis && [] + [w] == rsn;
    NilLeft(v);
    NilLeft(w);
    assert Output(Join(parser.visible), Join(parser.reasoning)) == Totals([content]);
    var stripped, reasoning := parser.Visible(), parser.Reasoning();
    if stripped == Strip(content) && reasoning == "" {
      return response;
    }
    r := Finished(response, stripped, Join(parser.reasoning));
  }

  // ----- the stream -----

  /** What is yielded for the last chunk: the rest of the visible text, and all the reasoning. */
  function Final(c: Chunk, buf: string, inside: bool, rsn: string): Chunk {
    var out := Run(buf, inside, [TextOf(c)]);
    Finished(c, out.vis, rsn + out.rsn)
  }

  /** The chunk as yielded, unless it shows nothing. */
  function Yielded(c: Chunk, visible: string): seq<Chunk> {
    if visible != "" then [c.(content := Str(visible))] else []
  }

  /** The chunks yielded for a non-empty stream, without the look-ahead: each chunk that shows something,
      then the final one. */
  function Emitted(cs: seq<Chunk>, buf: string, inside: bool, rsn: string): (e: seq<Chunk>)
    requires cs != []
    ensures e != []
  {
    if |cs| == 1 then [Final(cs[0], buf, inside, rsn)]
    else
      var s := Scan(buf + TextOf(cs[0]), inside);
      Yielded(cs[0], s.out.vis) + Emitted(cs[1..], s.buf, s.inside, rsn + s.out.rsn)
  }

  lemma OneFeed(buf: string, inside: bool, text: string)
    ensures var s := Scan(buf + text, inside); Run(buf, inside, [text]) == s.out.Then(Only(s.buf, s.inside))
  {
    var s := Scan(buf + text, inside);
    assert [text][1..] == [] && [text][0] == text;
    assert Run(s.buf, s.inside, []) == Only(s.buf, s.inside);
  }

  method EmitFinalChunk(chunk: Chunk, parser: ThinkingOutputParser) returns (r: Chunk)
    requires Settled(parser.buf, parser.inside)
    modifies parser
    ensures r == Final(chunk, old(parser.buf), old(parser.inside), Join(old(parser.reasoning)))
  {
    var content := TextOf(chunk);
    ghost var buf, inside, rsn := parser.buf, parser.inside, Join(parser.reasoning);
    OneFeed(buf, inside, content);
    var visFeed, w := "", "";
    if content != "" {
      JoinSnoc(parser.reasoning, Scan(buf + content, inside).out.rsn);
      visFeed, w := parser.Feed(content);
    } else {
      NilRight(buf);
      NilRight(rsn);
    }
    assert Output(visFeed, w) == Scan(buf + content, inside).out;
    assert Join(parser.reasoning) == rsn + w;
    var visFlush, w2 := parser.Flush();
    Assoc(rsn, w, w2);
    var reasoning := parser.Reasoning();
    r := Finished(chunk, visFeed + visFlush, Join(parser.reasoning));
  }

  /** Yields with a delay of one chunk, because the last chunk is treated differently. */
  method Stream(chunks: seq<Chunk>) returns (out: seq<Chunk>)
    ensures out == if chunks == [] then [] else Emitted(chunks, "", false, "")
  {
    var parser := new ThinkingOutputParser();
    var prev: Option<Chunk> := None;
    out := [];
    assert Settled("", false);
    for i := 0 to |chunks|
      invariant prev == if i == 0 then None else Some(chunks[i - 1])
      invariant fresh(parser) && Settled(parser.buf, parser.inside)
      invariant i == 0 ==> out == [] && parser.buf == "" && !parser.inside && parser.reasoning == []
      invariant i > 0 ==> Emitted(chunks, "", false, "")
                          == out + Emitted(chunks[i - 1..], parser.buf, parser.inside, Join(parser.reasoning))
    {
      if prev.Some? {
        var text := TextOf(prev.value);
        ghost var cs, buf, inside, rsn := chunks[i - 1..], parser.buf, parser.inside, Join(parser.reasoning);
        ghost var sofar := out;
        NilSeq(sofar);
        ghost var s := Scan(buf + text, inside);
        JoinSnoc(parser.reasoning, s.out.rsn);
        ScanSettles(buf + text, inside);
        var visible, w := parser.Feed(text);
        if visible != "" {
          out := out + [prev.value.(content := Str(visible))];
        }
        assert cs[1..] == chunks[i..];
        EmittedStep(cs, buf, inside, rsn, sofar);
      } else {
        assert chunks[0..] == chunks;
      }
      prev := Some(chunks[i]);
    }
    if prev.Some? {
      assert |chunks[|chunks| - 1..]| == 1;
      var last := EmitFinalChunk(prev.value, parser);
      out := out + [last];
    }
  }

  lemma EmittedStep(cs: seq<Chunk>, buf: string, inside: bool, rsn: string, sofar: seq<Chunk>)
    requires |cs| > 1
    ensures var s := Scan(buf + TextOf(cs[0]), inside);
            sofar + Emitted(cs, buf, inside, rsn) ==
            (sofar + Yielded(cs[0], s.out.vis)) + Emitted(cs[1..], s.buf, s.inside, rsn + s.out.rsn)
  {
    var s := Scan(buf + TextOf(cs[0]), inside);
    AssocSeq(sofar, Yielded(cs[0], s.out.vis), Emitted(cs[1..], s.buf, s.inside, rsn + s.out.rsn));
  }

  // ----- the stream against the whole text and against invoke -----

  lemma TextsCons(cs: seq<Chunk>)
    requires cs != []
    ensures Texts(cs)[0] == TextOf(cs[0]) && Texts(cs)[1..] == Texts(cs[1..])
    ensures Join(Texts(cs)) == TextOf(cs[0]) + Join(Texts(cs[1..]))
  {
  }

  /** The yielded contents put together are the visible total of the run, whatever the stream. */
  lemma {:induction false} StreamShowsTotals(cs: seq<Chunk>, buf: string, inside: bool, rsn: string)
    requires cs != []
    ensures Join(Texts(Emitted(cs, buf, inside, rsn))) == Run(buf, inside, Texts(cs)).vis
  {
    var e := Emitted(cs, buf, inside, rsn);
    TextsCons(cs);
    TextsCons(e);
    if |cs| == 1 {
      assert Texts(cs) == [TextOf(cs[0])];
      assert Texts(e[1..]) == [];
      NilRight(TextOf(e[0]));
    } else {
      var s := Scan(buf + TextOf(cs[0]), inside);
      StreamShowsTotals(cs[1..], s.buf, s.inside, rsn + s.out.rsn);
      if s.out.vis != "" {
        assert e[1..] == Emitted(cs[1..], s.buf, s.inside, rsn + s.out.rsn);
      } else {
        NilLeft(Run(s.buf, s.inside, Texts(cs[1..])).vis);
        assert e == Emitted(cs[1..], s.buf, s.inside, rsn + s.out.rsn);
      }
    }
  }

  lemma RunTexts(cs: seq<Chunk>, buf: string, inside: bool)
    requires cs != []
    ensures var s := Scan(buf + TextOf(cs[0]), inside);
            Run(buf, inside, Texts(cs)) == s.out.Then(Run(s.buf, s.inside, Texts(cs[1..])))
  {
    TextsCons(cs);
  }

  /** The chunk that ends a stream. */
  function LastYielded(cs: seq<Chunk>, buf: string, inside: bool, rsn: string): Chunk
    requires cs != []
  {
    if |cs| == 1 then Final(cs[0], buf, inside, rsn)
    else
      var s := Scan(buf + TextOf(cs[0]), inside);
      LastYielded(cs[1..], s.buf, s.inside, rsn + s.out.rsn)
  }

  lemma {:induction false} EmittedEnds(cs: seq<Chunk>, buf: string, inside: bool, rsn: string)
    requires cs != []
    ensures var e := Emitted(cs, buf, inside, rsn); e[|e| - 1] == LastYielded(cs, buf, inside, rsn)
  {
    if |cs| > 1 {
      var s := Scan(buf + TextOf(cs[0]), inside);
      EmittedEnds(cs[1..], s.buf, s.inside, rsn + s.out.rsn);
    }
  }

  /** A last message: a copy of the last chunk with new text, carrying its own reasoning or else the text's. */
  predicate Concludes(r: Chunk, last: Chunk, rsn: string) {
    r.content.Str? && r.rest == last.rest && Carries(r.reasoning, last.reasoning, rsn)
  }

  lemma FinalReasons(c: Chunk, buf: string, inside: bool, rsn: string)
    ensures Concludes(Final(c, buf, inside, rsn), c, rsn + Run(buf, inside, [TextOf(c)]).rsn)
  {
  }

  lemma RunReasons(cs: seq<Chunk>, buf: string, inside: bool, rsn: string)
    requires cs != []
    ensures var s := Scan(buf + TextOf(cs[0]), inside);
            rsn + Run(buf, inside, Texts(cs)).rsn == (rsn + s.out.rsn) + Run(s.buf, s.inside, Texts(cs[1..])).rsn
  {
    var s := Scan(buf + TextOf(cs[0]), inside);
    RunTexts(cs, buf, inside);
    Assoc(rsn, s.out.rsn, Run(s.buf, s.inside, Texts(cs[1..])).rsn);
  }

  lemma {:induction false} LastReasons(cs: seq<Chunk>, buf: string, inside: bool, rsn: string)
    requires cs != []
    ensures Concludes(LastYielded(cs, buf, inside, rsn), cs[|cs| - 1], rsn + Run(buf, inside, Texts(cs)).rsn)
  {
    if |cs| == 1 {
      assert Texts(cs) == [TextOf(cs[0])];
      FinalReasons(cs[0], buf, inside, rsn);
    } else {
      var s := Scan(buf + TextOf(cs[0]), inside);
      LastReasons(cs[1..], s.buf, s.inside, rsn + s.out.rsn);
      RunReasons(cs, buf, inside, rsn);
      assert cs[1..][|cs| - 2] == cs[|cs| - 1];
    }
  }

  /** The last yielded message is a copy of the last chunk carrying the reasoning of the whole run. */
  lemma StreamKeepsReasoning(cs: seq<Chunk>, buf: string, inside: bool, rsn: string)
    requires cs != []
    ensures var e, last := Emitted(cs, buf, inside, rsn), cs[|cs| - 1];
            e != [] && Concludes(e[|e| - 1], last, rsn + Run(buf, inside, Texts(cs)).rsn)
  {
    EmittedEnds(cs, buf, inside, rsn);
    LastReasons(cs, buf, inside, rsn);
  }

  /** The chunk with other, non-empty text. */
  predicate Retexted(c: Chunk, was: Chunk) {
    c.content.Str? && c.content.text != "" && c.reasoning == was.reasoning && c.rest == was.rest
  }

  /** A chunk other than the last that shows nothing new is dropped, no chunk is yielded twice, and the yielded chunks
      keep their order; only the last one may be empty or get another reasoning. */
  predicate InOrder(e: seq<Chunk>, cs: seq<Chunk>) {
    e == [] ||
    (cs != [] &&
     (((if |e| > 1 then Retexted(e[0], cs[0]) else e[0].rest == cs[0].rest && |cs| == 1) && InOrder(e[1..], cs[1..])) ||
      InOrder(e, cs[1..])))
  }

  lemma {:induction false} StreamInOrder(cs: seq<Chunk>, buf: string, inside: bool, rsn: string)
    requires cs != []
    ensures InOrder(Emitted(cs, buf, inside, rsn), cs)
  {
    var e := Emitted(cs, buf, inside, rsn);
    if |cs| == 1 {
      assert e[1..] == [] && |e| == 1;
    } else {
      var s := Scan(buf + TextOf(cs[0]), inside);
      var later := Emitted(cs[1..], s.buf, s.inside, rsn + s.out.rsn);
      StreamInOrder(cs[1..], s.buf, s.inside, rsn + s.out.rsn);
      if s.out.vis != "" {
        assert e[1..] == later;
      } else {
        assert e == later;
      }
    }
  }

  /** Streaming a clean text in any chunks shows, up to outer whitespace, what the single response shows. Both carry
      the same reasoning when the provider's own reasoning, if any, is the same on the response and the last chunk. */
  lemma StreamRefinesInvoke(response: Chunk, chunks: seq<Chunk>)
    requires chunks != [] && Join(Texts(chunks)) == TextOf(response) && Clean(TextOf(response), false, false)
    ensures var e, r := Emitted(chunks, "", false, ""), Sanitized(response);
            Strip(Join(Texts(e))) == Strip(TextOf(r)) && e != [] &&
            (chunks[|chunks| - 1].reasoning == response.reasoning ==> e[|e| - 1].reasoning == r.reasoning)
  {
    StreamOfCleanText(chunks, TextOf(response));
    SanitizedShows(response);
  }

  /** What a stream of a clean text comes to, told from the whole text. */
  lemma StreamOfCleanText(chunks: seq<Chunk>, text: string)
    requires chunks != [] && Join(Texts(chunks)) == text && Clean(text, false, false)
    ensures var e, out := Emitted(chunks, "", false, ""), Totals([text]);
            Join(Texts(e)) == out.vis && e != [] &&
            Carries(e[|e| - 1].reasoning, chunks[|chunks| - 1].reasoning, out.rsn)
  {
    ChunkInvariance(text, Texts(chunks));
    StreamShowsTotals(chunks, "", false, "");
    StreamKeepsReasoning(chunks, "", false, "");
    NilLeft(Totals([text]).rsn);
  }

  /** The single response: unchanged when it has no text or nothing is to be stripped; otherwise its text is the
      stripped visible total and all else but the reasoning stays. In every case it carries the provider's own reasoning
      or else that of the text. */
  lemma SanitizedShows(response: Chunk)
    ensures var text, out, r := TextOf(response), Totals([TextOf(response)]), Sanitized(response);
            (if text == "" || (Strip(out.vis) == Strip(text) && Strip(out.rsn) == "") then r == response
             else r.content == Str(Strip(out.vis)) && r.rest == response.rest) &&
            Strip(TextOf(r)) == Strip(out.vis) && Carries(r.reasoning, response.reasoning, out.rsn)
  {
    var out := Totals([TextOf(response)]);
    StripIdempotent(out.vis);
    if TextOf(response) == "" {
      EmptyText();
    }
  }

  lemma EmptyText()
    ensures Totals([""]) == Output("", "") && Strip("") == ""
  {
    OneFeed("", false, "");
    assert Settled("", false);
  }

  // ----- no text is held back -----

  /** What feeding the texts gives, without the flush. */
  function Scanned(buf: string, inside: bool, texts: seq<string>): ScanResult
    decreases |texts|
  {
    if texts == [] then ScanResult(Output("", ""), buf, inside)
    else
      var s := Scan(buf + texts[0], inside);
      var r := Scanned(s.buf, s.inside, texts[1..]);
      ScanResult(s.out.Then(r.out), r.buf, r.inside)
  }

  /** The first m chunks, not all there are, show the text. */
  predicate ShowsBy(e: seq<Chunk>, m: nat, text: string) {
    m < |e| && Join(Texts(e[..m])) == text
  }

  lemma ShowsMore(first: seq<Chunk>, later: seq<Chunk>, n: nat, a: string, b: string)
    requires Join(Texts(first)) == a && ShowsBy(later, n, b)
    ensures ShowsBy(first + later, |first| + n, a + b)
  {
    assert (first + later)[..|first| + n] == first + later[..n];
    assert Texts(first + later[..n]) == Texts(first) + Texts(later[..n]);
    JoinAppend(Texts(first), Texts(later[..n]));
  }

  /** Once the chunk after the first k has arrived, the chunks yielded show everything the parser made visible of these
      k: nothing waits for the end of the stream. */
  lemma {:induction false} StreamIsPrompt(cs: seq<Chunk>, buf: string, inside: bool, rsn: string, k: nat)
      returns (m: nat)
    requires k < |cs|
    ensures m <= k && ShowsBy(Emitted(cs, buf, inside, rsn), m, Scanned(buf, inside, Texts(cs[..k])).out.vis)
    decreases k
  {
    m := 0;
    if k == 0 {
      ShowsNothing(Emitted(cs, buf, inside, rsn), cs);
    } else {
      var s := Scan(buf + TextOf(cs[0]), inside);
      var n := StreamIsPrompt(cs[1..], s.buf, s.inside, rsn + s.out.rsn, k - 1);
      var first := Yielded(cs[0], s.out.vis);
      YieldedText(cs[0], s.out.vis);
      FrontScanned(cs, buf, inside, k);
      ShowsMore(first, Emitted(cs[1..], s.buf, s.inside, rsn + s.out.rsn), n, s.out.vis,
                Scanned(s.buf, s.inside, Texts(cs[1..][..k - 1])).out.vis);
      m := |first| + n;
    }
  }

  lemma ShowsNothing(e: seq<Chunk>, cs: seq<Chunk>)
    requires e != []
    ensures ShowsBy(e, 0, "") && Texts(cs[..0]) == []
  {
    assert Texts(e[..0]) == [];
  }

  lemma FrontScanned(cs: seq<Chunk>, buf: string, inside: bool, k: nat)
    requires 0 < k <= |cs|
    ensures var s := Scan(buf + TextOf(cs[0]), inside);
            Scanned(buf, inside, Texts(cs[..k])).out.vis ==
            s.out.vis + Scanned(s.buf, s.inside, Texts(cs[1..][..k - 1])).out.vis
  {
    assert cs[..k][0] == cs[0] && cs[..k][1..] == cs[1..][..k - 1];
    ScannedStep(cs[..k], buf, inside);
  }

  lemma YieldedText(c: Chunk, visible: string)
    ensures Join(Texts(Yielded(c, visible))) == visible
  {
    if visible != "" {
      var only := Yielded(c, visible);
      assert Texts(only) == [visible];
      JoinCons(visible, []);
      NilRight(visible);
    }
  }

  lemma ScannedStep(cs: seq<Chunk>, buf: string, inside: bool)
    requires cs != []
    ensures var s := Scan(buf + TextOf(cs[0]), inside);
            Scanned(buf, inside, Texts(cs)).out.vis ==
            s.out.vis + Scanned(s.buf, s.inside, Texts(cs[1..])).out.vis
  {
    TextsCons(cs);
  }
}
