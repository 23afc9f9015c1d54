/** Whole runs of the parser: when chunking does not matter, and what no run loses. */
module ThinkingRuns {
  import opened Text
  import opened ThinkingParser
  import opened ThinkingProperties

  /** Everything returned by feeding the chunks and then flushing, from a given parser state. */
  function Run(buf: string, inside: bool, chunks: seq<string>): Output
    decreases |chunks|
  {
    if chunks == [] then Only(buf, inside)
    else
      var s := Scan(buf + chunks[0], inside);
      s.out.Then(Run(s.buf, s.inside, chunks[1..]))
  }

  /** The total visible and reasoning text of a fresh parser. */
  function Totals(chunks: seq<string>): Output {
    Run("", false, chunks)
  }

  /** One chunk for each character. */
  function Chars(t: string): seq<string> {
    if t == "" then [] else [[t[0]]] + Chars(t[1..])
  }

  lemma CharsJoin(t: string)
    ensures Join(Chars(t)) == t
  {
  }

  // ----- the online reference describes clean runs and character-by-character runs -----

  lemma CleanStep(b: string, inside: bool, pending: bool, t: string)
    requires Clean(b + t, inside, pending)
    ensures var s := Scan(b, inside);
            Settled(s.buf, s.inside) && Clean(s.buf + t, s.inside, PendingAfter(b, inside, pending)) &&
            Online(b + t, inside) == s.out.Then(Online(s.buf + t, s.inside))
  {
    CleanRetractsNothing(b, inside, pending, t);
    CleanFeed(b, inside, pending, t);
    FeedIsOnline(b, inside, t);
    ScanSettles(b, inside);
  }

  lemma {:induction false} CleanRun(buf: string, inside: bool, pending: bool, chunks: seq<string>)
    requires Settled(buf, inside) && Clean(buf + Join(chunks), inside, pending)
    ensures Run(buf, inside, chunks) == Online(buf + Join(chunks), inside)
    decreases |chunks|
  {
    if chunks == [] {
      assert buf + "" == buf;
      FlushIsOnline(buf, inside);
    } else {
      var b, t := buf + chunks[0], Join(chunks[1..]);
      assert buf + Join(chunks) == b + t;
      var s := Scan(b, inside);
      CleanStep(b, inside, pending, t);
      CleanRun(s.buf, s.inside, PendingAfter(b, inside, pending), chunks[1..]);
    }
  }

  lemma {:induction false} CharRun(buf: string, inside: bool, t: string)
    requires Settled(buf, inside)
    ensures Run(buf, inside, Chars(t)) == Online(buf + t, inside)
    decreases |t|
  {
    if t == "" {
      assert buf + "" == buf;
      FlushIsOnline(buf, inside);
    } else {
      var b := buf + [t[0]];
      assert buf + t == b + t[1..];
      assert Chars(t)[1..] == Chars(t[1..]);
      var s := Scan(b, inside);
      FeedIsOnline(b, inside, t[1..]);
      ScanSettles(b, inside);
      CharRun(s.buf, s.inside, t[1..]);
    }
  }

  // ----- the whole-text reference describes a single feed -----

  lemma WholeAtTag(t: string, inside: bool, at: nat, tag: Tag)
    requires TagAt(t, tag, at) && TagFree(t, inside, at) && (tag == Close || !inside)
    ensures Whole(t, inside, "") == Whole(t[at + TagLen(tag)..], tag == Open, "").After(t[..at], tag == Close)
  {
    WholeSkip(t, inside, "", at);
    TagShift(t, tag, at, 0);
    OneTagHere(t[at..], 0);
    assert t[at..][TagLen(tag)..] == t[at + TagLen(tag)..];
    assert "" + t[..at] == t[..at];
    if inside {
      AfterNothing(Whole(t[at + TagLen(tag)..], false, ""), true);
    }
  }

  lemma NoTagIsWhole(t: string, inside: bool)
    requires FirstCut(t, inside) == NoCut
    ensures Whole(t, inside, "") == Only(t, inside)
  {
    FirstCutIsFirst(t, inside);
    WholeSkip(t, inside, "", |t|);
    assert t[|t|..] == "" && t[..|t|] == t;
    NilLeft(t);
    NilRight(t);
  }

  lemma WholeFromCut(t: string, inside: bool, at: nat, tag: Tag)
    requires FirstCut(t, inside) == Cut(at, tag)
    ensures Whole(t, inside, "") == Whole(t[at + TagLen(tag)..], tag == Open, "").After(t[..at], tag == Close)
  {
    FirstCutIsFirst(t, inside);
    WholeAtTag(t, inside, at, tag);
  }

  /** What a scan and the flush after it show. */
  lemma FlushAfterCut(t: string, inside: bool, at: nat, tag: Tag)
    requires FirstCut(t, inside) == Cut(at, tag)
    ensures var s, c := Scan(t, inside), Scan(t[at + TagLen(tag)..], tag == Open);
            s.out.Then(Only(s.buf, s.inside)) == c.out.Then(Only(c.buf, c.inside)).After(t[..at], tag == Close)
  {
    var c := Scan(t[at + TagLen(tag)..], tag == Open);
    ScanFromCut(t, inside, at, tag);
    AfterThen(c.out, Only(c.buf, c.inside), t[..at], tag == Close);
  }

  lemma FlushWithoutCut(t: string, inside: bool)
    requires FirstCut(t, inside) == NoCut
    ensures var s := Scan(t, inside); s.out.Then(Only(s.buf, s.inside)) == Only(t, inside)
  {
    assert t[..HeldBack(t)] + t[HeldBack(t)..] == t;
  }

  lemma {:induction false} OneFeedIsWhole(t: string, inside: bool)
    ensures var s := Scan(t, inside); s.out.Then(Only(s.buf, s.inside)) == Whole(t, inside, "")
    decreases |t|
  {
    match FirstCut(t, inside)
    case NoCut =>
      NoTagIsWhole(t, inside);
      FlushWithoutCut(t, inside);
    case Cut(at, tag) =>
      OneFeedIsWhole(t[at + TagLen(tag)..], tag == Open);
      FlushAfterCut(t, inside, at, tag);
      WholeFromCut(t, inside, at, tag);
  }

  lemma SingleFeed(text: string)
    ensures Totals([text]) == Whole(text, false, "")
  {
    var s := Scan(text, false);
    assert "" + text == text;
    assert [text][1..] == [] && [text][0] == text;
    assert Run(s.buf, s.inside, [text][1..]) == Only(s.buf, s.inside);
    assert Run("", false, [text]) == s.out.Then(Only(s.buf, s.inside));
    OneFeedIsWhole(text, false);
  }

  // ----- where the two references part -----

  lemma PendingInside(t: string, p: bool, q: bool)
    ensures Clean(t, true, p) == Clean(t, true, q)
  {
  }

  /** The whole-text run never shows more than the character-by-character run,
      and strictly less as soon as an orphaned closer follows text. */
  lemma {:induction false} UncleanShowsLess(t: string, inside: bool, seg: string)
    requires inside ==> seg == ""
    ensures |Whole(t, inside, seg).vis| <= |seg| + |Online(t, inside).vis|
    ensures !Clean(t, inside, seg != "") ==> |Whole(t, inside, seg).vis| < |seg| + |Online(t, inside).vis|
    decreases |t|
  {
    if t == "" {
    } else if TagAt(t, Close, 0) {
      UncleanShowsLess(t[8..], false, "");
    } else if !inside && TagAt(t, Open, 0) {
      UncleanShowsLess(t[7..], true, "");
    } else if inside {
      PendingInside(t[1..], true, false);
      UncleanShowsLess(t[1..], true, "");
    } else {
      UncleanShowsLess(t[1..], false, seg + [t[0]]);
    }
  }

  // ----- chunk invariance -----

  /** On a clean text every chunking yields the same totals, the ones of the online reference. */
  lemma {:induction false} ChunkInvariance(text: string, chunks: seq<string>)
    requires Clean(text, false, false) && Join(chunks) == text
    ensures Totals(chunks) == Totals([text]) == Online(text, false)
  {
    assert Settled("", false);
    assert "" + text == text;
    CleanRun("", false, false, chunks);
    OneChunkJoins(text);
    CleanRun("", false, false, [text]);
  }

  /** Chunking is irrelevant for a text exactly when no orphaned closer in it follows text. */
  lemma ChunkInvarianceExactly(text: string)
    ensures Clean(text, false, false) <==> forall chunks :: Join(chunks) == text ==> Totals(chunks) == Totals([text])
  {
    if Clean(text, false, false) {
      forall chunks | Join(chunks) == text
        ensures Totals(chunks) == Totals([text])
      {
        ChunkInvariance(text, chunks);
      }
    } else {
      CharsJoin(text);
      assert Settled("", false);
      assert "" + text == text;
      CharRun("", false, text);
      SingleFeed(text);
      UncleanShowsLess(text, false, "");
      assert Totals(Chars(text)) != Totals([text]);
    }
  }

  lemma {:induction false} NoStrayIsClean(t: string, inside: bool, pending: bool)
    requires NoStray(t, inside)
    ensures Clean(t, inside, pending)
    decreases |t|
  {
    if t == "" {
    } else if TagAt(t, Close, 0) {
      NoStrayIsClean(t[8..], false, false);
    } else if !inside && TagAt(t, Open, 0) {
      NoStrayIsClean(t[7..], true, false);
    } else {
      NoStrayIsClean(t[1..], inside, true);
    }
  }

  /** Texts whose every closer ends a block, cut anywhere, empty chunks included. */
  lemma BalancedTextsDoNotDependOnChunks(text: string, chunks: seq<string>)
    requires NoStray(text, false) && Join(chunks) == text
    ensures Totals(chunks) == Totals([text])
  {
    NoStrayIsClean(text, false, false);
    ChunkInvariance(text, chunks);
  }

  // ----- a block that is never closed -----

  /** The text leaves the parser outside a block. */
  predicate EndsOutside(t: string, inside: bool)
    decreases |t|
  {
    if t == "" then !inside
    else if TagAt(t, Close, 0) then EndsOutside(t[8..], false)
    else if !inside && TagAt(t, Open, 0) then EndsOutside(t[7..], true)
    else EndsOutside(t[1..], inside)
  }

  predicate IsOpener(s: string) {
    |s| == 7 && LowerAll(s) == "<think>"
  }

  /** Text that goes on with an opener begins with the tags it begins with on its own, because no tag holds the first
      character of another past its own first. */
  lemma TagBeforeOpener(pre: string, more: string, tag: Tag)
    requires pre != "" && |more| >= 7 && IsOpener(more[..7])
    ensures TagAt(pre + more, tag, 0) == TagAt(pre, tag, 0)
  {
    var n, all := TagLen(tag), pre + more;
    assert all[|pre|] == more[0];
    LowerAt(more[..7], 0);
    if n <= |pre| {
      assert all[0..n] == pre[0..n];
    } else {
      LowerAt(all[0..n], |pre|);
    }
  }

  lemma OpenerFirst(more: string, pending: bool)
    requires |more| >= 7 && IsOpener(more[..7])
    ensures Online(more, false) == Online(more[7..], true)
    ensures Clean(more, false, pending) == Clean(more[7..], true, false)
  {
    assert more[0..7] == more[..7];
    OneTagHere(more, 0);
  }

  /** A text before an opener is split and judged as it is on its own. */
  lemma {:induction false} BeforeOpener(pre: string, more: string, inside: bool, pending: bool)
    requires |more| >= 7 && IsOpener(more[..7]) && EndsOutside(pre, inside)
    ensures Online(pre + more, inside) == Online(pre, inside).Then(Online(more[7..], true))
    ensures Clean(pre + more, inside, pending) == (Clean(pre, inside, pending) && Clean(more[7..], true, false))
    decreases |pre|
  {
    if pre == "" {
      NilLeft(more);
      OpenerFirst(more, pending);
      OnlyThen("", false, Online(more[7..], true));
      AfterNothing(Online(more[7..], true), false);
    } else {
      TagBeforeOpener(pre, more, Close);
      TagBeforeOpener(pre, more, Open);
      if TagAt(pre, Close, 0) {
        SliceOfSum(pre, more, 8);
        BeforeOpener(pre[8..], more, false, false);
      } else if !inside && TagAt(pre, Open, 0) {
        SliceOfSum(pre, more, 7);
        BeforeOpener(pre[7..], more, true, false);
      } else {
        SliceOfSum(pre, more, 1);
        BeforeOpener(pre[1..], more, inside, true);
        AfterThen(Online(pre[1..], inside), Online(more[7..], true), [pre[0]], inside);
      }
    }
  }

  /** Text without a closer inside a block. */
  lemma StaysInside(t: string)
    requires Find(t, Close) == -1
    ensures Online(t, true) == Output("", t) && Clean(t, true, false)
  {
    FirstCutIsFirst(t, true);
    OnlineSkip(t, true, |t|);
    CleanSkip(t, true, false, |t|);
    assert t[|t|..] == "" && t[..|t|] == t && t + "" == t;
  }

  /** A block that is never closed, after any clean text, its opener in any letter case and the whole cut anywhere: all
      of its text is kept as reasoning, and what comes before it is split as on its own. */
  lemma UnclosedBlockIsReasoning(pre: string, opener: string, t: string, chunks: seq<string>)
    requires EndsOutside(pre, false) && Clean(pre, false, false) && IsOpener(opener) && Find(t, Close) == -1
    requires Join(chunks) == pre + (opener + t)
    ensures Totals(chunks) == Output(Online(pre, false).vis, Online(pre, false).rsn + t)
  {
    var more := opener + t;
    assert more[..7] == opener && more[7..] == t;
    BeforeOpener(pre, more, false, false);
    StaysInside(t);
    ChunkInvariance(pre + more, chunks);
    NilRight(Online(pre, false).vis);
  }

  // ----- after any text, clean or not -----

  lemma {:induction false} EndsSkip(pre: string, more: string, inside: bool, n: nat)
    requires |more| >= 7 && IsOpener(more[..7]) && EndsOutside(pre, inside)
    requires n <= |pre + more| && TagFree(pre + more, inside, n)
    ensures n <= |pre| && EndsOutside(pre[n..], inside)
  {
    if n == 0 {
      assert pre[0..] == pre;
    } else {
      assert more[0..7] == more[..7];
      NilLeft(more);
      assert !TagHere(pre + more, inside, 0);
      if pre != "" {
        TagBeforeOpener(pre, more, Close);
        TagBeforeOpener(pre, more, Open);
        SliceOfSum(pre, more, 1);
        TagFreeTail(pre + more, inside, n);
        EndsSkip(pre[1..], more, inside, n - 1);
        assert pre[1..][n - 1..] == pre[n..];
      }
    }
  }

  lemma RunCons(buf: string, inside: bool, chunk: string, chunks: seq<string>)
    ensures var s := Scan(buf + chunk, inside);
            Run(buf, inside, [chunk] + chunks) == s.out.Then(Run(s.buf, s.inside, chunks))
  {
    assert ([chunk] + chunks)[1..] == chunks;
  }

  /** A run from its first tag on is the run of what follows the tag. */
  lemma RunFromCut(buf: string, inside: bool, chunk: string, chunks: seq<string>, at: nat, tag: Tag)
    requires FirstCut(buf + chunk, inside) == Cut(at, tag)
    ensures var b := buf + chunk;
            Run(buf, inside, [chunk] + chunks) ==
            Run("", tag == Open, [b[at + TagLen(tag)..]] + chunks).After(b[..at], tag == Close)
  {
    var b := buf + chunk;
    var rest := b[at + TagLen(tag)..];
    var s := Scan(rest, tag == Open);
    ScanFromCut(b, inside, at, tag);
    RunCons(buf, inside, chunk, chunks);
    NilLeft(rest);
    RunCons("", tag == Open, rest, chunks);
    AfterThen(s.out, Run(s.buf, s.inside, chunks), b[..at], tag == Close);
  }

  lemma InsideRun(chunks: seq<string>, t: string)
    requires Find(t, Close) == -1 && Join(chunks) == t
    ensures Run("", true, chunks) == Output("", t)
  {
    FirstCutIsFirst("", true);
    assert Settled("", true);
    NilLeft(t);
    StaysInside(t);
    CleanRun("", true, false, chunks);
  }

  /** Where the first tag stands: before the opener, or it is the opener. */
  lemma CutBeforeOpener(pre: string, more: string, inside: bool, at: nat, tag: Tag)
    requires |more| >= 7 && IsOpener(more[..7]) && EndsOutside(pre, inside)
    requires TagAt(pre + more, tag, at) && TagFree(pre + more, inside, at) && (tag == Close || !inside)
    ensures if at < |pre| then at + TagLen(tag) <= |pre| && EndsOutside(pre[at + TagLen(tag)..], tag == Open)
            else at == |pre| && tag == Open
  {
    EndsSkip(pre, more, inside, at);
    SliceOfSum(pre, more, at);
    TagShift(pre + more, tag, at, 0);
    if at < |pre| {
      TagBeforeOpener(pre[at..], more, tag);
      OneTagHere(pre[at..], 0);
      assert pre[at..][TagLen(tag)..] == pre[at + TagLen(tag)..];
    } else {
      assert pre[at..] + more == more && more[0..7] == more[..7];
      OneTagHere(more, 0);
    }
  }

  /** The text ends in a block that is never closed: what precedes its opener, the opener, its text. */
  predicate Unclosed(text: string, inside: bool, pre: string, opener: string, t: string) {
    EndsOutside(pre, inside) && IsOpener(opener) && Find(t, Close) == -1 && text == pre + (opener + t)
  }

  lemma {:induction false} UnclosedRun(buf: string, inside: bool, chunks: seq<string>, pre: string, opener: string,
                                       t: string) returns (r: string)
    requires Settled(buf, inside) && Unclosed(buf + Join(chunks), inside, pre, opener, t)
    ensures Run(buf, inside, chunks).rsn == r + t
    decreases |pre|, |chunks|, 1
  {
    if chunks == [] {
      assert t == "";
      r := Run(buf, inside, chunks).rsn;
      NilRight(r);
    } else {
      var b, more := buf + chunks[0], opener + t;
      Assoc(buf, chunks[0], Join(chunks[1..]));
      assert more[..7] == opener && more[7..] == t;
      CutExtends(b, inside, Join(chunks[1..]));
      match FirstCut(b, inside) {
        case NoCut =>
          var n := HeldBack(b);
          EndsSkip(pre, more, inside, n);
          SliceOfSum(pre, more, n);
          SliceOfSum(b, Join(chunks[1..]), n);
          ScanSettles(b, inside);
          var r1 := UnclosedRun(b[n..], inside, chunks[1..], pre[n..], opener, t);
          r := Only(b[..n], inside).rsn + r1;
          Assoc(Only(b[..n], inside).rsn, r1, t);
        case Cut(at, tag) =>
          assert [chunks[0]] + chunks[1..] == chunks;
          r := UnclosedAfterCut(buf, inside, chunks[0], chunks[1..], pre, opener, t, at, tag);
      }
    }
  }

  /** What is left of the text after the first tag. */
  lemma AfterCut(b: string, last: string, pre: string, more: string, inside: bool, at: nat, tag: Tag)
    requires |more| >= 7 && IsOpener(more[..7]) && EndsOutside(pre, inside)
    requires b + last == pre + more && FirstCut(b, inside) == Cut(at, tag)
    ensures var n := at + TagLen(tag);
            if at < |pre| then n <= |pre| && EndsOutside(pre[n..], tag == Open) && b[n..] + last == pre[n..] + more
            else tag == Open && b[n..] + last == more[7..]
  {
    var n := at + TagLen(tag);
    FirstCutIsFirst(b, inside);
    CutExtends(b, inside, last);
    CutBeforeOpener(pre, more, inside, at, tag);
    SliceOfSum(b, last, n);
    if at < |pre| {
      SliceOfSum(pre, more, n);
    }
  }

  lemma UnclosedCut(b: string, last: string, inside: bool, pre: string, opener: string, t: string, at: nat, tag: Tag)
    requires Unclosed(b + last, inside, pre, opener, t) && FirstCut(b, inside) == Cut(at, tag)
    ensures var n := at + TagLen(tag);
            if at < |pre| then n <= |pre| && Unclosed(b[n..] + last, tag == Open, pre[n..], opener, t)
            else tag == Open && b[n..] + last == t
  {
    assert (opener + t)[..7] == opener && (opener + t)[7..] == t;
    AfterCut(b, last, pre, opener + t, inside, at, tag);
  }

  lemma {:induction false} UnclosedAfterCut(buf: string, inside: bool, chunk: string, chunks: seq<string>, pre: string,
                                            opener: string, t: string, at: nat, tag: Tag) returns (r: string)
    requires FirstCut(buf + chunk, inside) == Cut(at, tag)
    requires Unclosed((buf + chunk) + Join(chunks), inside, pre, opener, t)
    ensures Run(buf, inside, [chunk] + chunks).rsn == r + t
    decreases |pre|, |chunks| + 1, 0
  {
    var rest := (buf + chunk)[at + TagLen(tag)..];
    UnclosedCut(buf + chunk, Join(chunks), inside, pre, opener, t, at, tag);
    JoinRest(rest, chunks);
    var r1 := "";
    if at < |pre| {
      r1 := UnclosedRun("", tag == Open, [rest] + chunks, pre[at + TagLen(tag)..], opener, t);
    } else {
      InsideRun([rest] + chunks, t);
      NilLeft(t);
    }
    r := ReasonsFromCut(buf, inside, chunk, chunks, at, tag, r1, t);
  }

  lemma JoinRest(rest: string, chunks: seq<string>)
    ensures Settled("", false) && Settled("", true)
    ensures Join([rest] + chunks) == rest + Join(chunks) && "" + Join([rest] + chunks) == rest + Join(chunks)
  {
    FirstCutIsFirst("", true);
    JoinCons(rest, chunks);
    NilLeft(Join([rest] + chunks));
  }

  lemma ReasonsFromCut(buf: string, inside: bool, chunk: string, chunks: seq<string>, at: nat, tag: Tag, r1: string,
                       t: string) returns (r: string)
    requires FirstCut(buf + chunk, inside) == Cut(at, tag)
    requires Run("", tag == Open, [(buf + chunk)[at + TagLen(tag)..]] + chunks).rsn == r1 + t
    ensures Run(buf, inside, [chunk] + chunks).rsn == r + t
  {
    RunFromCut(buf, inside, chunk, chunks, at, tag);
    var text := if tag == Close then (buf + chunk)[..at] else "";
    r := text + r1;
    Assoc(text, r1, t);
    NilLeft(r1 + t);
  }

  /** For every text that ends in a block that is never closed and every chunking, the block's text is kept as
      reasoning to its end, whatever becomes of the text before it. */
  lemma UnclosedIsAlwaysReasoning(pre: string, opener: string, t: string, chunks: seq<string>) returns (r: string)
    requires EndsOutside(pre, false) && IsOpener(opener) && Find(t, Close) == -1 && Join(chunks) == pre + (opener + t)
    ensures Totals(chunks).rsn == r + t
  {
    assert Settled("", false);
    NilLeft(Join(chunks));
    r := UnclosedRun("", false, chunks, pre, opener, t);
  }

  /** In particular a text that begins with the block is reasoning from there to its end. */
  lemma UnclosedFromStart(opener: string, t: string, chunks: seq<string>)
    requires IsOpener(opener) && Find(t, Close) == -1 && Join(chunks) == opener + t
    ensures Totals(chunks) == Output("", t)
  {
    NilLeft(opener + t);
    NilLeft(t);
    UnclosedBlockIsReasoning("", opener, t, chunks);
  }

  lemma UnclosedExample()
    ensures Totals(["<think>abc"]) == Output("", "abc")
  {
    LowerOpen();
    var text := "<think>" + "abc";
    assert text == "<think>abc";
    OneChunkJoins(text);
    UnclosedFromStart("<think>", "abc", [text]);
  }

  lemma OneChunkJoins(text: string)
    ensures Join([text]) == text
  {
    JoinCons(text, []);
    NilRight(text);
    assert [text] + [] == [text];
  }

  /** Text, then an orphaned closer: fed at once the text is reasoning, fed by character it is visible. */
  lemma {:induction false} OrphanedCloserDependsOnChunks()
    ensures Totals(["a</think>"]) == Output("", "a")
    ensures Totals(Chars("a</think>")) == Output("a", "")
  {
    var t := "a</think>";
    CloserSplits();
    SingleFeed(t);
    assert Settled("", false);
    assert "" + t == t;
    CharRun("", false, t);
  }

  lemma TagsOfExample()
    ensures var t := "a</think>";
            !TagAt(t, Open, 0) && !TagAt(t, Close, 0) && TagAt(t[1..], Close, 0) && t[1..][8..] == ""
  {
    var t := "a</think>";
    LowerAt(t[0..7], 0);
    LowerAt(t[0..8], 0);
    assert t[1..][0..8] == "</think>";
    LowerClose();
  }

  lemma CloserSplits()
    ensures Whole("a</think>", false, "") == Output("", "a")
    ensures Online("a</think>", false) == Output("a", "")
  {
    var t := "a</think>";
    TagsOfExample();
    var rest := t[1..];
    assert [t[0]] == "a" && "" + "a" == "a" && "a" + "" == "a";
    assert Whole(rest, false, "a") == Whole("", false, "").After("a", true);
    assert Online(rest, false) == Online("", false);
  }

  lemma LowerOpen()
    ensures LowerAll("<think>") == "<think>"
  {
    var u := "<think>";
    forall k: nat | k < 7
      ensures |LowerAll(u)| == 7 && LowerAll(u)[k] == u[k]
    {
      LowerAt(u, k);
    }
    LowerAt(u, 0);
  }

  lemma LowerClose()
    ensures LowerAll("</think>") == "</think>"
  {
    var u := "</think>";
    forall k: nat | k < 8
      ensures |LowerAll(u)| == 8 && LowerAll(u)[k] == u[k]
    {
      LowerAt(u, k);
    }
    LowerAt(u, 0);
  }
}
