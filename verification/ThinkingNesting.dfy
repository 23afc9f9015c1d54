/** Openers inside blocks: exactly which texts can put a complete tag into an emitted piece. */
module ThinkingNesting {
  import opened Text
  import opened ThinkingParser
  import opened ThinkingProperties
  import opened ThinkingRuns
  import opened ThinkingConservation

  /** Every emitted piece is free of both tags. */
  predicate AllFree(ps: seq<Piece>) {
    forall k :: 0 <= k < |ps| && !ps[k].Deleted? ==> NoTag(ps[k].text, Open) && NoTag(ps[k].text, Close)
  }

  /** An opener that can leave the buffer in one piece. With one to six characters after it and no closer it cannot:
      the seven characters held back always cut it in two. */
  predicate Exposed(t: string) {
    TagAt(t, Open, 0) && !(7 < |t| < 14 && Find(t, Close) == -1)
  }

  /** Such an opener stands inside a block. */
  predicate Nested(t: string, inside: bool)
    decreases |t|
  {
    if t == "" then false
    else if TagAt(t, Close, 0) then Nested(t[8..], false)
    else if !inside && TagAt(t, Open, 0) then Nested(t[7..], true)
    else (inside && Exposed(t)) || Nested(t[1..], inside)
  }

  predicate ExposedAt(t: string, j: nat) {
    j <= |t| && Exposed(t[j..])
  }

  predicate ExposedBefore(t: string, n: nat) {
    exists j: nat :: j < n && ExposedAt(t, j)
  }

  // ----- the scan for openers -----

  lemma ExposedTail(t: string, n: nat)
    requires 0 < n <= |t|
    ensures ExposedBefore(t, n) <==> Exposed(t) || ExposedBefore(t[1..], n - 1)
  {
    assert t[0..] == t;
    assert forall j: nat :: j < n - 1 ==> t[1..][j..] == t[j + 1..];
    if ExposedBefore(t, n) {
      var j: nat :| j < n && ExposedAt(t, j);
      assert j > 0 ==> ExposedAt(t[1..], j - 1);
    }
    if ExposedBefore(t[1..], n - 1) {
      var j: nat :| j < n - 1 && ExposedAt(t[1..], j);
      assert ExposedAt(t, j + 1);
    }
    if Exposed(t) {
      assert ExposedAt(t, 0);
    }
  }

  lemma {:induction false} NestedSkip(t: string, inside: bool, n: nat)
    requires n <= |t| && TagFree(t, inside, n)
    ensures Nested(t, inside) <==> (inside && ExposedBefore(t, n)) || Nested(t[n..], inside)
  {
    if n == 0 {
      assert t[0..] == t;
    } else {
      assert !TagHere(t, inside, 0);
      TagFreeTail(t, inside, n);
      NestedSkip(t[1..], inside, n - 1);
      ExposedTail(t, n);
      assert t[1..][n - 1..] == t[n..];
    }
  }

  lemma NestedAtTag(t: string, inside: bool, at: nat, tag: Tag)
    requires TagAt(t, tag, at) && TagFree(t, inside, at) && (tag == Close || !inside)
    ensures Nested(t, inside) <==> (inside && ExposedBefore(t, at)) || Nested(t[at + TagLen(tag)..], tag == Open)
  {
    NestedSkip(t, inside, at);
    TagShift(t, tag, at, 0);
    OneTagHere(t[at..], 0);
    assert t[at..][TagLen(tag)..] == t[at + TagLen(tag)..];
  }

  lemma TagOpens(t: string, tag: Tag, j: nat, k: nat)
    requires TagAt(t, tag, j) && k < TagLen(tag)
    ensures Lower(t[j + k]) == '<' <==> k == 0
  {
    LowerAt(t[j..j + TagLen(tag)], k);
  }

  /** Tags do not overlap. */
  lemma TagsApart(t: string, a: Tag, j: nat, b: Tag, k: nat)
    requires TagAt(t, a, j) && TagAt(t, b, k) && j < k
    ensures j + TagLen(a) <= k
  {
    TagOpens(t, b, k, 0);
    if k < j + TagLen(a) {
      TagOpens(t, a, j, k - j);
      assert false;
    }
  }

  lemma FindIsNone(t: string, tag: Tag)
    ensures Find(t, tag) == -1 <==> forall j: nat :: !TagAt(t, tag, j)
  {
    FindFromIsFirst(t, tag, 0);
  }

  /** An opener with a closer behind it, or with nothing or at least seven characters behind it, is exposed. */
  lemma OpenerExposed(t: string, j: nat, k: nat)
    requires TagAt(t, Open, j)
    requires (TagAt(t, Close, k) && j <= k) || |t| - j == 7 || |t| - j >= 14
    ensures ExposedAt(t, j)
  {
    var u := t[j..];
    TagShift(t, Open, j, 0);
    if TagAt(t, Close, k) && j <= k {
      TagShift(t, Close, j, k - j);
      FindIsNone(u, Close);
    }
  }

  // ----- texts without such openers -----

  /** A hidden stretch with no exposed opener in it. */
  lemma HiddenFree(b: string, t: string, n: nat, k: nat)
    requires n <= |b| && !ExposedBefore(b + t, n) && NoTag(b[..n], Close)
    requires (TagAt(b + t, Close, k) && n <= k) || |b + t| - n >= 7 || (n == |b + t| && n <= 7)
    ensures AllFree(Piece1(b[..n], true))
  {
    forall j: nat | j < n
      ensures !TagAt(b[..n], Open, j)
    {
      if TagAt(b[..n], Open, j) {
        assert (b + t)[..n] == b[..n];
        TagPrefix(b + t, n, Open, j);
        OpenerExposed(b + t, j, k);
        assert false;
      }
    }
  }

  lemma FreeAppend(a: seq<Piece>, b: seq<Piece>)
    ensures AllFree(a + b) <==> AllFree(a) && AllFree(b)
  {
    var all := a + b;
    assert forall k :: 0 <= k < |a| ==> all[k] == a[k];
    assert forall k :: 0 <= k < |b| ==> all[|a| + k] == b[k];
  }

  /** A stretch fit to be shown is free of tags on either channel. */
  lemma ShownFree(text: string, hidden: bool)
    requires AllOk(Piece1(text, false))
    ensures AllFree(Piece1(text, hidden))
  {
    if text != "" {
      assert PieceOk(Piece1(text, false)[0]);
    }
  }

  lemma HiddenOk(text: string)
    requires AllOk(Piece1(text, true))
    ensures NoTag(text, Close)
  {
    if text != "" {
      assert PieceOk(Piece1(text, true)[0]);
    }
  }

  /** A round that sees a tag. */
  lemma CutRoundFree(b: string, inside: bool, t: string, at: nat, tag: Tag)
    requires FirstCut(b, inside) == Cut(at, tag) && !Nested(b + t, inside)
    ensures AllFree(RoundPieces(b, inside)) && !Nested(b[at + TagLen(tag)..] + t, tag == Open)
  {
    FirstCutIsFirst(b, inside);
    CutExtends(b, inside, t);
    NestedAtTag(b + t, inside, at, tag);
    SliceOfSum(b, t, at + TagLen(tag));
    StretchOk(b, inside, at, tag == Close);
    var deleted := [Deleted(b[at..at + TagLen(tag)], tag)];
    FreeAppend(Piece1(b[..at], tag == Close), deleted);
    if tag == Open {
      ShownFree(b[..at], false);
    } else if inside {
      HiddenOk(b[..at]);
      HiddenFree(b, t, at, at);
    } else {
      StretchOk(b, false, at, false);
      ShownFree(b[..at], true);
    }
  }

  /** A round that sees none. */
  lemma NoCutRoundFree(b: string, inside: bool, t: string)
    requires FirstCut(b, inside) == NoCut && !Nested(b + t, inside)
    ensures AllFree(RoundPieces(b, inside)) && !Nested(b[HeldBack(b)..] + t, inside)
  {
    var n := HeldBack(b);
    FirstCutIsFirst(b, inside);
    CutExtends(b, inside, t);
    NestedSkip(b + t, inside, n);
    SliceOfSum(b, t, n);
    StretchOk(b, inside, n, inside);
    if inside {
      HiddenOk(b[..n]);
      if n > 0 {
        HiddenFree(b, t, n, 0);
      }
    } else {
      ShownFree(b[..n], false);
    }
  }

  lemma ScanAfterCut(b: string, inside: bool, at: nat, tag: Tag)
    requires FirstCut(b, inside) == Cut(at, tag) && AllFree(RoundPieces(b, inside))
    ensures var rest := b[at + TagLen(tag)..];
            AllFree(ScanPieces(b, inside)) == AllFree(ScanPieces(rest, tag == Open)) &&
            Scan(b, inside).buf == Scan(rest, tag == Open).buf &&
            Scan(b, inside).inside == Scan(rest, tag == Open).inside
  {
    ScanFromCut(b, inside, at, tag);
    FreeAppend(RoundPieces(b, inside), ScanPieces(b[at + TagLen(tag)..], tag == Open));
  }

  lemma {:induction false} ScanFree(b: string, inside: bool, t: string)
    requires !Nested(b + t, inside)
    ensures AllFree(ScanPieces(b, inside))
    ensures var s := Scan(b, inside); !Nested(s.buf + t, s.inside)
    decreases |b|
  {
    match FirstCut(b, inside)
    case NoCut =>
      NoCutRoundFree(b, inside, t);
    case Cut(at, tag) =>
      CutRoundFree(b, inside, t, at, tag);
      ScanFree(b[at + TagLen(tag)..], tag == Open, t);
      ScanAfterCut(b, inside, at, tag);
  }

  lemma FlushFree(buf: string, inside: bool)
    requires Settled(buf, inside) && !Nested(buf, inside)
    ensures AllFree(Piece1(buf, inside))
  {
    FirstCutIsFirst(buf, inside);
    assert buf[..|buf|] == buf && buf + "" == buf;
    StretchOk(buf, inside, |buf|, inside);
    if inside {
      NestedSkip(buf, inside, |buf|);
      HiddenOk(buf);
      HiddenFree(buf, "", |buf|, 0);
    } else {
      ShownFree(buf, false);
    }
  }

  lemma {:induction false} RunFree(buf: string, inside: bool, chunks: seq<string>)
    requires Settled(buf, inside) && !Nested(buf + Join(chunks), inside)
    ensures AllFree(RunPieces(buf, inside, chunks))
    decreases |chunks|
  {
    if chunks == [] {
      NilRight(buf);
      FlushFree(buf, inside);
    } else {
      var b, more := buf + chunks[0], Join(chunks[1..]);
      var s := Scan(b, inside);
      Assoc(buf, chunks[0], more);
      ScanFree(b, inside, more);
      ScanSettles(b, inside);
      RunFree(s.buf, s.inside, chunks[1..]);
      FreeAppend(ScanPieces(b, inside), RunPieces(s.buf, s.inside, chunks[1..]));
    }
  }

  // ----- texts with one: the single feed -----

  lemma OpenerInPiece(t: string, lo: nat, hi: nat, j: nat)
    requires lo <= j && j + 7 <= hi <= |t| && TagAt(t, Open, j)
    ensures !AllFree(Piece1(t[lo..hi], true))
  {
    var p := t[lo..hi];
    TagShift(t, Open, lo, j - lo);
    assert t[lo..][..hi - lo] == p;
    TagPrefix(t[lo..], hi - lo, Open, j - lo);
    assert Piece1(p, true)[0].text == p && !NoTag(p, Open);
  }

  lemma NestedNoTag(t: string, inside: bool)
    requires Nested(t, inside) && FirstCut(t, inside) == NoCut
    ensures var s := Scan(t, inside); !AllFree(ScanPieces(t, inside) + Piece1(s.buf, s.inside))
  {
    FirstCutIsFirst(t, inside);
    NestedSkip(t, inside, |t|);
    assert t[|t|..] == "";
    NestedInTail(t);
    FreeAppend(Piece1(t[..HeldBack(t)], true), Piece1(t[HeldBack(t)..], true));
  }

  lemma {:induction false} NestedFeed(t: string, inside: bool)
    requires Nested(t, inside)
    ensures var s := Scan(t, inside); !AllFree(ScanPieces(t, inside) + Piece1(s.buf, s.inside))
    decreases |t|
  {
    match FirstCut(t, inside)
    case NoCut =>
      NestedNoTag(t, inside);
    case Cut(at, tag) =>
      var rest := t[at + TagLen(tag)..];
      FirstCutIsFirst(t, inside);
      NestedAtTag(t, inside, at, tag);
      if Nested(rest, tag == Open) {
        NestedFeed(rest, tag == Open);
      } else {
        NestedBeforeTag(t, at);
      }
      var s := Scan(rest, tag == Open);
      ScanFromCut(t, inside, at, tag);
      ThreeParts(RoundPieces(t, inside), ScanPieces(rest, tag == Open), Piece1(s.buf, s.inside));
  }

  lemma ThreeParts(a: seq<Piece>, b: seq<Piece>, c: seq<Piece>)
    ensures AllFree((a + b) + c) <==> AllFree(a) && AllFree(b + c)
  {
    FreeAppend(a + b, c);
    FreeAppend(a, b);
    FreeAppend(b, c);
  }

  /** In a block that closes, the closer takes an exposed opener out in one piece. */
  lemma NestedBeforeTag(t: string, at: nat)
    requires FirstCut(t, true) == Cut(at, Close) && ExposedBefore(t, at)
    ensures !AllFree(RoundPieces(t, true))
  {
    FirstCutIsFirst(t, true);
    var j: nat :| j < at && ExposedAt(t, j);
    TagShift(t, Open, j, 0);
    TagsApart(t, Open, j, Close, at);
    OpenerInPiece(t, 0, at, j);
    assert t[0..at] == t[..at];
    FreeAppend(Piece1(t[..at], true), [Deleted(t[at..at + 8], Close)]);
  }

  lemma NoCloserAfter(t: string, j: nat)
    requires FirstCut(t, true) == NoCut && j <= |t|
    ensures Find(t[j..], Close) == -1
  {
    TailHasNoCut(t, true, j);
  }

  lemma WholeTail(t: string, n: nat)
    requires n <= |t|
    ensures t[n..|t|] == t[n..]
  {
  }

  /** In a block that stays open, an exposed opener is emitted whole by the feed or by the flush. */
  lemma NestedInTail(t: string)
    requires FirstCut(t, true) == NoCut && ExposedBefore(t, |t|)
    ensures !AllFree(Piece1(t[..HeldBack(t)], true)) || !AllFree(Piece1(t[HeldBack(t)..], true))
  {
    var j: nat :| j < |t| && ExposedAt(t, j);
    NoCloserAfter(t, j);
    TagShift(t, Open, j, 0);
    if j + 14 <= |t| {
      OpenerInPiece(t, 0, HeldBack(t), j);
      assert t[0..HeldBack(t)] == t[..HeldBack(t)];
    } else {
      OpenerInPiece(t, HeldBack(t), |t|, j);
      WholeTail(t, HeldBack(t));
    }
  }

  lemma SingleFeedPieces(text: string)
    ensures var s := Scan(text, false);
            RunPieces("", false, [text]) == ScanPieces(text, false) + Piece1(s.buf, s.inside)
  {
    NilLeft(text);
    assert [text][1..] == [] && [text][0] == text;
    var s := Scan(text, false);
    assert RunPieces(s.buf, s.inside, [text][1..]) == Piece1(s.buf, s.inside);
  }

  /** Every chunking of a text emits only pieces without complete tags exactly when no exposed opener stands inside a
      block. */
  lemma {:induction false} PiecesFreeExactly(text: string)
    ensures (forall chunks :: Join(chunks) == text ==> AllFree(RunPieces("", false, chunks))) <==> !Nested(text, false)
  {
    if Nested(text, false) {
      NestedFeed(text, false);
      SingleFeedPieces(text);
      OneChunkJoins(text);
      assert Join([text]) == text && !AllFree(RunPieces("", false, [text]));
    } else {
      assert Settled("", false);
      NilLeft(text);
      forall chunks | Join(chunks) == text
        ensures AllFree(RunPieces("", false, chunks))
      {
        RunFree("", false, chunks);
      }
    }
  }

  /** Two openers in a row: the second one is reasoning text, and a piece of its own. */
  lemma OpenerAsReasoning()
    ensures Totals(["<think><think>"]) == Output("", "<think>")
    ensures !AllFree(RunPieces("", false, ["<think><think>"]))
  {
    var o := "<think>";
    var text := o + o;
    assert text == "<think><think>";
    LowerOpen();
    NoCloserIn(o);
    OneChunkJoins(text);
    UnclosedFromStart(o, o, [text]);
    NestedTwice(o);
    NestedFeed(text, false);
    SingleFeedPieces(text);
  }

  lemma NestedTwice(o: string)
    requires |o| == 7 && LowerAll(o) == "<think>"
    ensures Nested(o + o, false)
  {
    var text := o + o;
    assert text[0..7] == o && text[7..] == o && o[0..7] == o;
    assert TagAt(text, Open, 0) && TagAt(o, Open, 0);
    OneTagHere(text, 0);
    OneTagHere(o, 0);
    assert Nested(o, true);
  }

  lemma NoCloserIn(u: string)
    requires |u| == 7
    ensures Find(u, Close) == -1
  {
    FindIsNone(u, Close);
  }
}
