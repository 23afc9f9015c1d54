/** What the incremental parser computes, over every text and every way of cutting it into chunks. */
module ThinkingProperties {
  import opened Text
  import opened ThinkingParser

  // ----- reference definitions, one character at a time -----

  /** The split a parser makes that never sees more than one character ahead of a tag:
      text already shown before an orphaned closer stays visible. */
  function Online(t: string, inside: bool): Output
    decreases |t|
  {
    if t == "" then Output("", "")
    else if TagAt(t, Close, 0) then Online(t[8..], false)
    else if !inside && TagAt(t, Open, 0) then Online(t[7..], true)
    else Online(t[1..], inside).After([t[0]], inside)
  }

  /** The split of a text held in full: the text between the last tag and an orphaned closer
      (`seg`, still unclassified) is reasoning. */
  function Whole(t: string, inside: bool, seg: string): Output
    decreases |t|
  {
    if t == "" then Output(seg, "")
    else if TagAt(t, Close, 0) then Whole(t[8..], false, "").After(seg, true)
    else if !inside && TagAt(t, Open, 0) then Whole(t[7..], true, "").After(seg, false)
    else if inside then Whole(t[1..], inside, seg).After([t[0]], true)
    else Whole(t[1..], inside, seg + [t[0]])
  }

  /** Every closer met outside a block directly follows a tag or the start of the text;
      `pending` tells whether text precedes t since the last tag. */
  predicate Clean(t: string, inside: bool, pending: bool)
    decreases |t|
  {
    if t == "" then true
    else if TagAt(t, Close, 0) then (inside || !pending) && Clean(t[8..], false, false)
    else if !inside && TagAt(t, Open, 0) then Clean(t[7..], true, false)
    else Clean(t[1..], inside, true)
  }

  /** No closer is met outside a block. */
  predicate NoStray(t: string, inside: bool)
    decreases |t|
  {
    if t == "" then true
    else if TagAt(t, Close, 0) then inside && NoStray(t[8..], false)
    else if !inside && TagAt(t, Open, 0) then NoStray(t[7..], true)
    else NoStray(t[1..], inside)
  }

  /** A buffer as `feed` leaves it. */
  predicate Settled(buf: string, inside: bool) {
    |buf| <= KEEP && FirstCut(buf, inside) == NoCut
  }

  // ----- where tags stand -----

  /** A tag stands where its characters stand, in any mixture of cases. */
  lemma TagAtExactly(s: string, tag: Tag, i: nat)
    ensures var text := if tag == Open then "<think>" else "</think>";
            TagAt(s, tag, i) <==> i + |text| <= |s| && forall k :: 0 <= k < |text| ==> Lower(s[i + k]) == text[k]
  {
    if i + TagLen(tag) <= |s| {
      var t := s[i..i + TagLen(tag)];
      forall k | 0 <= k < |t|
        ensures |LowerAll(t)| == |t| && LowerAll(t)[k] == Lower(s[i + k])
      {
        LowerAt(t, k);
      }
      LowerAt(t, 0);
      if forall k :: 0 <= k < |t| ==> Lower(s[i + k]) == TagText(tag)[k] {
        assert LowerAll(t) == TagText(tag);
      }
    }
  }

  /** The parser reacts to a tag at position i. */
  predicate TagHere(s: string, inside: bool, i: nat) {
    TagAt(s, Close, i) || (!inside && TagAt(s, Open, i))
  }

  predicate TagFree(s: string, inside: bool, n: nat) {
    forall j: nat :: j < n ==> !TagHere(s, inside, j)
  }

  lemma TagShift(s: string, tag: Tag, n: nat, j: nat)
    requires n <= |s|
    ensures TagAt(s[n..], tag, j) == TagAt(s, tag, n + j)
  {
    if n + j + TagLen(tag) <= |s| {
      assert s[n..][j..j + TagLen(tag)] == s[n + j..n + j + TagLen(tag)];
    }
  }

  lemma TagPrefix(s: string, n: nat, tag: Tag, j: nat)
    requires n <= |s| && j + TagLen(tag) <= n
    ensures TagAt(s[..n], tag, j) == TagAt(s, tag, j)
  {
    assert s[..n][j..j + TagLen(tag)] == s[j..j + TagLen(tag)];
  }

  lemma OneTagHere(s: string, i: nat)
    ensures !(TagAt(s, Open, i) && TagAt(s, Close, i))
  {
    if i + 8 <= |s| {
      LowerAt(s[i..i + 7], 1);
      LowerAt(s[i..i + 8], 1);
      assert LowerAll(s[i..i + 7])[1] == Lower(s[i + 1]) == LowerAll(s[i..i + 8])[1];
    }
  }

  lemma {:induction false} FindFromIsFirst(s: string, tag: Tag, i: nat)
    requires i <= |s|
    ensures var r := FindFrom(s, tag, i);
            (r == -1 || TagAt(s, tag, r)) && forall j: nat :: i <= j && (r == -1 || j < r) ==> !TagAt(s, tag, j)
    decreases |s| - i
  {
    if TagAt(s, tag, i) {
    } else if i == |s| {
      assert forall j: nat :: i <= j ==> !TagAt(s, tag, j);
    } else {
      FindFromIsFirst(s, tag, i + 1);
      var r := FindFrom(s, tag, i + 1);
      assert FindFrom(s, tag, i) == r;
      forall j: nat | i <= j && (r == -1 || j < r)
        ensures !TagAt(s, tag, j)
      {
        assert j == i || i + 1 <= j;
      }
    }
  }

  lemma FirstCutIsFirst(buf: string, inside: bool)
    ensures var c := FirstCut(buf, inside);
            if c == NoCut then TagFree(buf, inside, |buf| + 1)
            else TagAt(buf, c.tag, c.at) && TagFree(buf, inside, c.at) && (c.tag == Close || !inside)
  {
    var close := Find(buf, Close);
    var open := Find(buf, Open);
    FindFromIsFirst(buf, Close, 0);
    FindFromIsFirst(buf, Open, 0);
    if close != -1 && open != -1 {
      OneTagHere(buf, open);
    }
  }

  /** What is first in the buffer stays first when more text arrives; with no tag in the buffer
      only the last seven positions can still begin one. */
  lemma CutExtends(b: string, inside: bool, t: string)
    ensures var c := FirstCut(b, inside);
            if c == NoCut then TagFree(b + t, inside, HeldBack(b))
            else TagAt(b + t, c.tag, c.at) && TagFree(b + t, inside, c.at)
  {
    FirstCutIsFirst(b, inside);
    var c := FirstCut(b, inside);
    var n := if c == NoCut then HeldBack(b) else c.at;
    assert (b + t)[..|b|] == b;
    if c != NoCut {
      TagPrefix(b + t, |b|, c.tag, c.at);
    }
    forall j: nat | j < n
      ensures !TagHere(b + t, inside, j)
    {
      assert !TagHere(b, inside, j);
      TagPrefix(b + t, |b|, Close, j);
      TagPrefix(b + t, |b|, Open, j);
    }
  }

  lemma TagFreeTail(t: string, inside: bool, n: nat)
    requires 0 < n <= |t| && TagFree(t, inside, n)
    ensures TagFree(t[1..], inside, n - 1)
  {
    forall j: nat | j < n - 1
      ensures !TagHere(t[1..], inside, j)
    {
      assert !TagHere(t, inside, j + 1);
      TagShift(t, Close, 1, j);
      TagShift(t, Open, 1, j);
    }
  }

  // ----- the references skip over text without tags -----

  lemma AfterNothing(o: Output, hidden: bool)
    ensures o.After("", hidden) == o
  {
    assert "" + o.vis == o.vis && "" + o.rsn == o.rsn;
  }

  lemma AfterTwice(o: Output, a: string, b: string, hidden: bool)
    ensures o.After(b, hidden).After(a, hidden) == o.After(a + b, hidden)
  {
    assert a + (b + o.vis) == (a + b) + o.vis;
    assert a + (b + o.rsn) == (a + b) + o.rsn;
  }

  lemma OnlyThen(text: string, hidden: bool, o: Output)
    ensures Only(text, hidden).Then(o) == o.After(text, hidden)
  {
    assert "" + o.vis == o.vis && "" + o.rsn == o.rsn;
  }

  lemma {:induction false} OnlineSkip(t: string, inside: bool, n: nat)
    requires n <= |t| && TagFree(t, inside, n)
    ensures Online(t, inside) == Online(t[n..], inside).After(t[..n], inside)
  {
    if n == 0 {
      AfterNothing(Online(t, inside), inside);
      assert t[0..] == t;
    } else {
      assert !TagHere(t, inside, 0);
      TagFreeTail(t, inside, n);
      OnlineSkip(t[1..], inside, n - 1);
      assert t[1..][n - 1..] == t[n..];
      AfterTwice(Online(t[n..], inside), [t[0]], t[1..][..n - 1], inside);
      assert [t[0]] + t[1..][..n - 1] == t[..n];
    }
  }

  lemma {:induction false} WholeSkip(t: string, inside: bool, seg: string, n: nat)
    requires n <= |t| && TagFree(t, inside, n)
    ensures Whole(t, inside, seg) ==
            if inside then Whole(t[n..], true, seg).After(t[..n], true) else Whole(t[n..], false, seg + t[..n])
  {
    if n == 0 {
      AfterNothing(Whole(t, inside, seg), true);
      assert t[0..] == t && seg + t[..0] == seg;
    } else {
      assert !TagHere(t, inside, 0);
      TagFreeTail(t, inside, n);
      assert t[1..][n - 1..] == t[n..];
      assert [t[0]] + t[1..][..n - 1] == t[..n];
      if inside {
        WholeSkip(t[1..], inside, seg, n - 1);
        AfterTwice(Whole(t[n..], true, seg), [t[0]], t[1..][..n - 1], true);
      } else {
        WholeSkip(t[1..], inside, seg + [t[0]], n - 1);
        assert (seg + [t[0]]) + t[1..][..n - 1] == seg + t[..n];
      }
    }
  }

  lemma {:induction false} CleanSkip(t: string, inside: bool, pending: bool, n: nat)
    requires n <= |t| && TagFree(t, inside, n)
    ensures Clean(t, inside, pending) == Clean(t[n..], inside, pending || n > 0)
  {
    if n == 0 {
      assert t[0..] == t;
    } else {
      assert !TagHere(t, inside, 0);
      TagFreeTail(t, inside, n);
      CleanSkip(t[1..], inside, true, n - 1);
      assert t[1..][n - 1..] == t[n..];
    }
  }

  /** From the first tag on. */
  lemma AtTag(t: string, inside: bool, at: nat, tag: Tag)
    requires TagAt(t, tag, at) && TagFree(t, inside, at) && (tag == Close || !inside)
    ensures var rest := t[at + TagLen(tag)..];
            Online(t, inside) == Online(rest, tag == Open).After(t[..at], inside) &&
            forall pending :: Clean(t, inside, pending) ==>
                                (inside || tag == Open || (!pending && at == 0)) && Clean(rest, tag == Open, false)
  {
    OnlineSkip(t, inside, at);
    TagShift(t, tag, at, 0);
    OneTagHere(t[at..], 0);
    assert t[at..][TagLen(tag)..] == t[at + TagLen(tag)..];
    forall pending | Clean(t, inside, pending)
      ensures (inside || tag == Open || (!pending && at == 0)) && Clean(t[at + TagLen(tag)..], tag == Open, false)
    {
      CleanSkip(t, inside, pending, at);
    }
  }

  // ----- one feed against the references -----

  /** A scan from its first tag on is the scan of what follows the tag. */
  lemma ScanFromCut(b: string, inside: bool, at: nat, tag: Tag)
    requires FirstCut(b, inside) == Cut(at, tag)
    ensures var s, c := Scan(b, inside), Scan(b[at + TagLen(tag)..], tag == Open);
            s.out == c.out.After(b[..at], tag == Close) && s.buf == c.buf && s.inside == c.inside
  {
  }

  /** No orphaned closer is met with text before it in this buffer. */
  predicate NothingRetracted(b: string, inside: bool)
    decreases |b|
  {
    match FirstCut(b, inside)
    case NoCut => true
    case Cut(at, tag) =>
      (inside || tag == Open || at == 0) && NothingRetracted(b[at + TagLen(tag)..], tag == Open)
  }

  function PendingAfter(b: string, inside: bool, pending: bool): bool
    decreases |b|
  {
    match FirstCut(b, inside)
    case NoCut => pending || HeldBack(b) > 0
    case Cut(at, tag) => PendingAfter(b[at + TagLen(tag)..], tag == Open, false)
  }

  lemma NotHere(b: string, inside: bool, j: nat)
    requires TagFree(b, inside, |b| + 1) && j <= |b|
    ensures !TagHere(b, inside, j)
  {
  }

  lemma TailHasNoCut(b: string, inside: bool, n: nat)
    requires n <= |b| && FirstCut(b, inside) == NoCut
    ensures FirstCut(b[n..], inside) == NoCut
  {
    FirstCutIsFirst(b, inside);
    FirstCutIsFirst(b[n..], inside);
    var c := FirstCut(b[n..], inside);
    if c.Cut? {
      TagShift(b, c.tag, n, c.at);
      NotHere(b, inside, n + c.at);
      assert false;
    }
  }

  lemma {:induction false} ScanSettles(b: string, inside: bool)
    ensures var s := Scan(b, inside); Settled(s.buf, s.inside)
    decreases |b|
  {
    match FirstCut(b, inside)
    case NoCut =>
      TailHasNoCut(b, inside, HeldBack(b));
    case Cut(at, tag) =>
      ScanSettles(b[at + TagLen(tag)..], tag == Open);
  }

  /** The online reference past the first cut of the buffer, whatever text follows it. */
  lemma OnlineCut(b: string, inside: bool, t: string)
    ensures match FirstCut(b, inside)
            case NoCut =>
              var n := HeldBack(b);
              Online(b + t, inside) == Online(b[n..] + t, inside).After(b[..n], inside)
            case Cut(at, tag) =>
              Online(b + t, inside) == Online(b[at + TagLen(tag)..] + t, tag == Open).After(b[..at], inside)
  {
    CutExtends(b, inside, t);
    match FirstCut(b, inside)
    case NoCut =>
      var n := HeldBack(b);
      OnlineSkip(b + t, inside, n);
      SliceOfSum(b, t, n);
    case Cut(at, tag) =>
      AtTag(b + t, inside, at, tag);
      SliceOfSum(b, t, at);
      SliceOfSum(b, t, at + TagLen(tag));
  }

  lemma SliceOfSum(b: string, t: string, n: nat)
    requires n <= |b|
    ensures (b + t)[..n] == b[..n] && (b + t)[n..] == b[n..] + t
  {
  }

  lemma CleanNoCut(b: string, inside: bool, pending: bool, t: string)
    requires Clean(b + t, inside, pending) && FirstCut(b, inside) == NoCut
    ensures Clean(b[HeldBack(b)..] + t, inside, pending || HeldBack(b) > 0)
  {
    CutExtends(b, inside, t);
    CleanSkip(b + t, inside, pending, HeldBack(b));
    SliceOfSum(b, t, HeldBack(b));
  }

  lemma CleanCut(b: string, inside: bool, pending: bool, t: string, at: nat, tag: Tag)
    requires Clean(b + t, inside, pending) && FirstCut(b, inside) == Cut(at, tag)
    ensures inside || tag == Open || (!pending && at == 0)
    ensures Clean(b[at + TagLen(tag)..] + t, tag == Open, false)
  {
    FirstCutIsFirst(b, inside);
    CutExtends(b, inside, t);
    AtTag(b + t, inside, at, tag);
    SliceOfSum(b, t, at + TagLen(tag));
  }

  /** A feed that retracts nothing splits the text so far exactly as the online reference does. */
  lemma {:induction false} FeedIsOnline(b: string, inside: bool, t: string)
    requires NothingRetracted(b, inside)
    ensures var s := Scan(b, inside); Online(b + t, inside) == s.out.Then(Online(s.buf + t, s.inside))
    decreases |b|
  {
    OnlineCut(b, inside, t);
    match FirstCut(b, inside)
    case NoCut =>
      var n := HeldBack(b);
      OnlyThen(b[..n], inside, Online(b[n..] + t, inside));
    case Cut(at, tag) =>
      var rest := b[at + TagLen(tag)..];
      var s := Scan(rest, tag == Open);
      var o := Online(s.buf + t, s.inside);
      FeedIsOnline(rest, tag == Open, t);
      ScanFromCut(b, inside, at, tag);
      SameChannel(s.out.Then(o), b[..at], inside, tag == Close);
      AfterThen(s.out, o, b[..at], tag == Close);
  }

  lemma SameChannel(o: Output, text: string, h1: bool, h2: bool)
    requires text == "" || h1 == h2
    ensures o.After(text, h1) == o.After(text, h2)
  {
    if text == "" {
      AfterNothing(o, h1);
      AfterNothing(o, h2);
    }
  }

  lemma AfterThen(a: Output, b: Output, text: string, hidden: bool)
    ensures a.Then(b).After(text, hidden) == a.After(text, hidden).Then(b)
  {
    assert text + (a.vis + b.vis) == (text + a.vis) + b.vis;
    assert text + (a.rsn + b.rsn) == (text + a.rsn) + b.rsn;
  }

  lemma {:induction false} CleanRetractsNothing(b: string, inside: bool, pending: bool, t: string)
    requires Clean(b + t, inside, pending)
    ensures NothingRetracted(b, inside)
    decreases |b|
  {
    match FirstCut(b, inside)
    case NoCut =>
    case Cut(at, tag) =>
      CleanCut(b, inside, pending, t, at, tag);
      CleanRetractsNothing(b[at + TagLen(tag)..], tag == Open, false, t);
  }

  lemma {:induction false} PendingFromCut(b: string, inside: bool, pending: bool, at: nat, tag: Tag)
    requires FirstCut(b, inside) == Cut(at, tag)
    ensures PendingAfter(b, inside, pending) == PendingAfter(b[at + TagLen(tag)..], tag == Open, false)
  {
  }

  lemma {:induction false} CleanFeed(b: string, inside: bool, pending: bool, t: string)
    requires Clean(b + t, inside, pending)
    ensures var s := Scan(b, inside); Clean(s.buf + t, s.inside, PendingAfter(b, inside, pending))
    decreases |b|
  {
    match FirstCut(b, inside)
    case NoCut =>
      CleanNoCut(b, inside, pending, t);
    case Cut(at, tag) =>
      CleanCut(b, inside, pending, t, at, tag);
      ScanFromCut(b, inside, at, tag);
      PendingFromCut(b, inside, pending, at, tag);
      CleanFeed(b[at + TagLen(tag)..], tag == Open, false, t);
  }

  /** Flushing a settled buffer agrees with the online reference. */
  lemma FlushIsOnline(b: string, inside: bool)
    requires Settled(b, inside)
    ensures Online(b, inside) == Only(b, inside)
  {
    FirstCutIsFirst(b, inside);
    OnlineSkip(b, inside, |b|);
    assert b[|b|..] == "" && b[..|b|] == b;
    assert b + "" == b;
  }
}
