/** The incremental `<think>` parser: a buffer of at most seven characters, two output channels. */
module ThinkingParser {
  import opened Text

  datatype Tag = Open | Close

  const KEEP: nat := 7  // max(|<think>|, |</think>|) - 1, the same inside and outside a block

  function TagText(tag: Tag): string {
    if tag == Open then "<think>" else "</think>"
  }

  function TagLen(tag: Tag): (n: nat)
    ensures n == |TagText(tag)|
  {
    if tag == Open then 7 else 8
  }

  /** The tag, in any mixture of cases, stands at position i. */
  predicate TagAt(s: string, tag: Tag, i: nat) {
    i + TagLen(tag) <= |s| && LowerAll(s[i..i + TagLen(tag)]) == TagText(tag)
  }

  /** `s.lower().find(tag, i)` */
  function FindFrom(s: string, tag: Tag, i: nat): (r: int)
    requires i <= |s|
    ensures r == -1 || (i <= r && r + TagLen(tag) <= |s|)
    decreases |s| - i
  {
    if TagAt(s, tag, i) then i
    else if i == |s| then -1
    else FindFrom(s, tag, i + 1)
  }

  function Find(s: string, tag: Tag): (r: int)
    ensures r == -1 || (0 <= r && r + TagLen(tag) <= |s|)
  {
    FindFrom(s, tag, 0)
  }

  // ----- one feed, as a function of the buffer -----

  /** The first tag the parser reacts to, if any; an opener is plain text inside a block. */
  datatype Cut = NoCut | Cut(at: nat, tag: Tag)

  function FirstCut(buf: string, inside: bool): (c: Cut)
    ensures c.Cut? ==> c.at + TagLen(c.tag) <= |buf|
  {
    var close := Find(buf, Close);
    var open := if inside then -1 else Find(buf, Open);
    if close == -1 && open == -1 then NoCut
    else if close != -1 && (open == -1 || close < open) then Cut(close, Close)
    else Cut(open, Open)
  }

  datatype Output = Output(vis: string, rsn: string) {
    /** This output after some text on one channel. */
    function After(text: string, hidden: bool): Output {
      if hidden then Output(vis, text + rsn) else Output(text + vis, rsn)
    }

    function Add(text: string, hidden: bool): Output {
      if hidden then Output(vis, rsn + text) else Output(vis + text, rsn)
    }

    function Then(next: Output): Output {
      Output(vis + next.vis, rsn + next.rsn)
    }
  }

  function Only(text: string, hidden: bool): Output {
    if hidden then Output("", text) else Output(text, "")
  }

  datatype ScanResult = ScanResult(out: Output, buf: string, inside: bool) {
    function Preceded(before: Output): ScanResult {
      ScanResult(before.Then(out), buf, inside)
    }
  }

  function HeldBack(buf: string): nat {
    if |buf| > KEEP then |buf| - KEEP else 0
  }

  function Scan(buf: string, inside: bool): ScanResult
    decreases |buf|
  {
    match FirstCut(buf, inside)
    case NoCut =>
      var n := HeldBack(buf);
      ScanResult(Only(buf[..n], inside), buf[n..], inside)
    case Cut(at, tag) =>
      var rest := Scan(buf[at + TagLen(tag)..], tag == Open);
      ScanResult(rest.out.After(buf[..at], tag == Close), rest.buf, rest.inside)
  }

  // ----- the parser object -----

  class ThinkingOutputParser {
    var buf: string
    var inside: bool
    var visible: seq<string>
    var reasoning: seq<string>

    constructor ()
      ensures buf == "" && !inside && visible == [] && reasoning == []
    {
      buf, inside, visible, reasoning := "", false, [], [];
    }

    method Feed(text: string) returns (v: string, r: string)
      modifies this
      ensures ScanResult(Output(v, r), buf, inside) == Scan(old(buf) + text, old(inside))
      ensures visible == old(visible) + [v] && reasoning == old(reasoning) + [r]
    {
      buf := buf + text;
      v, r := FeedLoop();
      visible := visible + [v];
      reasoning := reasoning + [r];
    }

    /** The loop in `Feed`. */
    method FeedLoop() returns (v: string, r: string)
      modifies this`buf, this`inside
      ensures ScanResult(Output(v, r), buf, inside) == Scan(old(buf), old(inside))
    {
      var vis: seq<string>, rsn: seq<string> := [], [];
      ghost var start := Scan(buf, inside);
      NothingBefore(start);
      var more := true;
      while more && buf != ""
        invariant start == ToScan(more, buf, inside, Output(Join(vis), Join(rsn)))
        decreases more, |buf|
      {
        ghost var buf0, inside0, out0 := buf, inside, Output(Join(vis), Join(rsn));
        more, vis, rsn := FeedRound(vis, rsn);
        RoundMovesText(buf0, inside0, out0, more, buf, inside, Output(Join(vis), Join(rsn)));
      }
      v, r := Join(vis), Join(rsn);
    }

    /** The body of the loop in `Feed`; `more` is false where the loop breaks. */
    method FeedRound(vis0: seq<string>, rsn0: seq<string>) returns (more: bool, vis: seq<string>, rsn: seq<string>)
      modifies this`buf, this`inside
      ensures IsRound(old(buf), old(inside), Output(Join(vis0), Join(rsn0)),
                      more, buf, inside, Output(Join(vis), Join(rsn)))
    {
      if inside {
        vis := vis0;
        more, rsn := RoundInside(rsn0, Join(vis0));
      } else {
        more, vis, rsn := RoundOutside(vis0, rsn0);
      }
    }

    /** A round inside a block: what precedes the closer is reasoning. */
    method RoundInside(rsn0: seq<string>, ghost vis: string) returns (more: bool, rsn: seq<string>)
      requires inside
      modifies this`buf, this`inside
      ensures IsRound(old(buf), true, Output(vis, Join(rsn0)), more, buf, inside, Output(vis, Join(rsn)))
    {
      var idx := Find(buf, Close);
      if idx == -1 {
        var n := HeldBack(buf);
        rsn := Append(rsn0, buf[..n]);
        buf := buf[n..];
        more := false;
      } else {
        rsn := Append(rsn0, buf[..idx]);
        buf := buf[idx + TagLen(Close)..];
        inside := false;
        more := true;
      }
    }

    /** A round outside a block: the nearer of the two tags decides. */
    method RoundOutside(vis0: seq<string>, rsn0: seq<string>) returns (more: bool, vis: seq<string>, rsn: seq<string>)
      requires !inside
      modifies this`buf, this`inside
      ensures IsRound(old(buf), false, Output(Join(vis0), Join(rsn0)), more, buf, inside, Output(Join(vis), Join(rsn)))
    {
      more, vis, rsn := true, vis0, rsn0;
      var idxOpen := Find(buf, Open);
      var idxClose := Find(buf, Close);
      if idxOpen == -1 && idxClose == -1 {
        var n := HeldBack(buf);
        vis := Append(vis, buf[..n]);
        buf := buf[n..];
        more := false;
      } else if idxClose != -1 && (idxOpen == -1 || idxClose < idxOpen) {
        // an orphaned closer: what precedes it was reasoning
        rsn := Append(rsn, buf[..idxClose]);
        buf := buf[idxClose + TagLen(Close)..];
      } else {
        vis := Append(vis, buf[..idxOpen]);
        buf := buf[idxOpen + TagLen(Open)..];
        inside := true;
      }
    }

    method Flush() returns (v: string, r: string)
      modifies this
      ensures buf == "" && !inside
      ensures Output(v, r) == Only(old(buf), old(inside))
      ensures Join(visible) == Join(old(visible)) + v && Join(reasoning) == Join(old(reasoning)) + r
    {
      v, r := "", "";
      if buf != "" {
        if inside {
          r := buf;
          JoinSnoc(reasoning, r);
          reasoning := reasoning + [r];
        } else {
          v := buf;
          JoinSnoc(visible, v);
          visible := visible + [v];
        }
        buf := "";
      }
      inside := false;
    }

    function Visible(): string
      reads this
    {
      Strip(Join(visible))
    }

    function Reasoning(): string
      reads this
    {
      Strip(Join(reasoning))
    }
  }

  /** Appends a piece of text unless it is empty. */
  function Append(parts: seq<string>, text: string): (r: seq<string>)
    ensures Join(r) == Join(parts) + text
  {
    if text == "" then parts else JoinSnoc(parts, text); parts + [text]
  }

  /** Where the loop in `Feed` is heading from the given state. */
  ghost function ToScan(more: bool, buf: string, inside: bool, out: Output): ScanResult {
    if more then Scan(buf, inside).Preceded(out) else ScanResult(out, buf, inside)
  }

  /** What one loop round does to the buffer, the mode and the output. */
  ghost predicate IsRound(buf0: string, inside0: bool, out0: Output,
                          more: bool, buf: string, inside: bool, out: Output) {
    var c, n := FirstCut(buf0, inside0), HeldBack(buf0);
    more == c.Cut? &&
    buf == buf0[if more then c.at + TagLen(c.tag) else n..] &&
    inside == (if more then c.tag == Open else inside0) &&
    out == out0.Add(buf0[..if more then c.at else n], if more then c.tag == Close else inside0)
  }

  /** One loop round moves its text from the rest of the scan to what is already out. */
  lemma RoundMovesText(buf0: string, inside0: bool, out0: Output, more: bool, buf: string, inside: bool, out: Output)
    requires IsRound(buf0, inside0, out0, more, buf, inside, out)
    ensures ToScan(true, buf0, inside0, out0) == ToScan(more, buf, inside, out)
    ensures more ==> |buf| < |buf0|
  {
    match FirstCut(buf0, inside0)
    case NoCut =>
      ThenOnly(out0, buf0[..HeldBack(buf0)], inside0);
    case Cut(at, tag) =>
      var rest := Scan(buf, inside);
      assert Scan(buf0, inside0) == ScanResult(rest.out.After(buf0[..at], tag == Close), rest.buf, rest.inside);
      ThenAfter(out0, rest.out, buf0[..at], tag == Close);
  }

  lemma ThenOnly(a: Output, text: string, hidden: bool)
    ensures a.Then(Only(text, hidden)) == a.Add(text, hidden)
  {
    assert a.vis + "" == a.vis && a.rsn + "" == a.rsn;
  }

  lemma ThenAfter(a: Output, b: Output, text: string, hidden: bool)
    ensures a.Then(b.After(text, hidden)) == a.Add(text, hidden).Then(b)
  {
    assert a.rsn + (text + b.rsn) == (a.rsn + text) + b.rsn;
    assert a.vis + (text + b.vis) == (a.vis + text) + b.vis;
  }

  lemma NothingBefore(s: ScanResult)
    ensures s.Preceded(Output("", "")) == s
  {
    assert "" + s.out.vis == s.out.vis && "" + s.out.rsn == s.out.rsn;
  }
}
