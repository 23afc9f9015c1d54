/** Source row ids: collected into a comma-separated string, and collected again from such strings. */
module RowIds {
  import opened Options
  import opened Text
  import opened Lists
  import opened Decimal

  /** A value `int()` is applied to. */
  datatype Atom = Number(i: int) | Word(s: string) | Unreadable

  /** A cell of an id column: text to be split at commas, a single value, or a list of values. */
  datatype IdCell = Text(s: string) | One(a: Atom) | Many(atoms: seq<Atom>)

  /** `s.split(",")`, with the current part so far. */
  function SplitFrom(s: string, part: string): seq<string>
    decreases |s|
  {
    if s == "" then [part]
    else if s[0] == ',' then [part] + SplitFrom(s[1..], "")
    else SplitFrom(s[1..], part + [s[0]])
  }

  function Split(s: string): seq<string> {
    SplitFrom(s, "")
  }

  /** `",".join(parts)` */
  function JoinComma(parts: seq<string>): string {
    if parts == [] then "" else if |parts| == 1 then parts[0] else parts[0] + "," + JoinComma(parts[1..])
  }

  function AtomValue(a: Atom): Option<int> {
    match a
    case Number(i) => Some(i)
    case Word(s) => ParseInt(s)
    case Unreadable => None
  }

  function Words(parts: seq<string>): seq<Atom> {
    seq(|parts|, i requires 0 <= i < |parts| => Word(parts[i]))
  }

  function Atoms(c: IdCell): seq<Atom> {
    match c
    case Text(s) => Words(Split(s))
    case One(a) => [a]
    case Many(atoms) => atoms
  }

  /** The readable values, in order. */
  function Values(atoms: seq<Atom>): seq<int> {
    if atoms == [] then []
    else
      var rest := Values(atoms[1..]);
      match AtomValue(atoms[0])
      case Some(i) => [i] + rest
      case None => rest
  }

  function AllIds(cells: seq<IdCell>): seq<int> {
    if cells == [] then [] else Values(Atoms(cells[0])) + AllIds(cells[1..])
  }

  function Texts(ids: seq<int>): seq<string> {
    seq(|ids|, i requires 0 <= i < |ids| => IntText(ids[i]))
  }

  /** `_collect_source_row_ids` */
  function Collect(cells: seq<IdCell>): string {
    JoinComma(Texts(Dedupe(AllIds(cells))))
  }

  method CollectSourceRowIds(cells: seq<IdCell>) returns (r: string)
    ensures r == Collect(cells)
  {
    var ids: seq<int> := [];
    ghost var seen: seq<int> := [];
    for i := 0 to |cells|
      invariant ids == Dedupe(seen) && AllIds(cells) == seen + AllIds(cells[i..])
    {
      var atoms := Atoms(cells[i]);
      assert cells[i..][1..] == cells[i + 1..];
      ghost var before := seen;
      for j := 0 to |atoms|
        invariant ids == Dedupe(seen) && before + Values(atoms) == seen + Values(atoms[j..])
      {
        ghost var rest := atoms[j..];
        assert rest[1..] == atoms[j + 1..];
        match AtomValue(atoms[j]) {
          case None =>
          case Some(id) =>
            AssocSeq(seen, [id], Values(rest[1..]));
            DedupeSnoc(seen, id);
            seen := seen + [id];
            if id !in ids {
              ids := ids + [id];
            }
        }
      }
      NilSeq(seen);
      AssocSeq(before, Values(atoms), AllIds(cells[i + 1..]));
    }
    NilSeq(seen);
    r := JoinComma(Texts(ids));
  }

  // ----- splitting what was joined -----

  predicate NoComma(s: string) {
    forall k :: 0 <= k < |s| ==> s[k] != ','
  }

  lemma {:induction false} SplitWord(w: string, rest: string, part: string)
    requires NoComma(w)
    ensures SplitFrom(w + rest, part) == SplitFrom(rest, part + w)
    decreases |w|
  {
    if w == "" {
      NilLeft(rest);
      NilRight(part);
    } else {
      assert (w + rest)[1..] == w[1..] + rest && (w + rest)[0] == w[0];
      SplitWord(w[1..], rest, part + [w[0]]);
      assert part + [w[0]] + w[1..] == part + w;
    }
  }

  lemma {:induction false} SplitJoined(parts: seq<string>)
    requires parts != [] && forall i :: 0 <= i < |parts| ==> NoComma(parts[i])
    ensures Split(JoinComma(parts)) == parts
  {
    var w := parts[0];
    NilLeft(w);
    if |parts| == 1 {
      SplitWord(w, "", "");
      NilRight(w);
    } else {
      var rest := JoinComma(parts[1..]);
      SplitJoined(parts[1..]);
      Assoc(w, ",", rest);
      SplitWord(w, "," + rest, "");
      assert ("," + rest)[1..] == rest;
      assert [w] + parts[1..] == parts;
    }
  }

  lemma {:induction false} WrittenIdsRead(ids: seq<int>)
    ensures Values(Words(Texts(ids))) == ids
  {
    if ids != [] {
      WrittenIdsRead(ids[1..]);
      ParseIntReads(ids[0]);
      WordsStep(ids);
      assert [ids[0]] + ids[1..] == ids;
    }
  }

  lemma WordsStep(ids: seq<int>)
    requires ids != []
    ensures var a := Words(Texts(ids)); a != [] && a[0] == Word(IntText(ids[0])) && a[1..] == Words(Texts(ids[1..]))
  {
  }

  /** Reading a collected string gives back the collected ids. */
  lemma {:induction false} CollectedReads(cells: seq<IdCell>)
    ensures Values(Atoms(Text(Collect(cells)))) == Dedupe(AllIds(cells))
  {
    var ids := Dedupe(AllIds(cells));
    var ts := Texts(ids);
    if ids == [] {
      assert Split("") == [""];
      assert Strip("") == "" && ParseInt("") == None;
      assert Words([""])[1..] == [] && Words([""])[0] == Word("");
    } else {
      forall i | 0 <= i < |ts|
        ensures NoComma(ts[i])
      {
        ParseIntReads(ids[i]);
      }
      SplitJoined(ts);
      WrittenIdsRead(ids);
    }
  }

  // ----- collecting again -----

  /** The cells of the groups in sequence. */
  function Sequence(groups: seq<seq<IdCell>>): seq<IdCell> {
    if groups == [] then [] else groups[0] + Sequence(groups[1..])
  }

  /** One collected string for each group. */
  function Collected(groups: seq<seq<IdCell>>): seq<IdCell> {
    seq(|groups|, i requires 0 <= i < |groups| => Text(Collect(groups[i])))
  }

  lemma {:induction false} AllIdsAppend(a: seq<IdCell>, b: seq<IdCell>)
    ensures AllIds(a + b) == AllIds(a) + AllIds(b)
  {
    if a == [] {
      NilSeq(b);
      NilSeq(AllIds(b));
    } else {
      AllIdsAppend(a[1..], b);
      assert (a + b)[1..] == a[1..] + b;
      AssocSeq(Values(Atoms(a[0])), AllIds(a[1..]), AllIds(b));
    }
  }

  lemma {:induction false} CollectedIds(groups: seq<seq<IdCell>>)
    ensures Dedupe(AllIds(Collected(groups))) == Dedupe(AllIds(Sequence(groups)))
  {
    if groups != [] {
      var g, rest := groups[0], groups[1..];
      CollectedIds(rest);
      CollectedHead(groups);
      AllIdsAppend(g, Sequence(rest));
      DedupeBoth(AllIds(g), AllIds(Collected(rest)), AllIds(Sequence(rest)));
    }
  }

  lemma CollectedHead(groups: seq<seq<IdCell>>)
    requires groups != []
    ensures AllIds(Collected(groups)) == Dedupe(AllIds(groups[0])) + AllIds(Collected(groups[1..]))
  {
    var c := Collected(groups);
    CollectedReads(groups[0]);
    assert c[0] == Text(Collect(groups[0])) && c[1..] == Collected(groups[1..]);
  }

  lemma DedupeBoth(a: seq<int>, x: seq<int>, y: seq<int>)
    requires Dedupe(x) == Dedupe(y)
    ensures Dedupe(Dedupe(a) + x) == Dedupe(a + y)
  {
    DedupeTwice(a, x);
    DedupeOnto(a, x);
    DedupeOnto(a, y);
  }

  /** Collecting the collected strings of several groups equals collecting all their raw ids in sequence. */
  lemma CollectingAgain(groups: seq<seq<IdCell>>)
    ensures Collect(Collected(groups)) == Collect(Sequence(groups))
  {
    CollectedIds(groups);
  }

  // ----- the ids of a cell -----

  /** The value is an integer, or text that reads as one. */
  predicate ReadsAs(a: Atom, x: int) {
    a == Number(x) || (a.Word? && ParseInt(a.s) == Some(x))
  }

  lemma {:induction false} ValuesExactly(atoms: seq<Atom>, x: int)
    ensures x in Values(atoms) <==> exists k :: 0 <= k < |atoms| && ReadsAs(atoms[k], x)
  {
    if atoms != [] {
      ValuesExactly(atoms[1..], x);
      if k :| 0 <= k < |atoms| && ReadsAs(atoms[k], x) {
        assert k > 0 ==> atoms[1..][k - 1] == atoms[k];
      }
      if k :| 0 <= k < |atoms| - 1 && ReadsAs(atoms[1..][k], x) {
        assert atoms[k + 1] == atoms[1..][k];
      }
    }
  }

  lemma {:induction false} SplitPieces(s: string, part: string)
    requires NoComma(part)
    ensures var parts := SplitFrom(s, part);
            parts != [] && JoinComma(parts) == part + s && forall i :: 0 <= i < |parts| ==> NoComma(parts[i])
    decreases |s|
  {
    if s == "" {
      NilRight(part);
    } else if s[0] == ',' {
      SplitPieces(s[1..], "");
      var rest := SplitFrom(s[1..], "");
      NilLeft(s[1..]);
      assert s == "," + s[1..];
      Assoc(part, ",", s[1..]);
      assert ([part] + rest)[1..] == rest;
    } else {
      SplitPieces(s[1..], part + [s[0]]);
      assert part + s == part + [s[0]] + s[1..];
    }
  }

  /** Splitting gives the parts without commas that the text joins with commas. The ids of a cell are those of its
      parts, its value or its list that read as integers. */
  lemma IdsExactly(c: IdCell, x: int)
    ensures c.Text? ==> JoinComma(Split(c.s)) == c.s && forall i :: 0 <= i < |Split(c.s)| ==> NoComma(Split(c.s)[i])
    ensures x in Values(Atoms(c)) <==>
            match c
            case Text(s) => exists k :: 0 <= k < |Split(s)| && ParseInt(Split(s)[k]) == Some(x)
            case One(a) => ReadsAs(a, x)
            case Many(atoms) => exists k :: 0 <= k < |atoms| && ReadsAs(atoms[k], x)
  {
    ValuesExactly(Atoms(c), x);
    match c
    case Text(s) =>
      SplitPieces(s, "");
      NilLeft(s);
      assert forall k :: 0 <= k < |Split(s)| ==> (ReadsAs(Atoms(c)[k], x) <==> ParseInt(Split(s)[k]) == Some(x));
    case One(a) =>
      assert Atoms(c)[0] == a;
    case Many(atoms) =>
  }
}
