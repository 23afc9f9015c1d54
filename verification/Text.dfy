/** Character and string helpers shared by the modules of the model. */
module Text {

  /** Per-character ASCII lower-casing. */
  function Lower(c: char): char {
    if 'A' <= c <= 'Z' then (c as int + 32) as char else c
  }

  function LowerAll(s: string): string {
    if s == "" then "" else [Lower(s[0])] + LowerAll(s[1..])
  }

  lemma LowerAt(s: string, k: nat)
    requires k < |s|
    ensures |LowerAll(s)| == |s| && LowerAll(s)[k] == Lower(s[k])
  {
    if |s| > 1 {
      LowerAt(s[1..], if k == 0 then 0 else k - 1);
    }
  }

  /** The ASCII characters that `str.strip()` removes. */
  predicate IsSpace(c: char) {
    9 <= c as int <= 13 || 28 <= c as int <= 32
  }

  function StripLeft(s: string): string {
    if s != "" && IsSpace(s[0]) then StripLeft(s[1..]) else s
  }

  function StripRight(s: string): string {
    if s != "" && IsSpace(s[|s| - 1]) then StripRight(s[..|s| - 1]) else s
  }

  /** `s.strip()` */
  function Strip(s: string): string {
    StripRight(StripLeft(s))
  }

  /** The names that are not blank, stripped. */
  function NonBlankNames(names: seq<string>): seq<string> {
    if names == [] then [] else (if Strip(names[0]) == "" then [] else [Strip(names[0])]) + NonBlankNames(names[1..])
  }

  /** `"".join(parts)` */
  function Join(parts: seq<string>): string {
    if parts == [] then "" else parts[0] + Join(parts[1..])
  }

  lemma Assoc(a: string, b: string, c: string)
    ensures (a + b) + c == a + (b + c)
  {
  }

  lemma NilRight(a: string)
    ensures a + "" == a
  {
  }

  lemma NilLeft(a: string)
    ensures "" + a == a
  {
  }

  lemma {:induction false} JoinAppend(a: seq<string>, b: seq<string>)
    ensures Join(a + b) == Join(a) + Join(b)
  {
    if a == [] {
      assert a + b == b;
    } else {
      JoinAppend(a[1..], b);
      assert (a + b)[1..] == a[1..] + b;
      Assoc(a[0], Join(a[1..]), Join(b));
    }
  }

  lemma JoinCons(s: string, parts: seq<string>)
    ensures Join([s] + parts) == s + Join(parts)
  {
    assert ([s] + parts)[1..] == parts;
  }

  lemma {:induction false} JoinSnoc(a: seq<string>, s: string)
    ensures Join(a + [s]) == Join(a) + s
  {
    JoinAppend(a, [s]);
    assert Join([s]) == s + Join([]);
  }

  lemma StripRightEnds(s: string)
    ensures StripRight(s) <= s
    ensures StripRight(s) != "" ==> !IsSpace(StripRight(s)[|StripRight(s)| - 1])
  {
  }

  lemma StripLeftEnds(s: string)
    ensures StripLeft(s) != "" ==> !IsSpace(StripLeft(s)[0])
  {
  }

  /** Stripping twice is stripping once. */
  lemma StripIdempotent(s: string)
    ensures Strip(Strip(s)) == Strip(s)
  {
    var l := StripLeft(s);
    StripLeftEnds(s);
    StripRightEnds(l);
    var t := StripRight(l);
    if t != "" {
      assert t[0] == l[0];
    }
  }

  predicate AllSpaces(s: string) {
    forall k :: 0 <= k < |s| ==> IsSpace(s[k])
  }

  predicate NoOuterSpace(s: string) {
    s != "" ==> !IsSpace(s[0]) && !IsSpace(s[|s| - 1])
  }

  lemma StripNothing(s: string)
    requires NoOuterSpace(s)
    ensures Strip(s) == s
  {
  }

  lemma {:induction false} StripLeftIs(s: string) returns (a: string)
    ensures s == a + StripLeft(s) && AllSpaces(a)
  {
    a := "";
    if s != "" && IsSpace(s[0]) {
      var b := StripLeftIs(s[1..]);
      a := [s[0]] + b;
      assert s == [s[0]] + s[1..];
      Assoc([s[0]], b, StripLeft(s));
    }
  }

  lemma {:induction false} StripRightIs(s: string) returns (b: string)
    ensures s == StripRight(s) + b && AllSpaces(b)
  {
    b := "";
    if s != "" && IsSpace(s[|s| - 1]) {
      var a := StripRightIs(s[..|s| - 1]);
      b := a + [s[|s| - 1]];
      assert s == s[..|s| - 1] + [s[|s| - 1]];
      Assoc(StripRight(s), a, [s[|s| - 1]]);
    }
  }

  /** Stripping takes away white space at both ends and leaves none there. */
  lemma StripExactly(s: string) returns (a: string, b: string)
    ensures s == a + Strip(s) + b && AllSpaces(a) && AllSpaces(b) && NoOuterSpace(Strip(s))
  {
    a := StripLeftIs(s);
    var l := StripLeft(s);
    b := StripRightIs(l);
    Assoc(a, Strip(s), b);
    StripLeftEnds(s);
    StripRightEnds(l);
    if Strip(s) != "" {
      assert Strip(s)[0] == l[0];
    }
  }

  /** The non-blank names are the stripped names that are not empty. */
  lemma {:induction false} NonBlankExactly(names: seq<string>, x: string)
    ensures x in NonBlankNames(names) <==> x != "" && exists i :: 0 <= i < |names| && Strip(names[i]) == x
  {
    if names != [] {
      NonBlankExactly(names[1..], x);
      if i :| 0 <= i < |names| && Strip(names[i]) == x {
        assert i > 0 ==> names[1..][i - 1] == names[i];
      }
      if i :| 0 <= i < |names| - 1 && Strip(names[1..][i]) == x {
        assert names[i + 1] == names[1..][i];
      }
    }
  }
}
