/** Table names for uploaded files: sanitising, finding a fresh name, registering. */
module TableNames {
  import opened Text
  import opened Lists
  import opened Decimal

  const MAX_LENGTH := 120

  predicate IsLower(c: char) {
    'a' <= c <= 'z'
  }

  predicate SafeChar(c: char) {
    IsLower(c) || 'A' <= c <= 'Z' || IsDigit(c) || c == '_'
  }

  /** Each run of other characters becomes one underscore; `inRun` says that its underscore is already written. */
  function Squash(s: string, inRun: bool): string {
    if s == "" then ""
    else if SafeChar(s[0]) then [s[0]] + Squash(s[1..], false)
    else (if inRun then "" else "_") + Squash(s[1..], true)
  }

  function TrimLeft(s: string): string {
    if s != "" && s[0] == '_' then TrimLeft(s[1..]) else s
  }

  function TrimRight(s: string): string {
    if s != "" && s[|s| - 1] == '_' then TrimRight(s[..|s| - 1]) else s
  }

  function Take(s: string, n: nat): string {
    if |s| <= n then s else s[..n]
  }

  /** `sanitize_table_name`, from the stem of the file name on. */
  function Sanitize(stem: string): string {
    var cleaned := LowerAll(TrimRight(TrimLeft(Squash(stem, false))));
    var named := if cleaned == "" then "uploaded_csv" else cleaned;
    Take(if IsDigit(named[0]) then "t_" + named else named, MAX_LENGTH)
  }

  /** What sanitising yields: at most 120 characters, all of them lower-case letters, digits and underscores,
      a letter first. */
  predicate TableName(s: string) {
    0 < |s| <= MAX_LENGTH && IsLower(s[0]) && forall k :: 0 <= k < |s| ==> IsLower(s[k]) || IsDigit(s[k]) || s[k] == '_'
  }

  predicate EndsInUnderscore(s: string) {
    s != "" && s[|s| - 1] == '_'
  }

  // ----- sanitising -----

  lemma {:induction false} SquashIsSafe(s: string, inRun: bool)
    ensures forall k :: 0 <= k < |Squash(s, inRun)| ==> SafeChar(Squash(s, inRun)[k])
  {
    if s != "" {
      SquashIsSafe(s[1..], false);
      SquashIsSafe(s[1..], true);
    }
  }

  predicate AllUnderscores(s: string) {
    forall k :: 0 <= k < |s| ==> s[k] == '_'
  }

  lemma {:induction false} TrimLeftFacts(s: string)
    ensures var t := TrimLeft(s);
            |t| <= |s| && t == s[|s| - |t|..] && (t != "" ==> t[0] != '_') && AllUnderscores(s[..|s| - |t|])
  {
    if s != "" && s[0] == '_' {
      TrimLeftFacts(s[1..]);
    }
  }

  lemma {:induction false} TrimRightFacts(s: string)
    ensures var t := TrimRight(s); t <= s && !EndsInUnderscore(t) && AllUnderscores(s[|t|..])
  {
    if s != "" && s[|s| - 1] == '_' {
      TrimRightFacts(s[..|s| - 1]);
    }
  }

  lemma LowerSafe(s: string)
    requires forall k :: 0 <= k < |s| ==> SafeChar(s[k])
    ensures |LowerAll(s)| == |s| && forall k :: 0 <= k < |s| ==>
              (IsLower(LowerAll(s)[k]) || IsDigit(LowerAll(s)[k]) || LowerAll(s)[k] == '_') &&
              (LowerAll(s)[k] == '_' <==> s[k] == '_')
  {
    if s != "" {
      LowerAt(s, 0);
    }
    forall k | 0 <= k < |s|
      ensures (IsLower(LowerAll(s)[k]) || IsDigit(LowerAll(s)[k]) || LowerAll(s)[k] == '_') &&
              (LowerAll(s)[k] == '_' <==> s[k] == '_')
    {
      LowerAt(s, k);
    }
  }

  /** Each longest run of unsafe characters becomes one underscore, safe characters stay. */
  lemma {:induction false} SquashExactly(a: string, u: string, rest: string)
    requires (forall k :: 0 <= k < |a| ==> SafeChar(a[k])) && u != "" && (forall k :: 0 <= k < |u| ==> !SafeChar(u[k]))
    requires rest != "" ==> SafeChar(rest[0])
    ensures Squash(a + u + rest, false) == a + "_" + Squash(rest, false)
    decreases |a|
  {
    if a == "" {
      NilLeft(u);
      assert (u + rest)[0] == u[0] && (u + rest)[1..] == u[1..] + rest;
      RunVanishes(u[1..], rest);
      NilLeft("_");
    } else {
      var all := a + u + rest;
      assert all[0] == a[0] && all[1..] == a[1..] + u + rest;
      SquashExactly(a[1..], u, rest);
      assert [a[0]] + (a[1..] + "_" + Squash(rest, false)) == a + "_" + Squash(rest, false);
    }
  }

  lemma {:induction false} RunVanishes(u: string, rest: string)
    requires (forall k :: 0 <= k < |u| ==> !SafeChar(u[k])) && (rest != "" ==> SafeChar(rest[0]))
    ensures Squash(u + rest, true) == Squash(rest, false)
  {
    if u == "" {
      NilLeft(rest);
    } else {
      assert (u + rest)[1..] == u[1..] + rest;
      RunVanishes(u[1..], rest);
      NilLeft(Squash(rest, false));
    }
  }

  /** The name of a kept text: a default for none, a letter in front of a digit, 120 characters at most. */
  predicate IsNamed(name: string, kept: string) {
    if kept == "" then name == "uploaded_csv"
    else
      var whole := if IsDigit(kept[0]) then "t_" + kept else kept;
      name == if |whole| <= 120 then whole else whole[..120]
  }

  /** Sanitising squashes the stem, trims the underscores at both ends, lowers it and names the result. */
  lemma SanitizedExactly(stem: string) returns (left: string, core: string, right: string)
    ensures Squash(stem, false) == left + core + right && AllUnderscores(left) && AllUnderscores(right)
    ensures (core != "" ==> core[0] != '_') && !EndsInUnderscore(core) && IsNamed(Sanitize(stem), LowerAll(core))
  {
    var a := Squash(stem, false);
    var b := TrimLeft(a);
    core := TrimRight(b);
    TrimLeftFacts(a);
    TrimRightFacts(b);
    left, right := a[..|a| - |b|], b[|core|..];
    assert b == core + right && a == left + b;
    Assoc(left, core, right);
    TrimRightHead(b);
    NamedIs(stem);
  }

  lemma TrimRightHead(b: string)
    ensures TrimRight(b) != "" ==> TrimRight(b)[0] == b[0]
  {
    TrimRightFacts(b);
  }

  lemma NamedIs(stem: string)
    ensures IsNamed(Sanitize(stem), LowerAll(TrimRight(TrimLeft(Squash(stem, false)))))
  {
  }

  /** The text of the stem that is kept, underscores at both ends trimmed. */
  lemma CleanedStem(stem: string)
    ensures var d := LowerAll(TrimRight(TrimLeft(Squash(stem, false))));
            (forall k :: 0 <= k < |d| ==> IsLower(d[k]) || IsDigit(d[k]) || d[k] == '_') &&
            (d != "" ==> d[0] != '_') && !EndsInUnderscore(d)
  {
    var a := Squash(stem, false);
    var b := TrimLeft(a);
    var c := TrimRight(b);
    SquashIsSafe(stem, false);
    TrimLeftFacts(a);
    TrimRightFacts(b);
    assert forall k :: 0 <= k < |c| ==> c[k] == a[|a| - |b| + k];
    LowerSafe(c);
  }

  /** Every sanitised name is a safe identifier of at most 120 characters. */
  lemma SanitizedIsTableName(stem: string)
    ensures TableName(Sanitize(stem))
  {
    CleanedStem(stem);
    var d := LowerAll(TrimRight(TrimLeft(Squash(stem, false))));
    if d != "" {
      assert d[0] != '_';
    }
  }

  /** Only truncation can leave an underscore at the end. */
  lemma SanitizedUnderscoreIsLong(stem: string)
    ensures EndsInUnderscore(Sanitize(stem)) ==> |Sanitize(stem)| == MAX_LENGTH
  {
    CleanedStem(stem);
  }

  lemma {:induction false} SquashSafe(s: string, inRun: bool)
    requires forall k :: 0 <= k < |s| ==> SafeChar(s[k])
    ensures Squash(s, inRun) == s
  {
    if s != "" {
      SquashSafe(s[1..], false);
    }
  }

  lemma {:induction false} LowerIsLower(s: string)
    requires forall k :: 0 <= k < |s| ==> IsLower(s[k]) || IsDigit(s[k]) || s[k] == '_'
    ensures LowerAll(s) == s
  {
    if s != "" {
      LowerIsLower(s[1..]);
    }
  }

  /** On a table name sanitising only trims the underscores at its end. */
  lemma SanitizeTrims(s: string)
    requires TableName(s)
    ensures Sanitize(s) == TrimRight(s) && TrimRight(s) != ""
  {
    SquashSafe(s, false);
    TrimRightFacts(s);
    KeepsFirst(s);
    assert TrimLeft(s) == s;
    var t := TrimRight(s);
    assert forall k :: 0 <= k < |t| ==> t[k] == s[k];
    LowerIsLower(t);
  }

  /** Sanitising a table name again changes nothing exactly when it does not end in an underscore. */
  lemma ResanitizeExactly(s: string)
    requires TableName(s)
    ensures Sanitize(s) == s <==> !EndsInUnderscore(s)
  {
    SanitizeTrims(s);
    TrimRightFacts(s);
  }

  lemma {:induction false} KeepsFirst(s: string)
    requires s != "" && s[0] != '_'
    ensures TrimRight(s) != "" && TrimRight(s)[0] == s[0]
  {
    if s[|s| - 1] == '_' {
      KeepsFirst(s[..|s| - 1]);
    }
  }

  // ----- fresh names -----

  /** `s[:n]` for any integer n. */
  function Slice(s: string, n: int): string {
    if n >= 0 then Take(s, n) else if |s| + n > 0 then s[..|s| + n] else ""
  }

  function Suffix(counter: nat): string {
    "_" + NatText(counter)
  }

  function Candidate(base: string, counter: nat): string {
    Slice(base, MAX_LENGTH - |Suffix(counter)|) + Suffix(counter)
  }

  /** A candidate is the start of the base and the numbered suffix, as much of the base as 120 characters allow. */
  lemma CandidateExactly(base: string, counter: nat)
    requires |base| <= 120 && |NatText(counter)| < 119
    ensures var n, m := 119 - |NatText(counter)|, |base|;
            Candidate(base, counter) == base[..if m < n then m else n] + "_" + NatText(counter)
  {
    var n, m := 119 - |NatText(counter)|, |base|;
    Assoc(base[..if m < n then m else n], "_", NatText(counter));
  }

  /** The names in use, blank ones left out. */
  function Taken(existing: seq<string>): set<string> {
    set s | s in existing && Strip(s) != "" :: LowerAll(Strip(s))
  }

  lemma DigitsAfter(q: string, b: string, k: nat)
    requires AllDigits(b) && |q| < k < |q + "_" + b|
    ensures (q + "_" + b)[k] != '_'
  {
    assert (q + "_" + b)[k] == b[k - |q| - 1];
  }

  lemma SuffixFrom(p: string, a: string, q: string, b: string)
    requires p + "_" + a == q + "_" + b && AllDigits(a) && AllDigits(b) && |a| <= |b|
    ensures a == b
  {
    var s := p + "_" + a;
    if |a| < |b| {
      assert s[|p|] == '_';
      DigitsAfter(q, b, |p|);
      assert false;
    } else {
      assert s[|s| - |a|..] == a && s[|s| - |b|..] == b;
    }
  }

  /** Candidates with different counters differ, also after truncation. */
  lemma CandidatesDiffer(base: string, m: nat, n: nat)
    requires Candidate(base, m) == Candidate(base, n)
    ensures m == n
  {
    var p, q := Slice(base, MAX_LENGTH - |Suffix(m)|), Slice(base, MAX_LENGTH - |Suffix(n)|);
    NatTextReads(m);
    NatTextReads(n);
    Assoc(p, "_", NatText(m));
    Assoc(q, "_", NatText(n));
    if |NatText(m)| <= |NatText(n)| {
      SuffixFrom(p, NatText(m), q, NatText(n));
    } else {
      SuffixFrom(q, NatText(n), p, NatText(m));
    }
    NatTextInjective(m, n);
  }

  /** The candidates already tried. */
  function Tried(base: string, counter: nat): set<string> {
    set c | 2 <= c < counter :: Candidate(base, c)
  }

  lemma {:induction false} TriedCount(base: string, counter: nat)
    requires counter >= 2
    ensures |Tried(base, counter)| == counter - 2
  {
    if counter == 2 {
      assert Tried(base, counter) == {};
    } else {
      TriedCount(base, counter - 1);
      var last := Candidate(base, counter - 1);
      if last in Tried(base, counter - 1) {
        var c: nat :| 2 <= c < counter - 1 && Candidate(base, c) == last;
        CandidatesDiffer(base, c, counter - 1);
      }
      assert Tried(base, counter) == Tried(base, counter - 1) + {last};
    }
  }

  /** The first free candidate. */
  predicate FirstFree(base: string, taken: set<string>, counter: nat) {
    counter >= 2 && Candidate(base, counter) !in taken &&
    forall c: nat :: 2 <= c < counter ==> Candidate(base, c) in taken
  }

  /** `unique_table_name`: for every finite set of names the search ends, after at most one more attempt than there
      are names, with a name not in use. */
  method UniqueTableName(stem: string, existing: seq<string>) returns (name: string)
    ensures name !in Taken(existing)
    ensures forall s :: s in existing && Strip(s) != "" ==> LowerAll(Strip(s)) != name
    ensures var base := Sanitize(stem);
            if base !in Taken(existing) then name == base
            else exists counter: nat :: FirstFree(base, Taken(existing), counter) && name == Candidate(base, counter) &&
                                        counter <= |Taken(existing)| + 2
  {
    var base := Sanitize(stem);
    var taken := Taken(existing);
    if base !in taken {
      return base;
    }
    var counter := 2;
    TriedWithin(base, taken, counter);
    while true
      invariant 2 <= counter <= |taken| + 2
      invariant forall c: nat :: 2 <= c < counter ==> Candidate(base, c) in taken
      decreases |taken| + 2 - counter
    {
      var candidate := Candidate(base, counter);
      if candidate !in taken {
        assert FirstFree(base, taken, counter);
        return candidate;
      }
      counter := counter + 1;
      TriedWithin(base, taken, counter);
    }
  }

  lemma TriedWithin(base: string, taken: set<string>, counter: nat)
    requires counter >= 2 && forall c: nat :: 2 <= c < counter ==> Candidate(base, c) in taken
    ensures counter <= |taken| + 2
  {
    TriedCount(base, counter);
    SubsetSize(Tried(base, counter), taken);
  }

  /** While the suffix is shorter than 120 characters a candidate is a table name, and sanitising it again changes
      nothing. */
  lemma CandidateIsTableName(base: string, counter: nat)
    requires TableName(base) && |Suffix(counter)| < MAX_LENGTH
    ensures TableName(Candidate(base, counter)) && Sanitize(Candidate(base, counter)) == Candidate(base, counter)
  {
    NatTextReads(counter);
    var s, p := Suffix(counter), Slice(base, MAX_LENGTH - |Suffix(counter)|);
    var c := Candidate(base, counter);
    assert |p| > 0 && p <= base;
    assert forall k :: 0 <= k < |p| ==> p[k] == base[k];
    forall k | 0 <= k < |c|
      ensures IsLower(c[k]) || IsDigit(c[k]) || c[k] == '_'
    {
      if k >= |p| {
        assert c[k] == s[k - |p|];
      }
    }
    assert c[|c| - 1] == NatText(counter)[|NatText(counter)| - 1];
    ResanitizeExactly(c);
  }

  /** A fresh name is a table name as long as there are fewer names than a 118-digit number. */
  lemma FreshIsTableName(stem: string, taken: set<string>, counter: nat)
    requires counter <= |taken| + 2 && |NatText(|taken| + 2)| < MAX_LENGTH - 1
    ensures TableName(Candidate(Sanitize(stem), counter))
  {
    SanitizedIsTableName(stem);
    NatTextGrows(counter, |taken| + 2);
    CandidateIsTableName(Sanitize(stem), counter);
  }

  /** Table names in use are recognised as taken, so a name that is not taken is new. */
  lemma TableNamesAreTaken(existing: seq<string>, name: string)
    requires name in existing && TableName(name)
    ensures name in Taken(existing)
  {
    assert !IsSpace(name[0]) && !IsSpace(name[|name| - 1]);
    LowerIsLower(name);
  }

  // ----- a batch of uploads -----

  lemma {:induction false} TakenSize(existing: seq<string>)
    ensures |Taken(existing)| <= |existing|
  {
    if existing == [] {
      assert Taken(existing) == {};
    } else {
      var init, last := existing[..|existing| - 1], existing[|existing| - 1];
      TakenSize(init);
      assert existing == init + [last];
      assert Taken(existing) <= Taken(init) + {LowerAll(Strip(last))};
      SubsetSize(Taken(existing), Taken(init) + {LowerAll(Strip(last))});
    }
  }

  lemma TakenGrows(existing: seq<string>, more: seq<string>)
    ensures Taken(existing) <= Taken(existing + more)
  {
    assert forall x :: x in existing ==> x in existing + more;
  }

  /** The number of names has fewer than 119 digits. */
  predicate FewNames(n: nat) {
    |NatText(n + 2)| < MAX_LENGTH - 1
  }

  /** The names of a batch so far: table names, distinct, and none in use before. */
  ghost predicate BatchOk(names: seq<string>, existing: seq<string>) {
    NoDuplicates(names) && forall k :: 0 <= k < |names| ==> TableName(names[k]) && names[k] !in Taken(existing)
  }

  lemma BatchGrows(names: seq<string>, existing: seq<string>, name: string)
    requires BatchOk(names, existing) && TableName(name) && name !in Taken(existing + names)
    ensures BatchOk(names + [name], existing)
  {
    TakenGrows(existing, names);
    forall k | 0 <= k < |names|
      ensures names[k] != name
    {
      assert names[k] in existing + names;
      TableNamesAreTaken(existing + names, names[k]);
    }
  }

  /** The name found for a stem is a table name while there are few names. */
  lemma FoundIsTableName(stem: string, existing: seq<string>, name: string)
    requires FewNames(|existing|)
    requires name == Sanitize(stem) ||
             exists counter: nat :: name == Candidate(Sanitize(stem), counter) && 2 <= counter <= |Taken(existing)| + 2
    ensures TableName(name)
  {
    SanitizedIsTableName(stem);
    if name != Sanitize(stem) {
      var counter: nat :| name == Candidate(Sanitize(stem), counter) && 2 <= counter <= |Taken(existing)| + 2;
      TakenSize(existing);
      NatTextGrows(|Taken(existing)| + 2, |existing| + 2);
      FreshIsTableName(stem, Taken(existing), counter);
    }
  }

  lemma FewerNames(m: nat, n: nat)
    requires m <= n && FewNames(n)
    ensures FewNames(m)
  {
    NatTextGrows(m + 2, n + 2);
  }

  /** The naming of an upload, one file after another, each with the names before it in use. */
  method NameBatch(stems: seq<string>, existing: seq<string>) returns (names: seq<string>)
    ensures |names| == |stems|
    ensures forall k :: 0 <= k < |names| ==> names[k] !in Taken(existing + names[..k])
    ensures FewNames(|existing| + |stems|) ==> BatchOk(names, existing)
  {
    names := [];
    for i := 0 to |stems|
      invariant |names| == i
      invariant forall k :: 0 <= k < i ==> names[k] !in Taken(existing + names[..k])
      invariant FewNames(|existing| + |stems|) ==> BatchOk(names, existing)
    {
      var name := UniqueTableName(stems[i], existing + names);
      if FewNames(|existing| + |stems|) {
        FewerNames(|existing + names|, |existing| + |stems|);
        FoundIsTableName(stems[i], existing + names, name);
        BatchGrows(names, existing, name);
      }
      assert forall k :: 0 <= k < i ==> (names + [name])[..k] == names[..k];
      assert (names + [name])[..i] == names;
      names := names + [name];
    }
  }

  // ----- registering -----

  function SanitizeAll(names: seq<string>): seq<string> {
    seq(|names|, i requires 0 <= i < |names| => Sanitize(names[i]))
  }

  /** The tables `register_dataframes` creates: the keys of a dictionary built from the sanitised names. */
  method SafeTables(names: seq<string>) returns (keys: seq<string>)
    ensures keys == Dedupe(SanitizeAll(names))
  {
    keys := [];
    for i := 0 to |names|
      invariant keys == Dedupe(SanitizeAll(names[..i]))
    {
      assert SanitizeAll(names[..i + 1]) == SanitizeAll(names[..i]) + [Sanitize(names[i])];
      DedupeSnoc(SanitizeAll(names[..i]), Sanitize(names[i]));
      if Sanitize(names[i]) !in keys {
        keys := keys + [Sanitize(names[i])];
      }
    }
    assert names[..|names|] == names;
  }

  lemma {:induction false} DedupeDistinct(xs: seq<string>)
    requires NoDuplicates(xs)
    ensures Dedupe(xs) == xs
  {
    if xs != [] {
      DedupeDistinct(xs[..|xs| - 1]);
      assert xs == xs[..|xs| - 1] + [xs[|xs| - 1]];
      var init := xs[..|xs| - 1];
      forall i | 0 <= i < |init|
        ensures init[i] != xs[|xs| - 1]
      {
      }
    }
  }

  /** Registering distinct table names creates exactly those tables, under those names, when and only when none of
      the names ends in an underscore. */
  lemma RegisteringKeepsNames(names: seq<string>)
    requires NoDuplicates(names) && forall k :: 0 <= k < |names| ==> TableName(names[k])
    ensures Dedupe(SanitizeAll(names)) == names <==> forall k :: 0 <= k < |names| ==> !EndsInUnderscore(names[k])
  {
    forall k | 0 <= k < |names|
      ensures Sanitize(names[k]) == names[k] <==> !EndsInUnderscore(names[k])
    {
      ResanitizeExactly(names[k]);
    }
    var s := SanitizeAll(names);
    DedupeShorter(s);
    if forall k :: 0 <= k < |names| ==> !EndsInUnderscore(names[k]) {
      assert s == names;
      DedupeDistinct(names);
    } else {
      var k :| 0 <= k < |names| && EndsInUnderscore(names[k]);
      assert s[k] != names[k];
    }
  }

  lemma {:induction false} DedupeShorter(xs: seq<string>)
    ensures |Dedupe(xs)| <= |xs| && (|Dedupe(xs)| == |xs| ==> Dedupe(xs) == xs)
  {
    if xs != [] {
      DedupeShorter(xs[..|xs| - 1]);
      assert xs == xs[..|xs| - 1] + [xs[|xs| - 1]];
    }
  }

  lemma DedupeIsFull(xs: seq<string>)
    ensures |Dedupe(xs)| == |xs| <==> NoDuplicates(xs)
  {
    DedupeShorter(xs);
    DedupeFacts(xs);
    if NoDuplicates(xs) {
      DedupeDistinct(xs);
    }
  }

  /** Registering table names merges no two of them exactly when they still differ without the underscores at their
      ends. */
  lemma RegisteringMergesExactly(names: seq<string>)
    requires forall k :: 0 <= k < |names| ==> TableName(names[k])
    ensures |Dedupe(SanitizeAll(names))| == |names| <==>
            forall i, j :: 0 <= i < j < |names| ==> TrimRight(names[i]) != TrimRight(names[j])
  {
    var s := SanitizeAll(names);
    forall k | 0 <= k < |names|
      ensures s[k] == TrimRight(names[k])
    {
      SanitizeTrims(names[k]);
    }
    DedupeIsFull(s);
  }

  /** Two table names of which one ends in an underscore can be registered as one table. */
  lemma UnderscoreMerges(a: string)
    requires TableName(a + "_") && !EndsInUnderscore(a) && a != ""
    ensures Dedupe(SanitizeAll([a, a + "_"])) == [a]
  {
    var b := a + "_";
    assert forall k :: 0 <= k < |a| ==> a[k] == b[k];
    ResanitizeExactly(a);
    SquashSafe(b, false);
    assert TrimLeft(b) == b && b[..|a|] == a && TrimRight(b) == TrimRight(a) == a;
    LowerIsLower(a);
    var s := SanitizeAll([a, b]);
    assert s == [] + [a] + [a];
    DedupeSnoc([], a);
    DedupeSnoc([] + [a], a);
  }

  // ----- two files registered as one table -----

  /** Truncation after 120 characters can end at an underscore. */
  lemma TruncatedAtUnderscore(a: string)
    requires TableName(a) && |a| == MAX_LENGTH - 1
    ensures Sanitize(a + "_b") == a + "_"
  {
    var t := a + "_b";
    assert forall k :: 0 <= k < |a| ==> t[k] == a[k];
    SquashSafe(t, false);
    assert TrimLeft(t) == t && TrimRight(t) == t;
    LowerIsLower(t);
    assert t[..MAX_LENGTH] == a + "_";
  }

  /** Two files whose sanitised names differ, and which registering makes one table. */
  lemma LongStemsMerge(a: string)
    requires TableName(a) && |a| == MAX_LENGTH - 1 && !EndsInUnderscore(a)
    ensures Sanitize(a) == a && Sanitize(a + "_b") == a + "_" && a != a + "_"
    ensures Dedupe(SanitizeAll([Sanitize(a), Sanitize(a + "_b")])) == [a]
  {
    ResanitizeExactly(a);
    TruncatedAtUnderscore(a);
    SanitizedIsTableName(a + "_b");
    UnderscoreMerges(a);
  }

  function Letters(n: nat): string {
    seq(n, _ => 'a')
  }

  lemma LettersMerge()
    ensures Dedupe(SanitizeAll([Sanitize(Letters(119)), Sanitize(Letters(119) + "_b")])) == [Letters(119)]
  {
    LongStemsMerge(Letters(119));
  }
}
