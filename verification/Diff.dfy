/** Unified diffs of two texts. */
module Diff {
  import opened Options
  import opened Sequences
  import opened Text
  import opened Numerals
  import opened DiffLcs
  import opened DiffHunks
  import opened DiffReader
  import opened DiffRender

  /** The lines of a text, without the empty one after a trailing newline. */
  function SplitLines(s: string): seq<string> {
    if s == "" then []
    else
      var lines := Split(Unix(s), '\n');
      if lines[|lines| - 1] == "" then lines[..|lines| - 1] else lines
  }

  /** The text with Unix line endings and a final newline. */
  function Normal(s: string): string {
    var u := Unix(s);
    if u == "" || u[|u| - 1] == '\n' then u else u + "\n"
  }

  lemma {:induction false} SplitTail<T>(s: seq<T>, c: T)
    ensures Split(s + [c], c) == Split(s, c) + [[]]
    decreases |s|
  {
    hide Split, Index;
    var i := Index(s, c);
    var before, after := s[..i], (s + [c])[i + 1..];
    assert (s + [c])[..i] == before;
    SplitAt(s + [c], c, i);
    if i < |s| {
      SplitAt(s, c, i);
      SplitTail(s[i + 1..], c);
      assert after == s[i + 1..] + [c];
      Assoc([before], Split(s[i + 1..], c), [[]]);
    } else {
      assert before == s && after == [];
      SplitWhole(s, c);
      SplitWhole([], c);
    }
  }

  lemma {:induction false} LastPiece<T>(s: seq<T>, c: T)
    requires s != []
    ensures var parts := Split(s, c); parts[|parts| - 1] == [] <==> s[|s| - 1] == c
    decreases |s|
  {
    var i := Index(s, c);
    if i + 1 < |s| {
      LastPiece(s[i + 1..], c);
    } else if i < |s| {
      assert s[i + 1..] == [];
    } else {
      assert s[|s| - 1] in s[..i];
    }
  }

  lemma NormalSplit(s: string)
    ensures Split(Normal(s), '\n') == SplitLines(s) + [""]
  {
    var u := Unix(s);
    if u == "" {
      assert s == "";
    } else {
      hide Split, Unix;
      LastPiece(u, '\n');
      SplitTail(u, '\n');
      var parts := Split(u, '\n');
      assert parts == parts[..|parts| - 1] + [parts[|parts| - 1]];
    }
  }

  /** Two texts have the same lines exactly if they agree up to CRLF line endings and a final newline. */
  lemma SameLines(a: string, b: string)
    ensures SplitLines(a) == SplitLines(b) <==> Normal(a) == Normal(b)
  {
    NormalSplit(a);
    NormalSplit(b);
    hide SplitLines, Normal, Split, Join;
    SplitInverts(Normal(a), '\n');
    SplitInverts(Normal(b), '\n');
    assert (SplitLines(a) + [""])[..|SplitLines(a)|] == SplitLines(a);
    assert (SplitLines(b) + [""])[..|SplitLines(b)|] == SplitLines(b);
  }

  /** Lines written one after the other, each with its newline, are the lines of the text. */
  lemma LinesOf(lines: seq<string>)
    requires lines != [] && forall k :: 0 <= k < |lines| ==> '\n' !in lines[k]
    requires forall k :: 0 <= k < |lines| ==> lines[k] == "" || lines[k][|lines[k]| - 1] != '\r'
    ensures SplitLines(Join(lines, '\n') + "\n") == lines
  {
    var s := Join(lines, '\n') + "\n";
    UnixKeeps(lines);
    NormalSplit(s);
    hide Split, Unix, SplitLines, Join;
    SplitJoin(lines, '\n');
    SplitTail(Join(lines, '\n'), '\n');
    assert (lines + [[]])[..|lines|] == lines && (SplitLines(s) + [""])[..|SplitLines(s)|] == SplitLines(s);
  }

  /** No carriage return ends a line, so nothing is rewritten. */
  lemma {:induction false} UnixKeeps(lines: seq<string>)
    requires lines != [] && forall k :: 0 <= k < |lines| ==> '\n' !in lines[k]
    requires forall k :: 0 <= k < |lines| ==> lines[k] == "" || lines[k][|lines[k]| - 1] != '\r'
    ensures Unix(Join(lines, '\n') + "\n") == Join(lines, '\n') + "\n"
  {
    hide Unix;
    if |lines| == 1 {
      UnixLine(lines[0], "");
      NothingToRewrite();
      assert lines[0] + "\n" + "" == lines[0] + "\n";
    } else {
      var rest := Join(lines[1..], '\n') + "\n";
      UnixKeeps(lines[1..]);
      UnixLine(lines[0], rest);
      assert Join(lines, '\n') + "\n" == lines[0] + "\n" + rest;
    }
  }

  lemma NothingToRewrite()
    ensures Unix("") == ""
  {}

  /** A final CRLF more or less changes no line. */
  lemma EndingsAreSilent()
    ensures SplitLines("x\r\n") == SplitLines("x")
  {
    assert Unix("\r\n") == "\n";
    assert Normal("x\r\n") == "x\n" == Normal("x");
    SameLines("x\r\n", "x");
  }

  function CommonPrefix<T(==)>(a: seq<T>, b: seq<T>): (n: nat)
    ensures n <= |a| && n <= |b| && a[..n] == b[..n]
    ensures n < |a| && n < |b| ==> a[n] != b[n]
  {
    if a == [] || b == [] || a[0] != b[0] then 0 else 1 + CommonPrefix(a[1..], b[1..])
  }

  method Header(ops: seq<Op<string>>) returns (h: Hunk)
    requires ops != []
    ensures h.ops == ops && Headed(h)
  {
    var oldCount, newCount := 0, 0;
    for i := 0 to |ops|
      invariant oldCount == |Olds(ops[..i])| && newCount == |News(ops[..i])|
    {
      assert ops[..i + 1] == ops[..i] + [ops[i]];
      AddOne(ops[..i], ops[i]);
      match ops[i].kind
      case Equal => oldCount, newCount := oldCount + 1, newCount + 1;
      case Delete => oldCount := oldCount + 1;
      case Insert => newCount := newCount + 1;
    }
    assert ops[..|ops|] == ops;
    h := Hunk(ops[0].oldLine + 1, oldCount, ops[0].newLine + 1, newCount, ops);
  }

  // ---- the first change ----

  /** Equal operations say the same of both sides. */
  lemma {:induction false} EqualRun<T>(ops: seq<Op<T>>, f: nat)
    requires f <= |ops| && forall k :: 0 <= k < f ==> ops[k].kind == Equal
    ensures Olds(ops[..f]) == News(ops[..f]) && |Olds(ops[..f])| == f
  {
    if f > 0 {
      EqualRun(ops, f - 1);
      assert ops[..f][..f - 1] == ops[..f - 1];
    }
  }

  lemma FindChange<T>(ops: seq<Op<T>>, a: seq<T>, b: seq<T>) returns (f: nat)
    requires Edits(ops, a, b) && a != b
    ensures IsFirstChange(ops, f)
  {
    f := 0;
    while f < |ops| && ops[f].kind == Equal
      invariant f <= |ops| && forall k :: 0 <= k < f ==> ops[k].kind == Equal
    {
      f := f + 1;
    }
    EqualRun(ops, f);
    assert ops[..|ops|] == ops;
  }

  /** The first change of the engine's script stands right after the lines the texts begin with in common. */
  lemma FirstChange<T>(ops: seq<Op<T>>, a: seq<T>, b: seq<T>)
    requires Edits(ops, a, b) && Positioned(ops) && Greedy(ops, a, b) && a != b
    ensures IsFirstChange(ops, CommonPrefix(a, b))
  {
    var f := FindChange(ops, a, b);
    EqualRun(ops, f);
    Divide(ops, f, |ops|);
    assert ops[..|ops|] == ops;
    hide Olds, News;
    SameStart(a, b, Olds(ops[..f]), Olds(ops[f..]), News(ops[f..]));
    assert ops[f].oldLine == f == ops[f].newLine;
    PrefixIs(a, b, f);
  }

  lemma {:induction false} PrefixIs<T>(a: seq<T>, b: seq<T>, f: nat)
    requires f <= |a| && f <= |b| && a[..f] == b[..f] && (f < |a| && f < |b| ==> a[f] != b[f])
    ensures CommonPrefix(a, b) == f
  {
    if f > 0 {
      assert a[0] == a[..f][0] == b[..f][0] == b[0];
      assert a[1..][..f - 1] == a[..f][1..] && b[1..][..f - 1] == b[..f][1..];
      PrefixIs(a[1..], b[1..], f - 1);
    }
  }

  lemma SameStart<T>(a: seq<T>, b: seq<T>, x: seq<T>, y: seq<T>, z: seq<T>)
    requires a == x + y && b == x + z
    ensures |x| <= |a| && |x| <= |b| && a[..|x|] == b[..|x|]
  {}

  // ---- equal texts ----

  lemma {:induction false} LcsOfSelf<T>(a: seq<T>, i: nat)
    requires i <= |a|
    ensures Lcs(a, a, i, i) == |a| - i
    decreases |a| - i
  {
    if i < |a| { LcsOfSelf(a, i + 1); }
  }

  lemma {:induction false} CountAll<T>(ops: seq<Op<T>>)
    ensures |ops| == Count(ops, Equal) + Count(ops, Delete) + Count(ops, Insert)
    ensures Count(ops, Equal) == |ops| ==> forall k :: 0 <= k < |ops| ==> ops[k].kind == Equal
  {
    if ops != [] {
      CountAll(ops[..|ops| - 1]);
      assert forall k :: 0 <= k < |ops| - 1 ==> ops[..|ops| - 1][k] == ops[k];
    }
  }

  /** What grouping makes of the engine's script, for every pair of line lists. */
  lemma GroupedScript<T>(ops: seq<Op<T>>, a: seq<T>, b: seq<T>, context: nat)
    requires Edits(ops, a, b) && Positioned(ops) && Greedy(ops, a, b) && Count(ops, Equal) == Lcs(a, b, 0, 0)
    requires |ops| <= MAX_OPS && context <= MAX_INT
    ensures a == b ==> Hunks(ops, context) == []
    ensures a != b && CommonPrefix(a, b) + context > MAX_INT ==> Hunks(ops, context) == []
    ensures a != b && CommonPrefix(a, b) + context <= MAX_INT ==>
      Hunks(ops, context) != [] && Patch(a, Hunks(ops, context)) == Some(b)
  {
    if a == b {
      LcsOfSelf(a, 0);
      Lengths(ops);
      CountAll(ops);
      NoChangeNoneKept(ops, context);
      NothingKept(ops, context, |ops|);
    } else {
      FirstChange(ops, a, b);
      var f := CommonPrefix(a, b);
      KeptUnlessOverflow(ops, context, f);
      hide Patch, Edits, Positioned, Greedy, Kept;
      if f + context <= MAX_INT {
        HunksArePatch(ops, a, b, context);
        SomethingKept(ops, context, |ops|, f);
      }
    }
  }

  // ---- the text ----

  method Render(h: Hunk) returns (text: string)
    ensures text == Rendered(h)
  {
    text := "@@ -" + Decimal(h.oldStart) + "," + Decimal(h.oldCount) + " +" + Decimal(h.newStart) + ","
      + Decimal(h.newCount) + " @@\n";
    ghost var head := text;
    for i := 0 to |h.ops|
      invariant text == head + Body(h.ops[..i])
    {
      assert h.ops[..i + 1][..i] == h.ops[..i];
      text := text + [Mark(h.ops[i].kind)] + h.ops[i].text + "\n";
    }
    assert h.ops[..|h.ops|] == h.ops;
  }

  method RenderAll(groups: seq<seq<Op<string>>>, oldLabel: string, newLabel: string)
    returns (text: string, hunks: seq<Hunk>)
    requires groups != [] && forall k :: 0 <= k < |groups| ==> groups[k] != []
    ensures Bodies(hunks) == groups && forall k :: 0 <= k < |hunks| ==> Headed(hunks[k])
    ensures text == DiffText(hunks, oldLabel, newLabel) && text != ""
  {
    hide Headed, Rendered;
    text := "--- " + oldLabel + "\n+++ " + newLabel + "\n";
    ghost var labels := text;
    hunks := [];
    for i := 0 to |groups|
      invariant |hunks| == i && forall k :: 0 <= k < i ==> hunks[k].ops == groups[k] && Headed(hunks[k])
      invariant text == labels + AllRendered(hunks)
    {
      var h := Header(groups[i]);
      var shown := Render(h);
      text := text + shown;
      assert (hunks + [h])[..i] == hunks;
      hunks := hunks + [h];
    }
  }

  /**
   A unified diff, as text and as the hunks it shows. There are none when the line lists are equal; otherwise they are
   a patch from the old lines to the new with true headers, as long as the length of the common
   start plus the context fits in an int. When it does not fit, there are none either. The text
   alone is enough: read back line by line it is those hunks, and applied to the old lines it
   gives the new. They are cut out of the one script that is minimal and deletes first, and hold
   every operation no more than `context` away from a change and no other.
   */
  method Unified(oldText: string, newText: string, oldLabel: string, newLabel: string, context: int)
    returns (text: string, hunks: seq<Hunk>, ghost script: seq<Op<string>>, ghost from: seq<nat>, ghost to: seq<nat>)
    requires |SplitLines(oldText)| + |SplitLines(newText)| <= MAX_OPS && context <= MAX_INT
    ensures var a, b, extra := SplitLines(oldText), SplitLines(newText), if context < 0 then 0 else context;
      if a != b && CommonPrefix(a, b) + extra <= MAX_INT
      then hunks != [] && Patch(a, Bodies(hunks)) == Some(b) else hunks == []
    ensures forall i :: 0 <= i < |hunks| ==> Headed(hunks[i])
    ensures text == DiffText(hunks, oldLabel, newLabel) && (text == "" <==> hunks == [])
    ensures text != "" ==>
      && ReadDiff(text, oldLabel, newLabel) == Some(AllShown(hunks))
      && ReadAndApply(text, oldLabel, newLabel, SplitLines(oldText)) == Some(SplitLines(newText))
    ensures text != "" ==>
      && Scripted(script, SplitLines(oldText), SplitLines(newText))
      && Fewest(script, SplitLines(oldText), SplitLines(newText))
      && HoldsClose(script, if context < 0 then 0 else context, Bodies(hunks), from, to)
  {
    hide Patch, SplitLines, Hunks, Edits, Positioned, Greedy, DeletesFirst, Lcs, CommonPrefix, Headed, Apply, ReadDiff, AllShown,
      ReadAndApply, HoldsClose, Fewest, Count;
    script, from, to := [], [], [];
    if oldText == newText {
      return "", [], [], [], [];
    }
    var extra := if context < 0 then 0 else context;
    var a, b := SplitLines(oldText), SplitLines(newText);
    var ops := LcsOps(a, b);
    script := ops;
    ScriptLength(ops, a, b);
    ScriptIsFewest(ops, a, b);
    GroupedScript(ops, a, b, extra);
    var groups := Group(ops, extra);
    GroupsInhabited(ops, extra, |ops|);
    hunks := [];
    if |groups| == 0 {
      return "", [], ops, [], [];
    }
    from, to := ScriptHunks(ops, a, b, extra);
    text, hunks := RenderAll(groups, oldLabel, newLabel);
    TextPatches(hunks, ops, oldText, newText, oldLabel, newLabel, extra);
  }

  lemma TextPatches(hunks: seq<Hunk>, ops: seq<Op<string>>, oldText: string, newText: string,
                    oldLabel: string, newLabel: string, context: nat)
    requires Edits(ops, SplitLines(oldText), SplitLines(newText))
    requires hunks != [] && Bodies(hunks) == Hunks(ops, context)
    requires Patch(SplitLines(oldText), Hunks(ops, context)) == Some(SplitLines(newText))
    requires forall k :: 0 <= k < |hunks| ==> Headed(hunks[k])
    ensures ReadDiff(DiffText(hunks, oldLabel, newLabel), oldLabel, newLabel) == Some(AllShown(hunks))
    ensures ReadAndApply(DiffText(hunks, oldLabel, newLabel), oldLabel, newLabel, SplitLines(oldText)) == Some(SplitLines(newText))
  {
    hide Patch, SplitLines, Hunks, Edits, Headed, Apply, ReadDiff, AllShown, ReadAndApply, DiffText, Bodies;
    var a, b := SplitLines(oldText), SplitLines(newText);
    LinesAreWhole(oldText);
    LinesAreWhole(newText);
    TextsOf(ops, a, b);
    GroupsOf(ops, context, |ops|);
    ShownPatches(hunks, Hunks(ops, context), a, b, oldLabel, newLabel);
  }

  /** No script from the one list of lines to the other has fewer changes. */
  ghost predicate Fewest<T(!new)>(ops: seq<Op<T>>, a: seq<T>, b: seq<T>) {
    forall other: seq<Op<T>> :: Edits(other, a, b) ==> Changes(ops) <= Changes(other)
  }

  lemma ScriptIsFewest<T(!new)>(ops: seq<Op<T>>, a: seq<T>, b: seq<T>)
    requires Edits(ops, a, b) && Count(ops, Equal) == Lcs(a, b, 0, 0)
    ensures Fewest(ops, a, b)
  {
    forall other: seq<Op<T>> | Edits(other, a, b) ensures Changes(ops) <= Changes(other) {
      BestIsMinimal(ops, a, b, other);
    }
  }

  lemma ScriptHunks<T>(ops: seq<Op<T>>, a: seq<T>, b: seq<T>, context: nat) returns (from: seq<nat>, to: seq<nat>)
    requires Edits(ops, a, b) && Positioned(ops) && Greedy(ops, a, b) && a != b
    requires |ops| <= MAX_OPS && context <= MAX_INT && CommonPrefix(a, b) + context <= MAX_INT
    ensures HoldsClose(ops, context, Hunks(ops, context), from, to)
  {
    hide HoldsClose, Hunks, Edits, Positioned, Greedy;
    FirstChange(ops, a, b);
    from, to := HunksHoldClose(ops, context, CommonPrefix(a, b));
  }

  /** No line of a text holds a newline. */
  lemma LinesAreWhole(s: string)
    ensures forall k :: 0 <= k < |SplitLines(s)| ==> '\n' !in SplitLines(s)[k]
  {
    hide Split, Unix;
    SplitInverts(Unix(s), '\n');
  }

  /** Every operation of a script is about a line of one of the texts. */
  lemma {:induction false} TextsOf<T>(ops: seq<Op<T>>, a: seq<T>, b: seq<T>)
    requires Edits(ops, a, b)
    ensures forall k :: 0 <= k < |ops| ==> ops[k].text in a || ops[k].text in b
  {
    if ops != [] {
      var n := |ops| - 1;
      TextsOf(ops[..n], Olds(ops[..n]), News(ops[..n]));
      forall k | 0 <= k < |ops| ensures ops[k].text in a || ops[k].text in b {
        if k < n {
          assert ops[..n][k] == ops[k];
        } else {
          assert ops[n].kind != Insert ==> a[|a| - 1] == ops[n].text;
          assert ops[n].kind == Insert ==> b[|b| - 1] == ops[n].text;
        }
      }
    }
  }

  ghost predicate Among<T>(some: seq<Op<T>>, ops: seq<Op<T>>) {
    forall k :: 0 <= k < |some| ==> some[k] in ops
  }

  /** Hunks are made of the script's operations. */
  lemma {:induction false} GroupsOf<T>(ops: seq<Op<T>>, context: nat, n: nat)
    requires n <= |ops|
    ensures var (hunks, current) := Grouped(ops, context, n);
      Among(current, ops) && forall k :: 0 <= k < |hunks| ==> Among(hunks[k], ops)
    ensures n == |ops| ==> forall k :: 0 <= k < |Hunks(ops, context)| ==> Among(Hunks(ops, context)[k], ops)
  {
    hide Kept;
    if n > 0 { GroupsOf(ops, context, n - 1); }
  }

  lemma ShownPatches(hunks: seq<Hunk>, groups: seq<seq<Op<string>>>, a: seq<string>, b: seq<string>,
                     oldLabel: string, newLabel: string)
    requires hunks != [] && Bodies(hunks) == groups && Patch(a, groups) == Some(b)
    requires forall k :: 0 <= k < |hunks| ==> Headed(hunks[k])
    requires forall k, i :: 0 <= k < |groups| && 0 <= i < |groups[k]| ==> '\n' !in groups[k][i].text
    ensures ReadDiff(DiffText(hunks, oldLabel, newLabel), oldLabel, newLabel) == Some(AllShown(hunks))
    ensures ReadAndApply(DiffText(hunks, oldLabel, newLabel), oldLabel, newLabel, a) == Some(b)
  {
    hide DiffText, AllShown, ReadDiff, Apply, ApplyShown, Headed;
    forall k | 0 <= k < |hunks| ensures Unbroken(hunks[k].ops) { assert groups[k] == hunks[k].ops; }
    TextIsRead(hunks, oldLabel, newLabel);
    ShownApplies(a, hunks);
  }

  lemma ScriptLength<T>(ops: seq<Op<T>>, a: seq<T>, b: seq<T>)
    requires Edits(ops, a, b)
    ensures |ops| <= |a| + |b|
  {
    Lengths(ops);
    CountAll(ops);
  }

  lemma {:induction false} GroupsInhabited<T>(ops: seq<Op<T>>, context: nat, n: nat)
    requires n <= |ops|
    ensures forall k :: 0 <= k < |Grouped(ops, context, n).0| ==> Grouped(ops, context, n).0[k] != []
    ensures n == |ops| ==> forall k :: 0 <= k < |Hunks(ops, context)| ==> Hunks(ops, context)[k] != []
  {
    if n > 0 { GroupsInhabited(ops, context, n - 1); }
  }

  /** Added and removed lines: as few as any script from one text to the other has. */
  method Summarise(oldText: string, newText: string) returns (added: nat, removed: nat)
    ensures var a, b := SplitLines(oldText), SplitLines(newText);
      && added == |b| - Lcs(a, b, 0, 0) && removed == |a| - Lcs(a, b, 0, 0)
      && forall other: seq<Op<string>> :: Edits(other, a, b) ==> added + removed <= Changes(other)
  {
    hide SplitLines, Edits, Lcs;
    var a, b := SplitLines(oldText), SplitLines(newText);
    var ops := LcsOps(a, b);
    added, removed := 0, 0;
    for i := 0 to |ops|
      invariant added == Count(ops[..i], Insert) && removed == Count(ops[..i], Delete)
    {
      assert ops[..i + 1][..i] == ops[..i];
      match ops[i].kind
      case Insert => added := added + 1;
      case Delete => removed := removed + 1;
      case Equal =>
    }
    assert ops[..|ops|] == ops;
    Balance(ops, a, b);
    forall other: seq<Op<string>> | Edits(other, a, b) ensures Changes(ops) <= Changes(other) {
      BestIsMinimal(ops, a, b, other);
    }
  }

  lemma Balance<T>(ops: seq<Op<T>>, a: seq<T>, b: seq<T>)
    requires Edits(ops, a, b)
    ensures |a| == Count(ops, Equal) + Count(ops, Delete) && |b| == Count(ops, Equal) + Count(ops, Insert)
  {
    Lengths(ops);
  }
}
