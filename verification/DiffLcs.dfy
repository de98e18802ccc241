/** The edit script: a longest-common-subsequence table and a walk through it. */
module DiffLcs {
  datatype Kind = Equal | Delete | Insert

  datatype Op<T> = Op(kind: Kind, text: T, oldLine: nat, newLine: nat)

  // ---- what a script says ----

  function Olds<T>(ops: seq<Op<T>>): seq<T> {
    if ops == [] then []
    else
      var o := ops[|ops| - 1];
      Olds(ops[..|ops| - 1]) + if o.kind == Insert then [] else [o.text]
  }

  function News<T>(ops: seq<Op<T>>): seq<T> {
    if ops == [] then []
    else
      var o := ops[|ops| - 1];
      News(ops[..|ops| - 1]) + if o.kind == Delete then [] else [o.text]
  }

  function Count<T>(ops: seq<Op<T>>, k: Kind): nat {
    if ops == [] then 0 else Count(ops[..|ops| - 1], k) + if ops[|ops| - 1].kind == k then 1 else 0
  }

  function Changes<T>(ops: seq<Op<T>>): nat {
    Count(ops, Delete) + Count(ops, Insert)
  }

  /** A script that turns a into b. */
  ghost predicate Edits<T>(ops: seq<Op<T>>, a: seq<T>, b: seq<T>) {
    Olds(ops) == a && News(ops) == b
  }

  /** Each operation records how many old and new lines come before it. */
  ghost predicate Positioned<T>(ops: seq<Op<T>>) {
    forall k :: 0 <= k < |ops| ==>
      ops[k].oldLine == |Olds(ops[..k])| && ops[k].newLine == |News(ops[..k])|
  }

  /** Lines that can be kept where the script stands are kept. */
  ghost predicate Greedy<T>(ops: seq<Op<T>>, a: seq<T>, b: seq<T>) {
    forall k :: 0 <= k < |ops| && ops[k].kind != Equal && ops[k].oldLine < |a| && ops[k].newLine < |b| ==>
      a[ops[k].oldLine] != b[ops[k].newLine]
  }

  // ---- the longest common subsequence ----

  function Max(x: nat, y: nat): nat {
    if x >= y then x else y
  }

  /** Of the suffixes a[i..] and b[j..]. */
  function Lcs<T(==)>(a: seq<T>, b: seq<T>, i: nat, j: nat): nat
    requires i <= |a| && j <= |b|
    decreases |a| - i + |b| - j
  {
    if i == |a| || j == |b| then 0
    else if a[i] == b[j] then Lcs(a, b, i + 1, j + 1) + 1
    else Max(Lcs(a, b, i + 1, j), Lcs(a, b, i, j + 1))
  }

  /** Where neither line can be kept, the old one goes first exactly if that loses no more than taking the new one would. */
  ghost predicate DeletesFirst<T>(ops: seq<Op<T>>, a: seq<T>, b: seq<T>) {
    forall k :: 0 <= k < |ops| && ops[k].kind != Equal && ops[k].oldLine < |a| && ops[k].newLine < |b| ==>
      (ops[k].kind == Delete <==>
       Lcs(a, b, ops[k].oldLine + 1, ops[k].newLine) >= Lcs(a, b, ops[k].oldLine, ops[k].newLine + 1))
  }

  /** Dropping a line costs at most one. */
  lemma {:induction false} LcsShrinks<T>(a: seq<T>, b: seq<T>, i: nat, j: nat)
    requires i <= |a| && j <= |b|
    ensures i < |a| ==> Lcs(a, b, i + 1, j) <= Lcs(a, b, i, j) <= Lcs(a, b, i + 1, j) + 1
    ensures j < |b| ==> Lcs(a, b, i, j + 1) <= Lcs(a, b, i, j) <= Lcs(a, b, i, j + 1) + 1
    decreases |a| - i + |b| - j
  {
    if i < |a| && j < |b| {
      LcsShrinks(a, b, i + 1, j);
      LcsShrinks(a, b, i, j + 1);
      LcsShrinks(a, b, i + 1, j + 1);
    }
  }

  /** No common subsequence, and so no script, keeps more lines than the table says. */
  lemma {:induction false} KeepsAtMost<T>(ops: seq<Op<T>>, a: seq<T>, b: seq<T>, i: nat, j: nat)
    requires i <= |a| && j <= |b| && Olds(ops) == a[..i] && News(ops) == b[..j]
    ensures Count(ops, Equal) + Lcs(a, b, i, j) <= Lcs(a, b, 0, 0)
    decreases |ops|
  {
    if ops != [] {
      var n := |ops| - 1;
      var o := ops[n];
      LastOp(ops, a, b, i, j);
      hide Olds, News;
      match o.kind
      case Equal => KeepsAtMost(ops[..n], a, b, i - 1, j - 1);
      case Delete =>
        KeepsAtMost(ops[..n], a, b, i - 1, j);
        LcsShrinks(a, b, i - 1, j);
      case Insert =>
        KeepsAtMost(ops[..n], a, b, i, j - 1);
        LcsShrinks(a, b, i, j - 1);
    }
  }

  /** What the last operation of a script accounts for. */
  lemma LastOp<T>(ops: seq<Op<T>>, a: seq<T>, b: seq<T>, i: nat, j: nat)
    requires i <= |a| && j <= |b| && ops != [] && Olds(ops) == a[..i] && News(ops) == b[..j]
    ensures var n, o := |ops| - 1, ops[|ops| - 1];
      && (if o.kind == Insert then Olds(ops[..n]) == a[..i]
          else i > 0 && a[i - 1] == o.text && Olds(ops[..n]) == a[..i - 1])
      && (if o.kind == Delete then News(ops[..n]) == b[..j]
          else j > 0 && b[j - 1] == o.text && News(ops[..n]) == b[..j - 1])
  {
    var n, o := |ops| - 1, ops[|ops| - 1];
    if o.kind != Insert {
      Snoc(Olds(ops[..n]), o.text, a, i);
    }
    if o.kind != Delete {
      Snoc(News(ops[..n]), o.text, b, j);
    }
  }

  lemma Snoc<T>(s: seq<T>, x: T, a: seq<T>, i: nat)
    requires i <= |a| && s + [x] == a[..i]
    ensures i > 0 && a[i - 1] == x && s == a[..i - 1]
  {
    assert |s| == i - 1 && (s + [x])[i - 1] == x;
    assert a[..i][..i - 1] == a[..i - 1] && (s + [x])[..i - 1] == s;
  }

  lemma {:induction false} Lengths<T>(ops: seq<Op<T>>)
    ensures |Olds(ops)| == Count(ops, Equal) + Count(ops, Delete)
    ensures |News(ops)| == Count(ops, Equal) + Count(ops, Insert)
  {
    if ops != [] { Lengths(ops[..|ops| - 1]); }
  }

  /** A script that keeps as many lines as the table says changes as few as any. */
  lemma BestIsMinimal<T>(ops: seq<Op<T>>, a: seq<T>, b: seq<T>, other: seq<Op<T>>)
    requires Edits(ops, a, b) && Count(ops, Equal) == Lcs(a, b, 0, 0) && Edits(other, a, b)
    ensures Changes(ops) <= Changes(other)
  {
    Lengths(ops);
    Lengths(other);
    assert a[..|a|] == a && b[..|b|] == b;
    KeepsAtMost(other, a, b, |a|, |b|);
  }

  // ---- the program ----

  ghost predicate RowDone<T>(table: array2<nat>, a: seq<T>, b: seq<T>, i: nat, from: nat)
    requires table.Length0 == |a| + 1 && table.Length1 == |b| + 1 && i <= |a|
    reads table
  {
    forall q :: from <= q <= |b| ==> table[i, q] == Lcs(a, b, i, q)
  }

  ghost predicate Filled<T>(table: array2<nat>, a: seq<T>, b: seq<T>)
    requires table.Length0 == |a| + 1 && table.Length1 == |b| + 1
    reads table
  {
    forall i, j :: 0 <= i <= |a| && 0 <= j <= |b| ==> table[i, j] == Lcs(a, b, i, j)
  }

  /** The table of suffix lengths, filled from the bottom right. */
  method Table<T(==)>(a: seq<T>, b: seq<T>) returns (table: array2<nat>)
    ensures fresh(table) && table.Length0 == |a| + 1 && table.Length1 == |b| + 1 && Filled(table, a, b)
  {
    var n, m := |a|, |b|;
    table := new nat[n + 1, m + 1]((_, _) => 0);
    for i := n downto 0
      invariant forall p :: i <= p <= n ==> RowDone(table, a, b, p, 0)
      invariant forall p :: 0 <= p < i ==> table[p, m] == 0
    {
      FillRow(table, a, b, i);
    }
    forall i, j | 0 <= i <= |a| && 0 <= j <= |b| ensures table[i, j] == Lcs(a, b, i, j) {
      assert RowDone(table, a, b, i, 0);
    }
  }

  method FillRow<T(==)>(table: array2<nat>, a: seq<T>, b: seq<T>, i: nat)
    requires table.Length0 == |a| + 1 && table.Length1 == |b| + 1 && i < |a|
    requires RowDone(table, a, b, i + 1, 0) && table[i, |b|] == 0
    modifies table
    ensures RowDone(table, a, b, i, 0)
    ensures forall p: nat :: p <= |a| && p != i && old(RowDone(table, a, b, p, 0)) ==> RowDone(table, a, b, p, 0)
    ensures forall p, q :: 0 <= p <= |a| && 0 <= q <= |b| && p != i ==> table[p, q] == old(table[p, q])
  {
    for j := |b| downto 0
      invariant RowDone(table, a, b, i, j) && RowDone(table, a, b, i + 1, 0)
      invariant forall p, q :: 0 <= p <= |a| && 0 <= q <= |b| && p != i ==> table[p, q] == old(table[p, q])
    {
      if a[i] == b[j] {
        table[i, j] := table[i + 1, j + 1] + 1;
      } else if table[i + 1, j] >= table[i, j + 1] {
        table[i, j] := table[i + 1, j];
      } else {
        table[i, j] := table[i, j + 1];
      }
    }
  }

  /** The script so far, standing before a[i] and b[j]. */
  ghost predicate Walked<T>(ops: seq<Op<T>>, a: seq<T>, b: seq<T>, i: nat, j: nat)
    requires i <= |a| && j <= |b|
  {
    && Olds(ops) == a[..i] && News(ops) == b[..j] && Positioned(ops) && Greedy(ops, a, b) && DeletesFirst(ops, a, b)
    && Count(ops, Equal) + Lcs(a, b, i, j) == Lcs(a, b, 0, 0)
  }

  lemma Step<T>(ops: seq<Op<T>>, a: seq<T>, b: seq<T>, i: nat, j: nat, o: Op<T>)
    requires i <= |a| && j <= |b| && Walked(ops, a, b, i, j) && o.oldLine == i && o.newLine == j
    requires o.kind != Insert ==> i < |a| && a[i] == o.text
    requires o.kind != Delete ==> j < |b| && b[j] == o.text
    requires o.kind == Equal || i == |a| || j == |b| || a[i] != b[j]
    requires o.kind == Delete ==> Lcs(a, b, i + 1, j) == Lcs(a, b, i, j)
    requires o.kind == Insert ==> Lcs(a, b, i, j + 1) == Lcs(a, b, i, j)
    requires o.kind != Equal && i < |a| && j < |b| ==> (o.kind == Delete <==> Lcs(a, b, i + 1, j) >= Lcs(a, b, i, j + 1))
    ensures Walked(ops + [o], a, b, if o.kind == Insert then i else i + 1, if o.kind == Delete then j else j + 1)
  {
    hide Olds, News, Count, Positioned, Greedy, DeletesFirst;
    StepPlaced(ops, a, b, o);
    AddOne(ops, o);
    if o.kind != Insert { assert a[..i + 1] == a[..i] + [o.text]; }
    if o.kind != Delete { assert b[..j + 1] == b[..j] + [o.text]; }
  }

  lemma StepPlaced<T>(ops: seq<Op<T>>, a: seq<T>, b: seq<T>, o: Op<T>)
    requires Positioned(ops) && Greedy(ops, a, b) && DeletesFirst(ops, a, b)
    requires o.oldLine == |Olds(ops)| && o.newLine == |News(ops)|
    requires o.kind != Equal && o.oldLine < |a| && o.newLine < |b| ==>
      (o.kind == Delete <==> Lcs(a, b, o.oldLine + 1, o.newLine) >= Lcs(a, b, o.oldLine, o.newLine + 1))
    requires o.kind == Equal || o.oldLine >= |a| || o.newLine >= |b| || a[o.oldLine] != b[o.newLine]
    ensures Positioned(ops + [o]) && Greedy(ops + [o], a, b) && DeletesFirst(ops + [o], a, b)
  {
    hide Olds, News, Lcs;
    assert (ops + [o])[..|ops|] == ops;
    assert forall k :: 0 <= k < |ops| ==> (ops + [o])[..k] == ops[..k];
  }

  lemma AddOne<T>(ops: seq<Op<T>>, o: Op<T>)
    ensures Olds(ops + [o]) == Olds(ops) + if o.kind == Insert then [] else [o.text]
    ensures News(ops + [o]) == News(ops) + if o.kind == Delete then [] else [o.text]
    ensures Count(ops + [o], Equal) == Count(ops, Equal) + if o.kind == Equal then 1 else 0
  {
    assert (ops + [o])[..|ops|] == ops;
  }

  /** A minimal edit script from a to b. */
  method LcsOps<T(==)>(a: seq<T>, b: seq<T>) returns (ops: seq<Op<T>>)
    ensures Edits(ops, a, b) && Positioned(ops) && Greedy(ops, a, b) && DeletesFirst(ops, a, b)
    ensures Count(ops, Equal) == Lcs(a, b, 0, 0)
    ensures forall other: seq<Op<T>> :: Edits(other, a, b) ==> Changes(ops) <= Changes(other)
  {
    hide Walked;
    var table := Table(a, b);
    ops := [];
    var i, j := 0, 0;
    Standing(a, b);
    while i < |a| && j < |b|
      invariant 0 <= i <= |a| && 0 <= j <= |b| && Walked(ops, a, b, i, j) && Filled(table, a, b)
      decreases |a| - i + |b| - j
    {
      assert table[i + 1, j] == Lcs(a, b, i + 1, j) && table[i, j + 1] == Lcs(a, b, i, j + 1);
      if a[i] == b[j] {
        Step(ops, a, b, i, j, Op(Equal, a[i], i, j));
        ops := ops + [Op(Equal, a[i], i, j)];
        i, j := i + 1, j + 1;
      } else if table[i + 1, j] >= table[i, j + 1] {
        Step(ops, a, b, i, j, Op(Delete, a[i], i, j));
        ops := ops + [Op(Delete, a[i], i, j)];
        i := i + 1;
      } else {
        Step(ops, a, b, i, j, Op(Insert, b[j], i, j));
        ops := ops + [Op(Insert, b[j], i, j)];
        j := j + 1;
      }
    }
    while i < |a|
      invariant 0 <= i <= |a| && 0 <= j <= |b| && (i < |a| ==> j == |b|) && (j < |b| ==> i == |a|) && Walked(ops, a, b, i, j)
    {
      Step(ops, a, b, i, j, Op(Delete, a[i], i, j));
      ops := ops + [Op(Delete, a[i], i, j)];
      i := i + 1;
    }
    while j < |b|
      invariant i == |a| && 0 <= j <= |b| && Walked(ops, a, b, i, j)
    {
      Step(ops, a, b, i, j, Op(Insert, b[j], i, j));
      ops := ops + [Op(Insert, b[j], i, j)];
      j := j + 1;
    }
    Arrived(ops, a, b);
  }

  lemma Standing<T>(a: seq<T>, b: seq<T>)
    ensures Walked([], a, b, 0, 0)
  {}

  lemma Arrived<T>(ops: seq<Op<T>>, a: seq<T>, b: seq<T>)
    requires Walked(ops, a, b, |a|, |b|)
    ensures Edits(ops, a, b) && Positioned(ops) && Greedy(ops, a, b) && DeletesFirst(ops, a, b)
    ensures Count(ops, Equal) == Lcs(a, b, 0, 0)
    ensures forall other: seq<Op<T>> :: Edits(other, a, b) ==> Changes(ops) <= Changes(other)
  {
    assert a[..|a|] == a && b[..|b|] == b;
    forall other: seq<Op<T>> | Edits(other, a, b) ensures Changes(ops) <= Changes(other) {
      BestIsMinimal(ops, a, b, other);
    }
  }

  // ---- there is no other such script ----

  /** An engine's script: it turns a into b, keeps what it can, and deletes before it inserts. */
  ghost predicate Scripted<T>(ops: seq<Op<T>>, a: seq<T>, b: seq<T>) {
    Edits(ops, a, b) && Positioned(ops) && Greedy(ops, a, b) && DeletesFirst(ops, a, b)
  }

  /** What the next operation is about. */
  lemma NextOp<T>(ops: seq<Op<T>>, a: seq<T>, b: seq<T>, k: nat)
    requires Edits(ops, a, b) && Positioned(ops) && k < |ops|
    ensures ops[k].kind != Insert ==> ops[k].oldLine < |a| && a[ops[k].oldLine] == ops[k].text
    ensures ops[k].kind != Delete ==> ops[k].newLine < |b| && b[ops[k].newLine] == ops[k].text
  {
    hide Olds, News;
    assert ops[..k + 1] == ops[..k] + [ops[k]];
    AddOne(ops[..k], ops[k]);
    PrefixOf(ops, k + 1);
    var i, j := ops[k].oldLine, ops[k].newLine;
    if ops[k].kind != Insert { assert Olds(ops[..k + 1])[i] == ops[k].text; }
    if ops[k].kind != Delete { assert News(ops[..k + 1])[j] == ops[k].text; }
  }

  lemma {:induction false} PrefixOf<T>(ops: seq<Op<T>>, k: nat)
    requires k <= |ops|
    ensures Olds(ops[..k]) <= Olds(ops) && News(ops[..k]) <= News(ops)
  {
    if k < |ops| {
      var n := |ops| - 1;
      PrefixOf(ops[..n], k);
      assert ops[..n][..k] == ops[..k];
    } else {
      assert ops[..k] == ops;
    }
  }

  lemma SameNext<T>(ops: seq<Op<T>>, other: seq<Op<T>>, a: seq<T>, b: seq<T>, k: nat)
    requires Scripted(ops, a, b) && Scripted(other, a, b) && k < |ops| && k < |other| && ops[..k] == other[..k]
    ensures ops[k] == other[k]
  {
    NextOp(ops, a, b, k);
    NextOp(other, a, b, k);
    hide Olds, News, Lcs;
  }

  /** The script is determined by the two lists of lines. */
  lemma OnlyScript<T>(ops: seq<Op<T>>, other: seq<Op<T>>, a: seq<T>, b: seq<T>)
    requires Scripted(ops, a, b) && Scripted(other, a, b)
    ensures ops == other
  {
    hide Positioned, Greedy, DeletesFirst, Olds, News;
    var k := 0;
    while k < |ops| && k < |other|
      invariant k <= |ops| && k <= |other| && ops[..k] == other[..k]
    {
      SameNext(ops, other, a, b, k);
      assert ops[..k + 1] == ops[..k] + [ops[k]] && other[..k + 1] == other[..k] + [other[k]];
      k := k + 1;
    }
    if k < |ops| {
      StandsAtEnd(ops, other, a, b, k);
      NextOp(ops, a, b, k);
      assert false;
    }
    if k < |other| {
      StandsAtEnd(other, ops, a, b, k);
      NextOp(other, a, b, k);
      assert false;
    }
    assert ops[..k] == ops && other[..k] == other;
  }

  lemma StandsAtEnd<T>(ops: seq<Op<T>>, other: seq<Op<T>>, a: seq<T>, b: seq<T>, k: nat)
    requires Edits(other, a, b) && Positioned(ops) && k < |ops| && k == |other| && ops[..k] == other[..k]
    ensures ops[k].oldLine == |a| && ops[k].newLine == |b|
  {
    hide Olds, News;
    assert other[..k] == other;
  }
}
