/** Hunks: what is kept of an edit script, and that it is a patch. */
module DiffHunks {
  import opened Options
  import opened Sequences
  import opened Text
  import opened DiffLcs

  // ---- grouping ----

  /** An operation takes several words, so a slice of them stays well within the address space. */
  const MAX_OPS := MAX_INT / 2

  /** i + context in 64-bit arithmetic. */
  function Reach(i: nat, context: nat): int {
    if i + context > MAX_INT then i + context - 2 * (MAX_INT + 1) else i + context
  }

  /** Operation k is within context of the change at c. */
  predicate Near<T>(ops: seq<Op<T>>, context: nat, c: nat, k: nat)
    requires c < |ops|
  {
    ops[c].kind != Equal && c - context <= k <= Reach(c, context)
  }

  ghost predicate Kept<T>(ops: seq<Op<T>>, context: nat, k: nat) {
    exists c: nat :: c < |ops| && Near(ops, context, c, k)
  }

  /** After the first n operations: the finished hunks, and the one being filled. */
  ghost function Grouped<T>(ops: seq<Op<T>>, context: nat, n: nat): (seq<seq<Op<T>>>, seq<Op<T>>)
    requires n <= |ops|
  {
    if n == 0 then ([], [])
    else
      var (hunks, current) := Grouped(ops, context, n - 1);
      if Kept(ops, context, n - 1) then (hunks, current + [ops[n - 1]])
      else if current != [] then (hunks + [current], [])
      else (hunks, [])
  }

  ghost function Hunks<T>(ops: seq<Op<T>>, context: nat): seq<seq<Op<T>>> {
    var (hunks, current) := Grouped(ops, context, |ops|);
    if current != [] then hunks + [current] else hunks
  }

  method Group<T(==)>(ops: seq<Op<T>>, context: nat) returns (hunks: seq<seq<Op<T>>>)
    requires |ops| <= MAX_OPS && context <= MAX_INT
    ensures hunks == Hunks(ops, context)
  {
    var any := AnyChange(ops);
    if !any {
      NoChangeNoneKept(ops, context);
      NothingKept(ops, context, |ops|);
      return [];
    }
    var keep := Keep(ops, context);
    hide Kept;
    hunks := [];
    var current := [];
    for i := 0 to |ops|
      invariant (hunks, current) == Grouped(ops, context, i)
      invariant forall k :: 0 <= k < |ops| ==> keep[k] == Kept(ops, context, k)
    {
      if keep[i] {
        current := current + [ops[i]];
        continue;
      }
      if |current| > 0 {
        hunks := hunks + [current];
        current := [];
      }
    }
    if |current| > 0 {
      hunks := hunks + [current];
    }
  }

  method AnyChange<T(==)>(ops: seq<Op<T>>) returns (any: bool)
    ensures any <==> exists k :: 0 <= k < |ops| && ops[k].kind != Equal
  {
    any := false;
    for i := 0 to |ops|
      invariant any <==> exists k :: 0 <= k < i && ops[k].kind != Equal
    {
      if ops[i].kind != Equal {
        any := true;
      }
    }
  }

  method Keep<T(==)>(ops: seq<Op<T>>, context: nat) returns (keep: array<bool>)
    requires |ops| <= MAX_OPS && context <= MAX_INT
    ensures fresh(keep) && keep.Length == |ops|
    ensures forall k :: 0 <= k < |ops| ==> keep[k] == Kept(ops, context, k)
  {
    keep := new bool[|ops|](_ => false);
    for i := 0 to |ops|
      invariant forall k :: 0 <= k < |ops| ==> keep[k] == exists c: nat :: c < i && Near(ops, context, c, k)
    {
      ghost var before := keep[..];
      if ops[i].kind != Equal {
        var lo := if i - context > 0 then i - context else 0;
        var hi := if Reach(i, context) < |ops| - 1 then Reach(i, context) else |ops| - 1;
        MarkRange(keep, lo, hi);
      }
      assert forall k :: 0 <= k < |ops| ==> keep[k] == (before[k] || Near(ops, context, i, k));
      forall k | 0 <= k < |ops|
        ensures (exists c: nat :: c < i + 1 && Near(ops, context, c, k))
          <==> (exists c: nat :: c < i && Near(ops, context, c, k)) || Near(ops, context, i, k)
      {
        if c: nat :| c < i + 1 && Near(ops, context, c, k) {
          assert c < i || c == i;
        }
      }
    }
  }

  method MarkRange(keep: array<bool>, lo: nat, hi: int)
    requires hi < keep.Length
    modifies keep
    ensures forall k :: 0 <= k < keep.Length ==> keep[k] == (old(keep[k]) || lo <= k <= hi)
  {
    var j := lo;
    while j <= hi
      invariant lo <= j && (j <= hi + 1 || j == lo)
      invariant forall k :: 0 <= k < keep.Length ==> keep[k] == (old(keep[k]) || lo <= k < j)
    {
      keep[j] := true;
      j := j + 1;
    }
  }

  lemma {:induction false} NothingKept<T>(ops: seq<Op<T>>, context: nat, n: nat)
    requires n <= |ops| && forall k: nat :: k < |ops| ==> !Kept(ops, context, k)
    ensures Grouped(ops, context, n) == ([], [])
  {
    if n > 0 { NothingKept(ops, context, n - 1); }
  }

  lemma NoChangeNoneKept<T>(ops: seq<Op<T>>, context: nat)
    requires forall k :: 0 <= k < |ops| ==> ops[k].kind == Equal
    ensures forall k: nat :: k < |ops| ==> !Kept(ops, context, k)
  {}

  lemma {:induction false} SomethingKept<T>(ops: seq<Op<T>>, context: nat, n: nat, k: nat)
    requires k < n <= |ops| && Kept(ops, context, k)
    ensures Grouped(ops, context, n).0 != [] || Grouped(ops, context, n).1 != []
  {
    if k < n - 1 { SomethingKept(ops, context, n - 1, k); }
  }

  // ---- when every change is kept ----

  ghost predicate IsFirstChange<T>(ops: seq<Op<T>>, f: nat) {
    f < |ops| && ops[f].kind != Equal && forall k :: 0 <= k < f ==> ops[k].kind == Equal
  }

  ghost predicate ChangesKept<T>(ops: seq<Op<T>>, context: nat) {
    forall k :: 0 <= k < |ops| && ops[k].kind != Equal ==> Kept(ops, context, k)
  }

  /** Exactly when the sum of the first change's position and the context does not overflow. */
  lemma KeptUnlessOverflow<T>(ops: seq<Op<T>>, context: nat, f: nat)
    requires |ops| <= MAX_OPS && context <= MAX_INT && IsFirstChange(ops, f)
    ensures ChangesKept(ops, context) <==> f + context <= MAX_INT
    ensures f + context > MAX_INT ==> Hunks(ops, context) == []
  {
    if f + context <= MAX_INT {
      forall k | 0 <= k < |ops| && ops[k].kind != Equal ensures Kept(ops, context, k) {
        if k + context <= MAX_INT {
          assert Near(ops, context, k, k);
        } else {
          assert Near(ops, context, f, k);
        }
      }
    } else {
      forall k: nat | k < |ops| ensures !Kept(ops, context, k) {
        forall c: nat | c < |ops| ensures !Near(ops, context, c, k) {}
      }
      NothingKept(ops, context, |ops|);
    }
  }

  // ---- what the hunks hold ----

  /** k is no more than context operations away from a change. */
  ghost predicate Close<T>(ops: seq<Op<T>>, context: nat, k: int) {
    exists c :: 0 <= c < |ops| && ops[c].kind != Equal && c - context <= k <= c + context
  }

  /** Unless the first change overflows, what is kept is what is close to a change. */
  lemma KeptIsClose<T>(ops: seq<Op<T>>, context: nat, f: nat, k: nat)
    requires |ops| <= MAX_OPS && context <= MAX_INT && IsFirstChange(ops, f) && f + context <= MAX_INT && k < |ops|
    ensures Kept(ops, context, k) <==> Close(ops, context, k)
  {
    if Kept(ops, context, k) {
      var c: nat :| c < |ops| && Near(ops, context, c, k);
      assert c - context <= k <= c + context;
    }
    if Close(ops, context, k) {
      var c :| 0 <= c < |ops| && ops[c].kind != Equal && c - context <= k <= c + context;
      if c + context <= MAX_INT {
        assert Near(ops, context, c, k);
      } else {
        assert Near(ops, context, f, k);
      }
    }
  }

  /** The runs from[i] to to[i] of the script, in order and apart, hold exactly the first n operations that are kept. */
  ghost predicate Runs<T>(ops: seq<Op<T>>, context: nat, hunks: seq<seq<Op<T>>>, from: seq<nat>, to: seq<nat>, n: nat) {
    && |from| == |to| == |hunks| && n <= |ops|
    && (forall i :: 0 <= i < |hunks| ==> from[i] < to[i] <= n && hunks[i] == ops[from[i]..to[i]])
    && (forall i, j :: 0 <= i < j < |hunks| ==> to[i] < from[j])
    && (forall k :: 0 <= k < n ==> (Kept(ops, context, k) <==> Inside(from, to, k)))
  }

  ghost predicate Inside(from: seq<nat>, to: seq<nat>, k: int)
    requires |from| == |to|
  {
    exists i :: 0 <= i < |from| && from[i] <= k < to[i]
  }

  lemma InsideMore(from: seq<nat>, to: seq<nat>, x: nat, y: nat, k: int)
    requires |from| == |to|
    ensures Inside(from + [x], to + [y], k) <==> Inside(from, to, k) || x <= k < y
  {
    if Inside(from, to, k) {
      var i :| 0 <= i < |from| && from[i] <= k < to[i];
      assert (from + [x])[i] == from[i] && (to + [y])[i] == to[i];
    }
    if x <= k < y { assert (from + [x])[|from|] == x && (to + [y])[|to|] == y; }
  }

  /** The finished hunks with the one being filled, which ends here. */
  ghost predicate RunsWith<T>(ops: seq<Op<T>>, context: nat, hunks: seq<seq<Op<T>>>, current: seq<Op<T>>,
                              from: seq<nat>, to: seq<nat>, n: nat) {
    && n <= |ops| && |current| <= n && current == ops[n - |current|..n]
    && Runs(ops, context, hunks, from, to, n - |current|)
    && (forall i :: 0 <= i < |to| && current != [] ==> to[i] < n - |current|)
    && (current == [] && n > 0 ==> !Kept(ops, context, n - 1))
    && forall k :: n - |current| <= k < n ==> Kept(ops, context, k)
  }

  lemma CloseRun<T>(ops: seq<Op<T>>, context: nat, hunks: seq<seq<Op<T>>>, current: seq<Op<T>>, from: seq<nat>, to: seq<nat>, n: nat)
    requires current != [] && RunsWith(ops, context, hunks, current, from, to, n)
    ensures Runs(ops, context, hunks + [current], from + [n - |current|], to + [n], n)
  {
    hide Kept, Inside;
    var x := n - |current|;
    forall k | 0 <= k < n ensures Kept(ops, context, k) <==> Inside(from + [x], to + [n], k) {
      InsideMore(from, to, x, n, k);
      if k >= x { NotInside(from, to, k); }
    }
  }

  lemma NotInside(from: seq<nat>, to: seq<nat>, k: int)
    requires |from| == |to| && forall i :: 0 <= i < |to| ==> to[i] <= k
    ensures !Inside(from, to, k)
  {}

  lemma SkipOne<T>(ops: seq<Op<T>>, context: nat, hunks: seq<seq<Op<T>>>, from: seq<nat>, to: seq<nat>, n: nat)
    requires n < |ops| && Runs(ops, context, hunks, from, to, n) && !Kept(ops, context, n)
    ensures RunsWith(ops, context, hunks, [], from, to, n + 1)
  {
    hide Kept, Inside;
    NotInside(from, to, n);
    assert ops[n + 1..n + 1] == [];
  }

  lemma GrowRun<T>(ops: seq<Op<T>>, context: nat, hunks: seq<seq<Op<T>>>, current: seq<Op<T>>, from: seq<nat>, to: seq<nat>, n: nat)
    requires n < |ops| && RunsWith(ops, context, hunks, current, from, to, n) && Kept(ops, context, n)
    requires current == [] ==> forall i :: 0 <= i < |to| ==> to[i] < n
    ensures RunsWith(ops, context, hunks, current + [ops[n]], from, to, n + 1)
  {
    hide Kept, Runs;
    assert ops[n - |current|..n + 1] == ops[n - |current|..n] + [ops[n]];
    assert n + 1 - |current + [ops[n]]| == n - |current|;
    assert forall i :: 0 <= i < |to| ==> to[i] < n - |current|;
  }

  /** Nothing ends where the operation before was not kept. */
  lemma EndsEarlier<T>(ops: seq<Op<T>>, context: nat, hunks: seq<seq<Op<T>>>, from: seq<nat>, to: seq<nat>, n: nat)
    requires 0 < n && Runs(ops, context, hunks, from, to, n) && !Kept(ops, context, n - 1)
    ensures forall i :: 0 <= i < |to| ==> to[i] < n
  {
    hide Kept;
    assert !Inside(from, to, n - 1);
    forall i | 0 <= i < |to| ensures to[i] < n {
      assert from[i] <= n - 1;
    }
  }

  lemma {:induction false} GroupedRuns<T>(ops: seq<Op<T>>, context: nat, n: nat) returns (from: seq<nat>, to: seq<nat>)
    requires n <= |ops|
    ensures RunsWith(ops, context, Grouped(ops, context, n).0, Grouped(ops, context, n).1, from, to, n)
    ensures n == 0 ==> to == []
  {
    hide Kept, RunsWith, Runs;
    if n == 0 {
      from, to := [], [];
      NothingRuns(ops, context);
    } else {
      var hunks, current := Grouped(ops, context, n - 1).0, Grouped(ops, context, n - 1).1;
      from, to := GroupedRuns(ops, context, n - 1);
      if Kept(ops, context, n - 1) {
        if current == [] && n > 1 { WasSkipped(ops, context, hunks, from, to, n - 1); }
        GrowRun(ops, context, hunks, current, from, to, n - 1);
      } else if current != [] {
        CloseRun(ops, context, hunks, current, from, to, n - 1);
        RunFits(ops, context, hunks, current, from, to, n - 1);
        from, to := from + [n - 1 - |current|], to + [n - 1];
        SkipOne(ops, context, hunks + [current], from, to, n - 1);
      } else {
        AllClosed(ops, context, hunks, from, to, n - 1);
        SkipOne(ops, context, hunks, from, to, n - 1);
      }
    }
  }

  lemma RunFits<T>(ops: seq<Op<T>>, context: nat, hunks: seq<seq<Op<T>>>, current: seq<Op<T>>, from: seq<nat>, to: seq<nat>, n: nat)
    requires RunsWith(ops, context, hunks, current, from, to, n)
    ensures |current| <= n
  {}

  lemma NothingRuns<T>(ops: seq<Op<T>>, context: nat)
    ensures RunsWith(ops, context, [], [], [], [], 0)
  {
    assert ops[0..0] == [];
  }

  lemma AllClosed<T>(ops: seq<Op<T>>, context: nat, hunks: seq<seq<Op<T>>>, from: seq<nat>, to: seq<nat>, n: nat)
    requires RunsWith(ops, context, hunks, [], from, to, n)
    ensures Runs(ops, context, hunks, from, to, n)
  {}

  lemma WasSkipped<T>(ops: seq<Op<T>>, context: nat, hunks: seq<seq<Op<T>>>, from: seq<nat>, to: seq<nat>, n: nat)
    requires n > 0 && RunsWith(ops, context, hunks, [], from, to, n)
    ensures forall i :: 0 <= i < |to| ==> to[i] < n
  {
    EndsEarlier(ops, context, hunks, from, to, n);
  }

  /** The hunks are runs of the script, apart from each other, that hold every operation close to a change and no other. */
  ghost predicate HoldsClose<T>(ops: seq<Op<T>>, context: nat, hunks: seq<seq<Op<T>>>, from: seq<nat>, to: seq<nat>) {
    && |from| == |to| == |hunks|
    && (forall i :: 0 <= i < |hunks| ==> from[i] < to[i] <= |ops| && hunks[i] == ops[from[i]..to[i]])
    && (forall i, j :: 0 <= i < j < |hunks| ==> to[i] < from[j])
    && (forall k :: 0 <= k < |ops| ==> (Close(ops, context, k) <==> Inside(from, to, k)))
  }

  lemma HunksAreRuns<T>(ops: seq<Op<T>>, context: nat) returns (from: seq<nat>, to: seq<nat>)
    ensures Runs(ops, context, Hunks(ops, context), from, to, |ops|)
  {
    var hunks, current := Grouped(ops, context, |ops|).0, Grouped(ops, context, |ops|).1;
    from, to := GroupedRuns(ops, context, |ops|);
    hide Runs, RunsWith, Grouped;
    if current != [] {
      CloseRun(ops, context, hunks, current, from, to, |ops|);
      from, to := from + [|ops| - |current|], to + [|ops|];
    } else {
      AllClosed(ops, context, hunks, from, to, |ops|);
    }
  }

  lemma HunksHoldClose<T>(ops: seq<Op<T>>, context: nat, f: nat) returns (from: seq<nat>, to: seq<nat>)
    requires |ops| <= MAX_OPS && context <= MAX_INT && IsFirstChange(ops, f) && f + context <= MAX_INT
    ensures HoldsClose(ops, context, Hunks(ops, context), from, to)
  {
    from, to := HunksAreRuns(ops, context);
    hide Kept, Close, Inside, Hunks;
    forall k | 0 <= k < |ops| ensures Kept(ops, context, k) <==> Close(ops, context, k) { KeptIsClose(ops, context, f, k); }
  }

  // ---- applying hunks ----

  datatype Patched<T> = Patched(pos: nat, out: seq<T>)

  /**
   Applies the hunks in order to the old lines: copies up to the recorded line, checks that this
   is the recorded line of the new side too and that the equal and deleted lines are there, and
   emits the equal and inserted ones.
   */
  function Apply<T(==)>(lines: seq<T>, hunks: seq<seq<Op<T>>>): (r: Option<Patched<T>>)
    ensures r.Some? ==> r.value.pos <= |lines|
  {
    if hunks == [] then Some(Patched(0, []))
    else
      match Apply(lines, hunks[..|hunks| - 1])
      case None => None
      case Some(p) =>
        var h := hunks[|hunks| - 1];
        if h == [] then None
        else
          var start, end := h[0].oldLine, h[0].oldLine + |Olds(h)|;
          if p.pos <= start && end <= |lines| && lines[start..end] == Olds(h) && |p.out| + start - p.pos == h[0].newLine
          then Some(Patched(end, p.out + lines[p.pos..start] + News(h))) else None
  }

  function Patch<T(==)>(lines: seq<T>, hunks: seq<seq<Op<T>>>): Option<seq<T>> {
    match Apply(lines, hunks)
    case None => None
    case Some(p) => Some(p.out + lines[p.pos..])
  }

  lemma {:induction false} OldsConcat<T>(x: seq<Op<T>>, y: seq<Op<T>>)
    ensures Olds(x + y) == Olds(x) + Olds(y) && News(x + y) == News(x) + News(y)
  {
    if y == [] {
      assert x + y == x;
    } else {
      hide Olds, News;
      var n := |y| - 1;
      OldsConcat(x, y[..n]);
      OldsGrow(x, y[..n], y[n]);
      assert y == y[..n] + [y[n]];
    }
  }

  lemma OldsGrow<T>(x: seq<Op<T>>, z: seq<Op<T>>, o: Op<T>)
    requires Olds(x + z) == Olds(x) + Olds(z) && News(x + z) == News(x) + News(z)
    ensures Olds(x + (z + [o])) == Olds(x) + Olds(z + [o]) && News(x + (z + [o])) == News(x) + News(z + [o])
  {
    hide Olds, News;
    AddOne(x + z, o);
    AddOne(z, o);
    Assoc(x, z, [o]);
    Assoc(Olds(x), Olds(z), if o.kind == Insert then [] else [o.text]);
    Assoc(News(x), News(z), if o.kind == Delete then [] else [o.text]);
  }

  /** How far n operations have got, in the old lines and the new. */
  lemma Divide<T>(ops: seq<Op<T>>, i: nat, n: nat)
    requires i <= n <= |ops|
    ensures Olds(ops[..n]) == Olds(ops[..i]) + Olds(ops[i..n]) && News(ops[..n]) == News(ops[..i]) + News(ops[i..n])
  {
    assert ops[..n] == ops[..i] + ops[i..n];
    OldsConcat(ops[..i], ops[i..n]);
  }

  /**
   The hunks after n operations: applied, they account for everything before the current hunk,
   and the rest of the script so far is unchanged lines and the current hunk.
   */
  ghost predicate Tracks<T>(ops: seq<Op<T>>, lines: seq<T>, hunks: seq<seq<Op<T>>>, current: seq<Op<T>>, n: nat)
    requires n <= |ops|
  {
    var i := n - |current|;
    && |current| <= n && current == ops[i..n]
    && Apply(lines, hunks).Some?
    && var p := Apply(lines, hunks).value;
    && p.pos <= |Olds(ops[..i])| <= |lines|
    && p.out + lines[p.pos..|Olds(ops[..i])|] == News(ops[..i])
  }

  lemma Flush<T>(ops: seq<Op<T>>, lines: seq<T>, hunks: seq<seq<Op<T>>>, current: seq<Op<T>>, n: nat)
    requires n <= |ops| && Olds(ops) == lines && Positioned(ops) && current != [] && Tracks(ops, lines, hunks, current, n)
    ensures Tracks(ops, lines, hunks + [current], [], n)
  {
    hide Olds, News, Apply;
    var i := n - |current|;
    var p := Apply(lines, hunks).value;
    var before, through := ops[..i], ops[..n];
    Divide(ops, i, n);
    Prefix(ops, lines, n);
    assert current[0] == ops[i] && ops[i].oldLine == |Olds(before)| && ops[i].newLine == |News(before)|;
    assert |p.out + lines[p.pos..|Olds(before)|]| == |p.out| + |Olds(before)| - p.pos;
    ApplySnoc(lines, hunks, current);
    var start, end := |Olds(before)|, |Olds(through)|;
    Window(lines, Olds(before), Olds(current), end);
    var out := p.out + lines[p.pos..start] + News(current);
    assert Apply(lines, hunks + [current]) == Some(Patched(end, out));
    assert out + lines[end..end] == out;
    IsBetween(ops, lines, hunks + [current], n, Patched(end, out));
  }

  lemma ApplySnoc<T>(lines: seq<T>, hunks: seq<seq<Op<T>>>, h: seq<Op<T>>)
    requires Apply(lines, hunks).Some? && h != []
    ensures var p, start, end := Apply(lines, hunks).value, h[0].oldLine, h[0].oldLine + |Olds(h)|;
      p.pos <= start && end <= |lines| && lines[start..end] == Olds(h) && |p.out| + start - p.pos == h[0].newLine ==>
        Apply(lines, hunks + [h]) == Some(Patched(end, p.out + lines[p.pos..start] + News(h)))
  {
    hide Olds, News;
    var all := hunks + [h];
    assert all[..|all| - 1] == hunks && all[|all| - 1] == h;
  }

  /** The old lines begin with those of any prefix of the script. */
  lemma Prefix<T>(ops: seq<Op<T>>, lines: seq<T>, n: nat)
    requires n <= |ops| && Olds(ops) == lines
    ensures |Olds(ops[..n])| <= |lines| && lines[..|Olds(ops[..n])|] == Olds(ops[..n])
  {
    assert ops[..|ops|] == ops;
    Divide(ops, n, |ops|);
  }

  /** An unchanged line outside any hunk is copied. */
  lemma Copy<T>(ops: seq<Op<T>>, lines: seq<T>, hunks: seq<seq<Op<T>>>, n: nat)
    requires n < |ops| && Olds(ops) == lines && Tracks(ops, lines, hunks, [], n) && ops[n].kind == Equal
    ensures Tracks(ops, lines, hunks, [], n + 1)
  {
    hide Olds, News, Apply, Tracks;
    var p := Between(ops, lines, hunks, n);
    var before, o := ops[..n], ops[n];
    var start := |Olds(before)|;
    Prefix(ops, lines, n + 1);
    assert ops[..n + 1] == before + [o];
    AddOne(before, o);
    assert Olds(before + [o]) == Olds(before) + [o.text];
    LastLine(lines, Olds(before), o.text);
    CopyLine(p.out, lines, p.pos, start, o.text);
    IsBetween(ops, lines, hunks, n + 1, p);
  }

  /** Between hunks: where the patch stands. */
  lemma Between<T>(ops: seq<Op<T>>, lines: seq<T>, hunks: seq<seq<Op<T>>>, n: nat) returns (p: Patched<T>)
    requires n <= |ops| && Tracks(ops, lines, hunks, [], n)
    ensures Apply(lines, hunks) == Some(p) && p.pos <= |Olds(ops[..n])| <= |lines|
    ensures p.out + lines[p.pos..|Olds(ops[..n])|] == News(ops[..n])
  {
    hide Olds, News, Apply;
    p := Apply(lines, hunks).value;
  }

  lemma IsBetween<T>(ops: seq<Op<T>>, lines: seq<T>, hunks: seq<seq<Op<T>>>, n: nat, p: Patched<T>)
    requires n <= |ops| && Apply(lines, hunks) == Some(p) && p.pos <= |Olds(ops[..n])| <= |lines|
    requires p.out + lines[p.pos..|Olds(ops[..n])|] == News(ops[..n])
    ensures Tracks(ops, lines, hunks, [], n)
  {
    hide Olds, News, Apply;
    assert ops[n..n] == [];
  }

  lemma LastLine<T>(lines: seq<T>, before: seq<T>, x: T)
    requires |before| < |lines| && lines[..|before| + 1] == before + [x]
    ensures lines[|before|..|before| + 1] == [x]
  {
    assert lines[|before|] == lines[..|before| + 1][|before|] == x;
  }

  lemma CopyLine<T>(out: seq<T>, lines: seq<T>, pos: nat, start: nat, x: T)
    requires pos <= start < |lines| && lines[start..start + 1] == [x]
    ensures out + lines[pos..start + 1] == out + lines[pos..start] + [x]
  {
    assert lines[start] == lines[start..start + 1][0] == x;
  }

  lemma {:induction false} GroupedTracks<T>(ops: seq<Op<T>>, lines: seq<T>, context: nat, n: nat)
    requires n <= |ops| && Olds(ops) == lines && Positioned(ops) && ChangesKept(ops, context)
    ensures Tracks(ops, lines, Grouped(ops, context, n).0, Grouped(ops, context, n).1, n)
  {
    if n == 0 {
      assert ops[..0] == [];
    } else {
      GroupedTracks(ops, lines, context, n - 1);
      var hunks, current := Grouped(ops, context, n - 1).0, Grouped(ops, context, n - 1).1;
      hide Tracks, Positioned, Olds, Kept;
      if Kept(ops, context, n - 1) {
        Grow(ops, lines, hunks, current, n - 1);
      } else if current != [] {
        Flush(ops, lines, hunks, current, n - 1);
        Copy(ops, lines, hunks + [current], n - 1);
      } else {
        Copy(ops, lines, hunks, n - 1);
      }
    }
  }

  lemma Grow<T>(ops: seq<Op<T>>, lines: seq<T>, hunks: seq<seq<Op<T>>>, current: seq<Op<T>>, n: nat)
    requires n < |ops| && Tracks(ops, lines, hunks, current, n)
    ensures Tracks(ops, lines, hunks, current + [ops[n]], n + 1)
  {
    hide Olds, News, Apply;
    assert ops[n - |current|..n + 1] == ops[n - |current|..n] + [ops[n]];
  }

  /** The hunks of a script turn the old lines into the new. */
  lemma HunksArePatch<T>(ops: seq<Op<T>>, a: seq<T>, b: seq<T>, context: nat)
    requires Edits(ops, a, b) && Positioned(ops) && ChangesKept(ops, context)
    ensures Patch(a, Hunks(ops, context)) == Some(b)
  {
    hide Apply, Olds, News, Positioned;
    GroupedTracks(ops, a, context, |ops|);
    var hunks, current := Grouped(ops, context, |ops|).0, Grouped(ops, context, |ops|).1;
    if current != [] { Flush(ops, a, hunks, current, |ops|); }
    var p := Apply(a, Hunks(ops, context)).value;
    assert ops[..|ops|] == ops && a[p.pos..|a|] == a[p.pos..];
  }
}
