/** Apply on a Linux host: the file edits behind the convergence the rotation relies on. */
module LinuxApply {
  import opened AuthorizedKeys
  import Protocol = RotationProtocol

  /** The fingerprints of the keys a file lists. */
  function Prints(entries: seq<Entry>): set<string> {
    set e | e in entries && e.kind == EntryKey :: e.line.fingerprint
  }

  function PrintsOf(desired: seq<Entry>): set<string> {
    set e | e in desired :: e.line.fingerprint
  }

  lemma {:induction false} PrintsAreCounted(entries: seq<Entry>, fingerprint: string)
    ensures fingerprint in Prints(entries) <==> Count(entries, fingerprint) > 0
  {
    if entries != [] {
      var n := |entries| - 1;
      PrintsAreCounted(entries[..n], fingerprint);
      assert entries == entries[..n] + [entries[n]];
    }
  }

  lemma UpsertPrints(f: File, e: Entry)
    requires e.kind == EntryKey
    ensures Prints(Upserted(f, e).0.entries) == Prints(f.entries) + {e.line.fingerprint}
  {
    var g, i := Upserted(f, e).0, Find(f.entries, e.line.fingerprint);
    if i == |f.entries| {
      assert g.entries == f.entries + [e.(dirty := true)];
    } else {
      forall p ensures p in Prints(g.entries) <==> p in Prints(f.entries) || p == e.line.fingerprint {
        if x :| x in f.entries && x.kind == EntryKey && x.line.fingerprint == p {
          var k :| 0 <= k < |f.entries| && f.entries[k] == x;
          assert g.entries[k] in g.entries;
        }
        assert g.entries[i] in g.entries && f.entries[i] in f.entries;
      }
    }
  }

  /** Remove changes only the count of its own fingerprint. */
  lemma RemoveCounts(f: File, fingerprint: string, other: string)
    requires Count(f.entries, fingerprint) > 0
    ensures Count(Removed(f, fingerprint).0.entries, other)
      == Count(f.entries, other) - if other == fingerprint then 1 else 0
  {
    hide IsKey, Find, Count;
    var i := Find(f.entries, fingerprint);
    RemoveTakesOne(f, fingerprint);
    if i < |f.entries| {
      CountAround(f.entries, i, other);
      CountConcat(f.entries[..i], f.entries[i + 1..], other);
      OneFingerprint(f.entries[i], fingerprint, other);
    }
  }

  lemma OneFingerprint(e: Entry, fingerprint: string, other: string)
    requires IsKey(e, fingerprint)
    ensures IsKey(e, other) <==> other == fingerprint
  {}

  // ---- what the lines say ----

  /** The first line for the key has these options and this comment. */
  ghost predicate Holds(entries: seq<Entry>, e: Entry) {
    exists i :: FirstAt(entries, i, e.line.fingerprint)
      && entries[i].line.options == e.line.options && entries[i].line.comment == e.line.comment
  }

  /** No later of the first n entries is for the same key. */
  predicate Lasting(desired: seq<Entry>, n: nat, k: int) {
    0 <= k < n <= |desired| && forall j :: k < j < n ==> desired[j].line.fingerprint != desired[k].line.fingerprint
  }

  lemma UpsertHolds(f: File, e: Entry)
    requires e.kind == EntryKey
    ensures Holds(Upserted(f, e).0.entries, e)
  {
    var g := Upserted(f, e).0;
    UpsertTakesEffect(f, e);
    FindIsFirst(g.entries, e.line.fingerprint);
    hide Upserted, Find;
    assert FirstAt(g.entries, Find(g.entries, e.line.fingerprint), e.line.fingerprint);
  }

  lemma UpsertKeepsHeld(f: File, e: Entry, x: Entry)
    requires x.line.fingerprint != e.line.fingerprint && Holds(f.entries, x)
    ensures Holds(Upserted(f, e).0.entries, x)
  {
    var g := Upserted(f, e).0.entries;
    var i :| FirstAt(f.entries, i, x.line.fingerprint)
      && f.entries[i].line.options == x.line.options && f.entries[i].line.comment == x.line.comment;
    assert FirstAt(g, i, x.line.fingerprint) && g[i] == f.entries[i];
  }

  lemma RemoveKeepsHeld(f: File, fingerprint: string, x: Entry)
    requires x.line.fingerprint != fingerprint && Holds(f.entries, x)
    ensures Holds(Removed(f, fingerprint).0.entries, x)
  {
    var g := Removed(f, fingerprint).0.entries;
    var i :| FirstAt(f.entries, i, x.line.fingerprint)
      && f.entries[i].line.options == x.line.options && f.entries[i].line.comment == x.line.comment;
    var j := Find(f.entries, fingerprint);
    hide Find;
    var k := if j < i then i - 1 else i;
    assert g[k] == f.entries[i];
    assert FirstAt(g, k, x.line.fingerprint);
  }

  predicate Doomed(fingerprint: string, wanted: set<string>, managed: set<string>) {
    fingerprint !in wanted && fingerprint in managed
  }

  /** The first n desired keys are in the file, each with its options, and other lines are as they were. */
  ghost predicate Upserting(before: seq<Entry>, now: seq<Entry>, desired: seq<Entry>, n: nat) {
    && n <= |desired| && Prints(now) == Prints(before) + PrintsOf(desired[..n])
    && (forall k :: Lasting(desired, n, k) ==> Holds(now, desired[k]))
    && forall touched: set<string> :: PrintsOf(desired) <= touched ==> Untouched(now, touched) == Untouched(before, touched)
  }

  lemma NoneUpserted(before: seq<Entry>, desired: seq<Entry>)
    ensures Upserting(before, before, desired, 0)
  {
    hide Prints;
    assert PrintsOf(desired[..0]) == {};
  }

  lemma OneUpserted(before: seq<Entry>, f: File, desired: seq<Entry>, i: nat)
    requires Upserting(before, f.entries, desired, i) && i < |desired| && desired[i].kind == EntryKey
    ensures Upserting(before, Upserted(f, desired[i]).0.entries, desired, i + 1)
  {
    hide Prints, PrintsOf, Upserted, Untouched, Holds;
    var e := desired[i];
    var now := Upserted(f, e).0.entries;
    UpsertPrints(f, e);
    NextPrint(desired, i);
    DesiredPrints(desired);
    UpsertHolds(f, e);
    forall k | Lasting(desired, i + 1, k) ensures Holds(now, desired[k]) {
      if k < i {
        assert Lasting(desired, i, k);
        UpsertKeepsHeld(f, e, desired[k]);
      }
    }
    forall touched: set<string> | PrintsOf(desired) <= touched ensures Untouched(now, touched) == Untouched(f.entries, touched) {
      EditKeepsOthers(f, Put(e), touched);
    }
  }

  lemma NextPrint(desired: seq<Entry>, i: nat)
    requires i < |desired|
    ensures PrintsOf(desired[..i + 1]) == PrintsOf(desired[..i]) + {desired[i].line.fingerprint}
  {
    assert desired[..i + 1] == desired[..i] + [desired[i]];
  }

  /** Each desired key, with its options; the last one counts if a key is there twice. Other lines stay as they were. */
  method UpsertAll(file: Editor, desired: seq<Entry>)
    requires forall e :: e in desired ==> e.kind == EntryKey
    modifies file
    ensures Prints(file.entries) == old(Prints(file.entries)) + PrintsOf(desired)
    ensures forall k :: Lasting(desired, |desired|, k) ==> Holds(file.entries, desired[k])
    ensures forall touched: set<string> :: PrintsOf(desired) <= touched ==>
      Untouched(file.entries, touched) == old(Untouched(file.entries, touched))
  {
    hide Upserted, Untouched, Holds, Prints, Upserting;
    NoneUpserted(file.entries, desired);
    for i := 0 to |desired|
      invariant Upserting(old(file.entries), file.entries, desired, i)
    {
      OneUpserted(old(file.entries), file.Contents(), desired, i);
      var _ := file.Upsert(desired[i]);
    }
    AllUpserted(old(file.entries), file.entries, desired);
  }

  lemma AllUpserted(before: seq<Entry>, now: seq<Entry>, desired: seq<Entry>)
    requires Upserting(before, now, desired, |desired|)
    ensures Prints(now) == Prints(before) + PrintsOf(desired)
    ensures forall k :: Lasting(desired, |desired|, k) ==> Holds(now, desired[k])
    ensures forall touched: set<string> :: PrintsOf(desired) <= touched ==> Untouched(now, touched) == Untouched(before, touched)
  {
    hide Prints, Untouched, Holds;
    assert desired[..|desired|] == desired;
  }

  /** Of the first n lines listed, the doomed are gone; no wanted key has changed, and no other line is touched. */
  ghost predicate Pruning(listed: seq<Entry>, now: seq<Entry>, wanted: set<string>, managed: set<string>, n: nat) {
    && n <= |listed|
    && (forall p :: Count(now, p) == if Doomed(p, wanted, managed) then Count(listed[n..], p) else Count(listed, p))
    && (forall x: Entry :: x.line.fingerprint in wanted && Holds(listed, x) ==> Holds(now, x))
    && forall touched: set<string> :: managed - wanted <= touched ==> Untouched(now, touched) == Untouched(listed, touched)
  }

  lemma OnePruned(listed: seq<Entry>, f: File, wanted: set<string>, managed: set<string>, i: nat)
    requires Pruning(listed, f.entries, wanted, managed, i) && i < |listed|
    ensures var e := listed[i];
      if e.kind == EntryKey && Doomed(e.line.fingerprint, wanted, managed)
      then Pruning(listed, Removed(f, e.line.fingerprint).0.entries, wanted, managed, i + 1)
      else Pruning(listed, f.entries, wanted, managed, i + 1)
  {
    hide Removed, Count, IsKey, Holds, Untouched;
    var e := listed[i];
    CountHead(listed, i);
    if e.kind == EntryKey && Doomed(e.line.fingerprint, wanted, managed) {
      IsItsOwn(e);
      OneRemoved(f, e.line.fingerprint, wanted, managed);
      OnlyItsOwn(e);
    } else {
      NotDoomed(e, wanted, managed);
    }
  }

  lemma NonePruned(listed: seq<Entry>, wanted: set<string>, managed: set<string>)
    ensures Pruning(listed, listed, wanted, managed, 0)
  {
    assert listed[0..] == listed;
  }

  lemma AllPruned(listed: seq<Entry>, now: seq<Entry>, wanted: set<string>, managed: set<string>)
    requires Pruning(listed, now, wanted, managed, |listed|)
    ensures forall p :: Count(now, p) == if Doomed(p, wanted, managed) then 0 else Count(listed, p)
    ensures forall x: Entry :: x.line.fingerprint in wanted && Holds(listed, x) ==> Holds(now, x)
    ensures forall touched: set<string> :: managed - wanted <= touched ==> Untouched(now, touched) == Untouched(listed, touched)
  {
    assert listed[|listed|..] == [];
    CountNothing();
    hide Count, Holds, Untouched;
  }

  /** One Remove for each listed key SKM manages and no longer wants, duplicates included; no other line is touched. */
  method PruneAll(file: Editor, wanted: set<string>, managed: set<string>)
    modifies file
    ensures forall p :: Count(file.entries, p) == if Doomed(p, wanted, managed) then 0 else old(Count(file.entries, p))
    ensures forall x: Entry :: x.line.fingerprint in wanted && old(Holds(file.entries, x)) ==> Holds(file.entries, x)
    ensures forall touched: set<string> :: managed - wanted <= touched ==>
      Untouched(file.entries, touched) == old(Untouched(file.entries, touched))
  {
    var listed := file.entries;
    hide Removed, Count, Holds, Untouched, Pruning;
    NonePruned(listed, wanted, managed);
    for i := 0 to |listed|
      invariant Pruning(listed, file.entries, wanted, managed, i)
    {
      var e := listed[i];
      OnePruned(listed, file.Contents(), wanted, managed, i);
      if e.kind == EntryKey && Doomed(e.line.fingerprint, wanted, managed) {
        var _ := file.Remove(e.line.fingerprint);
      }
    }
    AllPruned(listed, file.entries, wanted, managed);
  }

  lemma OneRemoved(f: File, fingerprint: string, wanted: set<string>, managed: set<string>)
    requires Doomed(fingerprint, wanted, managed) && Count(f.entries, fingerprint) > 0
    ensures var g := Removed(f, fingerprint).0.entries;
      && (forall p :: Count(g, p) == Count(f.entries, p) - if p == fingerprint then 1 else 0)
      && (forall x: Entry :: x.line.fingerprint in wanted && Holds(f.entries, x) ==> Holds(g, x))
      && forall touched: set<string> :: managed - wanted <= touched ==> Untouched(g, touched) == Untouched(f.entries, touched)
  {
    hide Removed, Count, Holds, Untouched;
    var g := Removed(f, fingerprint).0.entries;
    forall p ensures Count(g, p) == Count(f.entries, p) - if p == fingerprint then 1 else 0 { RemoveCounts(f, fingerprint, p); }
    forall x: Entry | x.line.fingerprint in wanted && Holds(f.entries, x) ensures Holds(g, x) { RemoveKeepsHeld(f, fingerprint, x); }
    forall touched: set<string> | managed - wanted <= touched ensures Untouched(g, touched) == Untouched(f.entries, touched) {
      assert fingerprint in managed - wanted;
      EditKeepsOthers(f, Drop(fingerprint), touched);
    }
  }

  lemma CountNothing()
    ensures forall p :: Count([], p) == 0
  {}

  lemma CountHead(listed: seq<Entry>, i: nat)
    requires i < |listed|
    ensures forall p :: Count(listed[i..], p) == Count(listed[i + 1..], p) + if IsKey(listed[i], p) then 1 else 0
  {
    forall p ensures Count(listed[i..], p) == Count(listed[i + 1..], p) + if IsKey(listed[i], p) then 1 else 0 {
      assert listed[i..][1..] == listed[i + 1..] && listed[i..][..0] == [];
      CountAround(listed[i..], 0, p);
    }
  }

  lemma IsItsOwn(e: Entry)
    requires e.kind == EntryKey
    ensures IsKey(e, e.line.fingerprint)
  {}

  lemma OnlyItsOwn(e: Entry)
    requires e.kind == EntryKey
    ensures forall p :: IsKey(e, p) <==> p == e.line.fingerprint
  {}

  lemma NotDoomed(e: Entry, wanted: set<string>, managed: set<string>)
    requires e.kind != EntryKey || !Doomed(e.line.fingerprint, wanted, managed)
    ensures forall p :: Doomed(p, wanted, managed) ==> !IsKey(e, p)
  {}

  /**
   The edit part of Apply: the keys left are exactly those the protocol says a host converges
   to, and a file that would list no key is refused unless that is allowed. When keys SKM did not
   deploy are not preserved, pruning leaves the desired keys and no other. Each desired key has its
   options and comment, and every line of another sort is the same bytes in the same place.
   */
  method Edit(file: Editor, desired: seq<Entry>, prune: bool, preserve: bool, allowEmpty: bool, managed: set<string>)
    returns (lockout: bool)
    requires forall e :: e in desired ==> e.kind == EntryKey
    modifies file
    ensures preserve ==>
      Prints(file.entries) == Protocol.Converged(old(Prints(file.entries)), PrintsOf(desired), prune, managed)
    ensures !preserve ==>
      Prints(file.entries) == if prune then PrintsOf(desired) else old(Prints(file.entries)) + PrintsOf(desired)
    ensures lockout <==> Prints(file.entries) == {} && !allowEmpty
    ensures forall k :: Lasting(desired, |desired|, k) ==> Holds(file.entries, desired[k])
    ensures prune && !preserve ==>
      Untouched(file.entries, old(Prints(file.entries)) + PrintsOf(desired))
        == old(Untouched(file.entries, Prints(file.entries) + PrintsOf(desired)))
    ensures !prune ==> Untouched(file.entries, PrintsOf(desired)) == old(Untouched(file.entries, PrintsOf(desired)))
    ensures prune && preserve ==>
      Untouched(file.entries, managed + PrintsOf(desired)) == old(Untouched(file.entries, managed + PrintsOf(desired)))
  {
    hide Prints, PrintsOf, Count, Doomed, Holds, Untouched;
    ghost var all := Prints(file.entries) + PrintsOf(desired);
    DesiredPrints(desired);
    UpsertAll(file, desired);
    if prune {
      ghost var before := file.entries;
      var removable := if preserve then managed else PrintsOf(Keys(file.entries));
      KeysPrints(file.entries);
      assert !preserve ==> removable == all;
      PruneAll(file, PrintsOf(desired), removable);
      Pruned(before, file.entries, PrintsOf(desired), removable);
    }
    lockout := PrintsOf(Keys(file.entries)) == {} && !allowEmpty;
    KeysPrints(file.entries);
  }

  lemma DesiredPrints(desired: seq<Entry>)
    ensures forall k :: 0 <= k < |desired| ==> desired[k].line.fingerprint in PrintsOf(desired)
  {}

  function Keys(entries: seq<Entry>): seq<Entry> {
    if entries == [] then []
    else if entries[0].kind == EntryKey then [entries[0]] + Keys(entries[1..])
    else Keys(entries[1..])
  }

  lemma {:induction false} KeysPrints(entries: seq<Entry>)
    ensures PrintsOf(Keys(entries)) == Prints(entries)
  {
    if entries != [] {
      var e, rest := entries[0], entries[1..];
      KeysPrints(rest);
      assert entries == [e] + rest;
      PrintsCons(e, rest);
    }
  }

  lemma PrintsCons(e: Entry, rest: seq<Entry>)
    ensures Prints([e] + rest) == Prints(rest) + if e.kind == EntryKey then {e.line.fingerprint} else {}
    ensures e.kind == EntryKey ==> PrintsOf([e] + Keys(rest)) == PrintsOf(Keys(rest)) + {e.line.fingerprint}
  {
    hide Keys;
    forall p ensures p in Prints([e] + rest) <==> p in Prints(rest) || (e.kind == EntryKey && p == e.line.fingerprint) {
      assert e in [e] + rest;
      assert forall x :: x in [e] + rest <==> x == e || x in rest;
    }
    forall p ensures p in PrintsOf([e] + Keys(rest)) <==> p in PrintsOf(Keys(rest)) || p == e.line.fingerprint {
      assert e in [e] + Keys(rest);
      assert forall x :: x in [e] + Keys(rest) <==> x == e || x in Keys(rest);
    }
  }

  lemma Pruned(before: seq<Entry>, after: seq<Entry>, wanted: set<string>, managed: set<string>)
    requires forall p :: Count(after, p) == if Doomed(p, wanted, managed) then 0 else Count(before, p)
    ensures Prints(after) == Prints(before) - (managed - wanted)
  {
    hide Prints, Count;
    forall p ensures p in Prints(after) <==> p in Prints(before) - (managed - wanted) {
      PrintsAreCounted(before, p);
      PrintsAreCounted(after, p);
    }
  }

  // ---- which keys count as managed ----

  const PAGE := 500

  /** A page of the key table: a limit outside 1..500 falls back to 100. */
  function ListKeys(table: seq<string>, limit: int, offset: nat): seq<string> {
    var n := if limit <= 0 || limit > 500 then 100 else limit;
    if offset >= |table| then []
    else if offset + n <= |table| then table[offset..offset + n] else table[offset..]
  }

  /**
   Pages through every key: the page size is one the listing honours, so a short page is the last.
   A page that cannot be read leaves nothing managed, and pruning removes nothing.
   */
  method ManagedFingerprints(table: seq<string>) returns (out: seq<string>, failed: bool)
    ensures out == if failed then [] else table
  {
    out, failed := [], false;
    var offset := 0;
    while true
      invariant offset == |out| && offset <= |table| && out == table[..offset]
      decreases |table| - offset
    {
      failed := *;
      if failed {
        return [], true;
      }
      var batch := ListKeys(table, PAGE, offset);
      out := out + batch;
      if |batch| < PAGE {
        return;
      }
      offset := offset + PAGE;
    }
  }
}
