/** A whole field: its comma-separated entries compiled to one mask. */
module CronMask {
  import opened Options
  import opened Text
  import opened Arithmetic
  import opened CronField
  import opened CronText

  // ---- the field ----

  /** The bits set by the first n entries. */
  ghost predicate SetsAll(mask: set<int>, parts: seq<string>, n: nat, spec: FieldSpec)
    requires ValidSpec(spec) && n <= |parts|
  {
    && (forall i :: 0 <= i < n ==> ParseEntry(parts[i], spec).Some?)
    && forall u :: u in mask <==> exists i :: 0 <= i < n && SetBy(parts[i], spec, u)
  }

  predicate SetBy(part: string, spec: FieldSpec, u: int)
    requires ValidSpec(spec)
  {
    ParseEntry(part, spec).Some? && (Hits(ParseEntry(part, spec).value, u) || Strays(ParseEntry(part, spec).value, u))
  }

  /** Some entry of the field sets v though it does not denote it. */
  ghost predicate Strayed(field: string, spec: FieldSpec, v: int)
    requires ValidSpec(spec)
  {
    exists i :: 0 <= i < |Split(field, ',')|
      && ParseEntry(Split(field, ',')[i], spec).Some? && Strays(ParseEntry(Split(field, ',')[i], spec).value, v)
  }

  /** All entries of the field are tame: no step within 64 of wrapping starts far enough above zero. */
  ghost predicate TameField(field: string, spec: FieldSpec)
    requires ValidSpec(spec)
  {
    forall i :: 0 <= i < |Split(field, ',')| && ParseEntry(Split(field, ',')[i], spec).Some? ==>
      Tame(ParseEntry(Split(field, ',')[i], spec).value)
  }

  // ---- a field as it is written ----

  /** The field is the text of these entries, each of them legal. */
  ghost predicate IsWritten(field: string, items: seq<Item>, spec: FieldSpec) {
    items != [] && field == FieldText(items) && forall i :: 0 <= i < |items| ==> Fits(items[i], spec)
  }

  ghost predicate SaidBy(items: seq<Item>, spec: FieldSpec, v: int) {
    exists i :: 0 <= i < |items| && Means(items[i], spec, v)
  }

  lemma WrittenIsRead(field: string, items: seq<Item>, spec: FieldSpec)
    requires IsField(spec) && ValidSpec(spec) && IsWritten(field, items, spec)
    ensures Split(field, ',') == ItemsText(items)
    ensures forall i :: 0 <= i < |items| ==>
      ParseEntry(ItemText(items[i]), spec) == Some(Range(First(items[i], spec), Last(items[i], spec), Step(items[i])))
  {
    hide ParseEntry, ItemText, Split, Join, Fits, First, Last, Step;
    forall i | 0 <= i < |items|
      ensures ',' !in ItemText(items[i])
      ensures ParseEntry(ItemText(items[i]), spec) == Some(Range(First(items[i], spec), Last(items[i], spec), Step(items[i])))
    {
      ItemIsRead(items[i], spec);
    }
    SplitJoin(ItemsText(items), ',');
  }

  /** A field that was written denotes what was said. */
  lemma WrittenDenotes(field: string, items: seq<Item>, spec: FieldSpec, v: int)
    requires IsField(spec) && ValidSpec(spec) && IsWritten(field, items, spec)
    ensures Denotes(field, spec, v) <==> SaidBy(items, spec, v)
  {
    WrittenIsRead(field, items, spec);
    hide ParseEntry, ItemText, Split, Fits, First, Last, Step, Hits, Means, FieldText;
    forall i | 0 <= i < |items|
      ensures Hits(ParseEntry(Split(field, ',')[i], spec).value, v) <==> Means(items[i], spec, v)
    {
      assert Split(field, ',')[i] == ItemText(items[i]);
      MeansHits(items[i], spec, v);
    }
  }

  /** Steps that stay clear of wrapping make a tame field. */
  lemma SmallStepsAreTame(field: string, items: seq<Item>, spec: FieldSpec)
    requires IsField(spec) && ValidSpec(spec) && IsWritten(field, items, spec)
    requires forall i :: 0 <= i < |items| ==> Step(items[i]) <= MAX_INT - 63
    ensures TameField(field, spec)
  {
    WrittenIsRead(field, items, spec);
    hide ParseEntry, ItemText, Split, Fits, First, Last, Step, FieldText;
    forall i | 0 <= i < |items| ensures Tame(ParseEntry(Split(field, ',')[i], spec).value) {
      assert Split(field, ',')[i] == ItemText(items[i]);
    }
  }

  lemma WrittenParses(field: string, items: seq<Item>, spec: FieldSpec)
    requires IsField(spec) && ValidSpec(spec) && IsWritten(field, items, spec)
    ensures forall i :: 0 <= i < |Split(field, ',')| ==> ParseEntry(Split(field, ',')[i], spec).Some?
  {
    WrittenIsRead(field, items, spec);
    hide ParseEntry, ItemText, Split, Fits, First, Last, Step, FieldText;
    assert forall i :: 0 <= i < |items| ==> ItemsText(items)[i] == ItemText(items[i]);
  }

  /**
   The mask of a field. It fails exactly when some entry does; otherwise the mask is not empty,
   and it is right exactly when whatever one entry strays to is denoted by some entry. A tame
   field strays nowhere: its mask holds the values its entries denote, all of them legal. A field
   written out of values, names, ranges, stars and steps is accepted, and unless a step strays
   its mask holds what was written and nothing else.
   */
  method ParseField(field: string, spec: FieldSpec) returns (r: Option<set<int>>)
    requires ValidSpec(spec)
    ensures r.None? <==> exists i :: 0 <= i < |Split(field, ',')| && ParseEntry(Split(field, ',')[i], spec).None?
    ensures r.Some? ==> r.value != {} && SetsAll(r.value, Split(field, ','), |Split(field, ',')|, spec)
    ensures r.Some? ==>
      ((forall v :: v in r.value <==> Denotes(field, spec, v)) <==>
       (forall v :: Strayed(field, spec, v) ==> Denotes(field, spec, v)))
    ensures r.Some? && TameField(field, spec) ==>
      forall v :: (v in r.value <==> Denotes(field, spec, v)) && (v in r.value ==> spec.min <= v <= spec.max)
    ensures forall items :: IsField(spec) && IsWritten(field, items, spec) ==>
      r.Some? && (TameField(field, spec) ==> forall v :: v in r.value <==> SaidBy(items, spec, v))
  {
    hide ParseEntry, Sets, SetBy, IsWritten, SaidBy, Denotes;
    forall items | IsField(spec) && IsWritten(field, items, spec)
      ensures forall i :: 0 <= i < |Split(field, ',')| ==> ParseEntry(Split(field, ',')[i], spec).Some?
      ensures forall v :: Denotes(field, spec, v) <==> SaidBy(items, spec, v)
    {
      WrittenParses(field, items, spec);
      forall v ensures Denotes(field, spec, v) <==> SaidBy(items, spec, v) { WrittenDenotes(field, items, spec, v); }
    }
    var parts := Split(field, ',');
    var mask: set<int> := {};
    for i := 0 to |parts|
      invariant SetsAll(mask, parts, i, spec)
    {
      var entry := ParseEntry(parts[i], spec);
      if entry.None? {
        assert ParseEntry(Split(field, ',')[i], spec).None?;
        return None;
      }
      var before := mask;
      mask := Sweep(entry.value, before);
      AddEntry(mask, before, parts, i, spec);
    }
    NotEmpty(mask, parts, spec);
    Meaning(mask, field, spec);
    RightExactly(mask, field, spec);
    return Some(mask);
  }

  lemma AddEntry(mask: set<int>, before: set<int>, parts: seq<string>, i: nat, spec: FieldSpec)
    requires ValidSpec(spec) && i < |parts| && SetsAll(before, parts, i, spec) && ParseEntry(parts[i], spec).Some?
    requires Sets(mask, before, ParseEntry(parts[i], spec).value)
    ensures SetsAll(mask, parts, i + 1, spec)
  {
    hide ParseEntry, Hits, Strays;
    forall u ensures u in mask <==> exists k :: 0 <= k < i + 1 && SetBy(parts[k], spec, u) {
      if u in before {
        var k :| 0 <= k < i && SetBy(parts[k], spec, u);
      } else if u in mask {
        assert SetBy(parts[i], spec, u);
      }
    }
  }

  lemma NotEmpty(mask: set<int>, parts: seq<string>, spec: FieldSpec)
    requires ValidSpec(spec) && parts != [] && SetsAll(mask, parts, |parts|, spec)
    ensures mask != {}
  {
    var r := ParseEntry(parts[0], spec).value;
    hide ParseEntry;
    ZeroMultiple(r.step);
    assert Hits(r, r.lo) && SetBy(parts[0], spec, r.lo);
    assert r.lo in mask;
  }

  lemma Meaning(mask: set<int>, field: string, spec: FieldSpec)
    requires ValidSpec(spec) && SetsAll(mask, Split(field, ','), |Split(field, ',')|, spec)
    ensures TameField(field, spec) ==>
      forall v :: (v in mask <==> Denotes(field, spec, v)) && (v in mask ==> spec.min <= v <= spec.max)
  {
    var parts := Split(field, ',');
    hide ParseEntry, Hits, Strays, Split;
    if TameField(field, spec) {
      forall v ensures v in mask <==> Denotes(field, spec, v)
               ensures v in mask ==> spec.min <= v <= spec.max
      {
        forall i | 0 <= i < |parts|
          ensures SetBy(parts[i], spec, v) <==> Hits(ParseEntry(parts[i], spec).value, v)
          ensures SetBy(parts[i], spec, v) ==> spec.min <= v <= spec.max
        {
          TameIsExact(ParseEntry(parts[i], spec).value);
          HitsInside(ParseEntry(parts[i], spec).value, v);
        }
      }
    }
  }

  lemma RightExactly(mask: set<int>, field: string, spec: FieldSpec)
    requires ValidSpec(spec) && SetsAll(mask, Split(field, ','), |Split(field, ',')|, spec)
    ensures forall v :: v in mask <==> Denotes(field, spec, v) || Strayed(field, spec, v)
  {
    var parts := Split(field, ',');
    hide ParseEntry, Hits, Strays, Split;
    forall v ensures v in mask <==> Denotes(field, spec, v) || Strayed(field, spec, v) {
      if v in mask {
        var i :| 0 <= i < |parts| && SetBy(parts[i], spec, v);
      }
      if i :| 0 <= i < |parts| && ParseEntry(parts[i], spec).Some? && Hits(ParseEntry(parts[i], spec).value, v) {
        assert SetBy(parts[i], spec, v);
      }
      if i :| 0 <= i < |parts| && ParseEntry(parts[i], spec).Some? && Strays(ParseEntry(parts[i], spec).value, v) {
        assert SetBy(parts[i], spec, v);
      }
    }
  }

  lemma HitsInside(r: Range, v: int)
    ensures Hits(r, v) ==> r.lo <= v <= r.hi
  {}
}
