/** One field of a cron expression: comma-separated values, ranges and steps, compiled to a mask. */
module CronField {
  import opened Options
  import opened Text
  import opened Arithmetic

  datatype FieldSpec = FieldSpec(min: nat, max: nat, isDow: bool, aliases: map<string, int>)

  /** The five specs: masks fit in 64 bits, and every alias is a legal value. */
  predicate ValidSpec(spec: FieldSpec) {
    spec.min <= spec.max < 64 && forall k :: k in spec.aliases ==> spec.min <= spec.aliases[k] <= spec.max
  }

  const MINUTE := FieldSpec(0, 59, false, map[])
  const HOUR := FieldSpec(0, 23, false, map[])
  const DOM := FieldSpec(1, 31, false, map[])
  const MONTH := FieldSpec(1, 12, false, map["jan" := 1, "feb" := 2, "mar" := 3, "apr" := 4, "may" := 5, "jun" := 6,
    "jul" := 7, "aug" := 8, "sep" := 9, "oct" := 10, "nov" := 11, "dec" := 12])
  const DOW := FieldSpec(0, 6, true, map["sun" := 0, "mon" := 1, "tue" := 2, "wed" := 3, "thu" := 4, "fri" := 5, "sat" := 6])

  // ---- what an entry says ----

  /** An alias or a number in range; 7 stands for Sunday. */
  function ParseValue(text: string, spec: FieldSpec): (r: Option<int>)
    requires ValidSpec(spec)
    ensures r.Some? ==> spec.min <= r.value <= spec.max
  {
    var s := Trim(text);
    if ToLower(s) in spec.aliases then Some(spec.aliases[ToLower(s)])
    else
      match Atoi(s)
      case None => None
      case Some(n) =>
        var v := if spec.isDow && n == 7 then 0 else n;
        if v < spec.min || v > spec.max then None else Some(v)
  }

  datatype Range = Range(lo: int, hi: int, step: int)

  /** lo, lo + step, lo + 2 * step, ... up to hi; nothing for an entry that does not parse. */
  function ParseEntry(text: string, spec: FieldSpec): (r: Option<Range>)
    requires ValidSpec(spec)
    ensures r.Some? ==> spec.min <= r.value.lo <= r.value.hi <= spec.max && 1 <= r.value.step <= MAX_INT
  {
    var part := Trim(text);
    if part == "" then None
    else
      match Cut(part, '/')
      case None => ParseBounds(part, 1, spec)
      case Some((base, stepText)) =>
        match Atoi(Trim(stepText))
        case None => None
        case Some(n) => if n <= 0 then None else ParseBounds(Trim(base), n, spec)
  }

  function ParseBounds(part: string, step: int, spec: FieldSpec): (r: Option<Range>)
    requires ValidSpec(spec) && 1 <= step <= MAX_INT
    ensures r.Some? ==> spec.min <= r.value.lo <= r.value.hi <= spec.max && r.value.step == step
  {
    if part == "*" || part == "?" then Some(Range(spec.min, spec.max, step))
    else
      match Cut(part, '-')
      case Some((a, b)) =>
        (match (ParseValue(a, spec), ParseValue(b, spec))
         case (Some(lo), Some(hi)) => if lo > hi then None else Some(Range(lo, hi, step))
         case _ => None)
      case None =>
        match ParseValue(part, spec)
        case None => None
        case Some(v) => Some(Range(v, if step > 1 then spec.max else v, step))
  }

  predicate Hits(r: Range, v: int) {
    r.lo <= v <= r.hi && r.step > 0 && (v - r.lo) % r.step == 0
  }

  /** Some entry of the field denotes v. */
  ghost predicate Denotes(field: string, spec: FieldSpec, v: int)
    requires ValidSpec(spec)
  {
    exists i :: 0 <= i < |Split(field, ',')|
      && ParseEntry(Split(field, ',')[i], spec).Some? && Hits(ParseEntry(Split(field, ',')[i], spec).value, v)
  }

  // ---- the loop over an entry, in 64-bit arithmetic ----

  /** v += step wraps round. */
  function Wrap(x: int): int {
    if x > MAX_INT then x - 2 * (MAX_INT + 1) else x
  }

  /** How far the step is from wrapping on its own. */
  function Slack(r: Range): int {
    MAX_INT + 1 - r.step
  }

  /** Values the loop comes back to after wrapping twice. */
  predicate Strays(r: Range, v: int) {
    0 <= v < r.lo && Slack(r) > 0 && (r.lo - v) % (2 * Slack(r)) == 0
  }

  /** The entry's step is small enough, or its start low enough, that the loop never returns to a legal bit. */
  predicate Tame(r: Range) {
    r.lo < 2 * Slack(r)
  }

  /** Exactly then does the loop set the bits the entry denotes and no other. */
  lemma TameIsExact(r: Range)
    requires 0 <= r.lo <= r.hi < 64 && 1 <= r.step <= MAX_INT
    ensures Tame(r) <==> forall v :: Hits(r, v) || Strays(r, v) <==> Hits(r, v)
  {
    var d := 2 * Slack(r);
    if Tame(r) {
      forall v ensures !Strays(r, v) {
        if Strays(r, v) { Multiple(r.lo - v, d); }
      }
    } else {
      var v := r.lo - d;
      OneMultiple(d);
      assert Strays(r, v) && !Hits(r, v);
    }
  }

  lemma Multiple(x: int, d: int)
    requires 0 < x && 0 < d && x % d == 0
    ensures x >= d
  {}

  lemma OneMultiple(d: int)
    requires d > 0
    ensures d % d == 0
  {}

  const HUGE := "3/9223372036854775807"

  /** A minute entry from 3 in steps of 2^63 - 1 denotes minute 3 and no other, and also sets bit 1. */
  lemma HugeStepStrays()
    ensures ParseEntry(HUGE, MINUTE).Some?
    ensures var r := ParseEntry(HUGE, MINUTE).value; Strays(r, 1) && forall v :: Hits(r, v) <==> v == 3
  {
    HugeStepParses();
    hide ParseEntry;
    var r := ParseEntry(HUGE, MINUTE).value;
    forall v ensures Hits(r, v) <==> v == 3 { FarApart(v - 3); }
  }

  lemma FarApart(x: int)
    ensures -3 <= x <= 56 ==> (x % MAX_INT == 0 <==> x == 0)
  {}

  lemma HugeStepParses()
    ensures ParseEntry(HUGE, MINUTE) == Some(Range(3, 59, MAX_INT))
  {
    HugeValue();
    Three();
    HugeCut();
    hide Value, Digits, Index, ToLower, Cut, Trim;
    assert ParseValue("3", MINUTE) == Some(3);
  }

  lemma Three()
    ensures Trim("3") == "3" && ToLower("3") == "3" && Atoi("3") == Some(3) && Cut("3", '-') == None
  {}

  lemma HugeCut()
    ensures Trim(HUGE) == HUGE && Cut(HUGE, '/') == Some(("3", HUGE[2..])) && Trim(HUGE[2..]) == HUGE[2..]
  {
    hide Index, Trim, Cut;
    Trimmed(HUGE);
    Trimmed(HUGE[2..]);
    CutAt(HUGE, 1, '/');
    assert HUGE[..1] == "3";
  }

  lemma NextDigit(s: string, k: nat, n: nat)
    requires k < |s| && (forall i :: 0 <= i < |s| ==> '0' <= s[i] <= '9') && Value(s[..k]) == n
    ensures Value(s[..k + 1]) == n * 10 + Digit(s[k])
  {
    assert s[..k + 1][..k] == s[..k];
  }

  lemma NoDigits(s: string)
    requires s == ""
    ensures Value(s) == 0
  {}

  lemma HugeHead(s: string)
    requires s == "9223372036854775807"
    ensures Value(s[..10]) == 9223372036
  {
    hide Value;
    HugeStart(s);
    NextDigit(s, 5, 92233);
    NextDigit(s, 6, 922337);
    NextDigit(s, 7, 9223372);
    NextDigit(s, 8, 92233720);
    NextDigit(s, 9, 922337203);
  }

  lemma HugeStart(s: string)
    requires s == "9223372036854775807"
    ensures Value(s[..5]) == 92233
  {
    hide Value;
    NoDigits(s[..0]);
    NextDigit(s, 0, 0);
    NextDigit(s, 1, 9);
    NextDigit(s, 2, 92);
    NextDigit(s, 3, 922);
    NextDigit(s, 4, 9223);
  }

  lemma HugeTail(s: string)
    requires s == "9223372036854775807"
    ensures Value(s) == MAX_INT
  {
    hide Value;
    HugeHead(s);
    NextDigit(s, 10, 9223372036);
    NextDigit(s, 11, 92233720368);
    NextDigit(s, 12, 922337203685);
    NextDigit(s, 13, 9223372036854);
    NextDigit(s, 14, 92233720368547);
    NextDigit(s, 15, 922337203685477);
    NextDigit(s, 16, 9223372036854775);
    NextDigit(s, 17, 92233720368547758);
    NextDigit(s, 18, 922337203685477580);
    assert s[..19] == s;
  }

  lemma HugeValue()
    ensures Atoi(HUGE[2..]) == Some(MAX_INT)
  {
    var s := HUGE[2..];
    assert s == "9223372036854775807";
    HugeTail(s);
    hide Value;
    assert Digits(s);
    assert s[0] == '9' && Value(s) == MAX_INT;
  }

  ghost predicate Sets(mask: set<int>, before: set<int>, r: Range) {
    forall u :: u in mask <==> u in before || Hits(r, u) || Strays(r, u)
  }

  predicate Small(r: Range) {
    r.step < MAX_INT - 64
  }

  /** for v := lo; v <= hi; v += step { bits |= 1 << v }: a shift by 64 or more, or by a negative v, sets nothing. */
  method Sweep(r: Range, before: set<int>) returns (mask: set<int>)
    requires 0 <= r.lo <= r.hi < 64 && 1 <= r.step <= MAX_INT
    ensures Sets(mask, before, r)
  {
    hide Steady, Lapping, Sets;
    mask := before;
    var v := r.lo;
    Start(r, before);
    while v <= r.hi
      invariant if Small(r) then Steady(r, mask, before, v) else if v <= r.hi then Lapping(r, mask, before, v) else Sets(mask, before, r)
      decreases if v > r.hi then 0 else if Small(r) then r.hi - v + 1 else if v >= -65 then 3 * v + 200 else 3 * (v + MAX_INT + 1 + Slack(r)) + 199
    {
      ghost var was, u := mask, v;
      if 0 <= v < 64 {
        mask := mask + {v};
      }
      v := Wrap(v + r.step);
      if Small(r) {
        SteadyStep(r, was, before, u);
      } else {
        LappingStep(r, was, before, u);
      }
    }
    if Small(r) {
      SteadyEnd(r, mask, before, v);
    }
  }

  // ---- without wrapping ----

  /** Every hit below v is set, and v is the next candidate. */
  ghost predicate Steady(r: Range, mask: set<int>, before: set<int>, v: int) {
    && r.lo <= v && r.step > 0 && (v - r.lo) % r.step == 0
    && forall u :: u in mask <==> u in before || (u < v && Hits(r, u))
  }

  lemma Start(r: Range, before: set<int>)
    requires 0 <= r.lo <= r.hi < 64 && 1 <= r.step <= MAX_INT
    ensures if Small(r) then Steady(r, before, before, r.lo) else Lapping(r, before, before, r.lo)
  {}

  lemma SteadyStep(r: Range, mask: set<int>, before: set<int>, v: int)
    requires 0 <= r.lo <= v <= r.hi < 64 && 1 <= r.step && Small(r) && Steady(r, mask, before, v)
    ensures Wrap(v + r.step) == v + r.step && Steady(r, mask + {v}, before, v + r.step)
  {
    NextMultiple(v - r.lo, r.step);
    forall u ensures u in mask + {v} <==> u in before || (u < v + r.step && Hits(r, u)) {
      if Hits(r, u) && v <= u < v + r.step {
        SameMultiple(u - r.lo, v - r.lo, r.step);
      }
    }
  }

  lemma SteadyEnd(r: Range, mask: set<int>, before: set<int>, v: int)
    requires 0 <= r.lo <= r.hi < 64 && 1 <= r.step && Small(r) && Steady(r, mask, before, v) && v > r.hi
    ensures Sets(mask, before, r)
  {
    TameIsExact(r);
  }

  // ---- with a step that wraps ----

  /** lo, lo - 2 * slack, lo - 4 * slack, ... down to 0 */
  predicate Comb(r: Range, u: int) {
    0 <= u <= r.lo && Slack(r) > 0 && (r.lo - u) % (2 * Slack(r)) == 0
  }

  /** v is a tooth of the comb or just below zero, or it is one wrap away from the tooth x. */
  ghost predicate Lapping(r: Range, mask: set<int>, before: set<int>, v: int) {
    var x := if v >= -65 then v else v + MAX_INT + 1 + Slack(r);
    && Slack(r) > 0 && x <= r.lo && (r.lo - x) % (2 * Slack(r)) == 0
    && (v < -65 ==> x >= Slack(r))
    && forall u :: u in mask <==> u in before || (Comb(r, u) && if v >= -65 then u > x else u >= x)
  }

  lemma CombIsSet(r: Range, u: int)
    requires 0 <= r.lo <= r.hi < 64 && 1 <= r.step <= MAX_INT && !Small(r)
    ensures Comb(r, u) <==> Hits(r, u) || Strays(r, u)
  {
    if Hits(r, u) && u != r.lo {
      SameMultiple(u - r.lo, 0, r.step);
    }
    ZeroMultiple(2 * Slack(r));
    ZeroMultiple(r.step);
  }

  lemma ZeroMultiple(d: int)
    requires d > 0
    ensures 0 % d == 0
  {}

  lemma LappingStep(r: Range, mask: set<int>, before: set<int>, v: int)
    requires 0 <= r.lo <= r.hi < 64 && 1 <= r.step <= MAX_INT && !Small(r) && v <= r.hi && Lapping(r, mask, before, v)
    ensures var next, after := Wrap(v + r.step), if 0 <= v < 64 then mask + {v} else mask;
      && (if next <= r.hi then Lapping(r, after, before, next) else Sets(after, before, r))
      && (next <= r.hi ==> if v >= -65 then next == v - Slack(r) - MAX_INT - 1 && v >= Slack(r)
                           else next == v + MAX_INT + 1 - Slack(r) && next >= -65)
  {
    var d := 2 * Slack(r);
    var after := if 0 <= v < 64 then mask + {v} else mask;
    if v < -65 {
      FromAway(r, mask, before, v);
    } else if v >= Slack(r) {
      FromHome(r, mask, before, v);
    } else {
      forall u ensures u in after <==> u in before || Hits(r, u) || Strays(r, u) {
        CombIsSet(r, u);
        if Comb(r, u) && u < v { SameMultiple(r.lo - u, r.lo - v, d); }
      }
    }
  }

  lemma FromHome(r: Range, mask: set<int>, before: set<int>, v: int)
    requires 0 <= r.lo <= r.hi < 64 && 1 <= r.step <= MAX_INT && !Small(r)
    requires Slack(r) <= v <= r.hi && Lapping(r, mask, before, v)
    ensures Wrap(v + r.step) == v - Slack(r) - MAX_INT - 1 && Lapping(r, mask + {v}, before, Wrap(v + r.step))
  {}

  lemma FromAway(r: Range, mask: set<int>, before: set<int>, v: int)
    requires 0 <= r.lo <= r.hi < 64 && 1 <= r.step <= MAX_INT && !Small(r)
    requires v < -65 && Lapping(r, mask, before, v)
    ensures Wrap(v + r.step) == v + MAX_INT + 1 - Slack(r) >= -65 && Lapping(r, mask, before, Wrap(v + r.step))
  {
    var d := 2 * Slack(r);
    var x := v + MAX_INT + 1 + Slack(r);
    NextMultiple(r.lo - x, d);
    forall u ensures Comb(r, u) && u > x - d ==> u >= x {
      if Comb(r, u) && x - d < u < x { SameMultiple(r.lo - u, r.lo - x, d); }
    }
  }
}
