/** The hash-chained audit log, over any hash function and any storage. */
module AuditChain {
  import opened Options
  import opened Sequences
  import T = Text

  const SEP := '\U{1F}'

  datatype Event = Event(id: string, actorType: string, actorId: Option<string>, actorName: string, action: string,
                         resourceType: string, resourceId: Option<string>, resourceName: string, outcome: string,
                         ipAddress: string, userAgent: string, sessionId: Option<string>, occurredAt: string,
                         detail: string)

  datatype Record = Record(seqNo: nat, tenant: string, event: Event, prevHash: string, hash: string)

  /** A missing identifier hashes as the empty string. */
  function IdText(id: Option<string>): string {
    match id
    case None => ""
    case Some(s) => s
  }

  /** The hashed fields in their on-disk order, but for the detail. */
  function Fields(r: Record): seq<string> {
    [r.prevHash, r.event.id, r.tenant, r.event.actorType, IdText(r.event.actorId), r.event.actorName, r.event.action,
     r.event.resourceType, IdText(r.event.resourceId), r.event.resourceName, r.event.outcome, r.event.ipAddress,
     r.event.userAgent, IdText(r.event.sessionId), r.event.occurredAt]
  }

  /** Each field followed by a separator. */
  function Separated(fields: seq<string>): string {
    if fields == [] then "" else fields[0] + [SEP] + Separated(fields[1..])
  }

  function Encoded(r: Record): string {
    Separated(Fields(r)) + r.event.detail
  }

  function OrEmpty(id: Option<string>): string {
    if id.Some? then id.value else ""
  }

  /** The bytes are these sixteen texts with the unit separator between them. */
  lemma EncodedIs(r: Record)
    ensures var e := r.event;
      Encoded(r) == T.Join([r.prevHash, e.id, r.tenant, e.actorType, OrEmpty(e.actorId), e.actorName, e.action,
                            e.resourceType, OrEmpty(e.resourceId), e.resourceName, e.outcome, e.ipAddress, e.userAgent,
                            OrEmpty(e.sessionId), e.occurredAt, e.detail], '\U{1F}')
  {
    SeparatedIsJoined(Fields(r), r.event.detail);
    hide T.Join, Separated;
    var e := r.event;
    assert Fields(r) + [e.detail] ==
      [r.prevHash, e.id, r.tenant, e.actorType, OrEmpty(e.actorId), e.actorName, e.action, e.resourceType,
       OrEmpty(e.resourceId), e.resourceName, e.outcome, e.ipAddress, e.userAgent, OrEmpty(e.sessionId), e.occurredAt,
       e.detail];
  }

  lemma {:induction false} SeparatedIsJoined(fields: seq<string>, last: string)
    ensures Separated(fields) + last == T.Join(fields + [last], SEP)
  {
    if fields == [] {
      assert [] + [last] == [last];
    } else {
      var rest := fields[1..];
      SeparatedIsJoined(rest, last);
      assert (fields + [last])[1..] == rest + [last];
      Assoc(fields[0] + [SEP], Separated(rest), last);
    }
  }

  ghost predicate Clean(fields: seq<string>) {
    forall i :: 0 <= i < |fields| ==> SEP !in fields[i]
  }

  /** Identifiers present are not empty, and no field holds the separator. */
  ghost predicate WellFormed(r: Record) {
    && Clean(Fields(r))
    && r.event.actorId != Some("") && r.event.resourceId != Some("") && r.event.sessionId != Some("")
  }

  ghost predicate Injective(hash: string -> string) {
    forall x, y :: hash(x) == hash(y) ==> x == y
  }

  ghost predicate Ideal(hash: string -> string) {
    Injective(hash) && forall x :: hash(x) != ""
  }

  // ---- what the hash covers ----

  lemma {:induction false} SeparatorAt(a: string, x: string)
    requires SEP !in a
    ensures T.Index(a + [SEP] + x, SEP) == |a|
  {
    if a != "" {
      SeparatorAt(a[1..], x);
      assert (a + [SEP] + x)[1..] == a[1..] + [SEP] + x;
    }
  }

  lemma FirstSeparator(a: string, b: string, x: string, y: string)
    requires SEP !in a && SEP !in b && a + [SEP] + x == b + [SEP] + y
    ensures a == b && x == y
  {
    SeparatorAt(a, x);
    SeparatorAt(b, y);
    var s := a + [SEP] + x;
    assert s[..|a|] == a && s[..|b|] == b;
    assert s[|a| + 1..] == x && s[|b| + 1..] == y;
  }

  /** The separators make the encoding of a fixed number of fields unambiguous, whatever follows. */
  lemma {:induction false} SeparatedIsInjective(f: seq<string>, g: seq<string>, x: string, y: string)
    requires |f| == |g| && Clean(f) && Clean(g) && Separated(f) + x == Separated(g) + y
    ensures f == g && x == y
  {
    if f != [] {
      Assoc(f[0] + [SEP], Separated(f[1..]), x);
      Assoc(g[0] + [SEP], Separated(g[1..]), y);
      FirstSeparator(f[0], g[0], Separated(f[1..]) + x, Separated(g[1..]) + y);
      SeparatedIsInjective(f[1..], g[1..], x, y);
      assert f == [f[0]] + f[1..] && g == [g[0]] + g[1..];
    } else {
      assert Separated(f) + x == x && Separated(g) + y == y;
    }
  }

  /** Two records with the same encoding agree on every hashed field. */
  lemma EncodingIsInjective(r: Record, s: Record)
    requires WellFormed(r) && WellFormed(s) && Encoded(r) == Encoded(s)
    ensures r.prevHash == s.prevHash && r.tenant == s.tenant && r.event == s.event
  {
    SeparatedIsInjective(Fields(r), Fields(s), r.event.detail, s.event.detail);
    hide Separated;
    var f, g := Fields(r), Fields(s);
    assert f[0] == g[0] && f[1] == g[1] && f[2] == g[2] && f[3] == g[3] && f[4] == g[4] && f[5] == g[5] && f[6] == g[6]
      && f[7] == g[7] && f[8] == g[8] && f[9] == g[9] && f[10] == g[10] && f[11] == g[11] && f[12] == g[12]
      && f[13] == g[13] && f[14] == g[14];
  }

  // ---- chains ----

  /** What the next record must link to. */
  function Head(chain: seq<Record>): string {
    if chain == [] then "" else chain[|chain| - 1].hash
  }

  ghost predicate Sound(chain: seq<Record>, k: nat, hash: string -> string)
    requires k < |chain|
  {
    chain[k].prevHash == Head(chain[..k]) && chain[k].hash == hash(Encoded(chain[k]))
  }

  ghost predicate Intact(chain: seq<Record>, hash: string -> string) {
    forall k :: 0 <= k < |chain| ==> Sound(chain, k, hash)
  }

  /**
   Two intact chains that end in the same hash are the same history: as many records, and the
   same content in each. Nothing before the head can be edited, removed, reordered or inserted.
   */
  lemma {:induction false} HeadFixesHistory(a: seq<Record>, b: seq<Record>, hash: string -> string)
    requires Ideal(hash) && Intact(a, hash) && Intact(b, hash) && Head(a) == Head(b)
    requires forall k :: 0 <= k < |a| ==> WellFormed(a[k])
    requires forall k :: 0 <= k < |b| ==> WellFormed(b[k])
    ensures |a| == |b|
    ensures forall k :: 0 <= k < |a| ==>
      a[k].event == b[k].event && a[k].tenant == b[k].tenant && a[k].prevHash == b[k].prevHash && a[k].hash == b[k].hash
  {
    hide Encoded, WellFormed;
    HeadIsHash(a, hash);
    HeadIsHash(b, hash);
    if a != [] && b != [] {
      var m, n := |a| - 1, |b| - 1;
      assert Sound(a, m, hash) && Sound(b, n, hash);
      EncodingIsInjective(a[m], b[n]);
      PrefixIsIntact(a, hash);
      PrefixIsIntact(b, hash);
      HeadFixesHistory(a[..m], b[..n], hash);
    }
  }

  /** Only the empty chain ends in the empty hash. */
  lemma HeadIsHash(chain: seq<Record>, hash: string -> string)
    requires Ideal(hash) && Intact(chain, hash)
    ensures Head(chain) == "" <==> chain == []
  {
    hide Encoded;
    if chain != [] { assert Sound(chain, |chain| - 1, hash); }
  }

  lemma PrefixIsIntact(chain: seq<Record>, hash: string -> string)
    requires chain != [] && Intact(chain, hash)
    ensures Intact(chain[..|chain| - 1], hash)
  {
    hide Encoded;
    var n := |chain| - 1;
    forall k | 0 <= k < n ensures Sound(chain[..n], k, hash) {
      assert Sound(chain, k, hash) && chain[..n][..k] == chain[..k];
    }
  }

  // ---- the table ----

  function ChainOf(rows: seq<Record>, tenant: string): seq<Record> {
    if rows == [] then []
    else
      var r := rows[|rows| - 1];
      ChainOf(rows[..|rows| - 1], tenant) + if r.tenant == tenant then [r] else []
  }

  /** The chain is the rows at these places, and no other row is the tenant's. */
  ghost predicate Lists(chain: seq<Record>, rows: seq<Record>, tenant: string, at: seq<nat>) {
    && |at| == |chain|
    && (forall k :: 0 <= k < |at| ==> at[k] < |rows| && chain[k] == rows[at[k]])
    && (forall j, k :: 0 <= j < k < |at| ==> at[j] < at[k])
    && (forall i :: 0 <= i < |rows| ==> (rows[i].tenant == tenant <==> i in at))
  }

  lemma ListsOneMore(chain: seq<Record>, rows: seq<Record>, tenant: string, at: seq<nat>, r: Record)
    requires Lists(chain, rows, tenant, at)
    ensures if r.tenant == tenant then Lists(chain + [r], rows + [r], tenant, at + [|rows|])
      else Lists(chain, rows + [r], tenant, at)
  {
    if r.tenant == tenant {
      var longer := at + [|rows|];
      assert forall i :: i in longer <==> i in at || i == |rows|;
    } else {
      assert |rows| !in at;
    }
  }

  /** A tenant's chain is its rows, each once and in the order of the table. */
  lemma {:induction false} ChainLists(rows: seq<Record>, tenant: string) returns (at: seq<nat>)
    ensures Lists(ChainOf(rows, tenant), rows, tenant, at)
  {
    if rows == [] {
      at := [];
    } else {
      var n := |rows| - 1;
      at := ChainLists(rows[..n], tenant);
      ListsOneMore(ChainOf(rows[..n], tenant), rows[..n], tenant, at, rows[n]);
      assert rows[..n] + [rows[n]] == rows;
      hide Lists;
      at := if rows[n].tenant == tenant then at + [n] else at;
    }
  }

  /** What the next record links to, told of the table: the hash of the tenant's last row, or nothing if it has none. */
  ghost predicate LinksToLast(rows: seq<Record>, tenant: string, h: string) {
    if forall i :: 0 <= i < |rows| ==> rows[i].tenant != tenant then h == ""
    else exists i :: 0 <= i < |rows| && rows[i].tenant == tenant && h == rows[i].hash
                     && forall j :: i < j < |rows| ==> rows[j].tenant != tenant
  }

  lemma HeadIsLastRow(rows: seq<Record>, tenant: string)
    ensures LinksToLast(rows, tenant, Head(ChainOf(rows, tenant)))
  {
    hide ChainOf;
    var at := ChainLists(rows, tenant);
    var chain := ChainOf(rows, tenant);
    if chain == [] {
      assert forall i :: 0 <= i < |rows| ==> i !in at;
    } else {
      var i := at[|at| - 1];
      assert i in at && rows[i].tenant == tenant;
      forall j | i < j < |rows| ensures rows[j].tenant != tenant {
        if j in at {
          var k :| 0 <= k < |at| && at[k] == j;
          assert false;
        }
      }
    }
  }

  const DEFAULT_TENANT := "00000000-0000-0000-0000-000000000001"

  /** No tenant stands for the default one. */
  function TenantOf(tenant: string): string {
    if tenant == "" then DEFAULT_TENANT else tenant
  }

  function WithDefaults(e: Event): Event {
    e.(actorType := if e.actorType == "" then "system" else e.actorType,
       outcome := if e.outcome == "" then "success" else e.outcome,
       detail := if e.detail == "" then "{}" else e.detail)
  }

  // ---- storage ----

  /**
   What the database makes of an address and of a detail: the text it gives back, or none if it
   refuses the value. An address is stored as a network address and printed again; a detail goes
   through binary JSON and the decoder, and is encoded again. Any other text is given back as it
   is, unless it is refused (it holds a zero byte, or is not valid in the database's encoding).
   */
  datatype Storage = Storage(inet: string -> Option<string>, json: string -> Option<string>, text: string -> bool)

  /** The text columns take their values, and the checks of the table hold. */
  predicate Columns(st: Storage, e: Event) {
    && e.actorType in {"user", "api_token", "system", "scheduler"} && e.outcome in {"success", "failure", "denied"}
    && st.text(e.actorName) && st.text(e.action) && st.text(e.resourceType) && st.text(e.resourceName)
    && st.text(e.userAgent)
  }

  function ReadBack(st: Storage, e: Event): Option<Event> {
    var ip, detail := if e.ipAddress == "" then Some("") else st.inet(e.ipAddress), st.json(e.detail);
    if !Columns(st, e) || ip.None? || detail.None? then None
    else Some(e.(ipAddress := ip.value, detail := detail.value))
  }

  /** The event is inserted; without an action, or with a value the database refuses, it is not. */
  predicate Accepted(st: Storage, event: Event) {
    event.action != "" && ReadBack(st, WithDefaults(event)).Some?
  }

  /** What an event adds to the bytes hashed, whatever it is chained to. */
  function Body(tenant: string, e: Event): string {
    Separated(Fields(Record(0, tenant, e, "", ""))[1..]) + e.detail
  }

  /** Encoding the event as it reads back gives the same bytes as encoding it as sent. */
  predicate Survives(st: Storage, tenant: string, event: Event) {
    var e := WithDefaults(event);
    var back := ReadBack(st, e);
    back.Some? && Body(tenant, back.value) == Body(tenant, e)
  }

  lemma EncodedBody(r: Record)
    ensures Encoded(r) == r.prevHash + [SEP] + Body(r.tenant, r.event)
  {
    hide Separated;
    var rest := Separated(Fields(r)[1..]);
    assert Fields(Record(0, r.tenant, r.event, "", ""))[1..] == Fields(r)[1..];
    assert Separated(Fields(r)) == r.prevHash + [SEP] + rest by { FirstField(Fields(r)); }
    Assoc(r.prevHash + [SEP], rest, r.event.detail);
  }

  lemma FirstField(fields: seq<string>)
    requires fields != []
    ensures Separated(fields) == fields[0] + [SEP] + Separated(fields[1..])
  {}

  /** Whatever they are chained to, two events of a tenant hash alike exactly if their bytes are the same. */
  lemma SameBytes(r: Record, e: Event)
    ensures Encoded(r.(event := e)) == Encoded(r) <==> Body(r.tenant, e) == Body(r.tenant, r.event)
  {
    EncodedBody(r);
    EncodedBody(r.(event := e));
    hide Encoded, Body;
    var front := r.prevHash + [SEP];
    assert (front + Body(r.tenant, e))[|front|..] == Body(r.tenant, e);
    assert (front + Body(r.tenant, r.event))[|front|..] == Body(r.tenant, r.event);
  }

  /** With no separator in its fields, an event survives exactly if its address and its detail do. */
  lemma SurvivesExactly(st: Storage, tenant: string, event: Event)
    requires Accepted(st, event)
    requires var e := WithDefaults(event);
      Clean(Fields(Record(0, tenant, e, "", ""))) && Clean(Fields(Record(0, tenant, ReadBack(st, e).value, "", "")))
    ensures var e := WithDefaults(event); var back := ReadBack(st, e).value;
      Survives(st, tenant, event) <==> back.ipAddress == e.ipAddress && back.detail == e.detail
  {
    var e := WithDefaults(event);
    var back := ReadBack(st, e).value;
    var f, g := Fields(Record(0, tenant, e, "", ""))[1..], Fields(Record(0, tenant, back, "", ""))[1..];
    if Survives(st, tenant, event) {
      SeparatedIsInjective(f, g, e.detail, back.detail);
      assert f[10] == e.ipAddress && g[10] == back.ipAddress;
    }
  }

  // ---- what a sequence of appends leaves in the table ----

  datatype Entry = Entry(tenant: string, event: Event)

  /** The record as it is hashed and returned to the caller. */
  function Made(hash: string -> string, rows: seq<Record>, x: Entry): Record {
    var t := TenantOf(x.tenant);
    var rec := Record(|rows| + 1, t, WithDefaults(x.event), Head(ChainOf(rows, t)), "");
    rec.(hash := hash(Encoded(rec)))
  }

  /** The rows as they read back after these appends to an empty table. */
  function Table(hash: string -> string, st: Storage, entries: seq<Entry>): seq<Record> {
    if entries == [] then []
    else
      var n := |entries| - 1;
      var rows := Table(hash, st, entries[..n]);
      if !Accepted(st, entries[n].event) then rows
      else rows + [Made(hash, rows, entries[n]).(event := ReadBack(st, WithDefaults(entries[n].event)).value)]
  }

  /**
   A log that nobody has touched verifies exactly when every event it accepted for the tenant
   survives being stored. Nothing but the event decides it, so it can be known before appending.
   */
  lemma {:induction false} UntouchedVerifies(hash: string -> string, st: Storage, entries: seq<Entry>, tenant: string)
    requires Injective(hash)
    ensures Intact(ChainOf(Table(hash, st, entries), tenant), hash) <==>
      forall i :: 0 <= i < |entries| && TenantOf(entries[i].tenant) == tenant && Accepted(st, entries[i].event) ==>
        Survives(st, tenant, entries[i].event)
  {
    if entries != [] {
      var n := |entries| - 1;
      var rows := Table(hash, st, entries[..n]);
      UntouchedVerifies(hash, st, entries[..n], tenant);
      if Accepted(st, entries[n].event) { OneMore(hash, st, rows, entries[n], tenant); }
      LastEntry(st, entries, tenant);
    }
  }

  lemma LastEntry(st: Storage, entries: seq<Entry>, tenant: string)
    requires entries != []
    ensures var n := |entries| - 1;
      (forall i :: 0 <= i < |entries| && TenantOf(entries[i].tenant) == tenant && Accepted(st, entries[i].event) ==>
          Survives(st, tenant, entries[i].event))
      <==>
      && (forall i :: 0 <= i < n && TenantOf(entries[..n][i].tenant) == tenant && Accepted(st, entries[..n][i].event) ==>
            Survives(st, tenant, entries[..n][i].event))
      && (TenantOf(entries[n].tenant) == tenant && Accepted(st, entries[n].event) ==> Survives(st, tenant, entries[n].event))
  {
    hide Survives, Accepted, TenantOf;
    assert forall i :: 0 <= i < |entries| - 1 ==> entries[..|entries| - 1][i] == entries[i];
  }

  lemma OneMore(hash: string -> string, st: Storage, rows: seq<Record>, x: Entry, tenant: string)
    requires Injective(hash) && Accepted(st, x.event)
    ensures var row := Made(hash, rows, x).(event := ReadBack(st, WithDefaults(x.event)).value);
      Intact(ChainOf(rows + [row], tenant), hash) <==>
        Intact(ChainOf(rows, tenant), hash) && (TenantOf(x.tenant) == tenant ==> Survives(st, tenant, x.event))
  {
    var made := Made(hash, rows, x);
    var row := made.(event := ReadBack(st, WithDefaults(x.event)).value);
    ChainGrows(rows, row, tenant);
    if row.tenant == tenant {
      var rec := made.(hash := "");
      HashIsNotHashed(rec, made.hash);
      HashIsNotHashed(rec.(event := row.event), made.hash);
      SameBytes(rec, row.event);
      hide Encoded, Body;
      Extends(ChainOf(rows, tenant), row, hash);
    }
  }

  ghost predicate Linked(chain: seq<Record>) {
    forall k :: 0 <= k < |chain| ==> chain[k].prevHash == Head(chain[..k])
  }

  /** Records link to their predecessors as they were written, whatever became of their content. */
  lemma {:induction false} LinksHold(hash: string -> string, st: Storage, entries: seq<Entry>, tenant: string)
    ensures Linked(ChainOf(Table(hash, st, entries), tenant))
  {
    hide Encoded, Linked, ReadBack;
    if entries == [] {
      NoLinks();
    } else {
      var n := |entries| - 1;
      var rows := Table(hash, st, entries[..n]);
      LinksHold(hash, st, entries[..n], tenant);
      if Accepted(st, entries[n].event) {
        var row := Made(hash, rows, entries[n]).(event := ReadBack(st, WithDefaults(entries[n].event)).value);
        ChainGrows(rows, row, tenant);
        if row.tenant == tenant { OneLink(ChainOf(rows, tenant), row); }
      }
    }
  }

  lemma NoLinks()
    ensures Linked([])
  {}

  lemma OneLink(chain: seq<Record>, r: Record)
    requires Linked(chain) && r.prevHash == Head(chain)
    ensures Linked(chain + [r])
  {
    var longer := chain + [r];
    forall k | 0 <= k < |longer| ensures longer[k].prevHash == Head(longer[..k]) {
      assert longer[..k] == chain[..k];
      if k == |chain| { assert chain[..k] == chain; }
    }
  }

  // ---- the log ----

  datatype Reason = BadLink | Edited

  /** checked counts the records read; brokenAt is the sequence number of the first bad one. */
  datatype Report = Whole(checked: nat) | Broken(checked: nat, brokenAt: nat, reason: Reason)

  class Log {
    const hash: string -> string
    const st: Storage
    /** The table, each row as it reads back. */
    var rows: seq<Record>
    ghost var entries: seq<Entry>

    /** Nobody but Append has written to the table. */
    ghost predicate Untouched()
      reads this
    {
      rows == Table(hash, st, entries)
    }

    constructor (hash: string -> string, st: Storage)
      ensures Untouched() && rows == [] && entries == [] && this.hash == hash && this.st == st
    {
      this.hash, this.st := hash, st;
      rows, entries := [], [];
    }

    /** Appends to the tenant's chain; refused without an action, or when the insert is. */
    method Append(tenant: string, event: Event) returns (r: Option<Record>)
      modifies this
      ensures old(Untouched()) ==> Untouched()
      ensures entries == old(entries) + [Entry(tenant, event)]
      ensures r.None? <==> !Accepted(st, event)
      ensures r.None? ==> rows == old(rows)
      ensures r.None? <==>
        || event.action == "" || event.actorType !in {"", "user", "api_token", "system", "scheduler"}
        || event.outcome !in {"", "success", "failure", "denied"}
        || !st.text(event.actorName) || !st.text(event.action) || !st.text(event.resourceType)
        || !st.text(event.resourceName) || !st.text(event.userAgent)
        || (event.ipAddress != "" && st.inet(event.ipAddress).None?)
        || st.json(if event.detail == "" then "{}" else event.detail).None?
      ensures r.Some? ==>
        && r.value.tenant == TenantOf(tenant) && r.value.event == WithDefaults(event) && r.value.seqNo == |old(rows)| + 1
        && r.value.prevHash == Head(ChainOf(old(rows), TenantOf(tenant))) && r.value.hash == hash(Encoded(r.value))
        && rows == old(rows) + [r.value.(event := ReadBack(st, WithDefaults(event)).value)]
      ensures r.Some? ==>
        && r.value.tenant == (if tenant == "" then "00000000-0000-0000-0000-000000000001" else tenant)
        && LinksToLast(old(rows), r.value.tenant, r.value.prevHash)
      ensures r.Some? ==> var e := r.value.event;
        && e.actorType == (if event.actorType == "" then "system" else event.actorType)
        && e.outcome == (if event.outcome == "" then "success" else event.outcome)
        && e.detail == (if event.detail == "" then "{}" else event.detail)
        && e == event.(actorType := e.actorType, outcome := e.outcome, detail := e.detail)
      ensures r.Some? ==> var e := r.value.event;
        && e.action != "" && e.actorType in {"user", "api_token", "system", "scheduler"}
        && e.outcome in {"success", "failure", "denied"}
        && rows[|rows| - 1] == r.value.(event := e.(
            ipAddress := if e.ipAddress == "" then "" else rows[|rows| - 1].event.ipAddress,
            detail := rows[|rows| - 1].event.detail))
        && (e.ipAddress != "" ==> st.inet(e.ipAddress) == Some(rows[|rows| - 1].event.ipAddress))
        && st.json(e.detail) == Some(rows[|rows| - 1].event.detail)
    {
      hide Encoded, Fields;
      entries := entries + [Entry(tenant, event)];
      assert entries[..|entries| - 1] == old(entries);
      var e, t := WithDefaults(event), TenantOf(tenant);
      if e.action == "" {
        return None;
      }
      var rec := Record(|rows| + 1, t, e, Head(ChainOf(rows, t)), "");
      HashIsNotHashed(rec, hash(Encoded(rec)));
      rec := rec.(hash := hash(Encoded(rec)));
      var back := ReadBack(st, e);
      if back.None? {
        return None;
      }
      HeadIsLastRow(rows, t);
      hide ChainOf, Head, LinksToLast;
      rows := rows + [rec.(event := back.value)];
      return Some(rec);
    }

    /** Walks the tenant's chain from the start, as it reads back, and stops at the first record that does not hold. */
    method Verify(tenant: string) returns (report: Report)
      ensures var chain := ChainOf(rows, TenantOf(tenant));
        match report
        case Whole(checked) => Intact(chain, hash) && checked == |chain|
        case Broken(checked, brokenAt, reason) =>
          && 0 < checked <= |chain| && brokenAt == chain[checked - 1].seqNo
          && !Sound(chain, checked - 1, hash) && Intact(chain[..checked - 1], hash)
          && (reason == BadLink <==> chain[checked - 1].prevHash != Head(chain[..checked - 1]))
    {
      hide Encoded;
      var chain := ChainOf(rows, TenantOf(tenant));
      var expectedPrev := "";
      for i := 0 to |chain|
        invariant expectedPrev == Head(chain[..i])
        invariant forall k :: 0 <= k < i ==> Sound(chain, k, hash)
      {
        var rec := chain[i];
        if rec.prevHash != expectedPrev {
          Before(chain, i, hash);
          return Broken(i + 1, rec.seqNo, BadLink);
        }
        if hash(Encoded(rec)) != rec.hash {
          Before(chain, i, hash);
          return Broken(i + 1, rec.seqNo, Edited);
        }
        expectedPrev := rec.hash;
      }
      return Whole(|chain|);
    }
  }

  lemma HashIsNotHashed(r: Record, h: string)
    ensures Encoded(r.(hash := h)) == Encoded(r)
  {}

  lemma ChainGrows(rows: seq<Record>, r: Record, tenant: string)
    ensures ChainOf(rows + [r], tenant) == if r.tenant == tenant then ChainOf(rows, tenant) + [r] else ChainOf(rows, tenant)
  {
    assert (rows + [r])[..|rows|] == rows;
  }

  /** A record that links to the head is sound exactly if its hash is that of its content. */
  lemma Extends(chain: seq<Record>, r: Record, hash: string -> string)
    requires r.prevHash == Head(chain)
    ensures Intact(chain + [r], hash) <==> Intact(chain, hash) && r.hash == hash(Encoded(r))
  {
    hide Encoded;
    var longer := chain + [r];
    assert longer[..|chain|] == chain;
    forall k | 0 <= k < |chain| ensures Sound(longer, k, hash) == Sound(chain, k, hash) {
      assert longer[..k] == chain[..k];
    }
    if Intact(longer, hash) {
      assert Sound(longer, |chain|, hash);
      forall k | 0 <= k < |chain| ensures Sound(chain, k, hash) { assert Sound(longer, k, hash); }
    }
  }

  lemma Before(chain: seq<Record>, i: nat, hash: string -> string)
    requires i <= |chain| && forall k :: 0 <= k < i ==> Sound(chain, k, hash)
    ensures Intact(chain[..i], hash)
  {
    hide Encoded;
    forall k | 0 <= k < i ensures Sound(chain[..i], k, hash) {
      assert Sound(chain, k, hash) && chain[..i][..k] == chain[..k];
    }
  }

  /**
   Any sequence of appends to an empty log, then a check: the log is whole exactly when every
   event accepted for the tenant survives being stored, and otherwise an untouched record is
   reported as modified.
   */
  method WrittenLogVerifies(hash: string -> string, st: Storage, entries: seq<Entry>, tenant: string) returns (report: Report)
    requires Injective(hash)
    ensures report.Whole? <==>
      forall i :: 0 <= i < |entries| && TenantOf(entries[i].tenant) == TenantOf(tenant) && Accepted(st, entries[i].event) ==>
        Survives(st, TenantOf(tenant), entries[i].event)
    ensures report.Broken? ==> report.reason == Edited
  {
    hide Table, ChainOf, TenantOf, Accepted, Survives, Sound, Intact, Head;
    var log := new Log(hash, st);
    for i := 0 to |entries|
      invariant log.Untouched() && log.hash == hash && log.st == st && log.entries == entries[..i]
    {
      var _ := log.Append(entries[i].tenant, entries[i].event);
      assert entries[..i + 1] == entries[..i] + [entries[i]];
    }
    assert entries[..|entries|] == entries;
    report := log.Verify(tenant);
    UntouchedVerifies(hash, st, entries, TenantOf(tenant));
    if report.Broken? { BrokenIsEdited(hash, st, entries, TenantOf(tenant), report.checked - 1); }
  }

  /** A record that is not sound breaks the chain, and not by its link. */
  lemma BrokenIsEdited(hash: string -> string, st: Storage, entries: seq<Entry>, tenant: string, k: nat)
    requires k < |ChainOf(Table(hash, st, entries), tenant)| && !Sound(ChainOf(Table(hash, st, entries), tenant), k, hash)
    ensures var chain := ChainOf(Table(hash, st, entries), tenant);
      !Intact(chain, hash) && chain[k].prevHash == Head(chain[..k])
  {
    LinksHold(hash, st, entries, tenant);
    hide Table, ChainOf, Head, Encoded;
    NotIntact(ChainOf(Table(hash, st, entries), tenant), k, hash);
  }


  lemma NotIntact(chain: seq<Record>, k: nat, hash: string -> string)
    requires k < |chain| && !Sound(chain, k, hash)
    ensures !Intact(chain, hash)
  {}

  // ---- events that do not survive ----

  function Login(ip: string, detail: string): Event {
    Event("id", "user", None, "", "auth.login", "", None, "", "success", ip, "", None, "", detail)
  }

  /** A forwarded IPv6 address in capitals, printed back in lower case: the next check calls the record modified. */
  lemma CapitalAddressBreaks(st: Storage, tenant: string)
    requires st.text("") && st.text("auth.login")
    requires st.inet("2001:DB8::1") == Some("2001:db8::1") && st.json("{}") == Some("{}")
    ensures Accepted(st, Login("2001:DB8::1", "")) && !Survives(st, tenant, Login("2001:DB8::1", ""))
  {
    var e := WithDefaults(Login("2001:DB8::1", ""));
    var back := ReadBack(st, e).value;
    assert back == Login("2001:db8::1", "{}") && e == Login("2001:DB8::1", "{}");
    BodyAt(tenant, e, back);
  }

  /** An integer a double cannot hold comes back as another number. */
  lemma BigIntegerBreaks(st: Storage, tenant: string)
    requires st.text("") && st.text("auth.login")
    requires st.json("{\"n\":9007199254740993}") == Some("{\"n\":9007199254740992}")
    ensures var event := Login("", "{\"n\":9007199254740993}"); Accepted(st, event) && !Survives(st, tenant, event)
  {
    var e := WithDefaults(Login("", "{\"n\":9007199254740993}"));
    var back := ReadBack(st, e).value;
    BodyAt(tenant, e, back);
    assert e.detail[|e.detail| - 2] != back.detail[|back.detail| - 2];
  }

  /** Two events that differ in an address or a detail of the same length differ in their bytes. */
  lemma BodyAt(tenant: string, e: Event, f: Event)
    requires f == e.(ipAddress := f.ipAddress, detail := f.detail)
    requires |f.ipAddress| == |e.ipAddress| && |f.detail| == |e.detail|
    ensures Body(tenant, e) == Body(tenant, f) ==> e.ipAddress == f.ipAddress && e.detail == f.detail
  {
    var x, y := Fields(Record(0, tenant, e, "", ""))[1..], Fields(Record(0, tenant, f, "", ""))[1..];
    SameLengths(x, y);
    hide Separated, Fields;
    if Body(tenant, e) == Body(tenant, f) {
      var n := |Separated(x)|;
      assert Body(tenant, e)[..n] == Separated(x) && Body(tenant, f)[..n] == Separated(y);
      assert Body(tenant, e)[n..] == e.detail && Body(tenant, f)[n..] == f.detail;
      SameFields(x, y);
      AddressField(tenant, e);
      AddressField(tenant, f);
    }
  }

  lemma AddressField(tenant: string, e: Event)
    ensures |Fields(Record(0, tenant, e, "", ""))| == 15 && Fields(Record(0, tenant, e, "", ""))[1..][10] == e.ipAddress
  {}

  ghost predicate Aligned(x: seq<string>, y: seq<string>) {
    |x| == |y| && forall i :: 0 <= i < |x| ==> |x[i]| == |y[i]|
  }

  lemma {:induction false} SameLengths(x: seq<string>, y: seq<string>)
    requires Aligned(x, y)
    ensures |Separated(x)| == |Separated(y)|
  {
    if x != [] { SameLengths(x[1..], y[1..]); }
  }

  lemma {:induction false} SameFields(x: seq<string>, y: seq<string>)
    requires Aligned(x, y) && Separated(x) == Separated(y)
    ensures x == y
  {
    if x != [] {
      var n := |x[0]|;
      assert Separated(x)[..n] == x[0] && Separated(y)[..n] == y[0];
      assert Separated(x)[n + 1..] == Separated(x[1..]) && Separated(y)[n + 1..] == Separated(y[1..]);
      SameFields(x[1..], y[1..]);
      assert x == [x[0]] + x[1..] && y == [y[0]] + y[1..];
    }
  }
}
