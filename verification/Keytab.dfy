/** The MIT keytab file format (partialvendor/gokrb5/keytab/keytab.go). */
module Keytab {
  import opened Collections
  import opened Utf8

  datatype Principal = Principal(num: int, realm: seq<Byte>, components: seq<seq<Byte>>, nameType: int)

  datatype Entry = Entry(
    principal: Principal, timestamp: int, kvno8: Byte, keyType: int, keyValue: seq<Byte>, kvno: int)

  datatype Order = Big | Little

  const FIRST_BYTE: Byte := 5
  const MIN32 := -0x8000_0000

  /** Version 1 uses the byte order of the machine. */
  function OrderOf(version: Byte, native: Order): Order {
    if version == 1 then native else Big
  }

  // Integers of 16 and 32 bits

  /** Octet k of u, from the least significant. */
  function Octet(u: nat, k: nat): Byte {
    if k == 0 then u % 256 else Octet(u / 256, k - 1)
  }

  /** uint16(x) and uint32(x). */
  function Uint16(x: int): (u: nat)
    ensures u < 0x1_0000
    ensures 0 <= x < 0x1_0000 ==> u == x
    ensures -0x8000 <= x < 0 ==> u == x + 0x1_0000
  {
    x % 0x1_0000
  }

  function Uint32(x: int): (u: nat)
    ensures u < 0x1_0000_0000
    ensures 0 <= x < 0x1_0000_0000 ==> u == x
    ensures MIN32 <= x < 0 ==> u == x + 0x1_0000_0000
  {
    x % 0x1_0000_0000
  }

  function Put16(x: int, order: Order): (b: seq<Byte>)
    ensures |b| == 2
  {
    var u := Uint16(x);
    if order == Big then [Octet(u, 1), Octet(u, 0)] else [Octet(u, 0), Octet(u, 1)]
  }

  function Put32(x: int, order: Order): (b: seq<Byte>)
    ensures |b| == 4
  {
    var u := Uint32(x);
    if order == Big then [Octet(u, 3), Octet(u, 2), Octet(u, 1), Octet(u, 0)]
    else [Octet(u, 0), Octet(u, 1), Octet(u, 2), Octet(u, 3)]
  }

  function Get16(b: seq<Byte>, p: nat, order: Order): (x: nat)
    requires p + 2 <= |b|
    ensures x < 0x1_0000
  {
    var first, second: int := b[p], b[p + 1];
    if order == Big then first * 256 + second else second * 256 + first
  }

  function Get32(b: seq<Byte>, p: nat, order: Order): (x: nat)
    requires p + 4 <= |b|
    ensures x < 0x1_0000_0000
  {
    if order == Big then Join(b[p], b[p + 1], b[p + 2], b[p + 3]) else Join(b[p + 3], b[p + 2], b[p + 1], b[p])
  }

  function Join(b3: int, b2: int, b1: int, b0: int): int {
    b3 * 0x100_0000 + b2 * 0x1_0000 + b1 * 256 + b0
  }

  /** int16(x) and int32(x). */
  function Int16(x: nat): (y: int)
    requires x < 0x1_0000
    ensures -0x8000 <= y < 0x8000
  {
    if x < 0x8000 then x else x - 0x1_0000
  }

  function Int32(x: nat): (y: int)
    requires x < 0x1_0000_0000
    ensures MIN32 <= y < 0x8000_0000
  {
    if x < 0x8000_0000 then x else x - 0x1_0000_0000
  }

  /** readInt16 and readInt32 at p. */
  function ReadInt16(b: seq<Byte>, p: nat, order: Order): (x: Option<int>)
    ensures x.Some? <==> p + 2 <= |b|
  {
    if p + 2 > |b| then None else Some(Int16(Get16(b, p, order)))
  }

  function ReadInt32(b: seq<Byte>, p: nat, order: Order): (x: Option<int>)
    ensures x.Some? <==> p + 4 <= |b|
    ensures x.Some? ==> MIN32 <= x.value < 0x8000_0000
  {
    if p + 4 > |b| then None else Some(Int32(Get32(b, p, order)))
  }

  /** readBytes at p. */
  function ReadBytes(b: seq<Byte>, p: nat, size: int): (x: Option<seq<Byte>>)
    ensures x.Some? <==> 0 <= size && p + size <= |b|
    ensures x.Some? ==> |x.value| == size
  {
    if size < 0 || p + size > |b| then None else Some(b[p..p + size])
  }

  // Writing

  /** marshalString. */
  function StringBytes(s: seq<Byte>, order: Order): seq<Byte> {
    Put16(|s|, order) + s
  }

  /** The components from i on. */
  function ComponentBytes(components: seq<seq<Byte>>, i: nat, order: Order): seq<Byte>
    requires i <= |components|
    decreases |components| - i
  {
    if i == |components| then []
    else StringBytes(components[i], order) + ComponentBytes(components, i + 1, order)
  }

  function NameTypeBytes(nameType: int, version: Byte, order: Order): seq<Byte> {
    if version == 1 then [] else Put32(nameType, order)
  }

  function PrincipalBytes(p: Principal, version: Byte, order: Order): seq<Byte> {
    Put16(p.num, order) +
    (StringBytes(p.realm, order) + (ComponentBytes(p.components, 0, order) + NameTypeBytes(p.nameType, version, order)))
  }

  /** What follows the principal. */
  function KeyBytes(e: Entry, order: Order): seq<Byte> {
    Put32(e.timestamp, order) + ([e.kvno8] + (Put16(e.keyType, order) +
    (StringBytes(e.keyValue, order) + Put32(e.kvno, order))))
  }

  function EntryBytes(e: Entry, version: Byte, order: Order): seq<Byte> {
    PrincipalBytes(e.principal, version, order) + KeyBytes(e, order)
  }

  function RecordBytes(e: Entry, version: Byte, order: Order): seq<Byte> {
    var b := EntryBytes(e, version, order);
    Put32(|b|, order) + b
  }

  function EntriesBytes(entries: seq<Entry>, i: nat, version: Byte, order: Order): seq<Byte>
    requires i <= |entries|
    decreases |entries| - i
  {
    if i == |entries| then []
    else RecordBytes(entries[i], version, order) + EntriesBytes(entries, i + 1, version, order)
  }

  function FileBytes(entries: seq<Entry>, version: Byte, native: Order): seq<Byte> {
    [FIRST_BYTE, version] + EntriesBytes(entries, 0, version, OrderOf(version, native))
  }

  /** principal.marshal. */
  method MarshalPrincipal(p: Principal, version: Byte, native: Order) returns (b: seq<Byte>)
    ensures b == PrincipalBytes(p, version, OrderOf(version, native))
  {
    var order := OrderOf(version, native);
    b := Put16(p.num, order);
    b := b + StringBytes(p.realm, order);
    ghost var head, all := b, ComponentBytes(p.components, 0, order);
    for i := 0 to |p.components|
      invariant b + ComponentBytes(p.components, i, order) == head + all
    {
      var cb := StringBytes(p.components[i], order);
      Append(b, cb, ComponentBytes(p.components, i + 1, order), head + all);
      b := b + cb;
    }
    assert b == head + all;
    if version != 1 {
      b := b + Put32(p.nameType, order);
    }
    assert b == head + (all + NameTypeBytes(p.nameType, version, order));
  }

  lemma {:induction false} Append(b: seq<Byte>, part: seq<Byte>, rest: seq<Byte>, all: seq<Byte>)
    requires b + (part + rest) == all
    ensures b + part + rest == all
  {
  }

  /** entry.marshal. */
  method MarshalEntry(e: Entry, version: Byte, native: Order) returns (b: seq<Byte>)
    ensures b == RecordBytes(e, version, OrderOf(version, native))
  {
    hide Octet, Put16, Uint32, PrincipalBytes;
    var order := OrderOf(version, native);
    b := MarshalPrincipal(e.principal, version, native);
    b := b + (Put32(e.timestamp, order) + [e.kvno8] + Put16(e.keyType, order) + Put16(|e.keyValue|, order));
    b := b + e.keyValue;
    b := b + Put32(e.kvno, order);
    assert b == EntryBytes(e, version, order);
    b := Put32(|b|, order) + b;
  }

  // Reading

  /** Where reading a part stopped, and whether it was all there. */
  datatype Cursor<T> = Cursor(value: T, p: nat, ok: bool)

  /** count components from p on; what was read before an error stays. */
  function ReadComponents(b: seq<Byte>, p: nat, count: int, order: Order): (c: Cursor<seq<seq<Byte>>>)
    decreases count
  {
    if count <= 0 then Cursor([], p, true)
    else if ReadInt16(b, p, order).None? then Cursor([], p, false)
    else
      var text := ReadBytes(b, p + 2, ReadInt16(b, p, order).value);
      if text.None? then Cursor([], p + 2, false)
      else
        var rest := ReadComponents(b, p + 2 + |text.value|, count - 1, order);
        Cursor([text.value] + rest.value, rest.p, rest.ok)
  }

  /** In version 1 the count includes the realm; int16 wraps around. */
  function CountOf(num: int, version: Byte): int {
    if version != 1 then num else if num == -0x8000 then 0x7FFF else num - 1
  }

  /** parsePrincipal: its caller goes on from where an error left the cursor. */
  function ReadPrincipal(b: seq<Byte>, version: Byte, order: Order): (c: Cursor<Principal>) {
    if ReadInt16(b, 0, order).None? then Cursor(Principal(0, [], [], 0), 0, false)
    else
      var num := CountOf(ReadInt16(b, 0, order).value, version);
      if ReadInt16(b, 2, order).None? then Cursor(Principal(num, [], [], 0), 2, false)
      else
        var realm := ReadBytes(b, 4, ReadInt16(b, 2, order).value);
        if realm.None? then Cursor(Principal(num, [], [], 0), 4, false)
        else
          var components := ReadComponents(b, 4 + |realm.value|, num, order);
          if !components.ok || version == 1 then
            Cursor(Principal(num, realm.value, components.value, 0), components.p, components.ok)
          else
            var nameType := ReadInt32(b, components.p, order);
            if nameType.None? then Cursor(Principal(num, realm.value, components.value, 0), components.p, false)
            else Cursor(Principal(num, realm.value, components.value, nameType.value), components.p + 4, true)
  }

  /** The 32-bit key version, if it is there and not zero, overrides the 8-bit one. */
  function ReadKvno(b: seq<Byte>, p: nat, kvno8: Byte, order: Order): nat {
    if p + 4 <= |b| && Get32(b, p, order) != 0 then Get32(b, p, order) else kvno8
  }

  /** The fields after the principal. */
  function ReadKey(b: seq<Byte>, p: nat, principal: Principal, order: Order): (e: Option<Entry>) {
    if p + 9 > |b| then None
    else
      var keyValue := ReadBytes(b, p + 9, ReadInt16(b, p + 7, order).value);
      if keyValue.None? then None
      else Some(Entry(
        principal, ReadInt32(b, p, order).value, b[p + 4], ReadInt16(b, p + 5, order).value, keyValue.value,
        ReadKvno(b, p + 9 + |keyValue.value|, b[p + 4], order)))
  }

  function ReadEntry(b: seq<Byte>, version: Byte, order: Order): Option<Entry> {
    var principal := ReadPrincipal(b, version, order);
    ReadKey(b, principal.p, principal.value, order)
  }

  /** Done, an error, or a jump backwards from a length of -2^31, which has no positive
      counterpart, that does not end the loop. */
  datatype End = Done | Failed | Backwards

  datatype Read = Read(entries: seq<Entry>, end: End)

  /** One round of the loop: it stops, or goes on at a further offset, with an entry or not. */
  datatype Step = Stop(end: End) | Skip(to: nat) | Found(entry: Entry, to: nat)

  function Outcome(e: Option<Entry>, to: nat): Step {
    if e.None? then Stop(Failed) else Found(e.value, to)
  }

  function SizedRecord(b: seq<Byte>, n: nat, size: nat, version: Byte, order: Order): (s: Step)
    ensures s.Stop? || s.to == n + size <= |b|
    ensures s != Stop(Backwards)
  {
    if n + size > |b| then Stop(Failed)
    else Outcome(ReadEntry(b[n..n + size], version, order), n + size)
  }

  function ReadRecord(b: seq<Byte>, n: nat, version: Byte, order: Order): (s: Step)
    ensures s.Stop? || s.to >= n + 4
    ensures !s.Stop? ==> n + 4 <= |b|
    ensures |b| < 0x8000_0000 ==> s != Stop(Backwards)
  {
    if n + 4 > |b| then Stop(Done)
    else
      var size := ReadInt32(b, n, order).value;
      if size == 0 then Stop(Done)
      else if size == MIN32 then Stop(if n + 4 + MIN32 < 0 then Done else Backwards)
      else if size < 0 then Skip(n + 4 - size)
      else SizedRecord(b, n + 4, size, version, order)
  }

  /** The records from n on. */
  function ReadRecords(b: seq<Byte>, n: nat, version: Byte, order: Order): (r: Read)
    ensures |b| < 0x8000_0000 ==> r.end != Backwards
    decreases |b| - n
  {
    match ReadRecord(b, n, version, order)
    case Stop(end) => Read([], end)
    case Skip(to) => ReadRecords(b, to, version, order)
    case Found(e, to) =>
      var rest := ReadRecords(b, to, version, order);
      Read([e] + rest.entries, rest.end)
  }

  predicate HasHeader(b: seq<Byte>) {
    |b| >= 2 && b[0] == FIRST_BYTE && (b[1] == 1 || b[1] == 2)
  }

  function ReadFile(b: seq<Byte>, native: Order): Read {
    if !HasHeader(b) || |b| < 6 then Read([], Failed) else ReadRecords(b, 2, b[1], OrderOf(b[1], native))
  }

  /** The loop of parsePrincipal. */
  method ParseComponents(b: seq<Byte>, start: nat, num: int, order: Order) returns (c: Cursor<seq<seq<Byte>>>)
    ensures c == ReadComponents(b, start, num, order)
  {
    var p: nat, i := start, 0;
    var components := [];
    ghost var all := ReadComponents(b, start, num, order);
    while i < num
      invariant i <= num || i == 0
      invariant Extends(components, ReadComponents(b, p, num - i, order), all)
    {
      assert components + [] == components;
      var l := ReadInt16(b, p, order);
      if l.None? { return Cursor(components, p, false); }
      var text := ReadBytes(b, p + 2, l.value);
      if text.None? { return Cursor(components, p + 2, false); }
      p := p + 2 + |text.value|;
      i := i + 1;
      Extend(components, text.value, ReadComponents(b, p, num - i, order), all);
      components := components + [text.value];
    }
    assert components + [] == components;
    c := Cursor(components, p, true);
  }

  /** parsePrincipal. */
  method ParsePrincipal(b: seq<Byte>, version: Byte, order: Order) returns (c: Cursor<Principal>)
    ensures c == ReadPrincipal(b, version, order)
  {
    var principal := Principal(0, [], [], 0);
    var num := ReadInt16(b, 0, order);
    if num.None? { return Cursor(principal, 0, false); }
    principal := principal.(num := CountOf(num.value, version));
    var length := ReadInt16(b, 2, order);
    if length.None? { return Cursor(principal, 2, false); }
    var realm := ReadBytes(b, 4, length.value);
    if realm.None? { return Cursor(principal, 4, false); }
    principal := principal.(realm := realm.value);
    var components := ParseComponents(b, 4 + |realm.value|, principal.num, order);
    principal := principal.(components := components.value);
    if !components.ok || version == 1 { return Cursor(principal, components.p, components.ok); }
    var nameType := ReadInt32(b, components.p, order);
    if nameType.None? { return Cursor(principal, components.p, false); }
    c := Cursor(principal.(nameType := nameType.value), components.p + 4, true);
  }

  /** Done, followed by what the rest gives, is all. */
  predicate Extends(done: seq<seq<Byte>>, rest: Cursor<seq<seq<Byte>>>, all: Cursor<seq<seq<Byte>>>) {
    all.value == done + rest.value && all.p == rest.p && all.ok == rest.ok
  }

  lemma {:induction false} Extend(
    done: seq<seq<Byte>>, s: seq<Byte>, rest: Cursor<seq<seq<Byte>>>, all: Cursor<seq<seq<Byte>>>)
    requires Extends(done, Cursor([s] + rest.value, rest.p, rest.ok), all)
    ensures Extends(done + [s], rest, all)
  {
  }

  /** The body of the loop of Unmarshal for one record. */
  method ParseEntry(b: seq<Byte>, version: Byte, order: Order) returns (e: Option<Entry>)
    ensures e == ReadEntry(b, version, order)
  {
    var principal := ParsePrincipal(b, version, order);
    e := ParseKey(b, principal.p, principal.value, order);
  }

  method ParseKey(b: seq<Byte>, p: nat, principal: Principal, order: Order) returns (e: Option<Entry>)
    ensures e == ReadKey(b, p, principal, order)
  {
    var timestamp := ReadInt32(b, p, order);
    if timestamp.None? { return None; }
    if p + 5 > |b| { return None; }
    var kvno8 := b[p + 4];
    var keyType := ReadInt16(b, p + 5, order);
    if keyType.None? { return None; }
    var length := ReadInt16(b, p + 7, order);
    if length.None? { return None; }
    var keyValue := ReadBytes(b, p + 9, length.value);
    if keyValue.None? { return None; }
    var kvno := ParseKvno(b, p + 9 + |keyValue.value|, kvno8, order);
    e := Some(Entry(principal, timestamp.value, kvno8, keyType.value, keyValue.value, kvno));
  }

  method ParseKvno(b: seq<Byte>, p: nat, kvno8: Byte, order: Order) returns (kvno: nat)
    ensures kvno == ReadKvno(b, p, kvno8, order)
  {
    kvno := 0;
    if |b| - p >= 4 {
      kvno := Get32(b, p, order);
    }
    if kvno == 0 {
      kvno := kvno8;
    }
  }

  predicate Resumes(done: seq<Entry>, rest: Read, all: Read) {
    all.entries == done + rest.entries && all.end == rest.end
  }

  lemma {:induction false} Resume(done: seq<Entry>, e: Entry, rest: Read, all: Read)
    requires Resumes(done, Read([e] + rest.entries, rest.end), all)
    ensures Resumes(done + [e], rest, all)
  {
  }

  /** One round of the loop of Unmarshal, behind a length at n. Where it would jump
      backwards the model stops. */
  method ParseRecord(b: seq<Byte>, n: nat, size: int, version: Byte, order: Order) returns (s: Step)
    requires 4 <= n <= |b| && ReadInt32(b, n - 4, order) == Some(size) && size != 0
    ensures s == ReadRecord(b, n - 4, version, order)
  {
    if size < 0 {
      var next := n + if size == MIN32 then MIN32 else 0 - size;
      if next < 0 { return Stop(Done); }
      return if next < n then Stop(Backwards) else Skip(next);
    }
    s := ParseSized(b, n, size, version, order);
  }

  method ParseSized(b: seq<Byte>, n: nat, size: nat, version: Byte, order: Order) returns (s: Step)
    ensures s == SizedRecord(b, n, size, version, order)
  {
    if n + size > |b| { return Stop(Failed); }
    var e := ParseEntry(b[n..n + size], version, order);
    return Outcome(e, n + size);
  }

  /** The loop of Unmarshal: the entries to append, also before an error. */
  method ParseRecords(b: seq<Byte>, version: Byte, order: Order) returns (entries: seq<Entry>, end: End)
    requires |b| >= 6
    ensures Read(entries, end) == ReadRecords(b, 2, version, order)
  {
    hide ReadInt32, SizedRecord;
    entries := [];
    var n := 6;
    var size := ReadInt32(b, 2, order).value;
    ghost var all := ReadRecords(b, 2, version, order);
    while size != 0
      invariant 6 <= n <= |b| && size == ReadInt32(b, n - 4, order).value
      invariant Resumes(entries, ReadRecords(b, n - 4, version, order), all)
      decreases |b| - n
    {
      assert entries + [] == entries;
      var s := ParseRecord(b, n, size, version, order);
      if s.Stop? { return entries, s.end; }
      if s.Found? {
        Resume(entries, s.entry, ReadRecords(b, s.to, version, order), all);
        entries := entries + [s.entry];
      }
      if s.to > |b| || |b| - s.to < 4 {
        assert ReadRecords(b, s.to, version, order) == Read([], Done);
        assert entries + [] == entries;
        return entries, Done;
      }
      size := ReadInt32(b, s.to, order).value;
      n := s.to + 4;
    }
    assert entries + [] == entries;
    end := Done;
  }

  /** The loop of Marshal. */
  method MarshalEntries(header: seq<Byte>, entries: seq<Entry>, version: Byte, native: Order) returns (b: seq<Byte>)
    ensures b == header + EntriesBytes(entries, 0, version, OrderOf(version, native))
  {
    b := header;
    ghost var order := OrderOf(version, native);
    ghost var all := header + EntriesBytes(entries, 0, version, order);
    for i := 0 to |entries|
      invariant b + EntriesBytes(entries, i, version, order) == all
    {
      var eb := MarshalEntry(entries[i], version, native);
      Append(b, eb, EntriesBytes(entries, i + 1, version, order), all);
      b := b + eb;
    }
    assert b + [] == b;
  }

  class Keytab {
    var version: Byte
    var entries: seq<Entry>

    constructor ()
      ensures version == 2 && entries == []
    {
      version := 2;
      entries := [];
    }

    method Marshal(native: Order) returns (b: seq<Byte>)
      ensures b == FileBytes(entries, version, native)
    {
      b := [FIRST_BYTE, version];
      b := MarshalEntries(b, entries, version, native);
    }

    method Unmarshal(b: seq<Byte>, native: Order) returns (end: End)
      modifies this
      ensures end == ReadFile(b, native).end
      ensures entries == old(entries) + ReadFile(b, native).entries
      ensures HasHeader(b) ==> version == b[1]
    {
      if |b| < 2 { return Failed; }
      if b[0] != FIRST_BYTE { return Failed; }
      version := b[1];
      if version != 1 && version != 2 { return Failed; }
      if |b| < 6 { return Failed; }
      var found;
      found, end := ParseRecords(b, version, OrderOf(version, native));
      entries := entries + found;
    }
  }
}
