/** Reading back what a keytab file holds: records, and the holes deleted records leave. */
module KeytabRoundTrip {
  import opened Collections
  import opened Utf8
  import opened Keytab

  // Integers and strings

  lemma {:induction false} TwoStand(b: seq<Byte>, p: nat, text: seq<Byte>)
    requires At(b, p, text) && |text| == 2
    ensures p + 2 <= |b| && b[p] == text[0] && b[p + 1] == text[1]
  {
    assert b[p + 0] == text[0];
  }

  lemma {:induction false} FourStand(b: seq<Byte>, p: nat, text: seq<Byte>)
    requires At(b, p, text) && |text| == 4
    ensures p + 4 <= |b| && b[p] == text[0] && b[p + 1] == text[1] && b[p + 2] == text[2] && b[p + 3] == text[3]
  {
    assert b[p + 0] == text[0];
  }

  lemma {:induction false} Joined(u: nat)
    ensures u < 0x1_0000 ==> u == 256 * Octet(u, 1) + Octet(u, 0)
    ensures u < 0x1_0000_0000 ==> Join(Octet(u, 3), Octet(u, 2), Octet(u, 1), Octet(u, 0)) == u
  {
    var v := u / 256;
    assert u == 256 * v + Octet(u, 0) && Octet(u, 1) == Octet(v, 0);
    JoinedHigh(u, v);
  }

  lemma {:induction false} JoinedHigh(u: nat, v: nat)
    requires v == u / 256
    ensures u < 0x1_0000_0000 ==> v == 0x1_0000 * Octet(u, 3) + 256 * Octet(u, 2) + Octet(u, 1)
    ensures u < 0x1_0000 ==> v == Octet(u, 1)
  {
    var w := v / 256;
    assert Octet(u, 1) == Octet(v, 0) == v % 256;
    assert Octet(u, 2) == Octet(v, 1) == Octet(w, 0) == w % 256;
    assert Octet(u, 3) == Octet(v, 2) == Octet(w, 1) == w / 256 % 256;
  }

  lemma {:induction false} Gets16(b: seq<Byte>, p: nat, x: int, order: Order)
    requires At(b, p, Put16(x, order)) && -0x8000 <= x < 0x8000
    ensures ReadInt16(b, p, order) == Some(x)
  {
    TwoStand(b, p, Put16(x, order));
    Joined(Uint16(x));
  }

  lemma {:induction false} Gets32(b: seq<Byte>, p: nat, x: int, order: Order)
    requires At(b, p, Put32(x, order))
    ensures p + 4 <= |b| && Get32(b, p, order) == Uint32(x)
  {
    FourStand(b, p, Put32(x, order));
    Joined(Uint32(x));
  }

  lemma {:induction false} GetsInt32(b: seq<Byte>, p: nat, x: int, order: Order)
    requires At(b, p, Put32(x, order)) && MIN32 <= x < 0x8000_0000
    ensures ReadInt32(b, p, order) == Some(x)
  {
    Gets32(b, p, x, order);
  }

  predicate IsShort(s: seq<Byte>) {
    |s| <= 0x7FFF
  }

  lemma {:induction false} GetsString(b: seq<Byte>, p: nat, s: seq<Byte>, order: Order)
    requires At(b, p, StringBytes(s, order)) && IsShort(s)
    ensures ReadInt16(b, p, order) == Some(|s|) && ReadBytes(b, p + 2, |s|) == Some(s)
    ensures |StringBytes(s, order)| == 2 + |s|
  {
    AtConcat(b, p, Put16(|s|, order), s);
    Gets16(b, p, |s|, order);
    GetsBytes(b, p + 2, s);
  }

  lemma {:induction false} GetsBytes(b: seq<Byte>, p: nat, s: seq<Byte>)
    requires At(b, p, s)
    ensures ReadBytes(b, p, |s|) == Some(s)
  {
    assert b[p..p + |s|] == s;
  }

  // Entries

  /** What a version 2 entry can hold without loss. */
  ghost predicate Storable(e: Entry) {
    && IsStorable(e.principal)
    && MIN32 <= e.timestamp < 0x8000_0000
    && -0x8000 <= e.keyType < 0x8000
    && IsShort(e.keyValue)
    && 0 <= e.kvno < 0x1_0000_0000
  }

  ghost predicate IsStorable(p: Principal) {
    && p.num == |p.components| <= 0x7FFF
    && IsShort(p.realm)
    && (forall i :: 0 <= i < |p.components| ==> IsShort(p.components[i]))
    && MIN32 <= p.nameType < 0x8000_0000
  }

  /** The entry that comes back: a 32-bit key version of zero counts as absent. */
  function Reread(e: Entry): Entry {
    if e.kvno == 0 then e.(kvno := e.kvno8) else e
  }

  lemma {:induction false} GetsComponents(b: seq<Byte>, p: nat, components: seq<seq<Byte>>, i: nat, order: Order)
    requires i <= |components| && forall j :: 0 <= j < |components| ==> IsShort(components[j])
    requires At(b, p, ComponentBytes(components, i, order))
    ensures ReadComponents(b, p, |components| - i, order)
      == Cursor(components[i..], p + |ComponentBytes(components, i, order)|, true)
    decreases |components| - i
  {
    hide Octet, StringBytes, Int16;
    if i < |components| {
      var s, rest := components[i], ComponentBytes(components, i + 1, order);
      AtConcat(b, p, StringBytes(s, order), rest);
      GetsString(b, p, s, order);
      GetsComponents(b, p + 2 + |s|, components, i + 1, order);
      OneComponent(b, p, |components| - i, order, s, components[i + 1..], p + 2 + |s| + |rest|);
      assert components[i..] == [s] + components[i + 1..];
    }
  }

  lemma {:induction false} OneComponent(
    b: seq<Byte>, p: nat, count: int, order: Order, s: seq<Byte>, rest: seq<seq<Byte>>, end: nat)
    requires count > 0 && ReadInt16(b, p, order) == Some(|s|) && ReadBytes(b, p + 2, |s|) == Some(s)
    requires ReadComponents(b, p + 2 + |s|, count - 1, order) == Cursor(rest, end, true)
    ensures ReadComponents(b, p, count, order) == Cursor([s] + rest, end, true)
  {
  }

  lemma {:induction false} PrincipalStands(b: seq<Byte>, q: Principal, realm: seq<Byte>, components: seq<Byte>)
    requires At(b, 0, PrincipalBytes(q, 2, Big))
    requires realm == StringBytes(q.realm, Big) && components == ComponentBytes(q.components, 0, Big)
    ensures At(b, 0, Put16(q.num, Big)) && At(b, 2, realm) && At(b, 2 + |realm|, components)
    ensures At(b, 2 + |realm| + |components|, Put32(q.nameType, Big))
  {
    var nameType := Put32(q.nameType, Big);
    AtConcat(b, 0, Put16(q.num, Big), realm + (components + nameType));
    AtConcat(b, 2, realm, components + nameType);
    AtConcat(b, 2 + |realm|, components, nameType);
  }

  lemma {:induction false} GetsPrincipal(b: seq<Byte>, q: Principal)
    requires IsStorable(q) && At(b, 0, PrincipalBytes(q, 2, Big))
    ensures ReadPrincipal(b, 2, Big) == Cursor(q, |PrincipalBytes(q, 2, Big)|, true)
  {
    hide ComponentBytes, ReadComponents, ReadInt32;
    var realm, components := StringBytes(q.realm, Big), ComponentBytes(q.components, 0, Big);
    PrincipalStands(b, q, realm, components);
    Gets16(b, 0, q.num, Big);
    GetsString(b, 2, q.realm, Big);
    GetsComponents(b, 2 + |realm|, q.components, 0, Big);
    assert q.components[0..] == q.components;
    GetsInt32(b, 2 + |realm| + |components|, q.nameType, Big);
  }

  lemma {:induction false} KeyStands(b: seq<Byte>, p: nat, e: Entry, key: seq<Byte>)
    requires At(b, p, KeyBytes(e, Big)) && key == StringBytes(e.keyValue, Big)
    ensures At(b, p, Put32(e.timestamp, Big)) && p + 4 < |b| && b[p + 4] == e.kvno8
    ensures At(b, p + 5, Put16(e.keyType, Big)) && At(b, p + 7, key) && At(b, p + 7 + |key|, Put32(e.kvno, Big))
  {
    var kvno := Put32(e.kvno, Big);
    AtConcat(b, p, Put32(e.timestamp, Big), [e.kvno8] + (Put16(e.keyType, Big) + (key + kvno)));
    HeadStands(b, p + 4, e.kvno8, Put16(e.keyType, Big) + (key + kvno));
    AtConcat(b, p + 5, Put16(e.keyType, Big), key + kvno);
    AtConcat(b, p + 7, key, kvno);
  }

  lemma {:induction false} GetsKeyHead(b: seq<Byte>, p: nat, e: Entry)
    requires Storable(e) && At(b, p, KeyBytes(e, Big))
    ensures ReadInt32(b, p, Big) == Some(e.timestamp) && p + 4 < |b| && b[p + 4] == e.kvno8
    ensures ReadInt16(b, p + 5, Big) == Some(e.keyType)
  {
    KeyStands(b, p, e, StringBytes(e.keyValue, Big));
    GetsInt32(b, p, e.timestamp, Big);
    Gets16(b, p + 5, e.keyType, Big);
  }

  lemma {:induction false} GetsKeyValue(b: seq<Byte>, p: nat, e: Entry)
    requires Storable(e) && At(b, p, KeyBytes(e, Big))
    ensures ReadInt16(b, p + 7, Big) == Some(|e.keyValue|) && ReadBytes(b, p + 9, |e.keyValue|) == Some(e.keyValue)
  {
    KeyStands(b, p, e, StringBytes(e.keyValue, Big));
    GetsString(b, p + 7, e.keyValue, Big);
  }

  lemma {:induction false} GetsKvno(b: seq<Byte>, p: nat, e: Entry)
    requires Storable(e) && At(b, p, KeyBytes(e, Big))
    ensures p + 13 + |e.keyValue| <= |b| && Get32(b, p + 9 + |e.keyValue|, Big) == e.kvno
  {
    KeyStands(b, p, e, StringBytes(e.keyValue, Big));
    Gets32(b, p + 9 + |e.keyValue|, e.kvno, Big);
  }

  lemma {:induction false} GetsKey(b: seq<Byte>, p: nat, e: Entry)
    requires Storable(e) && At(b, p, KeyBytes(e, Big))
    ensures ReadKey(b, p, e.principal, Big) == Some(Reread(e))
  {
    GetsKeyHead(b, p, e);
    GetsKeyValue(b, p, e);
    GetsKvno(b, p, e);
    KeyIs(b, p, e);
  }

  lemma {:induction false} KeyIs(b: seq<Byte>, p: nat, e: Entry)
    requires ReadInt32(b, p, Big) == Some(e.timestamp) && p + 4 < |b| && b[p + 4] == e.kvno8
    requires ReadInt16(b, p + 5, Big) == Some(e.keyType) && ReadInt16(b, p + 7, Big) == Some(|e.keyValue|)
    requires ReadBytes(b, p + 9, |e.keyValue|) == Some(e.keyValue)
    requires p + 13 + |e.keyValue| <= |b| && Get32(b, p + 9 + |e.keyValue|, Big) == e.kvno
    ensures ReadKey(b, p, e.principal, Big) == Some(Reread(e))
  {
  }

  lemma {:induction false} GetsEntry(e: Entry)
    requires Storable(e)
    ensures ReadEntry(EntryBytes(e, 2, Big), 2, Big) == Some(Reread(e))
  {
    var b, head := EntryBytes(e, 2, Big), PrincipalBytes(e.principal, 2, Big);
    assert At(b, 0, b);
    AtConcat(b, 0, head, KeyBytes(e, Big));
    GetsPrincipal(b, e.principal);
    GetsKey(b, |head|, e);
  }

  lemma {:induction false} ComponentsFit(components: seq<seq<Byte>>, i: nat)
    requires i <= |components| && forall j :: 0 <= j < |components| ==> IsShort(components[j])
    ensures |ComponentBytes(components, i, Big)| <= 0x8001 * (|components| - i)
    decreases |components| - i
  {
    if i < |components| { ComponentsFit(components, i + 1); }
  }

  /** Its length fits 31 bits. */
  lemma {:induction false} EntryFits(e: Entry)
    requires Storable(e)
    ensures 0 < |EntryBytes(e, 2, Big)| < 0x8000_0000
  {
    ComponentsFit(e.principal.components, 0);
  }

  // Files

  /** A record, or a hole: a negative length and that many bytes of anything. */
  datatype Chunk = Record(entry: Entry) | Hole(skipped: seq<Byte>)

  function ChunkBytes(c: Chunk): seq<Byte> {
    match c
    case Record(e) => RecordBytes(e, 2, Big)
    case Hole(skipped) => Put32(0 - |skipped|, Big) + skipped
  }

  ghost predicate ValidChunk(c: Chunk) {
    match c
    case Record(e) => Storable(e)
    case Hole(skipped) => 0 < |skipped| < 0x8000_0000
  }

  function ChunksBytes(chunks: seq<Chunk>, i: nat): seq<Byte>
    requires i <= |chunks|
    decreases |chunks| - i
  {
    if i == |chunks| then [] else ChunkBytes(chunks[i]) + ChunksBytes(chunks, i + 1)
  }

  function EntriesOf(chunks: seq<Chunk>, i: nat): seq<Entry>
    requires i <= |chunks|
    decreases |chunks| - i
  {
    if i == |chunks| then []
    else if chunks[i].Record? then [Reread(chunks[i].entry)] + EntriesOf(chunks, i + 1)
    else EntriesOf(chunks, i + 1)
  }

  lemma {:induction false} GetsChunk(b: seq<Byte>, n: nat, c: Chunk)
    requires ValidChunk(c) && At(b, n, ChunkBytes(c))
    ensures c.Record? ==> ReadRecord(b, n, 2, Big) == Found(Reread(c.entry), n + |ChunkBytes(c)|)
    ensures c.Hole? ==> ReadRecord(b, n, 2, Big) == Skip(n + |ChunkBytes(c)|)
  {
    hide Reread, EntryBytes, Put32, ReadEntry;
    match c {
      case Record(e) =>
        var body := EntryBytes(e, 2, Big);
        AtConcat(b, n, Put32(|body|, Big), body);
        EntryFits(e);
        GetsInt32(b, n, |body|, Big);
        GetsBytes(b, n + 4, body);
        GetsEntry(e);
        RecordIs(b, n, 2, Big, body);
      case Hole(skipped) =>
        AtConcat(b, n, Put32(0 - |skipped|, Big), skipped);
        GetsInt32(b, n, 0 - |skipped|, Big);
    }
  }

  lemma {:induction false} RecordIs(b: seq<Byte>, n: nat, version: Byte, order: Order, body: seq<Byte>)
    requires ReadInt32(b, n, order) == Some(|body|) && body != [] && ReadBytes(b, n + 4, |body|) == Some(body)
    ensures ReadRecord(b, n, version, order) == Outcome(ReadEntry(body, version, order), n + 4 + |body|)
  {
    assert b[n + 4..n + 4 + |body|] == body;
  }

  lemma {:induction false} GetsChunks(b: seq<Byte>, n: nat, chunks: seq<Chunk>, i: nat)
    requires i <= |chunks| && forall j :: 0 <= j < |chunks| ==> ValidChunk(chunks[j])
    requires At(b, n, ChunksBytes(chunks, i)) && |b| == n + |ChunksBytes(chunks, i)|
    ensures ReadRecords(b, n, 2, Big) == Read(EntriesOf(chunks, i), Done)
    decreases |chunks| - i
  {
    hide ValidChunk, ChunkBytes, Reread, IsShort, SizedRecord;
    if i < |chunks| {
      var c := chunks[i];
      AtConcat(b, n, ChunkBytes(c), ChunksBytes(chunks, i + 1));
      GetsChunk(b, n, c);
      GetsChunks(b, n + |ChunkBytes(c)|, chunks, i + 1);
    }
  }

  /** Records and holes in any order: the entries come back in order, whatever the holes. */
  lemma {:induction false} HolesAreSkipped(chunks: seq<Chunk>, native: Order)
    requires chunks != [] && forall j :: 0 <= j < |chunks| ==> ValidChunk(chunks[j])
    ensures ReadFile([FIRST_BYTE, 2] + ChunksBytes(chunks, 0), native) == Read(EntriesOf(chunks, 0), Done)
  {
    var text := ChunksBytes(chunks, 0);
    ChunkIsLong(chunks[0]);
    HeaderStands(text, native);
    GetsChunks([FIRST_BYTE, 2] + text, 2, chunks, 0);
  }

  lemma {:induction false} ChunkIsLong(c: Chunk)
    ensures |ChunkBytes(c)| >= 4
  {
  }

  lemma {:induction false} HeaderStands(text: seq<Byte>, native: Order)
    requires |text| >= 4
    ensures var b := [FIRST_BYTE, 2] + text;
      At(b, 2, text) && ReadFile(b, native) == ReadRecords(b, 2, 2, Big)
  {
  }

  // Keytabs

  function Records(entries: seq<Entry>): seq<Chunk> {
    seq(|entries|, i requires 0 <= i < |entries| => Record(entries[i]))
  }

  function RereadAll(entries: seq<Entry>): seq<Entry> {
    seq(|entries|, i requires 0 <= i < |entries| => Reread(entries[i]))
  }

  lemma {:induction false} RecordsOnly(entries: seq<Entry>, i: nat)
    requires i <= |entries|
    ensures ChunksBytes(Records(entries), i) == EntriesBytes(entries, i, 2, Big)
    decreases |entries| - i
  {
    if i < |entries| {
      RecordsOnly(entries, i + 1);
      var chunks := Records(entries);
      assert ChunkBytes(chunks[i]) == RecordBytes(chunks[i].entry, 2, Big);
    }
  }

  lemma {:induction false} AllRecords(entries: seq<Entry>, chunks: seq<Chunk>, again: seq<Entry>, i: nat)
    requires i <= |entries| && chunks == Records(entries) && again == RereadAll(entries)
    ensures EntriesOf(chunks, i) == again[i..]
    decreases |entries| - i
  {
    if i < |entries| {
      AllRecords(entries, chunks, again, i + 1);
      assert again[i..] == [again[i]] + again[i + 1..];
    }
  }

  /** Unmarshal of Marshal, in version 2. The entries come back exactly if there are any and
      none has a 32-bit key version of zero with another 8-bit one. */
  lemma {:induction false} RoundTrip(entries: seq<Entry>, native: Order)
    requires forall i :: 0 <= i < |entries| ==> Storable(entries[i])
    ensures entries != [] ==> ReadFile(FileBytes(entries, 2, native), native) == Read(RereadAll(entries), Done)
    ensures entries == [] ==> ReadFile(FileBytes(entries, 2, native), native) == Read([], Failed)
    ensures ReadFile(FileBytes(entries, 2, native), native) == Read(entries, Done)
      <==> entries != [] && forall i :: 0 <= i < |entries| ==> entries[i].kvno != 0 || entries[i].kvno8 == 0
  {
    if entries != [] {
      RecordsOnly(entries, 0);
      HolesAreSkipped(Records(entries), native);
      AllRecords(entries, Records(entries), RereadAll(entries), 0);
      assert RereadAll(entries)[0..] == RereadAll(entries);
      SameIff(entries);
    }
  }

  lemma {:induction false} SameIff(entries: seq<Entry>)
    ensures RereadAll(entries) == entries
      <==> forall i :: 0 <= i < |entries| ==> entries[i].kvno != 0 || entries[i].kvno8 == 0
  {
    var again := RereadAll(entries);
    if again == entries {
      forall i | 0 <= i < |entries| ensures entries[i].kvno != 0 || entries[i].kvno8 == 0 {
        assert again[i] == Reread(entries[i]);
      }
    }
  }

  /** With 8-bit version 1 and 32-bit version 0 an entry comes back as another. */
  lemma {:induction false} ZeroVersionDoesNotComeBack(e: Entry, native: Order)
    requires Storable(e) && e.kvno == 0 && e.kvno8 == 1
    ensures ReadFile(FileBytes([e], 2, native), native) == Read([e.(kvno := 1)], Done)
  {
    RoundTrip([e], native);
    assert RereadAll([e]) == [e.(kvno := 1)];
  }

  // Version 1

  /** Marshal writes the count of components as it is, Unmarshal takes the realm off it: no
      version 1 keytab comes back. */
  lemma {:induction false} VersionOneDoesNotComeBack(entries: seq<Entry>, native: Order)
    requires entries != [] && -0x8000 <= entries[0].principal.num < 0x8000
    requires |EntryBytes(entries[0], 1, native)| < 0x8000_0000
    ensures ReadFile(FileBytes(entries, 1, native), native) != Read(entries, Done)
  {
    var e := entries[0];
    var b, body := FileBytes(entries, 1, native), EntryBytes(e, 1, native);
    var rest := EntriesBytes(entries, 1, 1, native);
    FirstRecordStands(b, 1, native, body, rest);
    GetsInt32(b, 2, |body|, native);
    GetsBytes(b, 6, body);
    VersionOneCount(e, native);
    FirstRecord(b, 1, native, body);
  }

  lemma {:induction false} FirstRecord(b: seq<Byte>, version: Byte, order: Order, body: seq<Byte>)
    requires ReadInt32(b, 2, order) == Some(|body|) && body != [] && ReadBytes(b, 6, |body|) == Some(body)
    ensures var r := ReadRecords(b, 2, version, order);
      r.end == Done ==> r.entries != [] && r.entries[0].principal == ReadPrincipal(body, version, order).value
  {
    RecordIs(b, 2, version, order, body);
    KeyKeepsPrincipal(body, ReadPrincipal(body, version, order).p, ReadPrincipal(body, version, order).value, order);
  }

  lemma {:induction false} KeyKeepsPrincipal(b: seq<Byte>, p: nat, principal: Principal, order: Order)
    ensures var e := ReadKey(b, p, principal, order);
      e.Some? ==> e.value.principal == principal
  {
  }

  lemma {:induction false} FirstRecordStands(b: seq<Byte>, version: Byte, order: Order, body: seq<Byte>, rest: seq<Byte>)
    requires b == [FIRST_BYTE, version] + (Put32(|body|, order) + body + rest)
    ensures At(b, 2, Put32(|body|, order)) && At(b, 6, body)
  {
    var size := Put32(|body|, order);
    assert At(b, 0, b);
    AtConcat(b, 0, [FIRST_BYTE, version], size + body + rest);
    AtConcat(b, 2, size + body, rest);
    AtConcat(b, 2, size, body);
  }

  lemma {:induction false} VersionOneCount(e: Entry, native: Order)
    requires -0x8000 <= e.principal.num < 0x8000
    ensures ReadPrincipal(EntryBytes(e, 1, native), 1, native).value.num == CountOf(e.principal.num, 1) != e.principal.num
  {
    var body := EntryBytes(e, 1, native);
    assert At(body, 0, Put16(e.principal.num, native));
    Gets16(body, 0, e.principal.num, native);
  }

  // Termination

  /** Beyond 2^31 bytes the loop can return to where it was: a hole, and a length of -2^31
      behind it. */
  lemma {:induction false} LongFileLoops(b: seq<Byte>, n: nat)
    requires n >= 6 && |b| >= n + 0x8000_0000
    requires ReadInt32(b, n, Big) == Some(0 - (0x8000_0000 - 8)) && ReadInt32(b, n + 0x8000_0000 - 4, Big) == Some(MIN32)
    ensures ReadRecord(b, n, 2, Big) == Skip(n + 0x8000_0000 - 4)
    ensures ReadRecord(b, n + 0x8000_0000 - 4, 2, Big) == Stop(Backwards)
    ensures n + 0x8000_0000 - 4 + 4 + MIN32 == n
  {
  }
}
