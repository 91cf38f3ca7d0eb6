/**
The ASN database: a writer that sorts, normalises and lays out prefixes in a binary file, and a reader that
finds them again by binary search.  The two meet in `RoundTrip`.
 */
module AsnDatabase {
  import opened Wrappers
  import opened Bytes

  const MAGIC: seq<byte> := [82, 87, 65, 83, 78, 68, 66, 1]
  const HEADER_LEN: nat := 16
  const ENTRY_LEN: nat := 16
  const V4_WIDTH: nat := 4
  const V6_WIDTH: nat := 16
  const MAX_PREFIXES: nat := 65535
  const MAX_ENTRIES: nat := 0xFFFF_FFFF

  // ---------- Prefixes ----------

  datatype Prefix = Prefix(v4: bool, address: seq<byte>, bits: int)

  function Width(v4: bool): nat {
    if v4 then V4_WIDTH else V6_WIDTH
  }

  predicate IsValid(p: Prefix) {
    |p.address| == Width(p.v4) && 0 <= p.bits <= 8 * Width(p.v4)
  }

  function LowBits(keep: nat): (d: nat)
    ensures d > 0
  {
    match keep
    case 0 => 256
    case 1 => 128
    case 2 => 64
    case 3 => 32
    case 4 => 16
    case 5 => 8
    case 6 => 4
    case 7 => 2
    case _ => 1
  }

  /** The first `keep` bits of a byte, the rest cleared. */
  function MaskByte(b: byte, keep: nat): byte {
    b - b % LowBits(keep)
  }

  function MaskBytes(address: seq<byte>, bits: int): (out: seq<byte>)
    ensures |out| == |address|
  {
    if address == [] then []
    else [MaskByte(address[0], if bits <= 0 then 0 else bits)] + MaskBytes(address[1..], bits - 8)
  }

  function Masked(p: Prefix): Prefix {
    p.(address := MaskBytes(p.address, p.bits))
  }

  /** Lexicographic on bytes. */
  predicate AddressLess(a: seq<byte>, b: seq<byte>) {
    if a == [] then b != []
    else if b == [] then false
    else a[0] < b[0] || (a[0] == b[0] && AddressLess(a[1..], b[1..]))
  }

  predicate Less(p: Prefix, q: Prefix) {
    AddressLess(p.address, q.address) || (p.address == q.address && p.bits < q.bits)
  }

  lemma {:induction false} AddressOrder(a: seq<byte>, b: seq<byte>, c: seq<byte>)
    ensures a == b || AddressLess(a, b) || AddressLess(b, a)
    ensures !(AddressLess(a, b) && AddressLess(b, a)) && !AddressLess(a, a)
    ensures AddressLess(a, b) && AddressLess(b, c) ==> AddressLess(a, c)
    decreases |a|
  {
    if a != [] {
      var b', c' := if b == [] then [] else b[1..], if c == [] then [] else c[1..];
      AddressOrder(a[1..], b', c');
      if b != [] && a[0] == b[0] && a[1..] == b' {
        assert a == [a[0]] + a[1..] && b == [b[0]] + b[1..];
      }
    }
  }

  lemma {:induction false} Order(p: Prefix, q: Prefix, r: Prefix)
    ensures Less(p, q) && Less(q, r) ==> Less(p, r)
    ensures !(Less(p, q) && Less(q, p)) && !Less(p, p)
    ensures p.v4 == q.v4 ==> p == q || Less(p, q) || Less(q, p)
  {
    AddressOrder(p.address, q.address, r.address);
    AddressOrder(q.address, p.address, r.address);
    AddressOrder(p.address, p.address, p.address);
  }

  ghost predicate Increasing(s: seq<Prefix>) {
    forall i, j :: 0 <= i < j < |s| ==> Less(s[i], s[j])
  }

  /** Valid prefixes of one family. */
  predicate Canonical(s: seq<Prefix>, v4: bool) {
    forall i :: 0 <= i < |s| ==> s[i].v4 == v4 && IsValid(s[i])
  }

  /** What normalising keeps of one input. */
  predicate Keeps(p: Prefix, v4: bool) {
    IsValid(p) && p.v4 == v4
  }

  /** Insert into an increasing list, unless already there. */
  function Insert(p: Prefix, s: seq<Prefix>): seq<Prefix> {
    if s == [] then [p]
    else if s[0] == p then s
    else if Less(p, s[0]) then [p] + s
    else [s[0]] + Insert(p, s[1..])
  }

  /** The masked prefixes of the family, in order, each once. */
  function Normalized(prefixes: seq<Prefix>, v4: bool): seq<Prefix>
    decreases |prefixes|
  {
    if prefixes == [] then []
    else
      var last := prefixes[|prefixes| - 1];
      var rest := Normalized(prefixes[..|prefixes| - 1], v4);
      if Keeps(last, v4) then Insert(Masked(last), rest) else rest
  }

  lemma {:induction false} InsertOrdered(p: Prefix, s: seq<Prefix>)
    requires Increasing(s) && forall i :: 0 <= i < |s| ==> s[i].v4 == p.v4
    ensures Increasing(Insert(p, s))
    ensures forall q :: q in Insert(p, s) <==> q == p || q in s
  {
    if s != [] {
      assert forall i :: 0 <= i < |s[1..]| ==> s[1..][i] == s[i + 1];
      assert forall q :: q in s <==> q == s[0] || q in s[1..];
      InsertOrdered(p, s[1..]);
      var out := Insert(p, s);
      forall i, j | 0 <= i < j < |out| ensures Less(out[i], out[j]) {
        Order(p, s[0], out[j]);
        Order(s[0], p, out[j]);
        if i == 0 && s[0] != p {
          assert out[j] in out[1..];
        }
      }
    }
  }

  /** Normalising yields exactly the masked valid prefixes of the family, strictly increasing. */
  lemma {:induction false} NormalizedExact(prefixes: seq<Prefix>, v4: bool)
    ensures Increasing(Normalized(prefixes, v4)) && Canonical(Normalized(prefixes, v4), v4)
    ensures forall q :: q in Normalized(prefixes, v4) <==> exists i :: 0 <= i < |prefixes| && Keeps(prefixes[i], v4) && q == Masked(prefixes[i])
    decreases |prefixes|
  {
    if prefixes != [] {
      var n := |prefixes| - 1;
      var rest := prefixes[..n];
      NormalizedExact(rest, v4);
      assert forall i :: 0 <= i < n ==> rest[i] == prefixes[i];
      if Keeps(prefixes[n], v4) {
        InsertOrdered(Masked(prefixes[n]), Normalized(rest, v4));
      }
      var out := Normalized(prefixes, v4);
      forall i | 0 <= i < |out| ensures out[i].v4 == v4 && IsValid(out[i]) {
        assert out[i] in out;
      }
    }
  }

  /** An increasing list is determined by its elements. */
  lemma {:induction false} IncreasingUnique(s: seq<Prefix>, t: seq<Prefix>)
    requires Increasing(s) && Increasing(t) && forall q :: q in s <==> q in t
    ensures s == t
    decreases |s|
  {
    assert s == [] <==> t == [] by {
      assert s != [] ==> s[0] in t;
      assert t != [] ==> t[0] in s;
    }
    if s != [] {
      assert s[0] in t && t[0] in s;
      var i :| 0 <= i < |t| && t[i] == s[0];
      var j :| 0 <= j < |s| && s[j] == t[0];
      Order(s[0], t[0], s[0]);
      assert s[0] == t[0];
      forall q ensures q in s[1..] <==> q in t[1..] {
        assert forall k :: 0 <= k < |s[1..]| ==> s[1..][k] == s[k + 1] && s[k + 1] in s;
        assert forall k :: 0 <= k < |t[1..]| ==> t[1..][k] == t[k + 1] && t[k + 1] in t;
        Order(s[0], s[0], s[0]);
        assert q in s <==> q == s[0] || q in s[1..];
        assert q in t <==> q == t[0] || q in t[1..];
      }
      IncreasingUnique(s[1..], t[1..]);
    }
  }

  // ---------- Normalising, as the source does it: filter, sort, drop repeats ----------

  ghost predicate NonDecreasing(s: seq<Prefix>) {
    forall i, j :: 0 <= i < j < |s| ==> !Less(s[j], s[i])
  }

  function Place(p: Prefix, s: seq<Prefix>): (out: seq<Prefix>)
    ensures multiset(out) == multiset(s) + multiset{p}
  {
    if s == [] then [p]
    else if Less(s[0], p) then
      assert s == [s[0]] + s[1..];
      [s[0]] + Place(p, s[1..])
    else [p] + s
  }

  lemma {:induction false} PlaceOrdered(p: Prefix, s: seq<Prefix>)
    requires NonDecreasing(s) && forall i :: 0 <= i < |s| ==> s[i].v4 == p.v4
    ensures NonDecreasing(Place(p, s))
  {
    if s != [] && Less(s[0], p) {
      assert forall i :: 0 <= i < |s[1..]| ==> s[1..][i] == s[i + 1];
      PlaceOrdered(p, s[1..]);
      var rest := Place(p, s[1..]);
      forall j | 0 <= j < |rest| ensures !Less(rest[j], s[0]) {
        assert rest[j] in multiset(rest);
        Order(s[0], p, p);
        if rest[j] != p { assert rest[j] in s[1..]; }
      }
    } else if s != [] {
      forall j | 0 <= j < |s| ensures !Less(s[j], p) {
        Order(s[j], p, s[0]);
        Order(p, s[0], s[j]);
        Order(s[j], s[0], p);
      }
    }
  }

  /** Stands for the library sort: any order-preserving permutation would do. */
  method SortPrefixes(s: seq<Prefix>, ghost v4: bool) returns (t: seq<Prefix>)
    requires forall i :: 0 <= i < |s| ==> s[i].v4 == v4
    ensures NonDecreasing(t) && multiset(t) == multiset(s)
  {
    t := [];
    for i := 0 to |s|
      invariant NonDecreasing(t) && multiset(t) == multiset(s[..i])
      invariant forall j :: 0 <= j < |t| ==> t[j].v4 == v4
    {
      PlaceOrdered(s[i], t);
      t := Place(s[i], t);
      assert s[..i + 1] == s[..i] + [s[i]];
      forall j | 0 <= j < |t| ensures t[j].v4 == v4 {
        assert t[j] in multiset(s[..i + 1]);
        assert t[j] in s[..i + 1];
      }
    }
    assert s[..|s|] == s;
  }

  method NormalizePrefixes(prefixes: seq<Prefix>, wantV4: bool) returns (unique: seq<Prefix>)
    ensures unique == Normalized(prefixes, wantV4)
  {
    var out: seq<Prefix> := [];
    for i := 0 to |prefixes|
      invariant forall j :: 0 <= j < |out| ==> out[j].v4 == wantV4
      invariant forall q :: q in out <==> exists k :: 0 <= k < i && Keeps(prefixes[k], wantV4) && q == Masked(prefixes[k])
    {
      if IsValid(prefixes[i]) {
        var p := Masked(prefixes[i]);
        if p.v4 == wantV4 {
          out := out + [p];
        }
      }
    }
    var sorted := SortPrefixes(out, wantV4);
    forall q ensures q in sorted <==> q in out {
      assert q in multiset(sorted) <==> q in multiset(out);
    }
    assert forall i :: 0 <= i < |sorted| ==> sorted[i] in out;
    unique := DropRepeats(sorted);
    NormalizedExact(prefixes, wantV4);
    IncreasingUnique(unique, Normalized(prefixes, wantV4));
  }

  method DropRepeats(s: seq<Prefix>) returns (unique: seq<Prefix>)
    requires NonDecreasing(s) && forall i, j :: 0 <= i < |s| && 0 <= j < |s| ==> s[i].v4 == s[j].v4
    ensures Increasing(unique) && forall q :: q in unique <==> q in s
  {
    unique := [];
    for i := 0 to |s|
      invariant Increasing(unique)
      invariant forall q :: q in unique <==> q in s[..i]
      invariant i == 0 ==> unique == []
      invariant i > 0 ==> unique != [] && unique[|unique| - 1] == s[i - 1]
    {
      assert s[..i + 1] == s[..i] + [s[i]];
      if |unique| == 0 || s[i] != unique[|unique| - 1] {
        forall j | 0 <= j < |unique| ensures Less(unique[j], s[i]) {
          Order(s[i - 1], s[i], s[i]);
          Order(unique[j], s[i - 1], s[i]);
        }
        unique := unique + [s[i]];
      }
    }
    assert s[..|s|] == s;
  }

  // ---------- Entries ----------

  datatype Entry = Entry(asn: uint32, v4: seq<Prefix>, v6: seq<Prefix>)

  function PlaceEntry(e: Entry, s: seq<Entry>): (out: seq<Entry>)
    ensures multiset(out) == multiset(s) + multiset{e}
  {
    if s == [] then [e]
    else if s[0].asn < e.asn then
      assert s == [s[0]] + s[1..];
      [s[0]] + PlaceEntry(e, s[1..])
    else [e] + s
  }

  function SortByAsn(entries: seq<Entry>): (out: seq<Entry>)
    ensures multiset(out) == multiset(entries) && |out| == |entries|
  {
    if entries == [] then []
    else
      assert entries == [entries[0]] + entries[1..];
      var out := PlaceEntry(entries[0], SortByAsn(entries[1..]));
      assert |multiset(out)| == |multiset(entries)|;
      out
  }

  ghost predicate AsnOrdered(s: seq<Entry>) {
    forall i, j :: 0 <= i < j < |s| ==> s[i].asn <= s[j].asn
  }

  lemma {:induction false} PlaceEntryOrdered(e: Entry, s: seq<Entry>)
    requires AsnOrdered(s)
    ensures AsnOrdered(PlaceEntry(e, s))
  {
    if s != [] && s[0].asn < e.asn {
      PlaceEntryOrdered(e, s[1..]);
      var rest := PlaceEntry(e, s[1..]);
      forall j | 0 <= j < |rest| ensures s[0].asn <= rest[j].asn {
        assert rest[j] in multiset(rest);
        if rest[j] != e { assert rest[j] in s[1..]; }
      }
    }
  }

  lemma {:induction false} SortByAsnOrdered(entries: seq<Entry>)
    ensures AsnOrdered(SortByAsn(entries))
  {
    if entries != [] {
      SortByAsnOrdered(entries[1..]);
      PlaceEntryOrdered(entries[0], SortByAsn(entries[1..]));
    }
  }

  function NormalizeEntry(e: Entry): Entry {
    Entry(e.asn, Normalized(e.v4, true), Normalized(e.v6, false))
  }

  function NormalizeEntries(entries: seq<Entry>): (out: seq<Entry>)
    ensures |out| == |entries|
    ensures forall i :: 0 <= i < |entries| ==> out[i] == NormalizeEntry(entries[i])
  {
    seq(|entries|, i requires 0 <= i < |entries| => NormalizeEntry(entries[i]))
  }

  /** What the writer lays out. */
  function Prepared(entries: seq<Entry>): seq<Entry> {
    NormalizeEntries(SortByAsn(entries))
  }

  predicate FitsCounts(e: Entry) {
    |e.v4| <= MAX_PREFIXES && |e.v6| <= MAX_PREFIXES
  }

  /** Few enough entries, no AS number twice, and per-family counts that fit their field. */
  ghost predicate Accepted(entries: seq<Entry>) {
    && |entries| <= MAX_ENTRIES
    && (forall i, j :: 0 <= i < j < |entries| ==> entries[i].asn != entries[j].asn)
    && (forall i :: 0 <= i < |entries| ==> FitsCounts(NormalizeEntry(entries[i])))
  }

  // ---------- Layout ----------

  function Record(p: Prefix): seq<byte>
    requires IsValid(p)
  {
    p.address + [p.bits]
  }

  function Records(ps: seq<Prefix>): seq<byte>
    requires forall i :: 0 <= i < |ps| ==> IsValid(ps[i])
  {
    if ps == [] then [] else Record(ps[0]) + Records(ps[1..])
  }

  /** A prepared entry: canonical families whose counts fit. */
  ghost predicate Storable(e: Entry) {
    Canonical(e.v4, true) && Canonical(e.v6, false) && FitsCounts(e)
  }

  ghost predicate AllStorable(es: seq<Entry>) {
    forall i :: 0 <= i < |es| ==> Storable(es[i])
  }

  function BlobLen(e: Entry): nat {
    |e.v4| * (V4_WIDTH + 1) + |e.v6| * (V6_WIDTH + 1)
  }

  ghost function Blob(e: Entry): seq<byte>
    requires Storable(e)
  {
    Records(e.v4) + Records(e.v6)
  }

  function DataLen(es: seq<Entry>): nat {
    if es == [] then 0 else BlobLen(es[0]) + DataLen(es[1..])
  }

  ghost function Data(es: seq<Entry>): seq<byte>
    requires AllStorable(es)
  {
    if es == [] then [] else Blob(es[0]) + Data(es[1..])
  }

  function EntryBytes(e: Entry, dataOff: nat): (out: seq<byte>)
    ensures |out| == ENTRY_LEN
  {
    Encode(e.asn, 4) + Encode(dataOff, 8) + Encode(|e.v4|, 2) + Encode(|e.v6|, 2)
  }

  function Index(es: seq<Entry>, dataOff: nat): seq<byte> {
    if es == [] then [] else EntryBytes(es[0], dataOff) + Index(es[1..], dataOff + BlobLen(es[0]))
  }

  function Header(count: nat): (out: seq<byte>)
    ensures |out| == HEADER_LEN
  {
    MAGIC + Encode(count, 4) + [0, 0, 0, 0]
  }

  function DataStart(count: nat): nat {
    HEADER_LEN + count * ENTRY_LEN
  }

  ghost function File(es: seq<Entry>): seq<byte>
    requires AllStorable(es)
  {
    Header(|es|) + Index(es, DataStart(|es|)) + Data(es)
  }

  lemma {:induction false} RecordsLen(ps: seq<Prefix>, v4: bool)
    requires Canonical(ps, v4)
    ensures |Records(ps)| == |ps| * (Width(v4) + 1)
  {
    if ps != [] {
      RecordsLen(ps[1..], v4);
    }
  }

  lemma {:induction false} BlobLength(e: Entry)
    requires Storable(e)
    ensures |Blob(e)| == BlobLen(e)
  {
    RecordsLen(e.v4, true);
    RecordsLen(e.v6, false);
  }

  lemma {:induction false} SliceOfSecond(a: seq<byte>, b: seq<byte>, from: nat, len: nat)
    requires from + len <= |b|
    ensures (a + b)[|a| + from..|a| + from + len] == b[from..from + len]
  {
  }

  lemma {:induction false} SliceOfFirst(a: seq<byte>, b: seq<byte>)
    ensures (a + b)[0..|a|] == a
  {
  }

  lemma {:induction false} IndexAt(es: seq<Entry>, off: nat, i: nat)
    requires i < |es|
    ensures |Index(es, off)| == |es| * ENTRY_LEN
    ensures Index(es, off)[i * ENTRY_LEN..i * ENTRY_LEN + ENTRY_LEN] == EntryBytes(es[i], off + DataLen(es[..i]))
    decreases |es|
  {
    var first := EntryBytes(es[0], off);
    var rest := Index(es[1..], off + BlobLen(es[0]));
    if i == 0 {
      if |es| > 1 { IndexAt(es[1..], off + BlobLen(es[0]), 0); }
      assert es[..0] == [];
      SliceOfFirst(first, rest);
    } else {
      IndexAt(es[1..], off + BlobLen(es[0]), i - 1);
      assert es[..i][1..] == es[1..][..i - 1];
      assert DataLen(es[..i]) == BlobLen(es[0]) + DataLen(es[1..][..i - 1]);
      SliceOfSecond(first, rest, (i - 1) * ENTRY_LEN, ENTRY_LEN);
    }
  }

  lemma {:induction false} DataLength(es: seq<Entry>)
    requires AllStorable(es)
    ensures |Data(es)| == DataLen(es)
  {
    if es != [] {
      BlobLength(es[0]);
      DataLength(es[1..]);
    }
  }

  lemma {:induction false} DataSplit(es: seq<Entry>, i: nat)
    requires AllStorable(es) && i <= |es|
    ensures AllStorable(es[..i]) && AllStorable(es[i..]) && Data(es) == Data(es[..i]) + Data(es[i..])
    decreases i
  {
    if i == 0 {
      assert es[..0] == [] && es[0..] == es;
    } else {
      DataSplit(es[1..], i - 1);
      assert es[..i][1..] == es[1..][..i - 1] && es[i..] == es[1..][i - 1..] && es[..i][0] == es[0];
      Regroup(Blob(es[0]), Data(es[1..][..i - 1]), Data(es[i..]));
    }
  }

  lemma {:induction false} Regroup(a: seq<byte>, b: seq<byte>, c: seq<byte>)
    ensures a + (b + c) == a + b + c
    ensures (a + (b + c))[|a|..|a| + |b|] == b
  {
  }

  lemma {:induction false} DataAt(es: seq<Entry>, i: nat)
    requires AllStorable(es) && i < |es|
    ensures DataLen(es[..i]) + BlobLen(es[i]) <= |Data(es)| == DataLen(es)
    ensures Data(es)[DataLen(es[..i])..DataLen(es[..i]) + BlobLen(es[i])] == Blob(es[i])
  {
    DataSplit(es, i);
    DataLength(es);
    DataLength(es[..i]);
    BlobLength(es[i]);
    assert es[i..][0] == es[i];
    Regroup(Data(es[..i]), Blob(es[i]), Data(es[i..][1..]));
  }

  lemma {:induction false} DataLenBound(es: seq<Entry>)
    requires forall i :: 0 <= i < |es| ==> FitsCounts(es[i])
    ensures DataLen(es) <= |es| * (MAX_PREFIXES * 22)
  {
    if es != [] {
      DataLenBound(es[1..]);
    }
  }

  lemma {:induction false} DataLenSplit(es: seq<Entry>, i: nat)
    requires i <= |es|
    ensures DataLen(es) == DataLen(es[..i]) + DataLen(es[i..])
  {
    if i == 0 {
      assert es[..0] == [] && es[0..] == es;
    } else {
      DataLenSplit(es[1..], i - 1);
      assert es[..i][1..] == es[1..][..i - 1] && es[i..] == es[1..][i - 1..];
    }
  }

  lemma {:induction false} DataLenNext(es: seq<Entry>, i: nat)
    requires AllStorable(es) && |es| <= MAX_ENTRIES && i < |es|
    ensures DataLen(es[..i + 1]) == DataLen(es[..i]) + BlobLen(es[i])
  {
    assert es[..i + 1][..i] == es[..i] && es[..i + 1][i..] == [es[i]];
    DataLenSplit(es[..i + 1], i);
    assert DataLen([es[i]]) == BlobLen(es[i]);
  }

  /** Data regions follow one another without gap or overlap, inside the file, at offsets a signed 64-bit integer can hold. */
  lemma {:induction false} RegionsContiguous(es: seq<Entry>, i: nat)
    requires AllStorable(es) && |es| <= MAX_ENTRIES && i < |es|
    ensures DataLen(es[..i + 1]) == DataLen(es[..i]) + BlobLen(es[i])
    ensures DataStart(|es|) + DataLen(es[..i + 1]) <= |File(es)| < 0x8000_0000_0000_0000
  {
    DataLenNext(es, i);
    IndexAt(es, DataStart(|es|), 0);
    DataAt(es, i);
    DataLenBound(es);
  }

  // ---------- Reading ----------

  /** A positioned read: all or nothing; reading nothing succeeds anywhere that is not negative. */
  function ReadAt(file: seq<byte>, off: int, n: nat): (data: Option<seq<byte>>)
    ensures data.Some? ==> |data.value| == n
  {
    if off < 0 then None
    else if n == 0 then Some([])
    else if off + n > |file| then None
    else Some(file[off..off + n])
  }

  function Signed64(x: nat): int {
    if x % 0x1_0000_0000_0000_0000 < 0x8000_0000_0000_0000 then x % 0x1_0000_0000_0000_0000
    else x % 0x1_0000_0000_0000_0000 - 0x1_0000_0000_0000_0000
  }

  /** Bits out of range make an invalid prefix, as in the address library. */
  function DecodeRecord(buf: seq<byte>, v4: bool): Prefix
    requires |buf| == Width(v4) + 1
  {
    var bits := buf[Width(v4)];
    Prefix(v4, buf[..Width(v4)], if bits <= 8 * Width(v4) then bits else -1)
  }

  function DecodeRecords(buf: seq<byte>, n: nat, v4: bool): (out: seq<Prefix>)
    requires |buf| == n * (Width(v4) + 1)
    ensures |out| == n
  {
    if n == 0 then []
    else
      var w := Width(v4) + 1;
      assert |buf| == w + (n - 1) * w;
      [DecodeRecord(buf[..w], v4)] + DecodeRecords(buf[w..], n - 1, v4)
  }

  lemma {:induction false} DecodeRecordsSnoc(buf: seq<byte>, chunk: seq<byte>, n: nat, v4: bool)
    requires |buf| == n * (Width(v4) + 1) && |chunk| == Width(v4) + 1
    ensures |buf + chunk| == (n + 1) * (Width(v4) + 1)
    ensures DecodeRecords(buf + chunk, n + 1, v4) == DecodeRecords(buf, n, v4) + [DecodeRecord(chunk, v4)]
    decreases n
  {
    var w := Width(v4) + 1;
    assert (n + 1) * w == n * w + w;
    if n == 0 {
      assert (buf + chunk)[..w] == chunk && (buf + chunk)[w..] == [];
    } else {
      assert n * w == (n - 1) * w + w;
      assert (buf + chunk)[..w] == buf[..w] && (buf + chunk)[w..] == buf[w..] + chunk;
      DecodeRecordsSnoc(buf[w..], chunk, n - 1, v4);
    }
  }

  lemma {:induction false} DecodeRecordsStep(buf: seq<byte>, start: nat, pos: nat, i: nat, n: nat, v4: bool)
    requires i < n && start <= pos && pos - start == i * (Width(v4) + 1) && start + n * (Width(v4) + 1) <= |buf|
    ensures var w := Width(v4) + 1;
      && pos + w <= |buf| && pos + w - start == (i + 1) * w
      && DecodeRecords(buf[start..pos + w], i + 1, v4) == DecodeRecords(buf[start..pos], i, v4) + [DecodeRecord(buf[pos..pos + w], v4)]
  {
    var w := Width(v4) + 1;
    assert (i + 1) * w == i * w + w;
    assert n * w == (i + 1) * w + (n - i - 1) * w;
    assert (n - i - 1) * w >= 0;
    assert buf[start..pos + w] == buf[start..pos] + buf[pos..pos + w];
    DecodeRecordsSnoc(buf[start..pos], buf[pos..pos + w], i, v4);
  }

  lemma {:induction false} DecodeRecordsInverts(ps: seq<Prefix>, v4: bool)
    requires Canonical(ps, v4)
    ensures |Records(ps)| == |ps| * (Width(v4) + 1)
    ensures DecodeRecords(Records(ps), |ps|, v4) == ps
  {
    RecordsLen(ps, v4);
    if ps != [] {
      DecodeRecordsInverts(ps[1..], v4);
      var w := Width(v4) + 1;
      assert Records(ps)[..w] == Record(ps[0]) && Records(ps)[w..] == Records(ps[1..]);
      assert Record(ps[0])[..w - 1] == ps[0].address;
    }
  }

  type Answer = (seq<Prefix>, seq<Prefix>)

  function ReadBlob(file: seq<byte>, off: int, v4n: nat, v6n: nat): Answer {
    var buf := ReadAt(file, off, v4n * 5 + v6n * 17);
    if buf.None? then ([], [])
    else (DecodeRecords(buf.value[..v4n * 5], v4n, true), DecodeRecords(buf.value[v4n * 5..], v6n, false))
  }

  function EntryAt(file: seq<byte>, i: nat): Option<seq<byte>> {
    ReadAt(file, HEADER_LEN + i * ENTRY_LEN, ENTRY_LEN)
  }

  function AnswerFor(file: seq<byte>, entry: seq<byte>): Answer
    requires |entry| == ENTRY_LEN
  {
    ReadBlob(file, Signed64(Decode(entry[4..12])), Decode(entry[12..14]), Decode(entry[14..16]))
  }

  /** Binary search of the index between lo and hi. */
  function Search(file: seq<byte>, asn: nat, lo: nat, hi: nat): Answer
    decreases hi - lo
  {
    if lo >= hi then ([], [])
    else
      var mid := lo + (hi - lo) / 2;
      var entry := EntryAt(file, mid);
      if entry.None? then ([], [])
      else
        var cur := Decode(entry.value[0..4]);
        if cur < asn then Search(file, asn, mid + 1, hi)
        else if cur > asn then Search(file, asn, lo, mid)
        else AnswerFor(file, entry.value)
  }

  /** None when the file has no valid header, otherwise its entry count. */
  function Open(file: seq<byte>): Option<nat> {
    if |file| < HEADER_LEN || file[..8] != MAGIC then None else Some(Decode(file[8..12]))
  }

  function Lookup(file: seq<byte>, asn: nat): Answer {
    var count := Open(file);
    if count.None? then ([], []) else Search(file, asn, 0, count.value)
  }

  method PrefixesByASN(file: seq<byte>, count: nat, asn: nat) returns (v4: seq<Prefix>, v6: seq<Prefix>)
    ensures (v4, v6) == Search(file, asn, 0, count)
  {
    var lo: nat, hi: nat := 0, count;
    while lo < hi
      invariant lo <= hi <= count
      invariant Search(file, asn, lo, hi) == Search(file, asn, 0, count)
    {
      var mid := lo + (hi - lo) / 2;
      var entry := EntryAt(file, mid);
      if entry.None? {
        return [], [];
      }
      var cur := Decode(entry.value[0..4]);
      if cur < asn {
        lo := mid + 1;
      } else if cur > asn {
        hi := mid;
      } else {
        v4, v6 := DecodeBlob(file, Signed64(Decode(entry.value[4..12])), Decode(entry.value[12..14]), Decode(entry.value[14..16]));
        return;
      }
    }
    v4, v6 := [], [];
  }

  /** One cursor over the blob: first the IPv4 records, then the IPv6 ones. */
  method DecodeBlob(file: seq<byte>, off: int, v4n: nat, v6n: nat) returns (v4: seq<Prefix>, v6: seq<Prefix>)
    ensures (v4, v6) == ReadBlob(file, off, v4n, v6n)
  {
    var read := ReadAt(file, off, v4n * 5 + v6n * 17);
    if read.None? {
      return [], [];
    }
    var pos;
    v4, pos := DecodeRun(read.value, 0, v4n, true);
    v6, pos := DecodeRun(read.value, pos, v6n, false);
    assert read.value[0..v4n * 5] == read.value[..v4n * 5];
    assert read.value[v4n * 5..v4n * 5 + v6n * 17] == read.value[v4n * 5..];
  }

  method DecodeRun(buf: seq<byte>, start: nat, n: nat, v4: bool) returns (out: seq<Prefix>, pos: nat)
    requires start + n * (Width(v4) + 1) <= |buf|
    ensures pos == start + n * (Width(v4) + 1)
    ensures out == DecodeRecords(buf[start..pos], n, v4)
  {
    var w := Width(v4) + 1;
    out, pos := [], start;
    for i := 0 to n
      invariant start <= pos <= |buf| && pos - start == i * w
      invariant out == DecodeRecords(buf[start..pos], i, v4)
    {
      DecodeRecordsStep(buf, start, pos, i, n, v4);
      out, pos := out + [DecodeRecord(buf[pos..pos + w], v4)], pos + w;
    }
  }

  // ---------- The round trip ----------

  ghost predicate StrictlyByAsn(es: seq<Entry>) {
    forall i, j :: 0 <= i < j < |es| ==> es[i].asn < es[j].asn
  }

  lemma {:induction false} EntryDecodes(e: Entry, off: nat)
    requires FitsCounts(e) && off < 0x8000_0000_0000_0000
    ensures var b := EntryBytes(e, off);
      && Decode(b[0..4]) == e.asn && Signed64(Decode(b[4..12])) == off
      && Decode(b[12..14]) == |e.v4| && Decode(b[14..16]) == |e.v6|
  {
    var b := EntryBytes(e, off);
    Powers();
    DecodeEncode(e.asn, 4);
    DecodeEncode(off, 8);
    DecodeEncode(|e.v4|, 2);
    DecodeEncode(|e.v6|, 2);
    FourFields(Encode(e.asn, 4), Encode(off, 8), Encode(|e.v4|, 2), Encode(|e.v6|, 2));
  }

  lemma {:induction false} FourFields(a: seq<byte>, b: seq<byte>, c: seq<byte>, d: seq<byte>)
    requires |a| == 4 && |b| == 8 && |c| == 2 && |d| == 2
    ensures var s := a + b + c + d;
      s[0..4] == a && s[4..12] == b && s[12..14] == c && s[14..16] == d
  {
  }

  lemma {:induction false} EntryInFile(es: seq<Entry>, i: nat)
    requires AllStorable(es) && i < |es|
    ensures EntryAt(File(es), i) == Some(EntryBytes(es[i], DataStart(|es|) + DataLen(es[..i])))
  {
    var index := Index(es, DataStart(|es|));
    IndexAt(es, DataStart(|es|), i);
    SliceOfSecond(Header(|es|), index + Data(es), i * ENTRY_LEN, ENTRY_LEN);
    assert (index + Data(es))[i * ENTRY_LEN..i * ENTRY_LEN + ENTRY_LEN] == index[i * ENTRY_LEN..i * ENTRY_LEN + ENTRY_LEN];
    assert File(es) == Header(|es|) + (index + Data(es));
  }

  lemma {:induction false} BlobInFile(es: seq<Entry>, i: nat)
    requires AllStorable(es) && i < |es|
    ensures ReadAt(File(es), DataStart(|es|) + DataLen(es[..i]), BlobLen(es[i])) == Some(Blob(es[i]))
  {
    IndexAt(es, DataStart(|es|), 0);
    DataAt(es, i);
    BlobLength(es[i]);
    var front := Header(|es|) + Index(es, DataStart(|es|));
    SliceOfSecond(front, Data(es), DataLen(es[..i]), BlobLen(es[i]));
  }

  lemma {:induction false} BlobReads(file: seq<byte>, off: nat, e: Entry)
    requires Storable(e) && ReadAt(file, off, BlobLen(e)) == Some(Blob(e))
    ensures ReadBlob(file, off, |e.v4|, |e.v6|) == (e.v4, e.v6)
  {
    DecodeRecordsInverts(e.v4, true);
    DecodeRecordsInverts(e.v6, false);
    assert Blob(e)[..|e.v4| * 5] == Records(e.v4) && Blob(e)[|e.v4| * 5..] == Records(e.v6);
  }

  lemma {:induction false} AnswerIsEntry(es: seq<Entry>, i: nat)
    requires AllStorable(es) && |es| <= MAX_ENTRIES && i < |es|
    ensures Leads(File(es), es, i)
  {
    var e := es[i];
    EntryInFile(es, i);
    RegionsContiguous(es, i);
    EntryDecodes(e, DataStart(|es|) + DataLen(es[..i]));
    BlobInFile(es, i);
    BlobReads(File(es), DataStart(|es|) + DataLen(es[..i]), e);
  }

  /** Nothing outside the window carries the number. */
  ghost predicate Window(es: seq<Entry>, asn: nat, lo: nat, hi: nat) {
    && lo <= hi <= |es|
    && (forall i :: 0 <= i < lo ==> es[i].asn < asn)
    && (forall i :: hi <= i < |es| ==> es[i].asn > asn)
  }

  ghost predicate Answers(es: seq<Entry>, asn: nat, answer: Answer) {
    && (forall i :: 0 <= i < |es| && es[i].asn == asn ==> answer == (es[i].v4, es[i].v6))
    && ((forall i :: 0 <= i < |es| ==> es[i].asn != asn) ==> answer == ([], []))
  }

  /** Slot i of the index leads to entry i. */
  ghost predicate Leads(file: seq<byte>, es: seq<Entry>, i: nat)
    requires i < |es|
  {
    var entry := EntryAt(file, i);
    entry.Some? && Decode(entry.value[0..4]) == es[i].asn && AnswerFor(file, entry.value) == (es[i].v4, es[i].v6)
  }

  lemma {:induction false} WindowNext(es: seq<Entry>, asn: nat, lo: nat, hi: nat, mid: nat)
    requires StrictlyByAsn(es) && Window(es, asn, lo, hi) && lo <= mid < hi
    ensures es[mid].asn < asn ==> Window(es, asn, mid + 1, hi)
    ensures es[mid].asn > asn ==> Window(es, asn, lo, mid)
    ensures es[mid].asn == asn ==> Answers(es, asn, (es[mid].v4, es[mid].v6))
  {
  }

  lemma {:induction false} SearchStep(file: seq<byte>, es: seq<Entry>, asn: nat, lo: nat, hi: nat)
    requires lo < hi <= |es|
    requires Leads(file, es, lo + (hi - lo) / 2)
    ensures var mid := lo + (hi - lo) / 2;
      Search(file, asn, lo, hi)
      == if es[mid].asn < asn then Search(file, asn, mid + 1, hi)
         else if es[mid].asn > asn then Search(file, asn, lo, mid)
         else (es[mid].v4, es[mid].v6)
  {
  }

  lemma {:induction false} SearchAnswers(file: seq<byte>, es: seq<Entry>, asn: nat, lo: nat, hi: nat)
    requires forall i :: 0 <= i < |es| ==> Leads(file, es, i)
    requires StrictlyByAsn(es) && Window(es, asn, lo, hi)
    ensures Answers(es, asn, Search(file, asn, lo, hi))
    decreases hi - lo
  {
    if lo < hi {
      var mid := lo + (hi - lo) / 2;
      SearchStep(file, es, asn, lo, hi);
      WindowNext(es, asn, lo, hi, mid);
      if es[mid].asn < asn {
        SearchAnswers(file, es, asn, mid + 1, hi);
      } else if es[mid].asn > asn {
        SearchAnswers(file, es, asn, lo, mid);
      }
    }
  }

  lemma {:induction false} OpenWritten(es: seq<Entry>)
    requires AllStorable(es) && |es| <= MAX_ENTRIES
    ensures Open(File(es)) == Some(|es|)
  {
    var file := File(es);
    Powers();
    DecodeEncode(|es|, 4);
    assert file[..8] == MAGIC;
    assert file[8..12] == Encode(|es|, 4);
  }

  function AsnCount(es: seq<Entry>, asn: nat): nat {
    if es == [] then 0 else (if es[0].asn == asn then 1 else 0) + AsnCount(es[1..], asn)
  }

  lemma {:induction false} PlaceCounts(e: Entry, s: seq<Entry>, asn: nat)
    ensures AsnCount(PlaceEntry(e, s), asn) == AsnCount(s, asn) + (if e.asn == asn then 1 else 0)
  {
    if s != [] && s[0].asn < e.asn {
      PlaceCounts(e, s[1..], asn);
    }
  }

  lemma {:induction false} SortCounts(entries: seq<Entry>, asn: nat)
    ensures AsnCount(SortByAsn(entries), asn) == AsnCount(entries, asn)
  {
    if entries != [] {
      SortCounts(entries[1..], asn);
      PlaceCounts(entries[0], SortByAsn(entries[1..]), asn);
    }
  }

  lemma {:induction false} CountAbsent(es: seq<Entry>, asn: nat)
    ensures AsnCount(es, asn) == 0 <==> forall i :: 0 <= i < |es| ==> es[i].asn != asn
  {
    if es != [] {
      CountAbsent(es[1..], asn);
      assert forall i :: 1 <= i < |es| ==> es[i] == es[1..][i - 1];
      assert forall i :: 0 <= i < |es[1..]| ==> es[1..][i] == es[i + 1];
    }
  }

  ghost predicate DistinctAsns(es: seq<Entry>) {
    forall i, j :: 0 <= i < j < |es| ==> es[i].asn != es[j].asn
  }

  ghost predicate EachOnce(es: seq<Entry>) {
    forall asn: nat :: AsnCount(es, asn) <= 1
  }

  lemma {:induction false} CountDistinct(es: seq<Entry>)
    ensures DistinctAsns(es) <==> EachOnce(es)
  {
    if es != [] {
      var rest := es[1..];
      CountDistinct(rest);
      CountAbsent(rest, es[0].asn);
      assert forall i :: 0 <= i < |rest| ==> rest[i] == es[i + 1];
      if DistinctAsns(es) {
        assert DistinctAsns(rest);
        forall asn: nat ensures AsnCount(es, asn) <= 1 {
          assert AsnCount(rest, asn) <= 1;
        }
      }
      if EachOnce(es) {
        assert AsnCount(es, es[0].asn) <= 1;
        assert EachOnce(rest) by {
          forall asn: nat ensures AsnCount(rest, asn) <= 1 {
            assert AsnCount(es, asn) <= 1;
          }
        }
        forall i, j | 0 <= i < j < |es| ensures es[i].asn != es[j].asn {
          assert rest[j - 1] == es[j];
          if i > 0 { assert rest[i - 1].asn != rest[j - 1].asn; }
        }
      }
    }
  }

  lemma {:induction false} SortKeepsDistinct(entries: seq<Entry>)
    ensures DistinctAsns(entries) <==> DistinctAsns(SortByAsn(entries))
  {
    CountDistinct(entries);
    CountDistinct(SortByAsn(entries));
    forall asn: nat ensures AsnCount(SortByAsn(entries), asn) == AsnCount(entries, asn) {
      SortCounts(entries, asn);
    }
    if EachOnce(entries) {
      forall asn: nat ensures AsnCount(SortByAsn(entries), asn) <= 1 {
        assert AsnCount(entries, asn) <= 1;
      }
    }
    if EachOnce(SortByAsn(entries)) {
      forall asn: nat ensures AsnCount(entries, asn) <= 1 {
        assert AsnCount(SortByAsn(entries), asn) <= 1;
      }
    }
  }

  /** Sorting moves entries around and nothing else. */
  lemma {:induction false} SortMembers(entries: seq<Entry>, e: Entry)
    ensures e in SortByAsn(entries) <==> e in entries
  {
    assert e in multiset(SortByAsn(entries)) <==> e in multiset(entries);
  }

  lemma {:induction false} PreparedStorable(entries: seq<Entry>)
    requires Accepted(entries)
    ensures AllStorable(Prepared(entries)) && StrictlyByAsn(Prepared(entries)) && |Prepared(entries)| <= MAX_ENTRIES
  {
    var sorted := SortByAsn(entries);
    var es := Prepared(entries);
    SortByAsnOrdered(entries);
    SortKeepsDistinct(entries);
    forall i | 0 <= i < |es| ensures Storable(es[i]) {
      NormalizedExact(sorted[i].v4, true);
      NormalizedExact(sorted[i].v6, false);
      SortMembers(entries, sorted[i]);
      var j :| 0 <= j < |entries| && entries[j] == sorted[i];
    }
  }

  /**
  Whatever entries the writer accepts, a lookup in the written file returns, for every AS number,
  exactly the normalised prefixes of its entry, and nothing for a number without one.
   */
  lemma {:induction false} RoundTrip(entries: seq<Entry>, asn: nat)
    requires Accepted(entries)
    ensures AllStorable(Prepared(entries))
    ensures var answer := Lookup(File(Prepared(entries)), asn);
      && (forall i :: 0 <= i < |entries| && entries[i].asn == asn ==>
            answer == (Normalized(entries[i].v4, true), Normalized(entries[i].v6, false)))
      && ((forall i :: 0 <= i < |entries| ==> entries[i].asn != asn) ==> answer == ([], []))
  {
    var es := Prepared(entries);
    var sorted := SortByAsn(entries);
    PreparedStorable(entries);
    OpenWritten(es);
    forall i | 0 <= i < |es| ensures Leads(File(es), es, i) {
      AnswerIsEntry(es, i);
    }
    SearchAnswers(File(es), es, asn, 0, |es|);
    forall i | 0 <= i < |entries| && entries[i].asn == asn
      ensures Lookup(File(es), asn) == (Normalized(entries[i].v4, true), Normalized(entries[i].v6, false))
    {
      SortMembers(entries, entries[i]);
      var j :| 0 <= j < |sorted| && sorted[j] == entries[i];
      assert es[j] == NormalizeEntry(entries[i]);
    }
    if forall i :: 0 <= i < |entries| ==> entries[i].asn != asn {
      forall j | 0 <= j < |es| ensures es[j].asn != asn {
        SortMembers(entries, sorted[j]);
      }
    }
  }

  // ---------- Writing ----------

  datatype WriteError = TooManyEntries | DuplicateAsn | TooManyPrefixes | WriterFailed

  /**
  A destination: unless it is reliable, it takes any first part of what it is given and may report an
  error, or a count that cannot be.  `faults` counts the calls that did either or took nothing.
   */
  class Sink {
    const reliable: bool
    var written: seq<byte>
    var faults: nat

    constructor (reliable: bool)
      ensures this.reliable == reliable && written == [] && faults == 0
    {
      this.reliable := reliable;
      written, faults := [], 0;
    }

    function State(): (seq<byte>, nat)
      reads this
    {
      (written, faults)
    }

    method Write(data: seq<byte>) returns (n: int, failed: bool)
      modifies this
      ensures old(written) <= written <= old(written) + data
      ensures 0 <= n <= |data| ==> written == old(written) + data[..n]
      ensures faults == old(faults) + if failed || n <= 0 || n > |data| then 1 else 0
      ensures reliable ==> n == |data| && !failed
    {
      n, failed := *, *;
      if reliable {
        n, failed := |data|, false;
      }
      var taken: int := *;
      taken := if 0 <= n <= |data| then n else if 0 <= taken <= |data| then taken else 0;
      written := written + data[..taken];
      faults := faults + if failed || n <= 0 || n > |data| then 1 else 0;
    }
  }

  /** The bytes arrive in order: all of them exactly when no call was at fault, a first part of them otherwise. */
  predicate Delivered(before: (seq<byte>, nat), now: (seq<byte>, nat), data: seq<byte>, ok: bool) {
    && before.0 <= now.0 <= before.0 + data && before.1 <= now.1
    && (ok <==> now.1 == before.1)
    && (ok ==> now.0 == before.0 + data)
  }

  method WriteAll(sink: Sink, data: seq<byte>) returns (ok: bool)
    modifies sink
    ensures Delivered(old(sink.State()), sink.State(), data, ok)
    ensures sink.reliable ==> ok
  {
    var rest := data;
    assert old(sink.written) + data[..0] == old(sink.written);
    while rest != []
      invariant |rest| <= |data| && rest == data[|data| - |rest|..]
      invariant sink.written == old(sink.written) + data[..|data| - |rest|] && sink.faults == old(sink.faults)
    {
      var n, failed := sink.Write(rest);
      StillPrefix(old(sink.written), data, |data| - |rest|, sink.written);
      if n < 0 || n > |rest| {
        return false;
      }
      assert data[..|data| - |rest|] + rest[..n] == data[..|data| - |rest| + n];
      rest := rest[n..];
      if failed || n == 0 {
        return false;
      }
    }
    assert data[..|data|] == data;
    ok := true;
  }

  lemma {:induction false} StillPrefix(before: seq<byte>, data: seq<byte>, i: nat, now: seq<byte>)
    requires i <= |data| && before + data[..i] <= now <= before + data[..i] + data[i..]
    ensures before <= now <= before + data
  {
    assert data[..i] + data[i..] == data;
    assert before + data[..i] + data[i..] == before + data;
  }

  lemma {:induction false} StillWithin(now: seq<byte>, earlier: seq<byte>, part: seq<byte>, rest: seq<byte>, all: seq<byte>)
    requires earlier <= now <= earlier + part && earlier + (part + rest) == all
    ensures now <= all
  {
    assert earlier + (part + rest) == earlier + part + rest;
  }

  method Prepare(entries: seq<Entry>) returns (prepared: Result<seq<Entry>, WriteError>)
    ensures prepared.Ok? <==> Accepted(entries)
    ensures prepared.Err? ==> !prepared.error.WriterFailed?
    ensures prepared.Ok? ==> prepared.value == Prepared(entries)
  {
    if |entries| > MAX_ENTRIES {
      return Err(TooManyEntries);
    }
    var sorted := SortByAsn(entries);
    SortByAsnOrdered(entries);
    SortKeepsDistinct(entries);
    prepared := PrepareSorted(sorted);
    if prepared.Ok? {
      forall e | e in entries ensures e in sorted {
        SortMembers(entries, e);
      }
      AllAccepted(entries, sorted, prepared.value);
      assert prepared.value == NormalizeEntries(sorted);
    } else if DistinctAsns(sorted) {
      var j :| 0 <= j < |sorted| && !FitsCounts(NormalizeEntry(sorted[j]));
      NotAccepted(entries, sorted[j]);
    }
  }

  /** The loop over the sorted entries stops at the first repeated number or oversized family. */
  method PrepareSorted(sorted: seq<Entry>) returns (prepared: Result<seq<Entry>, WriteError>)
    requires AsnOrdered(sorted)
    ensures prepared.Ok? ==> DistinctAsns(sorted) && Normalizes(sorted, prepared.value)
    ensures prepared.Ok? ==> forall j :: 0 <= j < |sorted| ==> FitsCounts(prepared.value[j])
    ensures prepared.Err? ==> prepared.error.DuplicateAsn? || prepared.error.TooManyPrefixes?
    ensures prepared.Err? ==> !DistinctAsns(sorted) || exists j :: 0 <= j < |sorted| && !FitsCounts(NormalizeEntry(sorted[j]))
  {
    var out: seq<Entry> := [];
    for i := 0 to |sorted|
      invariant |out| == i && forall j :: 0 <= j < i ==> out[j] == NormalizeEntry(sorted[j])
      invariant forall j :: 0 <= j < i ==> FitsCounts(out[j])
      invariant forall j, k :: 0 <= j < k < i ==> sorted[j].asn < sorted[k].asn
    {
      if i > 0 && sorted[i - 1].asn == sorted[i].asn {
        assert !DistinctAsns(sorted);
        return Err(DuplicateAsn);
      }
      var v4 := NormalizePrefixes(sorted[i].v4, true);
      var v6 := NormalizePrefixes(sorted[i].v6, false);
      var entry := Entry(sorted[i].asn, v4, v6);
      assert entry == NormalizeEntry(sorted[i]);
      if |v4| > MAX_PREFIXES || |v6| > MAX_PREFIXES {
        assert !FitsCounts(NormalizeEntry(sorted[i]));
        return Err(TooManyPrefixes);
      }
      out := out + [entry];
    }
    prepared := Ok(out);
  }

  ghost predicate Normalizes(sorted: seq<Entry>, out: seq<Entry>) {
    |out| == |sorted| && forall j :: 0 <= j < |out| ==> out[j] == NormalizeEntry(sorted[j])
  }

  lemma {:induction false} AllAccepted(entries: seq<Entry>, sorted: seq<Entry>, out: seq<Entry>)
    requires |entries| <= MAX_ENTRIES && DistinctAsns(entries) && Normalizes(sorted, out)
    requires forall e :: e in entries ==> e in sorted
    requires forall j :: 0 <= j < |out| ==> FitsCounts(out[j])
    ensures Accepted(entries)
  {
    forall i | 0 <= i < |entries| ensures FitsCounts(NormalizeEntry(entries[i])) {
      FitsWherever(sorted, out, entries[i]);
    }
  }

  lemma {:induction false} FitsWherever(sorted: seq<Entry>, out: seq<Entry>, e: Entry)
    requires Normalizes(sorted, out) && e in sorted
    requires forall j :: 0 <= j < |out| ==> FitsCounts(out[j])
    ensures FitsCounts(NormalizeEntry(e))
  {
    var j :| 0 <= j < |sorted| && sorted[j] == e;
    assert FitsCounts(out[j]);
  }

  lemma {:induction false} NotAccepted(entries: seq<Entry>, e: Entry)
    requires e in SortByAsn(entries) && !FitsCounts(NormalizeEntry(e))
    ensures !Accepted(entries)
  {
    SortMembers(entries, e);
  }

  /** The index, with a running data offset. */
  method BuildIndex(es: seq<Entry>) returns (index: seq<byte>)
    ensures index == Index(es, DataStart(|es|))
  {
    var dataOff: nat := DataStart(|es|);
    index := [];
    for i := 0 to |es|
      invariant index + Index(es[i..], dataOff) == Index(es, DataStart(|es|))
    {
      assert es[i..][1..] == es[i + 1..];
      index := index + EntryBytes(es[i], dataOff);
      dataOff := dataOff + BlobLen(es[i]);
    }
  }

  method FillRecord(record: array<byte>, p: Prefix)
    requires IsValid(p) && record.Length == V6_WIDTH + 1
    modifies record
    ensures record[..Width(p.v4) + 1] == Record(p)
  {
    var w := Width(p.v4);
    forall k | 0 <= k < w {
      record[k] := p.address[k];
    }
    record[w] := p.bits;
    assert record[..w + 1] == p.address + [p.bits];
  }

  /** One family's records through a buffer that is used over and over. */
  method WriteRecords(sink: Sink, record: array<byte>, ps: seq<Prefix>, v4: bool) returns (ok: bool)
    requires Canonical(ps, v4) && record.Length == V6_WIDTH + 1
    modifies sink, record
    ensures Delivered(old(sink.State()), sink.State(), Records(ps), ok)
    ensures sink.reliable ==> ok
  {
    for i := 0 to |ps|
      invariant old(sink.written) <= sink.written && sink.faults == old(sink.faults)
      invariant sink.written + Records(ps[i..]) == old(sink.written) + Records(ps)
    {
      ghost var earlier := sink.written;
      assert ps[i..][1..] == ps[i + 1..];
      FillRecord(record, ps[i]);
      ok := WriteAll(sink, record[..Width(v4) + 1]);
      StillWithin(sink.written, earlier, Record(ps[i]), Records(ps[i + 1..]), old(sink.written) + Records(ps));
      if !ok {
        return;
      }
    }
    ok := true;
  }

  method WriteBlob(sink: Sink, record: array<byte>, e: Entry) returns (ok: bool)
    requires Storable(e) && record.Length == V6_WIDTH + 1
    modifies sink, record
    ensures Delivered(old(sink.State()), sink.State(), Blob(e), ok)
    ensures sink.reliable ==> ok
  {
    ghost var before := sink.State();
    ok := WriteRecords(sink, record, e.v4, true);
    ghost var middle, half := sink.State(), ok;
    if ok {
      ok := WriteRecords(sink, record, e.v6, false);
    }
    BothDelivered(before, middle, sink.State(), Records(e.v4), Records(e.v6), half, ok);
  }

  lemma {:induction false} DataCons(done: seq<byte>, es: seq<Entry>, i: nat)
    requires AllStorable(es) && i < |es|
    ensures AllStorable(es[i..]) && AllStorable(es[i + 1..])
    ensures done + Data(es[i..]) == done + Blob(es[i]) + Data(es[i + 1..])
  {
    assert es[i..][1..] == es[i + 1..];
  }

  method WriteData(sink: Sink, es: seq<Entry>) returns (ok: bool)
    requires AllStorable(es)
    modifies sink
    ensures Delivered(old(sink.State()), sink.State(), Data(es), ok)
    ensures sink.reliable ==> ok
  {
    var record := new byte[V6_WIDTH + 1];
    for i := 0 to |es|
      invariant old(sink.written) <= sink.written && sink.faults == old(sink.faults)
      invariant sink.written + Data(es[i..]) == old(sink.written) + Data(es)
    {
      ghost var earlier := sink.written;
      DataCons(earlier, es, i);
      ok := WriteBlob(sink, record, es[i]);
      StillWithin(sink.written, earlier, Blob(es[i]), Data(es[i + 1..]), old(sink.written) + Data(es));
      if !ok {
        return;
      }
    }
    ok := true;
  }

  /**
  Rejected entries leave the destination untouched.  Accepted ones put the whole file behind what was
  there, unless the destination is at fault: that is reported, and a first part of the file is there.
   */
  method Write(sink: Sink, entries: seq<Entry>) returns (err: Option<WriteError>)
    modifies sink
    ensures !Accepted(entries) ==> err.Some? && !err.value.WriterFailed? && sink.State() == old(sink.State())
    ensures Accepted(entries) ==> err.None? || err == Some(WriterFailed)
    ensures Accepted(entries) ==>
      AllStorable(Prepared(entries)) && Delivered(old(sink.State()), sink.State(), File(Prepared(entries)), err.None?)
    ensures sink.reliable ==> (err.None? <==> Accepted(entries))
  {
    var prepared := Prepare(entries);
    if prepared.Err? {
      return Some(prepared.error);
    }
    PreparedStorable(entries);
    var ok := WriteFile(sink, prepared.value);
    err := if ok then None else Some(WriterFailed);
  }

  method WriteFile(sink: Sink, es: seq<Entry>) returns (ok: bool)
    requires AllStorable(es)
    modifies sink
    ensures Delivered(old(sink.State()), sink.State(), File(es), ok)
    ensures sink.reliable ==> ok
  {
    var header := Header(|es|);
    ghost var before, rest := sink.State(), Index(es, DataStart(|es|)) + Data(es);
    ok := WriteAll(sink, header);
    ghost var first := sink.State();
    if ok {
      var index := BuildIndex(es);
      ok := WriteAll(sink, index);
      ghost var second := sink.State();
      if ok {
        ok := WriteData(sink, es);
      }
      BothDelivered(first, second, sink.State(), index, Data(es), second.1 == first.1, ok);
    }
    BothDelivered(before, first, sink.State(), header, rest, first.1 == before.1, ok);
    assert header + rest == File(es);
  }

  /** Two deliveries, the second only after the first succeeded, are one. */
  lemma {:induction false} BothDelivered(before: (seq<byte>, nat), middle: (seq<byte>, nat), now: (seq<byte>, nat),
                                         first: seq<byte>, second: seq<byte>, half: bool, ok: bool)
    requires Delivered(before, middle, first, half)
    requires if half then Delivered(middle, now, second, ok) else now == middle && !ok
    ensures Delivered(before, now, first + second, ok)
  {
    assert before.0 + first + second == before.0 + (first + second);
  }
}
