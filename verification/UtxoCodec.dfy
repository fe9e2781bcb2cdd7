/** The compact encoding of the UTXO set: varints, script templates, entries, and the "CUTX" blob. */
module UtxoCodec {
  import opened BigEndian
  import opened Primitives

  const TWO_63: nat := 0x8000_0000_0000_0000

  /** A decoded value with the number of bytes it took. */
  type Decoded<T> = Option<(T, nat)>

  // ---- little-endian integers ------------------------------------------------------------

  function ToLe(v: nat, n: nat): (s: seq<byte>)
    ensures |s| == n
  {
    if n == 0 then [] else [v % 256] + ToLe(v / 256, n - 1)
  }

  function FromLe(s: seq<byte>): nat {
    if s == [] then 0 else s[0] + 256 * FromLe(s[1..])
  }

  lemma {:induction false} LeRoundTrip(v: nat, n: nat)
    requires v < Pow256(n)
    ensures FromLe(ToLe(v, n)) == v
  {
    if n > 0 {
      LeRoundTrip(v / 256, n - 1);
      assert ToLe(v, n)[1..] == ToLe(v / 256, n - 1);
    }
  }

  lemma {:induction false} LeBound(s: seq<byte>)
    ensures FromLe(s) < Pow256(|s|)
  {
    if s != [] {
      LeBound(s[1..]);
    }
  }

  // ---- varints ---------------------------------------------------------------------------

  function EncodeVarint(v: u64): seq<byte> {
    if v <= 0xFC then [v]
    else if v <= 0xFFFF then [0xFD] + ToLe(v, 2)
    else if v <= 0xFFFF_FFFF then [0xFE] + ToLe(v, 4)
    else [0xFF] + ToLe(v, 8)
  }

  function DecodeVarint(data: seq<byte>): (r: Decoded<u64>)
    ensures r != None ==> 1 <= r.value.1 <= |data|
  {
    if data == [] then None
    else if data[0] <= 0xFC then Some((data[0], 1))
    else
      var n := if data[0] == 0xFD then 2 else if data[0] == 0xFE then 4 else 8;
      if |data| < 1 + n then None
      else
        LeBound(data[1..1 + n]);
        Pow256Values();
        Some((FromLe(data[1..1 + n]), 1 + n))
  }

  lemma VarintRoundTrip(v: u64, tail: seq<byte>)
    ensures DecodeVarint(EncodeVarint(v) + tail) == Some((v, |EncodeVarint(v)|))
  {
    Pow256Values();
    if v > 0xFC {
      var n := if v <= 0xFFFF then 2 else if v <= 0xFFFF_FFFF then 4 else 8;
      LeRoundTrip(v, n);
      assert (EncodeVarint(v) + tail)[1..1 + n] == ToLe(v, n);
    }
  }

  predicate OpenReads(k: int) { true }
  predicate OpenScript(k: int) { true }
  predicate OpenUtxo(k: int) { true }
  predicate OpenEntry(k: int) { true }

  /** Sealed: `data` starts with the varint `v` in `n` bytes. */
  ghost predicate ReadsVarint(data: seq<byte>, v: u64, n: nat) {
    forall k: int {:trigger OpenReads(k)} :: OpenReads(k) ==> DecodeVarint(data) == Some((v, n))
  }

  lemma VarintReads(v: u64, tail: seq<byte>)
    ensures ReadsVarint(EncodeVarint(v) + tail, v, |EncodeVarint(v)|)
  {
    VarintRoundTrip(v, tail);
  }

  // ---- scripts ---------------------------------------------------------------------------

  predicate IsP2pkh(s: seq<byte>) {
    |s| == 25 && s[0] == 0x76 && s[1] == 0xA9 && s[2] == 0x14 && s[23] == 0x88 && s[24] == 0xAC
  }

  predicate IsP2wpkh(s: seq<byte>) {
    |s| == 22 && s[0] == 0x00 && s[1] == 0x14
  }

  predicate IsP2tr(s: seq<byte>) {
    |s| == 34 && s[0] == 0x51 && s[1] == 0x20
  }

  /** Templates keep only their hash or key; anything else is stored raw. */
  function CompressScript(s: seq<byte>): seq<byte>
    requires |s| < TWO_64
  {
    if IsP2pkh(s) then [0x00] + s[3..23]
    else if IsP2wpkh(s) then [0x01] + s[2..22]
    else if IsP2tr(s) then [0x02] + s[2..34]
    else [0x03] + EncodeVarint(|s|) + s
  }

  function DecompressScript(data: seq<byte>): (r: Decoded<seq<byte>>)
    ensures r != None ==> r.value.1 <= |data|
  {
    if data == [] then None
    else if data[0] == 0x00 then
      if |data| < 21 then None else Some(([0x76, 0xA9, 0x14] + data[1..21] + [0x88, 0xAC], 21))
    else if data[0] == 0x01 then
      if |data| < 21 then None else Some(([0x00, 0x14] + data[1..21], 21))
    else if data[0] == 0x02 then
      if |data| < 33 then None else Some(([0x51, 0x20] + data[1..33], 33))
    else if data[0] == 0x03 then
      var len := DecodeVarint(data[1..]);
      if len == None then None else
        var start := 1 + len.value.1;
        if |data| < start + len.value.0 then None else Some((data[start..start + len.value.0], start + len.value.0))
    else None
  }

  lemma KeyHashShrinks(key: seq<byte>)
    requires |key| == 20
    ensures CompressScript([0x76, 0xA9, 0x14] + key + [0x88, 0xAC]) == [0x00] + key
  {
    var s := [0x76, 0xA9, 0x14] + key + [0x88, 0xAC];
    assert IsP2pkh(s) && s[3..23] == key;
  }

  lemma WitnessHashShrinks(key: seq<byte>)
    requires |key| == 20
    ensures CompressScript([0x00, 0x14] + key) == [0x01] + key
  {
    var s := [0x00, 0x14] + key;
    assert IsP2wpkh(s) && s[2..22] == key;
  }

  lemma TaprootShrinks(key: seq<byte>)
    requires |key| == 32
    ensures CompressScript([0x51, 0x20] + key) == [0x02] + key
  {
    var s := [0x51, 0x20] + key;
    assert IsP2tr(s) && s[2..34] == key;
  }

  /** No script of any of the three forms. */
  ghost predicate Plain(s: seq<byte>) {
    && (|s| == 25 ==> s != [0x76, 0xA9, 0x14] + s[3..23] + [0x88, 0xAC])
    && (|s| == 22 ==> s != [0x00, 0x14] + s[2..22]) && (|s| == 34 ==> s != [0x51, 0x20] + s[2..34])
  }

  lemma PlainIff(s: seq<byte>)
    ensures Plain(s) <==> !IsP2pkh(s) && !IsP2wpkh(s) && !IsP2tr(s)
  {
    if IsP2pkh(s) {
      assert s == [0x76, 0xA9, 0x14] + s[3..23] + [0x88, 0xAC];
    }
    if IsP2wpkh(s) {
      assert s == [0x00, 0x14] + s[2..22];
    }
    if IsP2tr(s) {
      assert s == [0x51, 0x20] + s[2..34];
    }
  }

  lemma PlainStays(s: seq<byte>)
    requires |s| < TWO_64 && Plain(s)
    ensures CompressScript(s) == [0x03] + EncodeVarint(|s|) + s
  {
    PlainIff(s);
  }

  /** The three templates keep a type byte and their hash or key; every other script a type byte, its length
      and itself. */
  lemma TemplatesShrink(key: seq<byte>, s: seq<byte>)
    requires |s| < TWO_64
    ensures |key| == 20 ==> CompressScript([0x76, 0xA9, 0x14] + key + [0x88, 0xAC]) == [0x00] + key
    ensures |key| == 20 ==> CompressScript([0x00, 0x14] + key) == [0x01] + key
    ensures |key| == 32 ==> CompressScript([0x51, 0x20] + key) == [0x02] + key
    ensures Plain(s) ==> CompressScript(s) == [0x03] + EncodeVarint(|s|) + s
  {
    if |key| == 20 {
      KeyHashShrinks(key);
      WitnessHashShrinks(key);
    } else if |key| == 32 {
      TaprootShrinks(key);
    }
    if Plain(s) {
      PlainStays(s);
    }
  }

  lemma ScriptRoundTrip(s: seq<byte>, tail: seq<byte>)
    requires |s| < TWO_64
    ensures DecompressScript(CompressScript(s) + tail) == Some((s, |CompressScript(s)|))
  {
    if IsP2pkh(s) {
      TemplateReads(0x00, s[3..23], tail);
      assert s == [0x76, 0xA9, 0x14] + s[3..23] + [0x88, 0xAC];
    } else if IsP2wpkh(s) {
      TemplateReads(0x01, s[2..22], tail);
      assert s == [0x00, 0x14] + s[2..22];
    } else if IsP2tr(s) {
      TemplateReads(0x02, s[2..34], tail);
      assert s == [0x51, 0x20] + s[2..34];
    } else {
      RawRoundTrip(s, tail);
    }
  }

  /** What is read behind a template's type byte. */
  lemma TemplateReads(kind: byte, key: seq<byte>, tail: seq<byte>)
    ensures var data := [kind] + key + tail; data[0] == kind && |data| >= 1 + |key| && data[1..1 + |key|] == key
  {}

  lemma RawRoundTrip(s: seq<byte>, tail: seq<byte>)
    requires |s| < TWO_64
    ensures DecompressScript([0x03] + EncodeVarint(|s|) + s + tail) == Some((s, 1 + |EncodeVarint(|s|)| + |s|))
  {
    var v := EncodeVarint(|s|);
    var data := [0x03] + v + s + tail;
    VarintRoundTrip(|s|, s + tail);
    assert data[1..] == v + (s + tail);
    assert data[1 + |v|..1 + |v| + |s|] == s;
  }

  ghost predicate ReadsScript(data: seq<byte>, s: seq<byte>, n: nat) {
    forall k: int {:trigger OpenScript(k)} :: OpenScript(k) ==> DecompressScript(data) == Some((s, n))
  }

  lemma ScriptReads(s: seq<byte>, tail: seq<byte>)
    requires |s| < TWO_64
    ensures ReadsScript(CompressScript(s) + tail, s, |CompressScript(s)|)
  {
    ScriptRoundTrip(s, tail);
  }

  lemma Splits(a: seq<byte>, b: seq<byte>, c: seq<byte>, tail: seq<byte>)
    ensures var data := a + b + c + tail;
            data[..|a|] == a && data == a + (b + c + tail) && data[|a|..] == b + (c + tail)
              && data[|a| + |b|..] == c + tail
  {}

  // ---- entries ---------------------------------------------------------------------------

  /** Height and coinbase flag in one number; the top bit of the height is shifted out. */
  function HeightCode(u: Utxo): u64 {
    (u.height * 2) % TWO_64 + (if u.isCoinbase then 1 else 0)
  }

  function CompressUtxo(u: Utxo): seq<byte>
    requires |u.output.script| < TWO_64
  {
    EncodeVarint(HeightCode(u)) + EncodeVarint(u.output.value) + CompressScript(u.output.script)
  }

  function DecompressUtxo(data: seq<byte>): (r: Decoded<Utxo>)
    ensures r != None ==> r.value.1 <= |data|
  {
    var code := DecodeVarint(data);
    if code == None then None else
      var c1 := code.value.1;
      var value := DecodeVarint(data[c1..]);
      if value == None then None else
        var c2 := c1 + value.value.1;
        var script := DecompressScript(data[c2..]);
        if script == None then None else
          Some((Utxo(TxOut(value.value.0, script.value.0), code.value.0 / 2, code.value.0 % 2 == 1),
            c2 + script.value.1))
  }

  /** What survives the encoding: the height loses its top bit. */
  function Clipped(u: Utxo): Utxo {
    u.(height := u.height % TWO_63)
  }

  lemma SmallHeight(u: Utxo)
    ensures Clipped(u) == u <==> u.height < TWO_63
  {}

  lemma CodeRoundTrip(u: Utxo)
    ensures HeightCode(u) / 2 == u.height % TWO_63 && (HeightCode(u) % 2 == 1 <==> u.isCoinbase)
  {
    assert u.height == TWO_63 * (u.height / TWO_63) + u.height % TWO_63;
    assert u.height * 2 == TWO_64 * (u.height / TWO_63) + u.height % TWO_63 * 2;
    assert (u.height * 2) % TWO_64 == u.height % TWO_63 * 2;
  }

  ghost predicate ReadsUtxo(data: seq<byte>, u: Utxo, n: nat) {
    forall k: int {:trigger OpenUtxo(k)} :: OpenUtxo(k) ==> DecompressUtxo(data) == Some((u, n))
  }

  lemma UtxoFrom(a: seq<byte>, b: seq<byte>, c: seq<byte>, tail: seq<byte>, code: u64, value: u64, script: seq<byte>)
    requires ReadsVarint(a + (b + c + tail), code, |a|) && ReadsVarint(b + (c + tail), value, |b|)
             && ReadsScript(c + tail, script, |c|)
    ensures ReadsUtxo(a + b + c + tail, Utxo(TxOut(value, script), code / 2, code % 2 == 1), |a| + |b| + |c|)
  {
    Splits(a, b, c, tail);
    assert OpenReads(0) && OpenScript(0);
  }

  lemma UtxoReads(u: Utxo, tail: seq<byte>)
    requires |u.output.script| < TWO_64
    ensures ReadsUtxo(CompressUtxo(u) + tail, Clipped(u), |CompressUtxo(u)|)
  {
    var a, b, s := EncodeVarint(HeightCode(u)), EncodeVarint(u.output.value), CompressScript(u.output.script);
    assert ReadsVarint(a + (b + s + tail), HeightCode(u), |a|) by { VarintReads(HeightCode(u), b + s + tail); }
    assert ReadsVarint(b + (s + tail), u.output.value, |b|) by { VarintReads(u.output.value, s + tail); }
    assert ReadsScript(s + tail, u.output.script, |s|) by { ScriptReads(u.output.script, tail); }
    UtxoFrom(a, b, s, tail, HeightCode(u), u.output.value, u.output.script);
    CodeRoundTrip(u);
  }

  /** With any bytes after it, an entry decodes to itself less the top bit of its height. */
  lemma EntryRoundTrip(u: Utxo, tail: seq<byte>)
    requires |u.output.script| < TWO_64
    ensures DecompressUtxo(CompressUtxo(u) + tail) == Some((Clipped(u), |CompressUtxo(u)|))
  {
    UtxoReads(u, tail);
    assert OpenUtxo(0);
  }

  /** An entry decodes to itself exactly when its height is below 2^63. */
  lemma EntryExact(u: Utxo, tail: seq<byte>)
    requires |u.output.script| < TWO_64
    ensures DecompressUtxo(CompressUtxo(u) + tail) == Some((u, |CompressUtxo(u)|)) <==> u.height < TWO_63
  {
    EntryRoundTrip(u, tail);
    SmallHeight(u);
  }

  // ---- the whole set ---------------------------------------------------------------------

  const MAGIC: seq<byte> := [0x43, 0x55, 0x54, 0x58]

  /** An outpoint with its txid as the 32 bytes written out. */
  datatype Coin = Coin(txid: Bytes32, vout: u32)
  type Coins = map<Coin, Utxo>

  ghost predicate Encodable(m: Coins) {
    |m| < TWO_64 && forall o :: o in m ==> |m[o].output.script| < TWO_64
  }

  function CompressEntry(o: Coin, u: Utxo): seq<byte>
    requires |u.output.script| < TWO_64
  {
    o.txid + EncodeVarint(o.vout) + CompressUtxo(u)
  }

  /** Entries in iteration order. */
  function CompressEntries(m: Coins, order: seq<Coin>): seq<byte>
    requires forall i :: 0 <= i < |order| ==> order[i] in m && |m[order[i]].output.script| < TWO_64
  {
    if order == [] then [] else CompressEntry(order[0], m[order[0]]) + CompressEntries(m, order[1..])
  }

  function CompressSet(m: Coins, order: seq<Coin>): seq<byte>
    requires |order| < TWO_64 && forall i :: 0 <= i < |order| ==> order[i] in m && |m[order[i]].output.script| < TWO_64
  {
    MAGIC + EncodeVarint(|order|) + CompressEntries(m, order)
  }

  /** `order` lists the keys of `m`, each once. */
  ghost predicate Enumerates(order: seq<Coin>, m: Coins) {
    && (forall i, j :: 0 <= i < j < |order| ==> order[i] != order[j])
    && forall o :: o in m <==> o in order
  }

  function DecompressEntry(data: seq<byte>): (r: Decoded<(Coin, Utxo)>)
    ensures r != None ==> r.value.1 <= |data|
  {
    if |data| < 32 then None else
      var vout := DecodeVarint(data[32..]);
      if vout == None then None else
        var c := 32 + vout.value.1;
        var u := DecompressUtxo(data[c..]);
        if u == None then None
        else Some(((Coin(data[..32], vout.value.0 % TWO_32), u.value.0), c + u.value.1))
  }

  /** A decoder of entries that never takes more bytes than there are. */
  type Reader = f: seq<byte> -> Decoded<(Coin, Utxo)> | forall d :: f(d) != None ==>
      f(d).value.1 <= |d| witness d => None

  /** `count` entries added one after the other. */
  function DecompressEntries(read: Reader, data: seq<byte>, count: nat, m: Coins): Option<Coins> {
    if count == 0 then Some(m) else
      var e := read(data);
      if e == None then None
      else DecompressEntries(read, data[e.value.1..], count - 1, m[e.value.0.0 := e.value.0.1])
  }

  function Decompressed(data: seq<byte>): Option<Coins> {
    if |data| < 4 || data[..4] != MAGIC then None else
      var count := DecodeVarint(data[4..]);
      if count == None then None
      else DecompressEntries(DecompressEntry, data[4 + count.value.1..], count.value.0, map[])
  }

  ghost predicate ReadsEntry(data: seq<byte>, o: Coin, u: Utxo, n: nat) {
    forall k: int {:trigger OpenEntry(k)} :: OpenEntry(k) ==> DecompressEntry(data) == Some(((o, u), n))
  }

  lemma EntryParts(data: seq<byte>, o: Coin, k: nat, u: Utxo, n: nat)
    requires |data| >= 32 + k && data[..32] == o.txid && ReadsVarint(data[32..], o.vout, k)
             && ReadsUtxo(data[32 + k..], u, n)
    ensures ReadsEntry(data, o, u, 32 + k + n)
  {
    assert OpenReads(0) && OpenUtxo(0);
  }

  lemma EntryFrom(o: Coin, v: seq<byte>, c: seq<byte>, tail: seq<byte>, u: Utxo)
    requires ReadsVarint(v + (c + tail), o.vout, |v|) && ReadsUtxo(c + tail, u, |c|)
    ensures ReadsEntry(o.txid + v + c + tail, o, u, 32 + |v| + |c|)
  {
    Splits(o.txid, v, c, tail);
    EntryParts(o.txid + v + c + tail, o, |v|, u, |c|);
  }

  lemma EntryReads(o: Coin, u: Utxo, tail: seq<byte>)
    requires |u.output.script| < TWO_64
    ensures ReadsEntry(CompressEntry(o, u) + tail, o, Clipped(u), |CompressEntry(o, u)|)
  {
    VarintReads(o.vout, CompressUtxo(u) + tail);
    UtxoReads(u, tail);
    EntryBytes(o, EncodeVarint(o.vout), CompressUtxo(u), tail, Clipped(u), CompressEntry(o, u));
  }

  lemma EntryBytes(o: Coin, v: seq<byte>, c: seq<byte>, tail: seq<byte>, u: Utxo, e: seq<byte>)
    requires ReadsVarint(v + (c + tail), o.vout, |v|) && ReadsUtxo(c + tail, u, |c|) && e == o.txid + v + c
    ensures ReadsEntry(e + tail, o, u, |e|)
  {
    EntryFrom(o, v, c, tail, u);
  }

  /** Adding the listed entries of `m`, clipped, to `start`. */
  ghost function Added(m: Coins, order: seq<Coin>, start: Coins): Coins
    requires forall i :: 0 <= i < |order| ==> order[i] in m
  {
    if order == [] then start else Added(m, order[1..], start[order[0] := Clipped(m[order[0]])])
  }

  lemma EntriesStep(first: seq<byte>, rest: seq<byte>, count: nat, o: Coin, u: Utxo, start: Coins)
    requires ReadsEntry(first + rest, o, u, |first|) && count > 0
    ensures DecompressEntries(DecompressEntry, first + rest, count, start) ==
            DecompressEntries(DecompressEntry, rest, count - 1, start[o := u])
  {
    assert OpenEntry(0);
    assert (first + rest)[|first|..] == rest;
  }

  lemma {:induction false} EntriesRoundTrip(m: Coins, order: seq<Coin>, start: Coins, tail: seq<byte>)
    requires forall i :: 0 <= i < |order| ==> order[i] in m && |m[order[i]].output.script| < TWO_64
    ensures DecompressEntries(DecompressEntry, CompressEntries(m, order) + tail, |order|, start) ==
            Some(Added(m, order, start))
  {
    if order != [] {
      var first, rest := CompressEntry(order[0], m[order[0]]), CompressEntries(m, order[1..]);
      EntryReads(order[0], m[order[0]], rest + tail);
      assert CompressEntries(m, order) + tail == first + (rest + tail);
      EntriesStep(first, rest + tail, |order|, order[0], Clipped(m[order[0]]), start);
      EntriesRoundTrip(m, order[1..], start[order[0] := Clipped(m[order[0]])], tail);
    }
  }

  lemma {:induction false} AddedIs(m: Coins, order: seq<Coin>, start: Coins)
    requires forall i :: 0 <= i < |order| ==> order[i] in m
    ensures forall o :: o in Added(m, order, start) <==> o in order || o in start
    ensures forall o :: o in order ==> Added(m, order, start)[o] == Clipped(m[o])
    ensures forall o :: o in start && o !in order ==> Added(m, order, start)[o] == start[o]
  {
    if order != [] {
      AddedIs(m, order[1..], start[order[0] := Clipped(m[order[0]])]);
    }
  }

  /** The blob decodes, whatever follows it and whatever order the set was written in, to the set it
      encodes, if and only if every height is below 2^63. */
  lemma SetRoundTrip(m: Coins, order: seq<Coin>, tail: seq<byte>)
    requires Encodable(m) && Enumerates(order, m) && |order| < TWO_64
    ensures Decompressed(CompressSet(m, order) + tail) == Some(m) <==> forall o :: o in m ==> m[o].height < TWO_63
  {
    BlobDecodes(m, order, tail);
    AddedExact(m, order);
  }

  lemma AddedExact(m: Coins, order: seq<Coin>)
    requires Enumerates(order, m)
    ensures Added(m, order, map[]) == m <==> forall o :: o in m ==> m[o].height < TWO_63
  {
    AddedIs(m, order, map[]);
    var back := Added(m, order, map[]);
    forall o | o in m ensures back[o] == m[o] <==> m[o].height < TWO_63 {
      SmallHeight(m[o]);
    }
    assert back.Keys == m.Keys;
  }

  lemma HeaderReads(v: seq<byte>, rest: seq<byte>, count: u64)
    requires ReadsVarint(v + rest, count, |v|)
    ensures Decompressed(MAGIC + v + rest) == DecompressEntries(DecompressEntry, rest, count, map[])
  {
    AfterMagic(v, rest);
    assert OpenReads(0);
  }

  lemma AfterMagic(v: seq<byte>, rest: seq<byte>)
    ensures var data := MAGIC + v + rest;
            |data| >= 4 && data[..4] == MAGIC && data[4..] == v + rest && data[4 + |v|..] == rest
  {}

  lemma BlobDecodes(m: Coins, order: seq<Coin>, tail: seq<byte>)
    requires |order| < TWO_64 && forall i :: 0 <= i < |order| ==> order[i] in m && |m[order[i]].output.script| < TWO_64
    ensures Decompressed(CompressSet(m, order) + tail) == Some(Added(m, order, map[]))
  {
    var v, body := EncodeVarint(|order|), CompressEntries(m, order);
    VarintReads(|order|, body + tail);
    HeaderReads(v, body + tail, |order|);
    assert CompressSet(m, order) + tail == MAGIC + v + (body + tail);
    EntriesRoundTrip(m, order, map[], tail);
  }

  lemma DropDrop(data: seq<byte>, i: nat, j: nat)
    requires i + j <= |data|
    ensures data[i..][j..] == data[i + j..]
  {}

  /** `decompress_utxo_set`, with its position cursor. */
  method DecompressUtxoSet(data: seq<byte>) returns (r: Option<Coins>)
    ensures r == Decompressed(data)
  {
    if |data| < 4 || data[0..4] != MAGIC {
      return None;
    }
    var count := DecodeVarint(data[4..]);
    if count == None {
      return None;
    }
    r := ReadEntries(DecompressEntry, data, 4 + count.value.1, count.value.0);
  }

  method ReadEntries(read: Reader, data: seq<byte>, start: nat, count: nat) returns (r: Option<Coins>)
    requires start <= |data|
    ensures r == DecompressEntries(read, data[start..], count, map[])
  {
    var pos := start;
    var m: Coins := map[];
    for i := 0 to count
      invariant 0 <= pos <= |data|
      invariant DecompressEntries(read, data[pos..], count - i, m) ==
                DecompressEntries(read, data[start..], count, map[])
    {
      var e := read(data[pos..]);
      if e == None {
        return None;
      }
      DropDrop(data, pos, e.value.1);
      pos := pos + e.value.1;
      m := m[e.value.0.0 := e.value.0.1];
    }
    r := Some(m);
  }
}
