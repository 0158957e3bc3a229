/** The subset of the Borsh binary format that the program's records use:
    little-endian fixed-width unsigned integers, 32-byte public keys written
    raw, and fixed-length arrays of keys written back to back with no length
    prefix. A record is the concatenation of its fields in declaration order,
    so a record layout is just a list of field kinds (a schema). */
module Borsh {
  import opened Types

  datatype Kind = U8 | U32 | U64 | U128 | Key | KeyArray(len: nat)

  datatype Value = Int(n: nat) | KeyValue(key: Pubkey) | KeysValue(keys: seq<Pubkey>)

  function Width(k: Kind): nat {
    match k
    case U8 => 1
    case U32 => 4
    case U64 => 8
    case U128 => 16
    case Key => KEY_BYTES
    case KeyArray(n) => KEY_BYTES * n
  }

  /** 256^w: one more than the largest unsigned integer that fits in w bytes. */
  function Pow256(w: nat): (p: nat)
    ensures p > 0
  {
    if w == 0 then 1 else 256 * Pow256(w - 1)
  }

  /** One more than the largest value of an integer kind. */
  function Limit(k: Kind): nat {
    match k
    case U8 => U8_LIMIT
    case U32 => U32_LIMIT
    case U64 => U64_LIMIT
    case U128 => U128_LIMIT
    case _ => 0
  }

  /** The integer limits are the powers of 256 of the widths. */
  lemma LimitIsPow256(k: Kind)
    requires !k.Key? && !k.KeyArray?
    ensures Limit(k) == Pow256(Width(k))
  {
    assert Pow256(1) == 0x100;
    assert Pow256(2) == 0x1_0000;
    assert Pow256(4) == 0x1_0000_0000 by {
      assert Pow256(3) == 0x100_0000;
    }
    assert Pow256(8) == 0x1_0000_0000_0000_0000 by {
      assert Pow256(5) == 0x100_0000_0000;
      assert Pow256(6) == 0x1_0000_0000_0000;
      assert Pow256(7) == 0x100_0000_0000_0000;
    }
    assert Pow256(16) == 0x1_0000_0000_0000_0000_0000_0000_0000_0000 by {
      assert Pow256(9) == 0x100_0000_0000_0000_0000;
      assert Pow256(10) == 0x1_0000_0000_0000_0000_0000;
      assert Pow256(11) == 0x100_0000_0000_0000_0000_0000;
      assert Pow256(12) == 0x1_0000_0000_0000_0000_0000_0000;
      assert Pow256(13) == 0x100_0000_0000_0000_0000_0000_0000;
      assert Pow256(14) == 0x1_0000_0000_0000_0000_0000_0000_0000;
      assert Pow256(15) == 0x100_0000_0000_0000_0000_0000_0000_0000;
    }
  }

  /** Whether `v` is a value of kind `k`. */
  predicate Fits(k: Kind, v: Value) {
    match k
    case Key => v.KeyValue?
    case KeyArray(n) => v.KeysValue? && |v.keys| == n
    case _ => v.Int? && v.n < Limit(k)
  }

  // ---------------------------------------------------------------------------
  // Little-endian unsigned integers

  function ToLittleEndian(n: nat, w: nat): (b: seq<u8>)
    requires n < Pow256(w)
    ensures |b| == w
  {
    if w == 0 then [] else [n % 256] + ToLittleEndian(n / 256, w - 1)
  }

  function FromLittleEndian(b: seq<u8>): (n: nat)
    ensures n < Pow256(|b|)
  {
    if |b| == 0 then 0 else b[0] + 256 * FromLittleEndian(b[1..])
  }

  lemma {:induction false} FromToLittleEndian(n: nat, w: nat)
    requires n < Pow256(w)
    ensures FromLittleEndian(ToLittleEndian(n, w)) == n
  {
    if w > 0 {
      var b := ToLittleEndian(n, w);
      assert b[1..] == ToLittleEndian(n / 256, w - 1);
      FromToLittleEndian(n / 256, w - 1);
    }
  }

  lemma {:induction false} ToFromLittleEndian(b: seq<u8>)
    ensures ToLittleEndian(FromLittleEndian(b), |b|) == b
  {
    if |b| > 0 {
      var n := FromLittleEndian(b);
      var m := FromLittleEndian(b[1..]);
      assert n == b[0] + 256 * m;
      assert n % 256 == b[0] && n / 256 == m;
      ToFromLittleEndian(b[1..]);
      assert b == [b[0]] + b[1..];
    }
  }

  // ---------------------------------------------------------------------------
  // Fixed arrays of public keys (no length prefix)

  function ConcatKeys(ks: seq<Pubkey>): (b: seq<u8>)
    ensures |b| == KEY_BYTES * |ks|
  {
    if |ks| == 0 then [] else ks[0] + ConcatKeys(ks[1..])
  }

  function SplitKeys(b: seq<u8>, n: nat): (ks: seq<Pubkey>)
    requires |b| == KEY_BYTES * n
    ensures |ks| == n
  {
    if n == 0 then [] else [b[..KEY_BYTES]] + SplitKeys(b[KEY_BYTES..], n - 1)
  }

  lemma {:induction false} SplitConcatKeys(ks: seq<Pubkey>)
    ensures SplitKeys(ConcatKeys(ks), |ks|) == ks
  {
    if |ks| > 0 {
      var b := ConcatKeys(ks);
      assert b[..KEY_BYTES] == ks[0];
      assert b[KEY_BYTES..] == ConcatKeys(ks[1..]);
      SplitConcatKeys(ks[1..]);
      assert ks == [ks[0]] + ks[1..];
    }
  }

  lemma {:induction false} ConcatSplitKeys(b: seq<u8>, n: nat)
    requires |b| == KEY_BYTES * n
    ensures ConcatKeys(SplitKeys(b, n)) == b
  {
    if n > 0 {
      var ks := SplitKeys(b, n);
      assert ks[1..] == SplitKeys(b[KEY_BYTES..], n - 1);
      ConcatSplitKeys(b[KEY_BYTES..], n - 1);
      assert b == b[..KEY_BYTES] + b[KEY_BYTES..];
    }
  }

  // ---------------------------------------------------------------------------
  // One field

  function EncodeValue(k: Kind, v: Value): (b: seq<u8>)
    requires Fits(k, v)
    ensures |b| == Width(k)
  {
    match k
    case Key => v.key
    case KeyArray(n) => ConcatKeys(v.keys)
    case _ => LimitIsPow256(k); ToLittleEndian(v.n, Width(k))
  }

  function DecodeValue(k: Kind, b: seq<u8>): (v: Value)
    requires |b| == Width(k)
    ensures Fits(k, v)
  {
    match k
    case Key => KeyValue(b)
    case KeyArray(n) => KeysValue(SplitKeys(b, n))
    case _ => LimitIsPow256(k); Int(FromLittleEndian(b))
  }

  lemma ValueRoundTrip(k: Kind, v: Value)
    requires Fits(k, v)
    ensures DecodeValue(k, EncodeValue(k, v)) == v
  {
    match k
    case Key =>
    case KeyArray(n) => SplitConcatKeys(v.keys);
    case _ =>
      LimitIsPow256(k);
      FromToLittleEndian(v.n, Width(k));
  }

  lemma BytesRoundTrip(k: Kind, b: seq<u8>)
    requires |b| == Width(k)
    ensures EncodeValue(k, DecodeValue(k, b)) == b
  {
    match k
    case Key =>
    case KeyArray(n) => ConcatSplitKeys(b, n);
    case _ => ToFromLittleEndian(b);
  }

  // ---------------------------------------------------------------------------
  // Whole records

  function SchemaWidth(s: seq<Kind>): nat {
    if |s| == 0 then 0 else Width(s[0]) + SchemaWidth(s[1..])
  }

  predicate FitsAll(s: seq<Kind>, vs: seq<Value>) {
    |s| == |vs| && forall i :: 0 <= i < |s| ==> Fits(s[i], vs[i])
  }

  function Encode(s: seq<Kind>, vs: seq<Value>): (b: seq<u8>)
    requires FitsAll(s, vs)
    ensures |b| == SchemaWidth(s)
  {
    if |s| == 0 then []
    else
      assert Fits(s[0], vs[0]);
      assert FitsAll(s[1..], vs[1..]) by {
        forall i | 0 <= i < |s| - 1
          ensures Fits(s[1..][i], vs[1..][i])
        {
          assert Fits(s[i + 1], vs[i + 1]);
        }
      }
      EncodeValue(s[0], vs[0]) + Encode(s[1..], vs[1..])
  }

  function Decode(s: seq<Kind>, b: seq<u8>): (vs: seq<Value>)
    requires |b| == SchemaWidth(s)
    ensures FitsAll(s, vs)
  {
    if |s| == 0 then []
    else
      var w := Width(s[0]);
      var rest := Decode(s[1..], b[w..]);
      var vs := [DecodeValue(s[0], b[..w])] + rest;
      assert forall i | 1 <= i < |s| :: vs[i] == rest[i - 1] && s[i] == s[1..][i - 1];
      vs
  }

  /** The encoding of a non-empty record is its first field followed by the
      encoding of the rest. */
  lemma EncodeCons(s: seq<Kind>, vs: seq<Value>)
    requires FitsAll(s, vs) && |s| > 0
    ensures Fits(s[0], vs[0]) && FitsAll(s[1..], vs[1..])
    ensures Encode(s, vs) == EncodeValue(s[0], vs[0]) + Encode(s[1..], vs[1..])
  {
    FitsAllTail(s, vs);
  }

  /** Decoding a non-empty record decodes its first field from the first
      bytes and the rest from what follows. */
  lemma DecodeCons(s: seq<Kind>, b: seq<u8>)
    requires |b| == SchemaWidth(s) && |s| > 0
    ensures Width(s[0]) <= |b|
    ensures Decode(s, b) == [DecodeValue(s[0], b[..Width(s[0])])] + Decode(s[1..], b[Width(s[0])..])
  {
  }

  lemma ConcatParts(head: seq<u8>, tail: seq<u8>)
    ensures (head + tail)[..|head|] == head && (head + tail)[|head|..] == tail
  {
  }

  lemma {:induction false} DecodeEncode(s: seq<Kind>, vs: seq<Value>)
    requires FitsAll(s, vs)
    ensures Decode(s, Encode(s, vs)) == vs
  {
    if |s| > 0 {
      EncodeCons(s, vs);
      var head := EncodeValue(s[0], vs[0]);
      var tail := Encode(s[1..], vs[1..]);
      ConcatParts(head, tail);
      DecodeCons(s, head + tail);
      ValueRoundTrip(s[0], vs[0]);
      DecodeEncode(s[1..], vs[1..]);
      assert vs == [vs[0]] + vs[1..];
    }
  }

  lemma {:induction false} EncodeDecode(s: seq<Kind>, b: seq<u8>)
    requires |b| == SchemaWidth(s)
    ensures Encode(s, Decode(s, b)) == b
  {
    if |s| > 0 {
      var w := Width(s[0]);
      DecodeCons(s, b);
      var vs := Decode(s, b);
      assert vs[0] == DecodeValue(s[0], b[..w]);
      assert vs[1..] == Decode(s[1..], b[w..]);
      EncodeCons(s, vs);
      BytesRoundTrip(s[0], b[..w]);
      EncodeDecode(s[1..], b[w..]);
      assert b == b[..w] + b[w..];
    }
  }

  /** Byte offset at which field `i` of a record with schema `s` starts. */
  function Offset(s: seq<Kind>, i: nat): nat
    requires i <= |s|
  {
    SchemaWidth(s[..i])
  }

  lemma {:induction false} SchemaWidthSplit(s: seq<Kind>, i: nat)
    requires i <= |s|
    ensures SchemaWidth(s) == SchemaWidth(s[..i]) + SchemaWidth(s[i..])
  {
    if i > 0 {
      assert s[1..][..i - 1] == s[..i][1..];
      assert s[1..][i - 1..] == s[i..];
      SchemaWidthSplit(s[1..], i - 1);
    }
  }

  lemma SliceOfConcat(x: seq<u8>, y: seq<u8>, j: nat, k: nat)
    requires j <= k <= |y|
    ensures (x + y)[|x| + j..|x| + k] == y[j..k]
  {
  }

  lemma FitsAllTail(s: seq<Kind>, vs: seq<Value>)
    requires FitsAll(s, vs) && |s| > 0
    ensures Fits(s[0], vs[0]) && FitsAll(s[1..], vs[1..])
  {
    assert Fits(s[0], vs[0]);
    forall j | 0 <= j < |s| - 1
      ensures Fits(s[1..][j], vs[1..][j])
    {
      assert Fits(s[j + 1], vs[j + 1]);
    }
  }

  lemma OffsetStep(s: seq<Kind>, i: nat)
    requires 0 < i <= |s|
    ensures Offset(s, i) == Width(s[0]) + Offset(s[1..], i - 1)
  {
    assert s[..i][1..] == s[1..][..i - 1];
  }

  lemma OffsetBound(s: seq<Kind>, i: nat)
    requires i < |s|
    ensures Offset(s, i) + Width(s[i]) <= SchemaWidth(s)
  {
    SchemaWidthSplit(s, i);
    assert s[i..] == [s[i]] + s[i + 1..];
  }

  /** If field `i - 1` of the rest of a record sits at its offset there,
      field `i` of the whole record sits at its offset in the whole. */
  lemma FieldShift(s: seq<Kind>, vs: seq<Value>, i: nat, o: nat, x: seq<u8>)
    requires FitsAll(s, vs) && 0 < i < |s|
    requires o == Offset(s[1..], i - 1) && o + |x| <= SchemaWidth(s[1..])
    requires FitsAll(s[1..], vs[1..]) && Encode(s[1..], vs[1..])[o..o + |x|] == x
    ensures Offset(s, i) + |x| <= SchemaWidth(s)
    ensures Encode(s, vs)[Offset(s, i)..Offset(s, i) + |x|] == x
  {
    EncodeCons(s, vs);
    OffsetStep(s, i);
    SliceOfConcat(EncodeValue(s[0], vs[0]), Encode(s[1..], vs[1..]), o, o + |x|);
  }

  /** Field `i` is encoded, on its own, at `Offset(s, i)`: the record format
      adds no separators, tags or length prefixes between fields. */
  lemma {:induction false} FieldAtOffset(s: seq<Kind>, vs: seq<Value>, i: nat)
    requires FitsAll(s, vs)
    requires i < |s|
    ensures Offset(s, i) + Width(s[i]) <= SchemaWidth(s)
    ensures Encode(s, vs)[Offset(s, i)..Offset(s, i) + Width(s[i])] == EncodeValue(s[i], vs[i])
  {
    OffsetBound(s, i);
    if i == 0 {
      EncodeCons(s, vs);
      assert s[..0] == [];
    } else {
      FitsAllTail(s, vs);
      FieldAtOffset(s[1..], vs[1..], i - 1);
      assert s[1..][i - 1] == s[i] && vs[1..][i - 1] == vs[i];
      FieldShift(s, vs, i, Offset(s[1..], i - 1), EncodeValue(s[i], vs[i]));
    }
  }
}
