/** The bridge message decoder (include/evm_runtime/bridge.hpp) and the Solidity encoder it
    has to undo: calldata of `bridgeMsgV0(string,bool,bytes)`. */
module BridgeMessage {
  import opened Options

  const TWO_32: nat := 0x1_0000_0000
  const SELECTOR: Bytes := [0xf7, 0x81, 0x18, 0x5b]

  datatype MessageV0 = MessageV0(account: Bytes, forceAtomic: bool, data: Bytes)

  /** `Abort` is a failed check, `Unknown` the empty optional. */
  datatype Decoded = Abort | Unknown | Decoded(msg: MessageV0)

  // ---- words ----

  function Pow256(n: nat): (r: nat)
    ensures r >= 1
  {
    if n == 0 then 1 else 256 * Pow256(n - 1)
  }

  /** Big-endian value. */
  function FromBE(s: Bytes): nat {
    if s == [] then 0 else FromBE(s[..|s| - 1]) * 256 + s[|s| - 1]
  }

  function ToBE(n: nat, len: nat): (s: Bytes)
    ensures |s| == len
  {
    if len == 0 then [] else ToBE(n / 256, len - 1) + [n % 256]
  }

  lemma {:induction false} FromToBE(n: nat, len: nat)
    requires n < Pow256(len)
    ensures FromBE(ToBE(n, len)) == n
    decreases len
  {
    if len > 0 {
      FromToBE(n / 256, len - 1);
      var s := ToBE(n, len);
      assert s[..|s| - 1] == ToBE(n / 256, len - 1);
    }
  }

  function Word(n: nat): (s: Bytes)
    ensures |s| == 32
  {
    ToBE(n, 32)
  }

  const TWO_256: nat := Pow256(32)

  lemma Pow256Grows(m: nat, n: nat)
    requires m <= n
    ensures Pow256(m) <= Pow256(n)
  {
    if m < n {
      Pow256Grows(m, n - 1);
    }
  }

  lemma WordsAreWide()
    ensures TWO_32 * TWO_32 <= TWO_256
  {
    assert Pow256(4) == TWO_32;
    assert Pow256(8) == TWO_32 * TWO_32;
    Pow256Grows(8, 32);
  }

  function Zeros(n: nat): (s: Bytes)
    ensures |s| == n
  {
    seq(n, _ => 0)
  }

  function Ceil32(n: nat): nat {
    (n + 31) / 32 * 32
  }

  // ---- the encoder (Contract ABI Specification, "Formal Specification of the Encoding") ----

  /** A dynamic `bytes` or `string`: its length, then the bytes padded to whole words. */
  function EncodeBytes(s: Bytes): Bytes {
    Word(|s|) + s + Zeros(Ceil32(|s|) - |s|)
  }

  function Encode(m: MessageV0): Bytes {
    SELECTOR
    + Word(0x60)
    + Word(if m.forceAtomic then 1 else 0)
    + Word(0x60 + |EncodeBytes(m.account)|)
    + EncodeBytes(m.account)
    + EncodeBytes(m.data)
  }

  // ---- the decoder ----

  /** `std::string::resize` / `std::vector::resize`. */
  function Resize(s: Bytes, n: nat): (r: Bytes)
    ensures |r| == n
  {
    if n <= |s| then s[..n] else s + Zeros(n - |s|)
  }

  /** `(len+31)/32*32` in 32-bit arithmetic. */
  function Padded(len: nat): nat {
    (len + 31) % TWO_32 / 32 * 32
  }

  /** `datastream::read` at a position; running past the end aborts. */
  function ReadAt(s: Bytes, pos: nat, n: nat): (r: Option<Bytes>)
    ensures r.Some? <==> pos + n <= |s|
    ensures r.Some? ==> r.value == s[pos..pos + n]
  {
    if pos + n <= |s| then Some(s[pos..pos + n]) else None
  }

  function WordAt(s: Bytes, pos: nat): Option<nat> {
    var b :- ReadAt(s, pos, 32);
    Some(FromBE(b))
  }

  /** `get_length` and the padded read after it; also where the cursor ends up. */
  function BlobAt(s: Bytes, pos: nat): Option<(Bytes, nat)> {
    var len :- WordAt(s, pos);
    :- Need(len < TWO_32 - 1);
    var b :- ReadAt(s, pos + 32, Padded(len));
    Some((Resize(b, len), pos + 32 + Padded(len)))
  }

  function DecodeV0(s: Bytes, pos: nat): Option<MessageV0> {
    var offset1 :- WordAt(s, pos);
    :- Need(offset1 == 0x60);
    var value2 :- WordAt(s, pos + 32);
    :- Need(value2 <= 1);
    var offset3 :- WordAt(s, pos + 64);
    :- Need(offset3 == 0xA0);
    var account :- BlobAt(s, pos + 96);
    var data :- BlobAt(s, account.1);
    Some(MessageV0(account.0, value2 == 1, data.0))
  }

  function Decode(s: Bytes): Decoded {
    match ReadAt(s, 0, 4)
    case None => Abort
    case Some(id) =>
      if id != SELECTOR then Unknown
      else
        match DecodeV0(s, 4)
        case None => Abort
        case Some(m) => Decoded(m)
  }

  // ---- decoding undoes encoding ----

  lemma WordRoundTrip(s: Bytes, pos: nat, n: nat)
    requires pos + 32 <= |s| && s[pos..pos + 32] == Word(n) && n < TWO_256
    ensures WordAt(s, pos) == Some(n)
  {
    FromToBE(n, 32);
  }

  predicate AllZero(s: Bytes) {
    forall i :: 0 <= i < |s| ==> s[i] == 0
  }

  /** When a length-prefixed blob comes back: the exact lengths, and the quirk that past
      2^32 - 32 the padded length wraps to zero and the bytes are never read. */
  predicate Readable(b: Bytes) {
    |b| < TWO_32 - 31 || (|b| < TWO_32 - 1 && AllZero(b))
  }

  /** Where the three parts of a concatenation sit inside a longer sequence. */
  lemma Parts(s: Bytes, pos: nat, a: Bytes, b: Bytes, c: Bytes)
    requires pos + |a| + |b| + |c| <= |s| && s[pos..pos + |a| + |b| + |c|] == a + b + c
    ensures s[pos..pos + |a|] == a
    ensures s[pos + |a|..pos + |a| + |b|] == b
    ensures s[pos + |a| + |b|..pos + |a| + |b| + |c|] == c
  {
    var e := s[pos..pos + |a| + |b| + |c|];
    assert e[..|a|] == a;
    SubSlice(s, pos, |e|, |a|, |a| + |b|);
    assert e[|a|..|a| + |b|] == b;
    SubSlice(s, pos, |e|, |a| + |b|, |e|);
    assert e[|a| + |b|..|e|] == c;
  }

  lemma SubSlice(s: Bytes, pos: nat, n: nat, i: nat, j: nat)
    requires pos + n <= |s| && i <= j <= n
    ensures s[pos..pos + n][i..j] == s[pos + i..pos + j]
  {
    var x, y := s[pos..pos + n][i..j], s[pos + i..pos + j];
    assert forall k :: 0 <= k < j - i ==> x[k] == s[pos + i + k] && y[k] == s[pos + i + k];
  }

  lemma PaddedLength(len: nat)
    requires len < TWO_32 - 1
    ensures Padded(len) == if len < TWO_32 - 31 then Ceil32(len) else 0
    ensures len <= Ceil32(len) < len + 32
  {
  }

  lemma BlobRoundTrip(s: Bytes, pos: nat, b: Bytes)
    requires |b| < TWO_256
    requires pos + |EncodeBytes(b)| <= |s| && s[pos..pos + |EncodeBytes(b)|] == EncodeBytes(b)
    ensures BlobAt(s, pos).Some? <==> |b| < TWO_32 - 1
    ensures BlobAt(s, pos).Some? ==> (BlobAt(s, pos).value.0 == b <==> Readable(b))
    ensures |b| < TWO_32 - 31 ==> BlobAt(s, pos) == Some((b, pos + |EncodeBytes(b)|))
  {
    Parts(s, pos, Word(|b|), b, Zeros(Ceil32(|b|) - |b|));
    WordRoundTrip(s, pos, |b|);
    if |b| < TWO_32 - 1 {
      PaddedLength(|b|);
      var p := pos + 32;
      if |b| < TWO_32 - 31 {
        assert s[p..p + Ceil32(|b|)][..|b|] == s[p..p + |b|];
      } else {
        assert Resize(s[p..p], |b|) == Zeros(|b|);
        assert AllZero(b) <==> b == Zeros(|b|);
      }
    }
  }

  lemma HeadParts(s: Bytes, sel: Bytes, w1: Bytes, w2: Bytes, w3: Bytes, rest: Bytes)
    requires |sel| == 4 && |w1| == |w2| == |w3| == 32 && s == sel + w1 + w2 + w3 + rest
    ensures |s| == 100 + |rest| && s[..4] == sel && s[4..36] == w1 && s[36..68] == w2 && s[68..100] == w3
    ensures s[100..] == rest
  {
  }

  lemma HeadOfEncoding(m: MessageV0, t: Bytes)
    ensures var s := Encode(m) + t;
            && |s| >= 100
            && s[..4] == SELECTOR
            && s[4..36] == Word(0x60)
            && s[36..68] == Word(if m.forceAtomic then 1 else 0)
            && s[68..100] == Word(0x60 + |EncodeBytes(m.account)|)
            && s[100..] == EncodeBytes(m.account) + EncodeBytes(m.data) + t
  {
    var rest := EncodeBytes(m.account) + EncodeBytes(m.data) + t;
    var w2 := Word(if m.forceAtomic then 1 else 0);
    var w3 := Word(0x60 + |EncodeBytes(m.account)|);
    assert Encode(m) + t == SELECTOR + Word(0x60) + w2 + w3 + rest;
    HeadParts(Encode(m) + t, SELECTOR, Word(0x60), w2, w3, rest);
  }

  /** The offset of the payload is the one accepted exactly for accounts of 1 to 32 bytes. */
  lemma PayloadOffset(s: Bytes, len: nat)
    requires |s| >= 100 && len < TWO_256 - 0x100 && s[68..100] == Word(0x60 + 32 + Ceil32(len))
    ensures WordAt(s, 68) == Some(0xA0) <==> 1 <= len <= 32
  {
    OneWord(len);
    WordRoundTrip(s, 68, 0x60 + 32 + Ceil32(len));
  }

  lemma OneWord(len: nat)
    ensures Ceil32(len) == 32 <==> 1 <= len <= 32
    ensures Ceil32(len) < len + 32
  {
  }

  lemma TailRoundTrip(s: Bytes, account: Bytes, data: Bytes, t: Bytes)
    requires |account| < TWO_32 - 31 && |data| < TWO_256
    requires |s| >= 100 && s[100..] == EncodeBytes(account) + EncodeBytes(data) + t
    ensures var p := 100 + |EncodeBytes(account)|;
            && BlobAt(s, 100) == Some((account, p))
            && (BlobAt(s, p).Some? <==> |data| < TWO_32 - 1)
            && (BlobAt(s, p).Some? && BlobAt(s, p).value.0 == data <==> Readable(data))
  {
    var ea, ed := EncodeBytes(account), EncodeBytes(data);
    WordsAreWide();
    assert s[100..100 + |ea| + |ed| + |t|] == s[100..];
    Parts(s, 100, ea, ed, t);
    BlobRoundTrip(s, 100, account);
    BlobRoundTrip(s, 100 + |ea|, data);
  }

  lemma DecodeByParts(s: Bytes, m: MessageV0, p: nat)
    requires |s| >= 4 && s[..4] == SELECTOR
    requires WordAt(s, 4) == Some(0x60) && WordAt(s, 36) == Some(if m.forceAtomic then 1 else 0)
    requires WordAt(s, 68) == Some(0xA0) <==> 1 <= |m.account| <= 32
    requires 1 <= |m.account| <= 32 ==>
               && BlobAt(s, 100) == Some((m.account, p))
               && (BlobAt(s, p).Some? && BlobAt(s, p).value.0 == m.data <==> Readable(m.data))
    ensures Decode(s) == Decoded(m) <==> 1 <= |m.account| <= 32 && Readable(m.data)
  {
  }

  lemma HeadWords(m: MessageV0, t: Bytes)
    requires |m.account| < TWO_256 - 0x100
    ensures var s := Encode(m) + t;
            && |s| >= 100 && s[..4] == SELECTOR
            && WordAt(s, 4) == Some(0x60) && WordAt(s, 36) == Some(if m.forceAtomic then 1 else 0)
            && (WordAt(s, 68) == Some(0xA0) <==> 1 <= |m.account| <= 32)
            && s[100..] == EncodeBytes(m.account) + EncodeBytes(m.data) + t
  {
    var s := Encode(m) + t;
    HeadOfEncoding(m, t);
    WordsAreWide();
    WordRoundTrip(s, 4, 0x60);
    WordRoundTrip(s, 36, if m.forceAtomic then 1 else 0);
    PayloadOffset(s, |m.account|);
  }

  /** Decoding the encoding of a message, with any bytes after it, gives the message back
      exactly when the account is 1 to 32 bytes long and the payload is readable. */
  lemma DecodeUndoesEncode(m: MessageV0, t: Bytes)
    requires |m.account| < TWO_256 - 0x100 && |m.data| < TWO_256
    ensures Decode(Encode(m) + t) == Decoded(m) <==> 1 <= |m.account| <= 32 && Readable(m.data)
  {
    var s := Encode(m) + t;
    HeadWords(m, t);
    if 1 <= |m.account| <= 32 {
      TailRoundTrip(s, m.account, m.data, t);
    }
    DecodeByParts(s, m, 100 + |EncodeBytes(m.account)|);
  }

  /** The number in 32 bytes at a position. */
  function NumberAt(s: Bytes, pos: nat): nat
    requires pos + 32 <= |s|
  {
    FromBE(s[pos..pos + 32])
  }

  /** A length-prefixed blob at a position lies within the data. */
  predicate BlobFits(s: Bytes, pos: nat) {
    pos + 32 <= |s| && NumberAt(s, pos) < TWO_32 - 1 && pos + 32 + Padded(NumberAt(s, pos)) <= |s|
  }

  /** Its bytes, whatever the padding holds: those that follow the length, or zeros where the padded
      length wraps. */
  function BlobBytes(s: Bytes, pos: nat): Bytes
    requires BlobFits(s, pos)
  {
    var len := NumberAt(s, pos);
    if len < TWO_32 - 31 then
      PaddedLength(len);
      s[pos + 32..pos + 32 + len]
    else Zeros(len)
  }

  lemma BlobMeaning(s: Bytes, pos: nat)
    ensures BlobAt(s, pos).Some? <==> BlobFits(s, pos)
    ensures BlobFits(s, pos) ==> BlobAt(s, pos) == Some((BlobBytes(s, pos), pos + 32 + Padded(NumberAt(s, pos))))
  {
    if BlobFits(s, pos) {
      var len := NumberAt(s, pos);
      PaddedLength(len);
      if len < TWO_32 - 31 {
        assert s[pos + 32..pos + 32 + Padded(len)][..len] == s[pos + 32..pos + 32 + len];
      } else {
        assert s[pos + 32..pos + 32] == [];
        assert Resize([], len) == Zeros(len);
      }
    }
  }

  /** What any calldata decodes to, canonical or not, in absolute positions. */
  lemma DecodeMeaning(s: Bytes)
    ensures |s| < 4 ==> Decode(s) == Abort
    ensures |s| >= 4 && s[..4] != SELECTOR ==> Decode(s) == Unknown
    ensures |s| >= 4 && s[..4] == SELECTOR ==>
              Decode(s) ==
              if |s| >= 100 && NumberAt(s, 4) == 0x60 && NumberAt(s, 36) <= 1 && NumberAt(s, 68) == 0xA0
                 && BlobFits(s, 100) && BlobFits(s, 132 + Padded(NumberAt(s, 100)))
              then Decoded(MessageV0(BlobBytes(s, 100), NumberAt(s, 36) == 1, BlobBytes(s, 132 + Padded(NumberAt(s, 100)))))
              else Abort
  {
    BlobMeaning(s, 100);
    if BlobFits(s, 100) {
      BlobMeaning(s, 132 + Padded(NumberAt(s, 100)));
    }
  }

  /** Which encodings are accepted at all, and that account and flag then always come back. */
  lemma DecodesWhen(m: MessageV0, t: Bytes)
    requires |m.account| < TWO_256 - 0x100 && |m.data| < TWO_256
    ensures var d := Decode(Encode(m) + t);
            && (d.Decoded? <==> 1 <= |m.account| <= 32 && |m.data| < TWO_32 - 1)
            && (d.Decoded? ==> d.msg.account == m.account && d.msg.forceAtomic == m.forceAtomic)
  {
    HeadWords(m, t);
    if 1 <= |m.account| <= 32 {
      TailRoundTrip(Encode(m) + t, m.account, m.data, t);
    }
  }

  /** An account of 33 bytes is rejected, whatever else the message holds. */
  lemma LongAccountWitness(account: Bytes, forceAtomic: bool, data: Bytes)
    requires |account| == 33 && |data| < TWO_256
    ensures Decode(Encode(MessageV0(account, forceAtomic, data))) == Abort
  {
    var m := MessageV0(account, forceAtomic, data);
    assert Encode(m) + [] == Encode(m);
    WordsAreWide();
    HeadWords(m, []);
  }

  /** The shortest payload whose padded length wraps: its bytes come back as zeros. */
  lemma WrappedPayloadWitness()
    ensures var m := MessageV0([97], false, seq(TWO_32 - 31, _ => 1));
            Decode(Encode(m)) != Decoded(m)
  {
    var data: Bytes := seq(TWO_32 - 31, _ => 1);
    var m := MessageV0([97], false, data);
    WordsAreWide();
    assert data[0] == 1;
    assert Encode(m) + [] == Encode(m);
    DecodeUndoesEncode(m, []);
  }

  // ---- the decoder as it is written: a cursor over the calldata ----

  class DataStream {
    const data: Bytes
    var pos: nat

    constructor (data: Bytes)
      ensures this.data == data && pos == 0
    {
      this.data := data;
      pos := 0;
    }

    method Read(n: nat) returns (r: Option<Bytes>)
      modifies this
      ensures r == ReadAt(data, old(pos), n)
      ensures r.Some? ==> pos == old(pos) + n
    {
      if |data| < pos + n {
        return None;
      }
      r := Some(data[pos..pos + n]);
      pos := pos + n;
    }

    method ReadWord() returns (r: Option<nat>)
      modifies this
      ensures r == WordAt(data, old(pos))
      ensures r.Some? ==> pos == old(pos) + 32
    {
      var b := Read(32);
      r := if b.Some? then Some(FromBE(b.value)) else None;
    }

    method ReadBlob() returns (r: Option<Bytes>)
      modifies this
      ensures r.Some? <==> BlobAt(data, old(pos)).Some?
      ensures r.Some? ==> BlobAt(data, old(pos)) == Some((r.value, pos))
    {
      var len := ReadWord();
      if len.None? || len.value >= TWO_32 - 1 {
        return None;
      }
      var b := Read(Padded(len.value));
      r := if b.Some? then Some(Resize(b.value, len.value)) else None;
    }
  }

  method DecodeMessageV0(ds: DataStream) returns (r: Option<MessageV0>)
    modifies ds
    ensures r == DecodeV0(ds.data, old(ds.pos))
  {
    var offset1 := ds.ReadWord();
    if offset1 != Some(0x60) {
      return None;
    }
    var value2 := ds.ReadWord();
    if value2.None? || value2.value > 1 {
      return None;
    }
    var offset3 := ds.ReadWord();
    if offset3 != Some(0xA0) {
      return None;
    }
    var account := ds.ReadBlob();
    if account.None? {
      return None;
    }
    var data := ds.ReadBlob();
    if data.None? {
      return None;
    }
    return Some(MessageV0(account.value, value2.value == 1, data.value));
  }

  method DecodeMessage(calldata: Bytes) returns (r: Decoded)
    ensures r == Decode(calldata)
  {
    var ds := new DataStream(calldata);
    var id := ds.Read(4);
    if id.None? {
      return Abort;
    }
    if id.value != SELECTOR {
      return Unknown;
    }
    var m := DecodeMessageV0(ds);
    r := if m.Some? then Decoded(m.value) else Abort;
  }
}
