/** Chunk and file metadata (file/filemeta.go) and the hexadecimal text form of hashes. */
module FileMetadata {
  import opened Wrappers

  type Byte = b: int | 0 <= b < 256
  type Bytes = seq<Byte>
  type Hash = h: Bytes | |h| == 32 witness seq(32, i => 0)

  /** Go's zero value of a hash; the chunks that the download collector builds keep it. */
  function ZeroHash(): Hash {
    seq(32, i => 0)
  }

  /** SHA-256 is left uninterpreted: every result holds for every function of this type. */
  type HashFunction = Bytes -> Hash

  datatype ChunkMeta = ChunkMeta(index: int, hash: Hash)

  datatype FileMeta = FileMeta(fileName: string, fileSize: int, chunkSize: int, totalChunks: int,
                               chunks: seq<ChunkMeta>)

  /** What JSON carries for one chunk: the hash as text. */
  datatype ChunkMetaJson = ChunkMetaJson(index: int, hash: string)

  function LowerDigit(n: nat): (c: char)
    requires n < 16
    ensures DigitValue(c) == Some(n)
    ensures Lower(c) == c
  {
    if n < 10 then '0' + n as char else 'a' + (n - 10) as char
  }

  /** Value of a hexadecimal digit of either case. */
  function DigitValue(c: char): (r: Option<nat>)
    ensures r.Some? ==> r.value < 16
  {
    if '0' <= c <= '9' then Some(c as int - '0' as int)
    else if 'a' <= c <= 'f' then Some(c as int - 'a' as int + 10)
    else if 'A' <= c <= 'F' then Some(c as int - 'A' as int + 10)
    else None
  }

  function Lower(c: char): char {
    if 'A' <= c <= 'Z' then (c as int - 'A' as int + 'a' as int) as char else c
  }

  /** `fmt.Sprintf("%x", bytes)`: two lower-case digits per byte. */
  function Hex(b: Bytes): (s: string)
    ensures |s| == 2 * |b|
  {
    seq(2 * |b|, i requires 0 <= i < 2 * |b| => LowerDigit(if i % 2 == 0 then b[i / 2] / 16 else b[i / 2] % 16))
  }

  /** `hex.DecodeString`: an odd length or any other character is an error. */
  function Unhex(s: string): (r: Option<Bytes>)
    ensures r.Some? ==> |s| == 2 * |r.value|
  {
    if s == [] then Some([])
    else if |s| == 1 then None
    else
      match (DigitValue(s[0]), DigitValue(s[1]), Unhex(s[2..]))
      case (Some(hi), Some(lo), Some(rest)) => Some([16 * hi + lo] + rest)
      case _ => None
  }

  /** The checks `UnmarshalJSON` makes on the hash text. */
  function ParseHash(s: string): Option<Hash> {
    match Unhex(s)
    case Some(b) => if |b| == 32 then Some(b) else None
    case None => None
  }

  function MarshalJSON(cm: ChunkMeta): ChunkMetaJson {
    ChunkMetaJson(cm.index, Hex(cm.hash))
  }

  /** A chunk's metadata as the mutable record that `UnmarshalJSON` fills in place. */
  class ChunkMetaRecord {
    var index: int
    var hash: Hash

    constructor (index: int, hash: Hash)
      ensures this.index == index && this.hash == hash
    {
      this.index, this.hash := index, hash;
    }

    /** `aux` is the outcome of the generic JSON parse. A bad hash leaves the old hash under the NEW index. */
    method UnmarshalJSON(aux: Option<ChunkMetaJson>) returns (ok: bool)
      modifies this
      ensures ok <==> aux.Some? && ParseHash(aux.value.hash).Some?
      ensures ok ==> MarshalJSON(ChunkMeta(index, hash)) == aux.value.(hash := LowerText(aux.value.hash))
      ensures !ok ==> hash == old(hash)
      ensures index == if aux.Some? then aux.value.index else old(index)
    {
      if aux.None? {
        return false;
      }
      index := aux.value.index;
      var hashBytes := Unhex(aux.value.hash);
      if hashBytes.None? || |hashBytes.value| != 32 {
        return false;
      }
      hash := hashBytes.value;
      UnhexIsCanonical(aux.value.hash);
      return true;
    }
  }

  function LowerText(s: string): string {
    seq(|s|, i requires 0 <= i < |s| => Lower(s[i]))
  }

  ghost predicate AllHexDigits(s: string) {
    forall i :: 0 <= i < |s| ==> DigitValue(s[i]).Some?
  }

  lemma HexOfRest(b: Bytes)
    requires b != []
    ensures Hex(b)[2..] == Hex(b[1..])
    ensures Hex(b) == [LowerDigit(b[0] / 16), LowerDigit(b[0] % 16)] + Hex(b[1..])
  {
    forall i | 0 <= i < 2 * |b[1..]| ensures Hex(b)[2..][i] == Hex(b[1..])[i] {
      assert (i + 2) / 2 == i / 2 + 1 && (i + 2) % 2 == i % 2;
    }
  }

  lemma {:induction false} HexRoundTrip(b: Bytes)
    ensures Unhex(Hex(b)) == Some(b)
  {
    if b != [] {
      HexRoundTrip(b[1..]);
      HexOfRest(b);
      assert Unhex(Hex(b)) == Some([16 * (b[0] / 16) + b[0] % 16] + b[1..]);
      assert b == [b[0]] + b[1..];
    }
  }

  lemma TwoDigits(hi: nat, lo: nat)
    requires hi < 16 && lo < 16
    ensures (16 * hi + lo) / 16 == hi && (16 * hi + lo) % 16 == lo
  {
  }

  lemma DigitInverse(c: char)
    requires DigitValue(c).Some?
    ensures LowerDigit(DigitValue(c).value) == Lower(c)
  {
  }

  /** Re-encoding what was decoded gives back the same text in lower case. */
  lemma {:induction false} UnhexIsCanonical(s: string)
    requires Unhex(s).Some?
    ensures Hex(Unhex(s).value) == LowerText(s)
  {
    if s != [] {
      UnhexIsCanonical(s[2..]);
      var b := Unhex(s).value;
      TwoDigits(DigitValue(s[0]).value, DigitValue(s[1]).value);
      DigitInverse(s[0]);
      DigitInverse(s[1]);
      assert b[1..] == Unhex(s[2..]).value;
      HexOfRest(b);
      assert LowerText(s) == [Lower(s[0]), Lower(s[1])] + LowerText(s[2..]);
    }
  }

  lemma {:induction false} UnhexAccepts(s: string)
    ensures Unhex(s).Some? <==> |s| % 2 == 0 && AllHexDigits(s)
  {
    if |s| >= 2 {
      UnhexAccepts(s[2..]);
      if AllHexDigits(s[2..]) && DigitValue(s[0]).Some? && DigitValue(s[1]).Some? {
        forall i | 0 <= i < |s| ensures DigitValue(s[i]).Some? {
          assert i >= 2 ==> s[i] == s[2..][i - 2];
        }
      }
    }
  }

  /** Metadata hashes are accepted exactly when they are 64 hexadecimal digits. */
  lemma ParseHashAccepts(s: string)
    ensures ParseHash(s).Some? <==> |s| == 64 && AllHexDigits(s)
  {
    UnhexAccepts(s);
  }

  /** A chunk's metadata survives the trip through JSON. */
  lemma ChunkMetaJsonRoundTrip(cm: ChunkMeta)
    ensures ParseHash(MarshalJSON(cm).hash) == Some(cm.hash)
    ensures MarshalJSON(cm).index == cm.index
  {
    HexRoundTrip(cm.hash);
  }

  /** The store key written by one peer and looked up by another meet exactly when the hashes are equal. */
  lemma HexInjective(a: Bytes, b: Bytes)
    ensures Hex(a) == Hex(b) <==> a == b
  {
    HexRoundTrip(a);
    HexRoundTrip(b);
  }

  /** Two digits per byte, the more significant first. */
  lemma HexDigits(b: Bytes, i: nat)
    requires i < |b|
    ensures var hi, lo := DigitValue(Hex(b)[2 * i]), DigitValue(Hex(b)[2 * i + 1]);
            hi.Some? && lo.Some? && 16 * hi.value + lo.value == b[i]
  {
    assert (2 * i) / 2 == i && (2 * i) % 2 == 0 && (2 * i + 1) / 2 == i && (2 * i + 1) % 2 == 1;
  }
}
