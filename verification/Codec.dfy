/**
 The binary wire format of hybrid envelopes (genesis-core/src/envelope.rs).

 The specification works on suffixes of the input: `TakeField` peels one length-prefixed field
 off the front.  The methods `ToBytes` and `FromBytes` follow the program, with a growing buffer
 that is patched in place and a cursor that moves over the input, and are proved against it.
 */
module Codec {
  import opened Base

  const TWO_32: nat := 0x1_0000_0000
  const TWO_64: nat := 0x1_0000_0000_0000_0000

  // No Rust slice is longer than isize::MAX bytes.
  const ISIZE_MAX: nat := 0x7FFF_FFFF_FFFF_FFFF

  // "GEN2"
  const MAGIC_V2: Bytes := [0x47, 0x45, 0x4E, 0x32]

  datatype EnvelopeVersion = V1Age | V2Hybrid

  datatype ParseError = TooShort | VersionMismatch | UnexpectedEnd | FieldTooLong(len: nat)

  datatype Envelope = Envelope(
    version: EnvelopeVersion,
    mlkemCiphertext: Bytes,
    ageCiphertext: Bytes,
    encryptedSecret: Bytes,
    signature: Bytes,
    signingPublicKey: Bytes)
  {
    function Fields(): seq<Bytes> {
      [mlkemCiphertext, ageCiphertext, encryptedSecret, signature, signingPublicKey]
    }
  }

  // ---------- 32-bit little-endian words ----------

  /** The low 32 bits of `n`, least significant byte first: the cast to `u32` and `to_le_bytes`. */
  function ToLe32(n: nat): (b: Bytes)
    ensures |b| == 4
  {
    var q1 := n / 256;
    var q2 := q1 / 256;
    var q3 := q2 / 256;
    [n % 256, q1 % 256, q2 % 256, q3 % 256]
  }

  function FromLe32(b: Bytes): nat
    requires |b| == 4
  {
    var b0: int, b1: int, b2: int, b3: int := b[0], b[1], b[2], b[3];
    b0 + 256 * (b1 + 256 * (b2 + 256 * b3))
  }

  /** The lowest octet comes first. */
  lemma LeDigits(n: nat)
    ensures ToLe32(n) == [n % 0x100, n / 0x100 % 0x100, n / 0x1_0000 % 0x100, n / 0x100_0000 % 0x100]
  {
    assert n / 0x100 / 0x100 == n / 0x1_0000;
    assert n / 0x1_0000 / 0x100 == n / 0x100_0000;
  }

  /** Writing a word and reading it back loses exactly what does not fit in 32 bits. */
  lemma LeRoundTrip(n: nat)
    ensures FromLe32(ToLe32(n)) == n % TWO_32
    ensures n < TWO_32 ==> FromLe32(ToLe32(n)) == n
  {
    var q1 := n / 256;
    var q2 := q1 / 256;
    var q3 := q2 / 256;
    var q4 := q3 / 256;
    assert n == 0x1_0000_0000 * q4 + FromLe32(ToLe32(n));
    assert FromLe32(ToLe32(n)) < 0x1_0000_0000;
  }

  lemma LeCanonical(b: Bytes)
    requires |b| == 4
    ensures FromLe32(b) < TWO_32 && ToLe32(FromLe32(b)) == b
  {
    var n := FromLe32(b);
    var b1: int, b2: int, b3: int := b[1], b[2], b[3];
    assert n / 256 == b1 + 256 * (b2 + 256 * b3);
    assert n / 256 / 256 == b2 + 256 * b3;
    assert n / 256 / 256 / 256 == b3;
  }

  // ---------- length-prefixed fields ----------

  function PutField(f: Bytes): Bytes {
    ToLe32(|f|) + f
  }

  function PutFields(fs: seq<Bytes>): Bytes {
    if fs == [] then [] else PutField(fs[0]) + PutFields(fs[1..])
  }

  function TotalLength(fs: seq<Bytes>): nat {
    if fs == [] then 0 else |fs[0]| + TotalLength(fs[1..])
  }

  function TakeField(d: Bytes): Result<(Bytes, Bytes), ParseError> {
    if |d| < 4 then Err(UnexpectedEnd)
    else
      var len := FromLe32(d[..4]);
      if |d| < 4 + len then Err(FieldTooLong(len)) else Ok((d[4..4 + len], d[4 + len..]))
  }

  function TakeFields(d: Bytes, k: nat): Result<(seq<Bytes>, Bytes), ParseError> {
    if k == 0 then Ok(([], d))
    else match TakeField(d)
      case Err(e) => Err(e)
      case Ok((f, rest)) => Prepend([f], TakeFields(rest, k - 1))
  }

  function Prepend(front: seq<Bytes>, r: Result<(seq<Bytes>, Bytes), ParseError>)
    : Result<(seq<Bytes>, Bytes), ParseError>
  {
    match r
    case Err(e) => Err(e)
    case Ok((fs, rest)) => Ok((front + fs, rest))
  }

  lemma PrependAgain(a: seq<Bytes>, b: seq<Bytes>, r: Result<(seq<Bytes>, Bytes), ParseError>)
    ensures Prepend(a, Prepend(b, r)) == Prepend(a + b, r)
  {
    if r.Ok? {
      assert a + (b + r.value.0) == (a + b) + r.value.0;
    }
  }

  ghost predicate Short(fs: seq<Bytes>) {
    forall i :: 0 <= i < |fs| ==> |fs[i]| < TWO_32
  }

  lemma {:induction false} PutFieldsLength(fs: seq<Bytes>)
    ensures |PutFields(fs)| == 4 * |fs| + TotalLength(fs)
  {
    if fs != [] {
      PutFieldsLength(fs[1..]);
    }
  }

  lemma TakePutField(f: Bytes, tail: Bytes)
    requires |f| < TWO_32
    ensures TakeField(PutField(f) + tail) == Ok((f, tail))
  {
    var d := PutField(f) + tail;
    assert FromLe32(ToLe32(|f|)) == |f| by { LeRoundTrip(|f|); }
    assert d[..4] == ToLe32(|f|);
    assert d[4..4 + |f|] == f;
    assert d[4 + |f|..] == tail;
  }

  lemma PutTakeField(d: Bytes)
    requires TakeField(d).Ok?
    ensures |TakeField(d).value.0| < TWO_32
    ensures d == PutField(TakeField(d).value.0) + TakeField(d).value.1
  {
    LeCanonical(d[..4]);
  }

  lemma {:induction false} TakePutFields(fs: seq<Bytes>, tail: Bytes)
    requires Short(fs)
    ensures TakeFields(PutFields(fs) + tail, |fs|) == Ok((fs, tail))
  {
    if fs == [] {
      assert PutFields(fs) + tail == tail;
    } else {
      var rest := PutFields(fs[1..]) + tail;
      assert PutFields(fs) + tail == PutField(fs[0]) + rest;
      TakePutField(fs[0], rest);
      TakePutFields(fs[1..], tail);
      assert [fs[0]] + fs[1..] == fs;
    }
  }

  lemma {:induction false} PutTakeFields(d: Bytes, k: nat)
    requires TakeFields(d, k).Ok?
    ensures var (fs, rest) := TakeFields(d, k).value;
            |fs| == k && Short(fs) && d == PutFields(fs) + rest
  {
    if k != 0 {
      PutTakeField(d);
      var (f, rest) := TakeField(d).value;
      PutTakeFields(rest, k - 1);
      var (fs, last) := TakeFields(rest, k - 1).value;
      assert ([f] + fs)[1..] == fs;
      assert d == PutField(f) + (PutFields(fs) + last);
      assert d == PutFields([f] + fs) + last;
    }
  }

  // ---------- whole envelopes ----------

  function Encode(e: Envelope): Bytes {
    var body := PutFields(e.Fields());
    MAGIC_V2 + ToLe32(|body|) + body
  }

  function FromFields(fs: seq<Bytes>): Envelope
    requires |fs| == 5
  {
    Envelope(V2Hybrid, fs[0], fs[1], fs[2], fs[3], fs[4])
  }

  /** The envelope at the front of `d` and the bytes after it. */
  function Parse(d: Bytes): Result<(Envelope, Bytes), ParseError> {
    if |d| < 8 then Err(TooShort)
    else if d[..4] != MAGIC_V2 then Err(VersionMismatch)
    else match TakeFields(d[8..], 5)
      case Err(e) => Err(e)
      case Ok((fs, rest)) =>
        PutTakeFields(d[8..], 5);
        Ok((FromFields(fs), rest))
  }

  function Decode(d: Bytes): Result<Envelope, ParseError> {
    match Parse(d)
    case Err(e) => Err(e)
    case Ok((e, _)) => Ok(e)
  }

  function Detect(d: Bytes): EnvelopeVersion {
    if |d| >= 4 && d[..4] == MAGIC_V2 then V2Hybrid else V1Age
  }

  /** What the printer can represent: five fields whose length words do not wrap. */
  ghost predicate Fits(e: Envelope) {
    e.version == V2Hybrid && Short(e.Fields())
  }

  lemma ParseEncoded(e: Envelope, tail: Bytes)
    requires Fits(e)
    ensures Parse(Encode(e) + tail) == Ok((e, tail))
  {
    var d := Encode(e) + tail;
    assert d[..4] == MAGIC_V2;
    assert d[8..] == PutFields(e.Fields()) + tail;
    TakePutFields(e.Fields(), tail);
  }

  /** Printing then parsing gives the envelope back exactly when no length word wraps around. */
  lemma RoundTrip(e: Envelope)
    ensures Decode(Encode(e)) == Ok(e) <==> Fits(e)
  {
    if Fits(e) {
      ParseEncoded(e, []);
      assert Encode(e) + [] == Encode(e);
    }
    if Decode(Encode(e)).Ok? {
      ParseIsCanonical(Encode(e));
    }
  }

  /**
   Parsing is canonical: whatever was accepted is the printed form of the result followed by the
   untouched rest, except for the length word in bytes 4 to 8, which the parser never looks at.
   */
  lemma ParseIsCanonical(d: Bytes)
    requires Parse(d).Ok?
    ensures var (e, rest) := Parse(d).value;
            && Fits(e)
            && d[..4] == Encode(e)[..4]
            && d[8..] == Encode(e)[8..] + rest
            && Detect(d) == V2Hybrid
  {
    PutTakeFields(d[8..], 5);
    var (fs, rest) := TakeFields(d[8..], 5).value;
    assert FromFields(fs).Fields() == fs;
  }

  /** The length word is dead: changing it never changes what is parsed. */
  lemma LengthWordIgnored(d: Bytes, word: Bytes)
    requires |d| >= 8 && |word| == 4
    ensures Parse(d[..4] + word + d[8..]) == Parse(d)
  {
    var d' := d[..4] + word + d[8..];
    assert d'[..4] == d[..4] && d'[8..] == d[8..];
  }

  /** Trailing bytes are handed through, so the bytes an envelope occupies are determined by it. */
  lemma ParseExtends(d: Bytes, more: Bytes)
    requires Parse(d).Ok?
    ensures Parse(d + more) == Ok((Parse(d).value.0, Parse(d).value.1 + more))
  {
    PutTakeFields(d[8..], 5);
    var (fs, rest) := TakeFields(d[8..], 5).value;
    assert (d + more)[..4] == d[..4];
    assert (d + more)[8..] == PutFields(fs) + (rest + more);
    TakePutFields(fs, rest + more);
  }

  /** No strict prefix of a printed envelope parses: the format is prefix-free. */
  lemma NoStrictPrefix(e: Envelope, k: nat)
    requires Fits(e) && k < |Encode(e)|
    ensures Decode(Encode(e)[..k]).Err?
  {
    var d := Encode(e);
    if Parse(d[..k]).Ok? {
      ParseExtends(d[..k], d[k..]);
      assert d[..k] + d[k..] == d && d + [] == d;
      ParseEncoded(e, []);
      assert false;
    }
  }

  /** The header holds the number of bytes that follow it, as long as that number fits in 32 bits. */
  lemma HeaderLength(e: Envelope)
    ensures |Encode(e)| == 28 + TotalLength(e.Fields())
    ensures FromLe32(Encode(e)[4..8]) == (TotalLength(e.Fields()) + 20) % TWO_32
    ensures FromLe32(Encode(e)[4..8]) == |Encode(e)| - 8 <==> TotalLength(e.Fields()) + 20 < TWO_32
  {
    PutFieldsLength(e.Fields());
    var n := |PutFields(e.Fields())|;
    LeRoundTrip(n);
    assert Encode(e)[4..8] == ToLe32(n);
  }

  lemma PutFieldsCons(f: Bytes, fs: seq<Bytes>)
    ensures PutFields([f] + fs) == PutField(f) + PutFields(fs)
  {
    assert ([f] + fs)[1..] == fs;
  }

  lemma PutFive(a: Bytes, b: Bytes, c: Bytes, d: Bytes, e: Bytes)
    ensures PutFields([a, b, c, d, e])
         == PutField(a) + (PutField(b) + (PutField(c) + (PutField(d) + (PutField(e) + []))))
    ensures |PutFields([a, b, c, d, e])| == 20 + |a| + |b| + |c| + |d| + |e|
  {
    PutFieldsCons(e, []);
    PutFieldsCons(d, [e]);
    PutFieldsCons(c, [d, e]);
    PutFieldsCons(b, [c, d, e]);
    PutFieldsCons(a, [b, c, d, e]);
    assert [e] + [] == [e] && [d] + [e] == [d, e] && [c] + [d, e] == [c, d, e];
    assert [b] + [c, d, e] == [b, c, d, e] && [a] + [b, c, d, e] == [a, b, c, d, e];
  }

  /** Byte for byte: the magic, the length of what follows, and five fields behind their own lengths. */
  lemma EncodedLayout(e: Envelope)
    ensures Encode(e) == [0x47, 0x45, 0x4E, 0x32]
                         + ToLe32(20 + |e.mlkemCiphertext| + |e.ageCiphertext| + |e.encryptedSecret| + |e.signature|
                                  + |e.signingPublicKey|)
                         + (ToLe32(|e.mlkemCiphertext|) + e.mlkemCiphertext
                         + (ToLe32(|e.ageCiphertext|) + e.ageCiphertext
                         + (ToLe32(|e.encryptedSecret|) + e.encryptedSecret
                         + (ToLe32(|e.signature|) + e.signature
                         + (ToLe32(|e.signingPublicKey|) + e.signingPublicKey + [])))))
  {
    PutFive(e.mlkemCiphertext, e.ageCiphertext, e.encryptedSecret, e.signature, e.signingPublicKey);
  }

  /** The printed envelope with this length word and these bytes behind it. */
  ghost predicate IsPrinted(d: Bytes, word: Bytes, e: Envelope, rest: Bytes) {
    |word| == 4 && d == [0x47, 0x45, 0x4E, 0x32] + word + Encode(e)[8..] + rest
  }

  lemma AcceptedIsPrinted(d: Bytes)
    requires Parse(d).Ok?
    ensures Fits(Parse(d).value.0) && IsPrinted(d, d[4..8], Parse(d).value.0, Parse(d).value.1)
  {
    ParseIsCanonical(d);
    assert d == d[..4] + d[4..8] + d[8..];
  }

  lemma PrintedIsAccepted(d: Bytes, word: Bytes, e: Envelope, rest: Bytes)
    requires Fits(e) && IsPrinted(d, word, e, rest)
    ensures Parse(d) == Ok((e, rest))
  {
    var whole := Encode(e) + rest;
    ParseEncoded(e, rest);
    LengthWordIgnored(whole, word);
    assert whole[..4] == [0x47, 0x45, 0x4E, 0x32];
    assert whole[8..] == Encode(e)[8..] + rest;
    assert d == whole[..4] + word + whole[8..];
  }

  /** Accepted are exactly the printed envelopes that fit, with any length word and anything behind them. */
  lemma AcceptsExactly(d: Bytes, e: Envelope, rest: Bytes)
    ensures Parse(d) == Ok((e, rest)) <==> Fits(e) && exists word :: IsPrinted(d, word, e, rest)
  {
    if Parse(d) == Ok((e, rest)) { AcceptedIsPrinted(d); }
    if Fits(e) {
      if word :| IsPrinted(d, word, e, rest) { PrintedIsAccepted(d, word, e, rest); }
    }
  }

  lemma {:induction false} TakeFieldsThrough(fs: seq<Bytes>, rest: Bytes, k: nat)
    requires Short(fs) && |fs| <= k
    ensures TakeFields(PutFields(fs) + rest, k) == Prepend(fs, TakeFields(rest, k - |fs|))
  {
    var tail := TakeFields(rest, k - |fs|);
    if fs == [] {
      assert PutFields(fs) + rest == rest;
      if tail.Ok? { assert [] + tail.value.0 == tail.value.0; }
    } else {
      assert PutFields(fs) + rest == PutField(fs[0]) + (PutFields(fs[1..]) + rest);
      TakePutField(fs[0], PutFields(fs[1..]) + rest);
      TakeFieldsThrough(fs[1..], rest, k - 1);
      PrependAgain([fs[0]], fs[1..], tail);
      assert [fs[0]] + fs[1..] == fs;
    }
  }

  /** After some complete fields, the next one lacks its length word or is longer than what is left. */
  ghost predicate BreaksOff(d: Bytes, k: nat, fs: seq<Bytes>, rest: Bytes, error: ParseError) {
    && |fs| < k && Short(fs) && d == PutFields(fs) + rest
    && if |rest| < 4 then error == UnexpectedEnd
       else FromLe32(rest[..4]) > |rest| - 4 && error == FieldTooLong(FromLe32(rest[..4]))
  }

  lemma {:induction false} TakeFieldsBreaksOff(d: Bytes, k: nat) returns (fs: seq<Bytes>, rest: Bytes)
    requires TakeFields(d, k).Err?
    ensures BreaksOff(d, k, fs, rest, TakeFields(d, k).error)
  {
    if TakeField(d).Err? {
      fs, rest := [], d;
      assert d == PutFields([]) + d;
    } else {
      PutTakeField(d);
      var (f, d') := TakeField(d).value;
      fs, rest := TakeFieldsBreaksOff(d', k - 1);
      assert ([f] + fs)[1..] == fs && PutFields([f] + fs) + rest == PutField(f) + (PutFields(fs) + rest);
      fs := [f] + fs;
    }
  }

  /** Every other input is refused: as too short, for its magic, or at the field at which it breaks off. */
  lemma RefusesExactly(d: Bytes, error: ParseError)
    ensures Parse(d) == Err(TooShort) <==> |d| < 8
    ensures Parse(d) == Err(VersionMismatch) <==> |d| >= 8 && d[..4] != [0x47, 0x45, 0x4E, 0x32]
    ensures |d| >= 8 && d[..4] == [0x47, 0x45, 0x4E, 0x32] ==>
              (Parse(d) == Err(error) <==> exists fs, rest :: BreaksOff(d[8..], 5, fs, rest, error))
    ensures Detect(d) == V2Hybrid <==> [0x47, 0x45, 0x4E, 0x32] <= d
  {
    if |d| >= 8 && TakeFields(d[8..], 5).Err? {
      var fs, rest := TakeFieldsBreaksOff(d[8..], 5);
    }
    if |d| >= 8 {
      if fs, rest :| BreaksOff(d[8..], 5, fs, rest, error) {
        TakeFieldsThrough(fs, rest, 5);
      }
    }
  }

  // ---------- the program ----------

  /** A growable byte vector. */
  class Buffer {
    var data: Bytes

    constructor ()
      ensures data == []
    {
      data := [];
    }

    method Extend(more: Bytes)
      modifies this
      ensures data == old(data) + more
    {
      data := data + more;
    }

    method CopyAt(at: nat, word: Bytes)
      requires at + |word| <= |data|
      modifies this
      ensures data == old(data)[..at] + word + old(data)[at + |word|..]
    {
      data := data[..at] + word + data[at + |word|..];
    }

    method WriteLengthPrefixed(field: Bytes)
      modifies this
      ensures data == old(data) + PutField(field)
    {
      Extend(ToLe32(|field|));
      Extend(field);
      assert old(data) + ToLe32(|field|) + field == old(data) + PutField(field);
    }
  }

  lemma {:induction false} PutFieldsSnoc(fs: seq<Bytes>, f: Bytes)
    ensures PutFields(fs + [f]) == PutFields(fs) + PutField(f)
  {
    if fs == [] {
      assert fs + [f] == [f] && [f][1..] == [];
    } else {
      assert (fs + [f])[1..] == fs[1..] + [f];
      PutFieldsSnoc(fs[1..], f);
    }
  }

  /** The first `k` fields have been written behind the magic bytes and the length placeholder. */
  ghost predicate Written(data: Bytes, e: Envelope, k: nat) {
    k <= 5 && data == MAGIC_V2 + [0, 0, 0, 0] + PutFields(e.Fields()[..k])
  }

  lemma WriteNext(data: Bytes, e: Envelope, k: nat)
    requires k < 5 && Written(data, e, k)
    ensures Written(data + PutField(e.Fields()[k]), e, k + 1)
  {
    var fs := e.Fields();
    PutFieldsSnoc(fs[..k], fs[k]);
    assert fs[..k + 1] == fs[..k] + [fs[k]];
  }

  lemma HeaderPatched(data: Bytes, e: Envelope)
    requires Written(data, e, 5)
    ensures |data| >= 8 && data[..4] + ToLe32(|data| - 8) + data[8..] == Encode(e)
  {
    assert e.Fields()[..5] == e.Fields();
  }

  method WriteHeader(buf: Buffer, ghost e: Envelope)
    requires buf.data == []
    modifies buf
    ensures Written(buf.data, e, 0)
  {
    buf.Extend(MAGIC_V2);
    buf.Extend([0, 0, 0, 0]);
    assert e.Fields()[..0] == [];
  }

  /** Appends the `k`th field. */
  method WriteField(buf: Buffer, field: Bytes, ghost e: Envelope, ghost k: nat)
    requires k < 5 && field == e.Fields()[k] && Written(buf.data, e, k)
    modifies buf
    ensures Written(buf.data, e, k + 1)
  {
    WriteNext(buf.data, e, k);
    buf.WriteLengthPrefixed(field);
  }

  method ToBytes(e: Envelope) returns (bytes: Bytes)
    ensures bytes == Encode(e)
  {
    var buf := new Buffer();
    WriteHeader(buf, e);
    WriteField(buf, e.mlkemCiphertext, e, 0);
    WriteField(buf, e.ageCiphertext, e, 1);
    WriteField(buf, e.encryptedSecret, e, 2);
    WriteField(buf, e.signature, e, 3);
    WriteField(buf, e.signingPublicKey, e, 4);
    HeaderPatched(buf.data, e);
    var totalLen := |buf.data| - 8;
    buf.CopyAt(4, ToLe32(totalLen));
    bytes := buf.data;
  }

  /** What one read at `start` did: the field, or the error, that starts there, and where it left the cursor. */
  ghost predicate Took(data: Bytes, start: nat, field: Result<Bytes, ParseError>, cursor: nat) {
    && start <= cursor <= |data|
    && match TakeField(data[start..])
       case Err(e) => field == Err(e)
       case Ok((f, rest)) => field == Ok(f) && data[cursor..] == rest
  }

  /** One field read at a cursor: the cursor stays in the buffer and its 64-bit sums never wrap. */
  method ReadLengthPrefixed(data: Bytes, start: nat) returns (field: Result<Bytes, ParseError>, cursor: nat)
    requires start <= |data| <= ISIZE_MAX
    ensures Took(data, start, field, cursor)
  {
    cursor := start;
    assert cursor + 4 < TWO_64;
    if cursor + 4 > |data| {
      return Err(UnexpectedEnd), cursor;
    }
    var len := FromLe32(data[cursor..cursor + 4]);
    assert data[start..][..4] == data[cursor..cursor + 4];
    LeCanonical(data[cursor..cursor + 4]);
    cursor := cursor + 4;
    assert cursor + len < TWO_64;
    if cursor + len > |data| {
      return Err(FieldTooLong(len)), cursor;
    }
    assert data[start..][4..4 + len] == data[cursor..cursor + len];
    assert data[start..][4 + len..] == data[cursor + len..];
    field := Ok(data[cursor..cursor + len]);
    cursor := cursor + len;
  }

  /** The header was accepted, `fields` have been read and the rest of the parse starts at `cursor`. */
  ghost predicate Progress(data: Bytes, fields: seq<Bytes>, cursor: nat) {
    && 8 <= cursor <= |data| && |fields| <= 5 && data[..4] == MAGIC_V2
    && TakeFields(data[8..], 5) == Prepend(fields, TakeFields(data[cursor..], 5 - |fields|))
  }

  lemma NothingRead(data: Bytes)
    requires |data| >= 8 && data[..4] == MAGIC_V2
    ensures Progress(data, [], 8)
  {
    if TakeFields(data[8..], 5).Ok? {
      assert [] + TakeFields(data[8..], 5).value.0 == TakeFields(data[8..], 5).value.0;
    }
  }

  lemma Advance(data: Bytes, fields: seq<Bytes>, start: nat, field: Result<Bytes, ParseError>, cursor: nat)
    requires Progress(data, fields, start) && |fields| < 5 && Took(data, start, field, cursor)
    ensures field.Ok? ==> Progress(data, fields + [field.value], cursor)
    ensures field.Err? ==> Decode(data) == Err(field.error)
  {
    if field.Ok? {
      PrependAgain(fields, [field.value], TakeFields(data[cursor..], 4 - |fields|));
    }
  }

  lemma AllRead(data: Bytes, fields: seq<Bytes>, cursor: nat)
    requires Progress(data, fields, cursor) && |fields| == 5
    ensures Decode(data) == Ok(FromFields(fields))
  {
    assert fields + [] == fields;
  }

  method FromBytes(data: Bytes) returns (r: Result<Envelope, ParseError>)
    requires |data| <= ISIZE_MAX
    ensures r == Decode(data)
  {
    if |data| < 8 {
      return Err(TooShort);
    }
    if data[..4] != MAGIC_V2 {
      return Err(VersionMismatch);
    }
    NothingRead(data);
    var mlkem, c1 := ReadLengthPrefixed(data, 8);
    Advance(data, [], 8, mlkem, c1);
    if mlkem.Err? {
      return Err(mlkem.error);
    }
    var age, c2 := ReadLengthPrefixed(data, c1);
    Advance(data, [] + [mlkem.value], c1, age, c2);
    if age.Err? {
      return Err(age.error);
    }
    var secret, c3 := ReadLengthPrefixed(data, c2);
    Advance(data, [] + [mlkem.value] + [age.value], c2, secret, c3);
    if secret.Err? {
      return Err(secret.error);
    }
    var sig, c4 := ReadLengthPrefixed(data, c3);
    Advance(data, [] + [mlkem.value] + [age.value] + [secret.value], c3, sig, c4);
    if sig.Err? {
      return Err(sig.error);
    }
    var key, c5 := ReadLengthPrefixed(data, c4);
    Advance(data, [] + [mlkem.value] + [age.value] + [secret.value] + [sig.value], c4, key, c5);
    if key.Err? {
      return Err(key.error);
    }
    AllRead(data, [] + [mlkem.value] + [age.value] + [secret.value] + [sig.value] + [key.value], c5);
    r := Ok(Envelope(V2Hybrid, mlkem.value, age.value, secret.value, sig.value, key.value));
  }
}
