/** The header in front of every AES ciphertext: EncryptAndPackage writes it
    (aes_encryption.go) and UnpackCiphertextBlob reads it with uint8 arithmetic
    (ciphertext.go). */
module Ciphertext {
  import opened Wrappers
  import opened ByteStrings

  const MAX_UINT32: nat := 0xFFFF_FFFF

  datatype Unpacked = Unpacked(ident: Bytes, version: nat, ciphertext: Bytes)

  /** service.ToUnsigned: panics outside the range of the target type. */
  function ToUnsigned(n: int, limit: nat): Outcome<nat> {
    if n < 0 || n > limit then Panic else Ok(n)
  }

  /** uint8 wrap-around. */
  function U8(n: nat): nat {
    n % 256
  }

  function LittleEndian32(v: nat): (r: Bytes)
    ensures |r| == 4
  {
    [(v % 256) as byte, (v / 256 % 256) as byte, (v / 0x1_0000 % 256) as byte, (v / 0x100_0000 % 256) as byte]
  }

  function FromLittleEndian32(b: Bytes): nat
    requires |b| == 4
  {
    b[0] as nat + 256 * b[1] as nat + 0x1_0000 * b[2] as nat + 0x100_0000 * b[3] as nat
  }

  /** The result of EncryptAndPackage once the text is encrypted. */
  function Pack(u: Unpacked): Outcome<Bytes> {
    if |u.ident| > 255 then Err
    else if u.version > MAX_UINT32 then Panic
    else Ok([|u.ident| as byte] + u.ident + LittleEndian32(u.version) + u.ciphertext)
  }

  /** A Go slice expression. */
  function Slice(data: Bytes, lo: nat, hi: nat): Outcome<Bytes> {
    if lo <= hi <= |data| then Ok(data[lo..hi]) else Panic
  }

  function UnpackCiphertextBlob(data: Bytes): Outcome<Unpacked> {
    if |data| < 1 then Err
    else
      var identLength := data[0] as nat;
      if |data| < U8(1 + identLength + 4 + 1) then Err
      else
        match (Slice(data, 1, U8(identLength + 1)),
               Slice(data, U8(identLength + 1), U8(identLength + 5)),
               Slice(data, U8(identLength + 5), |data|))
        case (Ok(ident), Ok(v), Ok(ciphertext)) =>
          if |v| == 4 then Ok(Unpacked(ident, FromLittleEndian32(v), ciphertext)) else Panic
        case _ => Panic
  }

  lemma LittleEndianRoundTrip(v: nat)
    requires v <= MAX_UINT32
    ensures FromLittleEndian32(LittleEndian32(v)) == v
  {
    var a, b, c := v / 256, v / 0x1_0000, v / 0x100_0000;
    assert a / 256 == b && b / 256 == c && c < 256;
    assert v == 256 * a + v % 256 && a == 256 * b + a % 256 && b == 256 * c + b % 256;
  }

  lemma FromLittleEndianInverse(b: Bytes)
    requires |b| == 4
    ensures FromLittleEndian32(b) <= MAX_UINT32
    ensures LittleEndian32(FromLittleEndian32(b)) == b
  {
    var v := FromLittleEndian32(b);
    var x0, x1, x2, x3 := b[0] as nat, b[1] as nat, b[2] as nat, b[3] as nat;
    assert v == 256 * (x1 + 256 * (x2 + 256 * x3)) + x0;
    assert v % 256 == x0 && v / 256 == x1 + 256 * (x2 + 256 * x3);
    assert v / 256 % 256 == x1 && v / 256 / 256 == x2 + 256 * x3;
    assert v / 0x1_0000 == v / 256 / 256 && v / 0x100_0000 == v / 0x1_0000 / 256;
    assert v / 0x1_0000 % 256 == x2 && v / 0x100_0000 == x3;
  }

  /** The low byte comes first. */
  lemma LittleEndianIsPositional(v: nat, b: Bytes)
    requires v <= 0xFFFF_FFFF && |b| == 4
    ensures var r := LittleEndian32(v);
            v == r[0] as nat + 0x100 * r[1] as nat + 0x1_0000 * r[2] as nat + 0x100_0000 * r[3] as nat
    ensures FromLittleEndian32(b) ==
            b[0] as nat + 0x100 * b[1] as nat + 0x1_0000 * b[2] as nat + 0x100_0000 * b[3] as nat
  {
    LittleEndianRoundTrip(v);
  }

  /** What the reader makes of everything the writer accepts. It inverts the writer up to
      250-byte ARNs, the shorter ones only with a non-empty ciphertext; for 251 to 255 bytes,
      which the writer still accepts, its wrapped offsets leave the blob. */
  lemma UnpackOfPack(u: Unpacked)
    requires Pack(u).Ok?
    ensures UnpackCiphertextBlob(Pack(u).result) ==
            if |u.ident| > 250 then Panic
            else if u.ciphertext == [] && |u.ident| < 250 then Err
            else Ok(u)
  {
    var data, n := Pack(u).result, |u.ident|;
    assert data[0] as nat == n;
    PackOfUnpack(data);
    if n <= 250 && (u.ciphertext != [] || n == 250) {
      UnpackFields(data);
      LittleEndianRoundTrip(u.version);
      assert data[1..n + 1] == u.ident;
      assert data[n + 1..n + 5] == LittleEndian32(u.version);
      assert data[n + 5..] == u.ciphertext;
    }
  }

  /** Where the fields are, as long as no offset wraps. */
  lemma UnpackFields(data: Bytes)
    requires data != [] && data[0] as nat <= 250 && |data| >= data[0] as nat + 5
    requires data[0] as nat < 250 ==> |data| >= data[0] as nat + 6
    ensures var n := data[0] as nat;
            UnpackCiphertextBlob(data) ==
            Ok(Unpacked(data[1..n + 1], FromLittleEndian32(data[n + 1..n + 5]), data[n + 5..]))
  {
    var n := data[0] as nat;
    assert U8(n + 1) == n + 1 && U8(n + 5) == n + 5;
    assert data[n + 5..|data|] == data[n + 5..];
  }

  /** Where the offsets wrap. */
  lemma UnpackWraps(data: Bytes)
    requires data != [] && data[0] as nat > 250
    ensures UnpackCiphertextBlob(data) == if |data| >= data[0] as nat - 250 then Panic else Err
  {
    var n := data[0] as nat;
    assert U8(1 + n + 4 + 1) == n - 250 && U8(n + 5) == n - 251;
    assert U8(n + 1) == if n == 255 then 0 else n + 1;
  }

  lemma WriteFields(data: Bytes)
    requires data != [] && |data| >= data[0] as nat + 5
    ensures var n := data[0] as nat;
            Pack(Unpacked(data[1..n + 1], FromLittleEndian32(data[n + 1..n + 5]), data[n + 5..])) == Ok(data)
  {
    var n := data[0] as nat;
    FromLittleEndianInverse(data[n + 1..n + 5]);
    assert data == [data[0]] + data[1..n + 1] + data[n + 1..n + 5] + data[n + 5..];
  }

  /** For arbitrary bytes: exactly when the reader indexes out of range, exactly when it
      accepts, and re-packing what it accepts gives the same bytes back. */
  lemma PackOfUnpack(data: Bytes)
    ensures UnpackCiphertextBlob(data).Panic? <==>
            data != [] && ((data[0] as nat > 250 && |data| >= data[0] as nat - 250)
                           || (data[0] as nat == 250 && |data| < 255))
    ensures UnpackCiphertextBlob(data).Ok? <==>
            data != [] && ((data[0] as nat < 250 && |data| >= data[0] as nat + 6)
                           || (data[0] as nat == 250 && |data| >= 255))
    ensures UnpackCiphertextBlob(data).Ok? ==> Pack(UnpackCiphertextBlob(data).result) == Ok(data)
  {
    if data != [] {
      var n := data[0] as nat;
      if n > 250 {
        UnpackWraps(data);
      } else if |data| >= n + 5 && (n < 250 ==> |data| >= n + 6) {
        UnpackFields(data);
        WriteFields(data);
      }
    }
  }
}
