/** Base 128 varints in 8-byte buffers, unsigned and zig-zag signed (Protocol Buffers Encoding,
    section "Base 128 Varints"). */
module Varints {
  import opened Foundation

  type Byte = b: int | 0 <= b < 256

  const BUFFER: nat := 8
  const MAX_GROUPS: nat := 10

  /** Groups of seven bits, least first; all but the last carry the high bit. */
  function Groups(x: nat): (r: seq<Byte>)
    ensures |r| >= 1
  {
    if x < 128 then [x] else [x % 128 + 128] + Groups(x / 128)
  }

  /** The number up to the first byte without the high bit, if there is one. */
  function Read(bytes: seq<Byte>): Option<nat> {
    if bytes == [] then None
    else if bytes[0] < 128 then Some(bytes[0])
    else
      var rest := Read(bytes[1..]);
      if rest.None? then None else Some(bytes[0] - 128 + 128 * rest.value)
  }

  /** The place of that byte, or the length. */
  function Last(bytes: seq<Byte>): (n: nat)
    ensures n <= |bytes| && (n < |bytes| <==> Read(bytes).Some?)
    ensures forall i :: 0 <= i < n ==> bytes[i] >= 128
    ensures n < |bytes| ==> bytes[n] < 128
  {
    if bytes == [] || bytes[0] < 128 then 0 else 1 + Last(bytes[1..])
  }

  function Power(n: nat): (r: nat)
    ensures r >= 1
  {
    if n == 0 then 1 else 128 * Power(n - 1)
  }

  /** `n` bytes are enough exactly for the numbers below 128 to the `n`. */
  lemma {:induction false} RoomNeeded(x: nat, n: nat)
    requires n >= 1
    ensures |Groups(x)| <= n <==> x < Power(n)
  {
    if n == 1 {
      assert Power(1) == 128 * Power(0);
    } else {
      assert Power(n) == 128 * Power(n - 1) && Power(n - 1) == 128 * Power(n - 2);
      if x >= 128 {
        RoomNeeded(x / 128, n - 1);
      }
    }
  }

  lemma {:induction false} ReadsBack(x: nat, tail: seq<Byte>)
    ensures Read(Groups(x) + tail) == Some(x)
  {
    if x >= 128 {
      ReadsBack(x / 128, tail);
      assert (Groups(x) + tail)[1..] == Groups(x / 128) + tail;
    }
  }

  /** The seven low bits of each byte, least first. */
  function Value(bytes: seq<Byte>): nat {
    if bytes == [] then 0 else bytes[0] % 128 + 128 * Value(bytes[1..])
  }

  /** The bytes stand for the number, all but the last carry the high bit, and no byte is wasted. */
  lemma {:induction false} GroupsAre(x: nat)
    ensures var g := Groups(x);
            && Value(g) == x && g[|g| - 1] < 128 && (|g| > 1 ==> g[|g| - 1] > 0)
            && forall i :: 0 <= i < |g| - 1 ==> g[i] >= 128
  {
    if x >= 128 {
      GroupsAre(x / 128);
      assert Groups(x)[1..] == Groups(x / 128);
    }
  }

  /** A number is read from the bytes up to the first without the high bit. */
  lemma {:induction false} ReadIs(bytes: seq<Byte>, n: nat)
    requires n < |bytes| && bytes[n] < 128 && forall i :: 0 <= i < n ==> bytes[i] >= 128
    ensures Read(bytes) == Some(Value(bytes[..n + 1]))
  {
    if n > 0 {
      ReadIs(bytes[1..], n - 1);
      assert bytes[..n + 1][1..] == bytes[1..][..n];
    } else {
      assert bytes[..1][1..] == [];
    }
  }

  /** The example of the encoding's description, and its length in the buffer. */
  lemma OneHundredFifty()
    ensures Groups(150) == [0x96, 0x01] && ToBytes(150) == Some([0x96, 0x01, 0, 0, 0, 0, 0, 0])
  {
    assert Groups(150) == [150 % 128 + 128] + Groups(1);
    assert [0x96, 0x01] + seq(6, i => 0) == [0x96, 0x01, 0, 0, 0, 0, 0, 0];
  }

  /** Writes the groups into the buffer and returns their number; it runs past a buffer that is too small
      once it has filled it. */
  method PutUvarint(buf: array<Byte>, x: nat) returns (n: Option<nat>)
    modifies buf
    ensures n == if |Groups(x)| <= buf.Length then Some(|Groups(x)|) else None
    ensures n.Some? ==> buf[..n.value] == Groups(x) && buf[n.value..] == old(buf[n.value..])
    ensures n.None? ==> buf[..] == Groups(x)[..buf.Length]
  {
    var y, i := x, 0;
    hide Groups;
    while y >= 128
      invariant i + |Groups(y)| == |Groups(x)| && i <= buf.Length && buf[..i] + Groups(y) == Groups(x)
      invariant forall j :: i <= j < buf.Length ==> buf[j] == old(buf[j])
      decreases y
    {
      FirstGroup(y);
      if i == buf.Length {
        assert buf[..] == buf[..i];
        return None;
      }
      ghost var done := buf[..i];
      buf[i] := y % 128 + 128;
      assert buf[..i + 1] == done + [buf[i]];
      assert done + ([buf[i]] + Groups(y / 128)) == buf[..i + 1] + Groups(y / 128);
      y, i := y / 128, i + 1;
    }
    LastGroup(y);
    if i == buf.Length {
      assert buf[..] == buf[..i];
      return None;
    }
    ghost var done := buf[..i];
    buf[i] := y;
    assert buf[..i + 1] == done + [y];
    n := Some(i + 1);
  }

  lemma FirstGroup(y: nat)
    requires y >= 128
    ensures Groups(y) == [y % 128 + 128] + Groups(y / 128)
  {
  }

  lemma LastGroup(y: nat)
    requires y < 128
    ensures Groups(y) == [y]
  {
  }

  function Shifted(b: nat, i: nat): nat {
    b * Power(i)
  }

  /** After `i` bytes with the high bit, which add up to `x`. */
  predicate SoFar(bytes: seq<Byte>, i: nat, x: nat) {
    && i <= |bytes| && Last(bytes) == i + Last(bytes[i..])
    && match Read(bytes[i..])
       case None => Read(bytes).None?
       case Some(v) => Read(bytes) == Some(x + Shifted(v, i))
  }

  lemma OneMore(bytes: seq<Byte>, i: nat, x: nat)
    requires i < |bytes| && SoFar(bytes, i, x) && bytes[i] >= 128
    ensures SoFar(bytes, i + 1, x + Shifted(bytes[i] - 128, i))
  {
    hide Read, Last, Shifted;
    assert bytes[i..][1..] == bytes[i + 1..];
    LongRead(bytes[i..]);
    if Read(bytes[i + 1..]).Some? {
      Shift(i, bytes[i], Read(bytes[i + 1..]).value);
    }
  }

  lemma LongRead(bytes: seq<Byte>)
    requires bytes != [] && bytes[0] >= 128
    ensures Last(bytes) == 1 + Last(bytes[1..])
    ensures Read(bytes) == match Read(bytes[1..])
                           case None => None
                           case Some(rest) => Some(bytes[0] - 128 + 128 * rest)
  {
  }

  lemma Shift(i: nat, b: int, rest: nat)
    requires b >= 128
    ensures Shifted(b - 128 + 128 * rest, i) == Shifted(b - 128, i) + Shifted(rest, i + 1)
  {
    var p := Power(i);
    assert Power(i + 1) == 128 * p;
    assert (b - 128 + 128 * rest) * p == (b - 128) * p + rest * (128 * p);
  }

  lemma ReadStarts(bytes: seq<Byte>)
    ensures SoFar(bytes, 0, 0)
  {
    assert bytes[0..] == bytes;
  }

  lemma ShortRead(bytes: seq<Byte>)
    ensures bytes != [] && bytes[0] < 128 ==> Read(bytes) == Some(bytes[0]) && Last(bytes) == 0
  {
  }

  lemma ReadEnds(bytes: seq<Byte>, i: nat, x: nat)
    requires SoFar(bytes, i, x)
    ensures i < |bytes| && bytes[i] < 128 ==> Last(bytes) == i && Read(bytes) == Some(x + Shifted(bytes[i], i))
    ensures i == |bytes| ==> Last(bytes) == |bytes|
    ensures Last(bytes) >= i
  {
    hide Shifted, Read, Last;
    ShortRead(bytes[i..]);
  }

  /** Reads a number and the bytes it took: none if it does not end, a negative count if it does not
      fit 64 bits. */
  method Uvarint(bytes: seq<Byte>) returns (x: nat, n: int)
    ensures var l := Last(bytes);
            if l < |bytes| && l < 10 && (l == 9 ==> bytes[l] <= 1)
            then Some(x) == Read(bytes) && n == l + 1
            else x == 0 && n <= 0 && (n == 0 <==> l == |bytes| && |bytes| <= 10)
  {
    x := 0;
    ReadStarts(bytes);
    hide SoFar, Read, Shifted, Last;
    for i := 0 to |bytes|
      invariant i <= MAX_GROUPS && SoFar(bytes, i, x)
    {
      ReadEnds(bytes, i, x);
      var b: int := bytes[i];
      if i == MAX_GROUPS {
        return 0, -(i + 1);
      }
      if b < 128 {
        if i == MAX_GROUPS - 1 && b > 1 {
          return 0, -(i + 1);
        }
        return x + Shifted(b, i), i + 1;
      }
      OneMore(bytes, i, x);
      x := x + Shifted(b - 128, i);
    }
    ReadEnds(bytes, |bytes|, x);
    return 0, 0;
  }

  /******* The 8-byte helpers *******/

  /** The buffer with the number in front and zeros behind; nothing if it does not fit. */
  function ToBytes(x: nat): Option<seq<Byte>> {
    if |Groups(x)| > BUFFER then None
    else Some(Groups(x) + seq(BUFFER - |Groups(x)|, i => 0))
  }

  /** The number read, or zero if it does not end or does not fit 64 bits. */
  function FromBytes(bytes: seq<Byte>): nat {
    var l := Last(bytes);
    if l < |bytes| && l < MAX_GROUPS && (l == MAX_GROUPS - 1 ==> bytes[l] <= 1) then Read(bytes).value else 0
  }

  method Uint64FromBytes(bytes: seq<Byte>) returns (x: nat)
    ensures x == FromBytes(bytes)
  {
    var n;
    x, n := Uvarint(bytes);
  }

  method Uint64ToBytes(x: nat) returns (bytes: Option<seq<Byte>>)
    ensures bytes == ToBytes(x)
  {
    var raw := new Byte[BUFFER](i => 0);
    var n := PutUvarint(raw, x);
    if n.None? {
      return None;
    }
    assert raw[..] == raw[..n.value] + raw[n.value..];
    assert raw[n.value..] == seq(BUFFER - n.value, i => 0);
    bytes := Some(raw[..]);
  }

  /** Numbers below 2 to the 56 fit and read back; no other number fits. */
  lemma UintRoundTrip(x: nat)
    ensures ToBytes(x).Some? <==> x < 0x100_0000_0000_0000
    ensures ToBytes(x).Some? ==> FromBytes(ToBytes(x).value) == x && |ToBytes(x).value| == BUFFER
  {
    RoomNeeded(x, BUFFER);
    EightGroups();
    if ToBytes(x).Some? {
      ReadsBack(x, seq(BUFFER - |Groups(x)|, i => 0));
    }
  }

  lemma EightGroups()
    ensures Power(8) == 0x100_0000_0000_0000
  {
    assert Power(2) == 0x4000;
    assert Power(4) == 0x1000_0000;
    assert Power(6) == 0x400_0000_0000;
  }

  function ZigZag(x: int): nat {
    if x >= 0 then 2 * x else -2 * x - 1
  }

  /** 0, -1, 1, -2, 2 and so on become 0, 1, 2, 3, 4 and so on. */
  lemma ZigZagAlternates(n: nat)
    ensures ZigZag(n) == 2 * n && ZigZag(-1 - n) == 2 * n + 1
    ensures UnZigZag(2 * n) == n && UnZigZag(2 * n + 1) == -1 - n
  {
  }

  function UnZigZag(u: nat): int {
    if u % 2 == 0 then u / 2 else -(u / 2) - 1
  }

  /** Signed numbers from minus 2 to the 55 up to 2 to the 55 fit and read back; no other number fits. */
  lemma IntRoundTrip(x: int)
    ensures ToBytes(ZigZag(x)).Some? <==> -0x80_0000_0000_0000 <= x < 0x80_0000_0000_0000
    ensures ToBytes(ZigZag(x)).Some? ==> UnZigZag(FromBytes(ToBytes(ZigZag(x)).value)) == x
  {
    UintRoundTrip(ZigZag(x));
  }
}
