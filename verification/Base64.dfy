// base64Encode (src/CurlTransport.cpp) and its inverse, section 4 of RFC 4648. The
// encoder shifts and masks a 32-bit word, as the code does; its specification divides.
module Base64 {
  import opened Prelude
  import opened ByteBits

  type Sextet = v: int | 0 <= v < 64

  const UPPER := "ABCDEFGHIJKLMNOPQRSTUVWXYZ"
  const LOWER := "abcdefghijklmnopqrstuvwxyz"
  const TBL := UPPER + LOWER + "0123456789" + "+/"

  /** The alphabet of the standard's table 1. */
  function Letter(v: Sextet): (c: char)
    ensures ValueOf(c) == Some(v)
  {
    if v < 26 then 'A' + v as char
    else if v < 52 then 'a' + (v - 26) as char
    else if v < 62 then '0' + (v - 52) as char
    else if v == 62 then '+' else '/'
  }

  function ValueOf(c: char): (v: Option<Sextet>) {
    if 'A' <= c <= 'Z' then Some(c as int - 'A' as int)
    else if 'a' <= c <= 'z' then Some(c as int - 'a' as int + 26)
    else if '0' <= c <= '9' then Some(c as int - '0' as int + 52)
    else if c == '+' then Some(62)
    else if c == '/' then Some(63)
    else None
  }

  lemma LetterOf(c: char, v: Sextet)
    ensures ValueOf(c) == Some(v) <==> c == Letter(v)
  {
  }

  lemma UpperAt(i: nat)
    requires i < 26
    ensures UPPER[i] == Letter(i)
  {
  }

  lemma LowerAt(i: nat)
    requires i < 26
    ensures LOWER[i] == Letter(26 + i)
  {
  }

  lemma TblIsAlphabet(v: Sextet)
    ensures |TBL| == 64 && TBL[v] == Letter(v)
  {
    if v < 26 {
      UpperAt(v);
      assert TBL[v] == UPPER[v];
    } else if v < 52 {
      LowerAt(v - 26);
      assert TBL[v] == LOWER[v - 26];
    } else if v < 62 {
      assert TBL[v] == "0123456789"[v - 52];
    } else {
      assert TBL[v] == "+/"[v - 62];
    }
  }

  // ---- Decoding, as the standard defines it

  function Bytes(a: Sextet, b: Sextet, c: Sextet, d: Sextet): (r: seq<Byte>)
    ensures |r| == 3
  {
    [a * 4 + b / 16, b % 16 * 16 + c / 4, c % 4 * 64 + d]
  }

  /** Four letters that stand for three bytes. */
  function Whole(s: string): (r: Option<seq<Byte>>)
    requires |s| == 4
  {
    var a, b, c, d := ValueOf(s[0]), ValueOf(s[1]), ValueOf(s[2]), ValueOf(s[3]);
    if a.None? || b.None? || c.None? || d.None? then None else Some(Bytes(a.value, b.value, c.value, d.value))
  }

  /** The last group: padding stands for one or two missing bytes, and the bits that
      no byte uses are zero. */
  function Last(s: string): (r: Option<seq<Byte>>)
    requires |s| == 4
  {
    if s[3] != '=' then Whole(s)
    else
      var a, b := ValueOf(s[0]), ValueOf(s[1]);
      if a.None? || b.None? then None
      else if s[2] == '=' then
        if b.value % 16 == 0 then Some(Bytes(a.value, b.value, 0, 0)[..1]) else None
      else
        var c := ValueOf(s[2]);
        if c.Some? && c.value % 4 == 0 then Some(Bytes(a.value, b.value, c.value, 0)[..2]) else None
  }

  function Decode(s: string): (r: Option<seq<Byte>>) {
    if s == "" then Some([])
    else if |s| < 4 then None
    else if |s| == 4 then Last(s)
    else
      var first, rest := Whole(s[..4]), Decode(s[4..]);
      if first.None? || rest.None? then None else Some(first.value + rest.value)
  }

  // ---- Encoding

  /** The four six-bit pieces of three bytes. */
  function Sextets(x: Byte, y: Byte, z: Byte): (r: (Sextet, Sextet, Sextet, Sextet)) {
    (x / 4, x % 4 * 16 + y / 16, y % 16 * 4 + z / 64, z % 64)
  }

  lemma BytesOfSextets(x: Byte, y: Byte, z: Byte)
    ensures var q := Sextets(x, y, z); Bytes(q.0, q.1, q.2, q.3) == [x, y, z]
  {
  }

  lemma SextetsOfParts(a: nat, b1: nat, b0: nat, c1: nat, c0: nat, d: nat)
    requires a < 64 && b1 < 4 && b0 < 16 && c1 < 16 && c0 < 4 && d < 64
    ensures Sextets(a * 4 + b1, b0 * 16 + c1, c0 * 64 + d) == (a, b1 * 16 + b0, c1 * 4 + c0, d)
  {
  }

  lemma SextetsOfBytes(a: Sextet, b: Sextet, c: Sextet, d: Sextet)
    ensures var r := Bytes(a, b, c, d); Sextets(r[0], r[1], r[2]) == (a, b, c, d)
  {
    SextetsOfParts(a, b / 16, b % 16, c / 4, c % 4, d);
  }

  function Joined(x: Byte, y: Byte, z: Byte): (val: int)
    ensures 0 <= val < 0x100_0000
  {
    x as int * 0x1_0000 + y as int * 0x100 + z
  }

  /** Those pieces are quotients and remainders of the 24-bit number. */
  lemma ShiftsCut(x: Byte, y: Byte, z: Byte)
    ensures var val := Joined(x, y, z);
      Sextets(x, y, z) == (val / 0x4_0000 % 64, val / 0x1000 % 64, val / 64 % 64, val % 64)
  {
    var q := Sextets(x, y, z);
    assert Joined(x, y, z) == q.0 as int * 0x4_0000 + q.1 as int * 0x1000 + q.2 as int * 64 + q.3;
    Cut(q.0, q.1, q.2, q.3);
  }

  lemma Cut(a: Sextet, b: Sextet, c: Sextet, d: Sextet)
    ensures var val := a * 0x4_0000 + b * 0x1000 + c * 64 + d;
      val / 0x4_0000 % 64 == a && val / 0x1000 % 64 == b && val / 64 % 64 == c && val % 64 == d
  {
    var val := a * 0x4_0000 + b * 0x1000 + c * 64 + d;
    assert val / 64 == a * 0x1000 + b * 64 + c;
    assert val / 0x1000 == a * 64 + b;
    assert val / 0x4_0000 == a;
  }

  // ---- The shifts and masks of the code

  /** The 32-bit word that the code makes of three bytes. */
  function Packed(x: bv8, y: bv8, z: bv8): (val: bv32) { (x as bv32 << 16) | (y as bv32 << 8) | (z as bv32) }

  /** Its `|` is a sum. */
  lemma PackedIsSum(x: bv8, y: bv8, z: bv8, val: bv32)
    requires val == Packed(x, y, z)
    ensures val as int == Joined(x as int, y as int, z as int)
  {
    ShiftedSum(x, y, z, val);
  }

  lemma ShiftedSum(x: bv8, y: bv8, z: bv8, val: bv32)
    requires val == (x as bv32 << 16) | (y as bv32 << 8) | (z as bv32)
    ensures val as int == x as int * 0x1_0000 + y as int * 0x100 + z as int
  {
  }

  // What the code shifts and masks out of that word are the four six-bit pieces: each
  // joins the low end of a byte and the high end of the next.
  method FirstShift(val: bv32, ghost x: bv8, ghost y: bv8, ghost z: bv8) returns (piece: Sextet)
    requires val == Packed(x, y, z)
    ensures piece == Sextets(x as int, y as int, z as int).0
  {
    var cut := (val >> 18) & 0x3F;
    FirstBits(x, y, z, val, cut);
    FirstPiece(cut, x);
    piece := cut as int;
  }

  method SecondShift(val: bv32, ghost x: bv8, ghost y: bv8, ghost z: bv8) returns (piece: Sextet)
    requires val == Packed(x, y, z)
    ensures piece == Sextets(x as int, y as int, z as int).1
  {
    var cut := (val >> 12) & 0x3F;
    SecondBits(x, y, z, val, cut);
    SecondPiece(cut, x, y);
    piece := cut as int;
  }

  method ThirdShift(val: bv32, ghost x: bv8, ghost y: bv8, ghost z: bv8) returns (piece: Sextet)
    requires val == Packed(x, y, z)
    ensures piece == Sextets(x as int, y as int, z as int).2
  {
    var cut := (val >> 6) & 0x3F;
    ThirdBits(x, y, z, val, cut);
    ThirdPiece(cut, y, z);
    piece := cut as int;
  }

  method LastMask(val: bv32, ghost x: bv8, ghost y: bv8, ghost z: bv8) returns (piece: Sextet)
    requires val == Packed(x, y, z)
    ensures piece == Sextets(x as int, y as int, z as int).3
  {
    var cut := val & 0x3F;
    LastBits(x, y, z, val, cut);
    LastPiece(cut, z);
    piece := cut as int;
  }

  lemma FirstBits(x: bv8, y: bv8, z: bv8, val: bv32, cut: bv32)
    requires val == Packed(x, y, z) && cut == (val >> 18) & 0x3F
    ensures cut == (x >> 2) as bv32
  {
  }

  lemma SecondBits(x: bv8, y: bv8, z: bv8, val: bv32, cut: bv32)
    requires val == Packed(x, y, z) && cut == (val >> 12) & 0x3F
    ensures cut == (((x & 3) << 4) | (y >> 4)) as bv32
  {
  }

  lemma ThirdBits(x: bv8, y: bv8, z: bv8, val: bv32, cut: bv32)
    requires val == Packed(x, y, z) && cut == (val >> 6) & 0x3F
    ensures cut == (((y & 15) << 2) | (z >> 6)) as bv32
  {
  }

  lemma LastBits(x: bv8, y: bv8, z: bv8, val: bv32, cut: bv32)
    requires val == Packed(x, y, z) && cut == val & 0x3F
    ensures cut == (z & 0x3F) as bv32
  {
  }

  lemma FirstPiece(cut: bv32, x: bv8)
    requires cut == (x >> 2) as bv32
    ensures cut as int == x as int / 4
  {
  }

  lemma SecondPiece(cut: bv32, x: bv8, y: bv8)
    requires cut == (((x & 3) << 4) | (y >> 4)) as bv32
    ensures cut as int == x as int % 4 * 16 + y as int / 16
  {
    LowEnd(x);
    HighEnd(y);
    Beside(cut, x & 3, y >> 4);
  }

  lemma ThirdPiece(cut: bv32, y: bv8, z: bv8)
    requires cut == (((y & 15) << 2) | (z >> 6)) as bv32
    ensures cut as int == y as int % 16 * 4 + z as int / 64
  {
    LowEnd(y);
    HighEnd(z);
    Beside(cut, y & 15, z >> 6);
  }

  lemma LastPiece(cut: bv32, z: bv8)
    requires cut == (z & 0x3F) as bv32
    ensures cut as int == z as int % 64
  {
  }

  lemma Beside(cut: bv32, k: bv8, v: bv8)
    ensures k < 4 && v < 16 && cut == ((k << 4) | v) as bv32 ==> cut as int == k as int * 16 + v as int
    ensures k < 16 && v < 4 && cut == ((k << 2) | v) as bv32 ==> cut as int == k as int * 4 + v as int
  {
  }

  lemma HighEnd(v: bv8)
    ensures v >> 4 < 16 && (v >> 4) as int == v as int / 16
    ensures v >> 6 < 4 && (v >> 6) as int == v as int / 64
  {
  }

  lemma LowEnd(v: bv8)
    ensures v & 3 < 4 && (v & 3) as int == v as int % 4
    ensures v & 15 < 16 && (v & 15) as int == v as int % 16
  {
  }

  function At(d: seq<Byte>, i: nat): (b: Byte) { if i < |d| then d[i] else 0 }

  /** Up to three bytes become four characters. */
  function Group(d: seq<Byte>): (s: string)
    ensures |s| == 4
  {
    var q := Sextets(At(d, 0), At(d, 1), At(d, 2));
    [Letter(q.0), Letter(q.1), if |d| > 1 then Letter(q.2) else '=', if |d| > 2 then Letter(q.3) else '=']
  }

  function Encode(d: seq<Byte>): (s: string) {
    if d == [] then "" else if |d| <= 3 then Group(d) else Group(d[..3]) + Encode(d[3..])
  }

  method Base64Encode(data: seq<Byte>) returns (res: string)
    ensures |res| == 4 * ((|data| + 2) / 3)
    ensures Decode(res) == Some(data)
    ensures res == Encode(data)
  {
    res := "";
    var i := 0;
    while i < |data|
      invariant i >= 0 && res + Encode(data[Capped(i, |data|)..]) == Encode(data)
      decreases |data| - i
    {
      var val := Pack(data, i);
      var group := Emit(data, i, val);
      NextGroup(res, data, i);
      res := res + group;
      i := i + 3;
    }
    assert data[|data|..] == [] && res + "" == res;
    EncodeLength(data, (|data| + 2) / 3);
    RoundTrip(data);
  }

  /** The 32-bit word of one pass: what is missing counts as zero bits. */
  method Pack(data: seq<Byte>, i: nat) returns (val: bv32)
    requires i < |data|
    ensures val == Packed(Bits(data[i]), Bits(At(data, i + 1)), Bits(At(data, i + 2)))
  {
    val := (Bits(data[i]) as bv32) << 16;
    if i + 1 < |data| { val := val | (Bits(data[i + 1]) as bv32 << 8); }
    if i + 2 < |data| { val := val | (Bits(data[i + 2]) as bv32); }
  }

  /** The four push_backs of one pass. */
  method Emit(data: seq<Byte>, i: nat, val: bv32) returns (group: string)
    requires i < |data|
    requires val == Packed(Bits(data[i]), Bits(At(data, i + 1)), Bits(At(data, i + 2)))
    ensures group == Group(data[i..])
  {
    ghost var x, y, z := Bits(data[i]), Bits(At(data, i + 1)), Bits(At(data, i + 2));
    var p0 := FirstShift(val, x, y, z);
    var p1 := SecondShift(val, x, y, z);
    var q2, q3 := '=', '=';
    if i + 1 < |data| {
      var p2 := ThirdShift(val, x, y, z);
      q2 := Lookup(p2);
    }
    if i + 2 < |data| {
      var p3 := LastMask(val, x, y, z);
      q3 := Lookup(p3);
    }
    group := [Lookup(p0), Lookup(p1), q2, q3];
  }

  function Lookup(v: Sextet): (c: char)
    ensures c == Letter(v)
  {
    TblIsAlphabet(v);
    TBL[v]
  }

  function Capped(i: nat, n: nat): (r: nat)
    ensures r <= n
  {
    if i < n then i else n
  }

  lemma NextGroup(before: string, data: seq<Byte>, i: nat)
    requires i < |data| && before + Encode(data[i..]) == Encode(data)
    ensures before + Group(data[i..]) + Encode(data[Capped(i + 3, |data|)..]) == Encode(data)
  {
    var d, rest := data[i..], data[Capped(i + 3, |data|)..];
    FirstGroup(d, rest);
    Regroup(before, Group(d), Encode(rest));
  }

  lemma FirstGroup(d: seq<Byte>, rest: seq<Byte>)
    requires d != [] && rest == if |d| > 3 then d[3..] else []
    ensures Encode(d) == Group(d) + Encode(rest)
  {
    if |d| > 3 {
      var three := d[..3];
      assert At(three, 0) == At(d, 0) && At(three, 1) == At(d, 1) && At(three, 2) == At(d, 2);
      assert Group(three) == Group(d);
    } else {
      assert Encode(rest) == "";
      assert Group(d) + "" == Group(d);
    }
  }

  lemma {:induction false} EncodeLength(d: seq<Byte>, k: nat)
    requires 3 * k - 3 < |d| <= 3 * k
    ensures |Encode(d)| == 4 * k
  {
    if |d| > 3 {
      EncodeLength(d[3..], k - 1);
    }
  }

  lemma LastOfGroup(d: seq<Byte>)
    requires 1 <= |d| <= 3
    ensures Last(Group(d)) == Some(d)
    ensures |d| == 3 ==> Whole(Group(d)) == Some(d)
  {
    BytesOfSextets(At(d, 0), At(d, 1), At(d, 2));
    assert ValueOf('=') == None;
    var all := [At(d, 0), At(d, 1), At(d, 2)];
    if |d| == 1 {
      assert d == all[..1];
    } else if |d| == 2 {
      assert d == all[..2];
    } else {
      assert d == all;
    }
  }

  /** Decoding undoes encoding, for every byte string. */
  lemma {:induction false} RoundTrip(d: seq<Byte>)
    ensures Decode(Encode(d)) == Some(d)
  {
    if |d| > 3 {
      RoundTrip(d[3..]);
      EncodeLength(d[3..], (|d| - 1) / 3);
      LastOfGroup(d[..3]);
      var s := Encode(d);
      assert s[..4] == Group(d[..3]) && s[4..] == Encode(d[3..]);
      assert d == d[..3] + d[3..];
    } else if d != [] {
      LastOfGroup(d);
    }
  }

  /** Four characters that decode to a group are the ones the encoder writes. */
  lemma GroupOfWhole(s: string)
    requires |s| == 4 && Whole(s).Some?
    ensures Group(Whole(s).value) == s
  {
    var a, b, c, e := ValueOf(s[0]).value, ValueOf(s[1]).value, ValueOf(s[2]).value, ValueOf(s[3]).value;
    SextetsOfBytes(a, b, c, e);
    LetterOf(s[0], a);
    LetterOf(s[1], b);
    LetterOf(s[2], c);
    LetterOf(s[3], e);
  }

  lemma GroupOfLast(s: string)
    requires |s| == 4 && Last(s).Some?
    ensures Last(s).value != [] && |Last(s).value| <= 3 && Group(Last(s).value) == s
  {
    if s[3] != '=' {
      GroupOfWhole(s);
    } else {
      var a, b := ValueOf(s[0]).value, ValueOf(s[1]).value;
      LetterOf(s[0], a);
      LetterOf(s[1], b);
      if s[2] == '=' {
        SextetsOfBytes(a, b, 0, 0);
      } else {
        LetterOf(s[2], ValueOf(s[2]).value);
        SextetsOfBytes(a, b, ValueOf(s[2]).value, 0);
      }
    }
  }

  /** The encoder writes the only text that decodes to the bytes. */
  lemma {:induction false} EncodeIsTheOnly(s: string, d: seq<Byte>)
    requires Decode(s) == Some(d)
    ensures s == Encode(d)
    decreases |s|
  {
    if |s| > 4 {
      GroupOfWhole(s[..4]);
      var rest := Decode(s[4..]).value;
      EncodeIsTheOnly(s[4..], rest);
      assert d[..3] == Whole(s[..4]).value && d[3..] == rest;
      assert s == s[..4] + s[4..];
    } else if s != "" {
      GroupOfLast(s);
    }
  }
}
