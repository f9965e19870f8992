// UTF-8 (RFC 3629). The client's strings are bytes; the broker's are text: a text frame
// is decoded before the broker sees it and encoded when it is sent. A char is a code
// point here, and a byte is shown as the character with that code.
module Unicode {
  import opened Prelude

  predicate Ascii(s: string) { forall i :: 0 <= i < |s| ==> s[i] as int < 0x80 }

  function Utf8Char(c: char): (b: string)
    ensures 1 <= |b| <= 4 && forall i :: 0 <= i < |b| ==> b[i] as int < 0x100
  {
    var n := c as int;
    if n < 0x80 then [c]
    else if n < 0x800 then [(0xC0 + n / 64) as char, (0x80 + n % 64) as char]
    else if n < 0x1_0000 then [(0xE0 + n / 0x1000) as char, (0x80 + n / 64 % 64) as char, (0x80 + n % 64) as char]
    else
      [(0xF0 + n / 0x4_0000) as char, (0x80 + n / 0x1000 % 64) as char, (0x80 + n / 64 % 64) as char,
       (0x80 + n % 64) as char]
  }

  function Utf8(t: string): (b: string) {
    if t == "" then "" else Utf8Char(t[0]) + Utf8(t[1..])
  }

  // ---- Decoding

  predicate Follows(c: char) { 0x80 <= c as int < 0xC0 }

  function Low6(c: char): (n: nat)
    requires Follows(c)
    ensures n < 64
  {
    c as int - 0x80
  }

  // A code point and the number of bytes it takes.
  datatype Lead = Lead(c: char, size: nat)

  /** A number that is a code point of exactly this length: the shortest form, and no
      surrogate. */
  function Checked(n: nat, least: nat, size: nat): (r: Option<Lead>) {
    if least <= n < 0xD800 || (least <= n && 0xE000 <= n < 0x11_0000) then Some(Lead(n as char, size)) else None
  }

  function LeadOf(s: string): (r: Option<Lead>)
    ensures r.Some? ==> 1 <= r.value.size <= |s|
  {
    if s == "" then None
    else
      var b := s[0] as int;
      if b < 0x80 then Some(Lead(s[0], 1))
      else if 0xC0 <= b < 0xE0 && |s| >= 2 && Follows(s[1]) then Checked((b - 0xC0) * 64 + Low6(s[1]), 0x80, 2)
      else if 0xE0 <= b < 0xF0 && |s| >= 3 && Follows(s[1]) && Follows(s[2]) then
        Checked((b - 0xE0) * 0x1000 + Low6(s[1]) * 64 + Low6(s[2]), 0x800, 3)
      else if 0xF0 <= b < 0xF8 && |s| >= 4 && Follows(s[1]) && Follows(s[2]) && Follows(s[3]) then
        Checked((b - 0xF0) * 0x4_0000 + Low6(s[1]) * 0x1000 + Low6(s[2]) * 64 + Low6(s[3]), 0x1_0000, 4)
      else None
  }

  /** Strict decoding: None is a frame that the receiver fails the connection for. */
  function FromUtf8(s: string): (r: Option<string>)
    decreases |s|
  {
    if s == "" then Some("")
    else
      var lead := LeadOf(s);
      if lead.None? then None
      else
        var rest := FromUtf8(s[lead.value.size..]);
        if rest.None? then None else Some([lead.value.c] + rest.value)
  }

  lemma FirstOfChar(c: char, rest: string)
    ensures LeadOf(Utf8Char(c) + rest) == Some(Lead(c, |Utf8Char(c)|))
  {
    var s, n := Utf8Char(c) + rest, c as int;
    assert s[..|Utf8Char(c)|] == Utf8Char(c);
    if n < 0x80 {
    } else if n < 0x800 {
      assert s[0] as int == 0xC0 + n / 64 && s[1] as int == 0x80 + n % 64;
    } else if n < 0x1_0000 {
      assert s[0] as int == 0xE0 + n / 0x1000 && s[1] as int == 0x80 + n / 64 % 64 && s[2] as int == 0x80 + n % 64;
      Pieces3(n);
    } else {
      assert s[0] as int == 0xF0 + n / 0x4_0000 && s[1] as int == 0x80 + n / 0x1000 % 64;
      assert s[2] as int == 0x80 + n / 64 % 64 && s[3] as int == 0x80 + n % 64;
      Pieces4(n);
    }
  }

  lemma Pieces3(n: nat)
    ensures n / 0x1000 * 0x1000 + n / 64 % 64 * 64 + n % 64 == n
  {
    assert n / 64 / 64 == n / 0x1000;
  }

  lemma Pieces4(n: nat)
    ensures n / 0x4_0000 * 0x4_0000 + n / 0x1000 % 64 * 0x1000 + n / 64 % 64 * 64 + n % 64 == n
  {
    Pieces3(n);
    assert n / 0x1000 / 64 == n / 0x4_0000;
  }

  lemma Cut3(a: nat, b: nat, c: nat)
    requires b < 64 && c < 64
    ensures var n := a * 0x1000 + b * 64 + c; n / 0x1000 == a && n / 64 % 64 == b && n % 64 == c
  {
    var n := a * 0x1000 + b * 64 + c;
    assert n / 64 == a * 64 + b;
  }

  lemma Cut4(a: nat, b: nat, c: nat, d: nat)
    requires b < 64 && c < 64 && d < 64
    ensures var n := a * 0x4_0000 + b * 0x1000 + c * 64 + d;
      n / 0x4_0000 == a && n / 0x1000 % 64 == b && n / 64 % 64 == c && n % 64 == d
  {
    var n := a * 0x4_0000 + b * 0x1000 + c * 64 + d;
    assert n / 64 == a * 0x1000 + b * 64 + c;
    assert n / 0x1000 == a * 64 + b;
  }

  lemma CharOfFirst(s: string)
    requires LeadOf(s).Some?
    ensures Utf8Char(LeadOf(s).value.c) == s[..LeadOf(s).value.size]
  {
    var b := s[0] as int;
    if b < 0x80 {
    } else if b < 0xE0 {
    } else if b < 0xF0 {
      Cut3(b - 0xE0, Low6(s[1]), Low6(s[2]));
    } else {
      Cut4(b - 0xF0, Low6(s[1]), Low6(s[2]), Low6(s[3]));
    }
  }

  /** Decoding undoes encoding, for every text. */
  lemma {:induction false} RoundTrip(t: string)
    ensures FromUtf8(Utf8(t)) == Some(t)
  {
    if t != "" {
      FirstOfChar(t[0], Utf8(t[1..]));
      RoundTrip(t[1..]);
      var s, k := Utf8(t), |Utf8Char(t[0])|;
      assert s[k..] == Utf8(t[1..]);
      assert [t[0]] + t[1..] == t;
    }
  }

  lemma FirstDecoded(s: string, t: string) returns (k: nat)
    requires FromUtf8(s) == Some(t) && s != ""
    ensures 1 <= k <= |s| && t != "" && s[..k] == Utf8Char(t[0]) && FromUtf8(s[k..]) == Some(t[1..])
  {
    k := LeadOf(s).value.size;
    CharOfFirst(s);
    var rest := FromUtf8(s[k..]).value;
    assert t == [LeadOf(s).value.c] + rest && t[1..] == rest;
  }

  /** And only the encoding of a text decodes to it. */
  lemma {:induction false} EncodingIsTheOnly(s: string, t: string)
    requires FromUtf8(s) == Some(t)
    ensures s == Utf8(t)
    decreases |s|
  {
    if s != "" {
      var k := FirstDecoded(s, t);
      EncodingIsTheOnly(s[k..], t[1..]);
      assert s == s[..k] + s[k..];
    }
  }

  /** No two texts have the same bytes. */
  lemma Injective(a: string, b: string)
    ensures Utf8(a) == Utf8(b) <==> a == b
  {
    RoundTrip(a);
    RoundTrip(b);
  }

  /** The bytes of one character of each length, as section 3 of RFC 3629 lays them out. */
  lemma EachLength()
    ensures Utf8Char('a') == ['a']
    ensures Utf8Char('\U{00E0}') == [0xC3 as char, 0xA0 as char]
    ensures Utf8Char('\U{3000}') == [0xE3 as char, 0x80 as char, 0x80 as char]
    ensures Utf8Char('\U{1F3D3}') == [0xF0 as char, 0x9F as char, 0x8F as char, 0x93 as char]
  {
  }

  // ---- Concatenation and single characters

  lemma {:induction false} Utf8Append(a: string, b: string)
    ensures Utf8(a + b) == Utf8(a) + Utf8(b)
    decreases |a|
  {
    if a == "" {
      assert a + b == b;
    } else {
      assert (a + b)[1..] == a[1..] + b;
      Utf8Append(a[1..], b);
      Regroup(Utf8Char(a[0]), Utf8(a[1..]), Utf8(b));
    }
  }

  lemma {:induction false} Utf8Ascii(t: string)
    requires Ascii(t)
    ensures Utf8(t) == t
    decreases |t|
  {
    if t != "" {
      Utf8Ascii(t[1..]);
      assert [t[0]] + t[1..] == t;
    }
  }

  /** An ASCII character is in the bytes exactly when it is in the text. */
  lemma {:induction false} Utf8Has(t: string, c: char)
    requires c as int < 0x80
    ensures c in Utf8(t) <==> c in t
    decreases |t|
  {
    if t != "" {
      Utf8Has(t[1..], c);
      assert t == [t[0]] + t[1..];
      assert c in Utf8Char(t[0]) <==> c == t[0];
    }
  }

  lemma {:induction false} Utf8Bytes(t: string)
    ensures forall i :: 0 <= i < |Utf8(t)| ==> Utf8(t)[i] as int < 0x100
    ensures |t| <= |Utf8(t)|
    decreases |t|
  {
    if t != "" {
      Utf8Bytes(t[1..]);
    }
  }

  lemma OneChar(c: char)
    ensures Utf8([c]) == Utf8Char(c)
  {
    assert [c][1..] == "" && Utf8Char(c) + "" == Utf8Char(c);
  }

  /** The last byte is an ASCII character exactly when the last character is it. */
  lemma Utf8Last(t: string, c: char)
    requires t != "" && c as int < 0x80
    ensures Utf8(t) != "" && (Utf8(t)[|Utf8(t)| - 1] == c <==> t[|t| - 1] == c)
  {
    var k := |t| - 1;
    Utf8Append(t[..k], [t[k]]);
    OneChar(t[k]);
    assert t == t[..k] + [t[k]];
  }

  // ---- Decoding around text

  function InFront(t: string, r: Option<string>): (q: Option<string>) {
    if r.None? then None else Some(t + r.value)
  }

  lemma DecodeChar(c: char, rest: string)
    ensures FromUtf8(Utf8Char(c) + rest) == InFront([c], FromUtf8(rest))
  {
    FirstOfChar(c, rest);
    assert (Utf8Char(c) + rest)[|Utf8Char(c)|..] == rest;
  }

  lemma InFrontTwice(c: char, t: string, r: Option<string>)
    ensures InFront([c], InFront(t, r)) == InFront([c] + t, r)
  {
    if r.Some? {
      Regroup([c], t, r.value);
    }
  }

  /** Text in front decodes to itself. */
  lemma {:induction false} DecodeBehind(t: string, s: string)
    ensures FromUtf8(Utf8(t) + s) == InFront(t, FromUtf8(s))
    decreases |t|
  {
    if t == "" {
      assert Utf8(t) + s == s;
      if FromUtf8(s).Some? {
        assert "" + FromUtf8(s).value == FromUtf8(s).value;
      }
    } else {
      Regroup(Utf8Char(t[0]), Utf8(t[1..]), s);
      DecodeChar(t[0], Utf8(t[1..]) + s);
      DecodeBehind(t[1..], s);
      InFrontTwice(t[0], t[1..], FromUtf8(s));
      assert [t[0]] + t[1..] == t;
    }
  }

  lemma FirstBefore(s: string, c: char)
    requires s != "" && c as int < 0x80
    ensures LeadOf(s + [c]) == LeadOf(s)
  {
    var t := s + [c];
    assert forall i :: 0 <= i < |s| ==> t[i] == s[i];
    assert t[|s|] == c && !Follows(c);
  }

  /** An ASCII character behind some bytes completes nothing: together they decode
      exactly when the bytes do. */
  lemma {:induction false} DecodeBefore(s: string, c: char)
    requires c as int < 0x80
    ensures FromUtf8(s + [c]) == var r := FromUtf8(s); if r.None? then None else Some(r.value + [c])
    decreases |s|
  {
    if s == "" {
      assert s + [c] == [c] && [c][1..] == "";
      assert [c] + "" == "" + [c];
    } else {
      FirstBefore(s, c);
      if LeadOf(s).Some? {
        var k := LeadOf(s).value.size;
        assert (s + [c])[k..] == s[k..] + [c];
        DecodeBefore(s[k..], c);
        if FromUtf8(s[k..]).Some? {
          Regroup([LeadOf(s).value.c], FromUtf8(s[k..]).value, [c]);
        }
      }
    }
  }
}
