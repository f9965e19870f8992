// A frame of text and the frame of bytes it is on the wire. What separates the parts
// of a frame is ASCII, so encoding a serialized frame and serializing the encoded parts
// are the same.
module TextFrames {
  import opened Prelude
  import opened StompFrames
  import opened Unicode

  function Utf8Header(h: (string, string)): (b: (string, string)) { (Utf8(h.0), Utf8(h.1)) }

  function Utf8Headers(headers: Headers): (b: Headers) {
    if headers == [] then [] else [Utf8Header(headers[0])] + Utf8Headers(headers[1..])
  }

  function BytesOf(f: Frame): (b: Frame) { Frame(Utf8(f.command), Utf8Headers(f.headers), Utf8(f.body)) }

  lemma {:induction false} HeadersAt(headers: Headers)
    ensures |Utf8Headers(headers)| == |headers|
    ensures forall i :: 0 <= i < |headers| ==> Utf8Headers(headers)[i] == Utf8Header(headers[i])
  {
    if headers != [] {
      HeadersAt(headers[1..]);
    }
  }

  /** Where key and value are ASCII a header stays as it is. */
  lemma AsciiHeader(h: (string, string))
    requires Ascii(h.0)
    ensures Utf8Header(h) == (h.0, Utf8(h.1)) && (Ascii(h.1) ==> Utf8Header(h) == h)
  {
    Utf8Ascii(h.0);
    if Ascii(h.1) {
      Utf8Ascii(h.1);
    }
  }

  lemma AsciiKeys(headers: Headers)
    requires forall i :: 0 <= i < |headers| ==> Ascii(headers[i].0)
    ensures |Utf8Headers(headers)| == |headers|
    ensures forall i :: 0 <= i < |headers| ==> Utf8Headers(headers)[i] == (headers[i].0, Utf8(headers[i].1))
    ensures forall i :: 0 <= i < |headers| && Ascii(headers[i].1) ==> Utf8Headers(headers)[i] == headers[i]
  {
    HeadersAt(headers);
    forall i | 0 <= i < |headers|
      ensures Utf8Headers(headers)[i] == (headers[i].0, Utf8(headers[i].1))
      ensures Ascii(headers[i].1) ==> Utf8Headers(headers)[i] == headers[i]
    {
      AsciiHeader(headers[i]);
    }
  }

  lemma AsciiCommand(command: string, headers: Headers, body: string)
    requires Ascii(command)
    ensures BytesOf(Frame(command, headers, body)) == Frame(command, Utf8Headers(headers), Utf8(body))
  {
    Utf8Ascii(command);
  }

  lemma Utf8Separator(c: char)
    requires c as int < 0x80
    ensures Utf8([c]) == [c]
  {
    OneChar(c);
  }

  lemma Utf8Line(h: (string, string))
    ensures Utf8(Line(h)) == Line(Utf8Header(h))
  {
    Utf8Separator(':');
    Utf8Separator('\n');
    Utf8Append(h.0 + ":" + h.1, "\n");
    Utf8Append(h.0 + ":", h.1);
    Utf8Append(h.0, ":");
  }

  lemma {:induction false} Utf8Lines(headers: Headers)
    ensures Utf8(HeaderLines(headers)) == HeaderLines(Utf8Headers(headers))
  {
    if headers != [] {
      Utf8Append(Line(headers[0]), HeaderLines(headers[1..]));
      Utf8Line(headers[0]);
      Utf8Lines(headers[1..]);
      assert Utf8Headers(headers)[1..] == Utf8Headers(headers[1..]);
    }
  }

  /** The bytes of a serialized frame of text. */
  lemma Utf8Wire(f: Frame)
    ensures Utf8(Wire(f)) == Wire(BytesOf(f))
  {
    Utf8Separator('\n');
    Utf8Separator('\0');
    Utf8Lines(f.headers);
    Utf8Append(f.command + "\n" + HeaderLines(f.headers) + "\n" + f.body, "\0");
    Utf8Append(f.command + "\n" + HeaderLines(f.headers) + "\n", f.body);
    Utf8Append(f.command + "\n" + HeaderLines(f.headers), "\n");
    Utf8Append(f.command + "\n", HeaderLines(f.headers));
    Utf8Append(f.command, "\n");
  }

  /** Setting a header of text and then encoding is setting the encoded one. */
  lemma {:induction false} Utf8Assign(headers: Headers, key: string, value: string)
    ensures Utf8Headers(Assign(headers, key, value)) == Assign(Utf8Headers(headers), Utf8(key), Utf8(value))
  {
    if headers == [] {
      assert [(key, value)][1..] == [];
      assert Utf8Headers([(key, value)]) == [Utf8Header((key, value))] + Utf8Headers([]);
    } else {
      Injective(headers[0].0, key);
      var b := Utf8Headers(headers);
      assert b[1..] == Utf8Headers(headers[1..]);
      if headers[0].0 == key {
        assert ([(key, value)] + headers[1..])[1..] == headers[1..];
      } else {
        Utf8Assign(headers[1..], key, value);
        assert ([headers[0]] + Assign(headers[1..], key, value))[1..] == Assign(headers[1..], key, value);
      }
    }
  }

  lemma {:induction false} Utf8AssignAll(headers: Headers, updates: Headers)
    ensures Utf8Headers(AssignAll(headers, updates)) == AssignAll(Utf8Headers(headers), Utf8Headers(updates))
    decreases |updates|
  {
    if updates != [] {
      Utf8Assign(headers, updates[0].0, updates[0].1);
      Utf8AssignAll(Assign(headers, updates[0].0, updates[0].1), updates[1..]);
      assert Utf8Headers(updates)[1..] == Utf8Headers(updates[1..]);
    }
  }

  /** A frame whose headers are set one after the other. */
  lemma BytesOfUpdated(command: string, base: Headers, updates: Headers, body: string, encoded: Headers)
    requires Ascii(command) && Utf8Headers(base) == encoded
    ensures BytesOf(Frame(command, AssignAll(base, updates), body))
         == Frame(command, AssignAll(encoded, Utf8Headers(updates)), Utf8(body))
  {
    Utf8AssignAll(base, updates);
    Utf8Ascii(command);
  }

  lemma {:induction false} Utf8HeadersAppend(a: Headers, b: Headers)
    ensures Utf8Headers(a + b) == Utf8Headers(a) + Utf8Headers(b)
    decreases |a|
  {
    if a == [] {
      assert a + b == b;
    } else {
      assert (a + b)[1..] == a[1..] + b;
      Utf8HeadersAppend(a[1..], b);
    }
  }

  lemma OneHeader(h: (string, string))
    ensures Utf8Headers([h]) == [Utf8Header(h)]
  {
    assert [h][1..] == [];
  }
}
