// The STOMP frame: an ordered header store and its wire form (src/StompFrame.cpp).
// A string is a sequence of bytes here, each byte shown as the character with
// that code.
module StompFrames {
  import opened Prelude

  type Headers = seq<(string, string)>

  datatype Frame = Frame(command: string, headers: Headers, body: string)

  const EMPTY_FRAME := Frame("", [], "")

  /** The value of the first header called `key`. */
  function First(headers: Headers, key: string): (r: Option<string>)
    ensures r.Some? <==> exists i :: 0 <= i < |headers| && headers[i].0 == key
  {
    if headers == [] then None
    else if headers[0].0 == key then Some(headers[0].1)
    else
      var r := First(headers[1..], key);
      assert forall i :: 0 < i < |headers| ==> headers[i] == headers[1..][i - 1];
      assert r.Some? ==> exists i :: 0 <= i < |headers[1..]| && headers[1..][i].0 == key;
      r
  }

  function FirstOr(headers: Headers, key: string, otherwise: string): (v: string) {
    var r := First(headers, key);
    if r.Some? then r.value else otherwise
  }

  /** The header list after the first header called `key` got `value`, or after
      a new header was put at the end when there was none. */
  function Assign(headers: Headers, key: string, value: string): (r: Headers) {
    if headers == [] then [(key, value)]
    else if headers[0].0 == key then [(key, value)] + headers[1..]
    else [headers[0]] + Assign(headers[1..], key, value)
  }

  function AssignAll(headers: Headers, updates: Headers): (r: Headers)
    decreases |updates|
  {
    if updates == [] then headers
    else AssignAll(Assign(headers, updates[0].0, updates[0].1), updates[1..])
  }

  function Line(header: (string, string)): (s: string) { header.0 + ":" + header.1 + "\n" }

  function HeaderLines(headers: Headers): (s: string) {
    if headers == [] then "" else Line(headers[0]) + HeaderLines(headers[1..])
  }

  lemma HeaderLinesSnoc(headers: Headers, h: (string, string))
    ensures HeaderLines(headers + [h]) == HeaderLines(headers) + Line(h)
  {
    if headers == [] {
      assert HeaderLines([h]) == Line(h) + HeaderLines([h][1..]);
      assert headers + [h] == [h];
    } else {
      assert (headers + [h])[1..] == headers[1..] + [h];
      HeaderLinesSnoc(headers[1..], h);
    }
  }

  /** The bytes of a frame on the wire. */
  function Wire(f: Frame): (s: string) {
    f.command + "\n" + HeaderLines(f.headers) + "\n" + f.body + "\0"
  }

  predicate UniqueKeys(headers: Headers) {
    forall i, j :: 0 <= i < j < |headers| ==> headers[i].0 != headers[j].0
  }

  /** Last write wins, and no other key is touched. */
  lemma {:induction false} AssignFirst(headers: Headers, key: string, value: string, k: string)
    ensures First(Assign(headers, key, value), k) == if k == key then Some(value) else First(headers, k)
  {
    if headers != [] && headers[0].0 != key {
      AssignFirst(headers[1..], key, value, k);
      assert Assign(headers, key, value)[1..] == Assign(headers[1..], key, value);
    } else if headers != [] {
      assert Assign(headers, key, value)[1..] == headers[1..];
    } else {
      assert Assign(headers, key, value)[1..] == [];
    }
  }

  /** Assigning keeps the order of the keys: an existing key stays in its place,
      a new one goes last. So a list with unique keys keeps them unique. */
  lemma {:induction false} AssignKeys(headers: Headers, key: string, value: string)
    ensures |Assign(headers, key, value)| == if First(headers, key).Some? then |headers| else |headers| + 1
    ensures forall i :: 0 <= i < |headers| ==> Assign(headers, key, value)[i].0 == headers[i].0
    ensures First(headers, key).None? ==> Assign(headers, key, value) == headers + [(key, value)]
  {
    if headers != [] && headers[0].0 != key {
      AssignKeys(headers[1..], key, value);
      var r := Assign(headers, key, value);
      assert forall i :: 0 < i < |headers| ==> r[i].0 == Assign(headers[1..], key, value)[i - 1].0 == headers[i].0;
    }
  }

  lemma AssignUnique(headers: Headers, key: string, value: string)
    requires UniqueKeys(headers)
    ensures UniqueKeys(Assign(headers, key, value))
  {
    AssignKeys(headers, key, value);
  }

  /** The last update of a key decides its value. */
  lemma {:induction false} AssignAllOther(headers: Headers, updates: Headers, k: string)
    requires forall i :: 0 <= i < |updates| ==> updates[i].0 != k
    ensures First(AssignAll(headers, updates), k) == First(headers, k)
    decreases |updates|
  {
    if updates != [] {
      AssignFirst(headers, updates[0].0, updates[0].1, k);
      AssignAllOther(Assign(headers, updates[0].0, updates[0].1), updates[1..], k);
    }
  }

  lemma {:induction false} AssignAllUnique(headers: Headers, updates: Headers)
    requires UniqueKeys(headers)
    ensures UniqueKeys(AssignAll(headers, updates))
    decreases |updates|
  {
    if updates != [] {
      AssignUnique(headers, updates[0].0, updates[0].1);
      AssignAllUnique(Assign(headers, updates[0].0, updates[0].1), updates[1..]);
    }
  }

  /** Every header of the result was there before or is one of the updates. */
  lemma {:induction false} AssignAllFrom(headers: Headers, updates: Headers, i: nat)
    requires i < |AssignAll(headers, updates)|
    ensures AssignAll(headers, updates)[i] in headers || AssignAll(headers, updates)[i] in updates
    decreases |updates|
  {
    if updates != [] {
      var next := Assign(headers, updates[0].0, updates[0].1);
      AssignAllFrom(next, updates[1..], i);
      var h := AssignAll(headers, updates)[i];
      if h in next {
        AssignFrom(headers, updates[0].0, updates[0].1, h);
        assert updates[0] in updates;
      }
    }
  }

  lemma {:induction false} AssignFrom(headers: Headers, key: string, value: string, h: (string, string))
    requires h in Assign(headers, key, value)
    ensures h in headers || h == (key, value)
  {
    if headers != [] && headers[0].0 != key {
      if h != headers[0] {
        AssignFrom(headers[1..], key, value, h);
      }
    }
  }

  lemma {:induction false} AssignAt(headers: Headers, key: string, value: string, i: nat)
    requires i <= |headers|
    requires forall j :: 0 <= j < i ==> headers[j].0 != key
    requires i < |headers| ==> headers[i].0 == key
    ensures Assign(headers, key, value)
         == if i < |headers| then headers[i := (key, value)] else headers + [(key, value)]
  {
    if i > 0 {
      AssignAt(headers[1..], key, value, i - 1);
    }
  }

  /** The frame object; its methods edit the header list in place. */
  class StompFrame {
    var command: string
    var headers: Headers
    var body: string

    function Value(): (f: Frame)
      reads this
    {
      Frame(command, headers, body)
    }

    constructor (command: string)
      ensures Value() == Frame(command, [], "")
    {
      this.command, headers, body := command, [], "";
    }

    method GetHeader(key: string) returns (r: Option<string>)
      ensures r == First(headers, key)
    {
      for i := 0 to |headers|
        invariant First(headers, key) == First(headers[i..], key)
      {
        if headers[i].0 == key {
          return Some(headers[i].1);
        }
        assert headers[i..][1..] == headers[i + 1..];
      }
      return None;
    }

    method SetHeader(key: string, value: string)
      modifies this
      ensures Value() == old(Value()).(headers := Assign(old(headers), key, value))
    {
      for i := 0 to |headers|
        invariant headers == old(headers)
        invariant forall j :: 0 <= j < i ==> headers[j].0 != key
      {
        if headers[i].0 == key {
          AssignAt(headers, key, value, i);
          headers := headers[i := (key, value)];
          return;
        }
      }
      AssignAt(headers, key, value, |headers|);
      headers := headers + [(key, value)];
    }

    method AddHeader(key: string, value: string)
      modifies this
      ensures Value() == old(Value()).(headers := old(headers) + [(key, value)])
    {
      headers := headers + [(key, value)];
    }

    method SetBody(text: string)
      modifies this
      ensures Value() == old(Value()).(body := text)
    {
      body := text;
    }

    method SetAll(updates: Headers)
      modifies this
      ensures Value() == old(Value()).(headers := AssignAll(old(headers), updates))
    {
      for i := 0 to |updates|
        invariant command == old(command) && body == old(body)
        invariant AssignAll(old(headers), updates) == AssignAll(headers, updates[i..])
      {
        SetHeader(updates[i].0, updates[i].1);
        assert updates[i..][1..] == updates[i + 1..];
      }
    }

    method Serialize() returns (out: string)
      ensures out == Wire(Value())
    {
      out := command;
      out := out + "\n";
      for i := 0 to |headers|
        invariant out == command + "\n" + HeaderLines(headers[..i])
      {
        out := out + headers[i].0;
        out := out + ":";
        out := out + headers[i].1;
        out := out + "\n";
        HeaderLinesSnoc(headers[..i], headers[i]);
        assert headers[..i] + [headers[i]] == headers[..i + 1];
      }
      assert headers[..|headers|] == headers;
      out := out + "\n";
      out := out + body;
      out := out + "\0";
    }
  }
}
