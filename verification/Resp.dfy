/**
 The Redis client's own implementation of the Redis serialization protocol (RESP2): what it
 writes for a command, and how it reads a reply.
 */
module Resp {
  import opened Text

  /** What readResp returns. */
  datatype Value =
    | Nil
    | Str(s: string)
    | Err(msg: string)
    | Int(n: int)
    | Arr(items: seq<Value>)

  /** `TooLong`: the length of the buffer overflows, and the program panics. */
  datatype Failure = Eof | BadNumber | UnknownType | TooLong

  /** The outcome of a read and the bytes that are left in the reader. */
  datatype Read =
    | Ok(value: Value, rest: string)
    | Fail(why: Failure, rest: string)

  datatype Items =
    | All(values: seq<Value>, rest: string)
    | Broken(why: Failure, rest: string)

  // ---- lines ------------------------------------------------------------------------------

  datatype Line = NoLine | Line(text: string, rest: string)

  /** bufio.Reader.ReadString('\n') */
  function NextLine(d: string): (r: Line)
    ensures r.Line? ==> d == r.text + r.rest && r.text != []
  {
    var i := Index(d, '\n');
    if i == |d| then NoLine else Line(d[..i + 1], d[i + 1..])
  }

  /** A line without its line feed and the one carriage return before it. */
  function Chomp(line: string): string {
    var s := if line != [] && line[|line| - 1] == '\n' then line[..|line| - 1] else line;
    if s != [] && s[|s| - 1] == '\r' then s[..|s| - 1] else s
  }

  predicate HasLine(c: char) {
    c == '+' || c == '-' || c == ':' || c == '$' || c == '*'
  }

  // ---- reading ----------------------------------------------------------------------------

  function Parse(d: string): (r: Read)
    ensures |r.rest| <= |d| && (r.Ok? ==> |r.rest| < |d|)
    decreases |d|, 0
  {
    if d == [] then Fail(Eof, [])
    else if !HasLine(d[0]) then Fail(UnknownType, d[1..])
    else
      match NextLine(d[1..])
      case NoLine => Fail(Eof, [])
      case Line(text, rest) => ParseBody(d[0], text, rest)
  }

  /** What follows the type and the first line. */
  function ParseBody(prefix: char, text: string, rest: string): (r: Read)
    ensures |r.rest| <= |rest|
    decreases |rest|, 2
  {
    if prefix == '+' then Ok(Str(Chomp(text)), rest)
    else if prefix == '-' then Ok(Err(Chomp(text)), rest)
    else
      match Atoi(TrimSpace(text))
      case None => Fail(BadNumber, rest)
      case Some(n) =>
        if prefix == ':' then Ok(Int(n), rest)
        else if n < 0 then Ok(Nil, rest)
        else if prefix == '$' then ReadBulk(rest, n)
        else ArrayOf(ParseItems(rest, n))
  }

  function ArrayOf(items: Items): Read {
    match items
    case All(values, rest) => Ok(Arr(values), rest)
    case Broken(why, rest) => Fail(why, rest)
  }

  /** `n` bytes and two more, whatever the two are. */
  function ReadBulk(d: string, n: nat): (r: Read)
    ensures |r.rest| <= |d|
  {
    if n + 2 > MAX_INT64 then Fail(TooLong, d)
    else if |d| < n + 2 then Fail(Eof, [])
    else Ok(Str(d[..n]), d[n + 2..])
  }

  function ParseItems(d: string, n: nat): (r: Items)
    ensures |r.rest| <= |d|
    decreases |d|, 1
  {
    if n == 0 then All([], d)
    else
      match Parse(d)
      case Fail(why, rest) => Broken(why, rest)
      case Ok(v, rest) =>
        match ParseItems(rest, n - 1)
        case All(vs, rest') => All([v] + vs, rest')
        case Broken(why, rest') => Broken(why, rest')
  }

  /** The connection: what was written to it and what is still to be read from it. */
  class Client {
    var sent: string
    var incoming: string

    constructor (replies: string)
      ensures sent == [] && incoming == replies
    {
      sent, incoming := [], replies;
    }

    method ReadLine() returns (line: Option<string>)
      modifies this`incoming
      ensures match NextLine(old(incoming))
              case NoLine => line == None && incoming == []
              case Line(text, rest) => line == Some(text) && incoming == rest
    {
      match NextLine(incoming)
      case NoLine =>
        line, incoming := None, [];
      case Line(text, rest) =>
        line, incoming := Some(text), rest;
    }

    method ReadFull(n: nat) returns (buf: Option<string>)
      modifies this`incoming
      ensures if n <= |old(incoming)| then buf == Some(old(incoming)[..n]) && incoming == old(incoming)[n..]
              else buf == None && incoming == []
    {
      if n <= |incoming| {
        buf, incoming := Some(incoming[..n]), incoming[n..];
      } else {
        buf, incoming := None, [];
      }
    }

    /** readResp: the type and the first line. */
    method ReadResp() returns (r: Read)
      modifies this`incoming
      ensures r == Parse(old(incoming)) && incoming == r.rest
      decreases |incoming|, 0
    {
      hide NextLine, ParseBody;
      if |incoming| == 0 {
        return Fail(Eof, incoming);
      }
      var prefix := incoming[0];
      incoming := incoming[1..];
      if !HasLine(prefix) {
        return Fail(UnknownType, incoming);
      }
      var line := ReadLine();
      if line.None? {
        return Fail(Eof, incoming);
      }
      r := ReadBody(prefix, line.value);
    }

    /** readResp: what the type asks for. */
    method ReadBody(prefix: char, line: string) returns (r: Read)
      modifies this`incoming
      ensures r == ParseBody(prefix, line, old(incoming)) && incoming == r.rest
      decreases |incoming|, 2
    {
      hide Chomp, Atoi, TrimSpace, ParseItems;
      if prefix == '+' {
        return Ok(Str(Chomp(line)), incoming);
      }
      if prefix == '-' {
        return Ok(Err(Chomp(line)), incoming);
      }
      var n := Atoi(TrimSpace(line));
      if n.None? {
        return Fail(BadNumber, incoming);
      }
      if prefix == ':' {
        return Ok(Int(n.value), incoming);
      }
      if n.value < 0 {
        return Ok(Nil, incoming);
      }
      if prefix == '$' {
        if n.value + 2 > MAX_INT64 {
          return Fail(TooLong, incoming);
        }
        var buf := ReadFull(n.value + 2);
        if buf.None? {
          return Fail(Eof, incoming);
        }
        assert buf.value[..n.value] == old(incoming)[..n.value];
        return Ok(Str(buf.value[..n.value]), incoming);
      }
      var items := ReadItems(n.value);
      r := ArrayOf(items);
    }

    /** The loop over the elements of an array. */
    method ReadItems(n: nat) returns (r: Items)
      modifies this`incoming
      ensures r == ParseItems(old(incoming), n) && incoming == r.rest
      decreases |incoming|, 1
    {
      hide Parse;
      var out: seq<Value> := [];
      ghost var goal := ParseItems(incoming, n);
      AppendedNone(goal);
      var i: nat := 0;
      while i < n
        invariant i <= n && |incoming| <= |old(incoming)|
        invariant goal == Appended(out, ParseItems(incoming, n - i))
      {
        AppendedStep(out, incoming, n - i);
        var v := ReadResp();
        if v.Fail? {
          return Broken(v.why, incoming);
        }
        out := out + [v.value];
        i := i + 1;
      }
      r := All(out, incoming);
      assert out + [] == out;
    }

    /**
     do: one command is written, one reply is read; an error reply is an error. `accepted` is the
     number of bytes that the connection takes; when it is too small the write fails, and nothing
     is read.
     */
    method Do(cmd: string, args: seq<string>, accepted: nat) returns (r: Option<Read>, failed: bool)
      modifies this
      ensures var bytes := Request(cmd, args);
              if accepted < |bytes|
              then failed && r == None && sent == old(sent) + bytes[..accepted] && incoming == old(incoming)
              else
                && sent == old(sent) + bytes
                && r == Some(Parse(old(incoming))) && incoming == r.value.rest
                && failed == (r.value.Fail? || r.value.value.Err?)
    {
      var bytes := EncodeRequest(cmd, args);
      if accepted < |bytes| {
        sent := sent + bytes[..accepted];
        return None, true;
      }
      sent := sent + bytes;
      var v := ReadResp();
      return Some(v), v.Fail? || v.value.Err?;
    }
  }

  function Appended(out: seq<Value>, r: Items): Items {
    match r
    case Broken(_, _) => r
    case All(vs, rest) => All(out + vs, rest)
  }

  lemma AppendedNone(r: Items)
    ensures Appended([], r) == r
  {
    if r.All? {
      assert [] + r.values == r.values;
    }
  }

  lemma AppendedStep(out: seq<Value>, d: string, n: nat)
    requires n > 0
    ensures var p := Parse(d);
            Appended(out, ParseItems(d, n)) ==
            if p.Fail? then Broken(p.why, p.rest) else Appended(out + [p.value], ParseItems(p.rest, n - 1))
  {
    hide Parse;
    var p := Parse(d);
    if p.Ok? {
      var r := ParseItems(p.rest, n - 1);
      if r.All? {
        assert out + ([p.value] + r.values) == (out + [p.value]) + r.values;
      }
    }
  }

  // ---- what a server sends ----------------------------------------------------------------

  /** The RESP2 types; a bulk string and an array can be null. */
  datatype Reply =
    | Simple(s: string)
    | Error(msg: string)
    | Integer(n: int)
    | Bulk(bytes: string)
    | NullBulk
    | Array(items: seq<Reply>)
    | NullArray

  const CRLF := "\r\n"

  function Serialize(v: Reply): (r: string)
    ensures r != [] && HasLine(r[0])
    decreases v, 0
  {
    match v
    case Simple(s) => "+" + (s + CRLF)
    case Error(s) => "-" + (s + CRLF)
    case Integer(n) => ":" + (Itoa(n) + CRLF)
    case Bulk(b) => "$" + ((Itoa(|b|) + CRLF) + (b + CRLF))
    case NullBulk => "$" + (Itoa(-1) + CRLF)
    case Array(items) => "*" + ((Itoa(|items|) + CRLF) + SerializeAll(items))
    case NullArray => "*" + (Itoa(-1) + CRLF)
  }

  function SerializeAll(vs: seq<Reply>): string
    decreases vs, 1
  {
    if vs == [] then [] else Serialize(vs[0]) + SerializeAll(vs[1..])
  }

  /** The value that the client should make of a reply: both nulls are nil. */
  function Meaning(v: Reply): Value
    decreases v, 0
  {
    match v
    case Simple(s) => Str(s)
    case Error(s) => Err(s)
    case Integer(n) => Int(n)
    case Bulk(b) => Str(b)
    case NullBulk => Nil
    case Array(items) => Arr(Meanings(items))
    case NullArray => Nil
  }

  function Meanings(vs: seq<Reply>): (r: seq<Value>)
    ensures |r| == |vs|
    decreases vs, 1
  {
    if vs == [] then [] else [Meaning(vs[0])] + Meanings(vs[1..])
  }

  /** No line feed in a line, numbers and lengths within the range of int64. */
  predicate Sendable(v: Reply)
    decreases v, 0
  {
    match v
    case Simple(s) => '\n' !in s
    case Error(s) => '\n' !in s
    case Integer(n) => IsInt64(n)
    case Bulk(b) => |b| + 2 <= MAX_INT64
    case NullBulk => true
    case Array(items) => |items| <= MAX_INT64 && AllSendable(items)
    case NullArray => true
  }

  predicate AllSendable(vs: seq<Reply>)
    decreases vs, 1
  {
    vs == [] || (Sendable(vs[0]) && AllSendable(vs[1..]))
  }

  // ---- a command --------------------------------------------------------------------------

  function Upper(c: char): (r: char)
    ensures !('a' <= r <= 'z')
    ensures if 'a' <= c <= 'z' then r as int == c as int - 32 else r == c
  {
    if 'a' <= c <= 'z' then c - 'a' + 'A' else c
  }

  /** strings.ToUpper on ASCII. */
  function ToUpper(s: string): (r: string)
    ensures |r| == |s|
    ensures forall i :: 0 <= i < |s| ==> if 'a' <= s[i] <= 'z' then r[i] as int == s[i] as int - 32 else r[i] == s[i]
  {
    seq(|s|, i requires 0 <= i < |s| => Upper(s[i]))
  }

  /** A command is sent as an array of bulk strings, its name in upper case. */
  function Request(cmd: string, args: seq<string>): string {
    Serialize(Array(Bulks([ToUpper(cmd)] + args)))
  }

  function Bulks(parts: seq<string>): (r: seq<Reply>)
    ensures |r| == |parts|
  {
    seq(|parts|, i requires 0 <= i < |parts| => Bulk(parts[i]))
  }

  lemma {:induction false} SerializeNext(vs: seq<Reply>, v: Reply)
    ensures SerializeAll(vs + [v]) == SerializeAll(vs) + Serialize(v)
  {
    if vs == [] {
      assert [v][1..] == [];
      assert vs + [v] == [v];
    } else {
      SerializeNext(vs[1..], v);
      assert (vs + [v])[1..] == vs[1..] + [v];
      assert Serialize(vs[0]) + (SerializeAll(vs[1..]) + Serialize(v)) == (Serialize(vs[0]) + SerializeAll(vs[1..])) + Serialize(v);
    }
  }

  /** The builder loop of do. */
  method EncodeRequest(cmd: string, args: seq<string>) returns (b: string)
    ensures b == Request(cmd, args)
  {
    hide Serialize;
    var parts := [ToUpper(cmd)] + args;
    b := "*";
    b := b + Itoa(|parts|);
    b := b + CRLF;
    ghost var head := b;
    for i := 0 to |parts|
      invariant b == head + SerializeAll(Bulks(parts[..i]))
    {
      SerializeNext(Bulks(parts[..i]), Bulk(parts[i]));
      assert Bulks(parts[..i + 1]) == Bulks(parts[..i]) + [Bulk(parts[i])];
      PartBytes(b, parts[i]);
      b := b + "$";
      b := b + Itoa(|parts[i]|);
      b := b + CRLF;
      b := b + parts[i];
      b := b + CRLF;
    }
    assert parts[..|parts|] == parts;
    RequestBytes(parts);
  }

  lemma PartBytes(b: string, p: string)
    ensures b + "$" + Itoa(|p|) + CRLF + p + CRLF == b + Serialize(Bulk(p))
  {
    hide Itoa;
    var n := Itoa(|p|);
    assert "$" + ((n + CRLF) + (p + CRLF)) == ("$" + n + CRLF) + p + CRLF;
    assert b + "$" + n + CRLF == b + ("$" + n + CRLF);
    assert b + ("$" + n + CRLF) + p + CRLF == b + (("$" + n + CRLF) + p + CRLF);
  }

  lemma RequestBytes(parts: seq<string>)
    ensures "*" + Itoa(|parts|) + CRLF + SerializeAll(Bulks(parts)) == Serialize(Array(Bulks(parts)))
  {
    hide Itoa, SerializeAll;
    var n, all := Itoa(|parts|), SerializeAll(Bulks(parts));
    assert "*" + ((n + CRLF) + all) == ("*" + n + CRLF) + all;
  }
}
