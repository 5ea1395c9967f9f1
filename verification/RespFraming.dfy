/** Round trips and framing of RESP: a reply ends exactly where its bytes end. */
module RespFraming {
  import opened Resp
  import opened Seqs
  import opened Text

  // ---- lines and numbers ------------------------------------------------------------------

  lemma LineOf(s: string, rest: string)
    requires '\n' !in s
    ensures NextLine((s + CRLF) + rest) == Line(s + CRLF, rest)
    ensures Chomp(s + CRLF) == s
  {
    var d := (s + CRLF) + rest;
    assert d == (s + "\r") + (['\n'] + rest);
    IndexIsFirst(s + "\r", '\n', rest);
    assert d[..|s| + 2] == s + CRLF && d[|s| + 2..] == rest;
    var t := s + CRLF;
    assert t[..|t| - 1] == s + "\r" && (s + "\r")[..|s|] == s;
  }

  lemma TrimOfLine(s: string)
    requires s != [] && Tight(s)
    ensures TrimSpace(s + CRLF) == s
  {
    assert (s + CRLF)[..|s| + 1] == s + "\r" && (s + "\r")[..|s|] == s;
    assert TrimRight(s + CRLF) == TrimRight(s + "\r") == TrimRight(s);
  }

  lemma NumberLine(n: int, rest: string)
    ensures NextLine((Itoa(n) + CRLF) + rest) == Line(Itoa(n) + CRLF, rest)
    ensures Atoi(TrimSpace(Itoa(n) + CRLF)) == if IsInt64(n) then Some(n) else None
  {
    var s := Itoa(n);
    hide Itoa, TrimSpace, Atoi, NextLine;
    assert '\n' !in s;
    LineOf(s, rest);
    assert !IsSpace(s[0]) && !IsSpace(s[|s| - 1]);
    TrimOfLine(s);
    AtoiOfItoa(n);
  }

  /** The first bytes of a message: its type and a number. */
  lemma NumberHead(prefix: char, n: int, body: string)
    requires prefix == ':' || prefix == '$' || prefix == '*'
    ensures var d := [prefix] + ((Itoa(n) + CRLF) + body);
            Parse(d) == ParseBody(prefix, Itoa(n) + CRLF, body)
  {
    hide ParseBody, NextLine, Itoa;
    var d := [prefix] + ((Itoa(n) + CRLF) + body);
    assert d[1..] == (Itoa(n) + CRLF) + body;
    NumberLine(n, body);
  }

  lemma BulkBody(b: string, suffix: string)
    requires |b| + 2 <= MAX_INT64
    ensures ReadBulk((b + CRLF) + suffix, |b|) == Ok(Str(b), suffix)
  {
    var d := (b + CRLF) + suffix;
    assert d[..|b|] == b && d[|b| + 2..] == suffix;
  }

  // ---- the round trip ---------------------------------------------------------------------

  lemma Regroup(prefix: string, head: string, body: string, suffix: string)
    ensures (prefix + (head + body)) + suffix == prefix + (head + (body + suffix))
    ensures (prefix + head) + suffix == prefix + (head + suffix)
  {
    assert (head + body) + suffix == head + (body + suffix);
  }

  lemma LineRoundTrip(v: Reply, suffix: string)
    requires (v.Simple? || v.Error?) && Sendable(v)
    ensures Parse(Serialize(v) + suffix) == Ok(Meaning(v), suffix)
  {
    hide NextLine, Chomp;
    var s := if v.Simple? then v.s else v.msg;
    var prefix := if v.Simple? then "+" else "-";
    Regroup(prefix, s + CRLF, [], suffix);
    LineOf(s, suffix);
    var d := prefix + ((s + CRLF) + suffix);
    assert d[1..] == (s + CRLF) + suffix;
  }

  lemma NumberRoundTrip(v: Reply, suffix: string)
    requires (v.Integer? || v.NullBulk? || v.NullArray?) && Sendable(v)
    ensures Parse(Serialize(v) + suffix) == Ok(Meaning(v), suffix)
  {
    hide Itoa, Atoi, TrimSpace, Parse;
    var n := if v.Integer? then v.n else -1;
    var prefix := if v.Integer? then ':' else if v.NullBulk? then '$' else '*';
    Regroup([prefix], Itoa(n) + CRLF, [], suffix);
    NumberHead(prefix, n, suffix);
    NumberLine(n, suffix);
  }

  lemma BulkRoundTrip(b: string, suffix: string)
    requires |b| + 2 <= MAX_INT64
    ensures Parse(Serialize(Bulk(b)) + suffix) == Ok(Str(b), suffix)
  {
    hide Itoa, Atoi, TrimSpace, Parse, ReadBulk;
    Regroup("$", Itoa(|b|) + CRLF, b + CRLF, suffix);
    NumberHead('$', |b|, (b + CRLF) + suffix);
    NumberLine(|b|, (b + CRLF) + suffix);
    BulkBody(b, suffix);
  }

  lemma ArrayHead(items: seq<Reply>, suffix: string)
    ensures Parse(Serialize(Array(items)) + suffix) ==
            if |items| <= MAX_INT64 then ArrayOf(ParseItems(SerializeAll(items) + suffix, |items|))
            else Fail(BadNumber, SerializeAll(items) + suffix)
  {
    hide Itoa, Atoi, TrimSpace, Parse, ParseItems, SerializeAll;
    var all := SerializeAll(items);
    Regroup("*", Itoa(|items|) + CRLF, all, suffix);
    NumberHead('*', |items|, all + suffix);
    NumberLine(|items|, all + suffix);
  }

  /**
   For every reply that can be sent, however nested, reading its bytes gives its meaning and
   leaves exactly what follows, whatever bytes its bulk strings hold.
   */
  lemma {:induction false} RoundTrip(v: Reply, suffix: string)
    requires Sendable(v)
    ensures Parse(Serialize(v) + suffix) == Ok(Meaning(v), suffix)
    decreases v, 0
  {
    match v
    case Simple(_) => LineRoundTrip(v, suffix);
    case Error(_) => LineRoundTrip(v, suffix);
    case Bulk(b) => BulkRoundTrip(b, suffix);
    case Array(items) =>
      hide Parse, ParseItems, SerializeAll, Serialize, Meanings;
      ArrayHead(items, suffix);
      RoundTripAll(items, suffix);
    case _ => NumberRoundTrip(v, suffix);
  }

  /** Any number of replies in a row stays in step. */
  lemma {:induction false} RoundTripAll(vs: seq<Reply>, suffix: string)
    requires AllSendable(vs)
    ensures ParseItems(SerializeAll(vs) + suffix, |vs|) == All(Meanings(vs), suffix)
    decreases vs, 1
  {
    hide Parse, Serialize, Meaning, Sendable;
    if vs == [] {
      assert SerializeAll(vs) + suffix == suffix;
    } else {
      var later := SerializeAll(vs[1..]) + suffix;
      assert SerializeAll(vs) + suffix == Serialize(vs[0]) + later;
      RoundTrip(vs[0], later);
      RoundTripAll(vs[1..], suffix);
    }
  }

  // ---- the exact condition ----------------------------------------------------------------

  /** A line feed inside a simple string or an error ends it too early. */
  lemma CutShort(s: string, rest: string)
    requires '\n' in s
    ensures var l := NextLine((s + CRLF) + rest); l.Line? && |Chomp(l.text)| < |s|
  {
    var d := (s + CRLF) + rest;
    var i := Index(s, '\n');
    assert s[..|s|] == s;
    assert d == s[..i] + (['\n'] + d[i + 1..]) by {
      assert d[..i] == s[..i] && d[i] == '\n';
      assert d == d[..i] + ([d[i]] + d[i + 1..]);
    }
    IndexIsFirst(s[..i], '\n', d[i + 1..]);
  }

  lemma LineMisread(v: Reply, suffix: string)
    requires (v.Simple? || v.Error?) && !Sendable(v)
    ensures Parse(Serialize(v) + suffix).Ok? ==> Parse(Serialize(v) + suffix).value != Meaning(v)
  {
    hide NextLine, Chomp;
    var s := if v.Simple? then v.s else v.msg;
    var prefix := if v.Simple? then "+" else "-";
    Regroup(prefix, s + CRLF, [], suffix);
    CutShort(s, suffix);
    var d := prefix + ((s + CRLF) + suffix);
    assert d[1..] == (s + CRLF) + suffix;
  }

  lemma NumberMisread(v: Reply, suffix: string)
    requires (v.Integer? || v.Bulk?) && !Sendable(v)
    ensures Parse(Serialize(v) + suffix).Fail?
  {
    hide Itoa, Atoi, TrimSpace, Parse;
    if v.Integer? {
      Regroup(":", Itoa(v.n) + CRLF, [], suffix);
      NumberHead(':', v.n, suffix);
      NumberLine(v.n, suffix);
    } else {
      var n, body := |v.bytes|, v.bytes + CRLF;
      Regroup("$", Itoa(n) + CRLF, body, suffix);
      NumberHead('$', n, body + suffix);
      NumberLine(n, body + suffix);
    }
  }

  lemma {:induction false} Misread(v: Reply, suffix: string)
    requires !Sendable(v)
    ensures Parse(Serialize(v) + suffix).Ok? ==> Parse(Serialize(v) + suffix).value != Meaning(v)
    decreases v, 0
  {
    match v
    case Array(items) =>
      hide Parse, ParseItems, SerializeAll, Serialize, Meanings;
      ArrayHead(items, suffix);
      if |items| <= MAX_INT64 {
        MisreadAll(items, suffix);
      }
    case _ =>
      if v.Simple? || v.Error? {
        LineMisread(v, suffix);
      } else {
        NumberMisread(v, suffix);
      }
  }

  lemma {:induction false} MisreadAll(vs: seq<Reply>, suffix: string)
    requires !AllSendable(vs)
    ensures var r := ParseItems(SerializeAll(vs) + suffix, |vs|); r.All? ==> r.values != Meanings(vs)
    decreases vs, 1
  {
    hide Parse, Serialize, Meaning, Sendable;
    var later := SerializeAll(vs[1..]) + suffix;
    assert SerializeAll(vs) + suffix == Serialize(vs[0]) + later;
    if Sendable(vs[0]) {
      RoundTrip(vs[0], later);
      MisreadAll(vs[1..], suffix);
      assert Meanings(vs)[1..] == Meanings(vs[1..]);
    } else {
      Misread(vs[0], later);
    }
    var r := ParseItems(SerializeAll(vs) + suffix, |vs|);
    if r.All? {
      var p := Parse(Serialize(vs[0]) + later);
      assert r.values[0] == p.value;
      assert r.values[1..] == ParseItems(p.rest, |vs| - 1).values;
    }
  }

  /** The client reads a reply back if and only if it can be sent. */
  lemma RoundTripIffSendable(v: Reply, suffix: string)
    ensures Parse(Serialize(v) + suffix) == Ok(Meaning(v), suffix) <==> Sendable(v)
  {
    if Sendable(v) {
      RoundTrip(v, suffix);
    } else {
      Misread(v, suffix);
    }
  }

  // ---- commands ---------------------------------------------------------------------------

  function Strings(parts: seq<string>): (r: seq<Value>)
    ensures |r| == |parts|
  {
    seq(|parts|, i requires 0 <= i < |parts| => Str(parts[i]))
  }

  lemma {:induction false} BulksMeanStrings(parts: seq<string>)
    requires forall i :: 0 <= i < |parts| ==> |parts[i]| + 2 <= MAX_INT64
    ensures Meanings(Bulks(parts)) == Strings(parts) && AllSendable(Bulks(parts))
  {
    if parts != [] {
      BulksMeanStrings(parts[1..]);
      assert Bulks(parts)[1..] == Bulks(parts[1..]);
      assert Strings(parts) == [Str(parts[0])] + Strings(parts[1..]);
    }
  }

  /** The name of a command in upper case, letter by letter. */
  ghost predicate IsUpperOf(name: string, cmd: string) {
    |name| == |cmd| && forall i :: 0 <= i < |cmd| ==>
      if 'a' <= cmd[i] <= 'z' then name[i] as int == cmd[i] as int - 32 else name[i] == cmd[i]
  }

  /**
   What `do` writes is read as the command in upper case and its arguments, byte for byte; a name
   without lower-case letters as it is.
   */
  lemma RequestRoundTrip(cmd: string, args: seq<string>, suffix: string) returns (name: string)
    requires |args| < MAX_INT64
    requires |cmd| + 2 <= MAX_INT64 && forall i :: 0 <= i < |args| ==> |args[i]| + 2 <= MAX_INT64
    ensures IsUpperOf(name, cmd)
    ensures (forall i :: 0 <= i < |cmd| ==> !('a' <= cmd[i] <= 'z')) ==> name == cmd
    ensures Parse(Request(cmd, args) + suffix) == Ok(Arr(Strings([name] + args)), suffix)
  {
    hide Parse, Serialize;
    name := ToUpper(cmd);
    var parts := [name] + args;
    BulksMeanStrings(parts);
    RoundTrip(Array(Bulks(parts)), suffix);
  }

  /** The bytes of one bulk string. */
  function BulkBytes(p: string): string {
    "$" + Itoa(|p|) + "\r\n" + p + "\r\n"
  }

  lemma {:induction false} BulksAreBytes(parts: seq<string>)
    ensures SerializeAll(Bulks(parts)) == FlatMap(BulkBytes, parts)
  {
    hide Itoa;
    if parts != [] {
      BulksAreBytes(parts[1..]);
      assert Bulks(parts)[1..] == Bulks(parts[1..]);
      PartBytes("", parts[0]);
      assert Serialize(Bulk(parts[0])) == BulkBytes(parts[0]);
    }
  }

  /** The bytes that `do` writes. */
  lemma RequestIs(cmd: string, args: seq<string>, name: string)
    requires IsUpperOf(name, cmd)
    ensures Request(cmd, args) == "*" + Itoa(|args| + 1) + "\r\n" + FlatMap(BulkBytes, [name] + args)
  {
    assert name == ToUpper(cmd);
    var parts := [name] + args;
    hide Itoa, Serialize, BulkBytes;
    BulksAreBytes(parts);
    RequestBytes(parts);
  }

  // ---- the format on the wire -------------------------------------------------------------

  /** Simple strings and errors, with a carriage return before the line feed or without. */
  lemma ReadsLines(s: string, rest: string)
    requires '\n' !in s
    ensures Parse("+" + ((s + "\r\n") + rest)) == Ok(Str(s), rest)
    ensures Parse("-" + ((s + "\r\n") + rest)) == Ok(Err(s), rest)
    ensures !EndsInCR(s) ==> Parse("+" + ((s + "\n") + rest)) == Ok(Str(s), rest)
    ensures !EndsInCR(s) ==> Parse("-" + ((s + "\n") + rest)) == Ok(Err(s), rest)
  {
    hide NextLine, Chomp;
    LineOf(s, rest);
    BareLineOf(s, rest);
    ReadsLineText("+", (s + "\r\n") + rest);
    ReadsLineText("-", (s + "\r\n") + rest);
    ReadsLineText("+", (s + "\n") + rest);
    ReadsLineText("-", (s + "\n") + rest);
  }

  predicate EndsInCR(s: string) {
    s != [] && s[|s| - 1] == '\r'
  }

  lemma BareLineOf(s: string, rest: string)
    requires '\n' !in s
    ensures NextLine((s + "\n") + rest) == Line(s + "\n", rest)
    ensures !EndsInCR(s) ==> Chomp(s + "\n") == s
  {
    var d := (s + "\n") + rest;
    assert d == s + (['\n'] + rest);
    IndexIsFirst(s, '\n', rest);
    assert d[..|s| + 1] == s + "\n" && d[|s| + 1..] == rest;
    assert (s + "\n")[..|s|] == s;
  }

  lemma ReadsLineText(prefix: string, d: string)
    requires (prefix == "+" || prefix == "-") && NextLine(d).Line?
    ensures var l := NextLine(d);
            Parse(prefix + d) == Ok(if prefix == "+" then Str(Chomp(l.text)) else Err(Chomp(l.text)), l.rest)
  {
    hide NextLine, Chomp;
    assert (prefix + d)[1..] == d;
  }

  /** Integers; lengths of bulk strings and arrays, of which every negative one means nil. */
  lemma ReadsNumbers(n: int, rest: string)
    requires IsInt64(n)
    ensures Parse(":" + ((Itoa(n) + "\r\n") + rest)) == Ok(Int(n), rest)
    ensures n < 0 ==> Parse("$" + ((Itoa(n) + "\r\n") + rest)) == Ok(Nil, rest)
    ensures n < 0 ==> Parse("*" + ((Itoa(n) + "\r\n") + rest)) == Ok(Nil, rest)
    ensures n >= 0 ==> Parse("*" + ((Itoa(n) + "\r\n") + rest)) == ArrayOf(ParseItems(rest, n))
  {
    hide Itoa, Atoi, TrimSpace, Parse, ParseItems;
    NumberLine(n, rest);
    NumberHead(':', n, rest);
    NumberHead('$', n, rest);
    NumberHead('*', n, rest);
  }

  /** A bulk string is followed by two bytes that are skipped, whatever they are. */
  lemma ReadsBulk(b: string, x: char, y: char, rest: string)
    requires |b| + 2 <= MAX_INT64
    ensures Parse("$" + ((Itoa(|b|) + "\r\n") + (b + [x, y] + rest))) == Ok(Str(b), rest)
  {
    hide Itoa, Atoi, TrimSpace, Parse, ReadBulk;
    var d := b + [x, y] + rest;
    BulkThenAny(b, x, y, rest);
    NumberLine(|b|, d);
    NumberHead('$', |b|, d);
  }

  /** A bulk string that is cut off is waited for; a length that overflows is refused. */
  lemma ReadsShortBulk(n: nat, d: string)
    requires n <= MAX_INT64
    ensures |d| < n + 2 <= MAX_INT64 ==> Parse("$" + ((Itoa(n) + "\r\n") + d)) == Fail(Eof, [])
    ensures n + 2 > MAX_INT64 ==> Parse("$" + ((Itoa(n) + "\r\n") + d)) == Fail(TooLong, d)
  {
    hide Itoa, Atoi, TrimSpace, Parse;
    NumberLine(n, d);
    NumberHead('$', n, d);
  }

  lemma BulkThenAny(b: string, x: char, y: char, rest: string)
    requires |b| + 2 <= MAX_INT64
    ensures ReadBulk(b + [x, y] + rest, |b|) == Ok(Str(b), rest)
  {
    var d := b + [x, y] + rest;
    assert d[..|b|] == b && d[|b| + 2..] == rest;
  }

  /** Elements are read one after the other; the first that fails makes the array fail. */
  lemma ReadsItems(d: string, n: nat)
    ensures ParseItems(d, 0) == All([], d)
    ensures Parse(d).Fail? ==> ParseItems(d, n + 1) == Broken(Parse(d).why, Parse(d).rest)
    ensures Parse(d).Ok? ==> ParseItems(d, n + 1) == Appended([Parse(d).value], ParseItems(Parse(d).rest, n))
  {
    hide Parse;
  }

  /** Any other first byte is refused, and so is a length or integer that is no int64. */
  lemma Refuses(c: char, s: string, rest: string)
    requires '\n' !in s
    ensures c !in "+-:$*" ==> Parse([c] + rest) == Fail(UnknownType, rest)
    ensures c in ":$*" && (forall n :: IsInt64(n) ==> !Denotes(TrimSpace(s + "\n"), n)) ==>
      Parse([c] + ((s + "\n") + rest)) == Fail(BadNumber, rest)
    ensures Parse([]) == Fail(Eof, [])
    ensures c in "+-:$*" ==> Parse([c] + s) == Fail(Eof, [])
  {
    hide Atoi, TrimSpace, Denotes, Chomp;
    BareLineOf(s, rest);
    assert ([c] + rest)[1..] == rest;
    assert ([c] + ((s + "\n") + rest))[1..] == (s + "\n") + rest;
    assert ([c] + s)[1..] == s;
    NoLineIn(s);
    hide NextLine;
    var a := Atoi(TrimSpace(s + "\n"));
    if a.Some? {
      AtoiIffDenotes(TrimSpace(s + "\n"), a.value);
    }
  }

  lemma NoLineIn(s: string)
    requires '\n' !in s
    ensures NextLine(s) == NoLine
  {
  }

  // ---- more bytes -------------------------------------------------------------------------

  /** The outcome with `e` left behind what is left. */
  function Later(r: Read, e: string): Read {
    r.(rest := r.rest + e)
  }

  function LaterItems(r: Items, e: string): Items {
    r.(rest := r.rest + e)
  }

  predicate Decided(r: Read) {
    r.Ok? || r.why != Eof
  }

  predicate DecidedItems(r: Items) {
    r.All? || r.why != Eof
  }

  lemma NextLineStable(d: string, e: string)
    requires NextLine(d).Line?
    ensures NextLine(d + e) == Line(NextLine(d).text, NextLine(d).rest + e)
  {
    var i := Index(d, '\n');
    assert d + e == d[..i] + (['\n'] + (d[i + 1..] + e));
    IndexIsFirst(d[..i], '\n', d[i + 1..] + e);
    assert (d + e)[..i + 1] == d[..i + 1] && (d + e)[i + 1..] == d[i + 1..] + e;
  }

  lemma BulkStable(d: string, n: nat, e: string)
    requires Decided(ReadBulk(d, n))
    ensures ReadBulk(d + e, n) == Later(ReadBulk(d, n), e)
  {
    if n + 2 <= MAX_INT64 {
      assert (d + e)[..n] == d[..n] && (d + e)[n + 2..] == d[n + 2..] + e;
    }
  }

  /**
   Only the end of the input leaves a reply open: any other outcome stays as it is when more
   bytes come, and the new bytes are left for the next reply.
   */
  lemma {:induction false} Stable(d: string, e: string)
    requires Decided(Parse(d))
    ensures Parse(d + e) == Later(Parse(d), e)
    decreases |d|, 0
  {
    hide NextLine, ParseBody;
    assert d != [] && (d + e)[0] == d[0] && (d + e)[1..] == d[1..] + e;
    if HasLine(d[0]) {
      var l := NextLine(d[1..]);
      NextLineStable(d[1..], e);
      BodyStable(d[0], l.text, l.rest, e);
    }
  }

  lemma {:induction false} BodyStable(prefix: char, text: string, rest: string, e: string)
    requires Decided(ParseBody(prefix, text, rest))
    ensures ParseBody(prefix, text, rest + e) == Later(ParseBody(prefix, text, rest), e)
    decreases |rest|, 2
  {
    hide Chomp, Atoi, TrimSpace, ReadBulk, ParseItems;
    if prefix != '+' && prefix != '-' && prefix != ':' {
      var n := Atoi(TrimSpace(text));
      if n.Some? && n.value >= 0 {
        if prefix == '$' {
          BulkStable(rest, n.value, e);
        } else {
          ItemsStable(rest, n.value, e);
        }
      }
    }
  }

  lemma {:induction false} ItemsStable(d: string, n: nat, e: string)
    requires DecidedItems(ParseItems(d, n))
    ensures ParseItems(d + e, n) == LaterItems(ParseItems(d, n), e)
    decreases |d|, 1
  {
    hide Parse;
    if n > 0 {
      Stable(d, e);
      var p := Parse(d);
      if p.Ok? {
        ItemsStable(p.rest, n - 1, e);
      }
    }
  }

  /** A reply that is still incomplete is waited for: never a value, never another failure. */
  lemma IncompleteIsOpen(v: Reply, k: nat)
    requires Sendable(v) && k < |Serialize(v)|
    ensures !Decided(Parse(Serialize(v)[..k]))
  {
    hide Parse, Serialize;
    var d := Serialize(v);
    var front, back := d[..k], d[k..];
    assert front + back == d && d + [] == d;
    RoundTrip(v, []);
    if Decided(Parse(front)) {
      Stable(front, back);
    }
  }
}
