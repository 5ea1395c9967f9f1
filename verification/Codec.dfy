/** The intermediate file format of the workers. */
module Codec {
  import opened Seqs
  import opened Text

  datatype KV = KV(key: string, value: string)

  function EncodeLine(kv: KV): string {
    kv.key + (['\t'] + kv.value)
  }

  function EncodeRow(kv: KV): string {
    EncodeLine(kv) + ['\n']
  }

  function Encode(kvs: seq<KV>): string {
    FlatMap(EncodeRow, kvs)
  }

  /** What a line contributes: nothing unless it has a tab, else the two sides of the first tab. */
  function DecodeLine(line: string): (r: seq<KV>)
    ensures |r| <= 1
  {
    var i := Index(line, '\t');
    if i < |line| then [KV(line[..i], line[i + 1..])] else []
  }

  function DecodeLines(lines: seq<string>): seq<KV> {
    FlatMap(DecodeLine, lines)
  }

  function Decode(raw: string): seq<KV> {
    var t := TrimSpace(raw);
    if t == [] then [] else DecodeLines(Split(t, '\n'))
  }

  /** The builder loop of encodeIMDKVs. */
  method EncodeIMDKVs(kvs: seq<KV>) returns (out: string)
    ensures out == Encode(kvs)
  {
    if |kvs| == 0 {
      return "";
    }
    out := "";
    for i := 0 to |kvs|
      invariant out == Encode(kvs[..i])
    {
      FlatMapNext(EncodeRow, kvs, i);
      out := out + kvs[i].key;
      out := out + ['\t'];
      out := out + kvs[i].value;
      out := out + ['\n'];
    }
    assert kvs[..|kvs|] == kvs;
  }

  /** The loop of decodeIMDKVs over the lines. */
  method DecodeIMDKVs(raw: string) returns (out: seq<KV>)
    ensures out == Decode(raw)
  {
    var text := TrimSpace(raw);
    out := [];
    if text == "" {
      return;
    }
    var lines := Split(text, '\n');
    for i := 0 to |lines|
      invariant out == DecodeLines(lines[..i])
    {
      FlatMapNext(DecodeLine, lines, i);
      var line := lines[i];
      if line == "" {
        continue;
      }
      var tab := Index(line, '\t');
      if tab == |line| {
        continue;
      }
      out := out + [KV(line[..tab], line[tab + 1..])];
    }
    assert lines[..|lines|] == lines;
  }

  // ---- the round trip ---------------------------------------------------------------------

  predicate PlainKV(kv: KV) {
    '\t' !in kv.key && '\n' !in kv.key && '\n' !in kv.value
  }

  /** Exactly the lists that survive being written and read. */
  predicate Codable(kvs: seq<KV>) {
    && (forall i :: 0 <= i < |kvs| ==> PlainKV(kvs[i]))
    && (kvs != [] ==>
          && kvs[0].key != [] && !IsSpace(kvs[0].key[0])
          && var last := kvs[|kvs| - 1].value;
             last != [] && !IsSpace(last[|last| - 1]))
  }

  function LinesOf(kvs: seq<KV>): (r: seq<string>)
    ensures |r| == |kvs|
  {
    seq(|kvs|, i requires 0 <= i < |kvs| => EncodeLine(kvs[i]))
  }

  lemma {:induction false} EncodeIsJoin(kvs: seq<KV>)
    requires kvs != []
    ensures Encode(kvs) == Join(LinesOf(kvs), '\n') + ['\n']
  {
    var lines := LinesOf(kvs);
    if |kvs| == 1 {
      FlatMapOne(EncodeRow, kvs[0]);
      assert kvs == [kvs[0]];
    } else {
      EncodeIsJoin(kvs[1..]);
      assert LinesOf(kvs[1..]) == lines[1..];
    }
  }

  lemma DecodeOfLine(kv: KV)
    requires '\t' !in kv.key
    ensures DecodeLine(EncodeLine(kv)) == [kv]
  {
    IndexIsFirst(kv.key, '\t', kv.value);
    var line := EncodeLine(kv);
    assert line[..|kv.key|] == kv.key && line[|kv.key| + 1..] == kv.value;
  }

  lemma {:induction false} DecodeOfLines(kvs: seq<KV>)
    requires forall i :: 0 <= i < |kvs| ==> '\t' !in kvs[i].key
    ensures DecodeLines(LinesOf(kvs)) == kvs
  {
    if kvs != [] {
      DecodeOfLine(kvs[0]);
      DecodeOfLines(kvs[1..]);
      assert LinesOf(kvs)[1..] == LinesOf(kvs[1..]);
    }
  }

  /** The bytes of a file, pair by pair, and how a line of it is read. */
  lemma FileFormat(k: string, v: string, rest: seq<KV>)
    ensures Encode([]) == []
    ensures Encode([KV(k, v)] + rest) == k + "\t" + v + "\n" + Encode(rest)
    ensures '\t' !in k ==> DecodeLine(k + "\t" + v) == [KV(k, v)]
    ensures '\t' !in k ==> DecodeLine(k) == []
  {
    assert ([KV(k, v)] + rest)[1..] == rest;
    assert k + (['\t'] + v) == k + "\t" + v;
    if '\t' !in k {
      DecodeOfLine(KV(k, v));
    }
  }

  /** Where the first and the last character of an encoded list come from. */
  lemma EncodeEnds(kvs: seq<KV>)
    requires kvs != []
    ensures var e := Encode(kvs); var first := kvs[0].key; var last := kvs[|kvs| - 1].value;
            && |e| >= 2 && e[|e| - 1] == '\n'
            && e[0] == (if first == [] then '\t' else first[0])
            && e[|e| - 2] == (if last == [] then '\t' else last[|last| - 1])
  {
    var n := |kvs| - 1;
    FlatMapAppend(EncodeRow, kvs[..n], kvs[n]);
    assert kvs == kvs[..n] + [kvs[n]];
    assert Encode(kvs) == EncodeRow(kvs[0]) + Encode(kvs[1..]);
  }

  lemma CodableRoundTrip(kvs: seq<KV>)
    requires Codable(kvs) && kvs != []
    ensures Decode(Encode(kvs)) == kvs
  {
    var e := Encode(kvs);
    EncodeEnds(kvs);
    TrimRemovesOnlyLast(e);
    EncodeIsJoin(kvs);
    forall i | 0 <= i < |kvs| ensures '\n' !in LinesOf(kvs)[i] {
      assert PlainKV(kvs[i]);
    }
    SplitJoin(LinesOf(kvs), '\n');
    DecodeOfLines(kvs);
  }

  lemma {:induction false} DecodedIsPlain(lines: seq<string>)
    requires forall i :: 0 <= i < |lines| ==> '\n' !in lines[i]
    ensures forall i :: 0 <= i < |DecodeLines(lines)| ==> PlainKV(DecodeLines(lines)[i])
  {
    if lines != [] {
      DecodedIsPlain(lines[1..]);
      var first, rest := DecodeLine(lines[0]), DecodeLines(lines[1..]);
      assert DecodeLines(lines) == first + rest;
      assert first != [] ==> PlainKV(first[0]);
    }
  }

  /** Nothing is gained by decoding: what is read is no longer than the lines it came from. */
  lemma {:induction false} DecodedIsShorter(lines: seq<string>)
    ensures |Encode(DecodeLines(lines))| <= PartsLength(lines)
  {
    if lines != [] {
      DecodedIsShorter(lines[1..]);
      var r := DecodeLine(lines[0]);
      FlatMapConcat(EncodeRow, r, DecodeLines(lines[1..]));
      if r != [] {
        FlatMapOne(EncodeRow, r[0]);
        assert r == [r[0]];
      }
    }
  }

  lemma RoundTripIsCodable(kvs: seq<KV>)
    requires kvs != [] && Decode(Encode(kvs)) == kvs
    ensures Codable(kvs)
  {
    var e := Encode(kvs);
    var t := TrimSpace(e);
    SplitHasNoSep(t, '\n');
    DecodedIsPlain(Split(t, '\n'));
    DecodedIsShorter(Split(t, '\n'));
    SplitLength(t, '\n');
    EncodeEnds(kvs);
    TrimRemovesOnlyLast(e);
  }

  /** A list comes back as it was if and only if it is codable. */
  lemma RoundTripIffCodable(kvs: seq<KV>)
    ensures Decode(Encode(kvs)) == kvs <==> Codable(kvs)
  {
    if kvs != [] {
      if Codable(kvs) {
        CodableRoundTrip(kvs);
      }
      if Decode(Encode(kvs)) == kvs {
        RoundTripIsCodable(kvs);
      }
    }
  }

  /** The trim that generateIMDKV adds before sending a file changes nothing. */
  lemma ServingTrimIsHarmless(raw: string)
    ensures Decode(TrimSpace(raw)) == Decode(raw)
  {
    TrimTwice(raw);
  }

  /** An empty value is lost at the end of a file and kept before it. */
  lemma EmptyLastValueIsLost()
    ensures Decode(Encode([KV("k", "")])) == []
    ensures Decode(Encode([KV("k", ""), KV("k", "1")])) == [KV("k", ""), KV("k", "1")]
  {
    var one := [KV("k", "")];
    FlatMapOne(EncodeRow, one[0]);
    assert Encode(one) == "k\t\n";
    assert TrimSpace("k\t\n") == "k" by {
      assert TrimRight("k\t\n") == TrimRight("k\t");
      assert TrimRight("k\t") == TrimRight("k");
    }
    SplitOfPlain("k", '\n');
    CodableRoundTrip([KV("k", ""), KV("k", "1")]);
  }
}
