/**
 The string operations of the program's standard library, on strings in which one character
 stands for one byte.
 */
module Text {

  datatype Option<+T> = None | Some(value: T)

  /** ASCII white space: tab, line feed, vertical tab, form feed, carriage return and blank. */
  predicate IsSpace(c: char) {
    c == ' ' || '\t' <= c <= '\r'
  }

  lemma SpacesAre(c: char)
    ensures IsSpace(c) <==> c as int in {9, 10, 11, 12, 13, 32}
  {
  }

  predicate Blank(s: string) {
    forall i :: 0 <= i < |s| ==> IsSpace(s[i])
  }

  // ---- TrimSpace --------------------------------------------------------------------------

  function TrimLeft(s: string): (r: string)
    ensures |r| <= |s| && r == s[|s| - |r|..]
  {
    if s != [] && IsSpace(s[0]) then TrimLeft(s[1..]) else s
  }

  function TrimRight(s: string): (r: string)
    ensures r <= s
  {
    if s != [] && IsSpace(s[|s| - 1]) then TrimRight(s[..|s| - 1]) else s
  }

  function TrimSpace(s: string): (r: string)
    ensures |r| <= |s|
  {
    TrimRight(TrimLeft(s))
  }

  /** Nothing for TrimSpace to remove. */
  predicate Tight(s: string) {
    s != [] ==> !IsSpace(s[0]) && !IsSpace(s[|s| - 1])
  }

  lemma TrimIsTight(s: string)
    ensures Tight(TrimSpace(s))
  {
    TrimLeftStart(s);
    TrimRightEnd(TrimLeft(s));
  }

  lemma {:induction false} TrimLeftStart(s: string)
    ensures TrimLeft(s) != [] ==> !IsSpace(TrimLeft(s)[0])
  {
    if s != [] && IsSpace(s[0]) {
      TrimLeftStart(s[1..]);
    }
  }

  lemma {:induction false} TrimRightEnd(s: string)
    ensures TrimRight(s) != [] ==> !IsSpace(TrimRight(s)[|TrimRight(s)| - 1])
  {
    if s != [] && IsSpace(s[|s| - 1]) {
      TrimRightEnd(s[..|s| - 1]);
    }
  }

  lemma {:induction false} TrimLeftDropsBlanks(s: string)
    ensures Blank(s[..|s| - |TrimLeft(s)|])
  {
    if s != [] && IsSpace(s[0]) {
      TrimLeftDropsBlanks(s[1..]);
      var n := |s| - |TrimLeft(s)|;
      assert s[..n] == [s[0]] + s[1..][..n - 1];
    }
  }

  lemma {:induction false} TrimRightDropsBlanks(s: string)
    ensures Blank(s[|TrimRight(s)|..])
  {
    if s != [] && IsSpace(s[|s| - 1]) {
      var n := |s| - 1;
      TrimRightDropsBlanks(s[..n]);
      assert s[|TrimRight(s)|..] == s[..n][|TrimRight(s)|..] + [s[n]];
    }
  }

  /** Only white space is removed, from the two ends. */
  lemma TrimDropsBlanks(s: string) returns (left: string, right: string)
    ensures s == left + TrimSpace(s) + right && Blank(left) && Blank(right)
  {
    hide TrimLeft, TrimRight, Blank;
    var t := TrimLeft(s);
    left, right := s[..|s| - |t|], t[|TrimRight(t)|..];
    TrimLeftDropsBlanks(s);
    TrimRightDropsBlanks(t);
    assert t == TrimRight(t) + right;
    assert s == left + t;
  }

  lemma {:induction false} TrimLeftOf(left: string, s: string)
    requires Blank(left) && (s == [] || !IsSpace(s[0]))
    ensures TrimLeft(left + s) == s
  {
    if left == [] {
      assert left + s == s;
    } else {
      assert (left + s)[1..] == left[1..] + s;
      TrimLeftOf(left[1..], s);
    }
  }

  lemma {:induction false} TrimRightOf(s: string, right: string)
    requires Blank(right) && (s == [] || !IsSpace(s[|s| - 1]))
    ensures TrimRight(s + right) == s
  {
    if right == [] {
      assert s + right == s;
    } else {
      var n := |right| - 1;
      assert (s + right)[..|s| + n] == s + right[..n];
      TrimRightOf(s, right[..n]);
    }
  }

  /** White space around a tight text is what TrimSpace removes. */
  lemma TrimOfPadded(left: string, s: string, right: string)
    requires Blank(left) && Blank(right) && s != [] && Tight(s)
    ensures TrimSpace(left + s + right) == s
  {
    assert left + s + right == left + (s + right);
    TrimLeftOf(left, s + right);
    TrimRightOf(s, right);
  }

  /** Trimming again changes nothing. */
  lemma TrimTwice(s: string)
    ensures TrimSpace(TrimSpace(s)) == TrimSpace(s)
  {
    TrimIsTight(s);
  }

  // ---- Split and Join ---------------------------------------------------------------------

  function Split(s: string, sep: char): (r: seq<string>)
    ensures |r| >= 1
  {
    if s == [] then [[]]
    else if s[0] == sep then [[]] + Split(s[1..], sep)
    else
      var r := Split(s[1..], sep);
      [[s[0]] + r[0]] + r[1..]
  }

  function Join(parts: seq<string>, sep: char): string {
    if parts == [] then []
    else if |parts| == 1 then parts[0]
    else parts[0] + [sep] + Join(parts[1..], sep)
  }

  lemma {:induction false} SplitHasNoSep(s: string, sep: char)
    ensures forall i :: 0 <= i < |Split(s, sep)| ==> sep !in Split(s, sep)[i]
  {
    if s != [] {
      SplitHasNoSep(s[1..], sep);
    }
  }

  lemma {:induction false} JoinSplit(s: string, sep: char)
    ensures Join(Split(s, sep), sep) == s
  {
    if s != [] {
      JoinSplit(s[1..], sep);
      var r := Split(s[1..], sep);
      if s[0] == sep {
        assert Split(s, sep)[1..] == r;
      } else {
        assert Split(s, sep)[1..] == r[1..];
        assert s == [s[0]] + s[1..];
      }
    }
  }

  /** The parts and the separators between them make up the whole text. */
  function PartsLength(parts: seq<string>): nat {
    if parts == [] then 0 else |parts[0]| + 1 + PartsLength(parts[1..])
  }

  lemma {:induction false} SplitLength(s: string, sep: char)
    ensures PartsLength(Split(s, sep)) == |s| + 1
  {
    if s != [] {
      SplitLength(s[1..], sep);
      if s[0] == sep {
        assert Split(s, sep)[1..] == Split(s[1..], sep);
      } else {
        assert Split(s, sep)[1..] == Split(s[1..], sep)[1..];
      }
    }
  }

  /** The position of the first `c`, or the length of `s`. */
  function Index(s: string, c: char): (i: nat)
    ensures i <= |s|
    ensures c !in s[..i]
    ensures i < |s| ==> s[i] == c
  {
    if s == [] || s[0] == c then 0 else Index(s[1..], c) + 1
  }

  lemma {:induction false} IndexIsFirst(a: string, c: char, b: string)
    requires c !in a
    ensures Index(a + ([c] + b), c) == |a|
  {
    if a != [] {
      IndexIsFirst(a[1..], c, b);
      assert (a + ([c] + b))[1..] == a[1..] + ([c] + b);
    }
  }

  lemma {:induction false} SplitOfPlain(s: string, sep: char)
    requires sep !in s
    ensures Split(s, sep) == [s]
  {
    if s != [] {
      SplitOfPlain(s[1..], sep);
      assert s == [s[0]] + s[1..];
    }
  }

  function Prepend(c: char, r: seq<string>, sep: char): (r': seq<string>)
    requires |r| >= 1
    ensures |r'| >= 1
  {
    if c == sep then [[]] + r else [[c] + r[0]] + r[1..]
  }

  lemma SplitCons(c: char, s: string, sep: char)
    ensures Split([c] + s, sep) == Prepend(c, Split(s, sep), sep)
  {
    assert ([c] + s)[1..] == s;
  }

  lemma PrependConcat(c: char, r: seq<string>, t: seq<string>, sep: char)
    requires |r| >= 1
    ensures Prepend(c, r + t, sep) == Prepend(c, r, sep) + t
  {
    assert (r + t)[1..] == r[1..] + t;
  }

  /** A separator cuts the text in two independent halves. */
  lemma {:induction false} SplitAtSep(a: string, sep: char, b: string)
    ensures Split(a + ([sep] + b), sep) == Split(a, sep) + Split(b, sep)
  {
    SplitCons(sep, b, sep);
    SplitPrefix(a, sep, [sep] + b, Split(b, sep));
  }

  /** Splitting `a` does not depend on what comes after a separator. */
  lemma {:induction false} SplitPrefix(a: string, sep: char, b: string, rb: seq<string>)
    requires Split(b, sep) == [[]] + rb
    ensures Split(a + b, sep) == Split(a, sep) + rb
  {
    if a == [] {
      assert a + b == b;
    } else {
      var c, a' := a[0], a[1..];
      var ab := a' + b;
      SplitPrefix(a', sep, b, rb);
      SplitCons(c, ab, sep);
      assert [c] + ab == a + b;
      SplitCons(c, a', sep);
      assert [c] + a' == a;
      PrependConcat(c, Split(a', sep), rb, sep);
    }
  }

  lemma {:induction false} SplitJoin(parts: seq<string>, sep: char)
    requires parts != []
    requires forall i :: 0 <= i < |parts| ==> sep !in parts[i]
    ensures Split(Join(parts, sep), sep) == parts
  {
    SplitOfPlain(parts[0], sep);
    if |parts| > 1 {
      SplitJoin(parts[1..], sep);
      SplitAtSep(parts[0], sep, Join(parts[1..], sep));
      assert parts[0] + [sep] + Join(parts[1..], sep) == parts[0] + ([sep] + Join(parts[1..], sep));
      assert parts == [parts[0]] + parts[1..];
    } else {
      assert parts == [parts[0]];
    }
  }

  // ---- decimal numbers --------------------------------------------------------------------

  const MAX_INT64: int := 0x7fff_ffff_ffff_ffff
  const MIN_INT64: int := -0x8000_0000_0000_0000
  const TWO_64: int := 0x1_0000_0000_0000_0000

  predicate IsInt64(n: int) {
    MIN_INT64 <= n <= MAX_INT64
  }

  /** Two's complement wrap-around of Go's `int` and `int64`. */
  function Wrap64(n: int): (r: int)
    ensures IsInt64(r)
    ensures IsInt64(n) ==> r == n
    decreases if IsInt64(n) then 0 else if n < 0 then -n else n
  {
    if n > MAX_INT64 then Wrap64(n - TWO_64) else if n < MIN_INT64 then Wrap64(n + TWO_64) else n
  }

  lemma WrapShift(n: int)
    ensures Wrap64(n - TWO_64) == Wrap64(n)
  {
  }

  /** Wrapping at every addition is the same as wrapping once. */
  lemma {:induction false} WrapAdd(a: int, b: int)
    ensures Wrap64(Wrap64(a) + b) == Wrap64(a + b)
    decreases if IsInt64(a) then 0 else if a < 0 then -a else a
  {
    if a > MAX_INT64 {
      WrapAdd(a - TWO_64, b);
      WrapShift(a + b);
    } else if a < MIN_INT64 {
      WrapAdd(a + TWO_64, b);
      WrapShift(a + TWO_64 + b);
    }
  }

  predicate IsDigit(c: char) {
    '0' <= c <= '9'
  }

  function Digit(d: nat): (c: char)
    requires d < 10
    ensures IsDigit(c)
  {
    '0' + d as char
  }

  function Digits(n: nat): (s: string)
    ensures s != [] && forall i :: 0 <= i < |s| ==> IsDigit(s[i])
  {
    if n < 10 then [Digit(n)] else Digits(n / 10) + [Digit(n % 10)]
  }

  /** strconv.Itoa */
  function Itoa(n: int): (s: string)
    ensures s != [] && forall i :: 0 <= i < |s| ==> IsDigit(s[i]) || s[i] == '-'
  {
    if n < 0 then "-" + Digits(-n) else Digits(n)
  }

  function ParseDigits(s: string): Option<nat> {
    if s == [] || !IsDigit(s[|s| - 1]) then None
    else
      var d: nat := (s[|s| - 1] - '0') as nat;
      if |s| == 1 then Some(d)
      else
        match ParseDigits(s[..|s| - 1])
        case None => None
        case Some(n) => Some(10 * n + d)
  }

  /** strconv.Atoi and strconv.ParseInt(s, 10, 64): an optional sign, digits, and the range of int64. */
  function Atoi(s: string): (r: Option<int>)
    ensures r.Some? ==> IsInt64(r.value)
  {
    var body := if s != [] && (s[0] == '-' || s[0] == '+') then s[1..] else s;
    match ParseDigits(body)
    case None => None
    case Some(n) =>
      var m: int := n;
      var v := if s[0] == '-' then -m else m;
      if IsInt64(v) then Some(v) else None
  }

  lemma {:induction false} ParseOfDigits(n: nat)
    ensures ParseDigits(Digits(n)) == Some(n)
  {
    if n >= 10 {
      ParseOfDigits(n / 10);
      var s := Digits(n);
      assert s[..|s| - 1] == Digits(n / 10);
    }
  }

  /** Reading a printed number gives the number back, unless it does not fit. */
  lemma AtoiOfItoa(n: int)
    ensures Atoi(Itoa(n)) == if IsInt64(n) then Some(n) else None
  {
    if n < 0 {
      ParseOfDigits(-n);
      assert Itoa(n)[1..] == Digits(-n);
    } else {
      ParseOfDigits(n);
    }
  }

  // ---- what a numeral denotes -------------------------------------------------------------

  function Pow10(k: nat): nat {
    if k == 0 then 1 else 10 * Pow10(k - 1)
  }

  /** Each digit times the power of ten of its place. */
  function Place(s: string): int {
    if s == [] then 0 else (s[0] as int - 48) * Pow10(|s| - 1) + Place(s[1..])
  }

  predicate AllDigits(s: string) {
    s != [] && forall i :: 0 <= i < |s| ==> 48 <= s[i] as int <= 57
  }

  /** Digits with an optional sign, read in base ten. */
  predicate Denotes(s: string, v: int) {
    || (AllDigits(s) && v == Place(s))
    || (s != [] && s[0] == '+' && AllDigits(s[1..]) && v == Place(s[1..]))
    || (s != [] && s[0] == '-' && AllDigits(s[1..]) && v == -Place(s[1..]))
  }

  lemma TenTimes(d: int, k: nat)
    ensures d * Pow10(k + 1) == 10 * (d * Pow10(k))
  {
    assert Pow10(k + 1) == 10 * Pow10(k);
  }

  lemma {:induction false} PlaceSnoc(s: string, c: char)
    ensures Place(s + [c]) == 10 * Place(s) + (c as int - 48)
  {
    if s == [] {
      assert s + [c] == [c] && [c][1..] == [];
      assert Place([c]) == (c as int - 48) * Pow10(0) + Place([]);
    } else {
      PlaceSnoc(s[1..], c);
      assert (s + [c])[1..] == s[1..] + [c];
      TenTimes(s[0] as int - 48, |s| - 1);
    }
  }

  lemma {:induction false} ParseIsPlace(s: string)
    ensures ParseDigits(s).Some? <==> AllDigits(s)
    ensures AllDigits(s) ==> ParseDigits(s).value == Place(s)
  {
    if s != [] {
      var n := |s| - 1;
      assert s == s[..n] + [s[n]];
      PlaceSnoc(s[..n], s[n]);
      ParseIsPlace(s[..n]);
      if n == 0 {
        assert s[..n] == [];
      }
    }
  }

  /** strconv.Atoi gives `v` if and only if `v` fits in an int64 and the text denotes it. */
  lemma AtoiIffDenotes(s: string, v: int)
    ensures Atoi(s) == Some(v) <==> IsInt64(v) && Denotes(s, v)
  {
    ParseIsPlace(s);
    if s != [] {
      ParseIsPlace(s[1..]);
    }
    hide Place, ParseDigits;
  }

  lemma DenotesOne(s: string, v: int, w: int)
    requires Denotes(s, v) && Denotes(s, w)
    ensures v == w
  {
  }

  /** What strconv.Itoa prints denotes the number, without a plus or leading zeros. */
  lemma ItoaDenotes(n: int)
    ensures Denotes(Itoa(n), n)
    ensures var s := Itoa(n); var body := if n < 0 then s[1..] else s;
            s[0] != '+' && AllDigits(body) && (|body| > 1 ==> body[0] != '0')
  {
    var m: nat := if n < 0 then -n else n;
    ParseOfDigits(m);
    ParseIsPlace(Digits(m));
    NoLeadingZero(m);
    assert n < 0 ==> Itoa(n)[1..] == Digits(m);
  }

  lemma {:induction false} NoLeadingZero(n: nat)
    ensures n >= 10 ==> Digits(n)[0] != '0'
    ensures n >= 1 ==> Digits(n)[0] != '0'
  {
    if n >= 10 {
      NoLeadingZero(n / 10);
    }
  }

  // ---- Fields -----------------------------------------------------------------------------

  function Word(s: string): (w: string)
    ensures w <= s
    ensures forall i :: 0 <= i < |w| ==> !IsSpace(w[i])
    ensures s != [] && !IsSpace(s[0]) ==> w != []
  {
    if s == [] || IsSpace(s[0]) then [] else [s[0]] + Word(s[1..])
  }

  /** strings.Fields */
  function Fields(s: string): seq<string> {
    if s == [] then []
    else if IsSpace(s[0]) then Fields(s[1..])
    else
      var w := Word(s);
      [w] + Fields(s[|w|..])
  }

  predicate IsWord(s: string) {
    s != [] && forall i :: 0 <= i < |s| ==> !IsSpace(s[i])
  }

  lemma {:induction false} WordThen(w: string, rest: string)
    requires forall i :: 0 <= i < |w| ==> !IsSpace(w[i])
    requires rest == [] || IsSpace(rest[0])
    ensures Word(w + rest) == w
  {
    if w != [] {
      WordThen(w[1..], rest);
      assert (w + rest)[1..] == w[1..] + rest;
    } else {
      assert w + rest == rest;
    }
  }

  /** What strings.Fields does, step by step: blanks are skipped, and a word that ends is a field. */
  lemma FieldsStep(c: char, s: string, w: string)
    ensures Fields([]) == []
    ensures IsSpace(c) ==> Fields([c] + s) == Fields(s)
    ensures IsWord(w) && (s == [] || IsSpace(s[0])) ==> Fields(w + s) == [w] + Fields(s)
  {
    assert ([c] + s)[1..] == s;
    if IsWord(w) && (s == [] || IsSpace(s[0])) {
      WordThen(w, s);
      assert (w + s)[|w|..] == s;
    }
  }

  /** A line that the reducers print is read back as its key and its value. */
  lemma FieldsOfPair(k: string, v: string)
    requires IsWord(k) && IsWord(v)
    ensures Fields(k + " " + v) == [k, v]
  {
    var s := k + " " + v;
    var rest := " " + v;
    assert s == k + rest;
    WordThen(k, rest);
    assert s[|k|..] == rest && rest[1..] == v;
    WordThen(v, []);
    assert v + [] == v && v[|v|..] == [];
    assert Fields(v) == [v] + Fields([]);
  }

  lemma WordIsTight(k: string, v: string)
    requires IsWord(k) && IsWord(v)
    ensures TrimSpace(k + " " + v) == k + " " + v
  {
    var s := k + " " + v;
    assert s[0] == k[0] && s[|s| - 1] == v[|v| - 1];
  }

  // ---- how much TrimSpace removes ---------------------------------------------------------

  /** A text that ends in white space loses that alone only if it is tight otherwise. */
  lemma TrimRemovesOnlyLast(e: string)
    requires |e| >= 2 && IsSpace(e[|e| - 1])
    ensures |TrimSpace(e)| <= |e| - 1
    ensures |TrimSpace(e)| == |e| - 1 <==> !IsSpace(e[0]) && !IsSpace(e[|e| - 2])
    ensures |TrimSpace(e)| == |e| - 1 ==> TrimSpace(e) == e[..|e| - 1]
  {
    var l := TrimLeft(e);
    if l != [] {
      assert l[|l| - 1] == e[|e| - 1];
      assert TrimRight(l) == TrimRight(l[..|l| - 1]);
    }
  }
}
