/** String helpers shared by the parsers and printers: splitting, joining, decimals, trimming. */
module Text {

  datatype Option<+T> = None | Some(value: T)

  lemma ConsAppend<T>(a: seq<T>, b: seq<T>)
    requires a != []
    ensures a + b == [a[0]] + (a[1..] + b)
  {
  }

  lemma EmptyAppend<T>(b: seq<T>)
    ensures [] + b == b && b + [] == b
  {
  }

  lemma AppendAppend<T>(a: seq<T>, b: seq<T>, c: seq<T>)
    ensures a + b + c == a + (b + c)
  {
  }

  /** `parts.join(sep)`. */
  function Join(parts: seq<string>, sep: char): string
  {
    if parts == [] then ""
    else if |parts| == 1 then parts[0]
    else parts[0] + [sep] + Join(parts[1..], sep)
  }

  /** `s.split(sep)`: never empty, no part holds the separator, and joining gives the text back. */
  function Split(s: string, sep: char): (parts: seq<string>)
    ensures parts != []
    ensures forall p :: p in parts ==> sep !in p
    ensures Join(parts, sep) == s
  {
    if s == [] then [""]
    else
      var rest := Split(s[1..], sep);
      if s[0] == sep then
        [""] + rest
      else
        assert Join([[s[0]] + rest[0]] + rest[1..], sep) == [s[0]] + Join(rest, sep) by {
          assert ([[s[0]] + rest[0]] + rest[1..])[1..] == rest[1..];
        }
        [[s[0]] + rest[0]] + rest[1..]
  }

  lemma {:induction false} SplitWithoutSeparator(p: string, sep: char)
    requires sep !in p
    ensures Split(p, sep) == [p]
  {
    if p != [] {
      SplitWithoutSeparator(p[1..], sep);
    }
  }

  lemma {:induction false} SplitAtSeparator(p: string, rest: string, sep: char)
    requires sep !in p
    ensures Split(p + [sep] + rest, sep) == [p] + Split(rest, sep)
  {
    var s := p + [sep] + rest;
    if p == [] {
      assert s[1..] == rest;
    } else {
      assert s[1..] == p[1..] + [sep] + rest;
      SplitAtSeparator(p[1..], rest, sep);
      assert Split(s[1..], sep) == [p[1..]] + Split(rest, sep);
      assert [s[0]] + p[1..] == p;
    }
  }

  /** Splitting undoes joining, for parts that do not hold the separator. */
  lemma {:induction false} SplitJoin(parts: seq<string>, sep: char)
    requires parts != []
    requires forall p :: p in parts ==> sep !in p
    ensures Split(Join(parts, sep), sep) == parts
  {
    if |parts| == 1 {
      SplitWithoutSeparator(parts[0], sep);
    } else {
      SplitAtSeparator(parts[0], Join(parts[1..], sep), sep);
      SplitJoin(parts[1..], sep);
    }
  }

  /** The characters that `String.prototype.trim` removes. */
  predicate Whitespace(c: char)
  {
    c in "\t\n\r \U{b}\U{c}\U{a0}\U{1680}\U{2028}\U{2029}\U{202f}\U{205f}\U{3000}\U{feff}" ||
    '\U{2000}' <= c <= '\U{200a}'
  }

  predicate Blank(s: string)
  {
    forall c :: c in s ==> Whitespace(c)
  }

  function TrimStart(s: string): (r: string)
    ensures r != [] ==> !Whitespace(r[0])
    ensures r <= s || |r| < |s|
    ensures s != [] && !Whitespace(s[0]) ==> r == s
    ensures r == [] <==> Blank(s)
  {
    if s != [] && Whitespace(s[0]) then TrimStart(s[1..]) else s
  }

  function TrimEnd(s: string): (r: string)
    ensures r <= s
    ensures r != [] ==> !Whitespace(r[|r| - 1])
    ensures s != [] && !Whitespace(s[|s| - 1]) ==> r == s
    ensures r == [] <==> Blank(s)
  {
    if s != [] && Whitespace(s[|s| - 1]) then
      var init := s[..|s| - 1];
      assert forall c :: c in s <==> c in init || c == s[|s| - 1] by {
        assert s == init + [s[|s| - 1]];
      }
      TrimEnd(init)
    else s
  }

  function Trim(s: string): string
  {
    TrimEnd(TrimStart(s))
  }

  /** A trimmed text starts and ends with what is not white space. */
  lemma TrimmedEnds(s: string)
    ensures Trim(s) != "" ==> !Whitespace(Trim(s)[0]) && !Whitespace(Trim(s)[|Trim(s)| - 1])
  {
    var start := TrimStart(s);
    assert TrimEnd(start) <= start;
  }

  /** Trimming at the start leaves the end of the text as it is. */
  lemma {:induction false} StartIsSuffix(s: string, j: nat)
    requires j < |TrimStart(s)|
    ensures |TrimStart(s)| <= |s| && TrimStart(s)[j] == s[|s| - |TrimStart(s)| + j]
  {
    if s != [] && Whitespace(s[0]) {
      StartIsSuffix(s[1..], j);
    }
  }

  /** Only white space is removed at the start. */
  lemma {:induction false} StartIsBlank(s: string, j: nat)
    requires j + |TrimStart(s)| < |s|
    ensures Whitespace(s[j])
  {
    if j > 0 && Whitespace(s[0]) {
      StartIsBlank(s[1..], j - 1);
      assert s[1..][j - 1] == s[j];
    }
  }

  /** Only white space is removed at the end. */
  lemma {:induction false} EndIsBlank(s: string, j: nat)
    requires |TrimEnd(s)| <= j < |s|
    ensures Whitespace(s[j])
  {
    if j < |s| - 1 && Whitespace(s[|s| - 1]) {
      EndIsBlank(s[..|s| - 1], j);
    }
  }

  /** Trimming again changes nothing. */
  lemma TrimTwice(s: string)
    ensures Trim(Trim(s)) == Trim(s)
  {
    TrimmedEnds(s);
    if Trim(s) != "" {
      TrimIsKept(Trim(s));
    }
  }

  lemma TrimIsKept(s: string)
    requires s != "" && !Whitespace(s[0]) && !Whitespace(s[|s| - 1])
    ensures Trim(s) == s
  {
    assert TrimStart(s) == s;
  }

  /** The decimal numeral of a natural number. */
  function Decimal(n: nat): (s: string)
    ensures s != []
    ensures forall c :: c in s ==> '0' <= c <= '9'
  {
    var digit := ('0' as int + n % 10) as char;
    if n < 10 then [digit] else Decimal(n / 10) + [digit]
  }

  function DecimalValue(s: string): int
  {
    if s == [] then 0 else 10 * DecimalValue(s[..|s| - 1]) + (s[|s| - 1] as int - '0' as int)
  }

  lemma {:induction false} DecimalRoundTrip(n: nat)
    ensures DecimalValue(Decimal(n)) == n
  {
    if n >= 10 {
      DecimalRoundTrip(n / 10);
      var s := Decimal(n);
      assert s[..|s| - 1] == Decimal(n / 10);
    } else {
      assert Decimal(n)[..0] == "";
    }
  }

  /** The numeral of an integer. */
  function Numeral(n: int): (s: string)
    ensures s != [] && forall c :: c in s ==> c == '-' || '0' <= c <= '9'
  {
    if n < 0 then "-" + Decimal(-n) else Decimal(n)
  }

  lemma NumeralIsInjective(m: int, n: int)
    requires Numeral(m) == Numeral(n)
    ensures m == n
  {
    DecimalRoundTrip(if m < 0 then -m else m);
    DecimalRoundTrip(if n < 0 then -n else n);
    assert m < 0 ==> Numeral(m)[0] == '-' && Numeral(m)[1..] == Decimal(-m);
    assert n < 0 ==> Numeral(n)[0] == '-' && Numeral(n)[1..] == Decimal(-n);
    assert m >= 0 ==> Decimal(m)[0] in Decimal(m);
    assert n >= 0 ==> Decimal(n)[0] in Decimal(n);
  }
}
