/** The string library calls behind the query builder: URL escaping, splitting, joining, trimming,
    decimal numbers and quoted SQL identifiers. A char stands for one byte. */
module QueryStrings {
  import opened Wrappers

  ghost predicate Octets(s: string) { forall i :: 0 <= i < |s| ==> s[i] as int < 256 }

  ghost predicate Lacks(s: string, c: char) { forall i :: 0 <= i < |s| ==> s[i] != c }

  // ---------- url.QueryEscape and url.QueryUnescape ----------

  predicate Kept(c: char) {
    'a' <= c <= 'z' || 'A' <= c <= 'Z' || '0' <= c <= '9' || c == '-' || c == '_' || c == '.' || c == '~'
  }

  function Hex(n: nat): (c: char)
    requires n < 16
    ensures HexValue(c) == Some(n) && Kept(c)
  {
    if n < 10 then '0' + n as char else 'A' + (n - 10) as char
  }

  function HexValue(c: char): Option<nat> {
    if '0' <= c <= '9' then Some((c - '0') as nat)
    else if 'A' <= c <= 'F' then Some((c - 'A') as nat + 10)
    else if 'a' <= c <= 'f' then Some((c - 'a') as nat + 10)
    else None
  }

  function EscapeChar(c: char): string {
    if Kept(c) then [c] else if c == ' ' then ['+'] else ['%', Hex(c as nat / 16 % 16), Hex(c as nat % 16)]
  }

  function Escape(s: string): string {
    if s == "" then "" else EscapeChar(s[0]) + Escape(s[1..])
  }

  function Unescape(s: string): Result<string> {
    if s == "" then Ok("")
    else if s[0] == '%' then
      if |s| < 3 || HexValue(s[1]).None? || HexValue(s[2]).None? then Err
      else Prepend((16 * HexValue(s[1]).value + HexValue(s[2]).value) as char, Unescape(s[3..]))
    else Prepend(if s[0] == '+' then ' ' else s[0], Unescape(s[1..]))
  }

  function Prepend(c: char, r: Result<string>): Result<string> {
    if r.Err? then Err else Ok([c] + r.value)
  }

  const DIGITS := "0123456789ABCDEF"

  /** Letters, digits and the marks of section 2.3 of RFC 3986, by their codes. */
  ghost predicate Unreserved(n: int) {
    0x61 <= n <= 0x7A || 0x41 <= n <= 0x5A || 0x30 <= n <= 0x39 || n in {0x2D, 0x5F, 0x2E, 0x7E}
  }

  lemma KeptIsUnreserved(c: char)
    ensures Kept(c) <==> Unreserved(c as int)
  {
  }

  lemma HexDigit(n: nat)
    requires n < 16
    ensures Hex(n) == DIGITS[n]
  {
  }

  lemma HexPair(n: nat)
    requires n < 256
    ensures Hex(n / 16 % 16) == DIGITS[n / 16] && Hex(n % 16) == DIGITS[n % 16]
  {
    hide Hex;
    assert n / 16 < 16;
    HexDigit(n / 16);
    HexDigit(n % 16);
  }

  /** Octets outside the unreserved ones go out as their two hexadecimal digits, the blank as a plus. */
  lemma EscapedAs(c: char)
    requires c as int < 256
    ensures EscapeChar(c) ==
            if Unreserved(c as int) then [c]
            else if c == ' ' then "+" else ['%', DIGITS[c as int / 16], DIGITS[c as int % 16]]
  {
    hide Hex, Kept, Unreserved;
    KeptIsUnreserved(c);
    HexPair(c as int);
  }

  function PrependAll(s: string, r: Result<string>): Result<string> {
    if r.Err? then Err else Ok(s + r.value)
  }

  lemma PrependOne(s: string, r: Result<string>)
    ensures s == "" ==> PrependAll(s, r) == r
    ensures s != "" ==> PrependAll(s, r) == Prepend(s[0], PrependAll(s[1..], r))
  {
    if r.Ok? {
      if s == "" {
        assert s + r.value == r.value;
      } else {
        assert [s[0]] + (s[1..] + r.value) == s + r.value;
      }
    }
  }

  /** Text without % and + stands for itself, whatever follows. */
  lemma {:induction false} UnescapePlain(s: string, t: string)
    requires Lacks(s, '%') && Lacks(s, '+')
    ensures Unescape(s + t) == PrependAll(s, Unescape(t))
  {
    PrependOne(s, Unescape(t));
    if s == "" {
      assert s + t == t;
    } else {
      UnescapePlain(s[1..], t);
      assert (s + t)[1..] == s[1..] + t;
    }
  }

  lemma UnescapeOneChar(c: char, t: string)
    requires c as int < 256
    ensures Unescape(EscapeChar(c) + t) == Prepend(c, Unescape(t))
  {
    var e := EscapeChar(c);
    if Kept(c) || c == ' ' {
      assert (e + t)[1..] == t;
    } else {
      assert (e + t)[3..] == t;
      assert 16 * (c as nat / 16 % 16) + c as nat % 16 == c as nat;
    }
  }

  /** Unescaping undoes escaping, whatever follows. */
  lemma {:induction false} UnescapeEscape(s: string, t: string)
    requires Octets(s)
    ensures Unescape(Escape(s) + t) == PrependAll(s, Unescape(t))
  {
    hide Unescape, EscapeChar, Prepend, PrependAll;
    PrependOne(s, Unescape(t));
    if s == "" {
      assert Escape(s) + t == t;
    } else {
      UnescapeEscape(s[1..], t);
      UnescapeOneChar(s[0], Escape(s[1..]) + t);
      assert Escape(s) + t == EscapeChar(s[0]) + (Escape(s[1..]) + t);
    }
  }

  /** Escaped text carries none of the characters the query syntax gives a meaning to. */
  lemma {:induction false} EscapeIsSafe(s: string, c: char)
    requires !Kept(c) && c != '%' && c != '+'
    ensures Lacks(Escape(s), c)
  {
    if s != "" {
      EscapeIsSafe(s[1..], c);
      assert Lacks(EscapeChar(s[0]), c);
    }
  }

  /** A percent sign without two hexadecimal digits behind it. */
  predicate BadEscape(s: string, i: nat) {
    i < |s| && s[i] == '%' && !(i + 2 < |s| && s[i + 1] in "0123456789abcdefABCDEF" && s[i + 2] in "0123456789abcdefABCDEF")
  }

  lemma HexDigits(c: char)
    ensures HexValue(c).Some? <==> c in "0123456789abcdefABCDEF"
    ensures HexValue(c).Some? ==> c != '%'
  {
  }

  lemma BadEscapeLater(s: string, k: nat, i: nat)
    requires k <= |s|
    ensures BadEscape(s[k..], i) <==> BadEscape(s, i + k)
  {
    hide HexValue;
    if i + k + 2 < |s| {
      assert s[k..][i] == s[i + k] && s[k..][i + 1] == s[i + k + 1] && s[k..][i + 2] == s[i + k + 2];
    }
  }

  /** Unescaping fails exactly at such a sign. */
  lemma {:induction false} UnescapeFailsExactly(s: string)
    ensures Unescape(s).Err? <==> exists i: nat :: BadEscape(s, i)
  {
    hide HexValue, BadEscape;
    if s != "" {
      var whole := s[0] != '%' || (|s| >= 3 && HexValue(s[1]).Some? && HexValue(s[2]).Some?);
      AtStart(s);
      if !whole {
        assert BadEscape(s, 0);
      } else {
        var k := if s[0] == '%' then 3 else 1;
        UnescapeFailsExactly(s[k..]);
        if i: nat :| BadEscape(s[k..], i) {
          BadEscapeLater(s, k, i);
        }
        assert !BadEscape(s, 0) && (k == 3 ==> !BadEscape(s, 1) && !BadEscape(s, 2));
        if i: nat :| BadEscape(s, i) {
          assert i != 0 && (k == 3 ==> i != 1 && i != 2);
          BadEscapeLater(s, k, i - k);
        }
      }
    } else {
      NoEscape();
    }
  }

  lemma NoEscape()
    ensures forall i: nat :: !BadEscape("", i)
  {
  }

  lemma AtStart(s: string)
    requires s != ""
    ensures BadEscape(s, 0) <==> !(s[0] != '%' || (|s| >= 3 && HexValue(s[1]).Some? && HexValue(s[2]).Some?))
    ensures !BadEscape(s, 0) && s[0] == '%' ==> !BadEscape(s, 1) && !BadEscape(s, 2)
  {
    if |s| >= 3 {
      HexDigits(s[1]);
      HexDigits(s[2]);
    }
  }

  // ---------- strings.Index, LastIndex, Split, Join, Trim ----------

  /** Position of the first c, or |s|. */
  function Index(s: string, c: char): (i: nat)
    ensures i <= |s| && Lacks(s[..i], c) && (i < |s| ==> s[i] == c)
  {
    if s == "" || s[0] == c then 0 else 1 + Index(s[1..], c)
  }

  /** Position of the last c, or |s|. */
  function LastIndex(s: string, c: char): (i: nat)
    ensures i <= |s| && (i < |s| ==> s[i] == c) && (forall j :: i < j < |s| ==> s[j] != c) && (i == |s| ==> Lacks(s, c))
  {
    if s == "" then 0
    else if s[|s| - 1] == c then |s| - 1
    else
      var front := s[..|s| - 1];
      assert forall j :: 0 <= j < |front| ==> s[j] == front[j];
      if LastIndex(front, c) < |front| then LastIndex(front, c) else |s|
  }

  lemma IndexAt(a: string, c: char, b: string)
    requires Lacks(a, c)
    ensures Index(a + [c] + b, c) == |a|
  {
    var s, i := a + [c] + b, Index(a + [c] + b, c);
    assert s[|a|] == c && forall k :: 0 <= k < i ==> s[..i][k] == s[k];
  }

  lemma LastIndexIs(s: string, c: char)
    ensures var i := LastIndex(s, c);
            i <= |s| && (i < |s| ==> s[i] == c) && (forall j :: i < j < |s| ==> s[j] != c) && (i == |s| ==> Lacks(s, c))
  {
  }

  lemma TailLacks(a: string, c: char, b: string)
    requires Lacks(b, c)
    ensures var s := a + [c] + b; forall k :: |a| < k < |s| ==> s[k] != c
  {
    var s := a + [c] + b;
    forall k | |a| < k < |s| ensures s[k] != c {
      assert s[k] == b[k - |a| - 1];
    }
  }

  lemma LastIndexAt(a: string, c: char, b: string)
    requires Lacks(b, c)
    ensures LastIndex(a + [c] + b, c) == |a|
  {
    LastIndexIs(a + [c] + b, c);
    TailLacks(a, c, b);
    hide LastIndex;
    assert (a + [c] + b)[|a|] == c;
  }

  function Split(s: string, c: char): (parts: seq<string>)
    ensures |parts| > 0
    decreases |s|
  {
    var i := Index(s, c);
    if i == |s| then [s] else [s[..i]] + Split(s[i + 1..], c)
  }

  function Join(parts: seq<string>, sep: string): string {
    if parts == [] then "" else if |parts| == 1 then parts[0] else parts[0] + sep + Join(parts[1..], sep)
  }

  lemma IndexNone(s: string, c: char)
    requires Lacks(s, c)
    ensures Index(s, c) == |s|
  {
  }

  lemma {:induction false} SplitJoin(parts: seq<string>, c: char)
    requires parts != [] && forall i :: 0 <= i < |parts| ==> Lacks(parts[i], c)
    ensures Split(Join(parts, [c]), c) == parts
  {
    if |parts| == 1 {
      IndexNone(parts[0], c);
    } else {
      var rest := Join(parts[1..], [c]);
      var s := parts[0] + [c] + rest;
      SplitJoin(parts[1..], c);
      IndexAt(parts[0], c, rest);
      assert s[..|parts[0]|] == parts[0] && s[|parts[0]| + 1..] == rest;
    }
  }

  lemma JoinOne(s: string, c: char)
    ensures Join([s], [c]) == s && (Index(s, c) <= |s|) && (Index(s, c) == |s| ==> Lacks(s, c))
    ensures Index(s, c) < |s| ==> s[Index(s, c)] == c && Lacks(s[..Index(s, c)], c)
  {
    assert s[..|s|] == s;
  }

  lemma JoinCons(x: string, rest: seq<string>, sep: string)
    requires rest != []
    ensures Join([x] + rest, sep) == x + sep + Join(rest, sep)
  {
    assert ([x] + rest)[1..] == rest;
  }

  lemma {:induction false} JoinSplit(s: string, c: char)
    ensures Join(Split(s, c), [c]) == s
    ensures forall i :: 0 <= i < |Split(s, c)| ==> Lacks(Split(s, c)[i], c)
    decreases |s|
  {
    hide Join, Index;
    var i := Index(s, c);
    JoinOne(s, c);
    if i < |s| {
      JoinSplit(s[i + 1..], c);
      JoinCons(s[..i], Split(s[i + 1..], c), [c]);
      assert s == s[..i] + [c] + s[i + 1..];
    }
  }

  predicate Paren(c: char) { c == '(' || c == ')' }

  function TrimLeft(s: string): string {
    if s != "" && Paren(s[0]) then TrimLeft(s[1..]) else s
  }

  function TrimRight(s: string): string {
    if s != "" && Paren(s[|s| - 1]) then TrimRight(s[..|s| - 1]) else s
  }

  /** strings.Trim(s, "()"). */
  function TrimParens(s: string): string { TrimRight(TrimLeft(s)) }

  ghost predicate NoOuterParens(s: string) { s != "" ==> !Paren(s[0]) && !Paren(s[|s| - 1]) }

  lemma {:induction false} TrimRightBare(s: string)
    ensures s != "" && !Paren(s[0]) ==> TrimRight(s) != "" && TrimRight(s)[0] == s[0]
    ensures TrimRight(s) != "" ==> !Paren(TrimRight(s)[|TrimRight(s)| - 1])
  {
    if s != "" && Paren(s[|s| - 1]) {
      TrimRightBare(s[..|s| - 1]);
    }
  }

  lemma {:induction false} TrimLeftBare(s: string)
    ensures TrimLeft(s) != "" ==> !Paren(TrimLeft(s)[0])
  {
    if s != "" && Paren(s[0]) {
      TrimLeftBare(s[1..]);
    }
  }

  /** Trimming the parentheses put around a text gives it back exactly when it brings none of its own. */
  lemma TrimWrapped(s: string)
    ensures TrimParens("(" + s + ")") == s <==> NoOuterParens(s)
  {
    var w := "(" + s + ")";
    TrimLeftBare(w);
    TrimRightBare(TrimLeft(w));
    assert w[1..] == s + ")";
    if NoOuterParens(s) && s != "" {
      assert TrimRight(s) == s && TrimLeft(w) == s + ")";
      assert TrimRight(s + ")") == TrimRight(s) by {
        assert (s + ")")[..|s|] == s;
      }
    } else if s == "" {
      assert w[1..] == ")" && ")"[1..] == "" && TrimLeft(w) == "";
    }
  }

  /** The ASCII blanks of strings.TrimSpace. */
  predicate Blank(c: char) { c == ' ' || c == '\t' || c == '\n' || c == '\r' || c as int == 11 || c as int == 12 }

  function SkipBlanks(s: string): string { if s != "" && Blank(s[0]) then SkipBlanks(s[1..]) else s }

  function DropBlanks(s: string): string {
    if s != "" && Blank(s[|s| - 1]) then DropBlanks(s[..|s| - 1]) else s
  }

  function TrimSpace(s: string): string { DropBlanks(SkipBlanks(s)) }

  ghost predicate AllBlank(s: string) { forall i :: 0 <= i < |s| ==> s[i] as int in {9, 10, 11, 12, 13, 32} }

  lemma {:induction false} SkipBlanksIs(s: string) returns (i: nat)
    ensures i <= |s| && SkipBlanks(s) == s[i..] && AllBlank(s[..i])
    ensures i < |s| ==> s[i] as int !in {9, 10, 11, 12, 13, 32}
  {
    i := 0;
    if s != "" && Blank(s[0]) {
      var j := SkipBlanksIs(s[1..]);
      i := j + 1;
      assert s[..i] == [s[0]] + s[1..][..j];
    }
  }

  lemma {:induction false} DropBlanksIs(s: string) returns (i: nat)
    ensures i <= |s| && DropBlanks(s) == s[..i] && AllBlank(s[i..])
    ensures i > 0 ==> s[i - 1] as int !in {9, 10, 11, 12, 13, 32}
  {
    i := |s|;
    if s != "" && Blank(s[|s| - 1]) {
      i := DropBlanksIs(s[..|s| - 1]);
      assert s[i..] == s[..|s| - 1][i..] + [s[|s| - 1]];
      assert s[..|s| - 1][..i] == s[..i];
    } else {
      assert s[..|s|] == s;
    }
  }

  /** Trimming cuts the blanks at both ends and nothing else. */
  lemma TrimSpaceIs(s: string) returns (i: nat, j: nat)
    ensures i <= j <= |s| && TrimSpace(s) == s[i..j] && AllBlank(s[..i]) && AllBlank(s[j..])
    ensures i < j ==> s[i] as int !in {9, 10, 11, 12, 13, 32} && s[j - 1] as int !in {9, 10, 11, 12, 13, 32}
  {
    i := SkipBlanksIs(s);
    var k := DropBlanksIs(s[i..]);
    j := i + k;
    assert s[i..][..k] == s[i..j] && s[i..][k..] == s[j..];
  }

  // ---------- Decimal numbers ----------

  predicate Digit(c: char) { '0' <= c <= '9' }

  function Decimal(n: nat): (s: string)
    ensures |s| > 0 && forall i :: 0 <= i < |s| ==> Digit(s[i])
  {
    (if n < 10 then "" else Decimal(n / 10)) + ['0' + (n % 10) as char]
  }

  function Signed(n: int): string { if n < 0 then "-" + Decimal(-n) else Decimal(n) }

  lemma SignedValue(n: int)
    ensures if n >= 0 then Value(Signed(n)) == n else Signed(n)[0] == '-' && Value(Signed(n)[1..]) == -n
  {
    hide Decimal;
    ValueOfDecimal(if n < 0 then -n else n);
  }

  function Value(s: string): nat {
    if s == "" then 0
    else 10 * Value(s[..|s| - 1]) + (if Digit(s[|s| - 1]) then (s[|s| - 1] - '0') as nat else 0)
  }

  lemma {:induction false} ValueOfDecimal(n: nat)
    ensures Value(Decimal(n)) == n
  {
    var s := Decimal(n);
    if n < 10 {
      assert s == ['0' + n as char] && s[..0] == "";
    } else {
      ValueOfDecimal(n / 10);
      assert s[..|s| - 1] == Decimal(n / 10);
    }
  }

  /** How many digits s starts with. */
  function Digits(s: string): (n: nat)
    ensures n <= |s|
  {
    if s != "" && Digit(s[0]) then 1 + Digits(s[1..]) else 0
  }

  lemma {:induction false} DigitsOf(a: string, b: string)
    requires forall i :: 0 <= i < |a| ==> Digit(a[i])
    requires b != "" ==> !Digit(b[0])
    ensures Digits(a + b) == |a|
  {
    if a == "" {
      assert a + b == b;
    } else {
      DigitsOf(a[1..], b);
      assert (a + b)[1..] == a[1..] + b;
    }
  }

  // ---------- Quoted identifiers ----------

  /** strings.ReplaceAll(name, `"`, `""`). */
  function Doubled(name: string): string {
    if name == "" then "" else DoubledChar(name[0]) + Doubled(name[1..])
  }

  function QuoteIdent(name: string): string { ['"'] + Doubled(name) + ['"'] }

  datatype Read<T> = Read(value: T, rest: string)

  /** How SQL reads a quoted identifier: after the opening quote, up to the first quote that is not doubled. */
  function ReadBody(s: string): (r: Option<Read<string>>)
    ensures r.Some? ==> |r.value.rest| < |s|
  {
    if s == "" then None
    else if s[0] == '"' then
      if |s| > 1 && s[1] == '"' then More('"', ReadBody(s[2..])) else Some(Read("", s[1..]))
    else More(s[0], ReadBody(s[1..]))
  }

  function More(c: char, r: Option<Read<string>>): Option<Read<string>> {
    if r.None? then None else Some(Read([c] + r.value.value, r.value.rest))
  }

  function ReadIdent(s: string): Option<Read<string>> {
    if s == "" || s[0] != '"' then None else ReadBody(s[1..])
  }

  function DoubledChar(c: char): string { if c == '"' then ['"', '"'] else [c] }

  lemma ReadChar(c: char, t: string)
    ensures ReadBody(DoubledChar(c) + t) == More(c, ReadBody(t))
  {
    var s := DoubledChar(c) + t;
    if c == '"' {
      assert s[2..] == t;
    } else {
      assert s[1..] == t;
    }
  }

  lemma {:induction false} ReadDoubled(name: string, tail: string, rest: string)
    requires ReadBody(tail) == Some(Read("", rest))
    ensures ReadBody(Doubled(name) + tail) == Some(Read(name, rest))
  {
    hide ReadBody, DoubledChar;
    if name == "" {
      assert Doubled(name) + tail == tail;
    } else {
      ReadDoubled(name[1..], tail, rest);
      ReadChar(name[0], Doubled(name[1..]) + tail);
      assert Doubled(name) + tail == DoubledChar(name[0]) + (Doubled(name[1..]) + tail);
      assert [name[0]] + name[1..] == name;
    }
  }

  /** Whatever the name contains, SQL reads the quoted form back as that name and nothing more. */
  lemma IdentRoundTrip(name: string, rest: string)
    requires rest != "" ==> rest[0] != '"'
    ensures ReadIdent(QuoteIdent(name) + rest) == Some(Read(name, rest))
  {
    var s := QuoteIdent(name) + rest;
    var tail := ['"'] + rest;
    assert tail[1..] == rest;
    assert s[1..] == Doubled(name) + tail;
    ReadDoubled(name, tail, rest);
  }
}
