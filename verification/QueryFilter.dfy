/** The chainable filter builder and the parser of the query strings it builds. */
module QueryFilter {
  import opened Wrappers
  import opened QueryStrings

  datatype Op = Eq | Neq | Gt | Gte | Lt | Lte

  function OpName(op: Op): string {
    match op
    case Eq => "eq"
    case Neq => "neq"
    case Gt => "gt"
    case Gte => "gte"
    case Lt => "lt"
    case Lte => "lte"
  }

  /** One call on the builder. */
  datatype Call =
    | Select(columns: string)
    | Compare(op: Op, column: string, value: string)
    | In(column: string, values: seq<string>)
    | Order(column: string, direction: string)
    | Limit(n: int)
    | Offset(n: int)

  // ---------- Building ----------

  function EscapeAll(values: seq<string>): seq<string> {
    if values == [] then [] else [Escape(values[0])] + EscapeAll(values[1..])
  }

  function Key(c: Call): string {
    match c
    case Select(_) => "select"
    case Compare(_, column, _) => column
    case In(column, _) => column
    case Order(_, _) => "order"
    case Limit(_) => "limit"
    case Offset(_) => "offset"
  }

  function RawValue(c: Call): string {
    match c
    case Select(columns) => Escape(columns)
    case Compare(op, _, value) => OpName(op) + "." + Escape(value)
    case In(_, values) => "in.(" + Join(EscapeAll(values), ",") + ")"
    case Order(column, direction) => column + "." + direction
    case Limit(n) => Signed(n)
    case Offset(n) => Signed(n)
  }

  function Param(c: Call): string { Key(c) + "=" + RawValue(c) }

  function Params(calls: seq<Call>): seq<string> { seq(|calls|, i requires 0 <= i < |calls| => Param(calls[i])) }

  function Built(calls: seq<Call>): string { Join(Params(calls), "&") }

  /** The parameters as the query string spells them. */
  function Spelled(c: Call): string {
    match c
    case Select(columns) => "select=" + Escape(columns)
    case Compare(Eq, column, value) => column + "=eq." + Escape(value)
    case Compare(Neq, column, value) => column + "=neq." + Escape(value)
    case Compare(Gt, column, value) => column + "=gt." + Escape(value)
    case Compare(Gte, column, value) => column + "=gte." + Escape(value)
    case Compare(Lt, column, value) => column + "=lt." + Escape(value)
    case Compare(Lte, column, value) => column + "=lte." + Escape(value)
    case In(column, values) => column + "=in.(" + Join(EscapeAll(values), ",") + ")"
    case Order(column, direction) => "order=" + column + "." + direction
    case Limit(n) => "limit=" + Signed(n)
    case Offset(n) => "offset=" + Signed(n)
  }

  lemma ParamIsSpelled(c: Call)
    ensures Param(c) == Spelled(c)
  {
    hide Escape, Signed, Join, EscapeAll;
    match c {
      case Compare(op, column, value) =>
        hide Spelled;
        CompareIsSpelled(op, column, value, Escape(value));
      case In(column, values) => InParam(column, Join(EscapeAll(values), ","));
      case Order(column, direction) => assert "order=" + (column + "." + direction) == "order=" + column + "." + direction;
      case _ =>
    }
  }

  lemma CompareIsSpelled(op: Op, column: string, value: string, escaped: string)
    requires escaped == Escape(value)
    ensures column + "=" + (OpName(op) + "." + escaped) == Spelled(Compare(op, column, value))
  {
    hide Escape;
    assert column + "=" + (OpName(op) + "." + escaped) == column + ("=" + OpName(op) + ".") + escaped;
    match op
    case Eq => assert "=" + OpName(op) + "." == "=eq.";
    case Neq => assert "=" + OpName(op) + "." == "=neq.";
    case Gt => assert "=" + OpName(op) + "." == "=gt.";
    case Gte => assert "=" + OpName(op) + "." == "=gte.";
    case Lt => assert "=" + OpName(op) + "." == "=lt.";
    case Lte => assert "=" + OpName(op) + "." == "=lte.";
  }

  lemma InParam(column: string, list: string)
    ensures column + "=in.(" + list + ")" == column + "=" + ("in.(" + list + ")")
  {
  }

  class Filter {
    var params: seq<string>

    constructor ()
      ensures params == []
    {
      params := [];
    }

    method Select(columns: string)
      modifies this
      ensures params == old(params) + [Param(Call.Select(columns))]
    {
      params := params + ["select=" + Escape(columns)];
      assert "select=" + Escape(columns) == Param(Call.Select(columns));
    }

    method Eq(column: string, value: string)
      modifies this
      ensures params == old(params) + [Param(Compare(Op.Eq, column, value))]
    {
      params := params + [column + "=eq." + Escape(value)];
      assert column + "=eq." + Escape(value) == Param(Compare(Op.Eq, column, value));
    }

    method Neq(column: string, value: string)
      modifies this
      ensures params == old(params) + [Param(Compare(Op.Neq, column, value))]
    {
      params := params + [column + "=neq." + Escape(value)];
      assert column + "=neq." + Escape(value) == Param(Compare(Op.Neq, column, value));
    }

    method Gt(column: string, value: string)
      modifies this
      ensures params == old(params) + [Param(Compare(Op.Gt, column, value))]
    {
      params := params + [column + "=gt." + Escape(value)];
      assert column + "=gt." + Escape(value) == Param(Compare(Op.Gt, column, value));
    }

    method Gte(column: string, value: string)
      modifies this
      ensures params == old(params) + [Param(Compare(Op.Gte, column, value))]
    {
      params := params + [column + "=gte." + Escape(value)];
      assert column + "=gte." + Escape(value) == Param(Compare(Op.Gte, column, value));
    }

    method Lt(column: string, value: string)
      modifies this
      ensures params == old(params) + [Param(Compare(Op.Lt, column, value))]
    {
      params := params + [column + "=lt." + Escape(value)];
      assert column + "=lt." + Escape(value) == Param(Compare(Op.Lt, column, value));
    }

    method Lte(column: string, value: string)
      modifies this
      ensures params == old(params) + [Param(Compare(Op.Lte, column, value))]
    {
      params := params + [column + "=lte." + Escape(value)];
      assert column + "=lte." + Escape(value) == Param(Compare(Op.Lte, column, value));
    }

    method In(column: string, values: seq<string>)
      modifies this
      ensures params == old(params) + [Param(Call.In(column, values))]
    {
      var escaped: seq<string> := [];
      for i := 0 to |values|
        invariant escaped + EscapeAll(values[i..]) == EscapeAll(values) && params == old(params)
      {
        assert values[i..][1..] == values[i + 1..];
        escaped := escaped + [Escape(values[i])];
      }
      assert escaped == EscapeAll(values);
      hide Join;
      InParam(column, Join(escaped, ","));
      params := params + [column + "=in.(" + Join(escaped, ",") + ")"];
    }

    method Order(column: string, direction: string)
      modifies this
      ensures params == old(params) + [Param(Call.Order(column, direction))]
    {
      params := params + ["order=" + column + "." + direction];
      assert "order=" + column + "." + direction == Param(Call.Order(column, direction));
    }

    method Limit(n: int)
      modifies this
      ensures params == old(params) + [Param(Call.Limit(n))]
    {
      params := params + ["limit=" + Signed(n)];
      assert "limit=" + Signed(n) == Param(Call.Limit(n));
    }

    method Offset(n: int)
      modifies this
      ensures params == old(params) + [Param(Call.Offset(n))]
    {
      params := params + ["offset=" + Signed(n)];
      assert "offset=" + Signed(n) == Param(Call.Offset(n));
    }

    method Build() returns (query: string)
      ensures forall calls :: params == Params(calls) ==> query == Built(calls)
    {
      query := Join(params, "&");
    }
  }

  // ---------- Parsing ----------

  datatype Condition = Condition(column: string, operator: string, value: string)

  datatype Parsed = Parsed(selectCols: string, conditions: seq<Condition>, orderCol: string, orderDir: string,
                           limit: string, offset: string)

  const NOTHING := Parsed("*", [], "", "", "", "")

  /** The parser ignores unescaping errors and goes on with the empty string. */
  function Lenient(r: Result<string>): string { if r.Err? then "" else r.value }

  function UpperChar(c: char): char { if 'a' <= c <= 'z' then 'A' + (c - 'a') else c }

  // The UTF-8 octets of the two letters outside ASCII whose upper case is an ASCII letter.
  const LONG_S := "\U{C5}\U{BF}"
  const DOTLESS_I := "\U{C4}\U{B1}"

  /** Upper case as far as ASCII letters come out. Other letters outside ASCII stay outside ASCII, so they
      are left alone: the result is only ever compared with DESC. */
  function Upper(s: string): string {
    if s == "" then ""
    else if LONG_S <= s then "S" + Upper(s[2..])
    else if DOTLESS_I <= s then "I" + Upper(s[2..])
    else [UpperChar(s[0])] + Upper(s[1..])
  }

  /** s or c in either case, the first one possibly long. */
  predicate SpellsSc(s: string) {
    2 <= |s| && s[|s| - 1] in "cC" && (s[..|s| - 1] == "s" || s[..|s| - 1] == "S" || s[..|s| - 1] == LONG_S)
  }

  predicate SpellsDesc(s: string) { 2 <= |s| && s[0] in "dD" && s[1] in "eE" && SpellsSc(s[2..]) }

  lemma UpperHead(s: string, c: char, rest: string)
    requires 'A' <= c <= 'Z' && c != 'S' && c != 'I'
    ensures Upper(s) == [c] + rest <==> s != "" && UpperChar(s[0]) == c && Upper(s[1..]) == rest
  {
    if s != "" && UpperChar(s[0]) == c {
      assert Upper(s) == [c] + Upper(s[1..]);
      assert Upper(s)[1..] == Upper(s[1..]) && ([c] + rest)[1..] == rest;
    } else if s != "" {
      assert Upper(s)[0] != c;
    }
  }

  lemma UpperS(s: string)
    ensures Upper(s) == "SC" <==> SpellsSc(s)
  {
    if s == "" {
    } else if LONG_S <= s {
      UpperHead(s[2..], 'C', "");
      assert Upper(s) == "S" + Upper(s[2..]) && Upper(s)[1..] == Upper(s[2..]) && "SC"[1..] == "C";
      assert s[0] == LONG_S[0] && s[1] == LONG_S[1];
      assert Upper(s) == "SC" <==> |s| == 3 && s[2] in "cC";
      if |s| == 3 {
        assert s[..2] == LONG_S;
      }
    } else {
      UpperHead(s[1..], 'C', "");
      if !(DOTLESS_I <= s) {
        assert Upper(s)[1..] == Upper(s[1..]) && "SC"[1..] == "C" && Upper(s)[0] == UpperChar(s[0]);
        assert Upper(s) == "SC" <==> UpperChar(s[0]) == 'S' && |s| == 2 && s[1] in "cC";
      } else {
        assert Upper(s)[0] == 'I' && s[0] == DOTLESS_I[0];
      }
      if |s| >= 2 {
        assert s[..|s| - 1][0] == s[0];
        assert s[..|s| - 1] == LONG_S ==> LONG_S <= s;
      }
    }
  }

  lemma DescendingSpellings(s: string)
    ensures Upper(s) == "DESC" <==> SpellsDesc(s)
  {
    assert "DESC" == ['D'] + "ESC" && "ESC" == ['E'] + "SC";
    UpperHead(s, 'D', "ESC");
    if s != "" {
      UpperHead(s[1..], 'E', "SC");
      if |s| > 1 {
        assert s[1..][1..] == s[2..];
        UpperS(s[2..]);
      }
    }
  }

  function Assign(p: Parsed, key: string, value: string): Parsed {
    if key == "select" then p.(selectCols := value)
    else if key == "order" then
      var dot := LastIndex(value, '.');
      if 0 < dot < |value| then p.(orderCol := value[..dot], orderDir := Upper(value[dot + 1..])) else p
    else if key == "limit" then p.(limit := value)
    else if key == "offset" then p.(offset := value)
    else
      var dot := Index(value, '.');
      if 0 < dot < |value| then p.(conditions := p.conditions + [Condition(key, value[..dot], value[dot + 1..])]) else p
  }

  function ReadPart(p: Parsed, part: string): Parsed {
    var eq := Index(part, '=');
    if eq == |part| then p else Assign(p, Lenient(Unescape(part[..eq])), Lenient(Unescape(part[eq + 1..])))
  }

  function ReadParts(p: Parsed, parts: seq<string>): Parsed {
    if parts == [] then p else ReadPart(ReadParts(p, parts[..|parts| - 1]), parts[|parts| - 1])
  }

  function Parse(query: string): Parsed {
    if query == "" then NOTHING else ReadParts(NOTHING, Split(query, '&'))
  }

  method ParseQuery(query: string) returns (p: Parsed)
    ensures p == Parse(query)
  {
    hide Unescape, Split;
    p := NOTHING;
    if query == "" {
      return;
    }
    var parts := Split(query, '&');
    for i := 0 to |parts|
      invariant p == ReadParts(NOTHING, parts[..i])
    {
      assert parts[..i + 1][..i] == parts[..i];
      var part := parts[i];
      var eq := Index(part, '=');
      if eq == |part| {
        continue;
      }
      var key, value := Lenient(Unescape(part[..eq])), Lenient(Unescape(part[eq + 1..]));
      match key {
        case "select" => p := p.(selectCols := value);
        case "order" =>
          var dot := LastIndex(value, '.');
          if 0 < dot < |value| {
            p := p.(orderCol := value[..dot], orderDir := Upper(value[dot + 1..]));
          }
        case "limit" => p := p.(limit := value);
        case "offset" => p := p.(offset := value);
        case _ =>
          var dot := Index(value, '.');
          if 0 < dot < |value| {
            p := p.(conditions := p.conditions + [Condition(key, value[..dot], value[dot + 1..])]);
          }
      }
    }
    assert parts[..|parts|] == parts;
  }

  // ---------- What parsing makes of what was built ----------

  /** Names are not escaped by the builder, so they must not use the query syntax. */
  ghost predicate Unspecial(s: string) { Lacks(s, '%') && Lacks(s, '+') && Lacks(s, '&') }

  ghost predicate PlainColumn(s: string) {
    Unspecial(s) && Lacks(s, '=') && s != "select" && s != "order" && s != "limit" && s != "offset"
  }

  ghost predicate WellFormed(c: Call) {
    match c
    case Select(columns) => Octets(columns)
    case Compare(_, column, value) => PlainColumn(column) && Octets(value)
    case In(column, values) => PlainColumn(column) && forall i :: 0 <= i < |values| ==> Octets(values[i])
    case Order(column, direction) => Unspecial(column) && Unspecial(direction) && Lacks(direction, '.')
    case Limit(_) => true
    case Offset(_) => true
  }

  /** What the call asks for, added to what was asked for before. */
  function Apply(p: Parsed, c: Call): Parsed {
    match c
    case Select(columns) => p.(selectCols := columns)
    case Compare(op, column, value) => p.(conditions := p.conditions + [Condition(column, OpName(op), value)])
    case In(column, values) => p.(conditions := p.conditions + [Condition(column, "in", "(" + Join(values, ",") + ")")])
    case Order(column, direction) => if column == "" then p else p.(orderCol := column, orderDir := Upper(direction))
    case Limit(n) => p.(limit := Signed(n))
    case Offset(n) => p.(offset := Signed(n))
  }

  function ApplyAll(p: Parsed, calls: seq<Call>): Parsed {
    if calls == [] then p else Apply(ApplyAll(p, calls[..|calls| - 1]), calls[|calls| - 1])
  }

  /** The value of the parameter once unescaped. */
  function Cooked(c: Call): string {
    match c
    case Select(columns) => columns
    case Compare(op, _, value) => OpName(op) + "." + value
    case In(_, values) => "in.(" + Join(values, ",") + ")"
    case _ => RawValue(c)
  }

  lemma {:induction false} UnescapeList(values: seq<string>, t: string)
    requires forall i :: 0 <= i < |values| ==> Octets(values[i])
    ensures Unescape(Join(EscapeAll(values), ",") + t) == PrependAll(Join(values, ","), Unescape(t))
  {
    hide Unescape, Escape;
    if |values| <= 1 {
      PrependOne("", Unescape(t));
      assert "" + t == t;
      if values != [] {
        assert EscapeAll(values) == [Escape(values[0])];
        UnescapeEscape(values[0], t);
      }
    } else {
      var rest, tail := Join(EscapeAll(values[1..]), ","), Join(values[1..], ",");
      UnescapeList(values[1..], t);
      UnescapePlain(",", rest + t);
      UnescapeEscape(values[0], "," + (rest + t));
      assert Join(EscapeAll(values), ",") == Escape(values[0]) + "," + rest;
      assert Join(EscapeAll(values), ",") + t == Escape(values[0]) + ("," + (rest + t));
      PrependThrice(values[0], ",", tail, Unescape(t));
    }
  }

  lemma PrependThrice(a: string, b: string, c: string, r: Result<string>)
    ensures PrependAll(a, PrependAll(b, PrependAll(c, r))) == PrependAll(a + b + c, r)
  {
    if r.Ok? {
      assert a + (b + (c + r.value)) == a + b + c + r.value;
    }
  }

  lemma UnescapeAll(s: string)
    requires Lacks(s, '%') && Lacks(s, '+')
    ensures Unescape(s) == Ok(s)
  {
    assert Unescape("") == Ok("");
    hide Unescape;
    UnescapePlain(s, "");
    assert s + "" == s;
  }

  lemma OpNameIsPlain(op: Op)
    ensures Unspecial(OpName(op) + ".") && Lacks(OpName(op), '.') && OpName(op) != ""
  {
  }

  lemma UnescapeCompare(op: Op, value: string)
    requires Octets(value)
    ensures Unescape(OpName(op) + "." + Escape(value)) == Ok(OpName(op) + "." + value)
  {
    assert Unescape("") == Ok("");
    hide Unescape, Escape, OpName;
    var name := OpName(op) + ".";
    OpNameIsPlain(op);
    UnescapeEscape(value, "");
    assert Escape(value) + "" == Escape(value) && value + "" == value;
    UnescapePlain(name, Escape(value));
  }

  lemma UnescapeIn(values: seq<string>)
    requires forall i :: 0 <= i < |values| ==> Octets(values[i])
    ensures Unescape("in.(" + Join(EscapeAll(values), ",") + ")") == Ok("in.(" + Join(values, ",") + ")")
  {
    hide Unescape, Join, EscapeAll;
    var raw, cooked := Join(EscapeAll(values), ","), Join(values, ",");
    UnescapeAll(")");
    UnescapeList(values, ")");
    UnescapePlain("in.(", raw + ")");
    assert "in.(" + raw + ")" == "in.(" + (raw + ")");
    assert "in.(" + (cooked + ")") == "in.(" + cooked + ")";
  }

  lemma SignedIsPlain(n: int)
    ensures Unspecial(Signed(n)) && Signed(n) != ""
  {
    hide Decimal;
    var s := Signed(n);
    forall i | 0 <= i < |s| ensures Digit(s[i]) || s[i] == '-' {
    }
  }

  lemma ValueReadsBack(c: Call)
    requires WellFormed(c)
    ensures Unescape(Key(c)) == Ok(Key(c)) && Unescape(RawValue(c)) == Ok(Cooked(c))
  {
    hide Unescape, Escape, Join, EscapeAll;
    UnescapeAll(Key(c));
    match c
    case Select(columns) =>
      UnescapeEscape(columns, "");
      UnescapeAll("");
      assert Escape(columns) + "" == Escape(columns) && columns + "" == columns;
    case Compare(op, column, value) => UnescapeCompare(op, value);
    case In(column, values) => UnescapeIn(values);
    case Order(column, direction) => UnescapeAll(column + "." + direction);
    case Limit(n) =>
      SignedIsPlain(n);
      UnescapeAll(Signed(n));
    case Offset(n) =>
      SignedIsPlain(n);
      UnescapeAll(Signed(n));
  }

  lemma {:induction false} JoinEscapedLacks(values: seq<string>)
    ensures Lacks(Join(EscapeAll(values), ","), '&')
  {
    hide Escape;
    if values != [] {
      EscapeIsSafe(values[0], '&');
      JoinEscapedLacks(values[1..]);
      assert |values| == 1 ==> EscapeAll(values) == [Escape(values[0])];
    }
  }

  lemma LacksConcat(a: string, b: string, c: char)
    requires Lacks(a, c) && Lacks(b, c)
    ensures Lacks(a + b, c)
  {
  }

  lemma RawLacksSeparator(c: Call)
    requires WellFormed(c)
    ensures Lacks(RawValue(c), '&')
  {
    hide Escape, Join, EscapeAll, OpName, Lacks, Decimal, Signed;
    match c
    case Select(columns) => EscapeIsSafe(columns, '&');
    case Compare(op, column, value) =>
      OpNameIsPlain(op);
      EscapeIsSafe(value, '&');
      LacksConcat(OpName(op) + ".", Escape(value), '&');
    case In(column, values) => InLacksSeparator(values);
    case Order(column, direction) => OrderLacksSeparator(column, direction);
    case Limit(n) => SignedIsPlain(n);
    case Offset(n) => SignedIsPlain(n);
  }

  lemma InLacksSeparator(values: seq<string>)
    ensures Lacks("in.(" + Join(EscapeAll(values), ",") + ")", '&')
  {
    hide Join, EscapeAll;
    JoinEscapedLacks(values);
  }

  lemma OrderLacksSeparator(column: string, direction: string)
    requires Lacks(column, '&') && Lacks(direction, '&')
    ensures Lacks(column + "." + direction, '&')
  {
  }

  lemma ParamLacksSeparator(c: Call)
    requires WellFormed(c)
    ensures Lacks(Param(c), '&') && Lacks(Key(c), '=')
  {
    hide RawValue;
    RawLacksSeparator(c);
    var key := Key(c) + "=";
    LacksConcat(key, RawValue(c), '&');
  }

  lemma AssignCooked(p: Parsed, c: Call)
    requires WellFormed(c)
    ensures Assign(p, Key(c), Cooked(c)) == Apply(p, c)
  {
    hide Join, Index, LastIndex, Upper;
    match c
    case Select(_) =>
    case Compare(op, column, value) =>
      var s := OpName(op) + "." + value;
      IndexAt(OpName(op), '.', value);
      assert s[..|OpName(op)|] == OpName(op) && s[|OpName(op)| + 1..] == value;
    case In(column, values) =>
      var list := "(" + Join(values, ",") + ")";
      var s := "in.(" + Join(values, ",") + ")";
      assert s == "in" + ['.'] + list;
      IndexAt("in", '.', list);
      assert s[..2] == "in" && s[3..] == list;
    case Order(column, direction) =>
      var s := column + "." + direction;
      LastIndexAt(column, '.', direction);
      assert s[..|column|] == column && s[|column| + 1..] == direction;
    case Limit(_) =>
    case Offset(_) =>
  }

  lemma PartReadsBack(p: Parsed, c: Call)
    requires WellFormed(c)
    ensures ReadPart(p, Param(c)) == Apply(p, c)
  {
    hide Assign, Apply, Key, RawValue, Cooked, Unescape, Index;
    var key, raw := Key(c), RawValue(c);
    ParamLacksSeparator(c);
    ValueReadsBack(c);
    AssignCooked(p, c);
    IndexAt(key, '=', raw);
    var part := key + "=" + raw;
    assert part[..|key|] == key && part[|key| + 1..] == raw;
  }

  lemma {:induction false} PartsReadBack(p: Parsed, calls: seq<Call>)
    requires forall i :: 0 <= i < |calls| ==> WellFormed(calls[i])
    ensures ReadParts(p, Params(calls)) == ApplyAll(p, calls)
  {
    hide ReadPart, Apply, Param, WellFormed;
    if calls != [] {
      var n := |calls| - 1;
      PartsReadBack(p, calls[..n]);
      PartReadsBack(ApplyAll(p, calls[..n]), calls[n]);
      assert Params(calls)[..n] == Params(calls[..n]);
    }
  }

  /** Parsing the built query string recovers every call, for any chain of well-formed calls. */
  lemma ParseUndoesBuild(calls: seq<Call>)
    requires forall i :: 0 <= i < |calls| ==> WellFormed(calls[i])
    ensures Parse(Built(calls)) == ApplyAll(NOTHING, calls)
  {
    PartsReadBack(NOTHING, calls);
    var params := Params(calls);
    if calls == [] {
      assert params == [];
    } else {
      hide ReadParts, ApplyAll, Split, WellFormed;
      forall i | 0 <= i < |params| ensures Lacks(params[i], '&') {
        ParamLacksSeparator(calls[i]);
      }
      SplitJoin(params, '&');
      assert |params[0]| > 0;
      assert Join(params, "&") != "";
    }
  }
}
