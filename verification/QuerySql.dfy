/** The other side of the compile step: how the text of a WHERE clause reads as SQL. Reading back what
    was written gives the very clauses that were meant, whatever bytes the column names contain. */
module QuerySql {
  import opened Wrappers
  import opened QueryStrings
  import opened QueryFilter
  import opened QueryWhere

  // ---------- A reader for the clauses ----------

  function ReadNumber(s: string): (r: Option<Read<nat>>)
    ensures r.Some? ==> |r.value.rest| < |s|
  {
    var n := Digits(s);
    if n == 0 then None else Some(Read(Value(s[..n]), s[n..]))
  }

  /** The SQL operators, a comparison of text for = and !=. */
  function ReadInfix(s: string): (r: Option<Read<Op>>)
    ensures r.Some? ==> |r.value.rest| < |s|
  {
    if "::text = $" <= s then Some(Read(Eq, s[10..]))
    else if "::text != $" <= s then Some(Read(Neq, s[11..]))
    else if " > $" <= s then Some(Read(Gt, s[4..]))
    else if " >= $" <= s then Some(Read(Gte, s[5..]))
    else if " < $" <= s then Some(Read(Lt, s[4..]))
    else if " <= $" <= s then Some(Read(Lte, s[5..]))
    else None
  }

  /** $1,$2,...,$n) up to and including the closing parenthesis. */
  function ReadSlots(s: string): (r: Option<Read<seq<nat>>>)
    ensures r.Some? ==> |r.value.rest| < |s|
    decreases |s|
  {
    if s == "" || s[0] != '$' then None
    else
      var slot := ReadNumber(s[1..]);
      if slot.None? || slot.value.rest == "" then None
      else if slot.value.rest[0] == ')' then Some(Read([slot.value.value], slot.value.rest[1..]))
      else if slot.value.rest[0] == ',' then
        var more := ReadSlots(slot.value.rest[1..]);
        if more.None? then None else Some(Read([slot.value.value] + more.value.value, more.value.rest))
      else None
  }

  const MEMBERSHIP := "::text IN ("

  function ReadTest(column: string, op: Read<Op>): (r: Option<Read<Clause>>)
    ensures r.Some? ==> |r.value.rest| < |op.rest|
  {
    var slot := ReadNumber(op.rest);
    if slot.None? then None else Some(Read(Test(column, op.value, slot.value.value), slot.value.rest))
  }

  function ReadClause(s: string): (r: Option<Read<Clause>>)
    ensures r.Some? ==> |r.value.rest| < |s|
  {
    var column := ReadIdent(s);
    if column.None? then None
    else
      var rest := column.value.rest;
      var op := ReadInfix(rest);
      if op.Some? then ReadTest(column.value.value, op.value)
      else if MEMBERSHIP <= rest then
        var slots := ReadSlots(rest[|MEMBERSHIP|..]);
        if slots.None? then None else Some(Read(OneOf(column.value.value, slots.value.value), slots.value.rest))
      else None
  }

  function ReadClauses(s: string): Option<seq<Clause>>
    decreases |s|
  {
    var first := ReadClause(s);
    if first.None? then None
    else if first.value.rest == "" then Some([first.value.value])
    else if " AND " <= first.value.rest then
      var more := ReadClauses(first.value.rest[5..]);
      if more.None? then None else Some([first.value.value] + more.value)
    else None
  }

  function ReadWhere(s: string): Option<seq<Clause>> {
    if s == "" then Some([]) else if "WHERE " <= s then ReadClauses(s[6..]) else None
  }

  // ---------- Reading back ----------

  lemma ReadDecimal(n: nat, rest: string)
    requires rest != "" ==> !Digit(rest[0])
    ensures ReadNumber(Decimal(n) + rest) == Some(Read(n, rest))
  {
    var s := Decimal(n) + rest;
    DigitsOf(Decimal(n), rest);
    ValueOfDecimal(n);
    assert s[..|Decimal(n)|] == Decimal(n) && s[|Decimal(n)|..] == rest;
  }

  lemma NotPrefix(p: string, s: string, i: nat)
    requires i < |p| && i < |s| && p[i] != s[i]
    ensures !(p <= s)
  {
  }

  /** The six infixes and the membership text differ from one another by their eighth character at the latest. */
  lemma InfixesDiffer(op: Op, other: Op, rest: string)
    requires op != other
    ensures !(Infix(other) <= Infix(op) + rest)
    ensures !(Infix(op) <= MEMBERSHIP + rest)
  {
    var s := Infix(op) + rest;
    var i := if Infix(op)[0] != Infix(other)[0] then 0
             else if Infix(op)[0] == ':' then 7
             else if Infix(op)[1] != Infix(other)[1] then 1 else 2;
    NotPrefix(Infix(other), s, i);
    NotPrefix(Infix(op), MEMBERSHIP + rest, if Infix(op)[0] == ':' then 7 else 0);
  }

  /** What ReadInfix makes of a text, in terms of the written infixes. */
  lemma ReadsInfix(s: string)
    ensures ReadInfix(s) ==
            if Infix(Eq) <= s then Some(Read(Eq, s[|Infix(Eq)|..]))
            else if Infix(Neq) <= s then Some(Read(Neq, s[|Infix(Neq)|..]))
            else if Infix(Gt) <= s then Some(Read(Gt, s[|Infix(Gt)|..]))
            else if Infix(Gte) <= s then Some(Read(Gte, s[|Infix(Gte)|..]))
            else if Infix(Lt) <= s then Some(Read(Lt, s[|Infix(Lt)|..]))
            else if Infix(Lte) <= s then Some(Read(Lte, s[|Infix(Lte)|..]))
            else None
  {
  }

  lemma ReadOwnInfix(op: Op, rest: string)
    ensures ReadInfix(Infix(op) + rest) == Some(Read(op, rest))
    ensures ReadInfix(MEMBERSHIP + rest) == None
  {
    var s := Infix(op) + rest;
    forall other: Op | other != op ensures !(Infix(other) <= s) {
      InfixesDiffer(op, other, rest);
    }
    forall other: Op ensures !(Infix(other) <= MEMBERSHIP + rest) {
      InfixesDiffer(other, if other == Eq then Neq else Eq, rest);
    }
    hide Infix, ReadInfix;
    ReadsInfix(s);
    ReadsInfix(MEMBERSHIP + rest);
    assert s[|Infix(op)|..] == rest;
  }

  lemma JoinSlotsStep(slots: seq<nat>)
    requires |slots| > 1
    ensures Join(SlotTexts(slots), ",") == Slot(slots[0]) + "," + Join(SlotTexts(slots[1..]), ",")
  {
    hide Slot;
    assert SlotTexts(slots)[1..] == SlotTexts(slots[1..]);
  }

  lemma {:induction false} ReadOwnSlots(slots: seq<nat>, rest: string)
    requires slots != []
    ensures ReadSlots(Join(SlotTexts(slots), ",") + (")" + rest)) == Some(Read(slots, rest))
  {
    hide Decimal, ReadNumber, Join;
    var s := Join(SlotTexts(slots), ",") + (")" + rest);
    if |slots| == 1 {
      JoinOne(slots[0]);
      assert SlotTexts(slots) == [Slot(slots[0])];
      ReadDecimal(slots[0], ")" + rest);
      assert s[1..] == Decimal(slots[0]) + (")" + rest);
      assert (")" + rest)[1..] == rest && slots == [slots[0]];
    } else {
      var tail := Join(SlotTexts(slots[1..]), ",") + (")" + rest);
      ReadOwnSlots(slots[1..], rest);
      JoinSlotsStep(slots);
      ReadDecimal(slots[0], "," + tail);
      assert s[1..] == Decimal(slots[0]) + ("," + tail);
      assert ("," + tail)[1..] == tail && slots == [slots[0]] + slots[1..];
    }
  }

  lemma JoinOne(slot: nat)
    ensures Join([Slot(slot)], ",") == Slot(slot)
  {
  }

  lemma ReadOwnTest(column: string, op: Op, slot: nat, rest: string)
    requires rest != "" ==> !Digit(rest[0])
    ensures ReadClause(Text(Test(column, op, slot)) + rest) == Some(Read(Test(column, op, slot), rest))
  {
    InfixStart(op);
    hide Infix, ReadIdent, ReadInfix, ReadNumber, Decimal, QuoteIdent;
    var tail := Decimal(slot) + rest;
    assert Text(Test(column, op, slot)) + rest == QuoteIdent(column) + (Infix(op) + tail);
    IdentRoundTrip(column, Infix(op) + tail);
    ReadOwnInfix(op, tail);
    ReadDecimal(slot, rest);
  }

  lemma InfixStart(op: Op)
    ensures |Infix(op)| > 0 && Infix(op)[0] != '"'
  {
  }

  lemma ReadOwnOneOf(column: string, slots: seq<nat>, rest: string)
    requires slots != []
    ensures ReadClause(Text(OneOf(column, slots)) + rest) == Some(Read(OneOf(column, slots), rest))
  {
    hide Infix, ReadIdent, ReadInfix, ReadSlots, QuoteIdent, SlotTexts, Join;
    var tail := Join(SlotTexts(slots), ",") + (")" + rest);
    assert Text(OneOf(column, slots)) + rest == QuoteIdent(column) + (MEMBERSHIP + tail);
    IdentRoundTrip(column, MEMBERSHIP + tail);
    ReadOwnInfix(Eq, tail);
    assert (MEMBERSHIP + tail)[|MEMBERSHIP|..] == tail;
    ReadOwnSlots(slots, rest);
  }

  ghost predicate Readable(cs: seq<Clause>) {
    forall i :: 0 <= i < |cs| && cs[i].OneOf? ==> cs[i].slots != []
  }

  lemma ReadOwnClause(c: Clause, rest: string)
    requires c.OneOf? ==> c.slots != []
    requires rest != "" ==> !Digit(rest[0])
    ensures ReadClause(Text(c) + rest) == Some(Read(c, rest))
  {
    hide ReadClause, Text;
    match c
    case Test(column, op, slot) => ReadOwnTest(column, op, slot, rest);
    case OneOf(column, slots) => ReadOwnOneOf(column, slots, rest);
  }

  lemma JoinTextsStep(cs: seq<Clause>)
    requires |cs| > 1
    ensures Join(Texts(cs), " AND ") == Text(cs[0]) + " AND " + Join(Texts(cs[1..]), " AND ")
  {
    hide Text;
    assert Texts(cs)[1..] == Texts(cs[1..]);
  }

  lemma {:induction false} ReadOwnClauses(cs: seq<Clause>)
    requires cs != [] && Readable(cs)
    ensures ReadClauses(Join(Texts(cs), " AND ")) == Some(cs)
  {
    hide Text, ReadClause;
    if |cs| == 1 {
      ReadOwnClause(cs[0], "");
      assert Text(cs[0]) + "" == Text(cs[0]) && Texts(cs) == [Text(cs[0])] && cs == [cs[0]];
    } else {
      hide Join;
      var rest := Join(Texts(cs[1..]), " AND ");
      ReadOwnClauses(cs[1..]);
      JoinTextsStep(cs);
      ReadOwnClause(cs[0], " AND " + rest);
      assert Text(cs[0]) + " AND " + rest == Text(cs[0]) + (" AND " + rest);
      assert (" AND " + rest)[5..] == rest && cs == [cs[0]] + cs[1..];
    }
  }

  lemma {:induction false} ClausesReadable(cs: seq<Condition>, start: nat)
    ensures Readable(Clauses(cs, start))
  {
    hide KindOf, ListOf;
    if cs != [] {
      ClausesReadable(cs[..|cs| - 1], start);
      ListNonempty(cs[|cs| - 1].value);
    }
  }

  lemma ListNonempty(value: string)
    ensures ListOf(value) != []
  {
  }

  predicate UnknownOperators(cs: seq<Condition>) { forall c :: c in cs ==> KindOf(c.operator).Unknown? }

  lemma {:induction false} NoClauseExactly(cs: seq<Condition>, start: nat)
    ensures Clauses(cs, start) == [] <==> UnknownOperators(cs)
  {
    hide KindOf, ListOf;
    if cs != [] {
      var n := |cs| - 1;
      NoClauseExactly(cs[..n], start);
      assert cs == cs[..n] + [cs[n]];
      assert UnknownOperators(cs) <==> UnknownOperators(cs[..n]) && KindOf(cs[n].operator).Unknown?;
    }
  }

  /** The WHERE text reads as exactly the clauses it was compiled from. It is malformed in one case
      only: there are conditions, and the operators of all of them are unknown. */
  lemma WhereReadsBack(cs: seq<Condition>, start: nat)
    ensures ReadWhere(WhereText(cs, start)) ==
            if cs != [] && UnknownOperators(cs) then None else Some(Clauses(cs, start))
  {
    NoClauseExactly(cs, start);
    hide ReadClauses, Clauses, Texts, Join;
    if cs != [] {
      var clauses := Clauses(cs, start);
      var body := Join(Texts(clauses), " AND ");
      assert ("WHERE " + body)[6..] == body;
      ClausesReadable(cs, start);
      if clauses == [] {
        NothingToRead();
      } else {
        ReadOwnClauses(clauses);
      }
    } else {
      NoConditions(start);
    }
  }

  /** A hand-written query of one condition, whatever its operator is called. */
  lemma ParseOne(column: string, operator: string, value: string)
    requires PlainColumn(column) && Unspecial(operator) && Unspecial(value) && operator != "" && Lacks(operator, '.')
    ensures Parse(column + "=" + operator + "." + value).conditions == [Condition(column, operator, value)]
  {
    hide Unescape, Index, Parse, ReadPart;
    var query := column + "=" + (operator + "." + value);
    assert column + "=" + operator + "." + value == query;
    ReadOnePart(column, operator, value);
    ParsePart(query);
  }

  lemma ReadOnePart(column: string, operator: string, value: string)
    requires PlainColumn(column) && Unspecial(operator) && Unspecial(value) && operator != "" && Lacks(operator, '.')
    ensures ReadPart(NOTHING, column + "=" + (operator + "." + value)) ==
            NOTHING.(conditions := [Condition(column, operator, value)])
  {
    hide Unescape, Index, Assign;
    var text := operator + "." + value;
    var query := column + "=" + text;
    UnescapeAll(column);
    UnescapeAll(text);
    IndexAt(column, '=', text);
    assert query[..|column|] == column && query[|column| + 1..] == text;
    AssignOne(column, operator, value);
  }

  lemma AssignOne(column: string, operator: string, value: string)
    requires PlainColumn(column) && operator != "" && Lacks(operator, '.')
    ensures Assign(NOTHING, column, operator + "." + value) == NOTHING.(conditions := [Condition(column, operator, value)])
  {
    hide Index;
    var text := operator + "." + value;
    IndexAt(operator, '.', value);
    assert text[..|operator|] == operator && text[|operator| + 1..] == value;
  }

  lemma ParsePart(query: string)
    requires Lacks(query, '&') && query != ""
    ensures Parse(query) == ReadPart(NOTHING, query)
  {
    hide ReadPart, Index;
    IndexNone(query, '&');
    var parts: seq<string> := [query];
    assert Split(query, '&') == parts && parts[..0] == [];
    assert ReadParts(NOTHING, parts[..0]) == NOTHING;
  }

  lemma MalformedExample()
    ensures ReadWhere(WhereText(Parse("a=zz.b").conditions, 1)) == None
  {
    hide Parse, ReadWhere, WhereText;
    ParseOne("a", "zz", "b");
    assert "a" + "=" + "zz" + "." + "b" == "a=zz.b";
    WhereReadsBack([Condition("a", "zz", "b")], 1);
  }

  /** The SQL operator behind each operator name of the query syntax, up to its placeholder's number. */
  function SqlOperator(name: string): Option<string> {
    match name
    case "eq" => Some("::text = $")
    case "neq" => Some("::text != $")
    case "gt" => Some(" > $")
    case "gte" => Some(" >= $")
    case "lt" => Some(" < $")
    case "lte" => Some(" <= $")
    case _ => None
  }

  lemma CompiledText(c: Condition, start: nat)
    requires SqlOperator(c.operator).Some?
    ensures WhereText([c], start) == "WHERE " + (QuoteIdent(c.column) + SqlOperator(c.operator).value + Decimal(start))
    ensures AllArgs([c]) == [c.value]
  {
    KindIsSql(c.operator);
    hide ListOf, QuoteIdent, Decimal, Infix, SqlOperator, KindOf;
    OneCondition(c, start);
    OneText(Test(c.column, KindOf(c.operator).op, start));
  }

  lemma KindIsSql(name: string)
    requires SqlOperator(name).Some?
    ensures KindOf(name).Comparison? && Infix(KindOf(name).op) == SqlOperator(name).value
  {
  }

  lemma OneText(c: Clause)
    ensures Join(Texts([c]), " AND ") == Text(c)
  {
    hide Text;
    assert Texts([c]) == [Text(c)];
  }

  lemma OneCondition(c: Condition, start: nat)
    ensures Clauses([c], start) == ClauseOf(c, start) && AllArgs([c]) == ArgsOf(c)
  {
    hide ClauseOf, ArgsOf;
    assert [c][..0] == [];
    assert AllArgs([c][..0]) == [] && Clauses([c][..0], start) == [];
    assert [] + ArgsOf(c) == ArgsOf(c) && [] + ClauseOf(c, start) == ClauseOf(c, start);
  }

  lemma NoConditions(start: nat)
    ensures Clauses([], start) == []
  {
  }

  lemma NothingToRead()
    ensures ReadClauses(Join(Texts([]), " AND ")) == None
  {
    assert Texts([]) == [];
  }

  // ---------- Paging, column lists and ordering ----------

  datatype Paging = Paging(limit: Option<nat>, offset: Option<nat>)

  /** How LIMIT and OFFSET read: the placeholders that name their arguments. */
  function ReadPaging(s: string): Option<Paging> {
    if s == "" then Some(Paging(None, None))
    else if "LIMIT $" <= s then
      var limit := ReadNumber(s[7..]);
      if limit.None? then None
      else if limit.value.rest == "" then Some(Paging(Some(limit.value.value), None))
      else if " OFFSET $" <= limit.value.rest then
        var offset := ReadNumber(limit.value.rest[9..]);
        if offset.None? || offset.value.rest != "" then None
        else Some(Paging(Some(limit.value.value), Some(offset.value.value)))
      else None
    else if "OFFSET $" <= s then
      var offset := ReadNumber(s[8..]);
      if offset.None? || offset.value.rest != "" then None else Some(Paging(None, Some(offset.value.value)))
    else None
  }

  /** LIMIT and OFFSET name the slots of the values given for them, and are there exactly if one was given. */
  lemma PagingReadsBack(p: Parsed, start: nat)
    ensures var t := LimitOffset(p, start);
            && ReadPaging(t.text) == Some(Paging(if p.limit != "" then Some(start) else None,
                                                 if p.offset != "" then Some(start + |t.args| - 1) else None))
            && (p.limit != "" ==> |t.args| > 0 && t.args[0] == p.limit)
            && (p.offset != "" ==> |t.args| > 0 && t.args[|t.args| - 1] == p.offset)
            && |t.args| == (if p.limit != "" then 1 else 0) + (if p.offset != "" then 1 else 0)
  {
    hide Decimal, ReadPaging;
    ReadsPaging(start);
    var limit, offset, none: seq<string> := "LIMIT $" + Decimal(start), "OFFSET $" + Decimal(start), [];
    if p.limit != "" && p.offset != "" {
      JoinCons(limit, ["OFFSET $" + Decimal(start + 1)], " ");
    } else if p.limit != "" {
      assert [limit] + none == [limit] && LimitOffset(p, start).text == limit;
    } else if p.offset != "" {
      assert none + [offset] == [offset] && LimitOffset(p, start).text == offset;
    } else {
      assert none + none == none && ReadPaging("") == Some(Paging(None, None)) by {
        ReadsNothing();
      }
    }
  }

  lemma ReadsNothing()
    ensures ReadPaging("") == Some(Paging(None, None))
  {
  }

  lemma ReadsPaging(start: nat)
    ensures ReadPaging("LIMIT $" + Decimal(start)) == Some(Paging(Some(start), None))
    ensures ReadPaging("OFFSET $" + Decimal(start)) == Some(Paging(None, Some(start)))
    ensures ReadPaging("LIMIT $" + Decimal(start) + " " + ("OFFSET $" + Decimal(start + 1))) == Some(Paging(Some(start), Some(start + 1)))
  {
    hide Decimal, ReadNumber;
    var first, second := Decimal(start), Decimal(start + 1);
    var tail := " OFFSET $" + second;
    assert first + "" == first && second + "" == second;
    ReadDecimal(start, "");
    ReadDecimal(start + 1, "");
    ReadDecimal(start, tail);
    assert ("LIMIT $" + first)[7..] == first && ("OFFSET $" + first)[8..] == first && tail[9..] == second;
    assert ("LIMIT $" + first + " " + ("OFFSET $" + second))[7..] == first + tail;
    assert !("LIMIT $" <= "OFFSET $" + first) by {
      assert ("OFFSET $" + first)[0] == 'O';
    }
  }

  function ReadColumns(s: string): Option<seq<string>>
    decreases |s|
  {
    var first := ReadIdent(s);
    if first.None? then None
    else if first.value.rest == "" then Some([first.value.value])
    else if ", " <= first.value.rest then
      var more := ReadColumns(first.value.rest[2..]);
      if more.None? then None else Some([first.value.value] + more.value)
    else None
  }

  lemma JoinQuotedStep(cols: seq<string>)
    requires |cols| > 1
    ensures Join(Quoted(cols), ", ") == QuoteIdent(cols[0]) + ", " + Join(Quoted(cols[1..]), ", ")
  {
    hide QuoteIdent;
    assert Quoted(cols)[1..] == Quoted(cols[1..]);
  }

  lemma {:induction false} ReadOwnColumns(cols: seq<string>)
    requires cols != []
    ensures ReadColumns(Join(Quoted(cols), ", ")) == Some(cols)
  {
    hide QuoteIdent, ReadIdent;
    if |cols| == 1 {
      IdentRoundTrip(cols[0], "");
      assert QuoteIdent(cols[0]) + "" == QuoteIdent(cols[0]) && Quoted(cols) == [QuoteIdent(cols[0])] && cols == [cols[0]];
    } else {
      hide Join;
      var rest := Join(Quoted(cols[1..]), ", ");
      ReadOwnColumns(cols[1..]);
      JoinQuotedStep(cols);
      IdentRoundTrip(cols[0], ", " + rest);
      assert QuoteIdent(cols[0]) + ", " + rest == QuoteIdent(cols[0]) + (", " + rest);
      assert (", " + rest)[2..] == rest && cols == [cols[0]] + cols[1..];
    }
  }

  /** The select list names exactly the trimmed pieces between the commas, whatever they contain; nothing
      or a star asks for every column. */
  lemma SelectListReadsBack(raw: string)
    ensures if raw == "" || raw == "*" then SelectList(raw) == "*"
            else ReadColumns(SelectList(raw)) == Some(TrimmedAll(Split(raw, ',')))
  {
    hide Split, TrimSpace, Join, Quoted;
    if raw != "" && raw != "*" {
      ReadOwnColumns(TrimmedAll(Split(raw, ',')));
    }
  }

  /** A query that says nothing about columns, order, rows or paging asks for everything, in no order. */
  lemma EmptyQuery(start: nat)
    ensures var p := Parse("");
            && SelectList(p.selectCols) == "*" && WhereText(p.conditions, start) == "" && BuildOrder(p) == ""
            && LimitOffset(p, start) == Tail("", [], [])
  {
    var none: seq<string> := [];
    assert none + none == [];
  }

  /** A condition whose value is not properly escaped is dropped. */
  lemma BadValueDropped(column: string, value: string)
    requires PlainColumn(column) && Lacks(value, '&') && Unescape(value).Err?
    ensures Parse(column + "=" + value) == NOTHING
  {
    hide Unescape, Index, Parse;
    var query := column + "=" + value;
    UnescapeAll(column);
    IndexAt(column, '=', value);
    ParsePart(query);
    assert query[..|column|] == column && query[|column| + 1..] == value;
    assert ReadPart(NOTHING, query) == Assign(NOTHING, column, "");
    IndexNone("", '.');
  }

  datatype Ordering = Ordering(column: string, descending: bool)

  function ReadOrder(s: string): Option<Ordering> {
    if !("ORDER BY " <= s) then None
    else
      var column := ReadIdent(s[9..]);
      if column.None? then None
      else if column.value.rest == " ASC" then Some(Ordering(column.value.value, false))
      else if column.value.rest == " DESC" then Some(Ordering(column.value.value, true))
      else None
  }

  /** An Order call on a named column comes out as an ordering by that column, descending exactly when
      the direction spells DESC. */
  lemma OrderReadsBack(calls: seq<Call>, column: string, direction: string)
    requires forall i :: 0 <= i < |calls| ==> WellFormed(calls[i])
    requires WellFormed(Order(column, direction)) && column != ""
    ensures ReadOrder(BuildOrder(Parse(Built(calls + [Order(column, direction)])))) ==
            Some(Ordering(column, SpellsDesc(direction)))
  {
    DescendingSpellings(direction);
    var all := calls + [Order(column, direction)];
    hide Parse, Built, ReadIdent, QuoteIdent, Upper, SpellsDesc, WellFormed;
    ParseUndoesBuild(all);
    assert all[..|all| - 1] == calls;
    var p := ApplyAll(NOTHING, all);
    assert p.orderCol == column && p.orderDir == Upper(direction);
    var dir := if Upper(direction) == "DESC" then " DESC" else " ASC";
    IdentRoundTrip(column, dir);
    assert BuildOrder(p) == "ORDER BY " + (QuoteIdent(column) + dir);
  }
}
