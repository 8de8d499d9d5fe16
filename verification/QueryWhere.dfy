/** The compile step: parsed conditions become the text of a WHERE clause with numbered placeholders
    and the list of their arguments. */
module QueryWhere {
  import opened QueryStrings
  import opened QueryFilter

  // ---------- The clauses behind the text ----------

  datatype Clause = Test(column: string, op: Op, slot: nat) | OneOf(column: string, slots: seq<nat>)

  datatype Kind = Comparison(op: Op) | Membership | Unknown

  function KindOf(operator: string): Kind {
    match operator
    case "eq" => Comparison(Eq)
    case "neq" => Comparison(Neq)
    case "gt" => Comparison(Gt)
    case "gte" => Comparison(Gte)
    case "lt" => Comparison(Lt)
    case "lte" => Comparison(Lte)
    case "in" => Membership
    case _ => Unknown
  }

  function ListOf(value: string): seq<string> { Split(TrimParens(value), ',') }

  /** The arguments one condition binds: none when its operator is unknown. */
  function ArgsOf(c: Condition): seq<string> {
    match KindOf(c.operator)
    case Comparison(_) => [c.value]
    case Membership => ListOf(c.value)
    case Unknown => []
  }

  function AllArgs(cs: seq<Condition>): seq<string> {
    if cs == [] then [] else AllArgs(cs[..|cs| - 1]) + ArgsOf(cs[|cs| - 1])
  }

  function Range(first: nat, n: nat): (r: seq<nat>)
    ensures |r| == n && forall i :: 0 <= i < n ==> r[i] == first + i
  {
    if n == 0 then [] else Range(first, n - 1) + [first + n - 1]
  }

  function ClauseOf(c: Condition, idx: nat): seq<Clause> {
    match KindOf(c.operator)
    case Comparison(op) => [Test(c.column, op, idx)]
    case Membership => [OneOf(c.column, Range(idx, |ListOf(c.value)|))]
    case Unknown => []
  }

  function Clauses(cs: seq<Condition>, start: nat): seq<Clause> {
    if cs == [] then []
    else
      var front := cs[..|cs| - 1];
      Clauses(front, start) + ClauseOf(cs[|cs| - 1], start + |AllArgs(front)|)
  }

  // ---------- Their text ----------

  function Slot(n: nat): string { "$" + Decimal(n) }

  function SlotTexts(slots: seq<nat>): seq<string> { seq(|slots|, i requires 0 <= i < |slots| => Slot(slots[i])) }

  /** What stands between the column and the placeholder's number. */
  function Infix(op: Op): string {
    match op
    case Eq => "::text = $"
    case Neq => "::text != $"
    case Gt => " > $"
    case Gte => " >= $"
    case Lt => " < $"
    case Lte => " <= $"
  }

  function Text(c: Clause): string {
    match c
    case Test(column, op, slot) => QuoteIdent(column) + Infix(op) + Decimal(slot)
    case OneOf(column, slots) => QuoteIdent(column) + "::text IN (" + Join(SlotTexts(slots), ",") + ")"
  }

  function Texts(cs: seq<Clause>): seq<string> { seq(|cs|, i requires 0 <= i < |cs| => Text(cs[i])) }

  function WhereText(cs: seq<Condition>, start: nat): string {
    if cs == [] then "" else "WHERE " + Join(Texts(Clauses(cs, start)), " AND ")
  }

  method BuildWhere(conditions: seq<Condition>, argStart: nat) returns (where: string, args: seq<string>)
    ensures where == WhereText(conditions, argStart) && args == AllArgs(conditions)
  {
    hide Text, ClauseOf, ArgsOf, Join;
    if conditions == [] {
      return "", [];
    }
    var clauses: seq<string> := [];
    args := [];
    var idx := argStart;
    for i := 0 to |conditions|
      invariant args == AllArgs(conditions[..i]) && idx == argStart + |args|
      invariant clauses == Texts(Clauses(conditions[..i], argStart))
    {
      assert conditions[..i + 1][..i] == conditions[..i];
      TextsConcat(Clauses(conditions[..i], argStart), ClauseOf(conditions[i], idx));
      var clause, bound := CompileCondition(conditions[i], idx);
      clauses, args, idx := clauses + clause, args + bound, idx + |bound|;
    }
    assert conditions[..|conditions|] == conditions;
    where := "WHERE " + Join(clauses, " AND ");
  }

  /** The switch inside the loop: at most one clause, and the arguments it binds from idx on. */
  method CompileCondition(c: Condition, idx: nat) returns (clause: seq<string>, args: seq<string>)
    ensures clause == Texts(ClauseOf(c, idx)) && args == ArgsOf(c)
  {
    hide ListOf, Join, QuoteIdent, Decimal;
    var col := QuoteIdent(c.column);
    clause, args := [], [];
    match c.operator {
      case "eq" => clause, args := [col + "::text = $" + Decimal(idx)], [c.value];
      case "neq" => clause, args := [col + "::text != $" + Decimal(idx)], [c.value];
      case "gt" => clause, args := [col + " > $" + Decimal(idx)], [c.value];
      case "gte" => clause, args := [col + " >= $" + Decimal(idx)], [c.value];
      case "lt" => clause, args := [col + " < $" + Decimal(idx)], [c.value];
      case "lte" => clause, args := [col + " <= $" + Decimal(idx)], [c.value];
      case "in" =>
        args := ListOf(c.value);
        var ph := Placeholders(idx, |args|);
        clause := [col + "::text IN (" + Join(ph, ",") + ")"];
      case _ =>
    }
  }

  method Placeholders(first: nat, n: nat) returns (ph: seq<string>)
    ensures ph == SlotTexts(Range(first, n))
  {
    ph := [];
    for i := 0 to n
      invariant |ph| == i && forall j :: 0 <= j < i ==> ph[j] == Slot(first + j)
    {
      ph := ph + [Slot(first + i)];
    }
  }

  lemma TextsConcat(a: seq<Clause>, b: seq<Clause>)
    ensures Texts(a + b) == Texts(a) + Texts(b)
  {
    hide Text;
  }

  // ---------- Placeholders ----------

  function SlotsOf(c: Clause): seq<nat> { if c.Test? then [c.slot] else c.slots }

  function AllSlots(cs: seq<Clause>): seq<nat> {
    if cs == [] then [] else AllSlots(cs[..|cs| - 1]) + SlotsOf(cs[|cs| - 1])
  }

  /** first, first + 1, ..., n numbers in all. */
  ghost predicate Consecutive(slots: seq<nat>, first: nat, n: nat) {
    |slots| == n && forall i :: 0 <= i < n ==> slots[i] == first + i
  }

  lemma ConsecutiveConcat(a: seq<nat>, b: seq<nat>, first: nat, n: nat, m: nat)
    requires Consecutive(a, first, n) && Consecutive(b, first + n, m)
    ensures Consecutive(a + b, first, n + m)
  {
  }

  lemma ClauseSlots(c: Condition, idx: nat)
    ensures Consecutive(AllSlots(ClauseOf(c, idx)), idx, |ArgsOf(c)|)
  {
    hide ListOf, KindOf;
    var cs := ClauseOf(c, idx);
    if cs != [] {
      assert cs[..|cs| - 1] == [];
      assert AllSlots(cs) == [] + SlotsOf(cs[0]);
    }
  }

  lemma {:induction false} SlotsConcat(a: seq<Clause>, b: seq<Clause>)
    ensures AllSlots(a + b) == AllSlots(a) + AllSlots(b)
  {
    hide SlotsOf;
    if b == [] {
      assert a + b == a;
    } else {
      SlotsConcat(a, b[..|b| - 1]);
      assert (a + b)[..|a + b| - 1] == a + b[..|b| - 1];
    }
  }

  lemma ClausesStep(cs: seq<Condition>, start: nat)
    requires cs != []
    ensures var front, c := cs[..|cs| - 1], cs[|cs| - 1];
            && AllArgs(cs) == AllArgs(front) + ArgsOf(c)
            && Clauses(cs, start) == Clauses(front, start) + ClauseOf(c, start + |AllArgs(front)|)
  {
    hide ClauseOf, ArgsOf;
  }

  lemma NoSlots(start: nat)
    ensures Consecutive(AllSlots(Clauses([], start)), start, |AllArgs([])|)
  {
  }

  /** The placeholders of the clauses are argStart, argStart + 1, ..., once each and in order, one per argument. */
  lemma {:induction false} SlotsAreConsecutive(cs: seq<Condition>, start: nat)
    ensures Consecutive(AllSlots(Clauses(cs, start)), start, |AllArgs(cs)|)
  {
    hide ArgsOf, ClauseOf, AllSlots, Consecutive, Clauses, AllArgs;
    if cs == [] {
      NoSlots(start);
    } else {
      var front, c := cs[..|cs| - 1], cs[|cs| - 1];
      var n := |AllArgs(front)|;
      SlotsAreConsecutive(front, start);
      ClausesStep(cs, start);
      ClauseSlots(c, start + n);
      SlotsConcat(Clauses(front, start), ClauseOf(c, start + n));
      ConsecutiveConcat(AllSlots(Clauses(front, start)), AllSlots(ClauseOf(c, start + n)), start, n, |ArgsOf(c)|);
    }
  }

  datatype Tail = Tail(text: string, args: seq<string>, slots: seq<nat>)

  /** buildLimitOffset, with the slots its text names. */
  method BuildLimitOffset(p: Parsed, argStart: nat) returns (text: string, args: seq<string>)
    ensures var t := LimitOffset(p, argStart); text == t.text && args == t.args
  {
    var parts: seq<string> := [];
    args := [];
    var idx := argStart;
    if p.limit != "" {
      parts, args, idx := parts + ["LIMIT $" + Decimal(idx)], args + [p.limit], idx + 1;
    }
    if p.offset != "" {
      parts, args := parts + ["OFFSET $" + Decimal(idx)], args + [p.offset];
    }
    text := Join(parts, " ");
  }

  function LimitOffset(p: Parsed, start: nat): Tail {
    var limit := if p.limit != "" then [start] else [];
    var offset := if p.offset != "" then [start + |limit|] else [];
    Tail(Join((if p.limit != "" then ["LIMIT $" + Decimal(start)] else [])
              + (if p.offset != "" then ["OFFSET $" + Decimal(start + |limit|)] else []), " "),
         (if p.limit != "" then [p.limit] else []) + (if p.offset != "" then [p.offset] else []),
         limit + offset)
  }

  /** GetCtx: across the WHERE clause, LIMIT and OFFSET the placeholders run from $1 to $n, n being
      the number of arguments. */
  lemma QueryPlaceholders(p: Parsed)
    ensures var where := AllArgs(p.conditions);
            var tail := LimitOffset(p, |where| + 1);
            Consecutive(AllSlots(Clauses(p.conditions, 1)) + tail.slots, 1, |where + tail.args|)
  {
    hide AllArgs, Clauses, AllSlots, Join;
    SlotsAreConsecutive(p.conditions, 1);
    var n, tail := |AllArgs(p.conditions)|, LimitOffset(p, |AllArgs(p.conditions)| + 1);
    ConsecutiveConcat(AllSlots(Clauses(p.conditions, 1)), tail.slots, 1, n, |tail.args|);
  }

  // ---------- The other clauses ----------

  function BuildOrder(p: Parsed): string {
    if p.orderCol == "" then ""
    else "ORDER BY " + QuoteIdent(p.orderCol) + " " + (if p.orderDir == "DESC" then "DESC" else "ASC")
  }

  function Quoted(cols: seq<string>): seq<string> { seq(|cols|, i requires 0 <= i < |cols| => QuoteIdent(cols[i])) }

  function TrimmedAll(cols: seq<string>): seq<string> { seq(|cols|, i requires 0 <= i < |cols| => TrimSpace(cols[i])) }

  function SelectList(raw: string): string {
    if raw == "" || raw == "*" then "*" else Join(Quoted(TrimmedAll(Split(raw, ','))), ", ")
  }

  method SelectColumns(raw: string) returns (list: string)
    ensures list == SelectList(raw)
  {
    hide Join, Split, TrimSpace, QuoteIdent;
    if raw == "" || raw == "*" {
      return "*";
    }
    var cols := Split(raw, ',');
    var quoted: seq<string> := [];
    for i := 0 to |cols|
      invariant |quoted| == i && forall j :: 0 <= j < i ==> quoted[j] == QuoteIdent(TrimSpace(cols[j]))
    {
      quoted := quoted + [QuoteIdent(TrimSpace(cols[i]))];
    }
    assert quoted == Quoted(TrimmedAll(cols));
    list := Join(quoted, ", ");
  }

  // ---------- What the clauses select ----------

  /** matches(op, column, text) stands for the database's own comparison of a column of one row with
      an argument; it is only true when the row passes. */
  type Matcher = (Op, string, string) -> bool

  /** The comparison with the argument a placeholder names. */
  predicate SlotMatches(op: Op, column: string, slot: nat, args: seq<string>, start: nat, matches: Matcher) {
    start <= slot < start + |args| && matches(op, column, args[slot - start])
  }

  predicate ClauseHolds(c: Clause, args: seq<string>, start: nat, matches: Matcher) {
    match c
    case Test(column, op, slot) => SlotMatches(op, column, slot, args, start, matches)
    case OneOf(column, slots) => exists i :: 0 <= i < |slots| && SlotMatches(Eq, column, slots[i], args, start, matches)
  }

  predicate Selects(cs: seq<Clause>, args: seq<string>, start: nat, matches: Matcher) {
    forall i :: 0 <= i < |cs| ==> ClauseHolds(cs[i], args, start, matches)
  }

  predicate OneMatches(column: string, values: seq<string>, matches: Matcher) {
    exists i :: 0 <= i < |values| && matches(Eq, column, values[i])
  }

  /** What one builder call asks of a row. */
  predicate CallHolds(c: Call, matches: Matcher) {
    match c
    case Compare(op, column, value) => matches(op, column, value)
    case In(column, values) => OneMatches(column, values, matches)
    case _ => true
  }

  /** What one parsed condition asks of a row. */
  predicate ConditionHolds(c: Condition, matches: Matcher) {
    match KindOf(c.operator)
    case Comparison(op) => matches(op, c.column, c.value)
    case Membership => OneMatches(c.column, ListOf(c.value), matches)
    case Unknown => true
  }

  lemma OneOfMeans(column: string, vals: seq<string>, front: seq<string>, start: nat, matches: Matcher)
    ensures ClauseHolds(OneOf(column, Range(start + |front|, |vals|)), front + vals, start, matches) <==>
            OneMatches(column, vals, matches)
  {
    var args, slots := front + vals, Range(start + |front|, |vals|);
    forall i | 0 <= i < |vals|
      ensures SlotMatches(Eq, column, slots[i], args, start, matches) <==> matches(Eq, column, vals[i]) {
      assert slots[i] - start == |front| + i && args[|front| + i] == vals[i];
    }
  }

  lemma SelectsOne(c: Clause, args: seq<string>, start: nat, matches: Matcher)
    ensures Selects([c], args, start, matches) <==> ClauseHolds(c, args, start, matches)
  {
    assert [c][0] == c;
  }

  lemma SelectsNone(args: seq<string>, start: nat, matches: Matcher)
    ensures Selects([], args, start, matches)
  {
  }

  lemma ClauseOfMeans(c: Condition, front: seq<string>, start: nat, matches: Matcher)
    ensures Selects(ClauseOf(c, start + |front|), front + ArgsOf(c), start, matches) <==> ConditionHolds(c, matches)
  {
    hide ListOf, KindOf, Range, Selects, OneMatches;
    var args, n := front + ArgsOf(c), start + |front|;
    match KindOf(c.operator)
    case Comparison(op) =>
      assert args[|front|] == c.value;
      SelectsOne(Test(c.column, op, n), args, start, matches);
    case Membership =>
      SelectsOne(OneOf(c.column, Range(n, |ListOf(c.value)|)), args, start, matches);
      OneOfMeans(c.column, ListOf(c.value), front, start, matches);
    case Unknown => SelectsNone(args, start, matches);
  }

  ghost predicate SlotsWithin(cs: seq<Clause>, start: nat, n: nat) {
    forall i, j :: 0 <= i < |cs| && 0 <= j < |SlotsOf(cs[i])| ==> start <= SlotsOf(cs[i])[j] < start + n
  }

  /** Later arguments do not change what earlier clauses read. */
  lemma MoreArgs(cs: seq<Clause>, args: seq<string>, more: seq<string>, start: nat, matches: Matcher)
    requires SlotsWithin(cs, start, |args|)
    ensures Selects(cs, args + more, start, matches) <==> Selects(cs, args, start, matches)
  {
    forall i | 0 <= i < |cs| ensures ClauseHolds(cs[i], args + more, start, matches) <==> ClauseHolds(cs[i], args, start, matches) {
      var slots := SlotsOf(cs[i]);
      forall j, op, column | 0 <= j < |slots|
        ensures SlotMatches(op, column, slots[j], args + more, start, matches) <==> SlotMatches(op, column, slots[j], args, start, matches) {
      }
      assert cs[i].Test? ==> slots[0] == cs[i].slot;
    }
  }

  lemma {:induction false} SlotsInRange(cs: seq<Condition>, start: nat)
    ensures SlotsWithin(Clauses(cs, start), start, |AllArgs(cs)|)
  {
    hide ListOf;
    if cs != [] {
      SlotsInRange(cs[..|cs| - 1], start);
    }
  }

  predicate Passes(cs: seq<Condition>, matches: Matcher) {
    forall i :: 0 <= i < |cs| ==> ConditionHolds(cs[i], matches)
  }

  lemma PassesConcat(a: seq<Condition>, b: seq<Condition>, matches: Matcher)
    ensures Passes(a + b, matches) <==> Passes(a, matches) && Passes(b, matches)
  {
    hide ConditionHolds;
    assert forall i :: 0 <= i < |a| ==> (a + b)[i] == a[i];
    assert forall i :: 0 <= i < |b| ==> (a + b)[|a| + i] == b[i];
  }

  lemma PassesOne(c: Condition, matches: Matcher)
    ensures Passes([c], matches) <==> ConditionHolds(c, matches)
  {
    assert [c][0] == c;
  }

  lemma NoClauses(start: nat, matches: Matcher)
    ensures Selects(Clauses([], start), AllArgs([]), start, matches) && Passes([], matches)
  {
  }

  /** The clauses, reading their placeholders from the arguments, hold of exactly the rows the conditions hold of. */
  lemma {:induction false} ClausesMean(cs: seq<Condition>, start: nat, matches: Matcher)
    ensures Selects(Clauses(cs, start), AllArgs(cs), start, matches) <==> Passes(cs, matches)
  {
    hide Selects, Passes, Clauses, AllArgs, ConditionHolds, ArgsOf, ClauseOf, SlotsWithin;
    if cs == [] {
      NoClauses(start, matches);
    } else {
      var last, front := cs[|cs| - 1], cs[..|cs| - 1];
      var clauses, args := Clauses(front, start), AllArgs(front);
      ClausesMean(front, start, matches);
      ClausesStep(cs, start);
      ClauseOfMeans(last, args, start, matches);
      SlotsInRange(front, start);
      MoreArgs(clauses, args, ArgsOf(last), start, matches);
      SelectsConcat(clauses, ClauseOf(last, start + |args|), args + ArgsOf(last), start, matches);
      PassesConcat(front, [last], matches);
      PassesOne(last, matches);
      assert cs == front + [last];
    }
  }

  lemma SelectsConcat(a: seq<Clause>, b: seq<Clause>, args: seq<string>, start: nat, matches: Matcher)
    ensures Selects(a + b, args, start, matches) <==> Selects(a, args, start, matches) && Selects(b, args, start, matches)
  {
    hide ClauseHolds;
    if Selects(a + b, args, start, matches) {
      forall i | 0 <= i < |a| ensures ClauseHolds(a[i], args, start, matches) {
        assert (a + b)[i] == a[i];
      }
      forall i | 0 <= i < |b| ensures ClauseHolds(b[i], args, start, matches) {
        assert (a + b)[|a| + i] == b[i];
      }
    }
  }

  // ---------- The whole pipeline ----------

  /** The list survives the trip when it is nonempty, its values are free of commas, and the joined
      list neither starts nor ends with a parenthesis. */
  ghost predicate ListSurvives(values: seq<string>) {
    && values != [] && (forall i :: 0 <= i < |values| ==> Lacks(values[i], ','))
    && NoOuterParens(Join(values, ","))
  }

  lemma ListReadsBack(values: seq<string>)
    ensures ListOf("(" + Join(values, ",") + ")") == values <==> ListSurvives(values)
  {
    var joined := Join(values, ",");
    TrimWrapped(joined);
    JoinSplit(TrimParens("(" + joined + ")"), ',');
    if ListSurvives(values) {
      SplitJoin(values, ',');
    }
  }

  ghost predicate ListsSurvive(calls: seq<Call>) {
    forall i :: 0 <= i < |calls| && calls[i].In? ==> ListSurvives(calls[i].values)
  }

  function ConditionOf(c: Call): seq<Condition> {
    match c
    case Compare(op, column, value) => [Condition(column, OpName(op), value)]
    case In(column, values) => [Condition(column, "in", "(" + Join(values, ",") + ")")]
    case _ => []
  }

  lemma ConditionOfMeans(c: Call, matches: Matcher)
    requires c.In? ==> ListSurvives(c.values)
    ensures Passes(ConditionOf(c), matches) <==> CallHolds(c, matches)
  {
    hide Join, ListOf, OneMatches;
    match c
    case Compare(op, column, value) =>
      assert KindOf(OpName(op)) == Comparison(op);
      assert ConditionOf(c)[0] == Condition(column, OpName(op), value);
    case In(column, values) =>
      ListReadsBack(values);
      assert ConditionOf(c)[0] == Condition(column, "in", "(" + Join(values, ",") + ")");
    case _ => assert ConditionOf(c) == [];
  }

  lemma ApplyConditions(p: Parsed, c: Call)
    ensures Apply(p, c).conditions == p.conditions + ConditionOf(c)
  {
    hide Join, OpName, Upper;
    assert p.conditions + [] == p.conditions;
  }

  predicate Wanted(calls: seq<Call>, matches: Matcher) {
    forall i :: 0 <= i < |calls| ==> CallHolds(calls[i], matches)
  }

  lemma WantedStep(calls: seq<Call>, matches: Matcher)
    ensures calls != [] ==>
              (Wanted(calls, matches) <==> Wanted(calls[..|calls| - 1], matches) && CallHolds(calls[|calls| - 1], matches))
  {
    hide CallHolds;
    if calls != [] {
      var n := |calls| - 1;
      assert forall i :: 0 <= i < n ==> calls[..n][i] == calls[i];
    }
  }

  lemma {:induction false} ConditionsMean(calls: seq<Call>, matches: Matcher)
    requires ListsSurvive(calls)
    ensures Passes(ApplyAll(NOTHING, calls).conditions, matches) <==> Wanted(calls, matches)
  {
    if calls != [] {
      hide Apply, ConditionOf, CallHolds, ListSurvives, Wanted, Passes;
      var n := |calls| - 1;
      var p, c := ApplyAll(NOTHING, calls[..n]), calls[n];
      ConditionsMean(calls[..n], matches);
      ConditionOfMeans(c, matches);
      ApplyConditions(p, c);
      PassesConcat(p.conditions, ConditionOf(c), matches);
      WantedStep(calls, matches);
    }
  }

  /** Build, parse, compile: the WHERE clause with its arguments selects exactly the rows that satisfy
      every call of the chain. */
  lemma WhereSelectsWhatWasAsked(calls: seq<Call>, start: nat, matches: Matcher)
    requires forall i :: 0 <= i < |calls| ==> WellFormed(calls[i])
    requires ListsSurvive(calls)
    ensures var cs := Parse(Built(calls)).conditions;
            Selects(Clauses(cs, start), AllArgs(cs), start, matches) <==> Wanted(calls, matches)
  {
    hide ApplyAll, Parse, Built, Selects, Clauses, AllArgs, Wanted, Passes, WellFormed, ListsSurvive;
    ParseUndoesBuild(calls);
    ConditionsMean(calls, matches);
    ClausesMean(ApplyAll(NOTHING, calls).conditions, start, matches);
  }

  lemma ParsedIn(column: string, values: seq<string>)
    requires PlainColumn(column) && forall i :: 0 <= i < |values| ==> Octets(values[i])
    ensures Parse(Built([In(column, values)])).conditions == [Condition(column, "in", "(" + Join(values, ",") + ")")]
  {
    hide Join, Parse, Built, PlainColumn;
    var call := In(column, values);
    ParseUndoesBuild([call]);
    assert [call][..0] == [] && [call][0] == call;
    ApplyConditions(NOTHING, call);
  }

  /** A lone In call binds its own values as arguments exactly when its list survives: an empty list
      binds one empty string, and commas or outer parentheses in the values shift the list. */
  lemma ListArgsExactly(column: string, values: seq<string>)
    requires PlainColumn(column) && forall i :: 0 <= i < |values| ==> Octets(values[i])
    ensures AllArgs(Parse(Built([In(column, values)])).conditions) == values <==> ListSurvives(values)
  {
    hide Join, Parse, Built, PlainColumn, ListSurvives, ListOf;
    var c := Condition(column, "in", "(" + Join(values, ",") + ")");
    ParsedIn(column, values);
    ListReadsBack(values);
    AllArgsOne(c);
  }

  lemma AllArgsOne(c: Condition)
    ensures c.operator == "in" ==> AllArgs([c]) == ListOf(c.value)
  {
    hide ListOf;
    assert [c][..0] == [] && AllArgs([]) == [];
  }
}
