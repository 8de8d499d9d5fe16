/** The allocation ceiling of one budget: amounts arrive as real numbers of the currency, the columns
    hold whole cents, and no sequence of requests lets the allocations exceed the income. */
module Allocation {
  import opened SummaryRequests

  // ---------- Cents ----------

  /** Rounding half away from zero, as both math.Round and NUMERIC(18,2) do. */
  function Round(x: real): int { if x >= 0.0 then (x + 0.5).Floor else -(-x + 0.5).Floor }

  function ToCents(amount: real): int { Round(amount * 100.0) }

  function FromCents(cents: int): real { cents as real / 100.0 }

  lemma RoundBelow(x: real, n: int)
    ensures x <= n as real ==> Round(x) <= n
    ensures x >= n as real ==> Round(x) >= n
  {
  }

  /** Rounding goes to the nearest whole number, and halves away from zero. */
  lemma RoundIsNearest(x: real)
    ensures x - 0.5 <= Round(x) as real <= x + 0.5
    ensures x >= 0.0 ==> Round(x) as real > x - 0.5
    ensures x < 0.0 ==> (Round(x) as real) < x + 0.5
  {
  }

  /** A column's cents are within half a cent of the amount, and stand for their own hundredth. */
  lemma CentsAreNearest(amount: real, cents: int)
    ensures amount * 100.0 - 0.5 <= ToCents(amount) as real <= amount * 100.0 + 0.5
    ensures amount >= 0.0 ==> ToCents(amount) as real > amount * 100.0 - 0.5
    ensures FromCents(cents) * 100.0 == cents as real
  {
    RoundIsNearest(amount * 100.0);
  }

  lemma RoundShift(x: real, n: nat)
    requires x >= n as real
    ensures Round(x - n as real) == Round(x) - n
  {
    var y := x - n as real + 0.5;
    assert y.Floor as real <= y < y.Floor as real + 1.0;
    assert (x + 0.5).Floor == y.Floor + n;
  }

  // ---------- Templates ----------

  datatype Guided = Guided(name: string, percent: real, sortOrder: int)

  function BalancedCategories(): seq<Guided> {
    [Guided("Vivienda", 22.5, 1), Guided("Comida", 12.5, 2), Guided("Transporte", 9.0, 3), Guided("Servicios", 6.0, 4),
     Guided("Salidas", 15.0, 5), Guided("Entretenimiento", 15.0, 6), Guided("Tarjetas", 5.0, 7),
     Guided("Préstamos", 5.0, 8), Guided("Fondo de emergencia", 5.0, 9), Guided("Inversión", 5.0, 10)]
  }

  function DebtFreeCategories(): seq<Guided> {
    [Guided("Vivienda", 22.5, 1), Guided("Comida", 12.5, 2), Guided("Transporte", 9.0, 3), Guided("Servicios", 6.0, 4),
     Guided("Salidas", 15.0, 5), Guided("Entretenimiento", 15.0, 6), Guided("Fondo de emergencia", 10.0, 7),
     Guided("Inversión", 10.0, 8)]
  }

  function DebtPayoffCategories(): seq<Guided> {
    [Guided("Vivienda", 22.5, 1), Guided("Comida", 12.5, 2), Guided("Transporte", 9.0, 3), Guided("Servicios", 6.0, 4),
     Guided("Salidas", 10.0, 5), Guided("Entretenimiento", 10.0, 6), Guided("Tarjetas", 15.0, 7),
     Guided("Préstamos", 15.0, 8)]
  }

  function TravelCategories(): seq<Guided> {
    [Guided("Vuelos", 30.0, 1), Guided("Hospedaje", 30.0, 2), Guided("Comida", 16.0, 3), Guided("Actividades", 14.0, 4),
     Guided("Transporte local", 10.0, 5)]
  }

  function EventCategories(): seq<Guided> {
    [Guided("Comida", 50.0, 1), Guided("Bebidas", 30.0, 2), Guided("Decoración", 8.0, 3), Guided("Logística", 12.0, 4)]
  }

  datatype Mode = Manual | Balanced | DebtFree | DebtPayoff | Travel | Event

  /** Only guided modes seed categories; the default arm is the balanced template. */
  function CategoriesForMode(mode: Mode): seq<Guided> {
    match mode
    case Balanced => BalancedCategories()
    case DebtFree => DebtFreeCategories()
    case DebtPayoff => DebtPayoffCategories()
    case Travel => TravelCategories()
    case Event => EventCategories()
    case Manual => BalancedCategories()
  }

  /** The percentages from entry i on. */
  function PercentFrom(ts: seq<Guided>, i: nat): real
    requires i <= |ts|
    decreases |ts| - i
  {
    if i == |ts| then 0.0 else ts[i].percent + PercentFrom(ts, i + 1)
  }

  ghost predicate FullTemplate(ts: seq<Guided>) {
    0 < |ts| <= MAX_CATEGORIES && PercentFrom(ts, 0) == 100.0 && forall i :: 0 <= i < |ts| ==> ts[i].percent >= 0.0
  }

  lemma TemplatesAreFull(mode: Mode)
    ensures FullTemplate(CategoriesForMode(mode))
  {
  }

  /** What the entries from i up to j take together. */
  function Section(ts: seq<Guided>, i: nat, j: nat): real
    requires i <= j <= |ts|
  {
    PercentFrom(ts, i) - PercentFrom(ts, j)
  }

  /** The sections that the templates were flattened from: 50/30/10/10, 50/30/20, 50/20/30, 30/30/40 and 50/30/20. */
  lemma TemplateSections()
    ensures var ts := CategoriesForMode(Balanced);
            |ts| == 10 && Section(ts, 0, 4) == 50.0 && Section(ts, 4, 6) == 30.0 && Section(ts, 6, 8) == 10.0 && Section(ts, 8, 10) == 10.0
    ensures var ts := CategoriesForMode(DebtFree);
            |ts| == 8 && Section(ts, 0, 4) == 50.0 && Section(ts, 4, 6) == 30.0 && Section(ts, 6, 8) == 20.0
    ensures var ts := CategoriesForMode(DebtPayoff);
            |ts| == 8 && Section(ts, 0, 4) == 50.0 && Section(ts, 4, 6) == 20.0 && Section(ts, 6, 8) == 30.0
    ensures var ts := CategoriesForMode(Travel);
            |ts| == 5 && Section(ts, 0, 1) == 30.0 && Section(ts, 1, 2) == 30.0 && Section(ts, 2, 5) == 40.0
    ensures var ts := CategoriesForMode(Event);
            |ts| == 4 && Section(ts, 0, 1) == 50.0 && Section(ts, 1, 2) == 30.0 && Section(ts, 2, 4) == 20.0
    ensures CategoriesForMode(Manual) == CategoriesForMode(Balanced)
  {
  }

  // ---------- Seeding ----------

  function Share(percent: real, income: real): int { (percent / 100.0 * income * 100.0).Floor }

  /** The cents seeded from entry i on, after `taken` cents: shares rounded down, the last entry
      taking what is left of the income. */
  function SeedFrom(ts: seq<Guided>, i: nat, income: real, taken: int): seq<int>
    requires i <= |ts|
    decreases |ts| - i
  {
    if i == |ts| then []
    else
      var rest := Round((income - FromCents(taken)) * 100.0);
      var cents := if i == |ts| - 1 then (if rest < 0 then 0 else rest) else Share(ts[i].percent, income);
      [cents] + SeedFrom(ts, i + 1, income, taken + cents)
  }

  function Sum(s: seq<int>): int { if s == [] then 0 else s[0] + Sum(s[1..]) }

  /** What was taken and the remaining percentages fit into the income. */
  ghost predicate Fits(taken: int, percent: real, income: real) {
    taken as real + percent * income <= 100.0 * income
  }

  lemma ShareFits(taken: int, p: real, q: real, income: real)
    requires p >= 0.0 && income >= 0.0 && Fits(taken, p + q, income)
    ensures Share(p, income) >= 0 && Fits(taken + Share(p, income), q, income)
  {
    var x := p / 100.0 * income * 100.0;
    assert x == p * income;
    assert (p + q) * income == p * income + q * income;
    assert p * income >= 0.0;
  }

  lemma SeedStep(ts: seq<Guided>, i: nat, income: real, taken: int) returns (cents: int)
    requires i < |ts|
    ensures SeedFrom(ts, i, income, taken) == [cents] + SeedFrom(ts, i + 1, income, taken + cents)
    ensures i < |ts| - 1 ==> cents == Share(ts[i].percent, income)
    ensures i == |ts| - 1 ==> SeedFrom(ts, i, income, taken) == [cents]
    ensures i == |ts| - 1 ==> var rest := Round((income - FromCents(taken)) * 100.0); cents == if rest < 0 then 0 else rest
  {
    hide Round, FromCents;
    var rest := Round((income - FromCents(taken)) * 100.0);
    cents := if i == |ts| - 1 then (if rest < 0 then 0 else rest) else Share(ts[i].percent, income);
  }

  lemma SumCons(x: int, s: seq<int>)
    ensures Sum([x] + s) == x + Sum(s)
  {
    assert ([x] + s)[1..] == s;
  }

  lemma SumOne(x: int)
    ensures Sum([x]) == x
  {
    assert [x][1..] == [];
  }

  lemma {:induction false} SeedFromSums(ts: seq<Guided>, i: nat, income: real, taken: nat)
    requires i < |ts| && income >= 0.0 && forall j :: 0 <= j < |ts| ==> ts[j].percent >= 0.0
    requires Fits(taken, PercentFrom(ts, i), income)
    ensures taken + Sum(SeedFrom(ts, i, income, taken)) == ToCents(income)
    ensures |SeedFrom(ts, i, income, taken)| == |ts| - i
    ensures forall j :: 0 <= j < |ts| - i ==> SeedFrom(ts, i, income, taken)[j] >= 0
    decreases |ts| - i
  {
    hide Fits, Share, SeedFrom, Sum, Round, ToCents, FromCents;
    PercentNonnegative(ts, i);
    var cents := SeedStep(ts, i, income, taken);
    if i == |ts| - 1 {
      LastShare(income, taken, PercentFrom(ts, i));
      SumOne(cents);
    } else {
      ShareFits(taken, ts[i].percent, PercentFrom(ts, i + 1), income);
      SeedFromSums(ts, i + 1, income, taken + cents);
      SumCons(cents, SeedFrom(ts, i + 1, income, taken + cents));
    }
  }

  lemma LastShare(income: real, taken: nat, p: real)
    requires income >= 0.0 && p >= 0.0 && Fits(taken, p, income)
    ensures Round((income - FromCents(taken)) * 100.0) == ToCents(income) - taken >= 0
  {
    assert p * income >= 0.0;
    var x := income * 100.0;
    assert (income - FromCents(taken)) * 100.0 == x - taken as real;
    RoundShift(x, taken);
    RoundBelow(x, taken);
  }

  lemma {:induction false} PercentNonnegative(ts: seq<Guided>, i: nat)
    requires i <= |ts| && forall j :: 0 <= j < |ts| ==> ts[j].percent >= 0.0
    ensures PercentFrom(ts, i) >= 0.0
    decreases |ts| - i
  {
    if i < |ts| {
      PercentNonnegative(ts, i + 1);
    }
  }

  lemma ShareIsFloor(percent: real, income: real)
    ensures Share(percent, income) as real <= percent * income < Share(percent, income) as real + 1.0
  {
    assert percent / 100.0 * income * 100.0 == percent * income;
  }

  lemma {:induction false} SeedAt(ts: seq<Guided>, i: nat, income: real, taken: int, j: nat)
    requires i + j < |ts| - 1
    ensures |SeedFrom(ts, i, income, taken)| > j && SeedFrom(ts, i, income, taken)[j] == Share(ts[i + j].percent, income)
    decreases j
  {
    hide SeedFrom, Share, Round, FromCents;
    var cents := SeedStep(ts, i, income, taken);
    if j > 0 {
      SeedAt(ts, i + 1, income, taken + cents, j - 1);
    }
  }

  /** Seeding a full template gives one nonnegative amount per entry, each but the last its own percentage of
      the income rounded down to the cent, and they add up to exactly the income as the budget row stores it. */
  lemma SeedAddsUp(ts: seq<Guided>, income: real)
    requires FullTemplate(ts) && income >= 0.0
    ensures var seeded := SeedFrom(ts, 0, income, 0);
            && |seeded| == |ts| && Sum(seeded) == ToCents(income)
            && (forall i :: 0 <= i < |seeded| ==> seeded[i] >= 0)
            && forall i :: 0 <= i < |seeded| - 1 ==> seeded[i] as real <= ts[i].percent * income < seeded[i] as real + 1.0
  {
    hide Share, SeedFrom, Round, ToCents, Sum;
    SeedFromSums(ts, 0, income, 0);
    forall i | 0 <= i < |ts| - 1
      ensures var cents := SeedFrom(ts, 0, income, 0)[i] as real; cents <= ts[i].percent * income < cents + 1.0 {
      SeedAt(ts, 0, income, 0, i);
      ShareIsFloor(ts[i].percent, income);
    }
  }

  /** The loop over the template with its running total, in currency units as the code computes it. */
  method SeedGuidedCategories(ts: seq<Guided>, income: real) returns (values: array<real>)
    ensures values.Length == |ts|
    ensures |SeedFrom(ts, 0, income, 0)| == |ts|
    ensures forall i :: 0 <= i < |ts| ==> values[i] == FromCents(SeedFrom(ts, 0, income, 0)[i])
  {
    hide SeedFrom, Round, FromCents;
    values := new real[|ts|];
    CentsAdd(0, 0);
    var taken := 0.0;
    ghost var cents, done := 0, [];
    for i := 0 to |ts|
      invariant taken == FromCents(cents) && |done| == i
      invariant SeedFrom(ts, 0, income, 0) == done + SeedFrom(ts, i, income, cents)
      invariant forall j :: 0 <= j < i ==> values[j] == FromCents(done[j])
    {
      ghost var n := SeedStep(ts, i, income, cents);
      var catValue: real;
      if i == |ts| - 1 {
        CentsAdd(0, Round((income - taken) * 100.0));
        catValue := FromCents(Round((income - taken) * 100.0));
        if catValue < 0.0 {
          catValue := 0.0;
        }
      } else {
        catValue := FromCents((ts[i].percent / 100.0 * income * 100.0).Floor);
      }
      CentsAdd(cents, n);
      taken := taken + catValue;
      values[i] := catValue;
      cents, done := cents + n, done + [n];
    }
    SeedEnd(ts, income, cents);
  }

  lemma SeedEnd(ts: seq<Guided>, income: real, taken: int)
    ensures SeedFrom(ts, |ts|, income, taken) == []
  {
  }

  lemma CentsAdd(m: int, n: int)
    ensures FromCents(m) + FromCents(n) == FromCents(m + n)
    ensures FromCents(n) < 0.0 <==> n < 0
    ensures FromCents(0) == 0.0
  {
  }
}
