/** Text keys built from UUIDs: the response-cache key and the canonical key of a set of user ids. */
module UuidKey {
  import opened InsertionSort

  type Uuid = u: seq<nat> | |u| == 16 && forall i :: 0 <= i < 16 ==> u[i] < 256
    witness [0, 0, 0, 0, 0, 0, 0, 0, 0, 0, 0, 0, 0, 0, 0, 0]

  // ---------- The 36-character text of a UUID ----------

  function LowerHex(n: nat): (c: char)
    requires n < 16
    ensures c != '-' && c != ',' && c != '|'
  {
    if n < 10 then '0' + n as char else 'a' + (n - 10) as char
  }

  predicate DashAt(i: nat) { i == 8 || i == 13 || i == 18 || i == 23 }

  /** The hex digit shown at a position that holds no dash. */
  function DigitAt(i: nat): nat {
    if i < 8 then i else if i < 13 then i - 1 else if i < 18 then i - 2 else if i < 23 then i - 3 else i - 4
  }

  /** Where hex digit d is shown. */
  function Shown(d: nat): nat {
    if d < 8 then d else if d < 12 then d + 1 else if d < 16 then d + 2 else if d < 20 then d + 3 else d + 4
  }

  function Nibble(u: Uuid, d: nat): nat
    requires d < 32
  {
    if d % 2 == 0 then u[d / 2] / 16 else u[d / 2] % 16
  }

  function CharAt(u: Uuid, i: nat): char
    requires i < 36
  {
    if DashAt(i) then '-' else LowerHex(Nibble(u, DigitAt(i)))
  }

  function Text(u: Uuid): string { seq(36, i requires 0 <= i < 36 => CharAt(u, i)) }

  lemma LowerHexInjective(m: nat, n: nat)
    requires m < 16 && n < 16 && LowerHex(m) == LowerHex(n)
    ensures m == n
  {
  }

  lemma SameNibble(u: Uuid, v: Uuid, d: nat)
    requires d < 32 && Text(u) == Text(v)
    ensures Nibble(u, d) == Nibble(v, d)
  {
    var i := Shown(d);
    assert !DashAt(i) && DigitAt(i) == d && Text(u)[i] == Text(v)[i];
    LowerHexInjective(Nibble(u, d), Nibble(v, d));
  }

  /** Different UUIDs have different texts. */
  lemma TextInjective(u: Uuid, v: Uuid)
    requires Text(u) == Text(v)
    ensures u == v
  {
    hide Text;
    forall k | 0 <= k < 16 ensures u[k] == v[k] {
      SameNibble(u, v, 2 * k);
      SameNibble(u, v, 2 * k + 1);
    }
  }

  lemma TextPlain(u: Uuid)
    ensures |Text(u)| == 36 && ',' !in Text(u) && '|' !in Text(u)
  {
  }

  const DIGITS := "0123456789abcdef"

  /** Bytes a to b - 1 as lower-case hexadecimal digits, the high half of each byte first. */
  function HexOf(u: Uuid, a: nat, b: nat): (s: string)
    requires a <= b <= 16
    ensures |s| == 2 * (b - a)
    decreases b - a
  {
    if a == b then "" else [DIGITS[u[a] / 16], DIGITS[u[a] % 16]] + HexOf(u, a + 1, b)
  }

  lemma {:induction false} HexAt(u: Uuid, a: nat, b: nat, j: nat)
    requires a <= b <= 16 && j < 2 * (b - a)
    ensures HexOf(u, a, b)[j] == LowerHex(Nibble(u, 2 * a + j))
    decreases b - a
  {
    if j >= 2 {
      HexAt(u, a + 1, b, j - 2);
    } else {
      DigitIs(u[a] / 16);
      DigitIs(u[a] % 16);
    }
  }

  lemma DigitIs(n: nat)
    requires n < 16
    ensures DIGITS[n] == LowerHex(n)
  {
  }

  /** The text is the format of RFC 9562, section 4: 4, 2, 2, 2 and 6 bytes in hexadecimal between dashes. */
  lemma TextIsStandard(u: Uuid)
    ensures Text(u) == HexOf(u, 0, 4) + "-" + HexOf(u, 4, 6) + "-" + HexOf(u, 6, 8) + "-" + HexOf(u, 8, 10) + "-" + HexOf(u, 10, 16)
  {
    hide HexOf, LowerHex, Nibble;
    var s := HexOf(u, 0, 4) + "-" + HexOf(u, 4, 6) + "-" + HexOf(u, 6, 8) + "-" + HexOf(u, 8, 10) + "-" + HexOf(u, 10, 16);
    forall i | 0 <= i < 36 ensures CharAt(u, i) == s[i] {
      if i < 8 {
        HexAt(u, 0, 4, i);
      } else if 8 < i < 13 {
        HexAt(u, 4, 6, i - 9);
      } else if 13 < i < 18 {
        HexAt(u, 6, 8, i - 14);
      } else if 18 < i < 23 {
        HexAt(u, 8, 10, i - 19);
      } else if 23 < i {
        HexAt(u, 10, 16, i - 24);
      }
    }
  }

  // ---------- Key.String of the response cache ----------

  datatype Key = Key(budgetID: Uuid, userID: Uuid, tag: string)

  function KeyText(k: Key): string { Text(k.budgetID) + "|" + Text(k.userID) + "|" + k.tag }

  /** The budget, the user and the tag stand in this order between bars. */
  lemma KeyTextLayout(k: Key)
    ensures var s := KeyText(k);
            |s| == 74 + |k.tag| && s[..36] == Text(k.budgetID) && s[36] == s[73] == '|' && s[37..73] == Text(k.userID) && s[74..] == k.tag
  {
    hide Text;
    TextPlain(k.budgetID);
    TextPlain(k.userID);
  }

  /** No two cache keys share a text, whatever their tags contain. */
  lemma KeyTextInjective(k: Key, m: Key)
    requires KeyText(k) == KeyText(m)
    ensures k == m
  {
    hide Text;
    KeyTextLayout(k);
    KeyTextLayout(m);
    TextInjective(k.budgetID, m.budgetID);
    TextInjective(k.userID, m.userID);
  }

  // ---------- Byte order ----------

  predicate LessFrom(a: Uuid, b: Uuid, i: nat)
    requires i <= 16
    decreases 16 - i
  {
    if i == 16 then false else if a[i] != b[i] then a[i] < b[i] else LessFrom(a, b, i + 1)
  }

  predicate UuidLess(a: Uuid, b: Uuid) { LessFrom(a, b, 0) }

  method IsUuidLess(a: Uuid, b: Uuid) returns (less: bool)
    ensures less == UuidLess(a, b)
  {
    for i := 0 to 16
      invariant LessFrom(a, b, 0) == LessFrom(a, b, i)
    {
      if a[i] != b[i] {
        return a[i] < b[i];
      }
    }
    return false;
  }

  lemma {:induction false} LessIrreflexive(a: Uuid, i: nat)
    requires i <= 16
    ensures !LessFrom(a, a, i)
    decreases 16 - i
  {
    if i < 16 {
      LessIrreflexive(a, i + 1);
    }
  }

  lemma {:induction false} LessTransitive(a: Uuid, b: Uuid, c: Uuid, i: nat)
    requires i <= 16
    ensures LessFrom(a, b, i) && LessFrom(b, c, i) ==> LessFrom(a, c, i)
    ensures !LessFrom(a, b, i) && !LessFrom(b, c, i) ==> !LessFrom(a, c, i)
    decreases 16 - i
  {
    if i < 16 {
      LessTransitive(a, b, c, i + 1);
    }
  }

  lemma {:induction false} LessTotal(a: Uuid, b: Uuid, i: nat)
    requires i <= 16 && !LessFrom(a, b, i) && !LessFrom(b, a, i)
    ensures forall k :: i <= k < 16 ==> a[k] == b[k]
    decreases 16 - i
  {
    if i < 16 {
      LessTotal(a, b, i + 1);
    }
  }

  lemma {:induction false} LessAt(a: Uuid, b: Uuid, i: nat) returns (k: nat)
    requires i <= 16 && LessFrom(a, b, i)
    ensures i <= k < 16 && a[i..k] == b[i..k] && a[k] < b[k]
    decreases 16 - i
  {
    k := i;
    if a[i] == b[i] {
      k := LessAt(a, b, i + 1);
      assert a[i..k] == [a[i]] + a[i + 1..k] && b[i..k] == [b[i]] + b[i + 1..k];
    }
  }

  lemma {:induction false} AtLess(a: Uuid, b: Uuid, i: nat, k: nat)
    requires i <= k < 16 && a[i..k] == b[i..k] && a[k] < b[k]
    ensures LessFrom(a, b, i)
    decreases 16 - i
  {
    if i < k {
      assert a[i] == a[i..k][0] && b[i] == b[i..k][0];
      assert a[i + 1..k] == a[i..k][1..] && b[i + 1..k] == b[i..k][1..];
      AtLess(a, b, i + 1, k);
    }
  }

  /** The smaller UUID has the smaller byte where the two first differ. */
  lemma LessExactly(a: Uuid, b: Uuid)
    ensures UuidLess(a, b) <==> exists k :: 0 <= k < 16 && a[..k] == b[..k] && a[k] < b[k]
  {
    hide LessFrom;
    if UuidLess(a, b) {
      var k := LessAt(a, b, 0);
      assert a[0..k] == a[..k] && b[0..k] == b[..k];
    }
    if k :| 0 <= k < 16 && a[..k] == b[..k] && a[k] < b[k] {
      assert a[0..k] == a[..k] && b[0..k] == b[..k];
      AtLess(a, b, 0, k);
    }
  }

  lemma LessIsStrictTotal()
    ensures StrictWeak(UuidLess)
    ensures Total(UuidLess)
  {
    hide LessFrom;
    forall a: Uuid ensures !UuidLess(a, a) {
      LessIrreflexive(a, 0);
    }
    forall a: Uuid, b: Uuid, c: Uuid
      ensures UuidLess(a, b) && UuidLess(b, c) ==> UuidLess(a, c)
      ensures !UuidLess(a, b) && !UuidLess(b, c) ==> !UuidLess(a, c) {
      LessTransitive(a, b, c, 0);
    }
    forall a: Uuid, b: Uuid | !UuidLess(a, b) && !UuidLess(b, a) ensures a == b {
      LessTotal(a, b, 0);
    }
  }

  // ---------- The key of a set of ids ----------

  ghost predicate Total<T(!new)>(before: Order<T>) {
    forall a, b :: !before(a, b) && !before(b, a) ==> a == b
  }

  lemma SameLast<T(!new)>(s: seq<T>, t: seq<T>, before: Order<T>)
    requires Total(before) && (forall x :: !before(x, x))
    requires Ordered(s, before) && Ordered(t, before) && multiset(s) == multiset(t) && |s| == |t| > 0
    ensures s[|s| - 1] == t[|t| - 1]
  {
    var n := |s| - 1;
    assert s[n] in multiset(t) && t[n] in multiset(s);
    var i :| 0 <= i < |t| && t[i] == s[n];
    var j :| 0 <= j < |s| && s[j] == t[n];
    assert !before(t[n], t[i]) && !before(s[n], s[j]);
  }

  lemma Front<T(!new)>(s: seq<T>, before: Order<T>)
    requires s != [] && Ordered(s, before)
    ensures Ordered(s[..|s| - 1], before) && multiset(s[..|s| - 1]) == multiset(s) - multiset{s[|s| - 1]}
    ensures s == s[..|s| - 1] + [s[|s| - 1]]
  {
    assert s == s[..|s| - 1] + [s[|s| - 1]];
  }

  /** Under a strict total order, two ordered lists of the same elements are the same list. */
  lemma {:induction false} OrderIsUnique<T(!new)>(s: seq<T>, t: seq<T>, before: Order<T>)
    requires Total(before) && (forall x :: !before(x, x))
    requires Ordered(s, before) && Ordered(t, before) && multiset(s) == multiset(t)
    ensures s == t
  {
    hide Ordered, Total;
    assert |s| == |multiset(s)| && |t| == |multiset(t)|;
    if s != [] {
      SameLast(s, t, before);
      Front(s, before);
      Front(t, before);
      OrderIsUnique(s[..|s| - 1], t[..|t| - 1], before);
    }
  }

  function Joined(ids: seq<Uuid>): string {
    if ids == [] then ""
    else if |ids| == 1 then Text(ids[0])
    else Joined(ids[..|ids| - 1]) + "," + Text(ids[|ids| - 1])
  }

  lemma {:induction false} JoinedLength(ids: seq<Uuid>)
    ensures |Joined(ids)| == if ids == [] then 0 else 37 * |ids| - 1
  {
    if |ids| > 1 {
      JoinedLength(ids[..|ids| - 1]);
    }
  }

  lemma {:induction false} JoinedInjective(s: seq<Uuid>, t: seq<Uuid>)
    requires Joined(s) == Joined(t)
    ensures s == t
  {
    hide Text;
    JoinedLength(s);
    JoinedLength(t);
    if s != [] {
      var n, text := |s| - 1, Joined(s);
      TextPlain(s[n]);
      TextPlain(t[n]);
      assert text[|text| - 36..] == Text(s[n]) && text[|text| - 36..] == Text(t[n]);
      TextInjective(s[n], t[n]);
      if n > 0 {
        assert text[..|text| - 37] == Joined(s[..n]) && text[..|text| - 37] == Joined(t[..n]);
        JoinedInjective(s[..n], t[..n]);
      }
      assert s == s[..n] + [s[n]] && t == t[..n] + [t[n]];
    }
  }

  lemma {:induction false} JoinedAt(ids: seq<Uuid>, k: nat)
    requires k < |ids|
    ensures |Joined(ids)| == 37 * |ids| - 1 && Joined(ids)[37 * k..37 * k + 36] == Text(ids[k])
    ensures k > 0 ==> Joined(ids)[37 * k - 1] == ','
  {
    hide Text;
    JoinedLength(ids);
    var n := |ids| - 1;
    TextPlain(ids[n]);
    if k < n {
      JoinedAt(ids[..n], k);
      assert Joined(ids)[37 * k..37 * k + 36] == Joined(ids[..n])[37 * k..37 * k + 36];
    } else if n > 0 {
      JoinedLength(ids[..n]);
    }
  }

  /** The key shows the ids in ascending order, each once, between commas. */
  lemma KeyLayout(order: seq<Uuid>, ids: set<Uuid>) returns (list: seq<Uuid>)
    requires Enumerates(order, ids)
    ensures multiset(list) == multiset(ids) && forall i, j :: 0 <= i < j < |list| ==> UuidLess(list[i], list[j])
    ensures |KeyOfOrder(order)| == if list == [] then 0 else 37 * |list| - 1
    ensures forall k :: 0 <= k < |list| ==> KeyOfOrder(order)[37 * k..37 * k + 36] == Text(list[k])
    ensures forall k :: 0 < k < |list| ==> KeyOfOrder(order)[37 * k - 1] == ','
  {
    hide Text, Joined, UuidLess;
    LessIsStrictTotal();
    SortedIsSort(order, UuidLess);
    list := Sorted(order, UuidLess);
    JoinedLength(list);
    forall k | 0 <= k < |list|
      ensures Joined(list)[37 * k..37 * k + 36] == Text(list[k]) && (k > 0 ==> Joined(list)[37 * k - 1] == ',') {
      JoinedAt(list, k);
    }
    forall i, j | 0 <= i < j < |list| ensures UuidLess(list[i], list[j]) {
      if list[i] == list[j] {
        OnceInSet(list, ids, i, j);
      }
    }
  }

  lemma OnceInSet(list: seq<Uuid>, ids: set<Uuid>, i: nat, j: nat)
    requires multiset(list) == multiset(ids) && i < j < |list|
    ensures list[i] != list[j]
  {
    if list[i] == list[j] {
      TwiceInList(list, i, j);
    }
  }

  lemma TwiceInList(list: seq<Uuid>, i: nat, j: nat)
    requires i < j < |list| && list[i] == list[j]
    ensures multiset(list)[list[i]] >= 2
  {
    assert list == list[..j] + list[j..] && list[i] in list[..j] && list[j] in list[j..];
  }

  /** Every id of the set once, in some order of iteration. */
  ghost predicate Enumerates(order: seq<Uuid>, ids: set<Uuid>) {
    multiset(order) == multiset(ids)
  }

  function KeyOfOrder(order: seq<Uuid>): string { Joined(Sorted(order, UuidLess)) }

  /** The map iteration may yield the ids in any order. */
  method SortedUuidsKey(ids: set<Uuid>) returns (key: string)
    ensures forall order :: Enumerates(order, ids) ==> key == KeyOfOrder(order)
  {
    hide Joined, UuidLess;
    var list := Collect(ids);
    var arr := new Uuid[|list|](i requires 0 <= i < |list| => list[i]);
    assert arr[..] == list;
    Sort(arr, UuidLess);
    key := JoinTexts(arr);
    forall order | Enumerates(order, ids) ensures key == KeyOfOrder(order) {
      AnyOrderSameKey(list, order);
    }
  }

  method Collect(ids: set<Uuid>) returns (list: seq<Uuid>)
    ensures Enumerates(list, ids)
  {
    list := [];
    var pending := ids;
    while pending != {}
      invariant pending <= ids && multiset(list) + multiset(pending) == multiset(ids)
    {
      var id :| id in pending;
      list, pending := list + [id], pending - {id};
    }
  }

  method JoinTexts(arr: array<Uuid>) returns (key: string)
    ensures key == Joined(arr[..])
  {
    hide Text;
    key := "";
    for i := 0 to arr.Length
      invariant key == Joined(arr[..i])
    {
      assert arr[..i + 1][..i] == arr[..i];
      if i > 0 {
        key := key + ",";
      }
      key := key + Text(arr[i]);
    }
    assert arr[..arr.Length] == arr[..];
  }

  lemma AnyOrderSameKey(order: seq<Uuid>, other: seq<Uuid>)
    requires multiset(order) == multiset(other)
    ensures KeyOfOrder(order) == KeyOfOrder(other)
  {
    hide Joined, UuidLess;
    LessIsStrictTotal();
    SortedIsSort(order, UuidLess);
    SortedIsSort(other, UuidLess);
    OrderIsUnique(Sorted(order, UuidLess), Sorted(other, UuidLess), UuidLess);
  }

  /** The key is canonical and injective: iteration orders give the same key exactly if they enumerate
      the same ids. */
  lemma KeyIdentifiesSet(order: seq<Uuid>, ids: set<Uuid>, other: seq<Uuid>, others: set<Uuid>)
    requires Enumerates(order, ids) && Enumerates(other, others)
    ensures KeyOfOrder(order) == KeyOfOrder(other) <==> ids == others
  {
    hide Joined, UuidLess;
    if ids == others {
      AnyOrderSameKey(order, other);
    }
    if KeyOfOrder(order) == KeyOfOrder(other) {
      LessIsStrictTotal();
      JoinedInjective(Sorted(order, UuidLess), Sorted(other, UuidLess));
      SortedIsSort(order, UuidLess);
      SortedIsSort(other, UuidLess);
      assert multiset(ids) == multiset(others);
      assert forall u :: u in ids <==> u in multiset(ids);
      assert forall u :: u in others <==> u in multiset(others);
    }
  }
}
