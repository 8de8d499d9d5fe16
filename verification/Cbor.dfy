/** The hand-written CBOR readers and encoders of the captcha package (RFC 8949, section 3.1),
    and the proof that the skipper accepts exactly the encodings of major types 0 to 5. */
module Cbor {
  import opened Wrappers

  type byte = x: int | 0 <= x < 256
  type Bytes = seq<byte>

  const MAX_TEXT: nat := 64

  function Major(b: byte): nat { b / 32 }

  datatype Head = Head(arg: nat, next: nat)
  datatype Payload = Payload(data: Bytes, next: nat)

  function U16(b: Bytes, i: nat): nat
    requires i + 2 <= |b|
  {
    b[i] as nat * 0x100 + b[i + 1]
  }

  function U32(b: Bytes, i: nat): nat
    requires i + 4 <= |b|
  {
    U16(b, i) * 0x1_0000 + U16(b, i + 2)
  }

  // ---------- Readers: a slice b[off:] of the buffer is the pair (b, off) ----------

  /** The length prefix of the head at off. Callers check that a byte is left. */
  function ReadLength(b: Bytes, off: nat): (r: Result<Head>)
    requires off < |b|
    ensures r.Ok? ==> off < r.value.next <= |b| && r.value.arg < 0x1_0000_0000
  {
    var additional := b[off] % 32;
    if additional < 24 then Ok(Head(additional, off + 1))
    else if additional == 24 then
      if |b| - off < 2 then Err else Ok(Head(b[off + 1], off + 2))
    else if additional == 25 then
      if |b| - off < 3 then Err else Ok(Head(U16(b, off + 1), off + 3))
    else if additional == 26 then
      if |b| - off < 5 then Err else Ok(Head(U32(b, off + 1), off + 5))
    else Err
  }

  function ReadString(b: Bytes, off: nat): (r: Result<Payload>)
    requires off <= |b|
    ensures r.Ok? ==> off < r.value.next <= |b|
  {
    if off == |b| || Major(b[off]) != 3 then Err
    else
      var h :- ReadLength(b, off);
      if h.arg > |b| - h.next || h.arg > MAX_TEXT then Err
      else Ok(Payload(b[h.next..h.next + h.arg], h.next + h.arg))
  }

  function ReadBytes(b: Bytes, off: nat): (r: Result<Payload>)
    requires off <= |b|
    ensures r.Ok? ==> off < r.value.next <= |b|
  {
    if off == |b| || Major(b[off]) != 2 then Err
    else
      var h :- ReadLength(b, off);
      if h.arg > |b| - h.next then Err
      else Ok(Payload(b[h.next..h.next + h.arg], h.next + h.arg))
  }

  /** Offset after the value that starts at off. */
  function SkipFrom(b: Bytes, off: nat): (r: Result<nat>)
    requires off <= |b|
    ensures r.Ok? ==> off < r.value <= |b|
    decreases |b| - off, 0, 0
  {
    if off == |b| then Err
    else
      var major := Major(b[off]);
      if major > 5 then Err
      else if major == 2 then
        var p := ReadBytes(b, off);
        if p.Err? then Err else Ok(p.value.next)
      else if major == 3 then
        var p := ReadString(b, off);
        if p.Err? then Err else Ok(p.value.next)
      else
        var h := ReadLength(b, off);
        if h.Err? then Err
        else if major < 2 then Ok(h.value.next)
        else SkipRun(b, h.value.next, if major == 4 then h.value.arg else 2 * h.value.arg)
  }

  /** Offset after count consecutive values starting at off. */
  function SkipRun(b: Bytes, off: nat, count: nat): (r: Result<nat>)
    requires off <= |b|
    ensures r.Ok? ==> off <= r.value <= |b|
    decreases |b| - off, 1, count
  {
    if count == 0 then Ok(off)
    else
      var next := SkipFrom(b, off);
      if next.Err? then Err else SkipRun(b, next.value, count - 1)
  }

  lemma RunCons(b: Bytes, off: nat, next: nat, count: nat)
    requires off <= |b| && SkipFrom(b, off) == Ok(next)
    ensures SkipRun(b, off, count + 1) == SkipRun(b, next, count)
  {
  }

  /** cborSkipValue: the result is the offset reached, the offset given plus the bytes consumed. */
  method CborSkipValue(b: Bytes, off: nat) returns (r: Result<nat>)
    requires off <= |b|
    ensures r == SkipFrom(b, off)
    decreases |b| - off, 0
  {
    if off == |b| {
      return Err;
    }
    match Major(b[off]) {
      case 0 =>
        var h :- ReadLength(b, off);
        r := Ok(h.next);
      case 1 =>
        var h :- ReadLength(b, off);
        r := Ok(h.next);
      case 2 =>
        var p :- ReadBytes(b, off);
        r := Ok(p.next);
      case 3 =>
        var p :- ReadString(b, off);
        r := Ok(p.next);
      case 4 =>
        var h :- ReadLength(b, off);
        r := SkipElements(b, h.next, h.arg);
      case 5 =>
        var h :- ReadLength(b, off);
        r := SkipPairs(b, h.next, h.arg);
      case _ =>
        r := Err;
    }
  }

  /** The loop over the elements of an array. */
  method SkipElements(b: Bytes, start: nat, count: nat) returns (r: Result<nat>)
    requires start <= |b|
    ensures r == SkipRun(b, start, count)
    decreases |b| - start, 1
  {
    var off := start;
    var i := 0;
    while i < count
      invariant i <= count && start <= off <= |b|
      invariant SkipRun(b, start, count) == SkipRun(b, off, count - i)
    {
      off :- CborSkipValue(b, off);
      i := i + 1;
    }
    return Ok(off);
  }

  /** The loop over the key/value pairs of a map. */
  method SkipPairs(b: Bytes, start: nat, count: nat) returns (r: Result<nat>)
    requires start <= |b|
    ensures r == SkipRun(b, start, 2 * count)
    decreases |b| - start, 1
  {
    var off := start;
    var i := 0;
    while i < count
      invariant i <= count && start <= off <= |b|
      invariant SkipRun(b, start, 2 * count) == SkipRun(b, off, 2 * (count - i))
    {
      var key :- CborSkipValue(b, off);
      RunCons(b, off, key, 2 * (count - i) - 1);
      var value :- CborSkipValue(b, key);
      RunCons(b, key, value, 2 * (count - i - 1));
      off, i := value, i + 1;
    }
    return Ok(off);
  }

  // ---------- Encodings as trees ----------

  /** The number of argument bytes after the initial byte: 0, 1, 2 or 4. */
  datatype Width = Direct | One | Two | Four

  predicate Fits(n: nat, w: Width) {
    match w
    case Direct => n < 24
    case One => n < 0x100
    case Two => n < 0x1_0000
    case Four => n < 0x1_0000_0000
  }

  function EncodeHead(major: nat, w: Width, n: nat): (r: Bytes)
    requires major < 8 && Fits(n, w)
    ensures |r| >= 1 && Major(r[0]) == major
  {
    match w
    case Direct => [major * 32 + n]
    case One => [major * 32 + 24, n]
    case Two => [major * 32 + 25, n / 0x100, n % 0x100]
    case Four => [major * 32 + 26, n / 0x100_0000, n / 0x1_0000 % 0x100, n / 0x100 % 0x100, n % 0x100]
  }

  /** A value of major types 0 to 5 with the head width its encoder chose. */
  datatype Value =
    | UInt(w: Width, n: nat)
    | NInt(w: Width, n: nat)
    | Blob(w: Width, data: Bytes)
    | Text(w: Width, text: Bytes)
    | List(w: Width, items: Items)
    | Dict(w: Width, entries: Entries)

  datatype Items = NoItem | Item(head: Value, tail: Items)

  datatype Entries = NoEntry | Entry(key: Value, value: Value, rest: Entries)

  function ItemCount(items: Items): nat {
    match items case NoItem => 0 case Item(_, tail) => 1 + ItemCount(tail)
  }

  function EntryCount(entries: Entries): nat {
    match entries case NoEntry => 0 case Entry(_, _, rest) => 1 + EntryCount(rest)
  }

  predicate WellFormed(v: Value) {
    match v
    case UInt(w, n) => Fits(n, w)
    case NInt(w, n) => Fits(n, w)
    case Blob(w, data) => Fits(|data|, w)
    case Text(w, text) => Fits(|text|, w) && |text| <= 64
    case List(w, items) => Fits(ItemCount(items), w) && ItemsWellFormed(items)
    case Dict(w, entries) => Fits(EntryCount(entries), w) && EntriesWellFormed(entries)
  }

  predicate ItemsWellFormed(items: Items) {
    match items
    case NoItem => true
    case Item(head, tail) => WellFormed(head) && ItemsWellFormed(tail)
  }

  predicate EntriesWellFormed(entries: Entries) {
    match entries
    case NoEntry => true
    case Entry(key, value, rest) => WellFormed(key) && WellFormed(value) && EntriesWellFormed(rest)
  }

  function Encode(v: Value): (r: Bytes)
    requires WellFormed(v)
    ensures |r| >= 1
  {
    match v
    case UInt(w, n) => EncodeHead(0, w, n)
    case NInt(w, n) => EncodeHead(1, w, n)
    case Blob(w, data) => EncodeHead(2, w, |data|) + data
    case Text(w, text) => EncodeHead(3, w, |text|) + text
    case List(w, items) => EncodeHead(4, w, ItemCount(items)) + EncodeItems(items)
    case Dict(w, entries) => EncodeHead(5, w, EntryCount(entries)) + EncodeEntries(entries)
  }

  function EncodeItems(items: Items): Bytes
    requires ItemsWellFormed(items)
  {
    match items
    case NoItem => []
    case Item(head, tail) => Encode(head) + EncodeItems(tail)
  }

  function EncodeEntries(entries: Entries): Bytes
    requires EntriesWellFormed(entries)
  {
    match entries
    case NoEntry => []
    case Entry(key, value, rest) => Encode(key) + (Encode(value) + EncodeEntries(rest))
  }

  // ---------- Every encoding is skipped exactly ----------

  /** x stands in b at offset off. */
  predicate At(b: Bytes, off: nat, x: Bytes) {
    off + |x| <= |b| && b[off..off + |x|] == x
  }

  lemma AtSplit(b: Bytes, off: nat, x: Bytes, y: Bytes)
    ensures At(b, off, x + y) <==> At(b, off, x) && At(b, off + |x|, y)
  {
    if At(b, off, x + y) {
      var s := b[off..off + |x + y|];
      assert s[..|x|] == x && s[|x|..] == y;
      assert b[off..off + |x|] == s[..|x|] && b[off + |x|..off + |x| + |y|] == s[|x|..];
    }
    if At(b, off, x) && At(b, off + |x|, y) {
      assert b[off..off + |x + y|] == b[off..off + |x|] + b[off + |x|..off + |x| + |y|];
    }
  }

  lemma LengthOfHead(b: Bytes, off: nat, major: nat, w: Width, n: nat)
    requires major < 8 && Fits(n, w) && At(b, off, EncodeHead(major, w, n))
    ensures off < |b| && Major(b[off]) == major
    ensures ReadLength(b, off) == Ok(Head(n, off + |EncodeHead(major, w, n)|))
  {
    var h := EncodeHead(major, w, n);
    var x := b[off..off + |h|];
    assert b[off] == x[0];
    if w == One {
      assert b[off + 1] == x[1];
    } else if w == Two {
      assert b[off + 1] == x[1] && b[off + 2] == x[2];
    } else if w == Four {
      assert b[off + 1] == x[1] && b[off + 2] == x[2] && b[off + 3] == x[3] && b[off + 4] == x[4];
      BytesOfU32(n);
    }
  }

  lemma BytesOfU32(n: nat)
    requires n < 0x1_0000_0000
    ensures n == ((n / 0x100_0000 * 0x100 + n / 0x1_0000 % 0x100) * 0x100 + n / 0x100 % 0x100) * 0x100 + n % 0x100
  {
    var m := n / 0x100;
    var k := m / 0x100;
    DivTwice(n);
    assert m == k * 0x100 + m % 0x100 && k == k / 0x100 * 0x100 + k % 0x100;
  }

  lemma DivTwice(n: nat)
    ensures n / 0x100 / 0x100 == n / 0x1_0000 && n / 0x1_0000 / 0x100 == n / 0x100_0000
  {
  }

  lemma BytesOfBlob(b: Bytes, off: nat, w: Width, data: Bytes)
    requires Fits(|data|, w) && At(b, off, EncodeHead(2, w, |data|) + data)
    ensures off < |b| && Major(b[off]) == 2
    ensures ReadBytes(b, off) == Ok(Payload(data, off + |EncodeHead(2, w, |data|)| + |data|))
  {
    AtSplit(b, off, EncodeHead(2, w, |data|), data);
    LengthOfHead(b, off, 2, w, |data|);
  }

  lemma StringOfText(b: Bytes, off: nat, w: Width, text: Bytes)
    requires Fits(|text|, w) && |text| <= MAX_TEXT && At(b, off, EncodeHead(3, w, |text|) + text)
    ensures off < |b| && Major(b[off]) == 3
    ensures ReadString(b, off) == Ok(Payload(text, off + |EncodeHead(3, w, |text|)| + |text|))
  {
    AtSplit(b, off, EncodeHead(3, w, |text|), text);
    LengthOfHead(b, off, 3, w, |text|);
  }

  lemma {:induction false} SkipItems(b: Bytes, off: nat, items: Items)
    requires ItemsWellFormed(items) && off <= |b| && At(b, off, EncodeItems(items))
    ensures SkipRun(b, off, ItemCount(items)) == Ok(off + |EncodeItems(items)|)
    decreases |b| - off, 1, ItemCount(items)
  {
    hide SkipFrom, Encode, At;
    if items.Item? {
      var next := ItemAt(b, off, items);
      SkipsEncoding(b, off, items.head);
      SkipItems(b, next, items.tail);
      RunCons(b, off, next, ItemCount(items.tail));
    }
  }

  lemma ItemAt(b: Bytes, off: nat, items: Items) returns (next: nat)
    requires items.Item? && ItemsWellFormed(items) && At(b, off, EncodeItems(items))
    ensures off < next <= |b| && next == off + |Encode(items.head)|
    ensures At(b, off, Encode(items.head)) && At(b, next, EncodeItems(items.tail))
    ensures next + |EncodeItems(items.tail)| == off + |EncodeItems(items)|
  {
    AtSplit(b, off, Encode(items.head), EncodeItems(items.tail));
    next := off + |Encode(items.head)|;
  }

  /** A map body is the body of an array of twice the length. */
  function Flatten(entries: Entries): Items {
    match entries
    case NoEntry => NoItem
    case Entry(key, value, rest) => Item(key, Item(value, Flatten(rest)))
  }

  lemma {:induction false} FlattenEncoding(entries: Entries)
    requires EntriesWellFormed(entries)
    ensures ItemsWellFormed(Flatten(entries)) && ItemCount(Flatten(entries)) == 2 * EntryCount(entries)
    ensures EncodeItems(Flatten(entries)) == EncodeEntries(entries)
  {
    if entries.Entry? {
      FlattenEncoding(entries.rest);
    }
  }

  /** Skipping ends exactly where the encoding ends, whatever follows. */
  lemma {:induction false} SkipsEncoding(b: Bytes, off: nat, v: Value)
    requires WellFormed(v) && off <= |b| && At(b, off, Encode(v))
    ensures SkipFrom(b, off) == Ok(off + |Encode(v)|)
    decreases |b| - off, 0, 0
  {
    if v.List? || v.Dict? {
      var start, items := BodyAt(b, off, v);
      SkipItems(b, start, items);
    } else {
      SkipsLeaf(b, off, v);
    }
  }

  /** Where the values inside an encoded array or map start, and that skipping them skips it. */
  lemma BodyAt(b: Bytes, off: nat, v: Value) returns (start: nat, items: Items)
    requires WellFormed(v) && (v.List? || v.Dict?) && At(b, off, Encode(v))
    ensures off < start <= |b| && ItemsWellFormed(items) && At(b, start, EncodeItems(items))
    ensures SkipFrom(b, off) == SkipRun(b, start, ItemCount(items))
    ensures start + |EncodeItems(items)| == off + |Encode(v)|
  {
    hide At, EncodeHead, ReadLength;
    if v.List? {
      items := v.items;
      start := off + |EncodeHead(4, v.w, ItemCount(items))|;
      AtSplit(b, off, EncodeHead(4, v.w, ItemCount(items)), EncodeItems(items));
      LengthOfHead(b, off, 4, v.w, ItemCount(items));
    } else {
      var count := EntryCount(v.entries);
      items := Flatten(v.entries);
      start := off + |EncodeHead(5, v.w, count)|;
      AtSplit(b, off, EncodeHead(5, v.w, count), EncodeEntries(v.entries));
      LengthOfHead(b, off, 5, v.w, count);
      FlattenEncoding(v.entries);
    }
  }

  lemma SkipsLeaf(b: Bytes, off: nat, v: Value)
    requires WellFormed(v) && !v.List? && !v.Dict? && off <= |b| && At(b, off, Encode(v))
    ensures SkipFrom(b, off) == Ok(off + |Encode(v)|)
  {
    if v.UInt? {
      LengthOfHead(b, off, 0, v.w, v.n);
    } else if v.NInt? {
      LengthOfHead(b, off, 1, v.w, v.n);
    } else if v.Blob? {
      BytesOfBlob(b, off, v.w, v.data);
    } else {
      StringOfText(b, off, v.w, v.text);
    }
  }

  // ---------- Whatever is skipped is an encoding ----------

  function WidthOf(b: byte): Width {
    if b % 32 < 24 then Direct else if b % 32 == 24 then One else if b % 32 == 25 then Two else Four
  }

  lemma HeadOfLength(b: Bytes, off: nat)
    requires off < |b| && ReadLength(b, off).Ok?
    ensures var h := ReadLength(b, off).value;
            && Fits(h.arg, WidthOf(b[off])) && At(b, off, EncodeHead(Major(b[off]), WidthOf(b[off]), h.arg))
            && off + |EncodeHead(Major(b[off]), WidthOf(b[off]), h.arg)| == h.next
  {
    if WidthOf(b[off]) == Four {
      BytesFromU32(b[off + 1], b[off + 2], b[off + 3], b[off + 4]);
    }
  }

  lemma BytesFromU32(x: byte, y: byte, z: byte, u: byte)
    ensures var n := (x as nat * 0x100 + y) * 0x1_0000 + (z as nat * 0x100 + u);
            n / 0x100_0000 == x && n / 0x1_0000 % 0x100 == y && n / 0x100 % 0x100 == z && n % 0x100 == u
  {
    var n := (x as nat * 0x100 + y) * 0x1_0000 + (z as nat * 0x100 + u);
    assert n / 0x100 == (x as nat * 0x100 + y) * 0x100 + z;
    assert n / 0x1_0000 == x as nat * 0x100 + y;
    DivTwice(n);
  }

  lemma BlobOfBytes(b: Bytes, off: nat)
    requires off <= |b| && ReadBytes(b, off).Ok?
    ensures off < |b|
    ensures var p := ReadBytes(b, off).value;
            && Fits(|p.data|, WidthOf(b[off]))
            && At(b, off, EncodeHead(2, WidthOf(b[off]), |p.data|) + p.data)
            && off + |EncodeHead(2, WidthOf(b[off]), |p.data|)| + |p.data| == p.next
  {
    HeadOfLength(b, off);
    var p := ReadBytes(b, off).value;
    AtSplit(b, off, EncodeHead(2, WidthOf(b[off]), |p.data|), p.data);
  }

  lemma TextOfString(b: Bytes, off: nat)
    requires off <= |b| && ReadString(b, off).Ok?
    ensures off < |b|
    ensures var p := ReadString(b, off).value;
            && Fits(|p.data|, WidthOf(b[off])) && |p.data| <= MAX_TEXT
            && At(b, off, EncodeHead(3, WidthOf(b[off]), |p.data|) + p.data)
            && off + |EncodeHead(3, WidthOf(b[off]), |p.data|)| + |p.data| == p.next
  {
    HeadOfLength(b, off);
    var p := ReadString(b, off).value;
    AtSplit(b, off, EncodeHead(3, WidthOf(b[off]), |p.data|), p.data);
  }

  lemma {:induction false} RunIsItems(b: Bytes, off: nat, count: nat) returns (items: Items)
    requires off <= |b| && SkipRun(b, off, count).Ok?
    ensures ItemsWellFormed(items) && ItemCount(items) == count
    ensures At(b, off, EncodeItems(items)) && SkipRun(b, off, count) == Ok(off + |EncodeItems(items)|)
    decreases |b| - off, 1, count
  {
    hide SkipFrom, Encode;
    if count == 0 {
      return NoItem;
    }
    var next := FirstOfRun(b, off, count);
    var head := SkippedIsEncoding(b, off);
    var tail := RunIsItems(b, next, count - 1);
    items := JoinItem(b, off, next, head, tail);
  }

  lemma FirstOfRun(b: Bytes, off: nat, count: nat) returns (next: nat)
    requires off <= |b| && count > 0 && SkipRun(b, off, count).Ok?
    ensures SkipFrom(b, off) == Ok(next) && off < next <= |b|
    ensures SkipRun(b, off, count) == SkipRun(b, next, count - 1)
  {
    next := SkipFrom(b, off).value;
  }

  lemma JoinItem(b: Bytes, off: nat, next: nat, head: Value, tail: Items) returns (items: Items)
    requires WellFormed(head) && ItemsWellFormed(tail) && next == off + |Encode(head)|
    requires At(b, off, Encode(head)) && At(b, next, EncodeItems(tail))
    ensures ItemsWellFormed(items) && ItemCount(items) == ItemCount(tail) + 1
    ensures At(b, off, EncodeItems(items)) && off + |EncodeItems(items)| == next + |EncodeItems(tail)|
  {
    AtSplit(b, off, Encode(head), EncodeItems(tail));
    items := Item(head, tail);
  }

  function Paired(items: Items, count: nat): (entries: Entries)
    requires ItemsWellFormed(items) && ItemCount(items) == 2 * count
    ensures EntriesWellFormed(entries) && EntryCount(entries) == count && Flatten(entries) == items
  {
    if count == 0 then
      assert items == NoItem;
      NoEntry
    else
      assert items.Item? && ItemCount(items.tail) == 2 * count - 1 && ItemsWellFormed(items.tail);
      assert items.tail.Item? && ItemCount(items.tail.tail) == 2 * count - 2;
      Entry(items.head, items.tail.head, Paired(items.tail.tail, count - 1))
  }

  lemma {:induction false} SkippedIsEncoding(b: Bytes, off: nat) returns (v: Value)
    requires off <= |b| && SkipFrom(b, off).Ok?
    ensures WellFormed(v) && At(b, off, Encode(v)) && SkipFrom(b, off) == Ok(off + |Encode(v)|)
    decreases |b| - off, 0, 0
  {
    if Major(b[off]) < 4 {
      v := LeafIsEncoding(b, off);
    } else {
      var h := ReadLength(b, off).value;
      var items := RunIsItems(b, h.next, if Major(b[off]) == 4 then h.arg else 2 * h.arg);
      v := BodyIsEncoding(b, off, items);
    }
  }

  lemma BodyIsEncoding(b: Bytes, off: nat, items: Items) returns (v: Value)
    requires off < |b| && Major(b[off]) in {4, 5} && ReadLength(b, off).Ok? && ItemsWellFormed(items)
    requires var h := ReadLength(b, off).value;
             && ItemCount(items) == (if Major(b[off]) == 4 then h.arg else 2 * h.arg)
             && At(b, h.next, EncodeItems(items))
    ensures WellFormed(v) && At(b, off, Encode(v))
    ensures off + |Encode(v)| == ReadLength(b, off).value.next + |EncodeItems(items)|
  {
    HeadOfLength(b, off);
    var w, h := WidthOf(b[off]), ReadLength(b, off).value;
    AtSplit(b, off, EncodeHead(Major(b[off]), w, h.arg), EncodeItems(items));
    if Major(b[off]) == 4 {
      v := List(w, items);
    } else {
      FlattenEncoding(Paired(items, h.arg));
      v := Dict(w, Paired(items, h.arg));
    }
  }

  lemma LeafIsEncoding(b: Bytes, off: nat) returns (v: Value)
    requires off < |b| && SkipFrom(b, off).Ok? && Major(b[off]) < 4
    ensures WellFormed(v) && At(b, off, Encode(v)) && SkipFrom(b, off) == Ok(off + |Encode(v)|)
  {
    var w := WidthOf(b[off]);
    if Major(b[off]) == 2 {
      BlobOfBytes(b, off);
      v := Blob(w, ReadBytes(b, off).value.data);
    } else if Major(b[off]) == 3 {
      TextOfString(b, off);
      v := Text(w, ReadString(b, off).value.data);
    } else {
      HeadOfLength(b, off);
      v := if Major(b[off]) == 0 then UInt(w, ReadLength(b, off).value.arg) else NInt(w, ReadLength(b, off).value.arg);
    }
  }

  /** cborSkipValue moves from off to end exactly if the bytes between encode a value of types 0 to 5. */
  lemma SkipExact(b: Bytes, off: nat, end: nat)
    requires off <= |b|
    ensures SkipFrom(b, off) == Ok(end) <==> exists v: Value :: WellFormed(v) && At(b, off, Encode(v)) && off + |Encode(v)| == end
  {
    if SkipFrom(b, off) == Ok(end) {
      var v := SkippedIsEncoding(b, off);
    }
    if v: Value :| WellFormed(v) && At(b, off, Encode(v)) && off + |Encode(v)| == end {
      SkipsEncoding(b, off, v);
    }
  }

  // ---------- The shortest-form encoder ----------

  function Shortest(n: nat): Width {
    if n < 24 then Direct else if n < 0x100 then One else if n < 0x1_0000 then Two else Four
  }

  /** cborHead; lengths of 2^32 and more yield nothing. */
  function CborHead(major: nat, length: nat): Bytes
    requires major < 8
  {
    if length < 24 then [major * 32 + length]
    else if length < 0x100 then [major * 32 + 24, length]
    else if length < 0x1_0000 then [major * 32 + 25, length / 0x100, length % 0x100]
    else if length < 0x1_0000_0000 then
      [major * 32 + 26, length / 0x100_0000, length / 0x1_0000 % 0x100, length / 0x100 % 0x100, length % 0x100]
    else []
  }

  lemma CborHeadIsShortest(major: nat, n: nat)
    requires major < 8
    ensures CborHead(major, n) == if n < 0x1_0000_0000 then EncodeHead(major, Shortest(n), n) else []
    ensures n < 0x1_0000_0000 ==> forall w :: Fits(n, w) ==> |CborHead(major, n)| <= |EncodeHead(major, w, n)|
  {
  }

  function CborString(s: Bytes): Bytes { CborHead(3, |s|) + s }

  function CborBytes(b: Bytes): Bytes { CborHead(2, |b|) + b }

  function Ascii(s: string): (r: Bytes)
    requires forall i :: 0 <= i < |s| ==> s[i] < 128 as char
    ensures |r| == |s|
  {
    seq(|s|, i requires 0 <= i < |s| => s[i] as int)
  }
}
