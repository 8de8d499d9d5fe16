/** What the captcha package reads out of App Attest blobs: the authData of an attestation object,
    the P-256 coordinates of a COSE key (RFC 9053, section 7.1.1), and the two fields of an assertion. */
module Attestation {
  import opened Wrappers
  import opened Cbor

  // ---------- authData of an attestation object ----------

  const AUTH_DATA: Bytes := Ascii("authData")

  /** Scan count entries for the text key name. */
  function ScanFor(name: Bytes, b: Bytes, off: nat, count: nat): Result<Bytes>
    requires off <= |b|
    decreases count
  {
    if count == 0 then Err
    else
      var key := ReadString(b, off);
      if key.Err? then Err
      else if key.value.data == name then
        var val := ReadBytes(b, key.value.next);
        if val.Err? then Err else Ok(val.value.data)
      else
        var next := SkipFrom(b, key.value.next);
        if next.Err? then Err else ScanFor(name, b, next.value, count - 1)
  }

  function ExtractAuthData(blob: Bytes): Result<Bytes> {
    if |blob| < 1 || Major(blob[0]) != 5 then Err
    else
      var h := ReadLength(blob, 0);
      if h.Err? then Err else ScanFor(AUTH_DATA, blob, h.value.next, h.value.arg)
  }

  method ExtractAuthDataLoop(blob: Bytes) returns (r: Result<Bytes>)
    ensures r == ExtractAuthData(blob)
  {
    if |blob| < 1 || Major(blob[0]) != 5 {
      return Err;
    }
    var h :- ReadLength(blob, 0);
    r := ScanLoop(AUTH_DATA, blob, h.next, h.arg);
  }

  method ScanLoop(name: Bytes, blob: Bytes, start: nat, count: nat) returns (r: Result<Bytes>)
    requires start <= |blob|
    ensures r == ScanFor(name, blob, start, count)
  {
    hide ReadString, ReadBytes, SkipFrom;
    var off: nat := start;
    var i := 0;
    while i < count
      invariant i <= count && off <= |blob|
      invariant ScanFor(name, blob, start, count) == ScanFor(name, blob, off, count - i)
    {
      var key :- ReadString(blob, off);
      off := key.next;
      if key.data == name {
        var val :- ReadBytes(blob, off);
        return Ok(val.data);
      }
      off :- CborSkipValue(blob, off);
      i := i + 1;
    }
    return Err;
  }

  /** What the map says about a name: its first such key decides, and every key before it must be text. */
  function FirstBlob(entries: Entries, name: Bytes): Result<Bytes> {
    match entries
    case NoEntry => Err
    case Entry(key, value, rest) =>
      if !key.Text? then Err
      else if key.text == name then (if value.Blob? then Ok(value.data) else Err)
      else FirstBlob(rest, name)
  }

  /** Where key, value and remaining entries of a map body stand. */
  lemma EntryAt(b: Bytes, off: nat, entries: Entries) returns (valueAt: nat, next: nat)
    requires entries.Entry? && EntriesWellFormed(entries) && off <= |b| && At(b, off, EncodeEntries(entries))
    ensures off < valueAt < next <= |b|
    ensures At(b, off, Encode(entries.key)) && At(b, valueAt, Encode(entries.value)) && At(b, next, EncodeEntries(entries.rest))
    ensures valueAt == off + |Encode(entries.key)| && next == valueAt + |Encode(entries.value)| && SkipFrom(b, valueAt) == Ok(next)
  {
    valueAt, next := EntryParts(b, off, entries);
    SkipsEncoding(b, valueAt, entries.value);
  }

  lemma EntryParts(b: Bytes, off: nat, entries: Entries) returns (valueAt: nat, next: nat)
    requires entries.Entry? && EntriesWellFormed(entries) && At(b, off, EncodeEntries(entries))
    ensures off < valueAt < next <= |b| && valueAt == off + |Encode(entries.key)| && next == valueAt + |Encode(entries.value)|
    ensures At(b, off, Encode(entries.key)) && At(b, valueAt, Encode(entries.value)) && At(b, next, EncodeEntries(entries.rest))
  {
    var k, v, after := Encode(entries.key), Encode(entries.value), EncodeEntries(entries.rest);
    valueAt := off + |k|;
    next := valueAt + |v|;
    AtSplit(b, off, k, v + after);
    AtSplit(b, valueAt, v, after);
  }

  /** The initial byte of an encoding tells its kind. */
  lemma KindAt(b: Bytes, off: nat, v: Value)
    requires WellFormed(v) && At(b, off, Encode(v))
    ensures off < |b|
    ensures Major(b[off]) == match v case UInt(_, _) => 0 case NInt(_, _) => 1 case Blob(_, _) => 2
                                   case Text(_, _) => 3 case List(_, _) => 4 case Dict(_, _) => 5
  {
    assert b[off] == b[off..off + |Encode(v)|][0] == Encode(v)[0];
  }

  lemma ReadKeyAt(b: Bytes, off: nat, v: Value)
    requires WellFormed(v) && off <= |b| && At(b, off, Encode(v))
    ensures ReadString(b, off) == if v.Text? then Ok(Payload(v.text, off + |Encode(v)|)) else Err
  {
    KindAt(b, off, v);
    if v.Text? {
      StringOfText(b, off, v.w, v.text);
    }
  }

  lemma ReadBlobAt(b: Bytes, off: nat, v: Value)
    requires WellFormed(v) && off <= |b| && At(b, off, Encode(v))
    ensures ReadBytes(b, off) == if v.Blob? then Ok(Payload(v.data, off + |Encode(v)|)) else Err
  {
    KindAt(b, off, v);
    if v.Blob? {
      BytesOfBlob(b, off, v.w, v.data);
    }
  }

  lemma {:induction false} ScanFinds(name: Bytes, b: Bytes, off: nat, entries: Entries)
    requires EntriesWellFormed(entries) && off <= |b| && At(b, off, EncodeEntries(entries))
    ensures ScanFor(name, b, off, EntryCount(entries)) == FirstBlob(entries, name)
    decreases entries
  {
    hide At, Encode, SkipFrom;
    if entries.Entry? {
      var valueAt, next := EntryAt(b, off, entries);
      ScanFinds(name, b, next, entries.rest);
      ScanStep(name, b, off, valueAt, next, entries.key, entries.value, EntryCount(entries.rest));
    }
  }

  lemma ScanStep(name: Bytes, b: Bytes, off: nat, valueAt: nat, next: nat, key: Value, value: Value, count: nat)
    requires off < valueAt < next <= |b| && WellFormed(key) && WellFormed(value)
    requires At(b, off, Encode(key)) && valueAt == off + |Encode(key)| && At(b, valueAt, Encode(value))
    requires SkipFrom(b, valueAt) == Ok(next)
    ensures ScanFor(name, b, off, count + 1) ==
            if !key.Text? then Err
            else if key.text == name then (if value.Blob? then Ok(value.data) else Err)
            else ScanFor(name, b, next, count)
  {
    hide ReadString, ReadBytes, SkipFrom, Encode, At;
    ReadKeyAt(b, off, key);
    ReadBlobAt(b, valueAt, value);
  }

  /** The map keys octet by octet. */
  lemma NamesSpelled()
    ensures AUTH_DATA == [0x61, 0x75, 0x74, 0x68, 0x44, 0x61, 0x74, 0x61]
    ensures SIGNATURE == [0x73, 0x69, 0x67, 0x6E, 0x61, 0x74, 0x75, 0x72, 0x65]
    ensures AUTHENTICATOR_DATA == [0x61, 0x75, 0x74, 0x68, 0x65, 0x6E, 0x74, 0x69, 0x63, 0x61, 0x74, 0x6F, 0x72,
                                   0x44, 0x61, 0x74, 0x61]
  {
  }

  lemma EncodedDict(w: Width, entries: Entries)
    requires WellFormed(Dict(w, entries))
    ensures Encode(Dict(w, entries)) == EncodeHead(5, w, EntryCount(entries)) + EncodeEntries(entries)
  {
  }

  lemma DictHead(b: Bytes, start: nat, w: Width, entries: Entries) returns (next: nat)
    requires WellFormed(Dict(w, entries)) && start <= |b| && At(b, start, Encode(Dict(w, entries)))
    ensures start < |b| && Major(b[start]) == 5 && next <= |b|
    ensures ReadLength(b, start) == Ok(Head(EntryCount(entries), next))
    ensures EntriesWellFormed(entries) && At(b, next, EncodeEntries(entries))
  {
    var head := EncodeHead(5, w, EntryCount(entries));
    EncodedDict(w, entries);
    hide Encode, EncodeHead, EncodeEntries, ReadLength, EntryCount, Major;
    AtSplit(b, start, head, EncodeEntries(entries));
    LengthOfHead(b, start, 5, w, EntryCount(entries));
    next := start + |head|;
  }

  lemma ExtractBody(blob: Bytes, h: Head)
    requires 0 < |blob| && Major(blob[0]) == 5 && ReadLength(blob, 0) == Ok(h) && h.next <= |blob|
    ensures ExtractAuthData(blob) == ScanFor(AUTH_DATA, blob, h.next, h.arg)
  {
    hide ReadLength, ScanFor, Major, AUTH_DATA;
  }

  /** For every encoded map, in whatever entry order and followed by whatever bytes, the scanner
      answers what the map says. */
  lemma ExtractsAuthData(blob: Bytes, w: Width, entries: Entries)
    requires WellFormed(Dict(w, entries)) && At(blob, 0, Encode(Dict(w, entries)))
    ensures ExtractAuthData(blob) == FirstBlob(entries, [0x61, 0x75, 0x74, 0x68, 0x44, 0x61, 0x74, 0x61])
  {
    hide At, Encode, EncodeEntries, ScanFor, FirstBlob, ReadLength, EntryCount, Major, ExtractAuthData, WellFormed,
         EntriesWellFormed, AUTH_DATA;
    NamesSpelled();
    var next := DictHead(blob, 0, w, entries);
    ExtractBody(blob, Head(EntryCount(entries), next));
    ScanFinds(AUTH_DATA, blob, next, entries);
  }

  // ---------- COSE key ----------

  datatype Point = Point(x: Bytes, y: Bytes)

  /** The map key as an integer: -1 - n for major type 1. */
  function KeyInt(b: Bytes, off: nat): (r: Result<(int, nat)>)
    requires off <= |b|
    ensures r.Ok? ==> off < r.value.1 <= |b|
  {
    if off >= |b| || Major(b[off]) > 1 then Err
    else
      var h := ReadLength(b, off);
      if h.Err? then Err
      else Ok((if Major(b[off]) == 0 then h.value.arg else -1 - h.value.arg, h.value.next))
  }

  function Coord(keyInt: int, data: Bytes, p: Point): Point {
    if keyInt == -2 then p.(x := data) else if keyInt == -3 then p.(y := data) else p
  }

  function ScanCose(b: Bytes, off: nat, count: nat, p: Point): Result<Point>
    requires off <= |b|
    decreases count
  {
    if count == 0 then Ok(p)
    else
      var key := KeyInt(b, off);
      if key.Err? || key.value.1 >= |b| then Err
      else if Major(b[key.value.1]) == 2 then
        var val := ReadBytes(b, key.value.1);
        if val.Err? then Err
        else ScanCose(b, val.value.next, count - 1, Coord(key.value.0, val.value.data, p))
      else
        var next := SkipFrom(b, key.value.1);
        if next.Err? then Err else ScanCose(b, next.value, count - 1, p)
  }

  /** Both coordinates must be present with 32 bytes each; a missing one has length 0. */
  function Uncompressed(r: Result<Point>): Result<Point> {
    if r.Err? || |r.value.x| != 32 || |r.value.y| != 32 then Err else r
  }

  function DecodeCoseEcP256(b: Bytes, start: nat): Result<Point>
    requires start <= |b|
  {
    if start == |b| || Major(b[start]) != 5 then Err
    else
      var h := ReadLength(b, start);
      if h.Err? then Err else Uncompressed(ScanCose(b, h.value.next, h.value.arg, Point([], [])))
  }

  method ReadKeyInt(b: Bytes, off: nat) returns (r: Result<(int, nat)>)
    requires off <= |b|
    ensures r == KeyInt(b, off)
  {
    hide ReadLength;
    if off >= |b| {
      return Err;
    }
    var major := Major(b[off]);
    if major > 1 {
      return Err;
    }
    var key :- ReadLength(b, off);
    var keyInt := if major == 0 then key.arg else -1 - key.arg;
    r := Ok((keyInt, key.next));
  }

  method DecodeCoseLoop(b: Bytes, start: nat) returns (r: Result<Point>)
    requires start <= |b|
    ensures r == DecodeCoseEcP256(b, start)
  {
    hide SkipFrom, KeyInt, ReadLength, ReadBytes;
    if start == |b| || Major(b[start]) != 5 {
      return Err;
    }
    var h :- ReadLength(b, start);
    var off: nat := h.next;
    var xCoord, yCoord: Bytes := [], [];
    var i := 0;
    while i < h.arg
      invariant i <= h.arg && off <= |b|
      invariant DecodeCoseEcP256(b, start) == Uncompressed(ScanCose(b, off, h.arg - i, Point(xCoord, yCoord)))
    {
      var key :- ReadKeyInt(b, off);
      var keyInt := key.0;
      off := key.1;
      if off >= |b| {
        return Err;
      }
      if Major(b[off]) == 2 {
        var val :- ReadBytes(b, off);
        if keyInt == -2 {
          xCoord := val.data;
        } else if keyInt == -3 {
          yCoord := val.data;
        }
        off := val.next;
      } else {
        off :- CborSkipValue(b, off);
      }
      i := i + 1;
    }
    if |xCoord| != 32 || |yCoord| != 32 {
      return Err;
    }
    return Ok(Point(xCoord, yCoord));
  }

  function IntOf(key: Value): int
    requires key.UInt? || key.NInt?
  {
    if key.UInt? then key.n else -1 - key.n
  }

  predicate IntKeys(entries: Entries) {
    match entries
    case NoEntry => true
    case Entry(key, _, rest) => (key.UInt? || key.NInt?) && IntKeys(rest)
  }

  /** The last byte string stored under an integer key. */
  function LastBlob(entries: Entries, key: int, default: Bytes): Bytes
    requires IntKeys(entries)
  {
    match entries
    case NoEntry => default
    case Entry(k, v, rest) => LastBlob(rest, key, if IntOf(k) == key && v.Blob? then v.data else default)
  }

  lemma KeyIntAt(b: Bytes, off: nat, v: Value)
    requires WellFormed(v) && off <= |b| && At(b, off, Encode(v))
    ensures KeyInt(b, off) == if v.UInt? || v.NInt? then Ok((IntOf(v), off + |Encode(v)|)) else Err
  {
    KindAt(b, off, v);
    if v.UInt? {
      LengthOfHead(b, off, 0, v.w, v.n);
    } else if v.NInt? {
      LengthOfHead(b, off, 1, v.w, v.n);
    }
  }

  lemma {:induction false} ScanFindsCoords(b: Bytes, off: nat, entries: Entries, p: Point)
    requires EntriesWellFormed(entries) && off <= |b| && At(b, off, EncodeEntries(entries))
    ensures ScanCose(b, off, EntryCount(entries), p) ==
            if IntKeys(entries) then Ok(Point(LastBlob(entries, -2, p.x), LastBlob(entries, -3, p.y))) else Err
    decreases entries
  {
    hide At, Encode, SkipFrom, KeyInt, ReadBytes;
    if entries.Entry? {
      var valueAt, next := EntryAt(b, off, entries);
      CoseStep(b, off, valueAt, next, entries.key, entries.value, EntryCount(entries.rest), p);
      if entries.key.UInt? || entries.key.NInt? {
        ScanFindsCoords(b, next, entries.rest, WithCoord(entries.key, entries.value, p));
      }
    }
  }

  function WithCoord(key: Value, value: Value, p: Point): Point
    requires key.UInt? || key.NInt?
  {
    if value.Blob? then Coord(IntOf(key), value.data, p) else p
  }

  lemma CoseStep(b: Bytes, off: nat, valueAt: nat, next: nat, key: Value, value: Value, count: nat, p: Point)
    requires off < valueAt < next <= |b| && WellFormed(key) && WellFormed(value)
    requires At(b, off, Encode(key)) && valueAt == off + |Encode(key)|
    requires At(b, valueAt, Encode(value)) && SkipFrom(b, valueAt) == Ok(next) && next == valueAt + |Encode(value)|
    ensures ScanCose(b, off, count + 1, p) ==
            if key.UInt? || key.NInt? then ScanCose(b, next, count, WithCoord(key, value, p)) else Err
  {
    hide KeyInt, ReadBytes, SkipFrom, Encode, At;
    KeyIntAt(b, off, key);
    KindAt(b, valueAt, value);
    ReadBlobAt(b, valueAt, value);
  }

  lemma CoseBody(b: Bytes, start: nat, h: Head)
    requires start < |b| && Major(b[start]) == 5 && ReadLength(b, start) == Ok(h) && h.next <= |b|
    ensures DecodeCoseEcP256(b, start) == Uncompressed(ScanCose(b, h.next, h.arg, Point([], [])))
  {
    hide ReadLength, ScanCose, Uncompressed, Major;
  }

  /** For every encoded map, in whatever entry order, the decoder returns the last -2 and -3 byte strings
      if both have 32 bytes and every key is an integer, and an error otherwise. */
  lemma DecodesCoseKey(b: Bytes, start: nat, w: Width, entries: Entries)
    requires WellFormed(Dict(w, entries)) && start <= |b| && At(b, start, Encode(Dict(w, entries)))
    ensures DecodeCoseEcP256(b, start) ==
            if IntKeys(entries) && |LastBlob(entries, -2, [])| == 32 && |LastBlob(entries, -3, [])| == 32
            then Ok(Point(LastBlob(entries, -2, []), LastBlob(entries, -3, []))) else Err
  {
    hide At, Encode, EncodeEntries, ScanCose, LastBlob, IntKeys, ReadLength, EntryCount, Major, DecodeCoseEcP256, WellFormed,
         EntriesWellFormed;
    var next := DictHead(b, start, w, entries);
    CoseBody(b, start, Head(EntryCount(entries), next));
    ScanFindsCoords(b, next, entries, Point([], []));
  }

  // ---------- The attested credential data ----------

  datatype Attested = Attested(credID: Bytes, key: Point, counter: nat, aaguid: Bytes)

  /** A Go run either returns or stops on a slice out of range. */
  datatype Outcome<T> = Returned(r: Result<T>) | SliceOutOfRange

  /** ParseAttestationObject after authData was found. The end of the credential id is computed in 16 bits. */
  function ParseAuthData(authData: Bytes): Outcome<Attested> {
    if |authData| < 37 + 16 + 2 then Returned(Err)
    else
      var counter := U32(authData, 33);
      var credIDLen := U16(authData, 53);
      var end := (55 + credIDLen) % 0x1_0000;
      if end > |authData| then Returned(Err)
      else if end < 55 then SliceOutOfRange
      else
        var pub := DecodeCoseEcP256(authData, end);
        Returned(if pub.Err? then Err else Ok(Attested(authData[55..end], pub.value, counter, authData[37..53])))
  }

  /** The slicing stays in bounds exactly if the declared credential id length does not overflow the 16-bit sum. */
  lemma SlicesInBounds(authData: Bytes)
    ensures ParseAuthData(authData) == SliceOutOfRange <==>
            |authData| >= 55 && U16(authData, 53) > 65480
  {
  }

  /** An input for which the 16-bit sum wraps. */
  lemma SliceOutOfRangeExample()
    ensures ParseAuthData(seq(55, i => 255)) == SliceOutOfRange
  {
    var d: Bytes := seq(55, i => 255);
    assert d[53] == 255 && d[54] == 255;
  }

  lemma NumbersAt(authData: Bytes, counter: Bytes, len: Bytes)
    requires |counter| == 4 && |len| == 2 && At(authData, 33, counter) && At(authData, 53, len)
    ensures U32(authData, 33) == U32(counter, 0) && U16(authData, 53) == U16(len, 0)
  {
    assert authData[33..37][0] == authData[33] && authData[33..37][1] == authData[34];
    assert authData[33..37][2] == authData[35] && authData[33..37][3] == authData[36];
    assert authData[53..55][0] == authData[53] && authData[53..55][1] == authData[54];
  }

  lemma PartsAt(authData: Bytes, aaguid: Bytes, credID: Bytes)
    requires |aaguid| == 16 && At(authData, 37, aaguid) && At(authData, 55, credID)
    ensures 55 + |credID| <= |authData|
    ensures authData[37..53] == aaguid && authData[55..55 + |credID|] == credID
  {
  }

  /** Layout of well-formed authData, and that parsing gives back its parts. */
  lemma ParsesAuthData(authData: Bytes, rpIdHash: Bytes, flags: byte, counter: Bytes, aaguid: Bytes, len: Bytes,
                       credID: Bytes, w: Width, entries: Entries)
    requires |rpIdHash| == 32 && |counter| == 4 && |aaguid| == 16 && |len| == 2
    requires U16(len, 0) == |credID| <= 65480
    requires WellFormed(Dict(w, entries)) && IntKeys(entries)
    requires |LastBlob(entries, -2, [])| == 32 && |LastBlob(entries, -3, [])| == 32
    requires At(authData, 0, rpIdHash) && At(authData, 32, [flags]) && At(authData, 33, counter) && At(authData, 37, aaguid)
    requires At(authData, 53, len) && At(authData, 55, credID) && At(authData, 55 + |credID|, Encode(Dict(w, entries)))
    ensures ParseAuthData(authData) ==
            Returned(Ok(Attested(credID, Point(LastBlob(entries, -2, []), LastBlob(entries, -3, [])), U32(counter, 0), aaguid)))
  {
    hide DecodeCoseEcP256, Encode, LastBlob, IntKeys, WellFormed, At, U16, U32;
    NumbersAt(authData, counter, len);
    PartsAt(authData, aaguid, credID);
    DecodesCoseKey(authData, 55 + |credID|, w, entries);
  }

  // ---------- Assertions ----------

  const SIGNATURE: Bytes := Ascii("signature")
  const AUTHENTICATOR_DATA: Bytes := Ascii("authenticatorData")

  datatype Assertion = Assertion(authData: Bytes, signature: Bytes)

  /** The two keys the decoder knows. */
  datatype Names = Names(sig: Bytes, auth: Bytes)

  /** The two fields read so far; None where Go has a nil slice. */
  datatype Fields = Fields(authData: Option<Bytes>, signature: Option<Bytes>, next: nat)

  const START := Fields(None, None, 1)

  function WithField(f: Fields, names: Names, key: Bytes, value: Bytes, next: nat): Result<Fields> {
    if key == names.sig then Ok(f.(signature := Some(value), next := next))
    else if key == names.auth then Ok(f.(authData := Some(value), next := next))
    else Err
  }

  function ReadField(b: Bytes, f: Fields, names: Names): (r: Result<Fields>)
    requires f.next <= |b|
    ensures r.Ok? ==> r.value.next <= |b|
  {
    var key := ReadString(b, f.next);
    if key.Err? then Err
    else
      var val := ReadBytes(b, key.value.next);
      if val.Err? then Err else WithField(f, names, key.value.data, val.value.data, val.value.next)
  }

  function Both(f: Fields): Result<Assertion> {
    if f.authData.None? || f.signature.None? then Err else Ok(Assertion(f.authData.value, f.signature.value))
  }

  function DecodeFields(blob: Bytes, names: Names): Result<Assertion>
    requires |blob| > 0
  {
    if blob[0] != 0xA2 then Err
    else
      var first := ReadField(blob, START, names);
      if first.Err? then Err
      else
        var second := ReadField(blob, first.value, names);
        if second.Err? then Err else Both(second.value)
  }

  /** decodeAssertion; its caller has checked that the blob is not empty. */
  function DecodeAssertion(blob: Bytes): Result<Assertion>
    requires |blob| > 0
  {
    DecodeFields(blob, Names(SIGNATURE, AUTHENTICATOR_DATA))
  }

  method DecodeFieldsLoop(blob: Bytes, names: Names) returns (r: Result<Assertion>)
    requires |blob| > 0
    ensures r == DecodeFields(blob, names)
  {
    if blob[0] != 0xA2 {
      return Err;
    }
    var f := START;
    var i := 0;
    while i < 2
      invariant 0 <= i <= 2 && f.next <= |blob|
      invariant i == 0 ==> f == START
      invariant i == 1 ==> ReadField(blob, START, names) == Ok(f)
      invariant i == 2 ==> var first := ReadField(blob, START, names);
                           first.Ok? && ReadField(blob, first.value, names) == Ok(f)
    {
      var key :- ReadString(blob, f.next);
      var val :- ReadBytes(blob, key.next);
      if key.data == names.sig {
        f := f.(signature := Some(val.data), next := val.next);
      } else if key.data == names.auth {
        f := f.(authData := Some(val.data), next := val.next);
      } else {
        return Err;
      }
      i := i + 1;
    }
    if f.authData.None? || f.signature.None? {
      return Err;
    }
    return Ok(Assertion(f.authData.value, f.signature.value));
  }

  function EncodePairs(a: Assertion, names: Names): Bytes {
    [0xA2] + CborString(names.sig) + CborBytes(a.signature) + CborString(names.auth) + CborBytes(a.authData)
  }

  function EncodeAssertion(a: Assertion): Bytes {
    EncodePairs(a, Names(SIGNATURE, AUTHENTICATOR_DATA))
  }

  /** A text key followed by a byte string, with any head widths. */
  function EncodeField(kw: Width, key: Bytes, vw: Width, value: Bytes): Bytes
    requires Fits(|key|, kw) && Fits(|value|, vw)
  {
    EncodeHead(3, kw, |key|) + key + (EncodeHead(2, vw, |value|) + value)
  }

  lemma FieldAt(b: Bytes, f: Fields, names: Names, kw: Width, key: Bytes, vw: Width, value: Bytes)
    requires Fits(|key|, kw) && Fits(|value|, vw) && |key| <= MAX_TEXT && f.next <= |b|
    requires At(b, f.next, EncodeField(kw, key, vw, value))
    ensures ReadField(b, f, names) == WithField(f, names, key, value, f.next + |EncodeField(kw, key, vw, value)|)
  {
    hide ReadString, ReadBytes, At, EncodeHead;
    var k, v := EncodeHead(3, kw, |key|) + key, EncodeHead(2, vw, |value|) + value;
    AtSplit(b, f.next, k, v);
    StringOfText(b, f.next, kw, key);
    BytesOfBlob(b, f.next + |k|, vw, value);
  }

  lemma FieldRead(b: Bytes, f: Fields, names: Names) returns (kw: Width, key: Bytes, vw: Width, value: Bytes)
    requires f.next <= |b| && ReadField(b, f, names).Ok?
    ensures Fits(|key|, kw) && Fits(|value|, vw) && At(b, f.next, EncodeField(kw, key, vw, value))
    ensures ReadField(b, f, names) == WithField(f, names, key, value, f.next + |EncodeField(kw, key, vw, value)|)
  {
    hide ReadString, ReadBytes, At, EncodeHead;
    var k := ReadString(b, f.next).value;
    TextOfString(b, f.next);
    BlobOfBytes(b, k.next);
    key, value := k.data, ReadBytes(b, k.next).value.data;
    kw, vw := WidthOf(b[f.next]), WidthOf(b[k.next]);
    AtSplit(b, f.next, EncodeHead(3, kw, |key|) + key, EncodeHead(2, vw, |value|) + value);
  }

  /** The blob starts with a two-entry map of these two fields, in this order. */
  ghost predicate HoldsPairs(blob: Bytes, k: Bytes, v: Bytes, k': Bytes, v': Bytes, kw: Width, vw: Width, kw': Width, vw': Width) {
    && Fits(|k|, kw) && Fits(|v|, vw) && Fits(|k'|, kw') && Fits(|v'|, vw')
    && |blob| > 0 && blob[0] == 0xA2
    && At(blob, 1, EncodeField(kw, k, vw, v))
    && At(blob, 1 + |EncodeField(kw, k, vw, v)|, EncodeField(kw', k', vw', v'))
  }

  /** The blob starts with an encoding of the two-entry map, signature first or second, heads of any width. */
  ghost predicate HoldsAssertion(blob: Bytes, a: Assertion, names: Names, kw: Width, vw: Width, kw': Width, vw': Width) {
    || HoldsPairs(blob, names.sig, a.signature, names.auth, a.authData, kw, vw, kw', vw')
    || HoldsPairs(blob, names.auth, a.authData, names.sig, a.signature, kw, vw, kw', vw')
  }

  predicate ProperNames(names: Names) {
    names.sig != names.auth && |names.sig| <= MAX_TEXT && |names.auth| <= MAX_TEXT
  }

  lemma KeysDiffer()
    ensures |SIGNATURE| == 9 && |AUTHENTICATOR_DATA| == 17 && ProperNames(Names(SIGNATURE, AUTHENTICATOR_DATA))
  {
  }

  lemma DecodesPairs(blob: Bytes, a: Assertion, names: Names, kw: Width, vw: Width, kw': Width, vw': Width)
    requires ProperNames(names) && HoldsAssertion(blob, a, names, kw, vw, kw', vw')
    ensures DecodeFields(blob, names) == Ok(a)
  {
    hide ReadField, EncodeField, At;
    if HoldsPairs(blob, names.sig, a.signature, names.auth, a.authData, kw, vw, kw', vw') {
      FieldAt(blob, START, names, kw, names.sig, vw, a.signature);
      FieldAt(blob, ReadField(blob, START, names).value, names, kw', names.auth, vw', a.authData);
    } else {
      FieldAt(blob, START, names, kw, names.auth, vw, a.authData);
      FieldAt(blob, ReadField(blob, START, names).value, names, kw', names.sig, vw', a.signature);
    }
  }

  lemma PairsDecoded(blob: Bytes, a: Assertion, names: Names) returns (kw: Width, vw: Width, kw': Width, vw': Width)
    requires |blob| > 0 && ProperNames(names) && DecodeFields(blob, names) == Ok(a)
    ensures HoldsAssertion(blob, a, names, kw, vw, kw', vw')
  {
    hide ReadField, EncodeField, At;
    var key, value, key', value';
    kw, key, vw, value := FieldRead(blob, START, names);
    kw', key', vw', value' := FieldRead(blob, ReadField(blob, START, names).value, names);
    assert HoldsPairs(blob, key, value, key', value', kw, vw, kw', vw');
  }

  /** "signature" and "authenticatorData" in octets. */
  function SpelledNames(): Names {
    Names([0x73, 0x69, 0x67, 0x6E, 0x61, 0x74, 0x75, 0x72, 0x65],
          [0x61, 0x75, 0x74, 0x68, 0x65, 0x6E, 0x74, 0x69, 0x63, 0x61, 0x74, 0x6F, 0x72, 0x44, 0x61, 0x74, 0x61])
  }

  /** decodeAssertion returns a exactly if the blob starts with an encoding of a's two-entry map,
      entries in either order and heads of any width. */
  lemma DecodeAssertionExact(blob: Bytes, a: Assertion)
    requires |blob| > 0
    ensures DecodeAssertion(blob) == Ok(a) <==>
            exists kw, vw, kw', vw' :: HoldsAssertion(blob, a, SpelledNames(), kw, vw, kw', vw')
  {
    KeysDiffer();
    NamesSpelled();
    var names := Names(SIGNATURE, AUTHENTICATOR_DATA);
    if DecodeFields(blob, names) == Ok(a) {
      var kw, vw, kw', vw' := PairsDecoded(blob, a, names);
      assert names == SpelledNames();
    }
    if kw, vw, kw', vw' :| HoldsAssertion(blob, a, names, kw, vw, kw', vw') {
      DecodesPairs(blob, a, names, kw, vw, kw', vw');
    }
  }

  lemma EncodedPairs(a: Assertion, names: Names)
    requires |a.authData| < 0x1_0000_0000 && |a.signature| < 0x1_0000_0000 && ProperNames(names)
    ensures |EncodePairs(a, names)| > 0 && DecodeFields(EncodePairs(a, names), names) == Ok(a)
  {
    hide DecodeFields;
    var kw, vw, kw', vw' := Shortest(|names.sig|), Shortest(|a.signature|), Shortest(|names.auth|), Shortest(|a.authData|);
    PairsStand(a, names);
    DecodesPairs(EncodePairs(a, names), a, names, kw, vw, kw', vw');
  }

  lemma PairsStand(a: Assertion, names: Names)
    requires |a.authData| < 0x1_0000_0000 && |a.signature| < 0x1_0000_0000 && ProperNames(names)
    ensures HoldsPairs(EncodePairs(a, names), names.sig, a.signature, names.auth, a.authData,
                       Shortest(|names.sig|), Shortest(|a.signature|), Shortest(|names.auth|), Shortest(|a.authData|))
  {
    hide CborHead, EncodeHead;
    var kw, vw, kw', vw' := Shortest(|names.sig|), Shortest(|a.signature|), Shortest(|names.auth|), Shortest(|a.authData|);
    CborHeadIsShortest(3, |names.sig|);
    CborHeadIsShortest(2, |a.signature|);
    CborHeadIsShortest(3, |names.auth|);
    CborHeadIsShortest(2, |a.authData|);
    var s, d := EncodeField(kw, names.sig, vw, a.signature), EncodeField(kw', names.auth, vw', a.authData);
    var blob := EncodePairs(a, names);
    assert blob == [0xA2] + (s + d);
    assert At(blob, 1, s + d);
    AtSplit(blob, 1, s, d);
  }

  /** decodeAssertion undoes encodeAssertion for all fields shorter than 2^32 bytes. */
  lemma AssertionRoundTrip(a: Assertion)
    requires |a.authData| < 0x1_0000_0000 && |a.signature| < 0x1_0000_0000
    ensures |EncodeAssertion(a)| > 0 && DecodeAssertion(EncodeAssertion(a)) == Ok(a)
  {
    KeysDiffer();
    EncodedPairs(a, Names(SIGNATURE, AUTHENTICATOR_DATA));
  }
}
