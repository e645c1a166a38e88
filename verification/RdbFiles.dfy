/** Whole RDB files: records, sections, checksum, and the loader run over all of them. */
module RdbFiles {
  import opened Common
  import opened Crc64
  import opened Decimal
  import opened PrimeValues
  import opened RdbFormat
  import opened Words

  /** An entry as a snapshot lists it and as the loader returns it. */
  datatype RdbEntry = RdbEntry(db: nat, key: bytes, value: PrimeValue, expire: Option<Time>)

  // ---- The loader ----

  datatype EntryRead = Entry(entry: RdbEntry, db: nat, pos: nat) | End | Failed(error: RdbError)

  function ChecksumOf(data: bytes): nat { Crc(0, data) as int }

  /** The end marker: a stored checksum of zero is not compared. */
  function ReadEnd(data: bytes, pos: nat): EntryRead
    requires pos <= |data|
  {
    match Take(data, pos, 8)
    case Bad(e) => Failed(e)
    case Got(s, _) =>
      var stored, expected := LeValue(s), ChecksumOf(data[..pos]);
      if stored != 0 && stored != expected then Failed(CrcMismatch(expected, stored)) else End
  }

  /** Two lengths or two strings that are read and dropped; the position behind them. */
  function SkipLengths(data: bytes, pos: nat): (r: Read<()>)
    requires pos <= |data|
    ensures r.Got? ==> pos < r.pos <= |data|
  {
    match ReadLength(data, pos)
    case Bad(e) => Bad(e)
    case Got(_, p) =>
      match ReadLength(data, p)
      case Bad(e) => Bad(e)
      case Got(_, q) => Got((), q)
  }

  function SkipTexts(data: bytes, pos: nat): (r: Read<()>)
    requires pos <= |data|
    ensures r.Got? ==> pos < r.pos <= |data|
  {
    match ReadText(data, pos)
    case Bad(e) => Bad(e)
    case Got(_, p) =>
      match ReadText(data, p)
      case Bad(e) => Bad(e)
      case Got(_, q) => Got((), q)
  }

  /** The key and value behind a type byte; a type that is not known is skipped together with its key. */
  function ReadTyped(data: bytes, pos: nat, db: nat, code: byte, expire: Option<Time>): (r: EntryRead)
    requires pos <= |data|
    ensures r.Entry? ==> pos < r.pos <= |data|
    decreases |data| - pos, 0
  {
    match ReadText(data, pos)
    case Bad(e) => Failed(e)
    case Got(key, p) =>
      if code == TYPE_STRING then
        match ReadText(data, p)
        case Bad(e) => Failed(e)
        case Got(s, q) => Entry(RdbEntry(db, key, FromBytes(s), expire), db, q)
      else ReadEntry(data, p, db)
  }

  function ReadDated(data: bytes, pos: nat, db: nat, expire: Time): (r: EntryRead)
    requires pos <= |data|
    ensures r.Entry? ==> pos < r.pos <= |data|
    decreases |data| - pos, 1
  {
    if pos == |data| then Failed(UnexpectedEof)
    else ReadTyped(data, pos + 1, db, data[pos], Some(expire))
  }

  function ReadEntry(data: bytes, pos: nat, db: nat): (r: EntryRead)
    requires pos <= |data|
    ensures r.Entry? ==> pos < r.pos <= |data|
    decreases |data| - pos, 1
  {
    if pos == |data| then Failed(UnexpectedEof)
    else
      var code, next := data[pos], pos + 1;
      if code == EOF then ReadEnd(data, next)
      else if code == SELECTDB then
        match ReadLength(data, next)
        case Bad(e) => Failed(e)
        case Got(l, p) => ReadEntry(data, p, l.len % 0x1_0000_0000)
      else if code == RESIZEDB then
        match SkipLengths(data, next)
        case Bad(e) => Failed(e)
        case Got(_, p) => ReadEntry(data, p, db)
      else if code == AUX then
        match SkipTexts(data, next)
        case Bad(e) => Failed(e)
        case Got(_, p) => ReadEntry(data, p, db)
      else if code == EXPIRETIME then
        match Take(data, next, 4)
        case Bad(e) => Failed(e)
        case Got(s, p) => ReadDated(data, p, db, Seconds(s))
      else if code == EXPIRETIME_MS then
        match Take(data, next, 8)
        case Bad(e) => Failed(e)
        case Got(s, p) => ReadDated(data, p, db, Milliseconds(s))
      else if code == FREQ then
        match Take(data, next, 1)
        case Bad(e) => Failed(e)
        case Got(_, p) => ReadEntry(data, p, db)
      else if code == IDLE then
        match ReadLength(data, next)
        case Bad(e) => Failed(e)
        case Got(_, p) => ReadEntry(data, p, db)
      else if code in {MODULE_AUX, FUNCTION, FUNCTION2, SLOT_INFO} then Failed(UnsupportedType(code))
      else ReadTyped(data, next, db, code, None)
  }

  function Seconds(s: bytes): Time
    requires |s| == 4
  {
    LeBound(s);
    Powers();
    LeValue(s) * 1000
  }

  function Milliseconds(s: bytes): Time
    requires |s| == 8
  {
    LeBound(s);
    Powers();
    LeValue(s)
  }

  function Prepend(xs: seq<RdbEntry>, r: Result<seq<RdbEntry>, RdbError>): Result<seq<RdbEntry>, RdbError> {
    match r
    case Ok(ys) => Ok(xs + ys)
    case Err(e) => Err(e)
  }

  function LoadFrom(data: bytes, pos: nat, db: nat): Result<seq<RdbEntry>, RdbError>
    requires pos <= |data|
    decreases |data| - pos
  {
    match ReadEntry(data, pos, db)
    case Entry(e, db', p) => Prepend([e], LoadFrom(data, p, db'))
    case End => Ok([])
    case Failed(e) => Err(e)
  }

  const MAGIC: bytes := [82, 69, 68, 73, 83]
  const VERSION: bytes := [48, 48, 48, 57]

  /** `parse::<u32>()` of four bytes: digits with an optional plus sign. */
  function ParseVersion(s: bytes): Option<nat> {
    var digits := if s != [] && s[0] == PLUS then s[1..] else s;
    if digits == [] then None else DigitsValue(digits)
  }

  function ReadHeader(data: bytes): (r: Read<nat>)
    ensures r.Got? ==> r.pos == 9 <= |data|
  {
    match Take(data, 0, 5)
    case Bad(e) => Bad(e)
    case Got(magic, p) =>
      if magic != MAGIC then Bad(BadMagic)
      else match Take(data, p, 4)
           case Bad(e) => Bad(e)
           case Got(digits, q) =>
             var version := ParseVersion(digits);
             if version.None? then Bad(BadMagic)
             else if version.value > 12 then Bad(UnsupportedVersion(version.value))
             else Got(version.value, q)
  }

  /** `load_all` */
  function LoadAll(data: bytes): Result<seq<RdbEntry>, RdbError> {
    match ReadHeader(data)
    case Bad(e) => Err(e)
    case Got(_, p) => LoadFrom(data, p, 0)
  }

  // ---- The saver ----

  predicate ItemOk(i: RdbEntry) { |i.key| < 0x1_0000_0000_0000_0000 && Storable(i.value) }

  predicate ItemsOk(items: seq<RdbEntry>) {
    |items| < 0x1_0000_0000_0000_0000 && forall i :: 0 <= i < |items| ==> ItemOk(items[i])
  }

  function Record(i: RdbEntry): bytes
    requires ItemOk(i)
  {
    Pair(i.key, i.value, i.expire)
  }

  function Records(items: seq<RdbEntry>): bytes
    requires ItemsOk(items)
  {
    if items == [] then [] else Record(items[0]) + Records(items[1..])
  }

  function Dated(items: seq<RdbEntry>): (n: nat)
    ensures n <= |items|
  {
    if items == [] then 0 else (if items[0].expire.Some? then 1 else 0) + Dated(items[1..])
  }

  function InDb(items: seq<RdbEntry>, db: nat): (r: seq<RdbEntry>)
    ensures |r| <= |items|
    ensures ItemsOk(items) ==> ItemsOk(r)
  {
    if items == [] then []
    else (if items[0].db == db then [items[0]] else []) + InDb(items[1..], db)
  }

  function SelectDb(db: Size): bytes { [SELECTDB] + Length(db) }

  function ResizeDb(size: Size, dated: Size): bytes { [RESIZEDB] + Length(size) + Length(dated) }

  function Aux(key: bytes, value: bytes): bytes
    requires |key| < 0x1_0000_0000_0000_0000 && |value| < 0x1_0000_0000_0000_0000
  {
    [AUX] + Text(key) + Text(value)
  }

  /** The section of one database; nothing is written for an empty one. */
  function Section(items: seq<RdbEntry>, db: nat): bytes
    requires ItemsOk(items) && db < 16
  {
    if items == [] then [] else SelectDb(db) + ResizeDb(|items|, Dated(items)) + Records(items)
  }

  function Sections(items: seq<RdbEntry>, db: nat): bytes
    requires ItemsOk(items) && db <= 16
    decreases 16 - db
  {
    if db == 16 then [] else Section(InDb(items, db), db) + Sections(items, db + 1)
  }

  const REDIS_VER: bytes := [114, 101, 100, 105, 115, 45, 118, 101, 114]
  const REDIS_VER_VALUE: bytes := [55, 46, 48, 46, 48]
  const SHRIKEDB_VER: bytes := [115, 104, 114, 105, 107, 101, 100, 98, 45, 118, 101, 114]
  const SHRIKEDB_VER_VALUE: bytes := [48, 46, 49, 46, 48]

  function Preamble(): bytes { MAGIC + VERSION + Aux(REDIS_VER, REDIS_VER_VALUE) + Aux(SHRIKEDB_VER, SHRIKEDB_VER_VALUE) }

  function Sealed(body: bytes): bytes { body + [EOF] + Le(ChecksumOf(body + [EOF]), 8) }

  /** `save_rdb`: the entries grouped by database, sealed with the checksum. */
  function File(items: seq<RdbEntry>): bytes
    requires ItemsOk(items)
  {
    Sealed(Preamble() + Sections(items, 0))
  }

  // ---- What a load should bring back ----

  /** Strings and integers come back as the value that their bytes stand for. */
  function Loaded(i: RdbEntry): RdbEntry { i.(value := FromBytes(AsBytes(i.value))) }

  function LoadedItems(items: seq<RdbEntry>): seq<RdbEntry> {
    if items == [] then []
    else (if IsString(items[0].value) then [Loaded(items[0])] else []) + LoadedItems(items[1..])
  }

  function LoadedSections(items: seq<RdbEntry>, db: nat): seq<RdbEntry>
    requires db <= 16
    decreases 16 - db
  {
    if db == 16 then [] else LoadedItems(InDb(items, db)) + LoadedSections(items, db + 1)
  }

  /** A collection with a deadline leaves a deadline without a value in the file. */
  predicate Stray(i: RdbEntry) { !IsString(i.value) && i.expire.Some? }

  predicate NoStray(items: seq<RdbEntry>) { forall i :: 0 <= i < |items| && items[i].db < 16 ==> !Stray(items[i]) }

  // ---- One record ----

  lemma DeadlineRead(data: bytes, pos: nat, db: nat, ms: Time)
    requires At(data, pos, Deadline(Some(ms)))
    ensures pos + 9 <= |data| && ReadEntry(data, pos, db) == ReadDated(data, pos + 9, db, ms)
  {
    hide Le, LeValue, ReadDated, ReadTyped, ReadLength, ReadText, ReadEnd, SkipTexts, SkipLengths;
    AtSplit(data, pos, [EXPIRETIME_MS], Le(ms, 8));
    AtFirst(data, pos, EXPIRETIME_MS);
    Powers();
    LeRoundTrip(ms, 8);
  }

  lemma PayloadRead(data: bytes, pos: nat, v: PrimeValue)
    requires Storable(v) && IsString(v) && At(data, pos, Payload(v))
    ensures pos <= |data| && ReadText(data, pos) == Got(AsBytes(v), pos + |Payload(v)|)
  {
    hide ReadText, Text, IntegerText, At, ToDecimal;
    match v
    case String(s) => TextRoundTrip(data, pos, s);
    case Integer(n) => IntegerTextRoundTrip(data, pos, n);
  }

  /** Key and value behind the type byte of a string. */
  lemma TypedRead(data: bytes, pos: nat, i: RdbEntry, expire: Option<Time>)
    requires ItemOk(i) && IsString(i.value) && At(data, pos, Text(i.key) + Payload(i.value))
    ensures pos <= |data|
    ensures ReadTyped(data, pos, i.db, TYPE_STRING, expire)
         == Entry(Loaded(i).(expire := expire), i.db, pos + |Text(i.key) + Payload(i.value)|)
  {
    hide ReadText, Text, Payload, At, FromBytes, AsBytes, ReadEntry;
    AtSplit(data, pos, Text(i.key), Payload(i.value));
    TextRoundTrip(data, pos, i.key);
    PayloadRead(data, pos + |Text(i.key)|, i.value);
  }

  /** A string or integer record is read back whole, and reading goes on right behind it. */
  lemma RecordRead(data: bytes, pos: nat, i: RdbEntry)
    requires ItemOk(i) && IsString(i.value) && At(data, pos, Record(i))
    ensures pos <= |data| && ReadEntry(data, pos, i.db) == Entry(Loaded(i), i.db, pos + |Record(i)|)
  {
    hide ReadText, Text, Payload, At, FromBytes, AsBytes, ReadTyped, Deadline, Take, ReadEnd, SkipTexts, SkipLengths, ReadLength;
    var typed := Text(i.key) + Payload(i.value);
    var head := Deadline(i.expire);
    assert Record(i) == head + ([TYPE_STRING] + typed);
    AtSplit(data, pos, head, [TYPE_STRING] + typed);
    AtSplit(data, pos + |head|, [TYPE_STRING], typed);
    AtFirst(data, pos + |head|, TYPE_STRING);
    TypedRead(data, pos + |head| + 1, i, i.expire);
    DeadlineSize(i.expire);
    if i.expire.Some? {
      DeadlineRead(data, pos, i.db, i.expire.value);
    }
  }

  lemma DeadlineSize(expire: Option<Time>)
    ensures |Deadline(expire)| == if expire.Some? then 9 else 0
  {}

  // ---- Runs of records and sections ----

  lemma {:induction false} RecordsLoad(data: bytes, pos: nat, items: seq<RdbEntry>, db: nat)
    requires ItemsOk(items) && NoStray(items) && db < 16 && At(data, pos, Records(items))
    requires forall i :: 0 <= i < |items| ==> items[i].db == db
    ensures pos + |Records(items)| <= |data|
    ensures LoadFrom(data, pos, db) == Prepend(LoadedItems(items), LoadFrom(data, pos + |Records(items)|, db))
    decreases |items|
  {
    hide Record, At, ReadEntry, Loaded, LoadFrom, FromBytes;
    AtInside(data, pos, Records(items));
    if items == [] {
      PrependNone(LoadFrom(data, pos, db));
    } else {
      var i, rest := items[0], items[1..];
      AtSplit(data, pos, Record(i), Records(rest));
      RecordsLoad(data, pos + |Record(i)|, rest, db);
      RecordLoads(data, pos, i);
      PrependTwice(if IsString(i.value) then [Loaded(i)] else [], LoadedItems(rest),
                   LoadFrom(data, pos + |Records(items)|, db));
    }
  }

  lemma AtInside(data: bytes, pos: nat, part: bytes)
    requires At(data, pos, part)
    ensures pos + |part| <= |data|
  {}

  lemma RecordLoads(data: bytes, pos: nat, i: RdbEntry)
    requires ItemOk(i) && !Stray(i) && At(data, pos, Record(i))
    ensures pos + |Record(i)| <= |data|
    ensures LoadFrom(data, pos, i.db)
         == Prepend(if IsString(i.value) then [Loaded(i)] else [], LoadFrom(data, pos + |Record(i)|, i.db))
  {
    hide At, ReadEntry, Loaded, FromBytes, Text, Payload;
    AtInside(data, pos, Record(i));
    if IsString(i.value) {
      RecordRead(data, pos, i);
    } else {
      assert Record(i) == [];
      PrependNone(LoadFrom(data, pos, i.db));
    }
  }

  lemma PrependNone(r: Result<seq<RdbEntry>, RdbError>)
    ensures Prepend([], r) == r
  {
    if r.Ok? {
      assert [] + r.value == r.value;
    }
  }

  lemma PrependTwice(xs: seq<RdbEntry>, ys: seq<RdbEntry>, r: Result<seq<RdbEntry>, RdbError>)
    ensures Prepend(xs, Prepend(ys, r)) == Prepend(xs + ys, r)
  {
    if r.Ok? {
      assert xs + (ys + r.value) == xs + ys + r.value;
    }
  }

  lemma SelectRead(data: bytes, pos: nat, db: nat, next: nat)
    requires next < 16 && At(data, pos, SelectDb(next))
    ensures pos + |SelectDb(next)| <= |data|
    ensures ReadEntry(data, pos, db) == ReadEntry(data, pos + |SelectDb(next)|, next)
  {
    hide At, Length, ReadLength, ReadTyped, ReadDated, ReadText, ReadEnd, SkipTexts, SkipLengths, Take;
    AtInside(data, pos, SelectDb(next));
    AtSplit(data, pos, [SELECTDB], Length(next));
    AtFirst(data, pos, SELECTDB);
    LengthRoundTrip(data, pos + 1, next);
  }

  lemma ResizeRead(data: bytes, pos: nat, db: nat, size: Size, dated: Size)
    requires At(data, pos, ResizeDb(size, dated))
    ensures pos + |ResizeDb(size, dated)| <= |data|
    ensures ReadEntry(data, pos, db) == ReadEntry(data, pos + |ResizeDb(size, dated)|, db)
  {
    hide At, Length, ReadLength, ReadTyped, ReadDated, ReadText, ReadEnd, SkipTexts, Take;
    AtInside(data, pos, ResizeDb(size, dated));
    assert ResizeDb(size, dated) == [RESIZEDB] + (Length(size) + Length(dated));
    AtSplit(data, pos, [RESIZEDB], Length(size) + Length(dated));
    AtFirst(data, pos, RESIZEDB);
    AtSplit(data, pos + 1, Length(size), Length(dated));
    LengthRoundTrip(data, pos + 1, size);
    LengthRoundTrip(data, pos + 1 + |Length(size)|, dated);
  }

  lemma AuxRead(data: bytes, pos: nat, db: nat, key: bytes, value: bytes)
    requires |key| < 0x1_0000_0000_0000_0000 && |value| < 0x1_0000_0000_0000_0000
    requires At(data, pos, Aux(key, value))
    ensures pos + |Aux(key, value)| <= |data|
    ensures ReadEntry(data, pos, db) == ReadEntry(data, pos + |Aux(key, value)|, db)
  {
    hide At, Text, ReadLength, ReadTyped, ReadDated, ReadText, ReadEnd, SkipLengths, Take;
    AtInside(data, pos, Aux(key, value));
    assert Aux(key, value) == [AUX] + (Text(key) + Text(value));
    AtSplit(data, pos, [AUX], Text(key) + Text(value));
    AtFirst(data, pos, AUX);
    AtSplit(data, pos + 1, Text(key), Text(value));
    TextRoundTrip(data, pos + 1, key);
    TextRoundTrip(data, pos + 1 + |Text(key)|, value);
  }

  lemma SameLoad(data: bytes, p: nat, db: nat, q: nat, db': nat)
    requires p <= |data| && q <= |data| && ReadEntry(data, p, db) == ReadEntry(data, q, db')
    ensures LoadFrom(data, p, db) == LoadFrom(data, q, db')
  {
    hide ReadEntry;
  }

  /** A section switches to its database and brings its entries back, whatever the current database was. */
  lemma SectionLoads(data: bytes, pos: nat, items: seq<RdbEntry>, db: nat, current: nat) returns (after: nat)
    requires ItemsOk(items) && NoStray(items) && db < 16 && At(data, pos, Section(items, db))
    requires forall i :: 0 <= i < |items| ==> items[i].db == db
    ensures pos + |Section(items, db)| <= |data|
    ensures LoadFrom(data, pos, current)
         == Prepend(LoadedItems(items), LoadFrom(data, pos + |Section(items, db)|, after))
  {
    hide At, ReadEntry, LoadFrom, SelectDb, ResizeDb, Records;
    AtInside(data, pos, Section(items, db));
    if items == [] {
      PrependNone(LoadFrom(data, pos, current));
      return current;
    }
    var a, b, c := SelectDb(db), ResizeDb(|items|, Dated(items)), Records(items);
    assert Section(items, db) == a + (b + c);
    AtSplit(data, pos, a, b + c);
    AtSplit(data, pos + |a|, b, c);
    SelectRead(data, pos, current, db);
    ResizeRead(data, pos + |a|, db, |items|, Dated(items));
    SameLoad(data, pos, current, pos + |a| + |b|, db);
    RecordsLoad(data, pos + |a| + |b|, items, db);
    after := db;
  }

  lemma {:induction false} InDbOnly(items: seq<RdbEntry>, db: nat)
    ensures forall i :: 0 <= i < |InDb(items, db)| ==> InDb(items, db)[i].db == db
    ensures NoStray(items) ==> NoStray(InDb(items, db))
  {
    if items != [] {
      InDbOnly(items[1..], db);
      var r := InDb(items[1..], db);
      if NoStray(items) {
        assert forall i :: 0 <= i < |items[1..]| ==> items[1..][i] == items[i + 1];
        assert NoStray(items[1..]);
      }
    }
  }

  lemma {:induction false} SectionsLoad(data: bytes, pos: nat, items: seq<RdbEntry>, db: nat, current: nat) returns (after: nat)
    requires ItemsOk(items) && NoStray(items) && db <= 16 && At(data, pos, Sections(items, db))
    ensures pos + |Sections(items, db)| <= |data|
    ensures LoadFrom(data, pos, current)
         == Prepend(LoadedSections(items, db), LoadFrom(data, pos + |Sections(items, db)|, after))
    decreases 16 - db
  {
    hide At, LoadFrom, Section, InDb, LoadedItems;
    AtInside(data, pos, Sections(items, db));
    if db == 16 {
      PrependNone(LoadFrom(data, pos, current));
      return current;
    }
    var here := InDb(items, db);
    var a, b := Section(here, db), Sections(items, db + 1);
    InDbOnly(items, db);
    AtSplit(data, pos, a, b);
    var mid := SectionLoads(data, pos, here, db, current);
    after := SectionsLoad(data, pos + |a|, items, db + 1, mid);
    PrependTwice(LoadedItems(here), LoadedSections(items, db + 1), LoadFrom(data, pos + |Sections(items, db)|, after));
  }

  // ---- The whole file ----

  lemma SealRead(body: bytes, db: nat)
    ensures |body| <= |Sealed(body)| && ReadEntry(Sealed(body), |body|, db) == End
  {
    hide ReadLength, ReadTyped, ReadDated, ReadText, SkipTexts, SkipLengths, ChecksumOf, Le, LeValue;
    var data, sum := Sealed(body), ChecksumOf(body + [EOF]);
    assert data[|body|] == EOF;
    assert data[..|body| + 1] == body + [EOF];
    assert data[|body| + 1..|body| + 9] == Le(sum, 8);
    ChecksumBound(body + [EOF]);
    Powers();
    LeRoundTrip(sum, 8);
  }

  lemma ChecksumBound(data: bytes)
    ensures ChecksumOf(data) < 0x1_0000_0000_0000_0000
  {
    hide Crc;
  }

  lemma HeaderRead(data: bytes)
    requires At(data, 0, MAGIC + VERSION)
    ensures ReadHeader(data) == Got(9, 9)
  {
    AtSplit(data, 0, MAGIC, VERSION);
    VersionNine();
  }

  lemma VersionNine()
    ensures ParseVersion(VERSION) == Some(9)
  {
    var s: bytes := [48, 48, 48, 57];
    assert s[..3] == [48, 48, 48] && s[..3][..2] == [48, 48] && s[..3][..2][..1] == [48];
    assert DigitsValue(s[..3][..2][..1]) == Some(0);
    assert DigitsValue(s[..3][..2]) == Some(0);
    assert DigitsValue(s[..3]) == Some(0);
  }

  /**
   Loading a saved file brings back exactly the strings and integers of the snapshot, database by
   database, with their bytes and deadlines; in particular no checksum mismatch is reported.
   */
  lemma SavedFileLoads(items: seq<RdbEntry>)
    requires ItemsOk(items) && NoStray(items)
    ensures LoadAll(File(items)) == Ok(LoadedSections(items, 0))
  {
    hide At, LoadFrom, Section, InDb, LoadedItems, ReadEntry, Aux, ReadHeader, Sealed, Sections, LoadedSections;
    var body, data := Preamble() + Sections(items, 0), File(items);
    assert At(data, 0, body) by { SealedStarts(body); }
    var head, a, b := MAGIC + VERSION, Aux(REDIS_VER, REDIS_VER_VALUE), Aux(SHRIKEDB_VER, SHRIKEDB_VER_VALUE);
    AtSplit(data, 0, Preamble(), Sections(items, 0));
    assert Preamble() == head + a + b;
    AtSplit(data, 0, head + a, b);
    AtSplit(data, 0, head, a);
    HeaderRead(data);
    AuxRead(data, 9, 0, REDIS_VER, REDIS_VER_VALUE);
    AuxRead(data, 9 + |a|, 0, SHRIKEDB_VER, SHRIKEDB_VER_VALUE);
    SameLoad(data, 9, 0, 9 + |a| + |b|, 0);
    var db := SectionsLoad(data, 9 + |a| + |b|, items, 0, 0);
    SealRead(body, db);
    assert LoadFrom(data, |body|, db) == Ok([]) by { Ended(data, |body|, db); }
    assert LoadedSections(items, 0) + [] == LoadedSections(items, 0);
  }

  lemma Ended(data: bytes, pos: nat, db: nat)
    requires pos <= |data| && ReadEntry(data, pos, db) == End
    ensures LoadFrom(data, pos, db) == Ok([])
  {
    hide ReadEntry;
  }

  lemma SealedStarts(body: bytes)
    ensures At(Sealed(body), 0, body)
  {
    hide ChecksumOf;
  }

  // ---- A collection with a deadline ----

  /** What the loader should do with a record: give its entry, or pass over a record that has none. */
  ghost predicate ReadsAs(data: bytes, pos: nat, i: RdbEntry)
    requires ItemOk(i) && pos + |Record(i)| <= |data|
  {
    ReadEntry(data, pos, i.db) ==
    if IsString(i.value) then Entry(Loaded(i), i.db, pos + |Record(i)|)
    else ReadEntry(data, pos + |Record(i)|, i.db)
  }

  const END_MARK: bytes := [EOF, 0, 0, 0, 0, 0, 0, 0, 0]

  /** The stray deadline takes the end marker for a type and reads on into the checksum. */
  lemma StrayMisreads(i: RdbEntry)
    requires ItemOk(i) && Stray(i)
    ensures At(Record(i) + END_MARK, 0, Record(i)) && !ReadsAs(Record(i) + END_MARK, 0, i)
  {
    hide Deadline, Record, ReadEntry, ReadDated;
    var data, p := Record(i) + END_MARK, |Record(i)|;
    DeadlineSize(i.expire);
    StrayRecord(i);
    assert At(data, 0, Record(i));
    DeadlineRead(data, 0, i.db, i.expire.value);
    assert forall k :: p <= k < |data| ==> data[k] == END_MARK[k - p];
    ZeroMark(data, p, i.db);
    ReadsZeros(data, p + 1, i.db, i.expire.value);
  }

  lemma StrayRecord(i: RdbEntry)
    requires ItemOk(i) && Stray(i)
    ensures Record(i) == Deadline(i.expire)
  {
    hide Deadline;
  }

  lemma ZeroMark(data: bytes, p: nat, db: nat)
    requires |data| == p + 9 && data[p] == EOF && forall k :: p < k < |data| ==> data[k] == 0
    ensures ReadEntry(data, p, db) == End
  {
    hide ReadLength, ReadTyped, ReadDated, ReadText, SkipTexts, SkipLengths, ChecksumOf, LeValue;
    Zeros(data[p + 1..p + 9]);
  }

  lemma {:induction false} Zeros(s: bytes)
    requires forall k :: 0 <= k < |s| ==> s[k] == 0
    ensures LeValue(s) == 0
  {
    if s != [] {
      Zeros(s[1..]);
    }
  }

  lemma ReadsZeros(data: bytes, p: nat, db: nat, expire: Time)
    requires 0 < p && |data| == p + 8 && data[p - 1] == EOF && forall k :: p <= k < |data| ==> data[k] == 0
    ensures ReadDated(data, p - 1, db, expire).Entry?
  {
    hide SkipTexts, SkipLengths, ReadDated, FromBytes, ReadCompressed, ReadSigned;
    assert ReadText(data, p) == Got([], p + 1);
    assert ReadText(data, p + 2) == Got([], p + 3);
    assert ReadText(data, p + 3) == Got([], p + 4);
    assert ReadTyped(data, p + 2, db, TYPE_STRING, None).Entry?;
    assert ReadEntry(data, p + 1, db).Entry?;
    assert ReadTyped(data, p, db, EOF, Some(expire)).Entry?;
    DatedTyped(data, p - 1, db, expire);
  }

  lemma DatedTyped(data: bytes, p: nat, db: nat, expire: Time)
    requires p < |data|
    ensures ReadDated(data, p, db, expire) == ReadTyped(data, p + 1, db, data[p], Some(expire))
  {
    hide ReadTyped;
  }

  /** A record is read correctly wherever it stands exactly if it is not a collection with a deadline. */
  lemma RecordReadsIff(i: RdbEntry)
    requires ItemOk(i)
    ensures !Stray(i) <==> forall data, pos :: At(data, pos, Record(i)) ==> ReadsAs(data, pos, i)
  {
    hide ReadEntry, Loaded;
    if Stray(i) {
      StrayMisreads(i);
    } else {
      forall data, pos | At(data, pos, Record(i))
        ensures ReadsAs(data, pos, i)
      {
        if IsString(i.value) {
          RecordRead(data, pos, i);
        } else {
          assert Record(i) == [];
        }
      }
    }
  }
}
