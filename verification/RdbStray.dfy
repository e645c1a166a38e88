/** A file whose last record is a stray deadline: nothing of it can be loaded. */
module RdbStray {
  import opened Common
  import Collect
  import opened PrimeValues
  import opened RdbFormat
  import opened RdbFiles
  import opened Words
  import opened Snapshots

  /** With eight bytes left there is no room for an end marker and its checksum. */
  lemma {:induction false} ShortEntry(data: bytes, pos: nat, db: nat)
    requires pos <= |data| <= pos + 8
    ensures !ReadEntry(data, pos, db).End?
    decreases |data| - pos, 1
  {
    hide ReadLength, ReadText, LeValue, ChecksumOf;
    if pos < |data| {
      var code, next := data[pos], pos + 1;
      var skip := if code == RESIZEDB then SkipLengths(data, next) else SkipTexts(data, next);
      if code == SELECTDB || code == IDLE {
        var l := ReadLength(data, next);
        if l.Got? {
          ShortEntry(data, l.pos, if code == SELECTDB then l.value.len % 0x1_0000_0000 else db);
        }
      } else if code == RESIZEDB || code == AUX {
        if skip.Got? {
          ShortEntry(data, skip.pos, db);
        }
      } else if code == EXPIRETIME {
        var s := Take(data, next, 4);
        if s.Got? && s.pos < |data| {
          ShortTyped(data, s.pos + 1, db, data[s.pos], Some(Seconds(s.value)));
        }
      } else if code == FREQ {
        if next < |data| {
          ShortEntry(data, next + 1, db);
        }
      } else if code != EOF && code != EXPIRETIME_MS {
        ShortTyped(data, next, db, code, None);
      }
    }
  }

  lemma {:induction false} ShortTyped(data: bytes, pos: nat, db: nat, code: byte, expire: Option<Time>)
    requires pos <= |data| <= pos + 8
    ensures !ReadTyped(data, pos, db, code, expire).End?
    decreases |data| - pos, 0
  {
    hide ReadText, FromBytes;
    var key := ReadText(data, pos);
    if key.Got? && code != TYPE_STRING {
      ShortEntry(data, key.pos, db);
    }
  }

  lemma {:induction false} ShortLoad(data: bytes, pos: nat, db: nat)
    requires pos <= |data| <= pos + 8
    ensures LoadFrom(data, pos, db).Err?
    decreases |data| - pos
  {
    hide ReadEntry;
    ShortEntry(data, pos, db);
    match ReadEntry(data, pos, db)
    case Entry(_, db', p) => ShortLoad(data, p, db');
    case _ =>
  }

  /** The stray deadline right before the end marker takes the marker for a type. */
  lemma StrayLoad(body: bytes, pos: nat, x: RdbEntry, db: nat)
    requires ItemOk(x) && Stray(x) && At(Sealed(body), pos, Record(x)) && pos + |Record(x)| == |body|
    ensures LoadFrom(Sealed(body), pos, db).Err?
  {
    var data, ms := Sealed(body), x.expire.value;
    assert |data| == |body| + 9 by { hide ChecksumOf; }
    DeadlineSize(x.expire);
    assert Record(x) == Deadline(x.expire) by { hide Deadline; }
    hide Sealed, Record, Deadline, ReadEntry, ReadTyped, At;
    DeadlineRead(data, pos, db, ms);
    DatedTyped(data, |body|, db, ms);
    ShortTyped(data, |body| + 1, db, data[|body|], Some(ms));
    match ReadTyped(data, |body| + 1, db, data[|body|], Some(ms))
    case Entry(_, db', p) => ShortLoad(data, p, db');
    case _ =>
  }

  // ---- The last section ----

  lemma {:induction false} RecordsMore(items: seq<RdbEntry>, x: RdbEntry)
    requires ItemsOk(items + [x]) && ItemsOk(items) && ItemOk(x)
    ensures Records(items + [x]) == Records(items) + Record(x)
    decreases |items|
  {
    hide Record;
    if items == [] {
      assert items + [x] == [x] && [x][1..] == [];
    } else {
      assert (items + [x])[1..] == items[1..] + [x];
      RecordsMore(items[1..], x);
    }
  }

  lemma {:induction false} NoLater(items: seq<RdbEntry>, db: nat)
    requires ItemsOk(items) && db <= 16 && forall i :: 0 <= i < |items| ==> items[i].db < db
    ensures Sections(items, db) == []
    decreases 16 - db
  {
    if db < 16 {
      NoneIn(items, db);
      NoLater(items, db + 1);
    }
  }

  lemma {:induction false} NoneIn(items: seq<RdbEntry>, db: nat)
    requires forall i :: 0 <= i < |items| ==> items[i].db != db
    ensures InDb(items, db) == []
  {
    if items != [] {
      assert forall i :: 0 <= i < |items[1..]| ==> items[1..][i] == items[i + 1];
      NoneIn(items[1..], db);
    }
  }

  /** A snapshot that is fine but for its last entry, which stands in the highest database. */
  ghost predicate FineUpTo(front: seq<RdbEntry>, x: RdbEntry) {
    && ItemsOk(front + [x]) && ItemsOk(front) && ItemOk(x) && NoStray(front) && x.db < 16
    && forall i :: 0 <= i < |front| ==> front[i].db <= x.db
  }

  /** The last entry is a collection with a deadline. */
  ghost predicate EndsStray(front: seq<RdbEntry>, x: RdbEntry) { FineUpTo(front, x) && Stray(x) }

  lemma LastSectionFails(body: bytes, pos: nat, front: seq<RdbEntry>, x: RdbEntry, current: nat)
    requires EndsStray(front, x) && At(Sealed(body), pos, Section(InDb(front + [x], x.db), x.db))
    requires pos + |Section(InDb(front + [x], x.db), x.db)| == |body|
    ensures LoadFrom(Sealed(body), pos, current).Err?
  {
    hide Sealed, Record, Records, At, ReadEntry, LoadFrom, SelectDb, ResizeDb, InDb;
    var data, db := Sealed(body), x.db;
    InDbMore(front, x, db);
    var here := InDb(front, db);
    var items := here + [x];
    InDbOnly(front, db);
    RecordsMore(here, x);
    var a, b, c := SelectDb(db), ResizeDb(|items|, Dated(items)), Records(here);
    assert Section(items, db) == a + (b + (c + Record(x)));
    AtSplit(data, pos, a, b + (c + Record(x)));
    AtSplit(data, pos + |a|, b, c + Record(x));
    AtSplit(data, pos + |a| + |b|, c, Record(x));
    SelectRead(data, pos, current, db);
    ResizeRead(data, pos + |a|, db, |items|, Dated(items));
    SameLoad(data, pos, current, pos + |a| + |b|, db);
    RecordsLoad(data, pos + |a| + |b|, here, db);
    StrayLoad(body, pos + |a| + |b| + |c|, x, db);
  }

  lemma {:induction false} SectionsFail(body: bytes, pos: nat, front: seq<RdbEntry>, x: RdbEntry, db: nat, current: nat)
    requires EndsStray(front, x) && db <= x.db && At(Sealed(body), pos, Sections(front + [x], db))
    requires pos + |Sections(front + [x], db)| == |body|
    ensures LoadFrom(Sealed(body), pos, current).Err?
    decreases 16 - db
  {
    hide Sealed, At, LoadFrom, Section, InDb, LoadedItems, Record;
    var items := front + [x];
    var a, b := Section(InDb(items, db), db), Sections(items, db + 1);
    AtSplit(Sealed(body), pos, a, b);
    if db == x.db {
      NoLater(items, db + 1);
      LastSectionFails(body, pos, front, x, current);
    } else {
      InDbMore(front, x, db);
      InDbOnly(front, db);
      assert InDb(items, db) == InDb(front, db);
      var mid := SectionLoads(Sealed(body), pos, InDb(front, db), db, current);
      SectionsFail(body, pos + |a|, front, x, db + 1, mid);
    }
  }

  /** One collection with a deadline at the end of a dump makes the whole dump unreadable. */
  lemma StrayFileFails(front: seq<RdbEntry>, x: RdbEntry)
    requires EndsStray(front, x)
    ensures LoadAll(File(front + [x])).Err?
  {
    hide At, LoadFrom, Sections, ReadEntry, Aux, ReadHeader, Sealed, EndsStray;
    assert ItemsOk(front + [x]) by { ItemsFine(front, x); }
    var items := front + [x];
    var body, data := Preamble() + Sections(items, 0), File(items);
    assert At(data, 0, body) by { SealedStarts(body); }
    var head, a, b := MAGIC + VERSION, Aux(REDIS_VER, REDIS_VER_VALUE), Aux(SHRIKEDB_VER, SHRIKEDB_VER_VALUE);
    AtSplit(data, 0, Preamble(), Sections(items, 0));
    assert Preamble() == head + a + b;
    AtSplit(data, 0, head + a, b);
    AtSplit(data, 0, head, a);
    HeaderRead(data);
    AuxRead(data, 9, 0, REDIS_VER, REDIS_VER_VALUE);
    AuxRead(data, 9 + |a|, 0, SHRIKEDB_VER, SHRIKEDB_VER_VALUE);
    SameLoad(data, 9, 0, 9 + |a| + |b|, 0);
    SectionsFail(body, 9 + |a| + |b|, front, x, 0, 0);
  }

  lemma ItemsFine(front: seq<RdbEntry>, x: RdbEntry)
    requires EndsStray(front, x)
    ensures ItemsOk(front + [x])
  {}

  /** Such a dump brings back its strings and integers if and only if the last entry is not a collection with a deadline. */
  lemma DumpLoadsIff(front: seq<RdbEntry>, x: RdbEntry)
    requires FineUpTo(front, x)
    ensures LoadAll(File(front + [x])) == Ok(LoadedSections(front + [x], 0)) <==> !Stray(x)
  {
    hide File, LoadAll, LoadedSections;
    if Stray(x) {
      StrayFileFails(front, x);
    } else {
      assert NoStray(front + [x]);
      SavedFileLoads(front + [x]);
    }
  }

  /**
   Two strays can cancel out: a second one with deadline 7 is skipped as the key of an unknown type, and
   reading goes on correctly behind both. So one stray at the end decides, not strays in general.
   */
  lemma StraysCancel(data: bytes, pos: nat, db: nat, ms: Time)
    requires At(data, pos, Deadline(Some(ms)) + Deadline(Some(7)))
    ensures pos + 18 <= |data| && ReadEntry(data, pos, db) == ReadEntry(data, pos + 18, db)
  {
    assert |Deadline(Some(ms))| == 9 by { DeadlineSize(Some(ms)); }
    hide Deadline, ReadEntry, ReadDated, At;
    AtSplit(data, pos, Deadline(Some(ms)), Deadline(Some(7)));
    DeadlineRead(data, pos, db, ms);
    SevenThere(data, pos + 9);
    SevenSkipped(data, pos + 9, db, ms);
  }

  lemma SevenThere(data: bytes, pos: nat)
    requires At(data, pos, Deadline(Some(7)))
    ensures pos + 9 <= |data| && data[pos] == EXPIRETIME_MS && data[pos + 1] == 7
  {
    SevenBytes();
    hide Deadline;
    var d := Deadline(Some(7));
    assert data[pos..pos + 9] == d;
    assert data[pos] == d[0] && data[pos + 1] == d[1];
  }

  /** Behind a deadline those nine bytes are an unknown type and its key. */
  lemma SevenSkipped(data: bytes, pos: nat, db: nat, ms: Time)
    requires pos + 9 <= |data| && data[pos] == EXPIRETIME_MS && data[pos + 1] == 7
    ensures ReadDated(data, pos, db, ms) == ReadEntry(data, pos + 9, db)
  {
    hide ReadText, ReadEntry, ReadDated;
    DatedTyped(data, pos, db, ms);
    SevenTaken(data, pos + 1);
  }

  /** The byte 7 is the length of a text of seven bytes. */
  lemma SevenTaken(data: bytes, pos: nat)
    requires pos + 8 <= |data| && data[pos] == 7
    ensures ReadText(data, pos).Got? && ReadText(data, pos).pos == pos + 8
  {
    assert ReadLength(data, pos) == Got(LengthRead(7, false), pos + 1);
  }

  lemma SevenBytes()
    ensures |Deadline(Some(7))| == 9 && Deadline(Some(7))[0] == EXPIRETIME_MS && Deadline(Some(7))[1] == 7
  {}

  // ---- A stray deadline in front of a string ----

  lemma {:induction false} InDbSplits(a: seq<RdbEntry>, b: seq<RdbEntry>, db: nat)
    ensures InDb(a + b, db) == InDb(a, db) + InDb(b, db)
    decreases |a|
  {
    if a == [] {
      assert a + b == b;
    } else {
      assert (a + b)[1..] == a[1..] + b;
      InDbSplits(a[1..], b, db);
      Collect.Joined(if a[0].db == db then [a[0]] else [], InDb(a[1..], db), InDb(b, db));
    }
  }

  lemma {:induction false} RecordsSplit(a: seq<RdbEntry>, b: seq<RdbEntry>)
    requires ItemsOk(a + b) && ItemsOk(a) && ItemsOk(b)
    ensures Records(a + b) == Records(a) + Records(b)
    decreases |a|
  {
    hide Record;
    if a == [] {
      assert a + b == b;
    } else {
      assert (a + b)[1..] == a[1..] + b;
      RecordsSplit(a[1..], b);
      Collect.Joined(Record(a[0]), Records(a[1..]), Records(b));
    }
  }

  lemma {:induction false} DatedSplits(a: seq<RdbEntry>, b: seq<RdbEntry>)
    ensures Dated(a + b) == Dated(a) + Dated(b)
    decreases |a|
  {
    if a == [] {
      assert a + b == b;
    } else {
      assert (a + b)[1..] == a[1..] + b;
      DatedSplits(a[1..], b);
    }
  }

  /** A collection with a deadline, and right behind it in the same database a string without one. */
  predicate Robs(x: RdbEntry, y: RdbEntry) {
    ItemOk(x) && ItemOk(y) && Stray(x) && x.db == y.db < 16 && IsString(y.value) && y.expire.None?
  }

  /** The two entries with the deadline moved to the string. */
  function Swapped(x: RdbEntry, y: RdbEntry): seq<RdbEntry> { [x.(expire := None), y.(expire := x.expire)] }

  lemma SameRecords(x: RdbEntry, y: RdbEntry)
    requires Robs(x, y)
    ensures ItemsOk([x, y]) && ItemsOk(Swapped(x, y))
    ensures Records([x, y]) == Records(Swapped(x, y)) && Dated([x, y]) == Dated(Swapped(x, y)) == 1
  {
    hide Deadline, Text, Payload;
    var x', y' := x.(expire := None), y.(expire := x.expire);
    TwoRecords(x, y);
    TwoRecords(x', y');
    assert Deadline(None) == [] by { DeadlineSize(None); }
    assert Record(x) + Record(y) == Record(x') + Record(y');
  }

  lemma TwoRecords(x: RdbEntry, y: RdbEntry)
    requires ItemOk(x) && ItemOk(y)
    ensures ItemsOk([x, y]) && Records([x, y]) == Record(x) + Record(y)
    ensures Dated([x, y]) == (if x.expire.Some? then 1 else 0) + (if y.expire.Some? then 1 else 0)
  {
    hide Record;
    assert [x, y][1..] == [y] && [y][1..] == [];
    assert Records([y]) == Record(y);
  }

  lemma SameSection(front: seq<RdbEntry>, x: RdbEntry, y: RdbEntry, rest: seq<RdbEntry>, db: nat)
    requires Robs(x, y) && db < 16 && ItemsOk(front + [x, y] + rest) && ItemsOk(front + Swapped(x, y) + rest)
    ensures Section(InDb(front + [x, y] + rest, db), db) == Section(InDb(front + Swapped(x, y) + rest, db), db)
  {
    hide Section, InDb, ItemsOk;
    var a, c := InDb(front, db), InDb(rest, db);
    InDbThree(front, [x, y], rest, db);
    InDbThree(front, Swapped(x, y), rest, db);
    InDbPair(x, y, db);
    InDbPair(x.(expire := None), y.(expire := x.expire), db);
    if db == x.db {
      SameBytes(a, x, y, c, db);
    }
  }

  /** The entries of one database. */
  lemma SameBytes(a: seq<RdbEntry>, x: RdbEntry, y: RdbEntry, c: seq<RdbEntry>, db: nat)
    requires Robs(x, y) && db < 16 && ItemsOk(a + [x, y] + c) && ItemsOk(a + Swapped(x, y) + c)
    ensures Section(a + [x, y] + c, db) == Section(a + Swapped(x, y) + c, db)
  {
    hide Records, Record, SelectDb, ResizeDb, ItemOk, Dated, ItemsOk;
    ThreeParts(a, [x, y], c);
    ThreeParts(a, Swapped(x, y), c);
    SameRecords(x, y);
  }

  lemma ItemsParts(a: seq<RdbEntry>, b: seq<RdbEntry>, c: seq<RdbEntry>)
    requires ItemsOk(a + b + c)
    ensures ItemsOk(a) && ItemsOk(b) && ItemsOk(c) && ItemsOk(a + b)
  {
    var all := a + b + c;
    assert forall i :: 0 <= i < |a| ==> a[i] == all[i];
    assert forall i :: 0 <= i < |b| ==> b[i] == all[|a| + i];
    assert forall i :: 0 <= i < |c| ==> c[i] == all[|a| + |b| + i];
  }

  lemma InDbThree(a: seq<RdbEntry>, b: seq<RdbEntry>, c: seq<RdbEntry>, db: nat)
    ensures InDb(a + b + c, db) == InDb(a, db) + InDb(b, db) + InDb(c, db)
  {
    hide InDb;
    InDbSplits(a + b, c, db);
    InDbSplits(a, b, db);
  }

  lemma InDbPair(x: RdbEntry, y: RdbEntry, db: nat)
    requires x.db == y.db
    ensures InDb([x, y], db) == if x.db == db then [x, y] else []
  {
    assert [x, y][1..] == [y] && [y][1..] == [];
    assert InDb([y], db) == if y.db == db then [y] else [];
  }

  lemma ThreeParts(a: seq<RdbEntry>, b: seq<RdbEntry>, c: seq<RdbEntry>)
    requires ItemsOk(a + b + c)
    ensures ItemsOk(a) && ItemsOk(b) && ItemsOk(c)
    ensures Records(a + b + c) == Records(a) + Records(b) + Records(c)
    ensures Dated(a + b + c) == Dated(a) + Dated(b) + Dated(c)
  {
    hide Records, Dated, ItemOk;
    ItemsParts(a, b, c);
    RecordsSplit(a + b, c);
    RecordsSplit(a, b);
    DatedSplits(a + b, c);
    DatedSplits(a, b);
  }

  lemma {:induction false} SameSections(front: seq<RdbEntry>, x: RdbEntry, y: RdbEntry, rest: seq<RdbEntry>, db: nat)
    requires Robs(x, y) && db <= 16 && ItemsOk(front + [x, y] + rest) && ItemsOk(front + Swapped(x, y) + rest)
    ensures Sections(front + [x, y] + rest, db) == Sections(front + Swapped(x, y) + rest, db)
    decreases 16 - db
  {
    hide Section, InDb, ItemOk;
    if db < 16 {
      SameSection(front, x, y, rest, db);
      SameSections(front, x, y, rest, db + 1);
    }
  }

  lemma SwappedOk(front: seq<RdbEntry>, x: RdbEntry, y: RdbEntry, rest: seq<RdbEntry>)
    requires Robs(x, y) && ItemsOk(front + [x, y] + rest)
    ensures ItemsOk(front + Swapped(x, y) + rest)
  {
    hide Storable;
    var a, b := front + [x, y] + rest, front + Swapped(x, y) + rest;
    forall i | 0 <= i < |b|
      ensures ItemOk(b[i])
    {
      if i < |front| || i >= |front| + 2 {
        assert b[i] == a[i];
      }
    }
  }

  /**
   The dump of a collection with a deadline followed by a string without one is, byte for byte, the dump
   in which the string has that deadline. No loader can tell the two apart.
   */
  lemma DeadlineMoves(front: seq<RdbEntry>, x: RdbEntry, y: RdbEntry, rest: seq<RdbEntry>)
    requires Robs(x, y) && ItemsOk(front + [x, y] + rest)
    ensures ItemsOk(front + Swapped(x, y) + rest)
    ensures File(front + [x, y] + rest) == File(front + Swapped(x, y) + rest)
  {
    hide Sections, Preamble, Sealed, ItemsOk;
    SwappedOk(front, x, y, rest);
    SameSections(front, x, y, rest, 0);
  }

  lemma {:induction false} LoadedItemsSplit(a: seq<RdbEntry>, b: seq<RdbEntry>)
    ensures LoadedItems(a + b) == LoadedItems(a) + LoadedItems(b)
    decreases |a|
  {
    hide Loaded;
    if a == [] {
      assert a + b == b;
    } else {
      assert (a + b)[1..] == a[1..] + b;
      LoadedItemsSplit(a[1..], b);
      Collect.Joined(if IsString(a[0].value) then [Loaded(a[0])] else [], LoadedItems(a[1..]), LoadedItems(b));
    }
  }

  lemma LoadedPair(x: RdbEntry, y: RdbEntry)
    requires !IsString(x.value) && IsString(y.value)
    ensures LoadedItems([x, y]) == [Loaded(y)]
  {
    hide Loaded;
    assert [x, y][1..] == [y] && [y][1..] == [];
    assert LoadedItems([y]) == [Loaded(y)];
  }

  /** In its own database the string is loaded with another deadline; everything else is the same. */
  lemma LoadedDiffers(front: seq<RdbEntry>, x: RdbEntry, y: RdbEntry, rest: seq<RdbEntry>, db: nat)
    requires Robs(x, y)
    ensures var p, q := LoadedItems(InDb(front + [x, y] + rest, db)), LoadedItems(InDb(front + Swapped(x, y) + rest, db));
            |p| == |q| && (db == x.db ==> p != q)
  {
    hide InDb, LoadedItems;
    var x', y' := x.(expire := None), y.(expire := x.expire);
    InDbThree(front, [x, y], rest, db);
    InDbThree(front, Swapped(x, y), rest, db);
    InDbPair(x, y, db);
    InDbPair(x', y', db);
    if db == x.db {
      var a, c := InDb(front, db), InDb(rest, db);
      LoadedItemsSplit(a + [x, y], c);
      LoadedItemsSplit(a, [x, y]);
      LoadedItemsSplit(a + Swapped(x, y), c);
      LoadedItemsSplit(a, Swapped(x, y));
      LoadedPair(x, y);
      LoadedPair(x', y');
      var p, q, n := LoadedItems(a) + [Loaded(y)] + LoadedItems(c), LoadedItems(a) + [Loaded(y')] + LoadedItems(c), |LoadedItems(a)|;
      assert p[n] == Loaded(y) && q[n] == Loaded(y');
    }
  }

  lemma {:induction false} LoadedSectionsDiffer(front: seq<RdbEntry>, x: RdbEntry, y: RdbEntry, rest: seq<RdbEntry>, db: nat)
    requires Robs(x, y) && db <= x.db
    ensures LoadedSections(front + [x, y] + rest, db) != LoadedSections(front + Swapped(x, y) + rest, db)
    decreases 16 - db
  {
    hide InDb, LoadedItems;
    var a, b := front + [x, y] + rest, front + Swapped(x, y) + rest;
    var p, q := LoadedItems(InDb(a, db)), LoadedItems(InDb(b, db));
    LoadedDiffers(front, x, y, rest, db);
    var p', q' := LoadedSections(a, db + 1), LoadedSections(b, db + 1);
    if p + p' == q + q' {
      assert p == (p + p')[..|p|] && q == (q + q')[..|q|];
      assert p' == (p + p')[|p|..] && q' == (q + q')[|q|..];
      if db < x.db {
        LoadedSectionsDiffer(front, x, y, rest, db + 1);
      }
    }
  }

  /**
   Such a dump loads without an error, but the string has silently taken over the deadline of the
   collection, and will vanish when it passes.
   */
  lemma DeadlineStolen(front: seq<RdbEntry>, x: RdbEntry, y: RdbEntry, rest: seq<RdbEntry>)
    requires Robs(x, y) && ItemsOk(front + [x, y] + rest) && NoStray(front) && NoStray(rest)
    ensures LoadAll(File(front + [x, y] + rest)) == Ok(LoadedSections(front + Swapped(x, y) + rest, 0))
    ensures LoadAll(File(front + [x, y] + rest)) != Ok(LoadedSections(front + [x, y] + rest, 0))
  {
    hide File, LoadAll, LoadedSections;
    DeadlineMoves(front, x, y, rest);
    assert NoStray(front + Swapped(x, y) + rest);
    SavedFileLoads(front + Swapped(x, y) + rest);
    LoadedSectionsDiffer(front, x, y, rest, 0);
  }
}
