/** A snapshot of all shards written to one file, grouped by database. */
module Snapshots {
  import opened Common
  import Collect
  import opened Crc64
  import opened RdbFiles
  import opened RdbFormat
  import opened RdbLoaders
  import opened RdbSavers

  /** The entries of all shards, one shard after the other. */
  function Merged(shards: seq<seq<RdbEntry>>): seq<RdbEntry> { if shards == [] then [] else shards[0] + Merged(shards[1..]) }

  lemma {:induction false} MergedMore(shards: seq<seq<RdbEntry>>, shard: seq<RdbEntry>)
    ensures Merged(shards + [shard]) == Merged(shards) + shard
  {
    if shards == [] {
      assert shards + [shard] == [shard] && [shard][1..] == [];
    } else {
      assert (shards + [shard])[1..] == shards[1..] + [shard];
      MergedMore(shards[1..], shard);
    }
  }

  lemma {:induction false} InDbMore(items: seq<RdbEntry>, i: RdbEntry, db: nat)
    ensures InDb(items + [i], db) == InDb(items, db) + if i.db == db then [i] else []
  {
    if items == [] {
      assert items + [i] == [i] && [i][1..] == [];
    } else {
      var head: seq<RdbEntry> := if items[0].db == db then [items[0]] else [];
      var last: seq<RdbEntry> := if i.db == db then [i] else [];
      assert (items + [i])[1..] == items[1..] + [i];
      InDbMore(items[1..], i, db);
      Collect.Joined(head, InDb(items[1..], db), last);
    }
  }

  lemma {:induction false} DatedMore(items: seq<RdbEntry>, i: RdbEntry)
    ensures Dated(items + [i]) == Dated(items) + if i.expire.Some? then 1 else 0
  {
    if items == [] {
      assert items + [i] == [i];
    } else {
      assert (items + [i])[1..] == items[1..] + [i];
      DatedMore(items[1..], i);
    }
  }

  /** The innermost loop: the entries of one database in one shard. */
  method CollectShard(shard: seq<RdbEntry>, db: nat, sofar: seq<RdbEntry>, count: nat, ghost before: seq<RdbEntry>)
    returns (entries: seq<RdbEntry>, dated: nat)
    requires sofar == InDb(before, db) && count == Dated(sofar)
    ensures entries == InDb(before + shard, db) && dated == Dated(entries)
  {
    hide InDb, Dated;
    entries, dated := sofar, count;
    assert before + shard[..0] == before;
    for e := 0 to |shard|
      invariant entries == InDb(before + shard[..e], db) && dated == Dated(entries)
    {
      var item := shard[e];
      assert before + shard[..e + 1] == before + shard[..e] + [item];
      InDbMore(before + shard[..e], item, db);
      DatedMore(entries, item);
      if item.db == db {
        entries := entries + [item];
        if item.expire.Some? {
          dated := dated + 1;
        }
      }
    }
    assert shard[..|shard|] == shard;
  }

  /** The entries of one database in all shards, and how many have a deadline. */
  method CollectDb(shards: seq<seq<RdbEntry>>, db: nat) returns (entries: seq<RdbEntry>, dated: nat)
    ensures entries == InDb(Merged(shards), db) && dated == Dated(entries)
  {
    hide InDb, Merged, Dated;
    NoEntries(shards, db);
    entries, dated := [], 0;
    for s := 0 to |shards|
      invariant entries == InDb(Merged(shards[..s]), db) && dated == Dated(entries)
    {
      MergedMore(shards[..s], shards[s]);
      assert shards[..s + 1] == shards[..s] + [shards[s]];
      entries, dated := CollectShard(shards[s], db, entries, dated, Merged(shards[..s]));
    }
    assert shards[..|shards|] == shards;
  }

  lemma NoEntries(shards: seq<seq<RdbEntry>>, db: nat)
    ensures InDb(Merged(shards[..0]), db) == [] && Dated([]) == 0
  {}

  lemma NextRecord(out: bytes, entries: seq<RdbEntry>, i: nat)
    requires i < |entries| && ItemsOk(entries)
    ensures ItemOk(entries[i])
    ensures var e := entries[i];
            out + Records(entries[i..]) == out + Pair(e.key, e.value, e.expire) + Records(entries[i + 1..])
  {
    hide Pair;
    assert entries[i..][1..] == entries[i + 1..];
  }

  /** The loop that writes the entries of one database. */
  method WriteRecords(saver: RdbSaver, entries: seq<RdbEntry>)
    requires saver.Valid() && ItemsOk(entries)
    modifies saver
    ensures saver.Valid() && saver.out == old(saver.out) + Records(entries)
  {
    var i := 0;
    assert entries[0..] == entries && entries[|entries|..] == [];
    assert Records([]) == [];
    hide Records, Pair, RdbSaver.Valid, ItemsOk, ItemOk;
    Suffixes(entries);
    while i < |entries|
      invariant 0 <= i <= |entries| && saver.Valid()
      invariant saver.out + Records(entries[i..]) == old(saver.out) + Records(entries)
    {
      NextRecord(saver.out, entries, i);
      ItemParts(entries[i]);
      saver.WriteKeyValue(entries[i].key, entries[i].value, entries[i].expire);
      i := i + 1;
    }
  }

  lemma Suffixes(entries: seq<RdbEntry>)
    requires ItemsOk(entries)
    ensures forall i :: 0 <= i <= |entries| ==> ItemsOk(entries[i..])
  {}

  lemma ItemParts(i: RdbEntry)
    requires ItemOk(i)
    ensures |i.key| < 0x1_0000_0000_0000_0000 && Storable(i.value)
  {}

  /** A section is written only for a database that has entries. */
  method WriteSection(saver: RdbSaver, entries: seq<RdbEntry>, dated: nat, db: nat)
    requires saver.Valid() && ItemsOk(entries) && dated == Dated(entries) && db < 16
    modifies saver
    ensures saver.Valid() && saver.out == old(saver.out) + Section(entries, db)
  {
    hide RdbSaver.Valid, Records, SelectDb, ResizeDb;
    if entries == [] {
      return;
    }
    saver.WriteSelectDb(db);
    saver.WriteResizeDb(|entries|, dated);
    WriteRecords(saver, entries);
    assert saver.out == old(saver.out) + Section(entries, db);
  }

  lemma NextSection(out: bytes, items: seq<RdbEntry>, db: nat)
    requires ItemsOk(items) && db < 16
    ensures out + Sections(items, db) == out + Section(InDb(items, db), db) + Sections(items, db + 1)
  {
    hide Section;
  }

  lemma NoSection(items: seq<RdbEntry>)
    requires ItemsOk(items)
    ensures Sections(items, 16) == []
  {}

  /** `save_rdb` without the file system: the bytes of the file and their number. */
  method SaveRdb(table: seq<bv64>, shards: seq<seq<RdbEntry>>) returns (out: bytes, written: nat)
    requires IsTable(table) && ItemsOk(Merged(shards))
    ensures out == File(Merged(shards)) && written == |out|
  {
    hide IsTable, Section, Sealed, Aux, InDb, Sections, ItemsOk, RdbSaver.Valid, Preamble;
    ghost var items := Merged(shards);
    var saver := new RdbSaver(table);
    saver.WriteHeader();
    saver.WriteAux(REDIS_VER, REDIS_VER_VALUE);
    saver.WriteAux(SHRIKEDB_VER, SHRIKEDB_VER_VALUE);
    PreambleParts();
    var db := 0;
    while db < 16
      invariant 0 <= db <= 16 && saver.Valid()
      invariant saver.out + Sections(items, db) == Preamble() + Sections(items, 0)
    {
      NextSection(saver.out, items, db);
      var entries, dated := CollectDb(shards, db);
      WriteSection(saver, entries, dated, db);
      db := db + 1;
    }
    NoSection(items);
    assert saver.out + [] == saver.out;
    saver.WriteEof();
    return saver.out, saver.bytesWritten;
  }

  lemma PreambleParts()
    ensures Preamble() == [] + (MAGIC + VERSION) + Aux(REDIS_VER, REDIS_VER_VALUE) + Aux(SHRIKEDB_VER, SHRIKEDB_VER_VALUE)
  {
    hide Aux;
  }

  /** Saving and loading again: the two classes together lose nothing but the collections. */
  method SaveAndLoad(shards: seq<seq<RdbEntry>>) returns (r: Result<seq<RdbEntry>, RdbError>)
    requires ItemsOk(Merged(shards)) && NoStray(Merged(shards))
    ensures r == Ok(LoadedSections(Merged(shards), 0))
  {
    hide IsTable, File, LoadAll;
    var table := BuildTable();
    var out, _ := SaveRdb(table, shards);
    SavedFileLoads(Merged(shards));
    r := LoadFile(table, out);
  }
}
