/** The loader: reads a file byte by byte, keeping the checksum of what it has read. */
module RdbLoaders {
  import opened Common
  import opened Crc64
  import opened Decimal
  import opened PrimeValues
  import opened RdbFiles
  import opened RdbFormat
  import opened Words

  /** A method result and position that agree with a read of the format. */
  ghost predicate Follows<T>(spec: Read<T>, r: Result<T, RdbError>, pos: nat) {
    match spec
    case Got(v, p) => r == Ok(v) && pos == p
    case Bad(e) => r == Err(e)
  }

  class RdbLoader {
    const table: seq<bv64>
    const data: bytes
    var pos: nat
    var crc: bv64
    var currentDb: nat
    var version: nat

    /** The checksum covers exactly the bytes read so far. */
    ghost predicate Valid()
      reads this
    {
      IsTable(table) && pos <= |data| && crc == Crc(0, data[..pos])
    }

    constructor (table: seq<bv64>, data: bytes)
      requires IsTable(table)
      ensures Valid() && this.data == data && pos == 0 && currentDb == 0
    {
      this.table := table;
      this.data := data;
      pos := 0;
      crc := 0;
      currentDb := 0;
      version := 0;
      new;
      assert data[..0] == [];
      FlipTwice(0);
    }

    method ReadExact(n: nat) returns (r: Result<bytes, RdbError>)
      requires Valid()
      modifies `pos, `crc
      ensures Follows(Take(data, old(pos), n), r, pos)
      ensures r.Ok? ==> Valid()
    {
      hide Crc, IsTable;
      if pos + n > |data| {
        return Err(UnexpectedEof);
      }
      var buf := data[pos..pos + n];
      CrcSplits(0, data[..pos], buf);
      assert data[..pos] + buf == data[..pos + n];
      pos := pos + n;
      crc := Update(table, crc, buf);
      r := Ok(buf);
    }

    method ReadByte() returns (r: Result<byte, RdbError>)
      requires Valid()
      modifies `pos, `crc
      ensures r.Err? <==> old(pos) == |data|
      ensures r.Err? ==> r.error == UnexpectedEof
      ensures r.Ok? ==> Valid() && r.value == data[old(pos)] && pos == old(pos) + 1
    {
      hide Valid;
      InBounds();
      var buf := ReadExact(1);
      match buf
      case Err(e) => r := Err(e);
      case Ok(s) => r := Ok(s[0]);
    }

    lemma InBounds()
      requires Valid()
      ensures pos <= |data|
    {}

    method ReadU32Le() returns (r: Result<nat, RdbError>)
      requires Valid()
      modifies `pos, `crc
      ensures match Take(data, old(pos), 4)
              case Got(s, p) => r == Ok(LeValue(s)) && pos == p && Valid()
              case Bad(e) => r == Err(e)
    {
      hide Valid, LeValue;
      var buf := ReadExact(4);
      match buf
      case Err(e) => r := Err(e);
      case Ok(s) => r := Ok(LeValue(s));
    }

    method ReadU64Le() returns (r: Result<nat, RdbError>)
      requires Valid()
      modifies `pos, `crc
      ensures match Take(data, old(pos), 8)
              case Got(s, p) => r == Ok(LeValue(s)) && pos == p && Valid()
              case Bad(e) => r == Err(e)
    {
      hide Valid, LeValue;
      var buf := ReadExact(8);
      match buf
      case Err(e) => r := Err(e);
      case Ok(s) => r := Ok(LeValue(s));
    }

    /** The stored checksum is read without being summed. */
    method ReadU64LeNoCrc() returns (r: Result<nat, RdbError>)
      requires pos <= |data|
      modifies `pos
      ensures match Take(data, old(pos), 8)
              case Got(s, p) => r == Ok(LeValue(s)) && pos == p
              case Bad(e) => r == Err(e)
    {
      if pos + 8 > |data| {
        return Err(UnexpectedEof);
      }
      r := Ok(LeValue(data[pos..pos + 8]));
      pos := pos + 8;
    }

    method ReadLengthWithEncoding() returns (r: Result<LengthRead, RdbError>)
      requires Valid()
      modifies `pos, `crc
      ensures Follows(ReadLength(data, old(pos)), r, pos)
      ensures r.Ok? ==> Valid()
    {
      hide Valid, BeValue;
      InBounds();
      var first := ReadByte();
      if first.Err? {
        return Err(first.error);
      }
      var kind, low := first.value / 64, (first.value % 64) as nat;
      if kind == 0 {
        r := Ok(LengthRead(low, false));
      } else if kind == 1 {
        var second := ReadExact(1);
        if second.Err? {
          return Err(second.error);
        }
        r := Ok(LengthRead(256 * low + second.value[0] as nat, false));
      } else if kind == 2 {
        if low > 1 {
          return Err(Corrupt);
        }
        var buf := ReadExact(if low == 0 then 4 else 8);
        if buf.Err? {
          return Err(buf.error);
        }
        r := Ok(LengthRead(BeValue(buf.value), false));
      } else {
        r := Ok(LengthRead(low, true));
      }
    }

    method ReadSignedText(size: nat) returns (r: Result<bytes, RdbError>)
      requires Valid()
      modifies `pos, `crc
      ensures Follows(ReadSigned(data, old(pos), size), r, pos)
      ensures r.Ok? ==> Valid()
    {
      hide Valid, LeValue, Signed, ToDecimal;
      InBounds();
      var buf := ReadExact(size);
      match buf
      case Err(e) => r := Err(e);
      case Ok(s) => r := Ok(ToDecimal(Signed(LeValue(s), size)));
    }

    method ReadCompressedText() returns (r: Result<bytes, RdbError>)
      requires Valid()
      modifies `pos, `crc
      ensures Follows(ReadCompressed(data, old(pos)), r, pos)
      ensures r.Ok? ==> Valid()
    {
      hide Valid, ReadLength;
      InBounds();
      var packed := ReadLengthWithEncoding();
      if packed.Err? {
        return Err(packed.error);
      }
      var plain := ReadLengthWithEncoding();
      if plain.Err? {
        return Err(plain.error);
      }
      var buf := ReadExact(packed.value.len);
      match buf
      case Err(e) => r := Err(e);
      case Ok(_) => r := Ok([]);
    }

    method ReadString() returns (r: Result<bytes, RdbError>)
      requires Valid()
      modifies `pos, `crc
      ensures Follows(ReadText(data, old(pos)), r, pos)
      ensures r.Ok? ==> Valid()
    {
      hide Valid, ReadLength, ReadSigned, ReadCompressed;
      InBounds();
      var l := ReadLengthWithEncoding();
      if l.Err? {
        return Err(l.error);
      }
      if !l.value.encoded {
        r := ReadExact(l.value.len);
      } else if l.value.len == 0 {
        r := ReadSignedText(1);
      } else if l.value.len == 1 {
        r := ReadSignedText(2);
      } else if l.value.len == 2 {
        r := ReadSignedText(4);
      } else if l.value.len == 3 {
        r := ReadCompressedText();
      } else {
        r := Err(Corrupt);
      }
    }

    method ReadHeaderBytes() returns (r: Result<nat, RdbError>)
      requires Valid() && pos == 0
      modifies this
      ensures Follows(ReadHeader(data), r, pos)
      ensures r.Ok? ==> Valid() && version == r.value && currentDb == old(currentDb)
    {
      hide Valid, ParseVersion;
      InBounds();
      var magic := ReadExact(5);
      if magic.Err? {
        return Err(magic.error);
      }
      if magic.value != MAGIC {
        return Err(BadMagic);
      }
      var digits := ReadExact(4);
      if digits.Err? {
        return Err(digits.error);
      }
      var v := ParseVersion(digits.value);
      if v.None? {
        return Err(BadMagic);
      }
      if v.value > 12 {
        return Err(UnsupportedVersion(v.value));
      }
      SetVersion(v.value);
      r := Ok(v.value);
    }

    method SetVersion(v: nat)
      requires Valid()
      modifies `version
      ensures Valid() && version == v
    {
      version := v;
    }

    method SetDb(db: nat)
      requires Valid()
      modifies `currentDb
      ensures Valid() && currentDb == db
    {
      currentDb := db;
    }

    /** The checksum is compared unless the stored one is zero. */
    method CheckEnd() returns (r: Result<(), RdbError>)
      requires Valid()
      modifies `pos
      ensures ReadEnd(data, old(pos)) == (if r.Ok? then End else Failed(r.error))
    {
      hide Crc, LeValue, IsTable;
      var expected := crc as int;
      assert expected == ChecksumOf(data[..pos]);
      var stored := ReadU64LeNoCrc();
      if stored.Err? {
        return Err(stored.error);
      }
      if stored.value != 0 && stored.value != expected {
        return Err(CrcMismatch(expected, stored.value));
      }
      r := Ok(());
    }

    method ReadEntryWithType(code: byte, expire: Option<Time>) returns (r: Result<Option<RdbEntry>, RdbError>)
      requires Valid()
      modifies this
      ensures EntryFollows(ReadTyped(data, old(pos), old(currentDb), code, expire), r, pos, currentDb)
      ensures r.Ok? && r.value.Some? ==> Valid()
      decreases |data| - pos, 0
    {
      hide Valid, ReadText, RdbFiles.ReadEntry, FromBytes;
      InBounds();
      var key := ReadString();
      if key.Err? {
        return Err(key.error);
      }
      if code != TYPE_STRING {
        r := ReadEntry();
        return;
      }
      var s := ReadString();
      match s
      case Err(e) => r := Err(e);
      case Ok(s) => r := Ok(Some(RdbEntry(currentDb, key.value, FromBytes(s), expire)));
    }

    method ReadTypedEntry(expire: Time) returns (r: Result<Option<RdbEntry>, RdbError>)
      requires Valid()
      modifies this
      ensures EntryFollows(ReadDated(data, old(pos), old(currentDb), expire), r, pos, currentDb)
      ensures r.Ok? && r.value.Some? ==> Valid()
      decreases |data| - pos, 1
    {
      hide Valid, ReadTyped;
      InBounds();
      var code := ReadByte();
      if code.Err? {
        return Err(code.error);
      }
      r := ReadEntryWithType(code.value, Some(expire));
    }

    method SkipTwoLengths() returns (r: Result<(), RdbError>)
      requires Valid()
      modifies `pos, `crc
      ensures Follows(SkipLengths(data, old(pos)), r, pos)
      ensures r.Ok? ==> Valid()
    {
      hide Valid, ReadLength;
      InBounds();
      var a := ReadLengthWithEncoding();
      if a.Err? {
        return Err(a.error);
      }
      var b := ReadLengthWithEncoding();
      if b.Err? {
        return Err(b.error);
      }
      r := Ok(());
    }

    method SkipTwoStrings() returns (r: Result<(), RdbError>)
      requires Valid()
      modifies `pos, `crc
      ensures Follows(SkipTexts(data, old(pos)), r, pos)
      ensures r.Ok? ==> Valid()
    {
      hide Valid, ReadText;
      InBounds();
      var a := ReadString();
      if a.Err? {
        return Err(a.error);
      }
      var b := ReadString();
      if b.Err? {
        return Err(b.error);
      }
      r := Ok(());
    }

    /** The loop over opcodes: the next entry, or None at the end of the file. */
    method ReadEntry() returns (r: Result<Option<RdbEntry>, RdbError>)
      requires Valid()
      modifies this
      ensures EntryFollows(RdbFiles.ReadEntry(data, old(pos), old(currentDb)), r, pos, currentDb)
      ensures r.Ok? && r.value.Some? ==> Valid()
      decreases |data| - pos, 1
    {
      hide Valid, ReadLength, ReadTyped, ReadDated, ReadEnd, SkipTexts, SkipLengths, LeValue;
      InBounds();
      while true
        invariant Valid() && old(pos) <= pos <= |data|
        invariant RdbFiles.ReadEntry(data, pos, currentDb) == RdbFiles.ReadEntry(data, old(pos), old(currentDb))
        decreases |data| - pos
      {
        var op := ReadByte();
        if op.Err? {
          return Err(op.error);
        }
        var code := op.value;
        InBounds();
        if code == EOF {
          var end := CheckEnd();
          match end
          case Err(e) => return Err(e);
          case Ok(_) => return Ok(None);
        } else if code == SELECTDB {
          var l := ReadLengthWithEncoding();
          if l.Err? {
            return Err(l.error);
          }
          SetDb(l.value.len % 0x1_0000_0000);
        } else if code == RESIZEDB {
          var skip := SkipTwoLengths();
          if skip.Err? {
            return Err(skip.error);
          }
        } else if code == AUX {
          var skip := SkipTwoStrings();
          if skip.Err? {
            return Err(skip.error);
          }
        } else if code == EXPIRETIME {
          var secs := ReadU32Le();
          if secs.Err? {
            return Err(secs.error);
          }
          LeBound(data[pos - 4..pos]);
          Powers();
          r := ReadTypedEntry(secs.value * 1000);
          return;
        } else if code == EXPIRETIME_MS {
          var ms := ReadU64Le();
          if ms.Err? {
            return Err(ms.error);
          }
          LeBound(data[pos - 8..pos]);
          Powers();
          r := ReadTypedEntry(ms.value);
          return;
        } else if code == FREQ {
          var skip := ReadExact(1);
          if skip.Err? {
            return Err(skip.error);
          }
        } else if code == IDLE {
          var l := ReadLengthWithEncoding();
          if l.Err? {
            return Err(l.error);
          }
        } else if code == MODULE_AUX || code == FUNCTION || code == FUNCTION2 || code == SLOT_INFO {
          return Err(UnsupportedType(code));
        } else {
          r := ReadEntryWithType(code, None);
          return;
        }
        InBounds();
      }
    }
  }

  ghost predicate EntryFollows(spec: EntryRead, r: Result<Option<RdbEntry>, RdbError>, pos: nat, db: nat) {
    match spec
    case Entry(e, d, p) => r == Ok(Some(e)) && pos == p && db == d
    case End => r == Ok(None)
    case Failed(e) => r == Err(e)
  }

  /** All entries of a file, in order, or the first error. */
  method LoadFile(table: seq<bv64>, data: bytes) returns (r: Result<seq<RdbEntry>, RdbError>)
    requires IsTable(table)
    ensures r == LoadAll(data)
  {
    hide IsTable, ReadHeader, RdbFiles.ReadEntry;
    var loader := new RdbLoader(table, data);
    var header := loader.ReadHeaderBytes();
    if header.Err? {
      return Err(header.error);
    }
    loader.InBounds();
    var entries: seq<RdbEntry> := [];
    PrependNone(LoadFrom(data, loader.pos, loader.currentDb));
    while true
      invariant loader.data == data && loader.Valid() && loader.pos <= |data|
      invariant LoadAll(data) == Prepend(entries, LoadFrom(data, loader.pos, loader.currentDb))
      decreases |data| - loader.pos
    {
      ghost var p, db := loader.pos, loader.currentDb;
      var next := loader.ReadEntry();
      match next {
        case Err(e) => return Err(e);
        case Ok(None) =>
          assert entries + [] == entries;
          return Ok(entries);
        case Ok(Some(e)) =>
          PrependTwice(entries, [e], LoadFrom(data, loader.pos, loader.currentDb));
          entries := entries + [e];
      }
      loader.InBounds();
    }
  }
}
