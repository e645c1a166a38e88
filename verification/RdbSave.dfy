/** The saver: appends to a writer, keeping a running checksum and a byte count. */
module RdbSavers {
  import opened Common
  import opened Crc64
  import opened Decimal
  import opened PrimeValues
  import opened RdbFiles
  import opened RdbFormat
  import opened Words

  class RdbSaver {
    const table: seq<bv64>
    var out: bytes
    var crc: bv64
    var bytesWritten: nat

    /** The checksum covers everything written. */
    ghost predicate Valid()
      reads this
    {
      IsTable(table) && crc == Crc(0, out) && bytesWritten == |out|
    }

    constructor (table: seq<bv64>)
      requires IsTable(table)
      ensures Valid() && out == [] && this.table == table
    {
      this.table := table;
      out := [];
      crc := 0;
      bytesWritten := 0;
      new;
      NothingSummed();
    }

    method WriteBytes(data: bytes)
      requires Valid()
      modifies this
      ensures Valid() && out == old(out) + data
    {
      hide Crc, IsTable;
      CrcSplits(0, out, data);
      out := out + data;
      crc := Update(table, crc, data);
      bytesWritten := bytesWritten + |data|;
    }

    method WriteByte(b: byte)
      requires Valid()
      modifies this
      ensures Valid() && out == old(out) + [b]
    {
      hide Valid;
      WriteBytes([b]);
    }

    method WriteU64Le(v: Time)
      requires Valid()
      modifies this
      ensures Valid() && out == old(out) + Le(v, 8)
    {
      hide Valid, Le;
      WriteBytes(Le(v, 8));
    }

    method WriteLength(len: Size)
      requires Valid()
      modifies this
      ensures Valid() && out == old(out) + Length(len)
    {
      hide Valid, Be;
      if len < 64 {
        WriteByte(len as byte);
      } else if len < 16384 {
        WriteByte((0x40 + len / 256) as byte);
        WriteByte((len % 256) as byte);
      } else if len <= 0xffff_ffff {
        WriteByte(0x80);
        WriteBytes(Be(len, 4));
      } else {
        WriteByte(0x81);
        WriteBytes(Be(len, 8));
      }
      assert out == old(out) + Length(len);
    }

    method WriteIntegerAsString(n: int)
      requires Valid() && InI64(n)
      modifies this
      ensures Valid() && out == old(out) + IntegerText(n)
    {
      hide Valid, Length, ToDecimal, Le;
      Powers();
      if -0x80 <= n <= 0x7f {
        WriteByte(0xC0);
        WriteByte((n % 256) as byte);
        assert Le(Truncate(n, 1), 1) == [(n % 256) as byte] by { OneByte(n % 256); }
      } else if -0x8000 <= n <= 0x7fff {
        WriteByte(0xC1);
        WriteBytes(Le(Truncate(n, 2), 2));
      } else if -0x8000_0000 <= n <= 0x7fff_ffff {
        WriteByte(0xC2);
        WriteBytes(Le(Truncate(n, 4), 4));
      } else {
        DecimalLength(n);
        var s := ToDecimal(n);
        WriteLength(|s|);
        WriteBytes(s);
      }
      assert out == old(out) + IntegerText(n);
    }

    method WriteString(data: bytes)
      requires Valid() && |data| < 0x1_0000_0000_0000_0000
      modifies this
      ensures Valid() && out == old(out) + Text(data)
    {
      hide Valid, Length, IntegerText;
      if |data| <= 11 {
        var n := CanonicalInteger(data);
        if n.Some? {
          WriteIntegerAsString(n.value);
          return;
        }
      }
      WriteLength(|data|);
      WriteBytes(data);
      assert out == old(out) + (Length(|data|) + data);
    }

    method WriteHeader()
      requires Valid()
      modifies this
      ensures Valid() && out == old(out) + (MAGIC + VERSION)
    {
      hide Valid;
      WriteBytes(MAGIC);
      WriteBytes(VERSION);
    }

    method WriteAux(key: bytes, value: bytes)
      requires Valid() && |key| < 0x1_0000_0000_0000_0000 && |value| < 0x1_0000_0000_0000_0000
      modifies this
      ensures Valid() && out == old(out) + Aux(key, value)
    {
      hide Valid, Text;
      WriteByte(AUX);
      WriteString(key);
      WriteString(value);
      assert out == old(out) + Aux(key, value);
    }

    method WriteSelectDb(db: Size)
      requires Valid()
      modifies this
      ensures Valid() && out == old(out) + SelectDb(db)
    {
      hide Valid, Length;
      WriteByte(SELECTDB);
      WriteLength(db);
      assert out == old(out) + SelectDb(db);
    }

    method WriteResizeDb(size: Size, dated: Size)
      requires Valid()
      modifies this
      ensures Valid() && out == old(out) + ResizeDb(size, dated)
    {
      hide Valid, Length;
      WriteByte(RESIZEDB);
      WriteLength(size);
      WriteLength(dated);
      assert out == old(out) + ResizeDb(size, dated);
    }

    method WriteKeyValue(key: bytes, value: PrimeValue, expire: Option<Time>)
      requires Valid() && |key| < 0x1_0000_0000_0000_0000 && Storable(value)
      modifies this
      ensures Valid() && out == old(out) + Pair(key, value, expire)
    {
      hide Valid, Text, IntegerText, Le;
      if expire.Some? {
        WriteByte(EXPIRETIME_MS);
        WriteU64Le(expire.value);
      }
      assert out == old(out) + Deadline(expire);
      match value {
        case String(data) =>
          WriteByte(TYPE_STRING);
          WriteString(key);
          WriteString(data);
        case Integer(n) =>
          WriteByte(TYPE_STRING);
          WriteString(key);
          WriteIntegerAsString(n);
        case Collection(_, _) =>
      }
      assert out == old(out) + Pair(key, value, expire);
    }

    /** The checksum itself is not summed. */
    method WriteEof()
      requires Valid()
      modifies this
      ensures out == Sealed(old(out)) && bytesWritten == |out|
    {
      hide Crc, IsTable, Le;
      WriteByte(EOF);
      var checksum := crc as int;
      assert checksum == ChecksumOf(old(out) + [EOF]);
      out := out + Le(checksum, 8);
      bytesWritten := bytesWritten + 8;
    }
  }

  lemma NothingSummed()
    ensures Crc(0, []) == 0
  {
    FlipTwice(0);
  }

  lemma OneByte(v: nat)
    requires v < 256
    ensures Le(v, 1) == [v as byte]
  {}
}
