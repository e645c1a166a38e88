/** What the loader makes of marks that the saver never writes, for every file they stand in. */
module RdbReads {
  import opened Common
  import opened Decimal
  import opened PrimeValues
  import opened RdbFiles
  import opened RdbFormat
  import opened Words

  /** A deadline in seconds counts a thousand milliseconds each. */
  lemma SecondsRead(data: bytes, pos: nat, db: nat, seconds: nat, key: bytes, value: bytes)
    requires seconds < 0x1_0000_0000 && |key| < 0x1_0000_0000_0000_0000 && |value| < 0x1_0000_0000_0000_0000
    requires At(data, pos, [253] + (Le(seconds, 4) + ([0] + (Text(key) + Text(value)))))
    ensures pos <= |data|
    ensures ReadEntry(data, pos, db) ==
            Entry(RdbEntry(db, key, FromBytes(value), Some(1000 * seconds)), db, pos + 6 + |Text(key)| + |Text(value)|)
  {
    hide At, Text, FromBytes, Le, Seconds, ReadLength, ReadText, ReadEnd, SkipTexts, SkipLengths, Take;
    var rest := [0] + (Text(key) + Text(value));
    AtInside(data, pos, [253] + (Le(seconds, 4) + rest));
    AtSplit(data, pos, [253], Le(seconds, 4) + rest);
    AtFirst(data, pos, 253);
    AtSplit(data, pos + 1, Le(seconds, 4), rest);
    FourBytes(data, pos + 1, seconds);
    assert ReadEntry(data, pos, db) == ReadDated(data, pos + 5, db, 1000 * seconds);
    AtSplit(data, pos + 5, [0], Text(key) + Text(value));
    AtFirst(data, pos + 5, 0);
    DatedTyped(data, pos + 5, db, 1000 * seconds);
    AtSplit(data, pos + 6, Text(key), Text(value));
    TextRoundTrip(data, pos + 6, key);
    TextRoundTrip(data, pos + 6 + |Text(key)|, value);
  }

  lemma FourBytes(data: bytes, pos: nat, v: nat)
    requires v < 0x1_0000_0000 && At(data, pos, Le(v, 4))
    ensures pos <= |data| && Take(data, pos, 4) == Got(Le(v, 4), pos + 4) && Seconds(Le(v, 4)) == 1000 * v
  {
    hide Le, LeValue, Pow256;
    Powers();
    LeRoundTrip(v, 4);
  }

  /** The access counter of one byte and the idle time as a length are dropped. */
  lemma HintsDropped(data: bytes, pos: nat, db: nat, hint: byte, idle: Size)
    ensures At(data, pos, [249, hint]) ==> pos + 2 <= |data| && ReadEntry(data, pos, db) == ReadEntry(data, pos + 2, db)
    ensures At(data, pos, [248] + Length(idle)) ==>
              && pos + 1 + |Length(idle)| <= |data|
              && ReadEntry(data, pos, db) == ReadEntry(data, pos + 1 + |Length(idle)|, db)
  {
    hide At, Length, ReadLength, ReadTyped, ReadDated, ReadText, ReadEnd, SkipTexts, SkipLengths;
    if At(data, pos, [249, hint]) {
      AtInside(data, pos, [249, hint]);
      assert [249, hint] == [249] + [hint];
      AtSplit(data, pos, [249], [hint]);
      AtFirst(data, pos, 249);
      assert Take(data, pos + 1, 1).Got?;
    }
    if At(data, pos, [248] + Length(idle)) {
      AtInside(data, pos, [248] + Length(idle));
      AtSplit(data, pos, [248], Length(idle));
      AtFirst(data, pos, 248);
      LengthRoundTrip(data, pos + 1, idle);
    }
  }

  /** Slot information, functions and module data are refused; any other type is dropped together with its key only. */
  lemma OtherTypes(data: bytes, pos: nat, db: nat, code: byte, key: bytes)
    requires 0 < code < 248 && |key| < 0x1_0000_0000_0000_0000 && At(data, pos, [code] + Text(key))
    ensures pos + 1 + |Text(key)| <= |data|
    ensures ReadEntry(data, pos, db) ==
            if code >= 244 then Failed(UnsupportedType(code)) else ReadEntry(data, pos + 1 + |Text(key)|, db)
  {
    hide At, Text, ReadLength, ReadText, ReadEnd, SkipTexts, SkipLengths, Take;
    AtInside(data, pos, [code] + Text(key));
    AtSplit(data, pos, [code], Text(key));
    AtFirst(data, pos, code);
    TextRoundTrip(data, pos + 1, key);
  }

  /** A compressed string is read as empty: its two lengths and its bytes are dropped. */
  lemma CompressedRead(data: bytes, pos: nat, packed: bytes, len: Size)
    requires |packed| < 0x1_0000_0000_0000_0000
    requires At(data, pos, [0xC3] + (Length(|packed|) + (Length(len) + packed)))
    ensures pos <= |data|
    ensures ReadText(data, pos) == Got([], pos + 1 + |Length(|packed|)| + |Length(len)| + |packed|)
  {
    hide At, Length;
    var n := |packed|;
    AtInside(data, pos, [0xC3] + (Length(n) + (Length(len) + packed)));
    AtSplit(data, pos, [0xC3], Length(n) + (Length(len) + packed));
    AtFirst(data, pos, 0xC3);
    assert ReadLength(data, pos) == Got(LengthRead(3, true), pos + 1);
    hide ReadLength;
    AtSplit(data, pos + 1, Length(n), Length(len) + packed);
    LengthRoundTrip(data, pos + 1, n);
    AtSplit(data, pos + 1 + |Length(n)|, Length(len), packed);
    LengthRoundTrip(data, pos + 1 + |Length(n)|, len);
    AtInside(data, pos + 1 + |Length(n)| + |Length(len)|, packed);
  }

  /** The end mark: the stored checksum has to be that of everything up to and with the mark, or zero. */
  lemma EndRead(body: bytes, stored: nat, db: nat)
    requires stored < 0x1_0000_0000_0000_0000
    ensures ReadEntry(body + [255] + Le(stored, 8), |body|, db) ==
            if stored == 0 || stored == ChecksumOf(body + [255]) then End
            else Failed(CrcMismatch(ChecksumOf(body + [255]), stored))
  {
    hide Le, LeValue, Pow256, ChecksumOf, ReadTyped, ReadDated;
    Powers();
    LeRoundTrip(stored, 8);
    var data, n := body + [255] + Le(stored, 8), |body| + 1;
    assert data[n - 1] == 255 && data[..n] == body + [255] && data[n..n + 8] == Le(stored, 8);
  }

  /** The header: "REDIS" and four digits, up to version 12. */
  lemma HeaderVersions(a: nat, b: nat, c: nat, d: nat, rest: bytes)
    requires a < 10 && b < 10 && c < 10 && d < 10
    ensures var version := 1000 * a + 100 * b + 10 * c + d;
            var digits: bytes := [(48 + a) as byte, (48 + b) as byte, (48 + c) as byte, (48 + d) as byte];
            ReadHeader([82, 69, 68, 73, 83] + digits + rest) ==
            if version <= 12 then Got(version, 9) else Bad(UnsupportedVersion(version))
  {
    var digits: bytes := [(48 + a) as byte, (48 + b) as byte, (48 + c) as byte, (48 + d) as byte];
    var data := [82, 69, 68, 73, 83] + digits + rest;
    assert data[0..5] == MAGIC && data[5..9] == digits;
    FourDigits(a, b, c, d);
    hide DigitsValue;
  }

  lemma FourDigits(a: nat, b: nat, c: nat, d: nat)
    requires a < 10 && b < 10 && c < 10 && d < 10
    ensures DigitsValue([(48 + a) as byte, (48 + b) as byte, (48 + c) as byte, (48 + d) as byte]) ==
            Some(1000 * a + 100 * b + 10 * c + d)
  {
    var digits: bytes := [(48 + a) as byte, (48 + b) as byte, (48 + c) as byte, (48 + d) as byte];
    assert digits[..3] == [(48 + a) as byte, (48 + b) as byte, (48 + c) as byte];
    assert digits[..3][..2] == [(48 + a) as byte, (48 + b) as byte];
    assert digits[..3][..2][..1] == [(48 + a) as byte];
    assert digits[..3][..2][..1][..0] == [];
    assert DigitsValue([(48 + a) as byte]) == Some(a);
    assert DigitsValue([(48 + a) as byte, (48 + b) as byte]) == Some(10 * a + b);
  }

  /** Any other start is refused. */
  lemma OtherMagic(data: bytes)
    requires |data| >= 5 && data[..5] != [82, 69, 68, 73, 83]
    ensures LoadAll(data) == Err(BadMagic)
  {
    assert data[0..5] == data[..5];
  }
}
