/** A dump byte by byte: the file format pinned to literals. */
module RdbExamples {
  import opened Common
  import opened Decimal
  import opened PrimeValues
  import opened RdbFiles
  import opened RdbFormat
  import opened Words

  /** Lengths in one, two, five and nine bytes, the long ones with the highest byte first. */
  lemma LengthBytes()
    ensures Length(5) == [5] && Length(700) == [0x42, 0xBC]
    ensures Length(17000) == [0x80, 0, 0, 0x42, 0x68]
    ensures Length(0x1_0203_0405) == [0x81, 0, 0, 0, 1, 2, 3, 4, 5]
  {
    LongLengths();
    assert [0x80] + Be(17000, 4) == [0x80, 0, 0, 0x42, 0x68];
    assert [0x81] + Be(0x1_0203_0405, 8) == [0x81, 0, 0, 0, 1, 2, 3, 4, 5];
  }

  lemma LongLengths()
    ensures Be(17000, 4) == [0, 0, 0x42, 0x68]
    ensures Be(0x1_0203_0405, 8) == [0, 0, 0, 1, 2, 3, 4, 5]
  {
    assert Be(17000, 4) == Be(66, 3) + [0x68];
    assert Be(66, 3) == Be(0, 2) + [66];
    assert Be(0, 2) == [0, 0];
    assert Be(0x1_0203_0405, 8) == Be(0x1_0203_04, 7) + [5];
    assert Be(0x1_0203_04, 7) == Be(0x1_0203, 6) + [4];
    assert Be(0x1_0203, 6) == Be(0x1_02, 5) + [3];
    assert Be(0x1_02, 5) == Be(1, 4) + [2];
    assert Be(1, 4) == Be(0, 3) + [1];
    assert Be(0, 3) == Be(0, 2) + [0];
  }

  /** Integers in one, two and four bytes, the lowest byte first, and texts that only look like integers. */
  lemma IntegerBytes()
    ensures IntegerText(-1) == [0xC0, 0xFF] && IntegerText(-1000) == [0xC1, 0x18, 0xFC]
    ensures IntegerText(12345678) == [0xC2, 0x4E, 0x61, 0xBC, 0]
    ensures Text([49, 50]) == [0xC0, 12] && Text([48, 49]) == [2, 48, 49]
  {
    Powers();
    ShortIntegers();
    ShortTexts();
  }

  lemma ShortIntegers()
    ensures Le(Truncate(-1, 1), 1) == [0xFF] && Le(Truncate(-1000, 2), 2) == [0x18, 0xFC]
    ensures Le(Truncate(12345678, 4), 4) == [0x4E, 0x61, 0xBC, 0]
  {
    Powers();
    assert Truncate(-1, 1) == 0xFF && Truncate(-1000, 2) == 0xFC18 && Truncate(12345678, 4) == 0xBC614E;
    assert Le(0xBC614E, 4) == [0x4E] + Le(0xBC61, 3);
    assert Le(0xBC61, 3) == [0x61] + Le(0xBC, 2);
  }

  lemma ShortTexts()
    ensures CanonicalInteger([49, 50]) == Some(12) && CanonicalInteger([48, 49]) == None
    ensures Le(Truncate(12, 1), 1) == [12]
  {
    Powers();
    assert DigitsValue([49]) == Some(1) && DigitsValue([48]) == Some(0);
    assert [49, 50][..1] == [49] && [48, 49][..1] == [48];
    assert DigitsValue([49, 50]) == Some(12) && DigitsValue([48, 49]) == Some(1);
    assert ToDecimal(12) == [49, 50] && ToDecimal(1) == [49];
  }

  /** The key "k" with the value "v" and the deadline 258, in database 3. */
  const ENTRY := RdbEntry(3, [107], String([118]), Some(258))

  /** A record: the deadline with its lowest byte first, the type, the key, the value. */
  lemma RecordBytes()
    ensures ItemOk(ENTRY) && Record(ENTRY) == [252, 2, 1, 0, 0, 0, 0, 0, 0, 0, 1, 107, 1, 118]
  {
    DeadlineBytes();
    assert CanonicalInteger([107]) == None && CanonicalInteger([118]) == None;
  }

  lemma LeNext(v: nat, n: nat, low: nat, rest: nat)
    requires n > 0 && low < 256 && v == 256 * rest + low
    ensures Le(v, n) == [low as byte] + Le(rest, n - 1)
  {}

  lemma {:induction false} LeZero(n: nat)
    ensures Le(0, n) == seq(n, i => 0)
  {
    if n > 0 {
      LeZero(n - 1);
    }
  }

  lemma DeadlineBytes()
    ensures Le(258, 8) == [2, 1, 0, 0, 0, 0, 0, 0]
  {
    hide Le;
    LeNext(258, 8, 2, 1);
    LeNext(1, 7, 1, 0);
    LeZero(6);
  }

  /** "REDIS0009", then the two auxiliary fields with their names and values. */
  lemma PreambleBytes()
    ensures Preamble() ==
            [82, 69, 68, 73, 83] + [48, 48, 48, 57] +
            ([250, 9] + [114, 101, 100, 105, 115, 45, 118, 101, 114] + [5] + [55, 46, 48, 46, 48]) +
            ([250, 12] + [115, 104, 114, 105, 107, 101, 100, 98, 45, 118, 101, 114] + [5] + [48, 46, 49, 46, 48])
  {
    hide Aux;
    AuxBytes(REDIS_VER, REDIS_VER_VALUE, 5, 1);
    AuxBytes(SHRIKEDB_VER, SHRIKEDB_VER_VALUE, 8, 1);
  }

  lemma AuxBytes(key: bytes, value: bytes, i: nat, j: nat)
    requires i < |key| < 64 && j < |value| < 64 && i > 0 && j > 0 && !IsDigit(key[i]) && !IsDigit(value[j])
    ensures Aux(key, value) == [250, |key| as byte] + key + [|value| as byte] + value
  {
    NotNumber(key, i);
    NotNumber(value, j);
    hide CanonicalInteger;
  }

  lemma NotNumber(data: bytes, i: nat)
    requires 0 < i < |data| && !IsDigit(data[i])
    ensures CanonicalInteger(data) == None
  {
    hide ToDecimal, DigitsValue;
    ReadInPlaces(data);
    ReadInPlaces(data[1..]);
    assert data[1..][i - 1] == data[i];
  }

  /** The whole file: preamble, database number, sizes, record, end mark, and the checksum of all of these. */
  lemma FileBytes()
    ensures ItemsOk([ENTRY])
    ensures var body := Preamble() + ([254, 3, 251, 1, 1] + [252, 2, 1, 0, 0, 0, 0, 0, 0, 0, 1, 107, 1, 118]) + [255];
            File([ENTRY]) == body + Le(ChecksumOf(body), 8)
  {
    hide Preamble, Le, ChecksumOf, Record, Sections, Section;
    RecordBytes();
    SectionBytes();
    OnlySection(0);
  }

  lemma SectionBytes()
    ensures ItemsOk([ENTRY]) && Section([ENTRY], 3) == [254, 3, 251, 1, 1] + Record(ENTRY)
  {
    hide Record;
    assert [ENTRY][1..] == [];
    assert Records([ENTRY]) == Record(ENTRY) + Records([]);
    assert Dated([ENTRY]) == 1;
  }

  /** An entry is written in the section of its own database. */
  lemma {:induction false} OnlySection(db: nat)
    requires db <= 16
    ensures ItemsOk([ENTRY]) && Sections([ENTRY], db) == if db <= 3 then Section([ENTRY], 3) else []
    decreases 16 - db
  {
    hide Section;
    assert [ENTRY][1..] == [];
    if db < 16 {
      OnlySection(db + 1);
      assert InDb([ENTRY], db) == if db == 3 then [ENTRY] else [];
      NoSection(db);
    }
  }

  lemma NoSection(db: nat)
    requires db < 16
    ensures Section([], db) == []
  {}
}
