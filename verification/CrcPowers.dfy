/**
 Powers of x modulo the polynomial of the checksum, with exponents far too large for shifting one by one.
 Raising to the eighth power is a linear map, given by the images of the 64 bits.
 */
module CrcPowers {
  import opened Crc64

  const ONE: bv64 := 0x8000_0000_0000_0000

  /** The k-th power of x: the state after `k` shifts of the polynomial 1. */
  predicate Is(k: nat, a: bv64) { Shifts(ONE, k) == a }

  // ---- Sums of words ----

  lemma XorIs(a: bv64, b: bv64)
    ensures Xor(a, b) == a ^ b
  {}

  lemma XorMoves(a: bv64, b: bv64, c: bv64)
    ensures Xor(a ^ b, c) == Xor(a, b ^ c)
  {}

  lemma XorAssoc(a: bv64, b: bv64, c: bv64)
    ensures Xor(Xor(a, b), c) == Xor(a, Xor(b, c))
  {
    hide Xor;
    XorIs(a, b);
    XorIs(b, c);
    XorMoves(a, b, c);
  }

  lemma XorComm(a: bv64, b: bv64)
    ensures Xor(a, b) == Xor(b, a)
  {}

  lemma XorSelf(c: bv64)
    ensures Xor(c, c) == 0 && Xor(c, 0) == c && Xor(0, c) == c && Xor(0, 0) == 0
  {}

  lemma XorSwap(a: bv64, b: bv64, c: bv64, d: bv64)
    ensures Xor(Xor(a, b), Xor(c, d)) == Xor(Xor(a, c), Xor(b, d))
  {
    hide Xor;
    XorAssoc(a, b, Xor(c, d));
    XorAssoc(b, c, d);
    XorComm(b, c);
    XorAssoc(c, b, d);
    XorAssoc(a, c, Xor(b, d));
  }

  function Sum(c0: bv64, c1: bv64, c2: bv64, c3: bv64, c4: bv64, c5: bv64, c6: bv64, c7: bv64): bv64 {
    Xor(Xor(Xor(c0, c1), Xor(c2, c3)), Xor(Xor(c4, c5), Xor(c6, c7)))
  }

  lemma SumXor(c0: bv64, c1: bv64, c2: bv64, c3: bv64, c4: bv64, c5: bv64, c6: bv64, c7: bv64,
               d0: bv64, d1: bv64, d2: bv64, d3: bv64, d4: bv64, d5: bv64, d6: bv64, d7: bv64)
    ensures Sum(Xor(c0, d0), Xor(c1, d1), Xor(c2, d2), Xor(c3, d3), Xor(c4, d4), Xor(c5, d5), Xor(c6, d6), Xor(c7, d7)) ==
            Xor(Sum(c0, c1, c2, c3, c4, c5, c6, c7), Sum(d0, d1, d2, d3, d4, d5, d6, d7))
  {
    hide Xor;
    XorSwap(c0, d0, c1, d1);
    XorSwap(c2, d2, c3, d3);
    XorSwap(c4, d4, c5, d5);
    XorSwap(c6, d6, c7, d7);
    XorSwap(Xor(c0, c1), Xor(d0, d1), Xor(c2, c3), Xor(d2, d3));
    XorSwap(Xor(c4, c5), Xor(d4, d5), Xor(c6, c7), Xor(d6, d7));
    XorSwap(Xor(Xor(c0, c1), Xor(c2, c3)), Xor(Xor(d0, d1), Xor(d2, d3)), Xor(Xor(c4, c5), Xor(c6, c7)), Xor(Xor(d4, d5),
        Xor(d6, d7)));
  }

  // ---- Linear maps on four bits ----

  function Four(a: bv64, b: bv64, c: bv64, d: bv64): bv64 { Xor(a ^ b, c ^ d) }

  lemma FourTree(a: bv64, b: bv64, c: bv64, d: bv64)
    ensures Four(a, b, c, d) == Xor(Xor(a, b), Xor(c, d))
  {
    hide Xor;
    XorIs(a, b);
    XorIs(c, d);
  }

  /** The sum of the words whose bits are set. */
  function Chosen(p0: bool, p1: bool, p2: bool, p3: bool, c0: bv64, c1: bv64, c2: bv64, c3: bv64): bv64 {
    Four(if p0 then c0 else 0, if p1 then c1 else 0, if p2 then c2 else 0, if p3 then c3 else 0)
  }

  function Pick(p: bool, c: bv64): bv64 { if p then c else 0 }

  lemma ChosenPicks(p0: bool, p1: bool, p2: bool, p3: bool, c0: bv64, c1: bv64, c2: bv64, c3: bv64)
    ensures Chosen(p0, p1, p2, p3, c0, c1, c2, c3) == Xor(Xor(Pick(p0, c0), Pick(p1, c1)), Xor(Pick(p2, c2), Pick(p3, c3)))
  {
    hide Xor, Four;
    FourTree(Pick(p0, c0), Pick(p1, c1), Pick(p2, c2), Pick(p3, c3));
  }

  lemma PickXor(p: bool, q: bool, c: bv64)
    ensures Pick(p != q, c) == Xor(Pick(p, c), Pick(q, c))
  {
    hide Xor;
    XorSelf(c);
  }

  lemma ChosenXor(r0: bool, r1: bool, r2: bool, r3: bool, p0: bool, p1: bool, p2: bool, p3: bool, q0: bool, q1: bool, q2: bool,
      q3: bool, c0: bv64, c1: bv64, c2: bv64, c3: bv64)
    requires (r0 <==> p0 != q0) && (r1 <==> p1 != q1) && (r2 <==> p2 != q2) && (r3 <==> p3 != q3)
    ensures Chosen(r0, r1, r2, r3, c0, c1, c2, c3) == Xor(Chosen(p0, p1, p2, p3, c0, c1, c2, c3), Chosen(q0, q1, q2, q3, c0,
            c1, c2, c3))
  {
    hide Xor, Chosen, Pick;
    ChosenPicks(r0, r1, r2, r3, c0, c1, c2, c3);
    ChosenPicks(p0, p1, p2, p3, c0, c1, c2, c3);
    ChosenPicks(q0, q1, q2, q3, c0, c1, c2, c3);
    PickXor(p0, q0, c0);
    PickXor(p1, q1, c1);
    PickXor(p2, q2, c2);
    PickXor(p3, q3, c3);
    XorSwap(Pick(p0, c0), Pick(q0, c0), Pick(p1, c1), Pick(q1, c1));
    XorSwap(Pick(p2, c2), Pick(q2, c2), Pick(p3, c3), Pick(q3, c3));
    XorSwap(Xor(Pick(p0, c0), Pick(p1, c1)), Xor(Pick(q0, c0), Pick(q1, c1)), Xor(Pick(p2, c2), Pick(p3, c3)), Xor(Pick(q2,
        c2), Pick(q3, c3)));
  }

  function Nibble(y: bv64, c0: bv64, c1: bv64, c2: bv64, c3: bv64): bv64 {
    Chosen(y & 1 != 0, y & 2 != 0, y & 4 != 0, y & 8 != 0, c0, c1, c2, c3)
  }

  lemma BitsXor(x: bv64, y: bv64)
    ensures Xor(x, y) & 1 != 0 <==> (x & 1 != 0) != (y & 1 != 0)
    ensures Xor(x, y) & 2 != 0 <==> (x & 2 != 0) != (y & 2 != 0)
    ensures Xor(x, y) & 4 != 0 <==> (x & 4 != 0) != (y & 4 != 0)
    ensures Xor(x, y) & 8 != 0 <==> (x & 8 != 0) != (y & 8 != 0)
  {}

  lemma NibbleXor(x: bv64, y: bv64, c0: bv64, c1: bv64, c2: bv64, c3: bv64)
    ensures Nibble(Xor(x, y), c0, c1, c2, c3) == Xor(Nibble(x, c0, c1, c2, c3), Nibble(y, c0, c1, c2, c3))
  {
    hide Xor, Chosen;
    BitsXor(x, y);
    ChosenXor(Xor(x, y) & 1 != 0, Xor(x, y) & 2 != 0, Xor(x, y) & 4 != 0, Xor(x, y) & 8 != 0, x & 1 != 0, x & 2 != 0,
        x & 4 != 0, x & 8 != 0, y & 1 != 0, y & 2 != 0, y & 4 != 0, y & 8 != 0, c0, c1, c2, c3);
  }

  /** The sum of the words that stand at the bits of the lowest byte. */
  function Mix(y: bv64, c0: bv64, c1: bv64, c2: bv64, c3: bv64, c4: bv64, c5: bv64, c6: bv64, c7: bv64): bv64 {
    Xor(Nibble(y, c0, c1, c2, c3), Nibble(y >> 4, c4, c5, c6, c7))
  }

  lemma MixXor(x: bv64, y: bv64, c0: bv64, c1: bv64, c2: bv64, c3: bv64, c4: bv64, c5: bv64, c6: bv64, c7: bv64)
    ensures Mix(Xor(x, y), c0, c1, c2, c3, c4, c5, c6, c7) == Xor(Mix(x, c0, c1, c2, c3, c4, c5, c6, c7), Mix(y, c0, c1, c2,
            c3, c4, c5, c6, c7))
  {
    hide Xor, Nibble;
    NibbleXor(x, y, c0, c1, c2, c3);
    DownFour(x, y);
    NibbleXor(x >> 4, y >> 4, c4, c5, c6, c7);
    XorSwap(Nibble(x, c0, c1, c2, c3), Nibble(y, c0, c1, c2, c3), Nibble(x >> 4, c4, c5, c6, c7), Nibble(y >> 4, c4, c5, c6, c7));
  }

  function Down4(a: bv64): bv64 { a >> 4 }

  lemma Down4Xor(a: bv64, b: bv64)
    ensures Down4(Xor(a, b)) == Xor(Down4(a), Down4(b))
  {}

  lemma DownFour(a: bv64, b: bv64)
    ensures Xor(a, b) >> 4 == Xor(a >> 4, b >> 4)
  {
    hide Xor;
    Down4Xor(a, b);
  }

  // ---- The eighth power ----

  /** The eighth power of a polynomial: the powers x^0, x^8, x^16 and so on in place of its bits. */
  function Eighth(a: bv64): bv64 {
    Sum(Mix(a, 0x147d3c2acf0e7494, 0x9461c816bec04a63, 0xfe45318757796e3a, 0x739439a57288ea0c, 0xd7a024431d752e27,
        0x443a385c1fa14bca, 0x9b7ad91da99ad01a, 0x50f78865e739e0ee),
        Mix(a >> 8, 0xbf97023c81852a79, 0x6c7b96dd20541e5a, 0x534839fa1434978f, 0xed4e7172f644f68c, 0x4b58f7a70ac9f985,
            0x4c1690fd2bf268ce, 0xd8a013a6e50e5824, 0xf1ae6f518e0dbf1e),
        Mix(a >> 16, 0x2d695d89ec8339d8, 0x8c5f79986d8ba2d9, 0x716203c53c494078, 0x97d50cdb8ffb8c81, 0xa7e9100b160931cf,
            0xa3ff1ddb8c973c18, 0x824bf8869d412d07, 0x8b670bab358e02ff),
        Mix(a >> 24, 0x93c1e9e7cc841d92, 0x84b5198fe643e4d0, 0xf4707fc1ebb8c546, 0x9fe75c40ffb0cc94, 0xfacbe0f442fea8f1,
            0xcafc7f777a95e713, 0xc569210679f946c4, 0xe594e2f0ff826610),
        Mix(a >> 32, 0xfeb91e21d3eee9bb, 0x8fbb9f21e50f6b0c, 0x78ec56f0c236288d, 0x2dd5f6c1c6b69eec, 0x30f431b2582c96d9,
            0xcc3b6f1144b59ad7, 0x838f3a29857b927d, 0x148200d826a313ac),
        Mix(a >> 40, 0x6b5d3aff13a77263, 0xaf35c2b31235d565, 0x105fce50afc41a26, 0x812a87b1fb753e7c, 0x770d0707b2bc40a,
            0xaa01a901dea971ea, 0x48aaed309529386a, 0x5364ebdfb1853a3b),
        Mix(a >> 48, 0xc19c54d747e9428c, 0x27580609605de80f, 0x6439da4dffc92f41, 0x7e76c2aa96b200b1, 0x36b7d1849e61b255,
            0xe2d24c6d56e066e, 0xc3a0d04bad4ef287, 0xad93d23594c935a9),
        Mix(a >> 56, 0x80, 0x8000, 0x800000, 0x80000000, 0x8000000000, 0x800000000000, 0x80000000000000, 0x8000000000000000))
  }

  function Down8(a: bv64): bv64 { a >> 8 }
  function Down16(a: bv64): bv64 { a >> 16 }
  function Down24(a: bv64): bv64 { a >> 24 }
  function Down32(a: bv64): bv64 { a >> 32 }
  function Down40(a: bv64): bv64 { a >> 40 }
  function Down48(a: bv64): bv64 { a >> 48 }
  function Down56(a: bv64): bv64 { a >> 56 }

  lemma Down8Xor(a: bv64, b: bv64)
    ensures Down8(Xor(a, b)) == Xor(Down8(a), Down8(b))
  {}

  lemma Down16Xor(a: bv64, b: bv64)
    ensures Down16(Xor(a, b)) == Xor(Down16(a), Down16(b))
  {}

  lemma Down24Xor(a: bv64, b: bv64)
    ensures Down24(Xor(a, b)) == Xor(Down24(a), Down24(b))
  {}

  lemma Down32Xor(a: bv64, b: bv64)
    ensures Down32(Xor(a, b)) == Xor(Down32(a), Down32(b))
  {}

  lemma Down40Xor(a: bv64, b: bv64)
    ensures Down40(Xor(a, b)) == Xor(Down40(a), Down40(b))
  {}

  lemma Down48Xor(a: bv64, b: bv64)
    ensures Down48(Xor(a, b)) == Xor(Down48(a), Down48(b))
  {}

  lemma Down56Xor(a: bv64, b: bv64)
    ensures Down56(Xor(a, b)) == Xor(Down56(a), Down56(b))
  {}

  lemma DownXor(a: bv64, b: bv64)
    ensures Xor(a, b) >> 8 == Xor(a >> 8, b >> 8)
    ensures Xor(a, b) >> 16 == Xor(a >> 16, b >> 16)
    ensures Xor(a, b) >> 24 == Xor(a >> 24, b >> 24)
    ensures Xor(a, b) >> 32 == Xor(a >> 32, b >> 32)
    ensures Xor(a, b) >> 40 == Xor(a >> 40, b >> 40)
    ensures Xor(a, b) >> 48 == Xor(a >> 48, b >> 48)
    ensures Xor(a, b) >> 56 == Xor(a >> 56, b >> 56)
  {
    hide Xor;
    Down8Xor(a, b);
    Down16Xor(a, b);
    Down24Xor(a, b);
    Down32Xor(a, b);
    Down40Xor(a, b);
    Down48Xor(a, b);
    Down56Xor(a, b);
  }

  lemma EighthXor(a: bv64, b: bv64)
    ensures Eighth(Xor(a, b)) == Xor(Eighth(a), Eighth(b))
  {
    hide Xor, Mix, Sum;
    DownXor(a, b);
    MixXor(a, b, 0x147d3c2acf0e7494, 0x9461c816bec04a63, 0xfe45318757796e3a, 0x739439a57288ea0c, 0xd7a024431d752e27,
        0x443a385c1fa14bca, 0x9b7ad91da99ad01a, 0x50f78865e739e0ee);
    MixXor(a >> 8, b >> 8, 0xbf97023c81852a79, 0x6c7b96dd20541e5a, 0x534839fa1434978f, 0xed4e7172f644f68c, 0x4b58f7a70ac9f985,
        0x4c1690fd2bf268ce, 0xd8a013a6e50e5824, 0xf1ae6f518e0dbf1e);
    MixXor(a >> 16, b >> 16, 0x2d695d89ec8339d8, 0x8c5f79986d8ba2d9, 0x716203c53c494078, 0x97d50cdb8ffb8c81,
        0xa7e9100b160931cf, 0xa3ff1ddb8c973c18, 0x824bf8869d412d07, 0x8b670bab358e02ff);
    MixXor(a >> 24, b >> 24, 0x93c1e9e7cc841d92, 0x84b5198fe643e4d0, 0xf4707fc1ebb8c546, 0x9fe75c40ffb0cc94,
        0xfacbe0f442fea8f1, 0xcafc7f777a95e713, 0xc569210679f946c4, 0xe594e2f0ff826610);
    MixXor(a >> 32, b >> 32, 0xfeb91e21d3eee9bb, 0x8fbb9f21e50f6b0c, 0x78ec56f0c236288d, 0x2dd5f6c1c6b69eec,
        0x30f431b2582c96d9, 0xcc3b6f1144b59ad7, 0x838f3a29857b927d, 0x148200d826a313ac);
    MixXor(a >> 40, b >> 40, 0x6b5d3aff13a77263, 0xaf35c2b31235d565, 0x105fce50afc41a26, 0x812a87b1fb753e7c, 0x770d0707b2bc40a,
        0xaa01a901dea971ea, 0x48aaed309529386a, 0x5364ebdfb1853a3b);
    MixXor(a >> 48, b >> 48, 0xc19c54d747e9428c, 0x27580609605de80f, 0x6439da4dffc92f41, 0x7e76c2aa96b200b1,
        0x36b7d1849e61b255, 0xe2d24c6d56e066e, 0xc3a0d04bad4ef287, 0xad93d23594c935a9);
    MixXor(a >> 56, b >> 56, 0x80, 0x8000, 0x800000, 0x80000000, 0x8000000000, 0x800000000000, 0x80000000000000,
        0x8000000000000000);
    SumXor(Mix(a, 0x147d3c2acf0e7494, 0x9461c816bec04a63, 0xfe45318757796e3a, 0x739439a57288ea0c, 0xd7a024431d752e27,
        0x443a385c1fa14bca, 0x9b7ad91da99ad01a, 0x50f78865e739e0ee),
           Mix(a >> 8, 0xbf97023c81852a79, 0x6c7b96dd20541e5a, 0x534839fa1434978f, 0xed4e7172f644f68c, 0x4b58f7a70ac9f985,
               0x4c1690fd2bf268ce, 0xd8a013a6e50e5824, 0xf1ae6f518e0dbf1e),
           Mix(a >> 16, 0x2d695d89ec8339d8, 0x8c5f79986d8ba2d9, 0x716203c53c494078, 0x97d50cdb8ffb8c81, 0xa7e9100b160931cf,
               0xa3ff1ddb8c973c18, 0x824bf8869d412d07, 0x8b670bab358e02ff),
           Mix(a >> 24, 0x93c1e9e7cc841d92, 0x84b5198fe643e4d0, 0xf4707fc1ebb8c546, 0x9fe75c40ffb0cc94, 0xfacbe0f442fea8f1,
               0xcafc7f777a95e713, 0xc569210679f946c4, 0xe594e2f0ff826610),
           Mix(a >> 32, 0xfeb91e21d3eee9bb, 0x8fbb9f21e50f6b0c, 0x78ec56f0c236288d, 0x2dd5f6c1c6b69eec, 0x30f431b2582c96d9,
               0xcc3b6f1144b59ad7, 0x838f3a29857b927d, 0x148200d826a313ac),
           Mix(a >> 40, 0x6b5d3aff13a77263, 0xaf35c2b31235d565, 0x105fce50afc41a26, 0x812a87b1fb753e7c, 0x770d0707b2bc40a,
               0xaa01a901dea971ea, 0x48aaed309529386a, 0x5364ebdfb1853a3b),
           Mix(a >> 48, 0xc19c54d747e9428c, 0x27580609605de80f, 0x6439da4dffc92f41, 0x7e76c2aa96b200b1, 0x36b7d1849e61b255,
               0xe2d24c6d56e066e, 0xc3a0d04bad4ef287, 0xad93d23594c935a9),
           Mix(a >> 56, 0x80, 0x8000, 0x800000, 0x80000000, 0x8000000000, 0x800000000000, 0x80000000000000, 0x8000000000000000),
           Mix(b, 0x147d3c2acf0e7494, 0x9461c816bec04a63, 0xfe45318757796e3a, 0x739439a57288ea0c, 0xd7a024431d752e27,
               0x443a385c1fa14bca, 0x9b7ad91da99ad01a, 0x50f78865e739e0ee),
           Mix(b >> 8, 0xbf97023c81852a79, 0x6c7b96dd20541e5a, 0x534839fa1434978f, 0xed4e7172f644f68c, 0x4b58f7a70ac9f985,
               0x4c1690fd2bf268ce, 0xd8a013a6e50e5824, 0xf1ae6f518e0dbf1e),
           Mix(b >> 16, 0x2d695d89ec8339d8, 0x8c5f79986d8ba2d9, 0x716203c53c494078, 0x97d50cdb8ffb8c81, 0xa7e9100b160931cf,
               0xa3ff1ddb8c973c18, 0x824bf8869d412d07, 0x8b670bab358e02ff),
           Mix(b >> 24, 0x93c1e9e7cc841d92, 0x84b5198fe643e4d0, 0xf4707fc1ebb8c546, 0x9fe75c40ffb0cc94, 0xfacbe0f442fea8f1,
               0xcafc7f777a95e713, 0xc569210679f946c4, 0xe594e2f0ff826610),
           Mix(b >> 32, 0xfeb91e21d3eee9bb, 0x8fbb9f21e50f6b0c, 0x78ec56f0c236288d, 0x2dd5f6c1c6b69eec, 0x30f431b2582c96d9,
               0xcc3b6f1144b59ad7, 0x838f3a29857b927d, 0x148200d826a313ac),
           Mix(b >> 40, 0x6b5d3aff13a77263, 0xaf35c2b31235d565, 0x105fce50afc41a26, 0x812a87b1fb753e7c, 0x770d0707b2bc40a,
               0xaa01a901dea971ea, 0x48aaed309529386a, 0x5364ebdfb1853a3b),
           Mix(b >> 48, 0xc19c54d747e9428c, 0x27580609605de80f, 0x6439da4dffc92f41, 0x7e76c2aa96b200b1, 0x36b7d1849e61b255,
               0xe2d24c6d56e066e, 0xc3a0d04bad4ef287, 0xad93d23594c935a9),
           Mix(b >> 56, 0x80, 0x8000, 0x800000, 0x80000000, 0x8000000000, 0x800000000000, 0x80000000000000, 0x8000000000000000));
  }

  /** Shifting before is shifting eight times after. */
  predicate Good(a: bv64) { Eighth(Shift(a)) == Shifts(Eighth(a), 8) }

  lemma GoodXor(a: bv64, b: bv64)
    requires Good(a) && Good(b)
    ensures Good(Xor(a, b))
  {
    hide Xor, Shift, Shifts, Eighth;
    ShiftXor(a, b);
    EighthXor(a, b);
    EighthXor(Shift(a), Shift(b));
    ShiftsXor(Eighth(a), Eighth(b), 8);
  }

  lemma GoodSum(c0: bv64, c1: bv64, c2: bv64, c3: bv64, c4: bv64, c5: bv64, c6: bv64, c7: bv64)
    requires Good(c0) && Good(c1) && Good(c2) && Good(c3) && Good(c4) && Good(c5) && Good(c6) && Good(c7)
    ensures Good(Sum(c0, c1, c2, c3, c4, c5, c6, c7))
  {
    hide Xor, Good;
    GoodXor(c0, c1);
    GoodXor(c2, c3);
    GoodXor(c4, c5);
    GoodXor(c6, c7);
    GoodXor(Xor(c0, c1), Xor(c2, c3));
    GoodXor(Xor(c4, c5), Xor(c6, c7));
    GoodXor(Xor(Xor(c0, c1), Xor(c2, c3)), Xor(Xor(c4, c5), Xor(c6, c7)));
  }

  lemma GoodPick(p: bool, c: bv64)
    requires Good(c)
    ensures Good(Pick(p, c))
  {
    hide Good, Xor;
    GoodXor(c, c);
    XorSelf(c);
  }

  lemma GoodChosen(p0: bool, p1: bool, p2: bool, p3: bool, c0: bv64, c1: bv64, c2: bv64, c3: bv64)
    requires Good(c0) && Good(c1) && Good(c2) && Good(c3)
    ensures Good(Chosen(p0, p1, p2, p3, c0, c1, c2, c3))
  {
    hide Good, Xor, Chosen, Pick;
    ChosenPicks(p0, p1, p2, p3, c0, c1, c2, c3);
    GoodPick(p0, c0);
    GoodPick(p1, c1);
    GoodPick(p2, c2);
    GoodPick(p3, c3);
    GoodXor(Pick(p0, c0), Pick(p1, c1));
    GoodXor(Pick(p2, c2), Pick(p3, c3));
    GoodXor(Xor(Pick(p0, c0), Pick(p1, c1)), Xor(Pick(p2, c2), Pick(p3, c3)));
  }

  lemma GoodMix(y: bv64, c0: bv64, c1: bv64, c2: bv64, c3: bv64, c4: bv64, c5: bv64, c6: bv64, c7: bv64)
    requires Good(c0) && Good(c1) && Good(c2) && Good(c3) && Good(c4) && Good(c5) && Good(c6) && Good(c7)
    ensures Good(Mix(y, c0, c1, c2, c3, c4, c5, c6, c7))
  {
    hide Good, Xor, Nibble;
    GoodNibble(y, c0, c1, c2, c3);
    GoodNibble(y >> 4, c4, c5, c6, c7);
    GoodXor(Nibble(y, c0, c1, c2, c3), Nibble(y >> 4, c4, c5, c6, c7));
  }

  lemma GoodNibble(y: bv64, c0: bv64, c1: bv64, c2: bv64, c3: bv64)
    requires Good(c0) && Good(c1) && Good(c2) && Good(c3)
    ensures Good(Nibble(y, c0, c1, c2, c3))
  {
    hide Good, Chosen;
    GoodChosen(y & 1 != 0, y & 2 != 0, y & 4 != 0, y & 8 != 0, c0, c1, c2, c3);
  }

  // ---- Every bit is good ----

  lemma GoodBit(e: bv64, s: bv64, a: bv64, b: bv64)
    requires Shift(e) == s && Eighth(e) == a && Eighth(s) == b && Shifts(a, 8) == b
    ensures Good(e)
  {}

  // ---- The images of the bits ----

  lemma Chooses(c0: bv64, c1: bv64, c2: bv64, c3: bv64)
    ensures Chosen(true, false, false, false, c0, c1, c2, c3) == c0 && Chosen(false, true, false, false, c0, c1, c2, c3) == c1
    ensures Chosen(false, false, true, false, c0, c1, c2, c3) == c2 && Chosen(false, false, false, true, c0, c1, c2, c3) == c3
    ensures Chosen(false, false, false, false, c0, c1, c2, c3) == 0
  {}

  lemma NibblePicks(c0: bv64, c1: bv64, c2: bv64, c3: bv64)
    ensures Nibble(0x1, c0, c1, c2, c3) == c0 && Nibble(0x2, c0, c1, c2, c3) == c1
    ensures Nibble(0x4, c0, c1, c2, c3) == c2 && Nibble(0x8, c0, c1, c2, c3) == c3
  {
    hide Chosen;
    Chooses(c0, c1, c2, c3);
  }

  lemma NibbleNone(y: bv64, c0: bv64, c1: bv64, c2: bv64, c3: bv64)
    requires y & 1 == 0 && y & 2 == 0 && y & 4 == 0 && y & 8 == 0
    ensures Nibble(y, c0, c1, c2, c3) == 0
  {
    hide Chosen;
    Chooses(c0, c1, c2, c3);
  }

  lemma LowNibble(y: bv64, c0: bv64, c1: bv64, c2: bv64, c3: bv64, c4: bv64, c5: bv64, c6: bv64, c7: bv64)
    requires y >> 4 == 0
    ensures Mix(y, c0, c1, c2, c3, c4, c5, c6, c7) == Nibble(y, c0, c1, c2, c3)
  {
    hide Xor, Nibble;
    NibbleNone(0, c4, c5, c6, c7);
    XorSelf(Nibble(y, c0, c1, c2, c3));
  }

  lemma HighNibble(y: bv64, z: bv64, c0: bv64, c1: bv64, c2: bv64, c3: bv64, c4: bv64, c5: bv64, c6: bv64, c7: bv64)
    requires y >> 4 == z && y & 1 == 0 && y & 2 == 0 && y & 4 == 0 && y & 8 == 0
    ensures Mix(y, c0, c1, c2, c3, c4, c5, c6, c7) == Nibble(z, c4, c5, c6, c7)
  {
    hide Xor, Nibble;
    NibbleNone(y, c0, c1, c2, c3);
    XorSelf(Nibble(z, c4, c5, c6, c7));
  }

  /** A single bit picks its own word. */
  lemma Picks(c0: bv64, c1: bv64, c2: bv64, c3: bv64, c4: bv64, c5: bv64, c6: bv64, c7: bv64)
    ensures Mix(0x1, c0, c1, c2, c3, c4, c5, c6, c7) == c0 && Mix(0x2, c0, c1, c2, c3, c4, c5, c6, c7) == c1
    ensures Mix(0x4, c0, c1, c2, c3, c4, c5, c6, c7) == c2 && Mix(0x8, c0, c1, c2, c3, c4, c5, c6, c7) == c3
    ensures Mix(0x10, c0, c1, c2, c3, c4, c5, c6, c7) == c4 && Mix(0x20, c0, c1, c2, c3, c4, c5, c6, c7) == c5
    ensures Mix(0x40, c0, c1, c2, c3, c4, c5, c6, c7) == c6 && Mix(0x80, c0, c1, c2, c3, c4, c5, c6, c7) == c7
  {
    hide Mix, Nibble;
    NibblePicks(c0, c1, c2, c3);
    NibblePicks(c4, c5, c6, c7);
    LowNibble(0x1, c0, c1, c2, c3, c4, c5, c6, c7);
    LowNibble(0x2, c0, c1, c2, c3, c4, c5, c6, c7);
    LowNibble(0x4, c0, c1, c2, c3, c4, c5, c6, c7);
    LowNibble(0x8, c0, c1, c2, c3, c4, c5, c6, c7);
    HighNibble(0x10, 0x1, c0, c1, c2, c3, c4, c5, c6, c7);
    HighNibble(0x20, 0x2, c0, c1, c2, c3, c4, c5, c6, c7);
    HighNibble(0x40, 0x4, c0, c1, c2, c3, c4, c5, c6, c7);
    HighNibble(0x80, 0x8, c0, c1, c2, c3, c4, c5, c6, c7);
  }

  lemma NoLowBits(y: bv64)
    requires y & 0xff == 0
    ensures y & 1 == 0 && y & 2 == 0 && y & 4 == 0 && y & 8 == 0
    ensures (y >> 4) & 1 == 0 && (y >> 4) & 2 == 0 && (y >> 4) & 4 == 0 && (y >> 4) & 8 == 0
  {}

  lemma PicksNone(y: bv64, c0: bv64, c1: bv64, c2: bv64, c3: bv64, c4: bv64, c5: bv64, c6: bv64, c7: bv64)
    requires y & 0xff == 0
    ensures Mix(y, c0, c1, c2, c3, c4, c5, c6, c7) == 0
  {
    hide Xor, Nibble;
    NoLowBits(y);
    NibbleNone(y, c0, c1, c2, c3);
    NibbleNone(y >> 4, c4, c5, c6, c7);
    XorSelf(0);
  }

  lemma Placed0(y: bv64, a: bv64)
    requires y & 0xff == y && a == y
    ensures (a >> 8) & 0xff == 0 && (a >> 16) & 0xff == 0 && (a >> 24) & 0xff == 0 && (a >> 32) & 0xff ==
            0 && (a >> 40) & 0xff == 0 && (a >> 48) & 0xff == 0 && (a >> 56) & 0xff == 0
    ensures a == y
  {}

  lemma ByteImage0(y: bv64, a: bv64)
    requires y & 0xff == y && a == y
    ensures Eighth(a) == Mix(y, 0x147d3c2acf0e7494, 0x9461c816bec04a63, 0xfe45318757796e3a, 0x739439a57288ea0c,
            0xd7a024431d752e27, 0x443a385c1fa14bca, 0x9b7ad91da99ad01a, 0x50f78865e739e0ee)
  {
    hide Mix, Xor;
    Placed0(y, a);
    PicksNone(a >> 8, 0xbf97023c81852a79, 0x6c7b96dd20541e5a, 0x534839fa1434978f, 0xed4e7172f644f68c, 0x4b58f7a70ac9f985,
        0x4c1690fd2bf268ce, 0xd8a013a6e50e5824, 0xf1ae6f518e0dbf1e);
    PicksNone(a >> 16, 0x2d695d89ec8339d8, 0x8c5f79986d8ba2d9, 0x716203c53c494078, 0x97d50cdb8ffb8c81, 0xa7e9100b160931cf,
        0xa3ff1ddb8c973c18, 0x824bf8869d412d07, 0x8b670bab358e02ff);
    PicksNone(a >> 24, 0x93c1e9e7cc841d92, 0x84b5198fe643e4d0, 0xf4707fc1ebb8c546, 0x9fe75c40ffb0cc94, 0xfacbe0f442fea8f1,
        0xcafc7f777a95e713, 0xc569210679f946c4, 0xe594e2f0ff826610);
    PicksNone(a >> 32, 0xfeb91e21d3eee9bb, 0x8fbb9f21e50f6b0c, 0x78ec56f0c236288d, 0x2dd5f6c1c6b69eec, 0x30f431b2582c96d9,
        0xcc3b6f1144b59ad7, 0x838f3a29857b927d, 0x148200d826a313ac);
    PicksNone(a >> 40, 0x6b5d3aff13a77263, 0xaf35c2b31235d565, 0x105fce50afc41a26, 0x812a87b1fb753e7c, 0x770d0707b2bc40a,
        0xaa01a901dea971ea, 0x48aaed309529386a, 0x5364ebdfb1853a3b);
    PicksNone(a >> 48, 0xc19c54d747e9428c, 0x27580609605de80f, 0x6439da4dffc92f41, 0x7e76c2aa96b200b1, 0x36b7d1849e61b255,
        0xe2d24c6d56e066e, 0xc3a0d04bad4ef287, 0xad93d23594c935a9);
    PicksNone(a >> 56, 0x80, 0x8000, 0x800000, 0x80000000, 0x8000000000, 0x800000000000, 0x80000000000000, 0x8000000000000000);
    XorSelf(Mix(y, 0x147d3c2acf0e7494, 0x9461c816bec04a63, 0xfe45318757796e3a, 0x739439a57288ea0c, 0xd7a024431d752e27,
        0x443a385c1fa14bca, 0x9b7ad91da99ad01a, 0x50f78865e739e0ee));
  }

  lemma Placed1(y: bv64, a: bv64)
    requires y & 0xff == y && a == y << 8
    ensures a & 0xff == 0 && (a >> 16) & 0xff == 0 && (a >> 24) & 0xff == 0 && (a >> 32) & 0xff == 0 && (a >> 40) & 0xff ==
            0 && (a >> 48) & 0xff == 0 && (a >> 56) & 0xff == 0
    ensures a >> 8 == y
  {}

  lemma ByteImage1(y: bv64, a: bv64)
    requires y & 0xff == y && a == y << 8
    ensures Eighth(a) == Mix(y, 0xbf97023c81852a79, 0x6c7b96dd20541e5a, 0x534839fa1434978f, 0xed4e7172f644f68c,
            0x4b58f7a70ac9f985, 0x4c1690fd2bf268ce, 0xd8a013a6e50e5824, 0xf1ae6f518e0dbf1e)
  {
    hide Mix, Xor;
    Placed1(y, a);
    PicksNone(a, 0x147d3c2acf0e7494, 0x9461c816bec04a63, 0xfe45318757796e3a, 0x739439a57288ea0c, 0xd7a024431d752e27,
        0x443a385c1fa14bca, 0x9b7ad91da99ad01a, 0x50f78865e739e0ee);
    PicksNone(a >> 16, 0x2d695d89ec8339d8, 0x8c5f79986d8ba2d9, 0x716203c53c494078, 0x97d50cdb8ffb8c81, 0xa7e9100b160931cf,
        0xa3ff1ddb8c973c18, 0x824bf8869d412d07, 0x8b670bab358e02ff);
    PicksNone(a >> 24, 0x93c1e9e7cc841d92, 0x84b5198fe643e4d0, 0xf4707fc1ebb8c546, 0x9fe75c40ffb0cc94, 0xfacbe0f442fea8f1,
        0xcafc7f777a95e713, 0xc569210679f946c4, 0xe594e2f0ff826610);
    PicksNone(a >> 32, 0xfeb91e21d3eee9bb, 0x8fbb9f21e50f6b0c, 0x78ec56f0c236288d, 0x2dd5f6c1c6b69eec, 0x30f431b2582c96d9,
        0xcc3b6f1144b59ad7, 0x838f3a29857b927d, 0x148200d826a313ac);
    PicksNone(a >> 40, 0x6b5d3aff13a77263, 0xaf35c2b31235d565, 0x105fce50afc41a26, 0x812a87b1fb753e7c, 0x770d0707b2bc40a,
        0xaa01a901dea971ea, 0x48aaed309529386a, 0x5364ebdfb1853a3b);
    PicksNone(a >> 48, 0xc19c54d747e9428c, 0x27580609605de80f, 0x6439da4dffc92f41, 0x7e76c2aa96b200b1, 0x36b7d1849e61b255,
        0xe2d24c6d56e066e, 0xc3a0d04bad4ef287, 0xad93d23594c935a9);
    PicksNone(a >> 56, 0x80, 0x8000, 0x800000, 0x80000000, 0x8000000000, 0x800000000000, 0x80000000000000, 0x8000000000000000);
    XorSelf(Mix(y, 0xbf97023c81852a79, 0x6c7b96dd20541e5a, 0x534839fa1434978f, 0xed4e7172f644f68c, 0x4b58f7a70ac9f985,
        0x4c1690fd2bf268ce, 0xd8a013a6e50e5824, 0xf1ae6f518e0dbf1e));
  }

  lemma Placed2(y: bv64, a: bv64)
    requires y & 0xff == y && a == y << 16
    ensures a & 0xff == 0 && (a >> 8) & 0xff == 0 && (a >> 24) & 0xff == 0 && (a >> 32) & 0xff == 0 && (a >> 40) & 0xff ==
            0 && (a >> 48) & 0xff == 0 && (a >> 56) & 0xff == 0
    ensures a >> 16 == y
  {}

  lemma ByteImage2(y: bv64, a: bv64)
    requires y & 0xff == y && a == y << 16
    ensures Eighth(a) == Mix(y, 0x2d695d89ec8339d8, 0x8c5f79986d8ba2d9, 0x716203c53c494078, 0x97d50cdb8ffb8c81,
            0xa7e9100b160931cf, 0xa3ff1ddb8c973c18, 0x824bf8869d412d07, 0x8b670bab358e02ff)
  {
    hide Mix, Xor;
    Placed2(y, a);
    PicksNone(a, 0x147d3c2acf0e7494, 0x9461c816bec04a63, 0xfe45318757796e3a, 0x739439a57288ea0c, 0xd7a024431d752e27,
        0x443a385c1fa14bca, 0x9b7ad91da99ad01a, 0x50f78865e739e0ee);
    PicksNone(a >> 8, 0xbf97023c81852a79, 0x6c7b96dd20541e5a, 0x534839fa1434978f, 0xed4e7172f644f68c, 0x4b58f7a70ac9f985,
        0x4c1690fd2bf268ce, 0xd8a013a6e50e5824, 0xf1ae6f518e0dbf1e);
    PicksNone(a >> 24, 0x93c1e9e7cc841d92, 0x84b5198fe643e4d0, 0xf4707fc1ebb8c546, 0x9fe75c40ffb0cc94, 0xfacbe0f442fea8f1,
        0xcafc7f777a95e713, 0xc569210679f946c4, 0xe594e2f0ff826610);
    PicksNone(a >> 32, 0xfeb91e21d3eee9bb, 0x8fbb9f21e50f6b0c, 0x78ec56f0c236288d, 0x2dd5f6c1c6b69eec, 0x30f431b2582c96d9,
        0xcc3b6f1144b59ad7, 0x838f3a29857b927d, 0x148200d826a313ac);
    PicksNone(a >> 40, 0x6b5d3aff13a77263, 0xaf35c2b31235d565, 0x105fce50afc41a26, 0x812a87b1fb753e7c, 0x770d0707b2bc40a,
        0xaa01a901dea971ea, 0x48aaed309529386a, 0x5364ebdfb1853a3b);
    PicksNone(a >> 48, 0xc19c54d747e9428c, 0x27580609605de80f, 0x6439da4dffc92f41, 0x7e76c2aa96b200b1, 0x36b7d1849e61b255,
        0xe2d24c6d56e066e, 0xc3a0d04bad4ef287, 0xad93d23594c935a9);
    PicksNone(a >> 56, 0x80, 0x8000, 0x800000, 0x80000000, 0x8000000000, 0x800000000000, 0x80000000000000, 0x8000000000000000);
    XorSelf(Mix(y, 0x2d695d89ec8339d8, 0x8c5f79986d8ba2d9, 0x716203c53c494078, 0x97d50cdb8ffb8c81, 0xa7e9100b160931cf,
        0xa3ff1ddb8c973c18, 0x824bf8869d412d07, 0x8b670bab358e02ff));
  }

  lemma Placed3(y: bv64, a: bv64)
    requires y & 0xff == y && a == y << 24
    ensures a & 0xff == 0 && (a >> 8) & 0xff == 0 && (a >> 16) & 0xff == 0 && (a >> 32) & 0xff == 0 && (a >> 40) & 0xff ==
            0 && (a >> 48) & 0xff == 0 && (a >> 56) & 0xff == 0
    ensures a >> 24 == y
  {}

  lemma ByteImage3(y: bv64, a: bv64)
    requires y & 0xff == y && a == y << 24
    ensures Eighth(a) == Mix(y, 0x93c1e9e7cc841d92, 0x84b5198fe643e4d0, 0xf4707fc1ebb8c546, 0x9fe75c40ffb0cc94,
            0xfacbe0f442fea8f1, 0xcafc7f777a95e713, 0xc569210679f946c4, 0xe594e2f0ff826610)
  {
    hide Mix, Xor;
    Placed3(y, a);
    PicksNone(a, 0x147d3c2acf0e7494, 0x9461c816bec04a63, 0xfe45318757796e3a, 0x739439a57288ea0c, 0xd7a024431d752e27,
        0x443a385c1fa14bca, 0x9b7ad91da99ad01a, 0x50f78865e739e0ee);
    PicksNone(a >> 8, 0xbf97023c81852a79, 0x6c7b96dd20541e5a, 0x534839fa1434978f, 0xed4e7172f644f68c, 0x4b58f7a70ac9f985,
        0x4c1690fd2bf268ce, 0xd8a013a6e50e5824, 0xf1ae6f518e0dbf1e);
    PicksNone(a >> 16, 0x2d695d89ec8339d8, 0x8c5f79986d8ba2d9, 0x716203c53c494078, 0x97d50cdb8ffb8c81, 0xa7e9100b160931cf,
        0xa3ff1ddb8c973c18, 0x824bf8869d412d07, 0x8b670bab358e02ff);
    PicksNone(a >> 32, 0xfeb91e21d3eee9bb, 0x8fbb9f21e50f6b0c, 0x78ec56f0c236288d, 0x2dd5f6c1c6b69eec, 0x30f431b2582c96d9,
        0xcc3b6f1144b59ad7, 0x838f3a29857b927d, 0x148200d826a313ac);
    PicksNone(a >> 40, 0x6b5d3aff13a77263, 0xaf35c2b31235d565, 0x105fce50afc41a26, 0x812a87b1fb753e7c, 0x770d0707b2bc40a,
        0xaa01a901dea971ea, 0x48aaed309529386a, 0x5364ebdfb1853a3b);
    PicksNone(a >> 48, 0xc19c54d747e9428c, 0x27580609605de80f, 0x6439da4dffc92f41, 0x7e76c2aa96b200b1, 0x36b7d1849e61b255,
        0xe2d24c6d56e066e, 0xc3a0d04bad4ef287, 0xad93d23594c935a9);
    PicksNone(a >> 56, 0x80, 0x8000, 0x800000, 0x80000000, 0x8000000000, 0x800000000000, 0x80000000000000, 0x8000000000000000);
    XorSelf(Mix(y, 0x93c1e9e7cc841d92, 0x84b5198fe643e4d0, 0xf4707fc1ebb8c546, 0x9fe75c40ffb0cc94, 0xfacbe0f442fea8f1,
        0xcafc7f777a95e713, 0xc569210679f946c4, 0xe594e2f0ff826610));
  }

  lemma Placed4(y: bv64, a: bv64)
    requires y & 0xff == y && a == y << 32
    ensures a & 0xff == 0 && (a >> 8) & 0xff == 0 && (a >> 16) & 0xff == 0 && (a >> 24) & 0xff == 0 && (a >> 40) & 0xff ==
            0 && (a >> 48) & 0xff == 0 && (a >> 56) & 0xff == 0
    ensures a >> 32 == y
  {}

  lemma ByteImage4(y: bv64, a: bv64)
    requires y & 0xff == y && a == y << 32
    ensures Eighth(a) == Mix(y, 0xfeb91e21d3eee9bb, 0x8fbb9f21e50f6b0c, 0x78ec56f0c236288d, 0x2dd5f6c1c6b69eec,
            0x30f431b2582c96d9, 0xcc3b6f1144b59ad7, 0x838f3a29857b927d, 0x148200d826a313ac)
  {
    hide Mix, Xor;
    Placed4(y, a);
    PicksNone(a, 0x147d3c2acf0e7494, 0x9461c816bec04a63, 0xfe45318757796e3a, 0x739439a57288ea0c, 0xd7a024431d752e27,
        0x443a385c1fa14bca, 0x9b7ad91da99ad01a, 0x50f78865e739e0ee);
    PicksNone(a >> 8, 0xbf97023c81852a79, 0x6c7b96dd20541e5a, 0x534839fa1434978f, 0xed4e7172f644f68c, 0x4b58f7a70ac9f985,
        0x4c1690fd2bf268ce, 0xd8a013a6e50e5824, 0xf1ae6f518e0dbf1e);
    PicksNone(a >> 16, 0x2d695d89ec8339d8, 0x8c5f79986d8ba2d9, 0x716203c53c494078, 0x97d50cdb8ffb8c81, 0xa7e9100b160931cf,
        0xa3ff1ddb8c973c18, 0x824bf8869d412d07, 0x8b670bab358e02ff);
    PicksNone(a >> 24, 0x93c1e9e7cc841d92, 0x84b5198fe643e4d0, 0xf4707fc1ebb8c546, 0x9fe75c40ffb0cc94, 0xfacbe0f442fea8f1,
        0xcafc7f777a95e713, 0xc569210679f946c4, 0xe594e2f0ff826610);
    PicksNone(a >> 40, 0x6b5d3aff13a77263, 0xaf35c2b31235d565, 0x105fce50afc41a26, 0x812a87b1fb753e7c, 0x770d0707b2bc40a,
        0xaa01a901dea971ea, 0x48aaed309529386a, 0x5364ebdfb1853a3b);
    PicksNone(a >> 48, 0xc19c54d747e9428c, 0x27580609605de80f, 0x6439da4dffc92f41, 0x7e76c2aa96b200b1, 0x36b7d1849e61b255,
        0xe2d24c6d56e066e, 0xc3a0d04bad4ef287, 0xad93d23594c935a9);
    PicksNone(a >> 56, 0x80, 0x8000, 0x800000, 0x80000000, 0x8000000000, 0x800000000000, 0x80000000000000, 0x8000000000000000);
    XorSelf(Mix(y, 0xfeb91e21d3eee9bb, 0x8fbb9f21e50f6b0c, 0x78ec56f0c236288d, 0x2dd5f6c1c6b69eec, 0x30f431b2582c96d9,
        0xcc3b6f1144b59ad7, 0x838f3a29857b927d, 0x148200d826a313ac));
  }

  lemma Placed5(y: bv64, a: bv64)
    requires y & 0xff == y && a == y << 40
    ensures a & 0xff == 0 && (a >> 8) & 0xff == 0 && (a >> 16) & 0xff == 0 && (a >> 24) & 0xff == 0 && (a >> 32) & 0xff ==
            0 && (a >> 48) & 0xff == 0 && (a >> 56) & 0xff == 0
    ensures a >> 40 == y
  {}

  lemma ByteImage5(y: bv64, a: bv64)
    requires y & 0xff == y && a == y << 40
    ensures Eighth(a) == Mix(y, 0x6b5d3aff13a77263, 0xaf35c2b31235d565, 0x105fce50afc41a26, 0x812a87b1fb753e7c,
            0x770d0707b2bc40a, 0xaa01a901dea971ea, 0x48aaed309529386a, 0x5364ebdfb1853a3b)
  {
    hide Mix, Xor;
    Placed5(y, a);
    PicksNone(a, 0x147d3c2acf0e7494, 0x9461c816bec04a63, 0xfe45318757796e3a, 0x739439a57288ea0c, 0xd7a024431d752e27,
        0x443a385c1fa14bca, 0x9b7ad91da99ad01a, 0x50f78865e739e0ee);
    PicksNone(a >> 8, 0xbf97023c81852a79, 0x6c7b96dd20541e5a, 0x534839fa1434978f, 0xed4e7172f644f68c, 0x4b58f7a70ac9f985,
        0x4c1690fd2bf268ce, 0xd8a013a6e50e5824, 0xf1ae6f518e0dbf1e);
    PicksNone(a >> 16, 0x2d695d89ec8339d8, 0x8c5f79986d8ba2d9, 0x716203c53c494078, 0x97d50cdb8ffb8c81, 0xa7e9100b160931cf,
        0xa3ff1ddb8c973c18, 0x824bf8869d412d07, 0x8b670bab358e02ff);
    PicksNone(a >> 24, 0x93c1e9e7cc841d92, 0x84b5198fe643e4d0, 0xf4707fc1ebb8c546, 0x9fe75c40ffb0cc94, 0xfacbe0f442fea8f1,
        0xcafc7f777a95e713, 0xc569210679f946c4, 0xe594e2f0ff826610);
    PicksNone(a >> 32, 0xfeb91e21d3eee9bb, 0x8fbb9f21e50f6b0c, 0x78ec56f0c236288d, 0x2dd5f6c1c6b69eec, 0x30f431b2582c96d9,
        0xcc3b6f1144b59ad7, 0x838f3a29857b927d, 0x148200d826a313ac);
    PicksNone(a >> 48, 0xc19c54d747e9428c, 0x27580609605de80f, 0x6439da4dffc92f41, 0x7e76c2aa96b200b1, 0x36b7d1849e61b255,
        0xe2d24c6d56e066e, 0xc3a0d04bad4ef287, 0xad93d23594c935a9);
    PicksNone(a >> 56, 0x80, 0x8000, 0x800000, 0x80000000, 0x8000000000, 0x800000000000, 0x80000000000000, 0x8000000000000000);
    XorSelf(Mix(y, 0x6b5d3aff13a77263, 0xaf35c2b31235d565, 0x105fce50afc41a26, 0x812a87b1fb753e7c, 0x770d0707b2bc40a,
        0xaa01a901dea971ea, 0x48aaed309529386a, 0x5364ebdfb1853a3b));
  }

  lemma Placed6(y: bv64, a: bv64)
    requires y & 0xff == y && a == y << 48
    ensures a & 0xff == 0 && (a >> 8) & 0xff == 0 && (a >> 16) & 0xff == 0 && (a >> 24) & 0xff == 0 && (a >> 32) & 0xff ==
            0 && (a >> 40) & 0xff == 0 && (a >> 56) & 0xff == 0
    ensures a >> 48 == y
  {}

  lemma ByteImage6(y: bv64, a: bv64)
    requires y & 0xff == y && a == y << 48
    ensures Eighth(a) == Mix(y, 0xc19c54d747e9428c, 0x27580609605de80f, 0x6439da4dffc92f41, 0x7e76c2aa96b200b1,
            0x36b7d1849e61b255, 0xe2d24c6d56e066e, 0xc3a0d04bad4ef287, 0xad93d23594c935a9)
  {
    hide Mix, Xor;
    Placed6(y, a);
    PicksNone(a, 0x147d3c2acf0e7494, 0x9461c816bec04a63, 0xfe45318757796e3a, 0x739439a57288ea0c, 0xd7a024431d752e27,
        0x443a385c1fa14bca, 0x9b7ad91da99ad01a, 0x50f78865e739e0ee);
    PicksNone(a >> 8, 0xbf97023c81852a79, 0x6c7b96dd20541e5a, 0x534839fa1434978f, 0xed4e7172f644f68c, 0x4b58f7a70ac9f985,
        0x4c1690fd2bf268ce, 0xd8a013a6e50e5824, 0xf1ae6f518e0dbf1e);
    PicksNone(a >> 16, 0x2d695d89ec8339d8, 0x8c5f79986d8ba2d9, 0x716203c53c494078, 0x97d50cdb8ffb8c81, 0xa7e9100b160931cf,
        0xa3ff1ddb8c973c18, 0x824bf8869d412d07, 0x8b670bab358e02ff);
    PicksNone(a >> 24, 0x93c1e9e7cc841d92, 0x84b5198fe643e4d0, 0xf4707fc1ebb8c546, 0x9fe75c40ffb0cc94, 0xfacbe0f442fea8f1,
        0xcafc7f777a95e713, 0xc569210679f946c4, 0xe594e2f0ff826610);
    PicksNone(a >> 32, 0xfeb91e21d3eee9bb, 0x8fbb9f21e50f6b0c, 0x78ec56f0c236288d, 0x2dd5f6c1c6b69eec, 0x30f431b2582c96d9,
        0xcc3b6f1144b59ad7, 0x838f3a29857b927d, 0x148200d826a313ac);
    PicksNone(a >> 40, 0x6b5d3aff13a77263, 0xaf35c2b31235d565, 0x105fce50afc41a26, 0x812a87b1fb753e7c, 0x770d0707b2bc40a,
        0xaa01a901dea971ea, 0x48aaed309529386a, 0x5364ebdfb1853a3b);
    PicksNone(a >> 56, 0x80, 0x8000, 0x800000, 0x80000000, 0x8000000000, 0x800000000000, 0x80000000000000, 0x8000000000000000);
    XorSelf(Mix(y, 0xc19c54d747e9428c, 0x27580609605de80f, 0x6439da4dffc92f41, 0x7e76c2aa96b200b1, 0x36b7d1849e61b255,
        0xe2d24c6d56e066e, 0xc3a0d04bad4ef287, 0xad93d23594c935a9));
  }

  lemma Placed7(y: bv64, a: bv64)
    requires y & 0xff == y && a == y << 56
    ensures a & 0xff == 0 && (a >> 8) & 0xff == 0 && (a >> 16) & 0xff == 0 && (a >> 24) & 0xff == 0 && (a >> 32) & 0xff ==
            0 && (a >> 40) & 0xff == 0 && (a >> 48) & 0xff == 0
    ensures a >> 56 == y
  {}

  lemma ByteImage7(y: bv64, a: bv64)
    requires y & 0xff == y && a == y << 56
    ensures Eighth(a) == Mix(y, 0x80, 0x8000, 0x800000, 0x80000000, 0x8000000000, 0x800000000000, 0x80000000000000,
            0x8000000000000000)
  {
    hide Mix, Xor;
    Placed7(y, a);
    PicksNone(a, 0x147d3c2acf0e7494, 0x9461c816bec04a63, 0xfe45318757796e3a, 0x739439a57288ea0c, 0xd7a024431d752e27,
        0x443a385c1fa14bca, 0x9b7ad91da99ad01a, 0x50f78865e739e0ee);
    PicksNone(a >> 8, 0xbf97023c81852a79, 0x6c7b96dd20541e5a, 0x534839fa1434978f, 0xed4e7172f644f68c, 0x4b58f7a70ac9f985,
        0x4c1690fd2bf268ce, 0xd8a013a6e50e5824, 0xf1ae6f518e0dbf1e);
    PicksNone(a >> 16, 0x2d695d89ec8339d8, 0x8c5f79986d8ba2d9, 0x716203c53c494078, 0x97d50cdb8ffb8c81, 0xa7e9100b160931cf,
        0xa3ff1ddb8c973c18, 0x824bf8869d412d07, 0x8b670bab358e02ff);
    PicksNone(a >> 24, 0x93c1e9e7cc841d92, 0x84b5198fe643e4d0, 0xf4707fc1ebb8c546, 0x9fe75c40ffb0cc94, 0xfacbe0f442fea8f1,
        0xcafc7f777a95e713, 0xc569210679f946c4, 0xe594e2f0ff826610);
    PicksNone(a >> 32, 0xfeb91e21d3eee9bb, 0x8fbb9f21e50f6b0c, 0x78ec56f0c236288d, 0x2dd5f6c1c6b69eec, 0x30f431b2582c96d9,
        0xcc3b6f1144b59ad7, 0x838f3a29857b927d, 0x148200d826a313ac);
    PicksNone(a >> 40, 0x6b5d3aff13a77263, 0xaf35c2b31235d565, 0x105fce50afc41a26, 0x812a87b1fb753e7c, 0x770d0707b2bc40a,
        0xaa01a901dea971ea, 0x48aaed309529386a, 0x5364ebdfb1853a3b);
    PicksNone(a >> 48, 0xc19c54d747e9428c, 0x27580609605de80f, 0x6439da4dffc92f41, 0x7e76c2aa96b200b1, 0x36b7d1849e61b255,
        0xe2d24c6d56e066e, 0xc3a0d04bad4ef287, 0xad93d23594c935a9);
    XorSelf(Mix(y, 0x80, 0x8000, 0x800000, 0x80000000, 0x8000000000, 0x800000000000, 0x80000000000000, 0x8000000000000000));
  }

  lemma ImageLast()
    ensures Eighth(0xad93d23594c935a9) == 0xf4fbe5a181887bfe
  {}

  lemma Moves0a()
    ensures Shift(0x1) == 0xad93d23594c935a9 && Shifts(0x147d3c2acf0e7494, 8) == 0xf4fbe5a181887bfe
    ensures Shift(0x2) == 0x1 && Shifts(0x9461c816bec04a63, 8) == 0x147d3c2acf0e7494
    ensures Shift(0x4) == 0x2 && Shifts(0xfe45318757796e3a, 8) == 0x9461c816bec04a63
    ensures Shift(0x8) == 0x4 && Shifts(0x739439a57288ea0c, 8) == 0xfe45318757796e3a
  {}

  lemma Moves0b()
    ensures Shift(0x10) == 0x8 && Shifts(0xd7a024431d752e27, 8) == 0x739439a57288ea0c
    ensures Shift(0x20) == 0x10 && Shifts(0x443a385c1fa14bca, 8) == 0xd7a024431d752e27
    ensures Shift(0x40) == 0x20 && Shifts(0x9b7ad91da99ad01a, 8) == 0x443a385c1fa14bca
    ensures Shift(0x80) == 0x40 && Shifts(0x50f78865e739e0ee, 8) == 0x9b7ad91da99ad01a
  {}

  lemma Images0()
    ensures Eighth(0x1) == 0x147d3c2acf0e7494 && Eighth(0x2) == 0x9461c816bec04a63
    ensures Eighth(0x4) == 0xfe45318757796e3a && Eighth(0x8) == 0x739439a57288ea0c
    ensures Eighth(0x10) == 0xd7a024431d752e27 && Eighth(0x20) == 0x443a385c1fa14bca
    ensures Eighth(0x40) == 0x9b7ad91da99ad01a && Eighth(0x80) == 0x50f78865e739e0ee
  {
    hide Eighth, Mix;
    ByteImage0(0x1, 0x1);
    ByteImage0(0x2, 0x2);
    ByteImage0(0x4, 0x4);
    ByteImage0(0x8, 0x8);
    ByteImage0(0x10, 0x10);
    ByteImage0(0x20, 0x20);
    ByteImage0(0x40, 0x40);
    ByteImage0(0x80, 0x80);
    Picks(0x147d3c2acf0e7494, 0x9461c816bec04a63, 0xfe45318757796e3a, 0x739439a57288ea0c, 0xd7a024431d752e27,
        0x443a385c1fa14bca, 0x9b7ad91da99ad01a, 0x50f78865e739e0ee);
  }

  lemma Bits0()
    ensures Good(0x1) && Good(0x2) && Good(0x4) && Good(0x8)
    ensures Good(0x10) && Good(0x20) && Good(0x40) && Good(0x80)
  {
    hide Good, Eighth, Shift, Shifts;
    Moves0a();
    Moves0b();
    ImageLast();
    Images0();
    GoodBit(0x1, 0xad93d23594c935a9, 0x147d3c2acf0e7494, 0xf4fbe5a181887bfe);
    GoodBit(0x2, 0x1, 0x9461c816bec04a63, 0x147d3c2acf0e7494);
    GoodBit(0x4, 0x2, 0xfe45318757796e3a, 0x9461c816bec04a63);
    GoodBit(0x8, 0x4, 0x739439a57288ea0c, 0xfe45318757796e3a);
    GoodBit(0x10, 0x8, 0xd7a024431d752e27, 0x739439a57288ea0c);
    GoodBit(0x20, 0x10, 0x443a385c1fa14bca, 0xd7a024431d752e27);
    GoodBit(0x40, 0x20, 0x9b7ad91da99ad01a, 0x443a385c1fa14bca);
    GoodBit(0x80, 0x40, 0x50f78865e739e0ee, 0x9b7ad91da99ad01a);
  }

  lemma Moves1a()
    ensures Shift(0x100) == 0x80 && Shifts(0xbf97023c81852a79, 8) == 0x50f78865e739e0ee
    ensures Shift(0x200) == 0x100 && Shifts(0x6c7b96dd20541e5a, 8) == 0xbf97023c81852a79
    ensures Shift(0x400) == 0x200 && Shifts(0x534839fa1434978f, 8) == 0x6c7b96dd20541e5a
    ensures Shift(0x800) == 0x400 && Shifts(0xed4e7172f644f68c, 8) == 0x534839fa1434978f
  {}

  lemma Moves1b()
    ensures Shift(0x1000) == 0x800 && Shifts(0x4b58f7a70ac9f985, 8) == 0xed4e7172f644f68c
    ensures Shift(0x2000) == 0x1000 && Shifts(0x4c1690fd2bf268ce, 8) == 0x4b58f7a70ac9f985
    ensures Shift(0x4000) == 0x2000 && Shifts(0xd8a013a6e50e5824, 8) == 0x4c1690fd2bf268ce
    ensures Shift(0x8000) == 0x4000 && Shifts(0xf1ae6f518e0dbf1e, 8) == 0xd8a013a6e50e5824
  {}

  lemma Images1()
    ensures Eighth(0x100) == 0xbf97023c81852a79 && Eighth(0x200) == 0x6c7b96dd20541e5a
    ensures Eighth(0x400) == 0x534839fa1434978f && Eighth(0x800) == 0xed4e7172f644f68c
    ensures Eighth(0x1000) == 0x4b58f7a70ac9f985 && Eighth(0x2000) == 0x4c1690fd2bf268ce
    ensures Eighth(0x4000) == 0xd8a013a6e50e5824 && Eighth(0x8000) == 0xf1ae6f518e0dbf1e
  {
    hide Eighth, Mix;
    ByteImage1(0x1, 0x100);
    ByteImage1(0x2, 0x200);
    ByteImage1(0x4, 0x400);
    ByteImage1(0x8, 0x800);
    ByteImage1(0x10, 0x1000);
    ByteImage1(0x20, 0x2000);
    ByteImage1(0x40, 0x4000);
    ByteImage1(0x80, 0x8000);
    Picks(0xbf97023c81852a79, 0x6c7b96dd20541e5a, 0x534839fa1434978f, 0xed4e7172f644f68c, 0x4b58f7a70ac9f985,
        0x4c1690fd2bf268ce, 0xd8a013a6e50e5824, 0xf1ae6f518e0dbf1e);
  }

  lemma Bits1()
    ensures Good(0x100) && Good(0x200) && Good(0x400) && Good(0x800)
    ensures Good(0x1000) && Good(0x2000) && Good(0x4000) && Good(0x8000)
  {
    hide Good, Eighth, Shift, Shifts;
    Moves1a();
    Moves1b();
    Images0();
    Images1();
    GoodBit(0x100, 0x80, 0xbf97023c81852a79, 0x50f78865e739e0ee);
    GoodBit(0x200, 0x100, 0x6c7b96dd20541e5a, 0xbf97023c81852a79);
    GoodBit(0x400, 0x200, 0x534839fa1434978f, 0x6c7b96dd20541e5a);
    GoodBit(0x800, 0x400, 0xed4e7172f644f68c, 0x534839fa1434978f);
    GoodBit(0x1000, 0x800, 0x4b58f7a70ac9f985, 0xed4e7172f644f68c);
    GoodBit(0x2000, 0x1000, 0x4c1690fd2bf268ce, 0x4b58f7a70ac9f985);
    GoodBit(0x4000, 0x2000, 0xd8a013a6e50e5824, 0x4c1690fd2bf268ce);
    GoodBit(0x8000, 0x4000, 0xf1ae6f518e0dbf1e, 0xd8a013a6e50e5824);
  }

  lemma Moves2a()
    ensures Shift(0x10000) == 0x8000 && Shifts(0x2d695d89ec8339d8, 8) == 0xf1ae6f518e0dbf1e
    ensures Shift(0x20000) == 0x10000 && Shifts(0x8c5f79986d8ba2d9, 8) == 0x2d695d89ec8339d8
    ensures Shift(0x40000) == 0x20000 && Shifts(0x716203c53c494078, 8) == 0x8c5f79986d8ba2d9
    ensures Shift(0x80000) == 0x40000 && Shifts(0x97d50cdb8ffb8c81, 8) == 0x716203c53c494078
  {}

  lemma Moves2b()
    ensures Shift(0x100000) == 0x80000 && Shifts(0xa7e9100b160931cf, 8) == 0x97d50cdb8ffb8c81
    ensures Shift(0x200000) == 0x100000 && Shifts(0xa3ff1ddb8c973c18, 8) == 0xa7e9100b160931cf
    ensures Shift(0x400000) == 0x200000 && Shifts(0x824bf8869d412d07, 8) == 0xa3ff1ddb8c973c18
    ensures Shift(0x800000) == 0x400000 && Shifts(0x8b670bab358e02ff, 8) == 0x824bf8869d412d07
  {}

  lemma Images2()
    ensures Eighth(0x10000) == 0x2d695d89ec8339d8 && Eighth(0x20000) == 0x8c5f79986d8ba2d9
    ensures Eighth(0x40000) == 0x716203c53c494078 && Eighth(0x80000) == 0x97d50cdb8ffb8c81
    ensures Eighth(0x100000) == 0xa7e9100b160931cf && Eighth(0x200000) == 0xa3ff1ddb8c973c18
    ensures Eighth(0x400000) == 0x824bf8869d412d07 && Eighth(0x800000) == 0x8b670bab358e02ff
  {
    hide Eighth, Mix;
    ByteImage2(0x1, 0x10000);
    ByteImage2(0x2, 0x20000);
    ByteImage2(0x4, 0x40000);
    ByteImage2(0x8, 0x80000);
    ByteImage2(0x10, 0x100000);
    ByteImage2(0x20, 0x200000);
    ByteImage2(0x40, 0x400000);
    ByteImage2(0x80, 0x800000);
    Picks(0x2d695d89ec8339d8, 0x8c5f79986d8ba2d9, 0x716203c53c494078, 0x97d50cdb8ffb8c81, 0xa7e9100b160931cf,
        0xa3ff1ddb8c973c18, 0x824bf8869d412d07, 0x8b670bab358e02ff);
  }

  lemma Bits2()
    ensures Good(0x10000) && Good(0x20000) && Good(0x40000) && Good(0x80000)
    ensures Good(0x100000) && Good(0x200000) && Good(0x400000) && Good(0x800000)
  {
    hide Good, Eighth, Shift, Shifts;
    Moves2a();
    Moves2b();
    Images1();
    Images2();
    GoodBit(0x10000, 0x8000, 0x2d695d89ec8339d8, 0xf1ae6f518e0dbf1e);
    GoodBit(0x20000, 0x10000, 0x8c5f79986d8ba2d9, 0x2d695d89ec8339d8);
    GoodBit(0x40000, 0x20000, 0x716203c53c494078, 0x8c5f79986d8ba2d9);
    GoodBit(0x80000, 0x40000, 0x97d50cdb8ffb8c81, 0x716203c53c494078);
    GoodBit(0x100000, 0x80000, 0xa7e9100b160931cf, 0x97d50cdb8ffb8c81);
    GoodBit(0x200000, 0x100000, 0xa3ff1ddb8c973c18, 0xa7e9100b160931cf);
    GoodBit(0x400000, 0x200000, 0x824bf8869d412d07, 0xa3ff1ddb8c973c18);
    GoodBit(0x800000, 0x400000, 0x8b670bab358e02ff, 0x824bf8869d412d07);
  }

  lemma Moves3a()
    ensures Shift(0x1000000) == 0x800000 && Shifts(0x93c1e9e7cc841d92, 8) == 0x8b670bab358e02ff
    ensures Shift(0x2000000) == 0x1000000 && Shifts(0x84b5198fe643e4d0, 8) == 0x93c1e9e7cc841d92
    ensures Shift(0x4000000) == 0x2000000 && Shifts(0xf4707fc1ebb8c546, 8) == 0x84b5198fe643e4d0
    ensures Shift(0x8000000) == 0x4000000 && Shifts(0x9fe75c40ffb0cc94, 8) == 0xf4707fc1ebb8c546
  {}

  lemma Moves3b()
    ensures Shift(0x10000000) == 0x8000000 && Shifts(0xfacbe0f442fea8f1, 8) == 0x9fe75c40ffb0cc94
    ensures Shift(0x20000000) == 0x10000000 && Shifts(0xcafc7f777a95e713, 8) == 0xfacbe0f442fea8f1
    ensures Shift(0x40000000) == 0x20000000 && Shifts(0xc569210679f946c4, 8) == 0xcafc7f777a95e713
    ensures Shift(0x80000000) == 0x40000000 && Shifts(0xe594e2f0ff826610, 8) == 0xc569210679f946c4
  {}

  lemma Images3()
    ensures Eighth(0x1000000) == 0x93c1e9e7cc841d92 && Eighth(0x2000000) == 0x84b5198fe643e4d0
    ensures Eighth(0x4000000) == 0xf4707fc1ebb8c546 && Eighth(0x8000000) == 0x9fe75c40ffb0cc94
    ensures Eighth(0x10000000) == 0xfacbe0f442fea8f1 && Eighth(0x20000000) == 0xcafc7f777a95e713
    ensures Eighth(0x40000000) == 0xc569210679f946c4 && Eighth(0x80000000) == 0xe594e2f0ff826610
  {
    hide Eighth, Mix;
    ByteImage3(0x1, 0x1000000);
    ByteImage3(0x2, 0x2000000);
    ByteImage3(0x4, 0x4000000);
    ByteImage3(0x8, 0x8000000);
    ByteImage3(0x10, 0x10000000);
    ByteImage3(0x20, 0x20000000);
    ByteImage3(0x40, 0x40000000);
    ByteImage3(0x80, 0x80000000);
    Picks(0x93c1e9e7cc841d92, 0x84b5198fe643e4d0, 0xf4707fc1ebb8c546, 0x9fe75c40ffb0cc94, 0xfacbe0f442fea8f1,
        0xcafc7f777a95e713, 0xc569210679f946c4, 0xe594e2f0ff826610);
  }

  lemma Bits3()
    ensures Good(0x1000000) && Good(0x2000000) && Good(0x4000000) && Good(0x8000000)
    ensures Good(0x10000000) && Good(0x20000000) && Good(0x40000000) && Good(0x80000000)
  {
    hide Good, Eighth, Shift, Shifts;
    Moves3a();
    Moves3b();
    Images2();
    Images3();
    GoodBit(0x1000000, 0x800000, 0x93c1e9e7cc841d92, 0x8b670bab358e02ff);
    GoodBit(0x2000000, 0x1000000, 0x84b5198fe643e4d0, 0x93c1e9e7cc841d92);
    GoodBit(0x4000000, 0x2000000, 0xf4707fc1ebb8c546, 0x84b5198fe643e4d0);
    GoodBit(0x8000000, 0x4000000, 0x9fe75c40ffb0cc94, 0xf4707fc1ebb8c546);
    GoodBit(0x10000000, 0x8000000, 0xfacbe0f442fea8f1, 0x9fe75c40ffb0cc94);
    GoodBit(0x20000000, 0x10000000, 0xcafc7f777a95e713, 0xfacbe0f442fea8f1);
    GoodBit(0x40000000, 0x20000000, 0xc569210679f946c4, 0xcafc7f777a95e713);
    GoodBit(0x80000000, 0x40000000, 0xe594e2f0ff826610, 0xc569210679f946c4);
  }

  lemma Moves4a()
    ensures Shift(0x100000000) == 0x80000000 && Shifts(0xfeb91e21d3eee9bb, 8) == 0xe594e2f0ff826610
    ensures Shift(0x200000000) == 0x100000000 && Shifts(0x8fbb9f21e50f6b0c, 8) == 0xfeb91e21d3eee9bb
    ensures Shift(0x400000000) == 0x200000000 && Shifts(0x78ec56f0c236288d, 8) == 0x8fbb9f21e50f6b0c
    ensures Shift(0x800000000) == 0x400000000 && Shifts(0x2dd5f6c1c6b69eec, 8) == 0x78ec56f0c236288d
  {}

  lemma Moves4b()
    ensures Shift(0x1000000000) == 0x800000000 && Shifts(0x30f431b2582c96d9, 8) == 0x2dd5f6c1c6b69eec
    ensures Shift(0x2000000000) == 0x1000000000 && Shifts(0xcc3b6f1144b59ad7, 8) == 0x30f431b2582c96d9
    ensures Shift(0x4000000000) == 0x2000000000 && Shifts(0x838f3a29857b927d, 8) == 0xcc3b6f1144b59ad7
    ensures Shift(0x8000000000) == 0x4000000000 && Shifts(0x148200d826a313ac, 8) == 0x838f3a29857b927d
  {}

  lemma Images4()
    ensures Eighth(0x100000000) == 0xfeb91e21d3eee9bb && Eighth(0x200000000) == 0x8fbb9f21e50f6b0c
    ensures Eighth(0x400000000) == 0x78ec56f0c236288d && Eighth(0x800000000) == 0x2dd5f6c1c6b69eec
    ensures Eighth(0x1000000000) == 0x30f431b2582c96d9 && Eighth(0x2000000000) == 0xcc3b6f1144b59ad7
    ensures Eighth(0x4000000000) == 0x838f3a29857b927d && Eighth(0x8000000000) == 0x148200d826a313ac
  {
    hide Eighth, Mix;
    ByteImage4(0x1, 0x100000000);
    ByteImage4(0x2, 0x200000000);
    ByteImage4(0x4, 0x400000000);
    ByteImage4(0x8, 0x800000000);
    ByteImage4(0x10, 0x1000000000);
    ByteImage4(0x20, 0x2000000000);
    ByteImage4(0x40, 0x4000000000);
    ByteImage4(0x80, 0x8000000000);
    Picks(0xfeb91e21d3eee9bb, 0x8fbb9f21e50f6b0c, 0x78ec56f0c236288d, 0x2dd5f6c1c6b69eec, 0x30f431b2582c96d9,
        0xcc3b6f1144b59ad7, 0x838f3a29857b927d, 0x148200d826a313ac);
  }

  lemma Bits4()
    ensures Good(0x100000000) && Good(0x200000000) && Good(0x400000000) && Good(0x800000000)
    ensures Good(0x1000000000) && Good(0x2000000000) && Good(0x4000000000) && Good(0x8000000000)
  {
    hide Good, Eighth, Shift, Shifts;
    Moves4a();
    Moves4b();
    Images3();
    Images4();
    GoodBit(0x100000000, 0x80000000, 0xfeb91e21d3eee9bb, 0xe594e2f0ff826610);
    GoodBit(0x200000000, 0x100000000, 0x8fbb9f21e50f6b0c, 0xfeb91e21d3eee9bb);
    GoodBit(0x400000000, 0x200000000, 0x78ec56f0c236288d, 0x8fbb9f21e50f6b0c);
    GoodBit(0x800000000, 0x400000000, 0x2dd5f6c1c6b69eec, 0x78ec56f0c236288d);
    GoodBit(0x1000000000, 0x800000000, 0x30f431b2582c96d9, 0x2dd5f6c1c6b69eec);
    GoodBit(0x2000000000, 0x1000000000, 0xcc3b6f1144b59ad7, 0x30f431b2582c96d9);
    GoodBit(0x4000000000, 0x2000000000, 0x838f3a29857b927d, 0xcc3b6f1144b59ad7);
    GoodBit(0x8000000000, 0x4000000000, 0x148200d826a313ac, 0x838f3a29857b927d);
  }

  lemma Moves5a()
    ensures Shift(0x10000000000) == 0x8000000000 && Shifts(0x6b5d3aff13a77263, 8) == 0x148200d826a313ac
    ensures Shift(0x20000000000) == 0x10000000000 && Shifts(0xaf35c2b31235d565, 8) == 0x6b5d3aff13a77263
    ensures Shift(0x40000000000) == 0x20000000000 && Shifts(0x105fce50afc41a26, 8) == 0xaf35c2b31235d565
    ensures Shift(0x80000000000) == 0x40000000000 && Shifts(0x812a87b1fb753e7c, 8) == 0x105fce50afc41a26
  {}

  lemma Moves5b()
    ensures Shift(0x100000000000) == 0x80000000000 && Shifts(0x770d0707b2bc40a, 8) == 0x812a87b1fb753e7c
    ensures Shift(0x200000000000) == 0x100000000000 && Shifts(0xaa01a901dea971ea, 8) == 0x770d0707b2bc40a
    ensures Shift(0x400000000000) == 0x200000000000 && Shifts(0x48aaed309529386a, 8) == 0xaa01a901dea971ea
    ensures Shift(0x800000000000) == 0x400000000000 && Shifts(0x5364ebdfb1853a3b, 8) == 0x48aaed309529386a
  {}

  lemma Images5()
    ensures Eighth(0x10000000000) == 0x6b5d3aff13a77263 && Eighth(0x20000000000) == 0xaf35c2b31235d565
    ensures Eighth(0x40000000000) == 0x105fce50afc41a26 && Eighth(0x80000000000) == 0x812a87b1fb753e7c
    ensures Eighth(0x100000000000) == 0x770d0707b2bc40a && Eighth(0x200000000000) == 0xaa01a901dea971ea
    ensures Eighth(0x400000000000) == 0x48aaed309529386a && Eighth(0x800000000000) == 0x5364ebdfb1853a3b
  {
    hide Eighth, Mix;
    ByteImage5(0x1, 0x10000000000);
    ByteImage5(0x2, 0x20000000000);
    ByteImage5(0x4, 0x40000000000);
    ByteImage5(0x8, 0x80000000000);
    ByteImage5(0x10, 0x100000000000);
    ByteImage5(0x20, 0x200000000000);
    ByteImage5(0x40, 0x400000000000);
    ByteImage5(0x80, 0x800000000000);
    Picks(0x6b5d3aff13a77263, 0xaf35c2b31235d565, 0x105fce50afc41a26, 0x812a87b1fb753e7c, 0x770d0707b2bc40a,
        0xaa01a901dea971ea, 0x48aaed309529386a, 0x5364ebdfb1853a3b);
  }

  lemma Bits5()
    ensures Good(0x10000000000) && Good(0x20000000000) && Good(0x40000000000) && Good(0x80000000000)
    ensures Good(0x100000000000) && Good(0x200000000000) && Good(0x400000000000) && Good(0x800000000000)
  {
    hide Good, Eighth, Shift, Shifts;
    Moves5a();
    Moves5b();
    Images4();
    Images5();
    GoodBit(0x10000000000, 0x8000000000, 0x6b5d3aff13a77263, 0x148200d826a313ac);
    GoodBit(0x20000000000, 0x10000000000, 0xaf35c2b31235d565, 0x6b5d3aff13a77263);
    GoodBit(0x40000000000, 0x20000000000, 0x105fce50afc41a26, 0xaf35c2b31235d565);
    GoodBit(0x80000000000, 0x40000000000, 0x812a87b1fb753e7c, 0x105fce50afc41a26);
    GoodBit(0x100000000000, 0x80000000000, 0x770d0707b2bc40a, 0x812a87b1fb753e7c);
    GoodBit(0x200000000000, 0x100000000000, 0xaa01a901dea971ea, 0x770d0707b2bc40a);
    GoodBit(0x400000000000, 0x200000000000, 0x48aaed309529386a, 0xaa01a901dea971ea);
    GoodBit(0x800000000000, 0x400000000000, 0x5364ebdfb1853a3b, 0x48aaed309529386a);
  }

  lemma Moves6a()
    ensures Shift(0x1000000000000) == 0x800000000000 && Shifts(0xc19c54d747e9428c, 8) == 0x5364ebdfb1853a3b
    ensures Shift(0x2000000000000) == 0x1000000000000 && Shifts(0x27580609605de80f, 8) == 0xc19c54d747e9428c
    ensures Shift(0x4000000000000) == 0x2000000000000 && Shifts(0x6439da4dffc92f41, 8) == 0x27580609605de80f
    ensures Shift(0x8000000000000) == 0x4000000000000 && Shifts(0x7e76c2aa96b200b1, 8) == 0x6439da4dffc92f41
  {}

  lemma Moves6b()
    ensures Shift(0x10000000000000) == 0x8000000000000 && Shifts(0x36b7d1849e61b255, 8) == 0x7e76c2aa96b200b1
    ensures Shift(0x20000000000000) == 0x10000000000000 && Shifts(0xe2d24c6d56e066e, 8) == 0x36b7d1849e61b255
    ensures Shift(0x40000000000000) == 0x20000000000000 && Shifts(0xc3a0d04bad4ef287, 8) == 0xe2d24c6d56e066e
    ensures Shift(0x80000000000000) == 0x40000000000000 && Shifts(0xad93d23594c935a9, 8) == 0xc3a0d04bad4ef287
  {}

  lemma Images6()
    ensures Eighth(0x1000000000000) == 0xc19c54d747e9428c && Eighth(0x2000000000000) == 0x27580609605de80f
    ensures Eighth(0x4000000000000) == 0x6439da4dffc92f41 && Eighth(0x8000000000000) == 0x7e76c2aa96b200b1
    ensures Eighth(0x10000000000000) == 0x36b7d1849e61b255 && Eighth(0x20000000000000) == 0xe2d24c6d56e066e
    ensures Eighth(0x40000000000000) == 0xc3a0d04bad4ef287 && Eighth(0x80000000000000) == 0xad93d23594c935a9
  {
    hide Eighth, Mix;
    ByteImage6(0x1, 0x1000000000000);
    ByteImage6(0x2, 0x2000000000000);
    ByteImage6(0x4, 0x4000000000000);
    ByteImage6(0x8, 0x8000000000000);
    ByteImage6(0x10, 0x10000000000000);
    ByteImage6(0x20, 0x20000000000000);
    ByteImage6(0x40, 0x40000000000000);
    ByteImage6(0x80, 0x80000000000000);
    Picks(0xc19c54d747e9428c, 0x27580609605de80f, 0x6439da4dffc92f41, 0x7e76c2aa96b200b1, 0x36b7d1849e61b255,
        0xe2d24c6d56e066e, 0xc3a0d04bad4ef287, 0xad93d23594c935a9);
  }

  lemma Bits6()
    ensures Good(0x1000000000000) && Good(0x2000000000000) && Good(0x4000000000000) && Good(0x8000000000000)
    ensures Good(0x10000000000000) && Good(0x20000000000000) && Good(0x40000000000000) && Good(0x80000000000000)
  {
    hide Good, Eighth, Shift, Shifts;
    Moves6a();
    Moves6b();
    Images5();
    Images6();
    GoodBit(0x1000000000000, 0x800000000000, 0xc19c54d747e9428c, 0x5364ebdfb1853a3b);
    GoodBit(0x2000000000000, 0x1000000000000, 0x27580609605de80f, 0xc19c54d747e9428c);
    GoodBit(0x4000000000000, 0x2000000000000, 0x6439da4dffc92f41, 0x27580609605de80f);
    GoodBit(0x8000000000000, 0x4000000000000, 0x7e76c2aa96b200b1, 0x6439da4dffc92f41);
    GoodBit(0x10000000000000, 0x8000000000000, 0x36b7d1849e61b255, 0x7e76c2aa96b200b1);
    GoodBit(0x20000000000000, 0x10000000000000, 0xe2d24c6d56e066e, 0x36b7d1849e61b255);
    GoodBit(0x40000000000000, 0x20000000000000, 0xc3a0d04bad4ef287, 0xe2d24c6d56e066e);
    GoodBit(0x80000000000000, 0x40000000000000, 0xad93d23594c935a9, 0xc3a0d04bad4ef287);
  }

  lemma Moves7a()
    ensures Shift(0x100000000000000) == 0x80000000000000 && Shifts(0x80, 8) == 0xad93d23594c935a9
    ensures Shift(0x200000000000000) == 0x100000000000000 && Shifts(0x8000, 8) == 0x80
    ensures Shift(0x400000000000000) == 0x200000000000000 && Shifts(0x800000, 8) == 0x8000
    ensures Shift(0x800000000000000) == 0x400000000000000 && Shifts(0x80000000, 8) == 0x800000
  {}

  lemma Moves7b()
    ensures Shift(0x1000000000000000) == 0x800000000000000 && Shifts(0x8000000000, 8) == 0x80000000
    ensures Shift(0x2000000000000000) == 0x1000000000000000 && Shifts(0x800000000000, 8) == 0x8000000000
    ensures Shift(0x4000000000000000) == 0x2000000000000000 && Shifts(0x80000000000000, 8) == 0x800000000000
    ensures Shift(0x8000000000000000) == 0x4000000000000000 && Shifts(0x8000000000000000, 8) == 0x80000000000000
  {}

  lemma Images7()
    ensures Eighth(0x100000000000000) == 0x80 && Eighth(0x200000000000000) == 0x8000
    ensures Eighth(0x400000000000000) == 0x800000 && Eighth(0x800000000000000) == 0x80000000
    ensures Eighth(0x1000000000000000) == 0x8000000000 && Eighth(0x2000000000000000) == 0x800000000000
    ensures Eighth(0x4000000000000000) == 0x80000000000000 && Eighth(0x8000000000000000) == 0x8000000000000000
  {
    hide Eighth, Mix;
    ByteImage7(0x1, 0x100000000000000);
    ByteImage7(0x2, 0x200000000000000);
    ByteImage7(0x4, 0x400000000000000);
    ByteImage7(0x8, 0x800000000000000);
    ByteImage7(0x10, 0x1000000000000000);
    ByteImage7(0x20, 0x2000000000000000);
    ByteImage7(0x40, 0x4000000000000000);
    ByteImage7(0x80, 0x8000000000000000);
    Picks(0x80, 0x8000, 0x800000, 0x80000000, 0x8000000000, 0x800000000000, 0x80000000000000, 0x8000000000000000);
  }

  lemma Bits7()
    ensures Good(0x100000000000000) && Good(0x200000000000000) && Good(0x400000000000000) && Good(0x800000000000000)
    ensures Good(0x1000000000000000) && Good(0x2000000000000000) && Good(0x4000000000000000) && Good(0x8000000000000000)
  {
    hide Good, Eighth, Shift, Shifts;
    Moves7a();
    Moves7b();
    Images6();
    Images7();
    GoodBit(0x100000000000000, 0x80000000000000, 0x80, 0xad93d23594c935a9);
    GoodBit(0x200000000000000, 0x100000000000000, 0x8000, 0x80);
    GoodBit(0x400000000000000, 0x200000000000000, 0x800000, 0x8000);
    GoodBit(0x800000000000000, 0x400000000000000, 0x80000000, 0x800000);
    GoodBit(0x1000000000000000, 0x800000000000000, 0x8000000000, 0x80000000);
    GoodBit(0x2000000000000000, 0x1000000000000000, 0x800000000000, 0x8000000000);
    GoodBit(0x4000000000000000, 0x2000000000000000, 0x80000000000000, 0x800000000000);
    GoodBit(0x8000000000000000, 0x4000000000000000, 0x8000000000000000, 0x80000000000000);
  }

  lemma Byte0(a: bv64)
    ensures Mix(a, 0x1, 0x2, 0x4, 0x8, 0x10, 0x20, 0x40, 0x80) == a & 0xff
  {}

  lemma Byte1(a: bv64)
    ensures Mix(a >> 8, 0x100, 0x200, 0x400, 0x800, 0x1000, 0x2000, 0x4000, 0x8000) == a & 0xff00
  {}

  lemma Byte2(a: bv64)
    ensures Mix(a >> 16, 0x10000, 0x20000, 0x40000, 0x80000, 0x100000, 0x200000, 0x400000, 0x800000) == a & 0xff0000
  {}

  lemma Byte3(a: bv64)
    ensures Mix(a >> 24, 0x1000000, 0x2000000, 0x4000000, 0x8000000, 0x10000000, 0x20000000, 0x40000000, 0x80000000) ==
            a & 0xff000000
  {}

  lemma Byte4(a: bv64)
    ensures Mix(a >> 32, 0x100000000, 0x200000000, 0x400000000, 0x800000000, 0x1000000000, 0x2000000000, 0x4000000000,
            0x8000000000) == a & 0xff00000000
  {}

  lemma Byte5(a: bv64)
    ensures Mix(a >> 40, 0x10000000000, 0x20000000000, 0x40000000000, 0x80000000000, 0x100000000000, 0x200000000000,
            0x400000000000, 0x800000000000) == a & 0xff0000000000
  {}

  lemma Byte6(a: bv64)
    ensures Mix(a >> 48, 0x1000000000000, 0x2000000000000, 0x4000000000000, 0x8000000000000, 0x10000000000000,
            0x20000000000000, 0x40000000000000, 0x80000000000000) == a & 0xff000000000000
  {}

  lemma Byte7(a: bv64)
    ensures Mix(a >> 56, 0x100000000000000, 0x200000000000000, 0x400000000000000, 0x800000000000000, 0x1000000000000000,
            0x2000000000000000, 0x4000000000000000, 0x8000000000000000) == a & 0xff00000000000000
  {}

  /** A word is the sum of its bytes. */
  lemma BytesOf(a: bv64)
    ensures a == Sum(a & 0xff, a & 0xff00, a & 0xff0000, a & 0xff000000, a & 0xff00000000, a & 0xff0000000000,
            a & 0xff000000000000, a & 0xff00000000000000)
  {}

  lemma AllGood(a: bv64)
    ensures Good(a)
  {
    Bits0();
    Bits1();
    Bits2();
    Bits3();
    Bits4();
    Bits5();
    Bits6();
    Bits7();
    hide Good, Mix, Sum;
    Byte0(a);
    GoodMix(a, 0x1, 0x2, 0x4, 0x8, 0x10, 0x20, 0x40, 0x80);
    Byte1(a);
    GoodMix(a >> 8, 0x100, 0x200, 0x400, 0x800, 0x1000, 0x2000, 0x4000, 0x8000);
    Byte2(a);
    GoodMix(a >> 16, 0x10000, 0x20000, 0x40000, 0x80000, 0x100000, 0x200000, 0x400000, 0x800000);
    Byte3(a);
    GoodMix(a >> 24, 0x1000000, 0x2000000, 0x4000000, 0x8000000, 0x10000000, 0x20000000, 0x40000000, 0x80000000);
    Byte4(a);
    GoodMix(a >> 32, 0x100000000, 0x200000000, 0x400000000, 0x800000000, 0x1000000000, 0x2000000000, 0x4000000000, 0x8000000000);
    Byte5(a);
    GoodMix(a >> 40, 0x10000000000, 0x20000000000, 0x40000000000, 0x80000000000, 0x100000000000, 0x200000000000,
        0x400000000000, 0x800000000000);
    Byte6(a);
    GoodMix(a >> 48, 0x1000000000000, 0x2000000000000, 0x4000000000000, 0x8000000000000, 0x10000000000000, 0x20000000000000,
        0x40000000000000, 0x80000000000000);
    Byte7(a);
    GoodMix(a >> 56, 0x100000000000000, 0x200000000000000, 0x400000000000000, 0x800000000000000, 0x1000000000000000,
        0x2000000000000000, 0x4000000000000000, 0x8000000000000000);
    BytesOf(a);
    GoodSum(a & 0xff, a & 0xff00, a & 0xff0000, a & 0xff000000, a & 0xff00000000, a & 0xff0000000000, a & 0xff000000000000,
        a & 0xff00000000000000);
  }

  lemma {:induction false} ShiftsAdd(x: bv64, m: nat, n: nat)
    ensures Shifts(x, m + n) == Shifts(Shifts(x, m), n)
    decreases m
  {
    hide Shift;
    if m > 0 {
      ShiftsAdd(Shift(x), m - 1, n);
    }
  }

  lemma {:induction false} EighthShifts(a: bv64, n: nat)
    ensures Eighth(Shifts(a, n)) == Shifts(Eighth(a), 8 * n)
    decreases n
  {
    hide Shift, Eighth;
    if n > 0 {
      EighthShifts(Shift(a), n - 1);
      AllGood(a);
      ShiftsAdd(Eighth(a), 8, 8 * (n - 1));
    }
  }

  lemma EighthOne()
    ensures Eighth(ONE) == ONE
  {}

  /** From one power to the one with eight times the exponent, and on. */
  lemma Step(k: nat, a: bv64, b: bv64, d: nat, c: bv64)
    requires Is(k, a) && Eighth(a) == b && Shifts(b, d) == c
    ensures Is(8 * k + d, c)
  {
    hide Shifts, Eighth;
    EighthShifts(ONE, k);
    EighthOne();
    ShiftsAdd(ONE, 8 * k, d);
  }

  lemma Small()
    ensures Is(1, 0x4000000000000000)
    ensures Is(2, 0x2000000000000000)
    ensures Is(3, 0x1000000000000000)
    ensures Is(4, 0x800000000000000)
    ensures Is(5, 0x400000000000000)
    ensures Is(6, 0x200000000000000)
    ensures Is(7, 0x100000000000000)
  {
    FewMoves();
    hide Shift;
  }

  lemma FewMoves()
    ensures Shift(0x8000000000000000) == 0x4000000000000000 && Shift(0x4000000000000000) ==
            0x2000000000000000 && Shift(0x2000000000000000) == 0x1000000000000000 && Shift(0x1000000000000000) ==
            0x800000000000000
    ensures Shift(0x800000000000000) == 0x400000000000000 && Shift(0x400000000000000) ==
            0x200000000000000 && Shift(0x200000000000000) == 0x100000000000000
  {}

  // ---- The exponents that matter ----

  lemma Powers1() ensures Is(59, 0x10) { Small(); hide Is; Step(7, 0x100000000000000, 0x80, 3, 0x10); }
  lemma Powers2() ensures Is(479, 0xe728734ae511d418) { Powers1(); hide Is; Step(59, 0x10, 0xd7a024431d752e27, 7,
      0xe728734ae511d418); }
  lemma Powers3() ensures Is(3839, 0x9e839727e3045975) { Powers2(); hide Is; Step(479, 0xe728734ae511d418, 0x629391c1effc9151,
      7, 0x9e839727e3045975); }
  lemma Powers4() ensures Is(30716, 0x297006d23f51c168) { Powers3(); hide Is; Step(3839, 0x9e839727e3045975,
      0x214f25f5a638c026, 4, 0x297006d23f51c168); }
  lemma Powers5() ensures Is(245729, 0x9203164c508e9c3) { Powers4(); hide Is; Step(30716, 0x297006d23f51c168,
      0x124062c98a11d386, 1, 0x9203164c508e9c3); }
  lemma Powers6() ensures Is(1965839, 0x8b53ea4dc5ce2373) { Powers5(); hide Is; Step(245729, 0x9203164c508e9c3,
      0x5390078bc652c8c9, 7, 0x8b53ea4dc5ce2373); }
  lemma Powers7() ensures Is(15726719, 0xb50d41383f4c5f9e) { Powers6(); hide Is; Step(1965839, 0x8b53ea4dc5ce2373,
      0x1782d89d52d951e1, 7, 0xb50d41383f4c5f9e); }
  lemma Powers8() ensures Is(125813759, 0xfff56307d92418ef) { Powers7(); hide Is; Step(15726719, 0xb50d41383f4c5f9e,
      0xe1e35c9597ff1f86, 7, 0xfff56307d92418ef); }
  lemma Powers9() ensures Is(1006510079, 0x9ebe30179e4fc435) { Powers8(); hide Is; Step(125813759, 0xfff56307d92418ef,
      0x7c4009ff4a323151, 7, 0x9ebe30179e4fc435); }
  lemma Powers10() ensures Is(8052080639, 0x63d216c06837e062) { Powers9(); hide Is; Step(1006510079, 0x9ebe30179e4fc435,
      0x8a2619165a411984, 7, 0x63d216c06837e062); }
  lemma Powers11() ensures Is(64416645119, 0x53d1f33694a1b39c) { Powers10(); hide Is; Step(8052080639, 0x63d216c06837e062,
      0x3a425ef931b072c6, 7, 0x53d1f33694a1b39c); }
  lemma Powers12() ensures Is(515333160959, 0x46540afe6b49daa4) { Powers11(); hide Is; Step(64416645119, 0x53d1f33694a1b39c,
      0x218399df8917b45e, 7, 0x46540afe6b49daa4); }
  lemma Powers13() ensures Is(4122665287679, 0xd14f1944270800c1) { Powers12(); hide Is; Step(515333160959, 0x46540afe6b49daa4,
      0xb8eb730e4bf16b10, 7, 0xd14f1944270800c1); }
  lemma Powers14() ensures Is(32981322301436, 0xe26961cdc41c1cae) { Powers13(); hide Is; Step(4122665287679,
      0xd14f1944270800c1, 0xc8120a4282895667, 4, 0xe26961cdc41c1cae); }
  lemma Powers15() ensures Is(263850578411490, 0x5c52f42d3bc4174f) { Powers14(); hide Is; Step(32981322301436,
      0xe26961cdc41c1cae, 0x2a6c74dfc682366f, 2, 0x5c52f42d3bc4174f); }
  lemma Powers16() ensures Is(2110804627291920, 0x8e35db7555d0e501) { Powers15(); hide Is; Step(263850578411490,
      0x5c52f42d3bc4174f, 0x8e35db7555d0e501, 0, 0x8e35db7555d0e501); }
  lemma Powers17() ensures Is(16886437018335360, 0xd6baa1f5e64637d2) { Powers16(); hide Is; Step(2110804627291920,
      0x8e35db7555d0e501, 0xd6baa1f5e64637d2, 0, 0xd6baa1f5e64637d2); }
  lemma Powers18() ensures Is(135091496146682881, 0xc11d9e72cb3bdc42) { Powers17(); hide Is; Step(16886437018335360,
      0xd6baa1f5e64637d2, 0xd91c988ebfe5d3d7, 1, 0xc11d9e72cb3bdc42); }
  lemma Powers19() ensures Is(1080731969173463055, 0x6962514cf7e89a95) { Powers18(); hide Is; Step(135091496146682881,
      0xc11d9e72cb3bdc42, 0xbe9b4ef513b5cf48, 7, 0x6962514cf7e89a95); }

  /** The whole period: back at 1. */
  lemma Power()
    ensures Is(8645855753387704440, 0x8000000000000000)
  {
    Powers19();
    hide Is;
    Step(1080731969173463055, 0x6962514cf7e89a95, 0x8000000000000000, 0, 0x8000000000000000);
  }

  lemma Power3s1() ensures Is(19, 0x100000000000) { Small(); hide Is; Step(2, 0x2000000000000000, 0x800000000000, 3,
      0x100000000000); }
  lemma Power3s2() ensures Is(159, 0x5972ab08df7817ab) { Power3s1(); hide Is; Step(19, 0x100000000000, 0x770d0707b2bc40a, 7,
      0x5972ab08df7817ab); }
  lemma Power3s3() ensures Is(1279, 0xa952a52808a88622) { Power3s2(); hide Is; Step(159, 0x5972ab08df7817ab,
      0xd6f4c61863fd1366, 7, 0xa952a52808a88622); }
  lemma Power3s4() ensures Is(10238, 0xcf6b23bd110bd4e1) { Power3s3(); hide Is; Step(1279, 0xa952a52808a88622,
      0xfaadeb05060c662, 6, 0xcf6b23bd110bd4e1); }
  lemma Power3s5() ensures Is(81909, 0xb84898ee36d58079) { Power3s4(); hide Is; Step(10238, 0xcf6b23bd110bd4e1,
      0xd2613a210b26cb6, 5, 0xb84898ee36d58079); }
  lemma Power3s6() ensures Is(655279, 0x9c7b70135e17bc52) { Power3s5(); hide Is; Step(81909, 0xb84898ee36d58079,
      0x45c7aff44f9c6982, 7, 0x9c7b70135e17bc52); }
  lemma Power3s7() ensures Is(5242239, 0x293331947e38f173) { Power3s6(); hide Is; Step(655279, 0x9c7b70135e17bc52,
      0x70c528e6accc67e3, 7, 0x293331947e38f173); }
  lemma Power3s8() ensures Is(41937919, 0xcab15a76d1ab3ad) { Power3s7(); hide Is; Step(5242239, 0x293331947e38f173,
      0xd47caea751a6c639, 7, 0xcab15a76d1ab3ad); }
  lemma Power3s9() ensures Is(335503359, 0xba7c2f1c3a265430) { Power3s8(); hide Is; Step(41937919, 0xcab15a76d1ab3ad,
      0x75e413e512b1fd0b, 7, 0xba7c2f1c3a265430); }
  lemma Power3s10() ensures Is(2684026879, 0xea3e8d689f292dc6) { Power3s9(); hide Is; Step(335503359, 0xba7c2f1c3a265430,
      0xdd29486fddf6d19e, 7, 0xea3e8d689f292dc6); }
  lemma Power3s11() ensures Is(21472215039, 0xdc8cc026b9471b25) { Power3s10(); hide Is; Step(2684026879, 0xea3e8d689f292dc6,
      0xd8f1bf50b08389a9, 7, 0xdc8cc026b9471b25); }
  lemma Power3s12() ensures Is(171777720319, 0x89cdbdbe7879297f) { Power3s11(); hide Is; Step(21472215039, 0xdc8cc026b9471b25,
      0x479c5a3e3445a59a, 7, 0x89cdbdbe7879297f); }
  lemma Power3s13() ensures Is(1374221762559, 0x8b699ae7248e6a57) { Power3s12(); hide Is; Step(171777720319,
      0x89cdbdbe7879297f, 0x4ea852fb66765ac9, 7, 0x8b699ae7248e6a57); }
  lemma Power3s14() ensures Is(10993774100478, 0xa7c031e9d221a05b) { Power3s13(); hide Is; Step(1374221762559,
      0x8b699ae7248e6a57, 0x22b7bfc7e901aa06, 6, 0xa7c031e9d221a05b); }
  lemma Power3s15() ensures Is(87950192803830, 0x11140ff20e8922f9) { Power3s14(); hide Is; Step(10993774100478,
      0xa7c031e9d221a05b, 0x72bac9442d93785f, 6, 0x11140ff20e8922f9); }
  lemma Power3s16() ensures Is(703601542430640, 0x22806fa8302f1faa) { Power3s15(); hide Is; Step(87950192803830,
      0x11140ff20e8922f9, 0x22806fa8302f1faa, 0, 0x22806fa8302f1faa); }
  lemma Power3s17() ensures Is(5628812339445120, 0xee8afdb2d534eb0e) { Power3s16(); hide Is; Step(703601542430640,
      0x22806fa8302f1faa, 0xee8afdb2d534eb0e, 0, 0xee8afdb2d534eb0e); }
  lemma Power3s18() ensures Is(45030498715560960, 0xd5a529d032905661) { Power3s17(); hide Is; Step(5628812339445120,
      0xee8afdb2d534eb0e, 0xd5a529d032905661, 0, 0xd5a529d032905661); }
  lemma Power3s19() ensures Is(360243989724487685, 0xb60fe6305c41291c) { Power3s18(); hide Is; Step(45030498715560960,
      0xd5a529d032905661, 0x9eee6c046bb52b45, 5, 0xb60fe6305c41291c); }

  /** The period divided by 3: not back. */
  lemma Power3()
    ensures Is(2881951917795901480, 0x3148bfb92f585897)
  {
    Power3s19();
    hide Is;
    Step(360243989724487685, 0xb60fe6305c41291c, 0x3148bfb92f585897, 0, 0x3148bfb92f585897);
  }

  lemma Power5s1() ensures Is(11, 0x10000000000000) { Small(); hide Is; Step(1, 0x4000000000000000, 0x80000000000000, 3,
      0x10000000000000); }
  lemma Power5s2() ensures Is(95, 0xfced85552d640162) { Power5s1(); hide Is; Step(11, 0x10000000000000, 0x36b7d1849e61b255, 7,
      0xfced85552d640162); }
  lemma Power5s3() ensures Is(767, 0xc181b4e884aa59cb) { Power5s2(); hide Is; Step(95, 0xfced85552d640162, 0xb0cfced0856a622e,
      7, 0xc181b4e884aa59cb); }
  lemma Power5s4() ensures Is(6143, 0x15fe91923a7109a) { Power5s3(); hide Is; Step(767, 0xc181b4e884aa59cb, 0xaff48c91d3884d00,
      7, 0x15fe91923a7109a); }
  lemma Power5s5() ensures Is(49145, 0xf2129873318b0e5a) { Power5s4(); hide Is; Step(6143, 0x15fe91923a7109a,
      0xbf02948d4a8477e7, 1, 0xf2129873318b0e5a); }
  lemma Power5s6() ensures Is(393167, 0x602a72a8dafbac46) { Power5s5(); hide Is; Step(49145, 0xf2129873318b0e5a,
      0x2d33892415f560d7, 7, 0x602a72a8dafbac46); }
  lemma Power5s7() ensures Is(3145343, 0x79013a17997710fe) { Power5s6(); hide Is; Step(393167, 0x602a72a8dafbac46,
      0xe05c88cd43c776f6, 7, 0x79013a17997710fe); }
  lemma Power5s8() ensures Is(25162751, 0x33bcac12938f86b3) { Power5s7(); hide Is; Step(3145343, 0x79013a17997710fe,
      0x34e711b3ce89a691, 7, 0x33bcac12938f86b3); }
  lemma Power5s9() ensures Is(201302015, 0xe6a543d2ea36bae2) { Power5s8(); hide Is; Step(25162751, 0x33bcac12938f86b3,
      0x113868448ec25327, 7, 0xe6a543d2ea36bae2); }
  lemma Power5s10() ensures Is(1610416127, 0x8b780b3097d54376) { Power5s9(); hide Is; Step(201302015, 0xe6a543d2ea36bae2,
      0x4660b922cbe2ca49, 7, 0x8b780b3097d54376); }
  lemma Power5s11() ensures Is(12883329023, 0x661d7cf834207f8a) { Power5s10(); hide Is; Step(1610416127, 0x8b780b3097d54376,
      0xdbdc4dee02aa3b22, 7, 0x661d7cf834207f8a); }
  lemma Power5s12() ensures Is(103066632191, 0xef9387955688f6d7) { Power5s11(); hide Is; Step(12883329023, 0x661d7cf834207f8a,
      0xbde37e5d5e3f8fb8, 7, 0xef9387955688f6d7); }
  lemma Power5s13() ensures Is(824533057535, 0xac625796367c6494) { Power5s12(); hide Is; Step(103066632191, 0xef9387955688f6d7,
      0xf8c2d1d15aa89ec0, 7, 0xac625796367c6494); }
  lemma Power5s14() ensures Is(6596264460287, 0xf7200c9eb1fa6f61) { Power5s13(); hide Is; Step(824533057535,
      0xac625796367c6494, 0xbceda5e6771f1e99, 7, 0xf7200c9eb1fa6f61); }
  lemma Power5s15() ensures Is(52770115682298, 0xdbbde484d2f37d70) { Power5s14(); hide Is; Step(6596264460287,
      0xf7200c9eb1fa6f61, 0x839f7eae317b4835, 2, 0xdbbde484d2f37d70); }
  lemma Power5s16() ensures Is(422160925458384, 0x27b4477a5d11dceb) { Power5s15(); hide Is; Step(52770115682298,
      0xdbbde484d2f37d70, 0x27b4477a5d11dceb, 0, 0x27b4477a5d11dceb); }
  lemma Power5s17() ensures Is(3377287403667072, 0x5d988a0f6954e291) { Power5s16(); hide Is; Step(422160925458384,
      0x27b4477a5d11dceb, 0x5d988a0f6954e291, 0, 0x5d988a0f6954e291); }
  lemma Power5s18() ensures Is(27018299229336576, 0x71a8a432a48065ab) { Power5s17(); hide Is; Step(3377287403667072,
      0x5d988a0f6954e291, 0x71a8a432a48065ab, 0, 0x71a8a432a48065ab); }
  lemma Power5s19() ensures Is(216146393834692611, 0xea50818ffc169952) { Power5s18(); hide Is; Step(27018299229336576,
      0x71a8a432a48065ab, 0x8855d50515d9b17a, 3, 0xea50818ffc169952); }

  /** The period divided by 5: not back. */
  lemma Power5()
    ensures Is(1729171150677540888, 0x6c0aba541136344a)
  {
    Power5s19();
    hide Is;
    Step(216146393834692611, 0xea50818ffc169952, 0x6c0aba541136344a, 0, 0x6c0aba541136344a);
  }

  lemma Power8191s1() ensures Is(29, 0x400000000) { Small(); hide Is; Step(3, 0x1000000000000000, 0x8000000000, 5, 0x400000000); }
  lemma Power8191s2() ensures Is(239, 0x44509a28e38cbd4b) { Power8191s1(); hide Is; Step(29, 0x400000000, 0x78ec56f0c236288d,
      7, 0x44509a28e38cbd4b); }
  lemma Power8191s3() ensures Is(1919, 0xa78846e766cd3772) { Power8191s2(); hide Is; Step(239, 0x44509a28e38cbd4b,
      0x6154f8d5a448c08c, 7, 0xa78846e766cd3772); }
  lemma Power8191s4() ensures Is(15359, 0xa85f25ff20ec3ccc) { Power8191s3(); hide Is; Step(1919, 0xa78846e766cd3772,
      0x5034ad8c41a06466, 7, 0xa85f25ff20ec3ccc); }
  lemma Power8191s5() ensures Is(122879, 0x1d00dc5b6528490a) { Power8191s4(); hide Is; Step(15359, 0xa85f25ff20ec3ccc,
      0x6eea3b2c576c1987, 7, 0x1d00dc5b6528490a); }
  lemma Power8191s6() ensures Is(983039, 0x24769c68c1668db3) { Power8191s5(); hide Is; Step(122879, 0x1d00dc5b6528490a,
      0x53e5aba8df0d175a, 7, 0x24769c68c1668db3); }
  lemma Power8191s7() ensures Is(7864319, 0x373ebc10c992d8ca) { Power8191s6(); hide Is; Step(983039, 0x24769c68c1668db3,
      0xc3a0584893024cb7, 7, 0x373ebc10c992d8ca); }
  lemma Power8191s8() ensures Is(62914559, 0xd8bb5a5717e87e36) { Power8191s7(); hide Is; Step(7864319, 0x373ebc10c992d8ca,
      0x7573cf51b415d68f, 7, 0xd8bb5a5717e87e36); }
  lemma Power8191s9() ensures Is(503316479, 0x9f4bafa79ad1188b) { Power8191s8(); hide Is; Step(62914559, 0xd8bb5a5717e87e36,
      0x868fd1fd055c6e51, 7, 0x9f4bafa79ad1188b); }
  lemma Power8191s10() ensures Is(4026531839, 0x23426c859b918775) { Power8191s9(); hide Is; Step(503316479, 0x9f4bafa79ad1188b,
      0x24f531b8de3ec9af, 7, 0x23426c859b918775); }
  lemma Power8191s11() ensures Is(32212254719, 0x21bdd84ccaebd0fe) { Power8191s10(); hide Is; Step(4026531839,
      0x23426c859b918775, 0x8f17b4a87677c, 7, 0x21bdd84ccaebd0fe); }
  lemma Power8191s12() ensures Is(257698037759, 0x829894e5b2f2d41c) { Power8191s11(); hide Is; Step(32212254719,
      0x21bdd84ccaebd0fe, 0x81966677d7f2b956, 7, 0x829894e5b2f2d41c); }
  lemma Power8191s13() ensures Is(2061584302079, 0x8e1bec281662923) { Power8191s12(); hide Is; Step(257698037759,
      0x829894e5b2f2d41c, 0x476654873ccf579f, 7, 0x8e1bec281662923); }
  lemma Power8191s14() ensures Is(16492674416638, 0xeba18e2e5d6aa91e) { Power8191s13(); hide Is; Step(2061584302079,
      0x8e1bec281662923, 0x95475877e1a5ecf, 6, 0xeba18e2e5d6aa91e); }
  lemma Power8191s15() ensures Is(131941395333105, 0x22c270dbc8112988) { Power8191s14(); hide Is; Step(16492674416638,
      0xeba18e2e5d6aa91e, 0x4584e1b790225310, 1, 0x22c270dbc8112988); }

  /** The period divided by 8191: not back. */
  lemma Power8191()
    ensures Is(1055531162664840, 0x5fa8ecf328117376)
  {
    Power8191s15();
    hide Is;
    Step(131941395333105, 0x22c270dbc8112988, 0x5fa8ecf328117376, 0, 0x5fa8ecf328117376);
  }

  lemma Power431s1() ensures Is(8, 0x80000000000000) { Small(); hide Is; Step(1, 0x4000000000000000, 0x80000000000000, 0,
      0x80000000000000); }
  lemma Power431s2() ensures Is(71, 0xdc6604fc730f8e5d) { Power431s1(); hide Is; Step(8, 0x80000000000000, 0xad93d23594c935a9,
      7, 0xdc6604fc730f8e5d); }
  lemma Power431s3() ensures Is(570, 0x4a3866e8445d440a) { Power431s2(); hide Is; Step(71, 0xdc6604fc730f8e5d,
      0x73c63fca38e77b7b, 2, 0x4a3866e8445d440a); }
  lemma Power431s4() ensures Is(4561, 0x6f1b7194f8ae9906) { Power431s3(); hide Is; Step(570, 0x4a3866e8445d440a,
      0xde36e329f15d320c, 1, 0x6f1b7194f8ae9906); }
  lemma Power431s5() ensures Is(36488, 0x33cf7a3e0c6e87a4) { Power431s4(); hide Is; Step(4561, 0x6f1b7194f8ae9906,
      0x33cf7a3e0c6e87a4, 0, 0x33cf7a3e0c6e87a4); }
  lemma Power431s6() ensures Is(291911, 0xf00bf71b35d98b93) { Power431s5(); hide Is; Step(36488, 0x33cf7a3e0c6e87a4,
      0xc4788b991c5bda6c, 7, 0xf00bf71b35d98b93); }
  lemma Power431s7() ensures Is(2335290, 0x8adb8fb6bd749354) { Power431s6(); hide Is; Step(291911, 0xf00bf71b35d98b93,
      0x9d21760ca6f69bf6, 2, 0x8adb8fb6bd749354); }
  lemma Power431s8() ensures Is(18682321, 0x2c0d078f469a82d4) { Power431s7(); hide Is; Step(2335290, 0x8adb8fb6bd749354,
      0x581a0f1e8d3505a8, 1, 0x2c0d078f469a82d4); }
  lemma Power431s9() ensures Is(149458573, 0xc947cabd20167d1d) { Power431s8(); hide Is; Step(18682321, 0x2c0d078f469a82d4,
      0xc2484f5e0b855cb1, 5, 0xc947cabd20167d1d); }
  lemma Power431s10() ensures Is(1195668586, 0x2de6b01f2e27ed86) { Power431s9(); hide Is; Step(149458573, 0xc947cabd20167d1d,
      0xb79ac07cb89fb618, 2, 0x2de6b01f2e27ed86); }
  lemma Power431s11() ensures Is(9565348695, 0xaea689dc98a866f3) { Power431s10(); hide Is; Step(1195668586, 0x2de6b01f2e27ed86,
      0xc18a50ed193bc613, 7, 0xaea689dc98a866f3); }
  lemma Power431s12() ensures Is(76522789562, 0xb44e3392862fc5e8) { Power431s11(); hide Is; Step(9565348695,
      0xaea689dc98a866f3, 0x6777869c4b9bc106, 2, 0xb44e3392862fc5e8); }
  lemma Power431s13() ensures Is(612182316499, 0x9860fe29d0b9fd0c) { Power431s12(); hide Is; Step(76522789562,
      0xb44e3392862fc5e8, 0xf4bec4890a142e7f, 3, 0x9860fe29d0b9fd0c); }
  lemma Power431s14() ensures Is(4897458531999, 0x3a95ad0e3bd84fdb) { Power431s13(); hide Is; Step(612182316499,
      0x9860fe29d0b9fd0c, 0x97deaa206ab6d48e, 7, 0x3a95ad0e3bd84fdb); }
  lemma Power431s15() ensures Is(39179668255998, 0x4952f8de22f5a12f) { Power431s14(); hide Is; Step(4897458531999,
      0x3a95ad0e3bd84fdb, 0x3c15a840d123851a, 6, 0x4952f8de22f5a12f); }
  lemma Power431s16() ensures Is(313437346047988, 0xb4e9bb313c7fa8ed) { Power431s15(); hide Is; Step(39179668255998,
      0x4952f8de22f5a12f, 0xcc813421a2fbbf1b, 4, 0xb4e9bb313c7fa8ed); }
  lemma Power431s17() ensures Is(2507498768383905, 0xb0b1c42b623bc071) { Power431s16(); hide Is; Step(313437346047988,
      0xb4e9bb313c7fa8ed, 0x3a442c3dede5ebb1, 1, 0xb0b1c42b623bc071); }

  /** The period divided by 431: not back. */
  lemma Power431()
    ensures Is(20059990147071240, 0xc3aec474d9a424ec)
  {
    Power431s17();
    hide Is;
    Step(2507498768383905, 0xb0b1c42b623bc071, 0xc3aec474d9a424ec, 0, 0xc3aec474d9a424ec);
  }

  lemma Power9719s1() ensures Is(25, 0x4000000000) { Small(); hide Is; Step(3, 0x1000000000000000, 0x8000000000, 1,
      0x4000000000); }
  lemma Power9719s2() ensures Is(202, 0xdbb9f5a53ff34be2) { Power9719s1(); hide Is; Step(25, 0x4000000000, 0x838f3a29857b927d,
      2, 0xdbb9f5a53ff34be2); }
  lemma Power9719s3() ensures Is(1618, 0x90fb7088a2e9e47) { Power9719s2(); hide Is; Step(202, 0xdbb9f5a53ff34be2,
      0x243edc2228ba791c, 2, 0x90fb7088a2e9e47); }
  lemma Power9719s4() ensures Is(12945, 0x8d111523735473e7) { Power9719s3(); hide Is; Step(1618, 0x90fb7088a2e9e47,
      0x41058e2dcf3a8c9d, 1, 0x8d111523735473e7); }
  lemma Power9719s5() ensures Is(103561, 0xd320816885c1aaa7) { Power9719s4(); hide Is; Step(12945, 0x8d111523735473e7,
      0xfd66a6ba22113e1d, 1, 0xd320816885c1aaa7); }
  lemma Power9719s6() ensures Is(828488, 0x248ce16c410634fb) { Power9719s5(); hide Is; Step(103561, 0xd320816885c1aaa7,
      0x248ce16c410634fb, 0, 0x248ce16c410634fb); }
  lemma Power9719s7() ensures Is(6627908, 0xba1d5c11a2a5eaa5) { Power9719s6(); hide Is; Step(828488, 0x248ce16c410634fb,
      0x23cf46284f5f9b9b, 4, 0xba1d5c11a2a5eaa5); }
  lemma Power9719s8() ensures Is(53023269, 0x4c622f9f3e597759) { Power9719s7(); hide Is; Step(6627908, 0xba1d5c11a2a5eaa5,
      0xb8103c03fd0b0c4d, 5, 0x4c622f9f3e597759); }
  lemma Power9719s9() ensures Is(424186159, 0x344d5e66a0ed9838) { Power9719s8(); hide Is; Step(53023269, 0x4c622f9f3e597759,
      0x2176c71705305ee4, 7, 0x344d5e66a0ed9838); }
  lemma Power9719s10() ensures Is(3393489278, 0x7862e4696336a015) { Power9719s9(); hide Is; Step(424186159, 0x344d5e66a0ed9838,
      0x28d9dbd8318f81bb, 6, 0x7862e4696336a015); }
  lemma Power9719s11() ensures Is(27147914231, 0x8d43f4d8c101ab25) { Power9719s10(); hide Is; Step(3393489278,
      0x7862e4696336a015, 0xb6f7a1b4db205e3c, 7, 0x8d43f4d8c101ab25); }
  lemma Power9719s12() ensures Is(217183313848, 0x3ae5968fca123c72) { Power9719s11(); hide Is; Step(27147914231,
      0x8d43f4d8c101ab25, 0x3ae5968fca123c72, 0, 0x3ae5968fca123c72); }
  lemma Power9719s13() ensures Is(1737466510786, 0x5c22d5c02b027163) { Power9719s12(); hide Is; Step(217183313848,
      0x3ae5968fca123c72, 0x2bacf36b859baedf, 2, 0x5c22d5c02b027163); }
  lemma Power9719s14() ensures Is(13899732086293, 0xa60860896c28b94f) { Power9719s13(); hide Is; Step(1737466510786,
      0x5c22d5c02b027163, 0x2851f3f435a3f783, 5, 0xa60860896c28b94f); }
  lemma Power9719s15() ensures Is(111197856690345, 0xf1593c3f7b40a33f) { Power9719s14(); hide Is; Step(13899732086293,
      0xa60860896c28b94f, 0xb995dc15df132d2d, 1, 0xf1593c3f7b40a33f); }

  /** The period divided by 9719: not back. */
  lemma Power9719()
    ensures Is(889582853522760, 0x2108395766de8625)
  {
    Power9719s15();
    hide Is;
    Step(111197856690345, 0xf1593c3f7b40a33f, 0x2108395766de8625, 0, 0x2108395766de8625);
  }

  lemma Power2099863s1() ensures Is(59, 0x10) { Small(); hide Is; Step(7, 0x100000000000000, 0x80, 3, 0x10); }
  lemma Power2099863s2() ensures Is(479, 0xe728734ae511d418) { Power2099863s1(); hide Is; Step(59, 0x10, 0xd7a024431d752e27, 7,
      0xe728734ae511d418); }
  lemma Power2099863s3() ensures Is(3834, 0xe3fedf5f25528b29) { Power2099863s2(); hide Is; Step(479, 0xe728734ae511d418,
      0x629391c1effc9151, 2, 0xe3fedf5f25528b29); }
  lemma Power2099863s4() ensures Is(30676, 0x707633265ab8413c) { Power2099863s3(); hide Is; Step(3834, 0xe3fedf5f25528b29,
      0xddb2eb1f5ee9682a, 4, 0x707633265ab8413c); }
  lemma Power2099863s5() ensures Is(245412, 0x5c31844a659b1315) { Power2099863s4(); hide Is; Step(30676, 0x707633265ab8413c,
      0xaf86d50afff89c1c, 4, 0x5c31844a659b1315); }
  lemma Power2099863s6() ensures Is(1963302, 0x82ab5db245125d38) { Power2099863s5(); hide Is; Step(245412, 0x5c31844a659b1315,
      0x4c3966c613db15ab, 6, 0x82ab5db245125d38); }
  lemma Power2099863s7() ensures Is(15706416, 0x9201bc3f5fa9af3e) { Power2099863s6(); hide Is; Step(1963302,
      0x82ab5db245125d38, 0x9201bc3f5fa9af3e, 0, 0x9201bc3f5fa9af3e); }
  lemma Power2099863s8() ensures Is(125651329, 0x3e8aad2ec4daf6c3) { Power2099863s7(); hide Is; Step(15706416,
      0x9201bc3f5fa9af3e, 0x7d155a5d89b5ed86, 1, 0x3e8aad2ec4daf6c3); }
  lemma Power2099863s9() ensures Is(1005210638, 0x13b743e63240f794) { Power2099863s8(); hide Is; Step(125651329,
      0x3e8aad2ec4daf6c3, 0xda69cc4b1fe6231f, 6, 0x13b743e63240f794); }
  lemma Power2099863s10() ensures Is(8041685109, 0x6b3439da216ad81) { Power2099863s9(); hide Is; Step(1005210638,
      0x13b743e63240f794, 0xd66873b442d5b020, 5, 0x6b3439da216ad81); }
  lemma Power2099863s11() ensures Is(64333480873, 0x913a5266934c1df6) { Power2099863s10(); hide Is; Step(8041685109,
      0x6b3439da216ad81, 0x795300a60f0a50bf, 1, 0x913a5266934c1df6); }
  lemma Power2099863s12() ensures Is(514667846985, 0xfb597d00fd84204d) { Power2099863s11(); hide Is; Step(64333480873,
      0x913a5266934c1df6, 0xad955e6ad29a2bc9, 1, 0xfb597d00fd84204d); }

  /** The period divided by 2099863: not back. */
  lemma Power2099863()
    ensures Is(4117342775880, 0x89d713f81205285b)
  {
    Power2099863s12();
    hide Is;
    Step(514667846985, 0xfb597d00fd84204d, 0x89d713f81205285b, 0, 0x89d713f81205285b);
  }

}
