/** Which shard a key belongs to: the checksum of its hash tag, modulo the number of shards. */
module Routing {
  import opened Common
  import opened Numbers

  const OPEN_BRACE: byte := 123
  const CLOSE_BRACE: byte := 125

  function HashTag(key: bytes): bytes {
    var start := IndexOf(key, OPEN_BRACE);
    if start == |key| then key
    else
      var rest := key[start + 1..];
      var end := IndexOf(rest, CLOSE_BRACE);
      if end < |rest| && end > 0 then rest[..end] else key
  }

  /** CRC-32 is a parameter: only that it is a function matters here. */
  function Shard(crc: bytes -> nat, key: bytes, n: nat): (s: nat)
    requires n > 0
    ensures s < n
  {
    Rest(crc(HashTag(key)), n)
  }

  /**
   A tag whose checksum is below the number of shards lands on the shard of that number, and two keys share
   a shard exactly if the checksums of their tags differ by a multiple of that number.
   */
  lemma ShardsByChecksum(crc: bytes -> nat, key: bytes, key': bytes, n: nat)
    requires n > 0
    ensures crc(HashTag(key)) < n ==> Shard(crc, key, n) == crc(HashTag(key))
    ensures Shard(crc, key, n) == Shard(crc, key', n) <==> Rest(crc(HashTag(key)) - crc(HashTag(key')), n) == 0
  {
    hide HashTag, Rest;
    if crc(HashTag(key)) < n {
      DividedOnce(crc(HashTag(key)), n, 0, crc(HashTag(key)));
    }
    SameRest(crc(HashTag(key)), crc(HashTag(key')), n);
  }

  /** The first position is the only one with nothing equal before it. */
  lemma PositionOf(s: bytes, b: byte, i: nat)
    requires i < |s| && s[i] == b && forall j :: 0 <= j < i ==> s[j] != b
    ensures IndexOf(s, b) == i
  {}

  /** A tag counts only between the first opening brace and the next closing one, and only if not empty. */
  ghost predicate Braced(key: bytes, a: nat, b: nat) {
    && a + 1 < b < |key| && key[a] == OPEN_BRACE && key[b] == CLOSE_BRACE
    && OPEN_BRACE !in key[..a] && CLOSE_BRACE !in key[a + 1..b]
  }

  /** The tag is what stands in the braces exactly if there are such braces, and the whole key otherwise. */
  lemma HashTagMeaning(key: bytes)
    ensures forall a: nat, b: nat :: Braced(key, a, b) ==> HashTag(key) == key[a + 1..b]
    ensures (forall a: nat, b: nat :: !Braced(key, a, b)) ==> HashTag(key) == key
  {
    forall a: nat, b: nat | Braced(key, a, b)
      ensures HashTag(key) == key[a + 1..b]
    {
      TagOf(key, a, b);
    }
    var start := IndexOf(key, OPEN_BRACE);
    if start < |key| {
      var rest := key[start + 1..];
      var end := IndexOf(rest, CLOSE_BRACE);
      if 0 < end < |rest| {
        assert key[start + 1..start + 1 + end] == rest[..end];
        assert Braced(key, start, start + 1 + end);
      }
    }
  }

  lemma TagOf(key: bytes, a: nat, b: nat)
    requires Braced(key, a, b)
    ensures HashTag(key) == key[a + 1..b]
  {
    assert forall j :: 0 <= j < a ==> key[j] == key[..a][j];
    PositionOf(key, OPEN_BRACE, a);
    var rest := key[a + 1..];
    assert forall j :: 0 <= j < b - a - 1 ==> rest[j] == key[a + 1..b][j];
    PositionOf(rest, CLOSE_BRACE, b - a - 1);
    assert rest[..b - a - 1] == key[a + 1..b];
  }

  /** Keys with the same tag in braces land on the same shard, for every number of shards and checksum. */
  lemma TagGroups(crc: bytes -> nat, n: nat, tag: bytes, pre: bytes, post: bytes, pre': bytes, post': bytes)
    requires n > 0 && tag != [] && CLOSE_BRACE !in tag && OPEN_BRACE !in pre && OPEN_BRACE !in pre'
    ensures var key, key' := pre + [OPEN_BRACE] + tag + [CLOSE_BRACE] + post, pre' + [OPEN_BRACE] + tag + [CLOSE_BRACE] + post';
            HashTag(key) == tag && Shard(crc, key, n) == Shard(crc, key', n)
  {
    InBraces(tag, pre, post);
    InBraces(tag, pre', post');
  }

  lemma InBraces(tag: bytes, pre: bytes, post: bytes)
    requires tag != [] && CLOSE_BRACE !in tag && OPEN_BRACE !in pre
    ensures HashTag(pre + [OPEN_BRACE] + tag + [CLOSE_BRACE] + post) == tag
  {
    var key := pre + [OPEN_BRACE] + tag + [CLOSE_BRACE] + post;
    var a, b := |pre|, |pre| + 1 + |tag|;
    assert key[..a] == pre && key[a + 1..b] == tag;
    TagOf(key, a, b);
  }
}
