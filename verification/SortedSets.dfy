/** Sorted sets: a map from members to scores beside an index ordered by score and member. */
module SortedSets {
  import opened Common
  import opened Collect

  // ---- The order ----

  /** Byte strings in dictionary order. */
  predicate Before(a: bytes, b: bytes) {
    b != [] && (a == [] || a[0] < b[0] || (a[0] == b[0] && Before(a[1..], b[1..])))
  }

  datatype Entry = Entry(score: real, member: bytes)

  predicate Less(e: Entry, f: Entry) { e.score < f.score || (e.score == f.score && Before(e.member, f.member)) }

  lemma {:induction false} BeforeNot(a: bytes, b: bytes)
    requires Before(a, b)
    ensures !Before(b, a) && a != b
    decreases |a|
  {
    if a != [] && a[0] == b[0] {
      BeforeNot(a[1..], b[1..]);
    }
  }

  lemma {:induction false} BeforeTrans(a: bytes, b: bytes, c: bytes)
    requires Before(a, b) && Before(b, c)
    ensures Before(a, c)
    decreases |a|
  {
    if a != [] && a[0] == b[0] == c[0] {
      BeforeTrans(a[1..], b[1..], c[1..]);
    }
  }

  lemma {:induction false} BeforeTotal(a: bytes, b: bytes)
    ensures a == b || Before(a, b) || Before(b, a)
    decreases |a|
  {
    if a != [] && b != [] && a[0] == b[0] {
      BeforeTotal(a[1..], b[1..]);
      assert a == [a[0]] + a[1..] && b == [b[0]] + b[1..];
    }
  }

  /** A proper prefix, or the smaller byte at the first difference. */
  ghost predicate ComesFirst(a: bytes, b: bytes) { exists i: nat :: Differ(a, b, i) }

  predicate Differ(a: bytes, b: bytes, i: nat) {
    i <= |a| && i < |b| && a[..i] == b[..i] && (i == |a| || a[i] < b[i])
  }

  /** The recursive comparison decides by the first difference. */
  lemma {:induction false} BeforeMeaning(a: bytes, b: bytes)
    ensures Before(a, b) <==> ComesFirst(a, b)
    decreases |a|
  {
    if b != [] && (a == [] || a[0] != b[0]) {
      if Before(a, b) {
        assert Differ(a, b, 0);
      }
    } else if b != [] {
      BeforeMeaning(a[1..], b[1..]);
      forall i: nat | Differ(a, b, i)
        ensures ComesFirst(a[1..], b[1..])
      {
        assert a[1..][..i - 1] == a[..i][1..] && b[1..][..i - 1] == b[..i][1..];
        assert Differ(a[1..], b[1..], i - 1);
      }
      forall i: nat | Differ(a[1..], b[1..], i)
        ensures ComesFirst(a, b)
      {
        assert a[..i + 1] == [a[0]] + a[1..][..i] && b[..i + 1] == [b[0]] + b[1..][..i];
        assert Differ(a, b, i + 1);
      }
    }
  }

  /** Entries are totally ordered, upwards by score and then by member. */
  lemma LessTotal(e: Entry, f: Entry)
    ensures e == f || Less(e, f) || Less(f, e)
    ensures Less(e, f) <==> e.score < f.score || (e.score == f.score && ComesFirst(e.member, f.member))
    ensures Less(e, f) ==> !Less(f, e) && e != f
  {
    hide ComesFirst;
    BeforeTotal(e.member, f.member);
    BeforeMeaning(e.member, f.member);
    if Less(e, f) && e.score == f.score {
      BeforeNot(e.member, f.member);
    }
  }

  lemma LessTrans(e: Entry, f: Entry, g: Entry)
    requires Less(e, f) && Less(f, g)
    ensures Less(e, g)
  {
    if e.score == f.score == g.score {
      BeforeTrans(e.member, f.member, g.member);
    }
  }

  // ---- The index ----

  ghost predicate Sorted(s: seq<Entry>) { forall i, j :: 0 <= i < j < |s| ==> Less(s[i], s[j]) }

  /** How many entries come before `e`: where it is, or where it would go. */
  function Rank(s: seq<Entry>, e: Entry): (n: nat)
    ensures n <= |s|
  {
    if s == [] then 0 else (if Less(s[0], e) then 1 else 0) + Rank(s[1..], e)
  }

  lemma SortedRest(s: seq<Entry>)
    requires Sorted(s) && s != []
    ensures Sorted(s[1..]) && forall j :: 0 <= j < |s| - 1 ==> Less(s[0], s[1..][j])
  {
    hide Less;
    assert forall j :: 0 <= j < |s| - 1 ==> s[1..][j] == s[j + 1];
  }

  /** In a sorted index the entries before `e` come first. */
  lemma {:induction false} RankSplits(s: seq<Entry>, e: Entry)
    requires Sorted(s)
    ensures forall j :: 0 <= j < Rank(s, e) ==> Less(s[j], e)
    ensures forall j :: Rank(s, e) <= j < |s| ==> s[j] == e || Less(e, s[j])
  {
    hide Less;
    if s != [] {
      SortedRest(s);
      RankSplits(s[1..], e);
      LessTotal(s[0], e);
      if Less(s[0], e) {
        assert forall j :: 0 < j < |s| ==> s[j] == s[1..][j - 1];
      } else {
        forall j | 0 < j < |s|
          ensures Less(e, s[j])
        {
          if s[0] != e {
            LessTrans(e, s[0], s[j]);
          }
        }
        NoneLess(s, e);
      }
    }
  }

  lemma {:induction false} NoneLess(s: seq<Entry>, e: Entry)
    requires forall j :: 0 <= j < |s| ==> s[j] == e || Less(e, s[j])
    ensures Rank(s, e) == 0
  {
    hide Less;
    if s != [] {
      assert forall j :: 0 <= j < |s| - 1 ==> s[1..][j] == s[j + 1];
      LessTotal(e, s[0]);
      LessSelf(e);
      NoneLess(s[1..], e);
    }
  }

  lemma LessSelf(e: Entry)
    ensures !Less(e, e)
  {
    if Less(e, e) {
      LessTotal(e, e);
    }
  }

  /** The entry stands at its rank if it stands in the index at all. */
  lemma RankFinds(s: seq<Entry>, e: Entry)
    requires Sorted(s)
    ensures e in s <==> Rank(s, e) < |s| && s[Rank(s, e)] == e
  {
    hide Less, Rank;
    RankSplits(s, e);
    if e in s {
      var j :| 0 <= j < |s| && s[j] == e;
      LessSelf(e);
      var r := Rank(s, e);
      if r < j {
        LessTotal(s[r], e);
      }
    }
  }

  function Inserted(s: seq<Entry>, e: Entry): seq<Entry> {
    var r := Rank(s, e);
    if r < |s| && s[r] == e then s else s[..r] + [e] + s[r..]
  }

  function Removed(s: seq<Entry>, e: Entry): seq<Entry> {
    var r := Rank(s, e);
    if r < |s| && s[r] == e then s[..r] + s[r + 1..] else s
  }

  lemma InsertedSorted(s: seq<Entry>, e: Entry)
    requires Sorted(s)
    ensures Sorted(Inserted(s, e)) && forall f :: f in Inserted(s, e) <==> f == e || f in s
  {
    hide Less, Rank;
    RankSplits(s, e);
    var r := Rank(s, e);
    var t := Inserted(s, e);
    if !(r < |s| && s[r] == e) {
      assert forall j :: 0 <= j < |t| ==> t[j] == if j < r then s[j] else if j == r then e else s[j - 1];
      assert r < |s| ==> Less(e, s[r]);
      forall j | r <= j < |s|
        ensures Less(e, s[j])
      {
        if r < j {
          LessTrans(e, s[r], s[j]);
        }
      }
      assert s == s[..r] + s[r..];
      assert e == t[r] && e in t;
    }
  }

  lemma RemovedSorted(s: seq<Entry>, e: Entry)
    requires Sorted(s)
    ensures Sorted(Removed(s, e)) && forall f :: f in Removed(s, e) <==> f != e && f in s
  {
    hide Less, Rank;
    RankFinds(s, e);
    LessSelf(e);
    var r := Rank(s, e);
    var t := Removed(s, e);
    if r < |s| && s[r] == e {
      assert forall j :: 0 <= j < |t| ==> t[j] == if j < r then s[j] else s[j + 1];
      assert s == s[..r] + [e] + s[r + 1..];
      assert e !in t;
    }
  }

  lemma RankAt(s: seq<Entry>, i: nat)
    requires Sorted(s) && i < |s|
    ensures Rank(s, s[i]) == i
  {
    hide Less, Rank;
    var e := s[i];
    var r := Rank(s, e);
    RankSplits(s, e);
    LessSelf(e);
    RankFinds(s, e);
  }

  // ---- The two indexes together ----

  /** The index lists exactly the members, each once, with its score. */
  ghost predicate Mirrors(scores: seq<Entry>, members: map<bytes, real>) {
    && Sorted(scores)
    && (forall e :: e in scores ==> e.member in members && members[e.member] == e.score)
    && (forall m :: m in members ==> Entry(members[m], m) in scores)
  }

  /** Members that come before `m` in the order. */
  ghost function Smaller(members: map<bytes, real>, m: bytes): set<bytes>
    requires m in members
  {
    set k | k in members && Less(Entry(members[k], k), Entry(members[m], m))
  }

  /** Members with a lower score, or the same score and a name that comes first. */
  lemma SmallerMeaning(members: map<bytes, real>, m: bytes)
    requires m in members
    ensures Smaller(members, m) ==
            set k | k in members && (members[k] < members[m] || (members[k] == members[m] && ComesFirst(k, m)))
  {
    hide Less, ComesFirst;
    forall k | k in members
      ensures Less(Entry(members[k], k), Entry(members[m], m)) <==>
              members[k] < members[m] || (members[k] == members[m] && ComesFirst(k, m))
    {
      LessTotal(Entry(members[k], k), Entry(members[m], m));
    }
  }

  /** All other members come after. */
  lemma LargerRest(members: map<bytes, real>, m: bytes)
    requires m in members
    ensures var larger := set k | k in members && (members[k] > members[m] || (members[k] == members[m] && ComesFirst(m, k)));
            |larger| + |Smaller(members, m)| + 1 == |members|
  {
    hide Less, ComesFirst;
    var larger := set k | k in members && (members[k] > members[m] || (members[k] == members[m] && ComesFirst(m, k)));
    var smaller := Smaller(members, m);
    forall k | k in members
      ensures k in larger <==> k != m && k !in smaller
    {
      LessTotal(Entry(members[k], k), Entry(members[m], m));
      LessTotal(Entry(members[m], m), Entry(members[k], k));
    }
    LessSelf(Entry(members[m], m));
    assert larger + smaller + {m} == members.Keys && larger !! smaller && m !in larger + smaller;
  }

  ghost function MembersOf(s: seq<Entry>): set<bytes> { set j | 0 <= j < |s| :: s[j].member }

  lemma {:induction false} DistinctMembers(s: seq<Entry>, members: map<bytes, real>)
    requires Sorted(s) && forall e :: e in s ==> e.member in members && members[e.member] == e.score
    ensures |MembersOf(s)| == |s|
  {
    hide Less;
    if s == [] {
      assert MembersOf(s) == {};
    } else {
      SortedRest(s);
      assert s == [s[0]] + s[1..];
      DistinctMembers(s[1..], members);
      forall j | 0 < j < |s|
        ensures s[j].member != s[0].member
      {
        assert s[0] in s && s[j] in s;
        if s[j].member == s[0].member {
          assert s[j] == s[0];
          LessSelf(s[0]);
        }
      }
      MembersCons(s);
    }
  }

  lemma MembersCons(s: seq<Entry>)
    requires s != [] && forall j :: 0 < j < |s| ==> s[j].member != s[0].member
    ensures MembersOf(s) == MembersOf(s[1..]) + {s[0].member} && s[0].member !in MembersOf(s[1..])
  {
    forall m | m in MembersOf(s)
      ensures m in MembersOf(s[1..]) + {s[0].member}
    {
      var j :| 0 <= j < |s| && s[j].member == m;
      assert j > 0 ==> s[1..][j - 1].member == m;
    }
    forall m | m in MembersOf(s[1..])
      ensures m in MembersOf(s) && m != s[0].member
    {
      var j :| 0 <= j < |s[1..]| && s[1..][j].member == m;
      assert s[j + 1].member == m;
    }
    assert s[0].member in MembersOf(s);
  }

  /** As many entries as members. */
  lemma SameSize(scores: seq<Entry>, members: map<bytes, real>)
    requires Mirrors(scores, members)
    ensures |scores| == |members|
  {
    hide Less;
    DistinctMembers(scores, members);
    assert MembersOf(scores) == members.Keys by {
      forall m | m in members
        ensures m in MembersOf(scores)
      {
        var j :| 0 <= j < |scores| && scores[j] == Entry(members[m], m);
        assert scores[j].member == m;
      }
    }
  }

  /** The position in the index is the number of members that come before. */
  lemma RankCounts(scores: seq<Entry>, members: map<bytes, real>, m: bytes)
    requires Mirrors(scores, members) && m in members
    ensures Rank(scores, Entry(members[m], m)) == |Smaller(members, m)| < |scores|
  {
    hide Less, Rank;
    var e := Entry(members[m], m);
    var r := Rank(scores, e);
    RankSplits(scores, e);
    RankFinds(scores, e);
    var front := scores[..r];
    assert forall f :: f in front ==> f in scores;
    DistinctMembers(front, members);
    forall k | k in MembersOf(front)
      ensures k in Smaller(members, m)
    {
      var j :| 0 <= j < r && front[j].member == k;
      assert scores[j] in scores && front[j] == scores[j];
      assert scores[j] == Entry(members[k], k);
    }
    forall k | k in Smaller(members, m)
      ensures k in MembersOf(front)
    {
      var f := Entry(members[k], k);
      var j :| 0 <= j < |scores| && scores[j] == f;
      if j >= r {
        LessTotal(f, e);
      }
      assert front[j].member == k;
    }
    assert MembersOf(front) == Smaller(members, m);
  }

  // ---- Keeping the two indexes in step ----

  lemma AddFresh(scores: seq<Entry>, members: map<bytes, real>, m: bytes, x: real)
    requires Mirrors(scores, members) && m !in members
    ensures Mirrors(Inserted(scores, Entry(x, m)), members[m := x])
  {
    hide Less, Inserted;
    InsertedSorted(scores, Entry(x, m));
  }

  lemma RemoveMember(scores: seq<Entry>, members: map<bytes, real>, m: bytes)
    requires Mirrors(scores, members) && m in members
    ensures Mirrors(Removed(scores, Entry(members[m], m)), members - {m})
  {
    hide Less, Removed;
    RemovedSorted(scores, Entry(members[m], m));
  }

  /** How many entries the range from `e` on has. */
  function CountFrom(s: seq<Entry>, e: Entry): nat {
    if s == [] then 0 else (if Less(s[0], e) then 0 else 1) + CountFrom(s[1..], e)
  }

  lemma {:induction false} CountSplits(s: seq<Entry>, e: Entry)
    ensures Rank(s, e) + CountFrom(s, e) == |s|
  {
    hide Less;
    if s != [] {
      CountSplits(s[1..], e);
    }
  }

  class ZSet {
    var members: map<bytes, real>
    var scores: seq<Entry>

    ghost predicate Valid()
      reads this
    {
      Mirrors(scores, members)
    }

    constructor ()
      ensures Valid() && members == map[]
    {
      members := map[];
      scores := [];
    }

    /** A member that is there already moves to its new place. */
    method Add(member: bytes, score: real) returns (isNew: bool)
      requires Valid()
      modifies this
      ensures Valid() && members == old(members)[member := score]
      ensures isNew <==> member !in old(members)
    {
      hide Mirrors, Inserted, Removed;
      if member in members {
        var was := members[member];
        RemoveMember(scores, members, member);
        scores := Removed(scores, Entry(was, member));
        AddFresh(scores, members - {member}, member, score);
        assert (members - {member})[member := score] == members[member := score];
        scores := Inserted(scores, Entry(score, member));
        members := members[member := score];
        return false;
      } else {
        AddFresh(scores, members, member, score);
        scores := Inserted(scores, Entry(score, member));
        members := members[member := score];
        return true;
      }
    }

    method Remove(member: bytes) returns (removed: bool)
      requires Valid()
      modifies this
      ensures Valid() && members == old(members) - {member}
      ensures removed <==> member in old(members)
    {
      hide Mirrors, Removed;
      if member in members {
        RemoveMember(scores, members, member);
        var score := members[member];
        members := members - {member};
        scores := Removed(scores, Entry(score, member));
        return true;
      } else {
        return false;
      }
    }

    /**
     The rank is computed twice, from the size of a range and by walking to the entry; the walk is
     what the client sees, and the two agree. The reverse range is never empty, so taking one off is safe.
     */
    method RankOf(member: bytes, rev: bool) returns (r: Option<nat>)
      requires Valid()
      ensures r.None? <==> member !in members
      ensures r.Some? && !rev ==>
                r.value == |set k | k in members && (members[k] < members[member] || (members[k] == members[member] && ComesFirst(k, member)))|
      ensures r.Some? && rev ==>
                r.value == |set k | k in members && (members[k] > members[member] || (members[k] == members[member] && ComesFirst(member, k)))|
    {
      hide Less, Rank, CountFrom, Smaller, ComesFirst;
      if member !in members {
        return None;
      }
      var target := Entry(members[member], member);
      RankCounts(scores, members, member);
      SmallerMeaning(members, member);
      LargerRest(members, member);
      SameSize(scores, members);
      CountSplits(scores, target);
      var rank: nat := if rev then CountFrom(scores, target) - 1 else Rank(scores, target);
      var pos := 0;
      if rev {
        while pos < |scores| && scores[|scores| - 1 - pos] != target
          invariant 0 <= pos <= |scores| - 1 - Rank(scores, target)
        {
          RankFinds(scores, target);
          pos := pos + 1;
        }
        RankAt(scores, |scores| - 1 - pos);
      } else {
        while pos < |scores| && scores[pos] != target
          invariant 0 <= pos <= Rank(scores, target)
        {
          RankFinds(scores, target);
          pos := pos + 1;
        }
        RankAt(scores, pos);
      }
      assert pos == rank;
      return Some(pos);
    }

    /** Up to `count` entries from the front, or from the back. */
    method Pop(count: nat, rev: bool) returns (popped: seq<Entry>)
      requires Valid()
      modifies this
      ensures Valid()
      ensures |popped| == if count < |old(scores)| then count else |old(scores)|
      ensures !rev ==> old(scores) == popped + scores
      ensures rev ==> old(scores) == scores + Reversed(popped)
      ensures members == old(members) - MembersOf(popped)
      ensures |popped| == if count < |old(members)| then count else |old(members)|
      ensures ByScore(popped, old(members), members, rev) && TiesByName(popped, members, rev)
    {
      hide Mirrors, ByScore, TiesByName, Sorted, Removed, MembersOf, Reversed, Taken;
      popped := [];
      NonePopped(members);
      NoneTaken(scores, rev);
      var k := 0;
      while k < count && scores != []
        invariant Valid() && k == |popped| <= count
        invariant Taken(old(scores), scores, popped, rev)
        invariant members == old(members) - MembersOf(popped)
      {
        var e := if rev then scores[|scores| - 1] else scores[0];
        PopStep(scores, members, e, if rev then |scores| - 1 else 0);
        PopMore(old(members), popped, e);
        TakenMore(old(scores), scores, popped, rev);
        scores := Removed(scores, e);
        members := members - {e.member};
        popped := popped + [e];
        k := k + 1;
      }
      TakenParts(old(scores), scores, popped, rev);
      SameSize(old(scores), old(members));
      PoppedScores(old(scores), scores, old(members), members, popped, rev);
      PoppedTies(old(scores), scores, old(members), members, popped, rev);
    }
  }

  /**
   The popped entries have the scores they had. From the front scores do not fall and none is above a score
   that is left; from the back they do not rise and none is below one.
   */
  ghost predicate ByScore(popped: seq<Entry>, before: map<bytes, real>, left: map<bytes, real>, rev: bool) {
    && (forall i :: 0 <= i < |popped| ==> popped[i].member in before && popped[i].score == before[popped[i].member])
    && (forall i, j :: 0 <= i < j < |popped| ==> if rev then popped[i].score >= popped[j].score else popped[i].score <= popped[j].score)
    && (forall i, m :: 0 <= i < |popped| && m in left ==> if rev then popped[i].score >= left[m] else popped[i].score <= left[m])
  }

  /** Between equal scores names decide, among the popped entries and against those left. */
  ghost predicate TiesByName(popped: seq<Entry>, left: map<bytes, real>, rev: bool) {
    && (forall i, j :: 0 <= i < j < |popped| && popped[i].score == popped[j].score ==>
          if rev then ComesFirst(popped[j].member, popped[i].member) else ComesFirst(popped[i].member, popped[j].member))
    && (forall i, m :: 0 <= i < |popped| && m in left && popped[i].score == left[m] ==>
          if rev then ComesFirst(m, popped[i].member) else ComesFirst(popped[i].member, m))
  }

  /** Entries in different places of an index. */
  lemma InOrder(s: seq<Entry>, i: nat, j: nat)
    requires Sorted(s) && i < j < |s|
    ensures s[i].score <= s[j].score && (s[i].score == s[j].score ==> ComesFirst(s[i].member, s[j].member))
  {
    hide Less, ComesFirst;
    LessTotal(s[i], s[j]);
  }

  /** Where the popped entries stood. */
  function Place(all: seq<Entry>, i: nat, rev: bool): int { if rev then |all| - 1 - i else i }

  lemma PoppedPair(all: seq<Entry>, rest: seq<Entry>, popped: seq<Entry>, rev: bool, i: nat, j: nat)
    requires Sorted(all) && Taken(all, rest, popped, rev) && i < j < |popped|
    ensures if rev then popped[j].score <= popped[i].score && (popped[j].score == popped[i].score ==> ComesFirst(popped[j].member, popped[i].member))
            else popped[i].score <= popped[j].score && (popped[i].score == popped[j].score ==> ComesFirst(popped[i].member, popped[j].member))
  {
    hide Sorted, ComesFirst, Taken;
    TakenPlaces(all, rest, popped, rev);
    if rev { InOrder(all, Place(all, j, rev), Place(all, i, rev)); } else { InOrder(all, i, j); }
  }

  lemma PoppedAndLeft(all: seq<Entry>, rest: seq<Entry>, popped: seq<Entry>, rev: bool, i: nat, l: nat)
    requires Sorted(all) && Taken(all, rest, popped, rev) && i < |popped| && l < |rest|
    ensures if rev then rest[l].score <= popped[i].score && (rest[l].score == popped[i].score ==> ComesFirst(rest[l].member, popped[i].member))
            else popped[i].score <= rest[l].score && (popped[i].score == rest[l].score ==> ComesFirst(popped[i].member, rest[l].member))
  {
    hide Sorted, ComesFirst, Taken;
    TakenPlaces(all, rest, popped, rev);
    if rev { InOrder(all, l, Place(all, i, rev)); } else { InOrder(all, i, |popped| + l); }
  }

  lemma PoppedScores(all: seq<Entry>, rest: seq<Entry>, before: map<bytes, real>, after: map<bytes, real>,
                     popped: seq<Entry>, rev: bool)
    requires Mirrors(all, before) && Mirrors(rest, after) && Taken(all, rest, popped, rev)
    ensures ByScore(popped, before, after, rev)
  {
    hide Sorted, ComesFirst, Taken;
    TakenPlaces(all, rest, popped, rev);
    forall i | 0 <= i < |popped|
      ensures popped[i].member in before && popped[i].score == before[popped[i].member]
    {
      assert popped[i] == all[Place(all, i, rev)] && all[Place(all, i, rev)] in all;
    }
    forall i, j | 0 <= i < j < |popped|
      ensures if rev then popped[i].score >= popped[j].score else popped[i].score <= popped[j].score
    {
      PoppedPair(all, rest, popped, rev, i, j);
    }
    forall i, m | 0 <= i < |popped| && m in after
      ensures if rev then popped[i].score >= after[m] else popped[i].score <= after[m]
    {
      var l :| 0 <= l < |rest| && rest[l] == Entry(after[m], m);
      PoppedAndLeft(all, rest, popped, rev, i, l);
    }
  }

  lemma PoppedTies(all: seq<Entry>, rest: seq<Entry>, before: map<bytes, real>, after: map<bytes, real>,
                   popped: seq<Entry>, rev: bool)
    requires Mirrors(all, before) && Mirrors(rest, after) && Taken(all, rest, popped, rev)
    ensures TiesByName(popped, after, rev)
  {
    hide Sorted, ComesFirst, Taken;
    forall i, j | 0 <= i < j < |popped| && popped[i].score == popped[j].score
      ensures if rev then ComesFirst(popped[j].member, popped[i].member) else ComesFirst(popped[i].member, popped[j].member)
    {
      PoppedPair(all, rest, popped, rev, i, j);
    }
    forall i, m | 0 <= i < |popped| && m in after && popped[i].score == after[m]
      ensures if rev then ComesFirst(m, popped[i].member) else ComesFirst(popped[i].member, m)
    {
      var l :| 0 <= l < |rest| && rest[l] == Entry(after[m], m);
      PoppedAndLeft(all, rest, popped, rev, i, l);
    }
  }

  lemma TakenPlaces(all: seq<Entry>, rest: seq<Entry>, popped: seq<Entry>, rev: bool)
    requires Taken(all, rest, popped, rev)
    ensures |all| == |rest| + |popped|
    ensures forall i :: 0 <= i < |popped| ==> 0 <= Place(all, i, rev) < |all| && popped[i] == all[Place(all, i, rev)]
    ensures forall l :: 0 <= l < |rest| ==> rest[l] == all[if rev then l else |popped| + l]
  {
    if rev {
      assert forall i :: 0 <= i < |popped| ==> Reversed(popped)[|popped| - 1 - i] == popped[i];
    }
  }

  /** The popped entries stood in front of the rest, or behind it, last first. */
  ghost predicate Taken(all: seq<Entry>, rest: seq<Entry>, popped: seq<Entry>, rev: bool) {
    all == if rev then rest + Reversed(popped) else popped + rest
  }

  lemma NoneTaken(all: seq<Entry>, rev: bool)
    ensures Taken(all, all, [], rev)
  {
    assert Reversed<Entry>([]) == [] && all + [] == all;
  }

  lemma TakenMore(all: seq<Entry>, rest: seq<Entry>, popped: seq<Entry>, rev: bool)
    requires Taken(all, rest, popped, rev) && rest != []
    ensures var i := if rev then |rest| - 1 else 0; Taken(all, rest[..i] + rest[i + 1..], popped + [rest[i]], rev)
  {
    var i := if rev then |rest| - 1 else 0;
    if rev {
      ReversedMore(popped, rest[i]);
      assert rest == rest[..i] + [rest[i]] && rest[i + 1..] == [];
      Joined(rest[..i], [rest[i]], Reversed(popped));
    } else {
      assert rest == [rest[0]] + rest[1..];
      Joined(popped, [rest[0]], rest[1..]);
    }
  }

  lemma TakenParts(all: seq<Entry>, rest: seq<Entry>, popped: seq<Entry>, rev: bool)
    requires Taken(all, rest, popped, rev)
    ensures |all| == |rest| + |popped| && (if rev then all == rest + Reversed(popped) else all == popped + rest)
  {}

  lemma NonePopped(members: map<bytes, real>)
    ensures members - MembersOf([]) == members
  {
    assert MembersOf([]) == {};
  }

  /** Taking out the first or last entry leaves the rest of the index as it is. */
  lemma PopStep(scores: seq<Entry>, members: map<bytes, real>, e: Entry, i: nat)
    requires Mirrors(scores, members) && i < |scores| && e == scores[i]
    ensures Removed(scores, e) == scores[..i] + scores[i + 1..]
    ensures Mirrors(Removed(scores, e), members - {e.member})
  {
    hide Less, Rank;
    assert e in scores;
    RankAt(scores, i);
    RemoveMember(scores, members, e.member);
  }

  lemma PopMore(members: map<bytes, real>, popped: seq<Entry>, e: Entry)
    ensures members - MembersOf(popped) - {e.member} == members - MembersOf(popped + [e])
  {
    var more := popped + [e];
    forall m | m in MembersOf(more)
      ensures m in MembersOf(popped) + {e.member}
    {
      var j :| 0 <= j < |more| && more[j].member == m;
      assert j < |popped| ==> popped[j].member == m;
    }
    forall m | m in MembersOf(popped)
      ensures m in MembersOf(more)
    {
      var j :| 0 <= j < |popped| && popped[j].member == m;
      assert more[j].member == m;
    }
    assert more[|popped|].member == e.member;
    assert MembersOf(more) == MembersOf(popped) + {e.member};
  }

  lemma ReversedMore(s: seq<Entry>, e: Entry)
    ensures Reversed(s + [e]) == [e] + Reversed(s)
  {}
}
