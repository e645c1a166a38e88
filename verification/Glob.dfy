/** Glob patterns: the one-star backtracking loop against a declarative matcher. */
module Glob {
  import opened Common

  const QUESTION: byte := 63
  const STAR: byte := 42
  const OPEN: byte := 91
  const CLOSE: byte := 93
  const CARET: byte := 94
  const DASH: byte := 45

  datatype ClassItem = Single(b: byte) | Range(lo: byte, hi: byte)

  datatype Token = Any | Star | Lit(b: byte) | Class(negate: bool, items: seq<ClassItem>)

  // ---- Tokenizing ----

  datatype ClassBody = ClassBody(items: seq<ClassItem>, next: nat)

  /** The items of a class from `pi` up to the closing bracket or the end of the pattern. */
  function ClassFrom(p: bytes, pi: nat): (c: ClassBody)
    requires pi <= |p|
    ensures pi <= c.next <= |p|
    ensures c.next < |p| ==> p[c.next] == CLOSE
    decreases |p| - pi
  {
    if pi == |p| || p[pi] == CLOSE then ClassBody([], pi)
    else if pi + 2 < |p| && p[pi + 1] == DASH then
      var c := ClassFrom(p, pi + 3);
      ClassBody([Range(p[pi], p[pi + 2])] + c.items, c.next)
    else
      var c := ClassFrom(p, pi + 1);
      ClassBody([Single(p[pi])] + c.items, c.next)
  }

  predicate Negated(p: bytes, pi: nat) { pi + 1 < |p| && p[pi + 1] == CARET }

  function ClassStart(p: bytes, pi: nat): (r: nat)
    requires pi < |p|
    ensures pi < r <= |p|
  {
    if Negated(p, pi) then pi + 2 else pi + 1
  }

  datatype Lexeme = Lexeme(token: Token, next: nat)

  function NextToken(p: bytes, pi: nat): (l: Lexeme)
    requires pi < |p|
    ensures pi < l.next <= |p|
  {
    if p[pi] == QUESTION then Lexeme(Any, pi + 1)
    else if p[pi] == STAR then Lexeme(Star, pi + 1)
    else if p[pi] == OPEN then
      var c := ClassFrom(p, ClassStart(p, pi));
      Lexeme(Class(Negated(p, pi), c.items), if c.next < |p| then c.next + 1 else c.next)
    else Lexeme(Lit(p[pi]), pi + 1)
  }

  function Tokens(p: bytes, pi: nat := 0): seq<Token>
    requires pi <= |p|
    decreases |p| - pi
  {
    if pi == |p| then [] else [NextToken(p, pi).token] + Tokens(p, NextToken(p, pi).next)
  }

  // ---- What a pattern means ----

  predicate ItemMatches(i: ClassItem, b: byte) {
    match i
    case Single(c) => b == c
    case Range(lo, hi) => lo <= b <= hi
  }

  predicate InClass(items: seq<ClassItem>, b: byte) { exists i :: 0 <= i < |items| && ItemMatches(items[i], b) }

  predicate OneMatches(t: Token, b: byte) {
    match t
    case Any => true
    case Star => false
    case Lit(c) => b == c
    case Class(negate, items) => InClass(items, b) != negate
  }

  predicate Matches(ts: seq<Token>, s: bytes)
    decreases |ts|, |s|
  {
    if ts == [] then s == []
    else if ts[0].Star? then Matches(ts[1..], s) || (s != [] && Matches(ts, s[1..]))
    else s != [] && OneMatches(ts[0], s[0]) && Matches(ts[1..], s[1..])
  }

  // ---- How stars absorb input ----

  /** A leading star may skip any part of the input. */
  lemma {:induction false} StarSkips(ts: seq<Token>, s: bytes, n: nat)
    requires ts != [] && ts[0].Star? && n <= |s| && Matches(ts, s[n..])
    ensures Matches(ts, s)
    decreases n
  {
    if n > 0 {
      assert s[1..][n - 1..] == s[n..];
      StarSkips(ts, s[1..], n - 1);
    } else {
      assert s[0..] == s;
    }
  }

  /** A star that matches lets the rest match somewhere further on. */
  lemma {:induction false} StarLands(ts: seq<Token>, s: bytes) returns (n: nat)
    requires ts != [] && ts[0].Star? && Matches(ts, s)
    ensures n <= |s| && Matches(ts[1..], s[n..])
    decreases |s|
  {
    if Matches(ts[1..], s) {
      n := 0;
      assert s[0..] == s;
    } else {
      n := StarLands(ts, s[1..]);
      assert s[1..][n..] == s[n + 1..];
      n := n + 1;
    }
  }

  predicate Plain(ts: seq<Token>) { forall i :: 0 <= i < |ts| ==> !ts[i].Star? }

  /** Tokens that are not stars take one byte each. */
  lemma {:induction false} PlainTakes(ts: seq<Token>, m: nat, s: bytes)
    requires m <= |ts| && Plain(ts[..m]) && Matches(ts, s)
    ensures m <= |s| && Matches(ts[m..], s[m..])
    decreases m
  {
    if m > 0 {
      assert !ts[..m][0].Star?;
      assert ts[1..][..m - 1] == ts[..m][1..];
      PlainTakes(ts[1..], m - 1, s[1..]);
      assert ts[1..][m - 1..] == ts[m..] && s[1..][m - 1..] == s[m..];
    } else {
      assert ts[0..] == ts && s[0..] == s;
    }
  }

  /**
   Forgetting the earlier of two stars loses no match: with only single tokens between them, moving
   the earlier star on only moves on the point where the later one takes over.
   */
  lemma LaterStarSuffices(ts: seq<Token>, a: nat, b: nat, s: bytes, i: nat, j: nat)
    requires a < b < |ts| && ts[a].Star? && ts[b].Star? && Plain(ts[a + 1..b])
    requires i + (b - a - 1) == j <= |s| && i < |s|
    requires Matches(ts[a..], s[i + 1..])
    ensures Matches(ts[b..], s[j..])
  {
    var n := StarLands(ts[a..], s[i + 1..]);
    var k, m := i + 1 + n, b - a - 1;
    assert ts[a..][1..] == ts[a + 1..] && s[i + 1..][n..] == s[k..];
    assert ts[a + 1..][..m] == ts[a + 1..b];
    PlainTakes(ts[a + 1..], m, s[k..]);
    assert ts[a + 1..][m..] == ts[b..] && s[k..][m..] == s[k + m..];
    assert s[j..][k + m - j..] == s[k + m..];
    StarSkips(ts[b..], s[j..], k + m - j);
  }

  /** The class part of the loop: scan the items, then step over the closing bracket. */
  method ScanClass(p: bytes, start: nat, b: byte) returns (pi: nat, negate: bool, matched: bool)
    requires start < |p| && p[start] == OPEN
    ensures negate == Negated(p, start)
    ensures pi == NextToken(p, start).next
    ensures matched <==> InClass(NextToken(p, start).token.items, b)
  {
    pi := start + 1;
    negate := pi < |p| && p[pi] == CARET;
    if negate {
      pi := pi + 1;
    }
    hide InClass;
    ghost var all := ClassFrom(p, pi);
    matched := false;
    while pi < |p| && p[pi] != CLOSE
      invariant ClassStart(p, start) <= pi <= |p|
      invariant InClass(all.items, b) <==> matched || InClass(ClassFrom(p, pi).items, b)
      invariant all.next == ClassFrom(p, pi).next
    {
      if pi + 2 < |p| && p[pi + 1] == DASH {
        InClassCons(Range(p[pi], p[pi + 2]), ClassFrom(p, pi + 3).items, b);
        if b >= p[pi] && b <= p[pi + 2] {
          matched := true;
        }
        pi := pi + 3;
      } else {
        InClassCons(Single(p[pi]), ClassFrom(p, pi + 1).items, b);
        if b == p[pi] {
          matched := true;
        }
        pi := pi + 1;
      }
    }
    assert !InClass(ClassFrom(p, pi).items, b) by { NothingInClass(b); }
    if pi < |p| {
      pi := pi + 1;
    }
  }

  lemma NothingInClass(b: byte)
    ensures !InClass([], b)
  {}

  lemma InClassCons(item: ClassItem, items: seq<ClassItem>, b: byte)
    ensures InClass([item] + items, b) <==> ItemMatches(item, b) || InClass(items, b)
  {
    var more := [item] + items;
    assert more[0] == item;
    assert forall i :: 0 <= i < |items| ==> more[i + 1] == items[i];
    if InClass(more, b) {
      var i :| 0 <= i < |more| && ItemMatches(more[i], b);
      assert i > 0 ==> more[i] == items[i - 1];
    }
  }

  /** The bytes that the loop compares literally before it looks for a star or a class. */
  predicate Unmarked(s: bytes) { STAR !in s && OPEN !in s }

  // ---- One remembered star suffices ----

  /** Where the loop stands, counted in tokens: the next token and byte, the remembered star and where it stopped. */
  datatype Mark = Mark(ti: nat, ii: nat, star: Option<nat>, starIi: nat)

  /** Since the remembered star only single tokens were matched, one byte each. */
  ghost predicate Between(ts: seq<Token>, s: bytes, m: Mark) {
    && m.ti <= |ts| && m.starIi <= m.ii <= |s|
    && (m.star.Some? ==>
          var a := m.star.value;
          && a <= m.ti && a < |ts| && ts[a].Star?
          && if m.ti == a then m.ii == m.starIi else m.ii - m.starIi == m.ti - a - 1 && Plain(ts[a + 1..m.ti]))
  }

  /** The tokens match exactly if they match from here, or after the remembered star absorbs more. */
  ghost predicate Faithful(ts: seq<Token>, s: bytes, m: Mark)
    requires Between(ts, s, m)
  {
    Matches(ts, s) <==>
      || Matches(ts[m.ti..], s[m.ii..])
      || (m.star.Some? && m.starIi < |s| && Matches(ts[m.star.value..], s[m.starIi + 1..]))
  }

  ghost predicate Kept(ts: seq<Token>, s: bytes, m: Mark) { Between(ts, s, m) && Faithful(ts, s, m) }

  lemma Unfold(ts: seq<Token>, s: bytes, ti: nat, ii: nat)
    requires ti < |ts| && ii <= |s|
    ensures Matches(ts[ti..], s[ii..]) <==>
              if ts[ti].Star? then Matches(ts[ti + 1..], s[ii..]) || (ii < |s| && Matches(ts[ti..], s[ii + 1..]))
              else ii < |s| && OneMatches(ts[ti], s[ii]) && Matches(ts[ti + 1..], s[ii + 1..])
  {
    hide OneMatches;
    assert ts[ti..][0] == ts[ti] && ts[ti..][1..] == ts[ti + 1..];
    if ii < |s| {
      assert s[ii..][0] == s[ii] && s[ii..][1..] == s[ii + 1..];
    }
  }

  /** A single token that matches is passed. */
  lemma Advance(ts: seq<Token>, s: bytes, m: Mark)
    requires Kept(ts, s, m) && m.ti < |ts| && m.ii < |s| && OneMatches(ts[m.ti], s[m.ii])
    ensures Kept(ts, s, m.(ti := m.ti + 1, ii := m.ii + 1))
  {
    hide Matches, Plain, OneMatches;
    NoStarMatches(ts[m.ti], s[m.ii]);
    Unfold(ts, s, m.ti, m.ii);
    if m.star.Some? {
      var a := m.star.value + 1;
      PlainMore(ts[a..m.ti], ts[m.ti]);
      assert ts[a..m.ti + 1] == ts[a..m.ti] + [ts[m.ti]];
    }
  }

  lemma PlainMore(ts: seq<Token>, t: Token)
    requires Plain(ts) && !t.Star?
    ensures Plain(ts + [t])
  {}

  lemma EarlierStarCovered(ts: seq<Token>, s: bytes, m: Mark)
    requires Between(ts, s, m) && m.ti < |ts| && ts[m.ti].Star? && m.star.Some? && m.starIi < |s|
    requires Matches(ts[m.star.value..], s[m.starIi + 1..])
    ensures Matches(ts[m.ti..], s[m.ii..])
  {
    hide Matches;
    if m.ti == m.star.value {
      Unfold(ts, s, m.ti, m.ii);
    } else {
      LaterStarSuffices(ts, m.star.value, m.ti, s, m.starIi, m.ii);
    }
  }

  /** A star just met replaces the remembered one. */
  lemma Remember(ts: seq<Token>, s: bytes, m: Mark)
    requires Kept(ts, s, m) && m.ti < |ts| && m.ii < |s| && ts[m.ti].Star?
    ensures Kept(ts, s, Mark(m.ti + 1, m.ii, Some(m.ti), m.ii))
  {
    hide Matches;
    Unfold(ts, s, m.ti, m.ii);
    if m.star.Some? && m.starIi < |s| && Matches(ts[m.star.value..], s[m.starIi + 1..]) {
      EarlierStarCovered(ts, s, m);
    }
  }

  lemma Stuck(ts: seq<Token>, s: bytes, ti: nat, ii: nat)
    requires ti <= |ts| && ii < |s| && (ti < |ts| ==> !ts[ti].Star? && !OneMatches(ts[ti], s[ii]))
    ensures !Matches(ts[ti..], s[ii..])
  {
    if ti < |ts| {
      hide Matches;
      Unfold(ts, s, ti, ii);
    } else {
      assert ts[ti..] == [];
    }
  }

  /** Where nothing matches, the remembered star absorbs one more byte; without a star there is no match. */
  lemma Backtrack(ts: seq<Token>, s: bytes, m: Mark)
    requires Kept(ts, s, m) && m.ii < |s|
    requires m.ti < |ts| ==> !ts[m.ti].Star? && !OneMatches(ts[m.ti], s[m.ii])
    ensures m.star.None? ==> !Matches(ts, s)
    ensures m.star.Some? ==> Kept(ts, s, Mark(m.star.value, m.starIi + 1, m.star, m.starIi + 1))
  {
    hide Matches, OneMatches;
    Stuck(ts, s, m.ti, m.ii);
    if m.star.Some? {
      Unfold(ts, s, m.star.value, m.starIi + 1);
    }
  }

  /** At the end of the input only stars may be left. */
  lemma AtEnd(ts: seq<Token>, s: bytes, m: Mark)
    requires Kept(ts, s, m) && m.ii == |s|
    ensures Matches(ts, s) <==> Matches(ts[m.ti..], [])
  {
    hide Matches;
    assert s[m.ii..] == [];
    if m.star.Some? && m.starIi < |s| && Matches(ts[m.star.value..], s[m.starIi + 1..]) {
      var a := m.star.value;
      var n := StarLands(ts[a..], s[m.starIi + 1..]);
      assert ts[a..][1..] == ts[a + 1..];
      assert ts[a + 1..][..m.ti - a - 1] == ts[a + 1..m.ti];
      PlainTakes(ts[a + 1..], m.ti - a - 1, s[m.starIi + 1..][n..]);
      assert false;
    }
  }

  // ---- The loop ----

  /** The variables of the loop; `star` is absent while the source's `star_pi` is the largest index. */
  datatype Walk = Walk(pi: nat, ii: nat, star: Option<nat>, starIi: nat)

  predicate InBounds(p: bytes, s: bytes, w: Walk) {
    w.pi <= |p| && w.starIi <= w.ii <= |s| && (w.star.Some? ==> w.star.value < |p|)
  }

  datatype Move = Fail | Go(next: Walk)

  function Back(w: Walk): Move {
    if w.star.None? then Fail else Go(Walk(w.star.value, w.starIi + 1, w.star, w.starIi + 1))
  }

  /** One iteration of the loop. */
  function Turn(p: bytes, s: bytes, w: Walk): (m: Move)
    requires InBounds(p, s, w) && w.ii < |s|
    ensures m.Go? ==> InBounds(p, s, m.next)
    ensures m.Go? ==> m.next.starIi > w.starIi || (m.next.starIi == w.starIi && m.next.pi > w.pi)
  {
    if w.pi < |p| && (p[w.pi] == QUESTION || p[w.pi] == s[w.ii]) then Go(w.(pi := w.pi + 1, ii := w.ii + 1))
    else if w.pi < |p| && p[w.pi] == STAR then Go(Walk(w.pi + 1, w.ii, Some(w.pi), w.ii))
    else if w.pi < |p| && p[w.pi] == OPEN && OneMatches(NextToken(p, w.pi).token, s[w.ii]) then
      Go(w.(pi := NextToken(p, w.pi).next, ii := w.ii + 1))
    else Back(w)
  }

  predicate OnlyStarsFrom(p: bytes, pi: nat)
    requires pi <= |p|
    decreases |p| - pi
  {
    if pi < |p| && p[pi] == STAR then OnlyStarsFrom(p, pi + 1) else pi == |p|
  }

  predicate Loop(p: bytes, s: bytes, w: Walk)
    requires InBounds(p, s, w)
    decreases |s| - w.starIi, |p| - w.pi
  {
    if w.ii == |s| then OnlyStarsFrom(p, w.pi)
    else match Turn(p, s, w)
         case Fail => false
         case Go(next) => Loop(p, s, next)
  }

  const START := Walk(0, 0, None, 0)

  /** The matcher of the source: a loop over pattern and input that remembers one star. */
  method GlobMatch(p: bytes, s: bytes) returns (r: bool)
    ensures r == Loop(p, s, START)
    ensures Unmarked(s) ==> (r <==> Matches(Tokens(p), s))
  {
    hide NextToken, Matches, Tokens, InClass;
    if Unmarked(s) {
      LoopDecides(p, s);
    }
    var pi: nat, ii: nat := 0, 0;
    var star: Option<nat> := None;
    var starIi: nat := 0;
    while ii < |s|
      invariant InBounds(p, s, Walk(pi, ii, star, starIi))
      invariant Loop(p, s, START) == Loop(p, s, Walk(pi, ii, star, starIi))
      decreases |s| - starIi, |p| - pi
    {
      if pi < |p| && (p[pi] == QUESTION || p[pi] == s[ii]) {
        pi := pi + 1;
        ii := ii + 1;
      } else if pi < |p| && p[pi] == STAR {
        star := Some(pi);
        starIi := ii;
        pi := pi + 1;
      } else if pi < |p| && p[pi] == OPEN {
        ClassToken(p, pi, s[ii]);
        var next, negate, matched := ScanClass(p, pi, s[ii]);
        pi := next;
        if matched == negate {
          if star.None? { return false; }
          pi := star.value;
          starIi := starIi + 1;
          ii := starIi;
        } else {
          ii := ii + 1;
        }
      } else if star.Some? {
        pi := star.value;
        starIi := starIi + 1;
        ii := starIi;
      } else {
        return false;
      }
    }
    while pi < |p| && p[pi] == STAR
      invariant pi <= |p| && Loop(p, s, START) == OnlyStarsFrom(p, pi)
    {
      pi := pi + 1;
    }
    return pi == |p|;
  }

  lemma ClassToken(p: bytes, pi: nat, b: byte)
    requires pi < |p| && p[pi] == OPEN
    ensures var t := NextToken(p, pi).token;
            t.Class? && (OneMatches(t, b) <==> InClass(t.items, b) != Negated(p, pi))
  {}

  // ---- The loop decides the meaning of the pattern on unmarked input ----

  /** The loop variables stand where the token positions do. */
  ghost predicate Aligned(p: bytes, w: Walk, m: Mark) {
    var ts := Tokens(p);
    && w.pi <= |p| && m.ti <= |ts| && w.ii == m.ii && w.starIi == m.starIi
    && ts[m.ti..] == Tokens(p, w.pi)
    && w.star.Some? == m.star.Some?
    && (w.star.Some? ==>
          w.star.value <= |p| && m.star.value <= |ts| && ts[m.star.value..] == Tokens(p, w.star.value))
  }

  lemma FirstToken(p: bytes, w: Walk, m: Mark)
    requires Aligned(p, w, m)
    ensures (w.pi < |p|) == (m.ti < |Tokens(p)|)
    ensures w.pi < |p| ==> Tokens(p)[m.ti] == NextToken(p, w.pi).token
    ensures w.pi < |p| ==> Tokens(p)[m.ti + 1..] == Tokens(p, NextToken(p, w.pi).next)
  {
    hide NextToken;
    var ts := Tokens(p);
    assert |ts[m.ti..]| == |ts| - m.ti;
    if w.pi < |p| {
      assert ts[m.ti..][0] == NextToken(p, w.pi).token;
      assert ts[m.ti..][1..] == ts[m.ti + 1..];
    }
  }

  /** What kind of token stands at a byte, and whether it matches an unmarked byte. */
  lemma TokenKind(p: bytes, pi: nat, b: byte)
    requires pi < |p| && b != STAR && b != OPEN
    ensures var l := NextToken(p, pi);
            && (l.token.Star? <==> p[pi] == STAR)
            && (p[pi] != OPEN ==> l.next == pi + 1 && (OneMatches(l.token, b) <==> p[pi] == QUESTION || p[pi] == b))
  {
    hide InClass, ClassFrom;
  }

  lemma TurnAligned(p: bytes, s: bytes, w: Walk, m: Mark) returns (m': Mark)
    requires InBounds(p, s, w) && w.ii < |s| && Unmarked(s)
    requires Aligned(p, w, m) && Kept(Tokens(p), s, m)
    ensures Turn(p, s, w).Fail? ==> !Matches(Tokens(p), s)
    ensures Turn(p, s, w).Go? ==> Aligned(p, Turn(p, s, w).next, m') && Kept(Tokens(p), s, m')
  {
    hide NextToken, Matches, Tokens, Kept, OneMatches;
    var ts := Tokens(p);
    FirstToken(p, w, m);
    m' := m;
    if w.pi < |p| {
      TokenKind(p, w.pi, s[w.ii]);
      if OneMatches(ts[m.ti], s[w.ii]) {
        NoStarMatches(ts[m.ti], s[w.ii]);
        Advance(ts, s, m);
        m' := m.(ti := m.ti + 1, ii := m.ii + 1);
        return;
      } else if ts[m.ti].Star? {
        Remember(ts, s, m);
        m' := Mark(m.ti + 1, m.ii, Some(m.ti), m.ii);
        return;
      }
    }
    Backtrack(ts, s, m);
    if m.star.Some? {
      m' := Mark(m.star.value, m.starIi + 1, m.star, m.starIi + 1);
    }
  }

  lemma NoStarMatches(t: Token, b: byte)
    requires OneMatches(t, b)
    ensures !t.Star?
  {}

  lemma {:induction false} LoopAligned(p: bytes, s: bytes, w: Walk, m: Mark)
    requires InBounds(p, s, w) && Unmarked(s)
    requires Aligned(p, w, m) && Kept(Tokens(p), s, m)
    ensures Loop(p, s, w) <==> Matches(Tokens(p), s)
    decreases |s| - w.starIi, |p| - w.pi
  {
    hide NextToken, Matches, Tokens, Kept, OneMatches, Turn;
    if w.ii == |s| {
      AtEnd(Tokens(p), s, m);
      TailDecides(p, w.pi);
    } else {
      var m' := TurnAligned(p, s, w, m);
      if Turn(p, s, w).Go? {
        LoopAligned(p, s, Turn(p, s, w).next, m');
      }
    }
  }

  lemma {:induction false} TailDecides(p: bytes, pi: nat)
    requires pi <= |p|
    ensures OnlyStarsFrom(p, pi) <==> Matches(Tokens(p, pi), [])
    decreases |p| - pi
  {
    hide ClassFrom, OneMatches;
    if pi < |p| && p[pi] == STAR {
      assert Tokens(p, pi)[1..] == Tokens(p, pi + 1);
      TailDecides(p, pi + 1);
    }
  }

  lemma LoopDecides(p: bytes, s: bytes)
    requires Unmarked(s)
    ensures Loop(p, s, START) <==> Matches(Tokens(p), s)
  {
    hide Tokens, Matches, Loop;
    var m := Mark(0, 0, None, 0);
    assert Tokens(p)[0..] == Tokens(p) && s[0..] == s;
    LoopAligned(p, s, START, m);
  }

  // ---- On marked input some pattern is decided wrongly ----

  /** Up to position `k` the pattern spells the input, and the input is unmarked there. */
  ghost predicate Spells(p: bytes, s: bytes, k: nat) {
    k <= |p| && k <= |s| && p[..k] == s[..k] && Unmarked(s[..k])
  }

  lemma {:induction false} SpelledWalk(p: bytes, s: bytes, k: nat, j: nat)
    requires Spells(p, s, k) && j <= k
    ensures Loop(p, s, Walk(j, j, None, 0)) == Loop(p, s, Walk(k, k, None, 0))
    decreases k - j
  {
    if j < k {
      assert p[..k][j] == s[..k][j];
      assert Turn(p, s, Walk(j, j, None, 0)) == Go(Walk(j + 1, j + 1, None, 0));
      SpelledWalk(p, s, k, j + 1);
    }
  }

  lemma {:induction false} SpelledMatch(p: bytes, s: bytes, k: nat, j: nat)
    requires Spells(p, s, k) && j <= k && Matches(Tokens(p, k), s[k..])
    ensures Matches(Tokens(p, j), s[j..])
    decreases k - j
  {
    hide NextToken, OneMatches;
    if j < k {
      SpelledMatch(p, s, k, j + 1);
      assert p[..k][j] == s[..k][j] && s[..k][j] in s[..k];
      TokenKind(p, j, s[j]);
      NoStarMatches(NextToken(p, j).token, s[j]);
      var ts := Tokens(p, j);
      assert ts[1..] == Tokens(p, j + 1) && s[j..][0] == s[j] && s[j..][1..] == s[j + 1..];
    }
  }

  function FirstMark(s: bytes): (k: nat)
    requires !Unmarked(s)
    ensures k < |s| && (s[k] == STAR || s[k] == OPEN) && Unmarked(s[..k])
  {
    if s[0] == STAR || s[0] == OPEN then 0
    else
      assert s == [s[0]] + s[1..];
      var k := FirstMark(s[1..]);
      assert s[..k + 1] == [s[0]] + s[1..][..k];
      k + 1
  }

  /** The part of the witness that follows the unmarked prefix, chosen by the byte after the mark. */
  function Misread(s: bytes, k: nat): bytes
    requires k < |s|
  {
    if s[k] == STAR then (if k + 1 < |s| then [STAR] else [STAR, QUESTION])
    else if k + 1 < |s| && s[k + 1] == CARET then [OPEN, 90, DASH, 97, CLOSE, STAR]
    else [OPEN, CARET, 97, CLOSE, STAR]
  }

  lemma StarTakesAll(s: bytes)
    ensures Matches([Star], s)
  {
    StarSkips([Star], s, |s|);
  }

  lemma MisreadMatches(p: bytes, s: bytes, k: nat)
    requires k < |s| && k <= |p| && (s[k] == STAR || s[k] == OPEN) && p[k..] == Misread(s, k)
    ensures Matches(Tokens(p, k), s[k..])
  {
    var q := Misread(s, k);
    assert forall i :: k <= i < |p| ==> p[i] == q[i - k];
    var t := s[k..];
    StarTakesAll(t);
    StarTakesAll(t[1..]);
    if s[k] == STAR {
      if k + 1 < |s| {
        assert Tokens(p, k) == [Star];
      } else {
        assert Tokens(p, k + 1) == [Any];
        assert Tokens(p, k) == [Star, Any];
        assert [Star, Any][1..] == [Any] && [Any][1..] == [];
      }
    } else {
      var l := NextToken(p, k);
      ClassOf(p, k, s);
      assert Tokens(p, l.next) == [Star];
      assert Tokens(p, k)[1..] == [Star];
    }
  }

  /** The class of the witness contains the opening bracket itself. */
  lemma ClassOf(p: bytes, k: nat, s: bytes)
    requires k < |s| && k <= |p| && s[k] == OPEN && p[k..] == Misread(s, k)
    ensures k + 1 < |p| && NextToken(p, k).next == |p| - 1
    ensures NextToken(p, k).token.Class? && OneMatches(NextToken(p, k).token, OPEN)
  {
    var q := Misread(s, k);
    assert forall i :: k <= i < |p| ==> p[i] == q[i - k];
    if k + 1 < |s| && s[k + 1] == CARET {
      assert ClassFrom(p, k + 4) == ClassBody([], k + 4);
      assert NextToken(p, k).token.items[0] == Range(90, 97);
    } else {
      assert ClassFrom(p, k + 3) == ClassBody([], k + 3);
      assert NextToken(p, k).token.items == [Single(97)];
    }
  }

  lemma MisreadFails(p: bytes, s: bytes, k: nat)
    requires k < |s| && k <= |p| && (s[k] == STAR || s[k] == OPEN) && p[k..] == Misread(s, k)
    ensures !Loop(p, s, Walk(k, k, None, 0))
  {
    hide NextToken;
    var q := Misread(s, k);
    assert forall i :: k <= i < |p| ==> p[i] == q[i - k];
    assert Turn(p, s, Walk(k, k, None, 0)) == Go(Walk(k + 1, k + 1, None, 0));
    if k + 1 < |s| {
      assert Turn(p, s, Walk(k + 1, k + 1, None, 0)) == Fail;
    } else {
      assert !OnlyStarsFrom(p, k + 1);
    }
  }

  /**
   The loop compares a byte literally before it looks for a star or a class, so a key that contains
   one of those bytes is misread by some pattern. It decides every pattern exactly on the other keys.
   */
  lemma LoopDecidesIff(s: bytes)
    ensures Unmarked(s) <==> forall p :: Loop(p, s, START) == Matches(Tokens(p), s)
  {
    hide Loop, Matches, Tokens;
    if Unmarked(s) {
      forall p
        ensures Loop(p, s, START) == Matches(Tokens(p), s)
      {
        LoopDecides(p, s);
      }
    } else {
      var k := FirstMark(s);
      var p := s[..k] + Misread(s, k);
      assert p[..k] == s[..k] && p[k..] == Misread(s, k);
      MisreadMatches(p, s, k);
      SpelledMatch(p, s, k, 0);
      assert s[0..] == s;
      MisreadFails(p, s, k);
      SpelledWalk(p, s, k, 0);
    }
  }

  // ---- Patterns byte by byte ----

  lemma {:induction false} ClassShifts(a: bytes, q: bytes, i: nat)
    requires i <= |q|
    ensures var c, d := ClassFrom(a + q, |a| + i), ClassFrom(q, i); c.items == d.items && c.next == |a| + d.next
    decreases |q| - i
  {
    if i < |q| && q[i] != CLOSE {
      if i + 2 < |q| && q[i + 1] == DASH {
        ClassShifts(a, q, i + 3);
      } else {
        ClassShifts(a, q, i + 1);
      }
    }
  }

  lemma TokenShifts(a: bytes, q: bytes, i: nat)
    requires i < |q|
    ensures var l, m := NextToken(a + q, |a| + i), NextToken(q, i); l.token == m.token && l.next == |a| + m.next
  {
    hide ClassFrom;
    ClassShifts(a, q, ClassStart(q, i));
  }

  /** What stands in front of a token boundary does not matter. */
  lemma {:induction false} TokensShift(a: bytes, q: bytes, i: nat)
    requires i <= |q|
    ensures Tokens(a + q, |a| + i) == Tokens(q, i)
    decreases |q| - i
  {
    hide NextToken;
    if i < |q| {
      TokenShifts(a, q, i);
      TokensShift(a, q, NextToken(q, i).next);
    }
  }

  lemma LeadingToken(a: bytes, q: bytes, t: Token)
    requires a != [] && NextToken(a + q, 0) == Lexeme(t, |a|)
    ensures Tokens(a + q) == [t] + Tokens(q)
  {
    hide NextToken;
    TokensShift(a, q, 0);
  }

  /** The pattern matches the key. */
  predicate Accepts(q: bytes, s: bytes) { Matches(Tokens(q), s) }

  /** `?` takes any one byte, a plain byte itself, and `*` any number of bytes. */
  lemma MarksMean(b: byte, q: bytes, s: bytes)
    requires b != 91
    ensures Accepts([b] + q, s) <==>
            if b == 42 then exists n :: 0 <= n <= |s| && Accepts(q, s[n..])
            else s != [] && (b == 63 || s[0] == b) && Accepts(q, s[1..])
  {
    var t := if b == 63 then Any else if b == 42 then Star else Lit(b);
    LeadingToken([b], q, t);
    var ts := [t] + Tokens(q);
    assert ts[1..] == Tokens(q);
    if b == 42 {
      if Matches(ts, s) {
        var n := StarLands(ts, s);
        assert Accepts(q, s[n..]);
      }
      forall n | 0 <= n <= |s| && Accepts(q, s[n..])
        ensures Matches(ts, s)
      {
        StarSkips(ts, s, n);
      }
    }
  }

  /** A class of one byte or of one range, plain or negated. */
  lemma ClassesMean(lo: byte, hi: byte, negate: bool, range: bool, q: bytes, s: bytes)
    requires lo != 93 && (!negate ==> lo != 94)
    ensures var caret: bytes := if negate then [94] else [];
            var body: bytes := if range then [lo, 45, hi] else [lo];
            Accepts([91] + caret + body + [93] + q, s) <==>
            s != [] && (negate <==> !(if range then lo <= s[0] <= hi else s[0] == lo)) && Accepts(q, s[1..])
  {
    var caret: bytes := if negate then [94] else [];
    var body: bytes := if range then [lo, 45, hi] else [lo];
    var a := [91] + caret + body + [93];
    var items := if range then [Range(lo, hi)] else [Single(lo)];
    WholeClass(lo, hi, negate, range, q);
    LeadingToken(a, q, Class(negate, items));
    assert [91] + caret + body + [93] + q == a + q;
    assert ([Class(negate, items)] + Tokens(q))[1..] == Tokens(q);
    hide Tokens, NextToken;
    if s != [] {
      assert InClass(items, s[0]) <==> ItemMatches(items[0], s[0]);
    }
  }

  lemma WholeClass(lo: byte, hi: byte, negate: bool, range: bool, q: bytes)
    requires lo != 93 && (!negate ==> lo != 94)
    ensures var caret: bytes := if negate then [94] else [];
            var body: bytes := if range then [lo, 45, hi] else [lo];
            var a := [91] + caret + body + [93];
            NextToken(a + q, 0) == Lexeme(Class(negate, if range then [Range(lo, hi)] else [Single(lo)]), |a|)
  {
    var caret: bytes := if negate then [94] else [];
    var body: bytes := if range then [lo, 45, hi] else [lo];
    var a := [91] + caret + body + [93];
    var p, i := a + q, if negate then 2 else 1;
    assert ClassStart(p, 0) == i && p[i] == lo && p[|a| - 1] == 93;
    assert ClassFrom(p, |a| - 1) == ClassBody([], |a| - 1);
    if range {
      assert p[i + 1] == 45 && p[i + 2] == hi;
      assert [Range(lo, hi)] + [] == [Range(lo, hi)];
    } else {
      assert p[i + 1] == 93;
      assert [Single(lo)] + [] == [Single(lo)];
    }
  }

  function Singles(cs: bytes): (r: seq<ClassItem>)
    ensures |r| == |cs| && forall j :: 0 <= j < |cs| ==> r[j] == Single(cs[j])
  {
    if cs == [] then [] else [Single(cs[0])] + Singles(cs[1..])
  }

  lemma {:induction false} ListedFrom(p: bytes, i: nat, cs: bytes)
    requires 93 !in cs && 45 !in cs && i + |cs| < |p| && p[i..i + |cs|] == cs && p[i + |cs|] == 93
    ensures ClassFrom(p, i) == ClassBody(Singles(cs), i + |cs|)
    decreases |cs|
  {
    if cs != [] {
      var next := cs[1..];
      assert p[i] == p[i..i + |cs|][0] == cs[0];
      assert |cs| > 1 ==> p[i + 1] == p[i..i + |cs|][1] == cs[1];
      assert p[i + 1..i + 1 + |next|] == p[i..i + |cs|][1..] == next;
      ListedFrom(p, i + 1, next);
    }
  }

  /** A class that lists bytes takes exactly the listed ones, or with `^` exactly the others. */
  lemma ListedClass(cs: bytes, negate: bool, q: bytes, s: bytes)
    requires 93 !in cs && 45 !in cs && (!negate ==> cs != [] && cs[0] != 94)
    ensures var caret: bytes := if negate then [94] else [];
            Accepts([91] + caret + cs + [93] + q, s) <==>
            s != [] && (negate <==> s[0] !in cs) && Accepts(q, s[1..])
  {
    var caret: bytes := if negate then [94] else [];
    var a := [91] + caret + cs + [93];
    var p, i := a + q, if negate then 2 else 1;
    assert ClassStart(p, 0) == i;
    assert p[i..i + |cs|] == cs && p[i + |cs|] == 93;
    ListedFrom(p, i, cs);
    hide ClassFrom;
    LeadingToken(a, q, Class(negate, Singles(cs)));
    assert [91] + caret + cs + [93] + q == a + q;
    assert ([Class(negate, Singles(cs))] + Tokens(q))[1..] == Tokens(q);
    hide Tokens, NextToken;
    if s != [] {
      ListedIn(cs, s[0]);
    }
  }

  lemma ListedIn(cs: bytes, b: byte)
    ensures InClass(Singles(cs), b) <==> b in cs
  {
    if b in cs {
      var j :| 0 <= j < |cs| && cs[j] == b;
      assert ItemMatches(Singles(cs)[j], b);
    }
  }
}
