/**
  The string operations the query editors use (`find`, `Replace`, joining and splitting a list),
  and how they act on a text put together from known parts.
 */
module Text {

  predicate OccursAt(s: string, t: string, i: int) {
    0 <= i && i + |t| <= |s| && s[i..i + |t|] == t
  }

  ghost predicate Contains(s: string, t: string) {
    exists i :: OccursAt(s, t, i)
  }

  /** The first position at or after `k` where `t` occurs in `s`, or -1. */
  function FindFrom(s: string, t: string, k: nat): (r: int)
    ensures r != -1 ==> k <= r && OccursAt(s, t, r)
    ensures forall i :: k <= i && (r == -1 || i < r) ==> !OccursAt(s, t, i)
    decreases |s| - k
  {
    if k + |t| > |s| then -1
    else if s[k..k + |t|] == t then k
    else FindFrom(s, t, k + 1)
  }

  function Find(s: string, t: string): (r: int)
    ensures r == -1 <==> !Contains(s, t)
    ensures r != -1 ==> OccursAt(s, t, r) && forall i :: i < r ==> !OccursAt(s, t, i)
  {
    var r := FindFrom(s, t, 0);
    assert r != -1 ==> OccursAt(s, t, r);
    r
  }

  /**
    `wxString::Replace`: every occurrence of `old_`, left to right, replaced by `new_`; what is
    put in is not looked at again.  Nothing happens for an empty pattern.
   */
  function ReplaceAll(s: string, old_: string, new_: string): string {
    if |old_| == 0 then s
    else
      var i := Find(s, old_);
      if i == -1 then s
      else s[..i] + new_ + ReplaceAll(s[i + |old_|..], old_, new_)
  }

  function Join(xs: seq<string>, sep: string): string {
    if xs == [] then ""
    else if |xs| == 1 then xs[0]
    else xs[0] + sep + Join(xs[1..], sep)
  }

  lemma Assoc<T>(a: seq<T>, b: seq<T>, c: seq<T>)
    ensures a + b + c == a + (b + c)
  {
  }

  // ---- occurrences in a concatenation ----

  lemma OccursLeft(a: string, b: string, t: string, i: int)
    requires i + |t| <= |a|
    ensures OccursAt(a + b, t, i) <==> OccursAt(a, t, i)
  {
    if 0 <= i {
      assert (a + b)[i..i + |t|] == a[i..i + |t|];
    }
  }

  lemma OccursRight(a: string, b: string, t: string, i: int)
    requires i >= |a|
    ensures OccursAt(a + b, t, i) <==> OccursAt(b, t, i - |a|)
  {
    if i + |t| <= |a + b| {
      assert (a + b)[i..i + |t|] == b[i - |a|..i - |a| + |t|];
    }
  }

  lemma CrossingChar(a: string, b: string, t: string, i: int)
    requires OccursAt(a + b, t, i) && i <= |a| < i + |t|
    ensures b[0] in t
  {
    assert (a + b)[i..i + |t|][|a| - i] == b[0];
  }

  /** A pattern without the character `b[0]` does not occur across it. */
  lemma NotAcross(a: string, b: string, t: string, i: int)
    requires |b| > 0 && b[0] !in t
    requires OccursAt(a + b, t, i)
    ensures i + |t| <= |a| || i > |a| || |t| == 0
  {
    if i <= |a| < i + |t| {
      CrossingChar(a, b, t, i);
    }
  }

  /** The first occurrence of `t` in `a + b`, when `b[0]` separates. */
  lemma FindPast(a: string, b: string, t: string)
    requires |t| > 0 && |b| > 0 && b[0] !in t && !Contains(a, t)
    ensures Find(a + b, t) == if Contains(b, t) then |a| + Find(b, t) else -1
  {
    forall i | OccursAt(a + b, t, i) ensures i >= |a| && OccursAt(b, t, i - |a|) {
      NotAcross(a, b, t, i);
      if i + |t| <= |a| {
        OccursLeft(a, b, t, i);
      } else {
        OccursRight(a, b, t, i);
      }
    }
    if Contains(b, t) {
      OccursRight(a, b, t, |a| + Find(b, t));
    }
  }

  /** A part without the first character of the pattern holds no beginning of it. */
  lemma SkipLeft(a: string, b: string, t: string)
    requires |t| > 0 && t[0] !in a
    ensures Contains(a + b, t) <==> Contains(b, t)
    ensures Find(a + b, t) == if Contains(b, t) then |a| + Find(b, t) else -1
  {
    forall i | OccursAt(a + b, t, i) ensures i >= |a| && OccursAt(b, t, i - |a|) {
      assert (a + b)[i..i + |t|][0] == (a + b)[i];
      if i < |a| {
        assert false;
      }
      OccursRight(a, b, t, i);
    }
    if Contains(b, t) {
      OccursRight(a, b, t, |a| + Find(b, t));
    }
  }

  /** An occurrence in `b` is one in `a + b`. */
  lemma ContainsRight(a: string, b: string, t: string)
    requires Contains(b, t)
    ensures Contains(a + b, t)
  {
    var i :| OccursAt(b, t, i);
    OccursRight(a, b, t, |a| + i);
  }

  lemma ContainsLeft(a: string, b: string, t: string)
    requires Contains(a, t)
    ensures Contains(a + b, t)
  {
    var i :| OccursAt(a, t, i);
    OccursLeft(a, b, t, i);
  }

  /** With a separating character the occurrences are those of the two parts. */
  lemma ContainsParts(a: string, b: string, t: string)
    requires |t| > 0 && |b| > 0 && b[0] !in t
    ensures Contains(a + b, t) <==> Contains(a, t) || Contains(b, t)
  {
    if Contains(a, t) {
      ContainsLeft(a, b, t);
    } else {
      FindPast(a, b, t);
    }
  }

  /** What occurs in the first part is found there. */
  lemma FindLeft(a: string, b: string, t: string)
    requires Contains(a, t)
    ensures Find(a + b, t) == Find(a, t)
  {
    var i := Find(a, t);
    OccursLeft(a, b, t, i);
    forall j | j < i ensures !OccursAt(a + b, t, j) {
      OccursLeft(a, b, t, j);
    }
  }

  lemma ContainsChar(s: string, c: char)
    ensures Contains(s, [c]) <==> c in s
  {
    if c in s {
      var i :| 0 <= i < |s| && s[i] == c;
      assert OccursAt(s, [c], i);
    }
    forall i | OccursAt(s, [c], i) ensures c in s {
      assert s[i..i + 1][0] == s[i];
    }
  }

  /** Where a pattern occurs its parts do. */
  lemma OccursParts(s: string, t: string, u: string, i: int)
    requires OccursAt(s, t + u, i)
    ensures OccursAt(s, t, i) && OccursAt(s, u, i + |t|)
  {
    assert s[i..i + |t|] == s[i..i + |t + u|][..|t|] == t;
    assert s[i + |t|..i + |t| + |u|] == s[i..i + |t + u|][|t|..] == u;
  }

  lemma ContainsPart(s: string, t: string, u: string)
    requires Contains(s, t + u)
    ensures Contains(s, t) && Contains(s, u)
  {
    var i :| OccursAt(s, t + u, i);
    OccursParts(s, t, u, i);
  }

  // ---- replacement ----

  lemma SameFirstChar(s: string, t: string)
    requires t != "" && OccursAt(s, t, 0)
    ensures s != "" && s[0] == t[0]
  {
    assert s[0..|t|][0] == s[0];
  }

  /** A text that does not start like the pattern keeps its first character. */
  lemma ReplaceKeepsFirst(s: string, old_: string, new_: string)
    requires s != "" && old_ != "" && s[0] != old_[0]
    ensures ReplaceAll(s, old_, new_) != "" && ReplaceAll(s, old_, new_)[0] == s[0]
  {
    if OccursAt(s, old_, 0) {
      SameFirstChar(s, old_);
    }
  }

  /** The text up to the end of the first occurrence is replaced by itself; the rest on its own. */
  lemma ReplaceFirst(a: string, old_: string, b: string, new_: string)
    requires |old_| > 0 && Find(a + old_ + b, old_) == |a|
    ensures ReplaceAll(a + old_ + b, old_, new_) == a + new_ + ReplaceAll(b, old_, new_)
  {
    var s := a + old_ + b;
    assert s[..|a|] == a && s[|a| + |old_|..] == b;
  }

  /** The length of a text after its first replacement, from the length of what follows. */
  lemma ReplaceSize(s: string, old_: string, new_: string)
    requires |old_| > 0 && Find(s, old_) != -1
    ensures
      var i := Find(s, old_);
      && i + |old_| <= |s|
      && |ReplaceAll(s, old_, new_)| == i + |new_| + |ReplaceAll(s[i + |old_|..], old_, new_)|
  {
  }

  lemma {:induction false} ReplaceLength(s: string, old_: string, new_: string)
    ensures |new_| >= |old_| ==> |ReplaceAll(s, old_, new_)| >= |s|
    ensures |new_| <= |old_| ==> |ReplaceAll(s, old_, new_)| <= |s|
    decreases |s|
  {
    if |old_| > 0 && Find(s, old_) != -1 {
      ReplaceSize(s, old_, new_);
      ReplaceLength(s[Find(s, old_) + |old_|..], old_, new_);
    }
  }

  lemma Differs(a: string, u: string, b: string, s: string, v: string)
    requires OccursAt(s, v, |a|) && |u| == |v| && u != v
    ensures a + u + b != s
  {
    assert (a + u + b)[|a|..|a| + |u|] == u;
  }

  lemma ReplaceResizes(s: string, old_: string, new_: string)
    requires |old_| > 0 && |old_| != |new_| && Find(s, old_) != -1
    ensures |ReplaceAll(s, old_, new_)| != |s|
  {
    ReplaceSize(s, old_, new_);
    ReplaceLength(s[Find(s, old_) + |old_|..], old_, new_);
  }

  lemma ReplaceFound(s: string, old_: string, new_: string)
    requires |old_| > 0 && old_ != new_ && Find(s, old_) != -1
    ensures ReplaceAll(s, old_, new_) != s
  {
    var i := Find(s, old_);
    if |new_| == |old_| {
      Differs(s[..i], new_, ReplaceAll(s[i + |old_|..], old_, new_), s, old_);
    } else {
      ReplaceResizes(s, old_, new_);
    }
  }

  /** Replacing by something else leaves a text alone exactly when the pattern is not in it. */
  lemma ReplaceNothing(s: string, old_: string, new_: string)
    requires |old_| > 0 && old_ != new_
    ensures ReplaceAll(s, old_, new_) == s <==> !Contains(s, old_)
  {
    if Find(s, old_) != -1 {
      ReplaceFound(s, old_, new_);
    }
  }

  /** Replacing all turns into replacing the first exactly when the pattern does not come again. */
  lemma ReplaceSole(a: string, old_: string, b: string, new_: string)
    requires |old_| > 0 && old_ != new_ && Find(a + old_ + b, old_) == |a|
    ensures ReplaceAll(a + old_ + b, old_, new_) == a + new_ + b <==> !Contains(b, old_)
  {
    ReplaceFirst(a, old_, b, new_);
    ReplaceNothing(b, old_, new_);
    var r := ReplaceAll(b, old_, new_);
    assert r == (a + new_ + r)[|a + new_|..];
    assert b == (a + new_ + b)[|a + new_|..];
  }

  /** The same when nothing before the pattern could begin it. */
  lemma ReplaceAfter(a: string, old_: string, b: string, new_: string)
    requires |old_| > 0 && old_ != new_ && old_[0] !in a
    ensures ReplaceAll(a + old_ + b, old_, new_) == a + new_ + b <==> !Contains(b, old_)
  {
    SkipLeft(a, old_ + b, old_);
    assert a + (old_ + b) == a + old_ + b;
    assert OccursAt(old_ + b, old_, 0);
    ReplaceSole(a, old_, b, new_);
  }

  /** The same for a replacement that adds `more` behind the pattern. */
  lemma ReplaceExtend(a: string, old_: string, b: string, more: string)
    requires |old_| > 0 && |more| > 0 && old_[0] !in a
    ensures ReplaceAll(a + old_ + b, old_, old_ + more) == a + (old_ + more) + b <==> !Contains(b, old_)
  {
    assert |old_ + more| > |old_|;
    ReplaceAfter(a, old_, b, old_ + more);
  }

  // ---- joining ----

  lemma {:induction false} JoinAppend(xs: seq<string>, x: string, sep: string)
    requires xs != []
    ensures Join(xs + [x], sep) == Join(xs, sep) + sep + x
  {
    if |xs| > 1 {
      JoinAppend(xs[1..], x, sep);
      assert (xs + [x])[1..] == xs[1..] + [x];
    } else {
      assert (xs + [x])[1..] == [x];
    }
  }

  /** The separator of a joined list is found at its own character. */
  lemma FirstSeparator(x: string, sep: string, rest: string, c: char)
    requires c !in x && c in sep
    ensures Contains(sep, [c]) && Find(x + sep + rest, [c]) == |x| + Find(sep, [c])
  {
    ContainsChar(sep, c);
    SkipLeft(x, sep + rest, [c]);
    FindLeft(sep, rest, [c]);
    ContainsLeft(sep, rest, [c]);
    Assoc(x, sep, rest);
  }

  /** The character does not occur in the texts. */
  predicate FreeOf(xs: seq<string>, c: char) {
    forall i :: 0 <= i < |xs| ==> c !in xs[i]
  }

  // ---- splitting ----

  /** The parts of a text between the occurrences of a separator. */
  function Pieces(s: string, sep: string): (pieces: seq<string>)
    requires sep != ""
    ensures pieces != []
  {
    var i := Find(s, sep);
    if i == -1 then [s] else [s[..i]] + Pieces(s[i + |sep|..], sep)
  }

  lemma CharInside(s: string, t: string, j: int, c: char, k: nat)
    requires OccursAt(s, t, j) && OccursAt(t, [c], k)
    ensures OccursAt(s, [c], j + k)
  {
    assert t == t[..k] + ([c] + t[k + 1..]);
    OccursParts(s, t[..k], [c] + t[k + 1..], j);
    OccursParts(s, [c], t[k + 1..], j + k);
  }

  /** The separator behind a text without one of its characters. */
  lemma FindSeparator(x: string, sep: string, rest: string, c: char)
    requires c !in x && c in sep
    ensures Find(x + sep + rest, sep) == |x|
  {
    var s := x + sep + rest;
    FirstSeparator(x, sep, rest, c);
    assert OccursAt(s, sep, |x|);
    forall j | OccursAt(s, sep, j) ensures j >= |x| {
      CharInside(s, sep, j, c, Find(sep, [c]));
    }
  }

  lemma NotWithout(x: string, sep: string, c: char)
    requires c !in x && c in sep
    ensures !Contains(x, sep)
  {
    var k :| 0 <= k < |sep| && sep[k] == c;
    assert sep == sep[..k] + [c] + sep[k + 1..];
    ContainsChar(x, c);
    if Contains(x, sep) {
      ContainsPart(x, sep[..k] + [c], sep[k + 1..]);
      ContainsPart(x, sep[..k], [c]);
    }
  }

  lemma FirstPiece(x: string, sep: string, rest: string, c: char)
    requires c !in x && c in sep
    ensures Pieces(x + sep + rest, sep) == [x] + Pieces(rest, sep)
  {
    FindSeparator(x, sep, rest, c);
    assert (x + sep + rest)[..|x|] == x && (x + sep + rest)[|x| + |sep|..] == rest;
  }

  lemma OnePiece(x: string, sep: string, c: char)
    requires c !in x && c in sep
    ensures Pieces(x, sep) == [x]
  {
    NotWithout(x, sep, c);
  }

  lemma JoinHead(x: string, xs: seq<string>, sep: string)
    requires xs != []
    ensures Join([x] + xs, sep) == x + sep + Join(xs, sep)
  {
    assert ([x] + xs)[1..] == xs;
  }

  lemma PiecesMore(x: string, rest: seq<string>, sep: string, c: char)
    requires rest != [] && c !in x && c in sep && Pieces(Join(rest, sep), sep) == rest
    ensures Pieces(Join([x] + rest, sep), sep) == [x] + rest
  {
    JoinHead(x, rest, sep);
    FirstPiece(x, sep, Join(rest, sep), c);
  }

  /** Splitting what has been joined gives the texts back. */
  lemma {:induction false} PiecesJoin(xs: seq<string>, sep: string, c: char)
    requires xs != [] && c in sep && FreeOf(xs, c)
    ensures Pieces(Join(xs, sep), sep) == xs
    decreases |xs|
  {
    if |xs| == 1 {
      OnePiece(xs[0], sep, c);
    } else {
      PiecesJoin(xs[1..], sep, c);
      PiecesMore(xs[0], xs[1..], sep, c);
      assert xs == [xs[0]] + xs[1..];
    }
  }

  /** So texts without a character of the separator are told apart in the joined list. */
  lemma JoinInjective(xs: seq<string>, ys: seq<string>, sep: string, c: char)
    requires xs != [] && ys != [] && c in sep && FreeOf(xs, c) && FreeOf(ys, c) && Join(xs, sep) == Join(ys, sep)
    ensures xs == ys
  {
    PiecesJoin(xs, sep, c);
    PiecesJoin(ys, sep, c);
  }

  lemma {:induction false} PiecesFree(s: string, c: char)
    ensures FreeOf(Pieces(s, [c]), c)
    decreases |s|
  {
    var i := Find(s, [c]);
    if i == -1 {
      ContainsChar(s, c);
    } else {
      PiecesFree(s[i + 1..], c);
      forall k | 0 <= k < i ensures s[..i][k] != c {
        assert !OccursAt(s, [c], k);
        assert s[k..k + 1] == [s[k]];
      }
    }
  }

  /** For a single character exactly when it is in none of the texts. */
  lemma PiecesExactly(xs: seq<string>, c: char)
    requires xs != []
    ensures Pieces(Join(xs, [c]), [c]) == xs <==> FreeOf(xs, c)
  {
    PiecesFree(Join(xs, [c]), c);
    if FreeOf(xs, c) {
      PiecesJoin(xs, [c], c);
    }
  }

  lemma FirstReplaced(s: string, old_: string, new_: string)
    requires old_ != "" && Find(s, old_) != -1
    ensures
      var i := Find(s, old_);
      var rest := s[i + |old_|..];
      && |rest| < |s|
      && ReplaceAll(s, old_, new_) == s[..i] + new_ + ReplaceAll(rest, old_, new_)
      && Pieces(s, old_) == [s[..i]] + Pieces(rest, old_)
  {
  }

  lemma JoinedStep(s: string, old_: string, new_: string, rest: string)
    requires old_ != "" && Find(s, old_) != -1 && rest == s[Find(s, old_) + |old_|..]
    requires ReplaceAll(rest, old_, new_) == Join(Pieces(rest, old_), new_)
    ensures ReplaceAll(s, old_, new_) == Join(Pieces(s, old_), new_)
  {
    FirstReplaced(s, old_, new_);
    JoinHead(s[..Find(s, old_)], Pieces(rest, old_), new_);
  }

  /** Replacing all is splitting and joining again. */
  lemma {:induction false} ReplaceJoins(s: string, old_: string, new_: string)
    requires old_ != ""
    ensures ReplaceAll(s, old_, new_) == Join(Pieces(s, old_), new_)
    decreases |s|
  {
    if Find(s, old_) == -1 {
    } else {
      var rest := s[Find(s, old_) + |old_|..];
      ReplaceJoins(rest, old_, new_);
      JoinedStep(s, old_, new_, rest);
    }
  }
}
