// Wildcard rules matched in linear time (filter/parser.py, class Glob).

module Globs {
  /** ASCII lower case. */
  function LowerChar(c: char): char {
    if 'A' <= c <= 'Z' then (c as int + 32) as char else c
  }

  function Lower(s: string): (l: string)
    ensures |l| == |s|
  {
    seq(|s|, i requires 0 <= i < |s| => LowerChar(s[i]))
  }

  // ---- What a glob means ----

  /** `*` stands for any characters, or none; any other character for itself. */
  predicate Wild(pattern: string, s: string)
    decreases |pattern| + |s|
  {
    if pattern == "" then s == ""
    else if pattern[0] == '*' then Wild(pattern[1..], s) || (s != "" && Wild(pattern, s[1..]))
    else s != "" && s[0] == pattern[0] && Wild(pattern[1..], s[1..])
  }

  // ---- The matcher ----

  /** `split("*")`. */
  function Split(pattern: string): (parts: seq<string>)
    ensures parts != []
    ensures '*' in pattern <==> |parts| >= 2
  {
    if pattern == "" then [""]
    else
      var rest := Split(pattern[1..]);
      if pattern[0] == '*' then [""] + rest
      else [[pattern[0]] + rest[0]] + rest[1..]
  }

  function NonEmpty(parts: seq<string>): seq<string> {
    if parts == [] then []
    else (if parts[0] == "" then [] else [parts[0]]) + NonEmpty(parts[1..])
  }

  predicate Occurs(piece: string, s: string, at: nat) {
    at + |piece| <= |s| && s[at..at + |piece|] == piece
  }

  /** `s.find(piece, pos, stop)`: the leftmost occurrence within `[pos, stop)`; -1 if none. */
  function Find(s: string, piece: string, pos: nat, stop: nat): (at: int)
    requires stop <= |s|
    ensures at == -1 || (pos <= at && at + |piece| <= stop && Occurs(piece, s, at))
    ensures forall i: nat :: pos <= i && i + |piece| <= stop && (at == -1 || i < at) ==> !Occurs(piece, s, i)
    decreases stop - pos
  {
    if pos + |piece| > stop then -1
    else if Occurs(piece, s, pos) then pos
    else if pos + |piece| == stop then -1
    else Find(s, piece, pos + 1, stop)
  }

  datatype Glob = Glob(pattern: string, head: string, mid: seq<string>, tail: string) {
    /** The pieces are those of the pattern. */
    predicate Compiled() {
      var parts := Split(pattern);
      && head == parts[0] && tail == parts[|parts| - 1]
      && (|parts| >= 2 ==> mid == NonEmpty(parts[1..|parts| - 1]))
    }

    /** `search`. */
    method Search(name: string) returns (found: bool)
      requires Compiled()
      ensures found == Wild(pattern, Lower(name))
    {
      hide Wild, Split, NonEmpty, Find, Reach;
      var s := Lower(name);
      if '*' !in pattern {
        PlainPattern(pattern, s);
        return s == pattern;
      }
      WildIsReach(pattern, s);
      if |s| < |head| + |tail| || !(head <= s) || !(tail == s[|s| - |tail|..]) {
        if |s| < |head| + |tail| || tail != s[|s| - |tail|..] {
          OnlyWithTail(mid, tail, s, |head|);
        }
        return false;
      }
      found := SearchMid(s);
    }

    /** The middle pieces, leftmost each, between head and tail. */
    method SearchMid(s: string) returns (found: bool)
      requires |head| + |tail| <= |s| && tail == s[|s| - |tail|..]
      ensures found == Reach(mid, tail, s, |head|)
    {
      hide Find, Reach;
      var pos, stop := |head|, |s| - |tail|;
      for i := 0 to |mid|
        invariant |head| <= pos <= stop
        invariant Reach(mid, tail, s, |head|) == Reach(mid[i..], tail, s, pos)
      {
        var at := Find(s, mid[i], pos, stop);
        GreedyIsEnough(mid[i..], tail, s, pos);
        if at < 0 {
          return false;
        }
        assert mid[i..][1..] == mid[i + 1..];
        pos := at + |mid[i]|;
      }
      NothingLeft(mid[|mid|..], tail, s, pos);
      return true;
    }
  }

  function MakeGlob(glob: string): (g: Glob)
    ensures g.Compiled()
  {
    hide Split, NonEmpty;
    var pattern := Lower(glob);
    var parts := Split(pattern);
    Glob(pattern, parts[0], if |parts| < 2 then [] else NonEmpty(parts[1..|parts| - 1]), parts[|parts| - 1])
  }

  /** Matching a rule text against a name, both in any letter case. */
  method Match(glob: string, name: string) returns (found: bool)
    ensures found <==> Wild(Lower(glob), Lower(name))
  {
    found := MakeGlob(glob).Search(name);
  }

  // ---- The pieces of a pattern ----

  function Join(parts: seq<string>): string
    requires parts != []
  {
    if |parts| == 1 then parts[0] else parts[0] + "*" + Join(parts[1..])
  }

  predicate StarFree(parts: seq<string>) {
    forall i :: 0 <= i < |parts| ==> '*' !in parts[i]
  }

  lemma {:induction false} JoinSplit(pattern: string)
    ensures Join(Split(pattern)) == pattern && StarFree(Split(pattern))
  {
    if pattern != "" {
      var parts, rest := Split(pattern), Split(pattern[1..]);
      JoinSplit(pattern[1..]);
      if pattern[0] == '*' {
        assert parts[1..] == rest;
        assert Join(parts) == "" + "*" + Join(rest);
      } else {
        assert parts[1..] == rest[1..];
        assert Join(parts) == [pattern[0]] + Join(rest);
      }
      assert pattern == [pattern[0]] + pattern[1..];
    }
  }

  lemma {:induction false} PlainPattern(pattern: string, s: string)
    requires '*' !in pattern
    ensures Wild(pattern, s) <==> s == pattern
  {
    LiteralFirst(pattern, "", s);
    assert pattern + "" == pattern;
  }

  /** A literal in front of a pattern must be in front of the string. */
  lemma {:induction false} LiteralFirst(lit: string, rest: string, s: string)
    requires '*' !in lit
    ensures Wild(lit + rest, s) <==> lit <= s && Wild(rest, s[|lit|..])
    decreases |lit|
  {
    if lit == "" {
      assert lit + rest == rest && s[0..] == s;
    } else {
      assert (lit + rest)[0] == lit[0] && (lit + rest)[1..] == lit[1..] + rest;
      if s != "" && s[0] == lit[0] {
        LiteralFirst(lit[1..], rest, s[1..]);
        assert lit <= s <==> lit[1..] <= s[1..] by {
          assert lit == [lit[0]] + lit[1..] && s == [s[0]] + s[1..];
        }
        if lit <= s {
          assert s[1..][|lit[1..]|..] == s[|lit|..];
        }
      }
    }
  }

  /** A star in front of a pattern may skip any prefix. */
  lemma {:induction false} StarSkips(rest: string, s: string, pos: nat)
    requires pos <= |s|
    ensures Wild("*" + rest, s[pos..]) <==> exists k: nat :: pos <= k <= |s| && Wild(rest, s[k..])
    decreases |s| - pos
  {
    var p, u := "*" + rest, s[pos..];
    assert p[0] == '*' && p[1..] == rest;
    if u == "" {
      assert forall k: nat :: pos <= k <= |s| ==> s[k..] == u;
    } else {
      assert u[1..] == s[pos + 1..];
      StarSkips(rest, s, pos + 1);
      if Wild(rest, u) {
        assert pos <= pos <= |s| && Wild(rest, s[pos..]);
      }
    }
  }

  // ---- Where the pieces may go ----

  /** From `pos` on, `s` is: anything, the first piece, anything, the next, ...,
    * anything, and `tail` at the very end. */
  ghost predicate Reach(pieces: seq<string>, tail: string, s: string, pos: nat)
    decreases |pieces|
  {
    if pieces == [] then pos + |tail| <= |s| && s[|s| - |tail|..] == tail
    else exists at: nat :: pos <= at && Occurs(pieces[0], s, at) && Reach(pieces[1..], tail, s, at + |pieces[0]|)
  }

  lemma {:induction false} ReachNeedsTail(pieces: seq<string>, tail: string, s: string, pos: nat)
    requires Reach(pieces, tail, s, pos)
    ensures pos + |tail| <= |s| && s[|s| - |tail|..] == tail
    decreases |pieces|
  {
    if pieces != [] {
      var at: nat :| pos <= at && Occurs(pieces[0], s, at) && Reach(pieces[1..], tail, s, at + |pieces[0]|);
      ReachNeedsTail(pieces[1..], tail, s, at + |pieces[0]|);
    }
  }

  lemma {:induction false} OnlyWithTail(pieces: seq<string>, tail: string, s: string, pos: nat)
    requires pos + |tail| > |s| || s[|s| - |tail|..] != tail
    ensures !Reach(pieces, tail, s, pos)
  {
    if Reach(pieces, tail, s, pos) {
      ReachNeedsTail(pieces, tail, s, pos);
    }
  }

  lemma {:induction false} NothingLeft(pieces: seq<string>, tail: string, s: string, pos: nat)
    requires pieces == [] && pos + |tail| <= |s| && s[|s| - |tail|..] == tail
    ensures Reach(pieces, tail, s, pos)
  {
  }

  /** Starting further left never hurts. */
  lemma {:induction false} ReachFromLeft(pieces: seq<string>, tail: string, s: string, left: nat, pos: nat)
    requires Reach(pieces, tail, s, pos) && left <= pos
    ensures Reach(pieces, tail, s, left)
  {
    if pieces != [] {
      var at: nat :| pos <= at && Occurs(pieces[0], s, at) && Reach(pieces[1..], tail, s, at + |pieces[0]|);
      assert left <= at;
    }
  }

  /** Taking the leftmost occurrence of the next piece loses no match. */
  lemma {:induction false} GreedyIsEnough(pieces: seq<string>, tail: string, s: string, pos: nat)
    requires pieces != [] && pos + |tail| <= |s|
    ensures var at := Find(s, pieces[0], pos, |s| - |tail|);
            Reach(pieces, tail, s, pos) <==> at >= 0 && Reach(pieces[1..], tail, s, at + |pieces[0]|)
  {
    var at := Find(s, pieces[0], pos, |s| - |tail|);
    if Reach(pieces, tail, s, pos) {
      var some: nat :| pos <= some && Occurs(pieces[0], s, some) && Reach(pieces[1..], tail, s, some + |pieces[0]|);
      ReachNeedsTail(pieces[1..], tail, s, some + |pieces[0]|);
      ReachFromLeft(pieces[1..], tail, s, at + |pieces[0]|, some + |pieces[0]|);
    }
  }

  /** Empty pieces, from stars in a row, can be left out. */
  lemma {:induction false} DropEmpty(pieces: seq<string>, tail: string, s: string, pos: nat)
    ensures Reach(NonEmpty(pieces), tail, s, pos) <==> Reach(pieces, tail, s, pos)
    decreases |pieces|
  {
    if pieces != [] {
      var kept := NonEmpty(pieces[1..]);
      forall at: nat
        ensures Reach(kept, tail, s, at) <==> Reach(pieces[1..], tail, s, at)
      {
        DropEmpty(pieces[1..], tail, s, at);
      }
      if pieces[0] == "" {
        assert NonEmpty(pieces) == kept;
        EmptyPiece(pieces, tail, s, pos);
      } else {
        assert NonEmpty(pieces)[1..] == kept;
      }
    }
  }

  lemma {:induction false} EmptyPiece(pieces: seq<string>, tail: string, s: string, pos: nat)
    requires pieces != [] && pieces[0] == ""
    ensures Reach(pieces, tail, s, pos) <==> Reach(pieces[1..], tail, s, pos)
  {
    if Reach(pieces, tail, s, pos) {
      var at: nat :| pos <= at && Occurs(pieces[0], s, at) && Reach(pieces[1..], tail, s, at + |pieces[0]|);
      ReachFromLeft(pieces[1..], tail, s, pos, at);
    }
    if Reach(pieces[1..], tail, s, pos) {
      ReachNeedsTail(pieces[1..], tail, s, pos);
      assert Occurs(pieces[0], s, pos);
    }
  }

  /** A star and the pieces behind it. */
  lemma {:induction false} StarThenPieces(parts: seq<string>, s: string, pos: nat)
    requires parts != [] && StarFree(parts) && pos <= |s|
    ensures Wild("*" + Join(parts), s[pos..]) <==> Reach(parts[..|parts| - 1], parts[|parts| - 1], s, pos)
    decreases |parts|
  {
    StarSkips(Join(parts), s, pos);
    if |parts| == 1 {
      forall k: nat | pos <= k <= |s|
        ensures Wild(Join(parts), s[k..]) <==> s[k..] == parts[0]
      {
        PlainPattern(parts[0], s[k..]);
      }
      assert forall k: nat :: pos <= k <= |s| && s[k..] == parts[0] ==> k == |s| - |parts[0]|;
    } else {
      forall k: nat | pos <= k <= |s|
        ensures Wild(Join(parts), s[k..]) <==>
                Occurs(parts[0], s, k) && Reach(parts[1..|parts| - 1], parts[|parts| - 1], s, k + |parts[0]|)
      {
        PieceThenStar(parts, s, k);
      }
      assert parts[..|parts| - 1][1..] == parts[1..|parts| - 1];
      assert parts[..|parts| - 1][0] == parts[0];
    }
  }

  lemma {:induction false} PieceThenStar(parts: seq<string>, s: string, k: nat)
    requires |parts| >= 2 && StarFree(parts) && k <= |s|
    ensures Wild(Join(parts), s[k..]) <==>
            Occurs(parts[0], s, k) && Reach(parts[1..|parts| - 1], parts[|parts| - 1], s, k + |parts[0]|)
    decreases |parts|, 0
  {
    var rest := parts[1..];
    assert Join(parts) == parts[0] + ("*" + Join(rest));
    LiteralFirst(parts[0], "*" + Join(rest), s[k..]);
    assert parts[0] <= s[k..] <==> Occurs(parts[0], s, k);
    if Occurs(parts[0], s, k) {
      assert s[k..][|parts[0]|..] == s[k + |parts[0]|..];
      StarThenPieces(rest, s, k + |parts[0]|);
      assert rest[..|rest| - 1] == parts[1..|parts| - 1];
    }
  }

  /** A whole pattern with a star: head, pieces, tail. */
  lemma {:induction false} WildIsReach(pattern: string, s: string)
    requires '*' in pattern
    ensures var parts := Split(pattern);
            Wild(pattern, s) <==>
            parts[0] <= s && Reach(NonEmpty(parts[1..|parts| - 1]), parts[|parts| - 1], s, |parts[0]|)
  {
    var parts := Split(pattern);
    JoinSplit(pattern);
    PieceThenStar(parts, s, 0);
    assert s[0..] == s;
    DropEmpty(parts[1..|parts| - 1], parts[|parts| - 1], s, |parts[0]|);
  }
}
