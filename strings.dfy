/** The JavaScript string operations the client relies on: `split`, `join`,
    `includes`, `replace` of a single character (first occurrence or all),
    `trim` and `slice`, over strings of Unicode scalar values. */
module Strings {

  predicate IsPrefix(p: string, s: string)
  {
    |p| <= |s| && s[..|p|] == p
  }

  /** `s.includes(sub)`. */
  predicate Contains(s: string, sub: string)
    decreases |s|
  {
    IsPrefix(sub, s) || (|s| > 0 && Contains(s[1..], sub))
  }

  /** `s.split(sep)` for a non-empty separator: the pieces between the
      non-overlapping occurrences of `sep`, found left to right.  Always at
      least one piece; `"".split(sep)` is `[""]`. */
  function Split(s: string, sep: string): (parts: seq<string>)
    requires |sep| > 0
    ensures |parts| >= 1
    decreases |s|
  {
    if |s| < |sep| then [s]
    else if s[..|sep|] == sep then [""] + Split(s[|sep|..], sep)
    else
      var rest := Split(s[1..], sep);
      [[s[0]] + rest[0]] + rest[1..]
  }

  /** `parts.join(sep)`; the empty array joins to "". */
  function Join(parts: seq<string>, sep: string): string
  {
    if |parts| == 0 then ""
    else if |parts| == 1 then parts[0]
    else parts[0] + sep + Join(parts[1..], sep)
  }

  /** `s.replace(c, '')` with a one-character string pattern: only the first
      occurrence goes. */
  function RemoveFirst(s: string, c: char): string
  {
    if |s| == 0 then ""
    else if s[0] == c then s[1..]
    else [s[0]] + RemoveFirst(s[1..], c)
  }

  /** `s.replace(/c/g, '')`: every occurrence goes. */
  function RemoveAll(s: string, c: char): string
  {
    if |s| == 0 then ""
    else if s[0] == c then RemoveAll(s[1..], c)
    else [s[0]] + RemoveAll(s[1..], c)
  }

  /** The characters `trim` and `parseInt` skip: ECMAScript WhiteSpace (tab,
      vertical tab, form feed, space, no-break space, byte order mark and the
      other space separators) and LineTerminator (LF, CR, U+2028, U+2029). */
  predicate IsJsSpace(c: char)
  {
    c == '\t' || c == '\n' || c == '\U{B}' || c == '\U{C}' || c == '\r' || c == ' '
    || c == '\U{A0}' || c == '\U{1680}' || ('\U{2000}' <= c <= '\U{200A}')
    || c == '\U{2028}' || c == '\U{2029}' || c == '\U{202F}' || c == '\U{205F}'
    || c == '\U{3000}' || c == '\U{FEFF}'
  }

  function TrimStart(s: string): (r: string)
    ensures |r| <= |s| && r == s[|s| - |r|..]
    ensures |r| > 0 ==> !IsJsSpace(r[0])
  {
    if |s| > 0 && IsJsSpace(s[0]) then TrimStart(s[1..]) else s
  }

  function TrimEnd(s: string): (r: string)
    ensures |r| <= |s| && r == s[..|r|]
    ensures |r| > 0 ==> !IsJsSpace(r[|r| - 1])
  {
    if |s| > 0 && IsJsSpace(s[|s| - 1]) then TrimEnd(s[..|s| - 1]) else s
  }

  /** Leading white space makes no difference to `TrimStart`. */
  lemma {:induction false} TrimStartSkips(w: string, s: string)
    requires forall i :: 0 <= i < |w| ==> IsJsSpace(w[i])
    ensures TrimStart(w + s) == TrimStart(s)
    decreases |w|
  {
    if |w| > 0 {
      assert (w + s)[0] == w[0];
      assert (w + s)[1..] == w[1..] + s;
      TrimStartSkips(w[1..], s);
    } else {
      assert w + s == s;
    }
  }

  /** `s.trim()`. */
  function Trim(s: string): string
  {
    TrimEnd(TrimStart(s))
  }

  /** `s.slice(k)` for a non-negative start. */
  function Slice(s: string, k: nat): string
  {
    if k <= |s| then s[k..] else ""
  }

  /** The last element, what `pop()` returns on a non-empty array. */
  function Last<T>(s: seq<T>): T
    requires |s| > 0
  {
    s[|s| - 1]
  }

  /** `parts.indexOf(x)`: the first position holding `x`, or -1. */
  function IndexOf(parts: seq<string>, x: string): (i: int)
    ensures -1 <= i < |parts|
    ensures i == -1 <==> x !in parts
    ensures i >= 0 ==> parts[i] == x && x !in parts[..i]
  {
    if |parts| == 0 then -1
    else if parts[0] == x then 0
    else
      var j := IndexOf(parts[1..], x);
      if j == -1 then -1
      else
        assert parts[..j + 1] == [parts[0]] + parts[1..][..j];
        j + 1
  }

  /** Each piece followed by a newline, in order: what the loops
      `text += ${p.text()}\n` build. */
  function Lines(ps: seq<string>): string
  {
    if |ps| == 0 then "" else ps[0] + "\n" + Lines(ps[1..])
  }

  /** How many times `c` occurs in `s`. */
  function Count(s: string, c: char): nat
  {
    if |s| == 0 then 0 else (if s[0] == c then 1 else 0) + Count(s[1..], c)
  }

  /** The occurrences of `c` in all the pieces together. */
  function CountAll(parts: seq<string>, c: char): nat
  {
    if |parts| == 0 then 0 else Count(parts[0], c) + CountAll(parts[1..], c)
  }

  // ---------------------------------------------------------------------
  // Properties

  /** Joining the pieces of a split with the same separator gives the
      string back, for every string and separator. */
  lemma {:induction false} JoinSplit(s: string, sep: string)
    requires |sep| > 0
    ensures Join(Split(s, sep), sep) == s
    decreases |s|
  {
    if |s| < |sep| {
    } else if s[..|sep|] == sep {
      JoinSplit(s[|sep|..], sep);
      JoinEmptyFirst(Split(s[|sep|..], sep), sep);
      assert s == sep + s[|sep|..];
    } else {
      JoinSplit(s[1..], sep);
      JoinPrepend(s[0], Split(s[1..], sep), sep);
      assert s == [s[0]] + s[1..];
    }
  }

  /** An empty first part leaves just the separator in front. */
  lemma JoinEmptyFirst(parts: seq<string>, sep: string)
    requires |parts| >= 1
    ensures Join([""] + parts, sep) == sep + Join(parts, sep)
  {
    assert ([""] + parts)[1..] == parts;
    assert "" + sep == sep;
  }

  /** Putting a character in front of the first part puts it in front of the
      joined text. */
  lemma JoinPrepend(c: char, parts: seq<string>, sep: string)
    requires |parts| >= 1
    ensures Join([[c] + parts[0]] + parts[1..], sep) == [c] + Join(parts, sep)
  {
    var q := [[c] + parts[0]] + parts[1..];
    assert q[1..] == parts[1..];
    if |parts| > 1 {
      var tail := Join(parts[1..], sep);
      ConcatAssoc([c] + parts[0], sep, tail);
      ConcatAssoc([c], parts[0], sep + tail);
      ConcatAssoc(parts[0], sep, tail);
    }
  }

  /** A string without the separator character splits into itself. */
  lemma {:induction false} SplitWithout(s: string, c: char)
    requires c !in s
    ensures Split(s, [c]) == [s]
    decreases |s|
  {
    if |s| >= 1 {
      assert s[..1] == [s[0]];
      SplitWithout(s[1..], c);
      assert [s[0]] + s[1..] == s;
    }
  }

  /** Splitting `p + c + t` on `c`, where `p` has no `c`, yields `p`
      followed by the pieces of `t`. */
  lemma {:induction false} SplitAfterPiece(p: string, c: char, t: string)
    requires c !in p
    ensures Split(p + [c] + t, [c]) == [p] + Split(t, [c])
    decreases |p|
  {
    var s := p + [c] + t;
    if |p| == 0 {
      assert s == [c] + t;
      assert s[..1] == [c] && s[1..] == t;
    } else {
      assert s[..1] == [p[0]];
      assert s[1..] == p[1..] + [c] + t;
      SplitAfterPiece(p[1..], c, t);
      assert [p[0]] + p[1..] == p;
    }
  }

  /** The first piece of a split is everything before the first separator. */
  lemma SplitHead(p: string, c: char, t: string)
    requires c !in p
    requires |t| == 0 || t[0] == c
    ensures Split(p + t, [c])[0] == p
  {
    if |t| == 0 {
      assert p + t == p;
      SplitWithout(p, c);
    } else {
      assert p + t == p + [c] + t[1..];
      SplitAfterPiece(p, c, t[1..]);
    }
  }

  /** No piece of a split on one character contains that character. */
  lemma {:induction false} SplitPiecesFree(s: string, c: char)
    ensures forall i :: 0 <= i < |Split(s, [c])| ==> c !in Split(s, [c])[i]
    decreases |s|
  {
    if |s| >= 1 {
      SplitPiecesFree(s[1..], c);
      if s[..1] != [c] {
        assert s[0] != c;
      }
    }
  }

  /** Removing the first occurrence of a character that does not occur
      changes nothing. */
  lemma {:induction false} RemoveFirstAbsent(s: string, c: char)
    requires c !in s
    ensures RemoveFirst(s, c) == s
    decreases |s|
  {
    if |s| > 0 {
      RemoveFirstAbsent(s[1..], c);
      assert [s[0]] + s[1..] == s;
    }
  }

  /** Adding a piece adds its line at the end. */
  lemma {:induction false} LinesAppend(ps: seq<string>, p: string)
    ensures Lines(ps + [p]) == Lines(ps) + p + "\n"
    decreases |ps|
  {
    if |ps| == 0 {
      assert ps + [p] == [p];
      assert [p][1..] == [];
    } else {
      assert (ps + [p])[1..] == ps[1..] + [p];
      LinesAppend(ps[1..], p);
    }
  }

  /** Concatenation is associative; stated apart so that proofs with many
      string terms in scope do not have to rediscover it. */
  lemma ConcatAssoc(a: string, b: string, c: string)
    ensures (a + b) + c == a + (b + c)
  {
  }

  /** Replacing the first `c` drops exactly the first occurrence. */
  lemma {:induction false} RemoveFirstAt(a: string, c: char, b: string)
    requires c !in a
    ensures RemoveFirst(a + [c] + b, c) == a + b
    decreases |a|
  {
    if |a| == 0 {
      assert (a + [c] + b)[1..] == b;
    } else {
      assert (a + [c] + b)[1..] == a[1..] + [c] + b;
      RemoveFirstAt(a[1..], c, b);
      assert a + b == [a[0]] + (a[1..] + b);
    }
  }

  /** Joining a piece in front of a non-empty list. */
  lemma JoinCons(p: string, rest: seq<string>, sep: string)
    requires |rest| > 0
    ensures Join([p] + rest, sep) == p + sep + Join(rest, sep)
  {
    assert ([p] + rest)[1..] == rest;
  }

  /** The last piece of a split is what follows the last separator. */
  lemma {:induction false} SplitLast(s: string, c: char, t: string)
    requires c !in t
    ensures Last(Split(s + [c] + t, [c])) == t
    decreases |s|
  {
    var x := s + [c] + t;
    if |s| == 0 {
      assert x[..1] == [c] && x[1..] == t;
      SplitWithout(t, c);
    } else {
      assert x[1..] == s[1..] + [c] + t;
      SplitLast(s[1..], c, t);
      if s[0] != c {
        var rest := Split(x[1..], [c]);
        SplitCount(x[1..], c);
        CountZero(x[1..], c);
        assert x[1..][|s| - 1] == c;
        assert |rest| >= 2;
      }
    }
  }

  /** Removing a character only ever drops characters. */
  lemma {:induction false} RemoveAllSubset(s: string, c: char, x: char)
    requires x in RemoveAll(s, c)
    ensures x in s && x != c
    decreases |s|
  {
    if |s| > 0 {
      if s[0] == c || x != s[0] {
        if s[0] != c {
          assert RemoveAll(s, c) == [s[0]] + RemoveAll(s[1..], c);
        }
        RemoveAllSubset(s[1..], c, x);
      } else {
        RemoveAllRemoves(s, c);
      }
    }
  }

  /** Splitting a join on its one-character separator gives back the pieces,
      provided there is at least one piece and no piece contains the
      separator. */
  lemma {:induction false} SplitJoin(parts: seq<string>, c: char)
    requires |parts| >= 1
    requires forall i :: 0 <= i < |parts| ==> c !in parts[i]
    ensures Split(Join(parts, [c]), [c]) == parts
    decreases |parts|
  {
    if |parts| == 1 {
      SplitWithout(parts[0], c);
    } else {
      SplitJoin(parts[1..], c);
      SplitAfterPiece(parts[0], c, Join(parts[1..], [c]));
      assert [parts[0]] + parts[1..] == parts;
    }
  }

  /** Removing every occurrence distributes over concatenation. */
  lemma {:induction false} RemoveAllAppend(a: string, b: string, c: char)
    ensures RemoveAll(a + b, c) == RemoveAll(a, c) + RemoveAll(b, c)
    decreases |a|
  {
    if |a| > 0 {
      assert (a + b)[1..] == a[1..] + b;
      RemoveAllAppend(a[1..], b, c);
    } else {
      assert a + b == b;
    }
  }

  /** After removing every `c`, no `c` is left, and every other character
      keeps its order. */
  lemma {:induction false} RemoveAllRemoves(s: string, c: char)
    ensures c !in RemoveAll(s, c)
    ensures c !in s ==> RemoveAll(s, c) == s
    decreases |s|
  {
    if |s| > 0 {
      RemoveAllRemoves(s[1..], c);
      assert s == [s[0]] + s[1..];
    }
  }

  /** For a one-character needle, `includes` is membership. */
  lemma {:induction false} ContainsChar(s: string, c: char)
    ensures Contains(s, [c]) <==> c in s
    decreases |s|
  {
    if |s| > 0 {
      ContainsChar(s[1..], c);
      assert s == [s[0]] + s[1..];
    }
  }

  /** `includes` holds of every string that has the needle at some position. */
  lemma {:induction false} ContainsAt(s: string, sub: string, i: nat)
    requires i + |sub| <= |s| && s[i..i + |sub|] == sub
    ensures Contains(s, sub)
    decreases i
  {
    if i > 0 {
      assert s[1..][i - 1..i - 1 + |sub|] == s[i..i + |sub|];
      ContainsAt(s[1..], sub, i - 1);
    }
  }

  lemma {:induction false} CountAppend(a: string, b: string, c: char)
    ensures Count(a + b, c) == Count(a, c) + Count(b, c)
    decreases |a|
  {
    if |a| > 0 {
      assert (a + b)[1..] == a[1..] + b;
      CountAppend(a[1..], b, c);
    } else {
      assert a + b == b;
    }
  }

  lemma {:induction false} CountZero(s: string, c: char)
    ensures Count(s, c) == 0 <==> c !in s
    decreases |s|
  {
    if |s| > 0 {
      CountZero(s[1..], c);
      assert s == [s[0]] + s[1..];
    }
  }

  /** A split on a one-character separator has one more piece than the
      string has separators. */
  lemma {:induction false} SplitCount(s: string, c: char)
    ensures |Split(s, [c])| == 1 + Count(s, c)
    decreases |s|
  {
    if |s| > 0 {
      assert s[..1] == [s[0]];
      SplitCount(s[1..], c);
    }
  }

  /** Joining with a one-character separator adds one separator between
      each two pieces. */
  lemma {:induction false} JoinCount(parts: seq<string>, c: char)
    requires |parts| >= 1
    ensures Count(Join(parts, [c]), c) == |parts| - 1 + CountAll(parts, c)
    decreases |parts|
  {
    if |parts| == 1 {
      assert CountAll(parts[1..], c) == 0;
    } else {
      JoinCount(parts[1..], c);
      CountAppend(parts[0] + [c], Join(parts[1..], [c]), c);
      CountAppend(parts[0], [c], c);
      assert Count([c], c) == 1;
    }
  }

  lemma {:induction false} CountAllZero(parts: seq<string>, c: char)
    requires CountAll(parts, c) == 0
    ensures forall i :: 0 <= i < |parts| ==> c !in parts[i]
    decreases |parts|
  {
    if |parts| > 0 {
      CountZero(parts[0], c);
      CountAllZero(parts[1..], c);
      forall i | 1 <= i < |parts| ensures c !in parts[i] {
        assert parts[i] == parts[1..][i - 1];
      }
    }
  }

  /** Splitting a join on its one-character separator gives back exactly the
      pieces if and only if there is at least one piece and no piece contains
      the separator. */
  lemma SplitJoinExactly(parts: seq<string>, c: char)
    ensures Split(Join(parts, [c]), [c]) == parts <==>
      |parts| >= 1 && forall i :: 0 <= i < |parts| ==> c !in parts[i]
  {
    if |parts| >= 1 && forall i :: 0 <= i < |parts| ==> c !in parts[i] {
      SplitJoin(parts, c);
    } else if Split(Join(parts, [c]), [c]) == parts {
      SplitCount(Join(parts, [c]), c);
      JoinCount(parts, c);
      CountAllZero(parts, c);
    }
  }
}
