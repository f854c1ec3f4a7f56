/** The parts of `java.lang.String` (and one JavaScript string call) that the
    model's text handling relies on, written out character by character. */
module JavaText {

  /** `String.trim` removes every leading and trailing character whose code
      is at most U+0020. */
  predicate IsTrimmable(c: char) {
    c <= ' '
  }

  function TrimStart(s: string): (r: string)
    ensures |r| <= |s| && r == s[|s| - |r|..]
    ensures |r| > 0 ==> !IsTrimmable(r[0])
    ensures forall i :: 0 <= i < |s| - |r| ==> IsTrimmable(s[i])
    decreases |s|
  {
    if |s| > 0 && IsTrimmable(s[0]) then TrimStart(s[1..]) else s
  }

  function TrimEnd(s: string): (r: string)
    ensures |r| <= |s| && r == s[..|r|]
    ensures |r| > 0 ==> !IsTrimmable(r[|r| - 1])
    ensures forall i :: |r| <= i < |s| ==> IsTrimmable(s[i])
    decreases |s|
  {
    if |s| > 0 && IsTrimmable(s[|s| - 1]) then TrimEnd(s[..|s| - 1]) else s
  }

  /** `r` is `s[i..j]`, and everything outside that infix is trimmable. */
  predicate TrimmedAt(s: string, r: string, i: int, j: int)
  {
    && 0 <= i <= j <= |s| && r == s[i..j]
    && (forall k :: 0 <= k < i ==> IsTrimmable(s[k]))
    && (forall k :: j <= k < |s| ==> IsTrimmable(s[k]))
  }

  /** `String.trim`: the longest infix of `s` that neither starts nor ends
      with a trimmable character, obtained by dropping only trimmable ones. */
  function Trim(s: string): (r: string)
    ensures exists i, j :: TrimmedAt(s, r, i, j)
    ensures |r| > 0 ==> !IsTrimmable(r[0]) && !IsTrimmable(r[|r| - 1])
  {
    var a := TrimStart(s);
    var b := TrimEnd(a);
    var i := |s| - |a|;
    assert TrimmedAt(s, b, i, i + |b|) by {
      assert b == s[i..i + |b|];
      forall k | i + |b| <= k < |s| ensures IsTrimmable(s[k]) {
        assert s[k] == a[k - i];
      }
    }
    b
  }

  predicate StartsWith(s: string, c: char) {
    |s| > 0 && s[0] == c
  }

  predicate EndsWith(s: string, c: char) {
    |s| > 0 && s[|s| - 1] == c
  }

  /** `s.replaceAll(c, "")` for a single literal character `c`. */
  function RemoveAll(s: string, c: char): (r: string)
    ensures c !in r
    ensures forall x :: x in r <==> x in s && x != c
    ensures |r| <= |s|
  {
    if |s| == 0 then ""
    else if s[0] == c then RemoveAll(s[1..], c)
    else [s[0]] + RemoveAll(s[1..], c)
  }

  /** Removing a character distributes over concatenation. */
  lemma {:induction false} RemoveAllAppend(a: string, b: string, c: char)
    ensures RemoveAll(a + b, c) == RemoveAll(a, c) + RemoveAll(b, c)
    decreases |a|
  {
    if |a| == 0 {
      assert a + b == b;
    } else {
      assert (a + b)[0] == a[0] && (a + b)[1..] == a[1..] + b;
      RemoveAllAppend(a[1..], b, c);
    }
  }

  /** Removing a character that does not occur changes nothing. */
  lemma {:induction false} RemoveAllAbsent(s: string, c: char)
    requires c !in s
    ensures RemoveAll(s, c) == s
    decreases |s|
  {
    if |s| > 0 {
      assert c !in s[1..] by {
        forall k | 0 <= k < |s[1..]| ensures s[1..][k] != c {
          assert s[1..][k] == s[k + 1];
        }
      }
      RemoveAllAbsent(s[1..], c);
      assert [s[0]] + s[1..] == s;
    }
  }

  /** ASCII lower-casing of one character. */
  function AsciiLower(c: char): (r: char)
    ensures 'A' <= c <= 'Z' ==> 'a' <= r <= 'z'
    ensures !('A' <= c <= 'Z') ==> r == c
  {
    if 'A' <= c <= 'Z' then (c as int + 32) as char else c
  }

  /** `String.equalsIgnoreCase`, with case folded over ASCII letters only. */
  predicate EqualsIgnoreCase(a: string, b: string)
  {
    |a| == |b| && forall i :: 0 <= i < |a| ==> AsciiLower(a[i]) == AsciiLower(b[i])
  }

  /** The pieces between the occurrences of `sep`, all of them kept, empty
      ones included; the first step of both Java's and JavaScript's `split`. */
  function Pieces(s: string, sep: char): (r: seq<string>)
    ensures |r| >= 1
    ensures forall p :: p in r ==> sep !in p
    decreases |s|
  {
    if |s| == 0 then [""]
    else if s[0] == sep then [""] + Pieces(s[1..], sep)
    else
      var rest := Pieces(s[1..], sep);
      [[s[0]] + rest[0]] + rest[1..]
  }

  /** Reassembles pieces with the separator between consecutive ones. */
  function Join(ps: seq<string>, sep: char): string
    requires |ps| >= 1
    decreases |ps|
  {
    if |ps| == 1 then ps[0] else ps[0] + [sep] + Join(ps[1..], sep)
  }

  /** Splitting loses nothing: joining the pieces again gives back `s`. */
  lemma {:induction false} JoinPieces(s: string, sep: char)
    ensures Join(Pieces(s, sep), sep) == s
    decreases |s|
  {
    if |s| == 0 {
    } else if s[0] == sep {
      JoinPieces(s[1..], sep);
      assert Pieces(s, sep)[1..] == Pieces(s[1..], sep);
      assert s == [sep] + s[1..];
    } else {
      var rest := Pieces(s[1..], sep);
      JoinPieces(s[1..], sep);
      JoinExtendsFirst(s[0], rest, sep);
      assert s == [s[0]] + s[1..];
    }
  }

  /** Putting a character in front of the first piece puts it in front of
      the joined string. */
  lemma JoinExtendsFirst(c: char, ps: seq<string>, sep: char)
    requires |ps| >= 1
    ensures Join([[c] + ps[0]] + ps[1..], sep) == [c] + Join(ps, sep)
  {
    var qs := [[c] + ps[0]] + ps[1..];
    if |ps| > 1 {
      assert qs[1..] == ps[1..];
      assert Join(qs, sep) == ([c] + ps[0]) + [sep] + Join(ps[1..], sep);
    }
  }

  /** A string without the separator is a single piece. */
  lemma {:induction false} PiecesWithoutSeparator(s: string, sep: char)
    requires sep !in s
    ensures Pieces(s, sep) == [s]
    decreases |s|
  {
    if |s| > 0 {
      assert sep !in s[1..] by {
        forall k | 0 <= k < |s[1..]| ensures s[1..][k] != sep {
          assert s[1..][k] == s[k + 1];
        }
      }
      PiecesWithoutSeparator(s[1..], sep);
      assert [s[0]] + s[1..] == s;
    }
  }

  /** Splitting at the first separator: a separator-free head is the first
      piece and the rest splits on its own. */
  lemma {:induction false} PiecesAfterHead(a: string, b: string, sep: char)
    requires sep !in a
    ensures Pieces(a + [sep] + b, sep) == [a] + Pieces(b, sep)
    decreases |a|
  {
    var s := a + [sep] + b;
    if |a| == 0 {
      assert s == [sep] + b;
      assert s[1..] == b;
    } else {
      assert s[0] == a[0] && s[0] != sep;
      assert s[1..] == a[1..] + [sep] + b;
      assert sep !in a[1..] by {
        forall k | 0 <= k < |a[1..]| ensures a[1..][k] != sep {
          assert a[1..][k] == a[k + 1];
        }
      }
      PiecesAfterHead(a[1..], b, sep);
      assert [a[0]] + a[1..] == a;
    }
  }

  /** Joining is undone by splitting when no piece holds the separator:
      the other direction of `JoinPieces`. */
  lemma {:induction false} PiecesJoin(ps: seq<string>, sep: char)
    requires |ps| >= 1
    requires forall i :: 0 <= i < |ps| ==> sep !in ps[i]
    ensures Pieces(Join(ps, sep), sep) == ps
    decreases |ps|
  {
    if |ps| == 1 {
      PiecesWithoutSeparator(ps[0], sep);
    } else {
      PiecesJoin(ps[1..], sep);
      PiecesAfterHead(ps[0], Join(ps[1..], sep), sep);
      assert [ps[0]] + ps[1..] == ps;
    }
  }

  /** A string that neither starts nor ends with a trimmable character is
      its own trim. */
  lemma TrimIdentity(s: string)
    requires |s| > 0 && !IsTrimmable(s[0]) && !IsTrimmable(s[|s| - 1])
    ensures Trim(s) == s
  {
    assert TrimStart(s) == s;
    assert TrimEnd(s) == s;
  }

  /** Drops empty strings from the end of a list, as Java's `split` does when
      called without a limit. */
  function DropTrailingEmpty(ps: seq<string>): (r: seq<string>)
    ensures |r| <= |ps| && r == ps[..|r|]
    ensures |r| > 0 ==> r[|r| - 1] != ""
    ensures forall i :: |r| <= i < |ps| ==> ps[i] == ""
  {
    if |ps| == 0 then []
    else if ps[|ps| - 1] == "" then DropTrailingEmpty(ps[..|ps| - 1])
    else ps
  }

  /** Java `s.split(sep)` for a one-character literal pattern: a string with
      no separator splits into itself (even the empty string); otherwise the
      pieces with the trailing empty ones removed. */
  function JavaSplit(s: string, sep: char): (r: seq<string>)
    ensures sep !in s ==> r == [s]
    ensures forall p :: p in r ==> sep !in p
  {
    if sep !in s then [s] else DropTrailingEmpty(Pieces(s, sep))
  }

  /** Java's `split` undoes `Join` when no piece holds the separator and
      the last piece is not empty. */
  lemma JavaSplitJoin(ps: seq<string>, sep: char)
    requires |ps| >= 1 && ps[|ps| - 1] != ""
    requires forall i :: 0 <= i < |ps| ==> sep !in ps[i]
    ensures JavaSplit(Join(ps, sep), sep) == ps
  {
    PiecesJoin(ps, sep);
    if sep !in Join(ps, sep) {
      JoinPieces(Join(ps, sep), sep);
      PiecesWithoutSeparator(Join(ps, sep), sep);
    }
  }

  /** Java `s.split(sep, 2)`: everything before the first separator and
      everything after it, or the whole string when there is none. */
  function JavaSplitFirst(s: string, sep: char): (r: seq<string>)
    ensures sep !in s ==> r == [s]
    ensures sep in s ==> |r| == 2 && sep !in r[0] && r[0] + [sep] + r[1] == s
  {
    if |s| == 0 then [s]
    else if s[0] == sep then ["", s[1..]]
    else
      var rest := JavaSplitFirst(s[1..], sep);
      if |rest| == 1 then [s] else [[s[0]] + rest[0], rest[1]]
  }

  /** Splitting at the first separator recovers a separator-free head and
      whatever follows it. */
  lemma {:induction false} JavaSplitFirstAt(a: string, b: string, sep: char)
    requires sep !in a
    ensures JavaSplitFirst(a + [sep] + b, sep) == [a, b]
    decreases |a|
  {
    var s := a + [sep] + b;
    if |a| == 0 {
      assert s == [sep] + b;
    } else {
      assert s[0] == a[0];
      assert s[1..] == a[1..] + [sep] + b;
      assert sep !in a[1..] by {
        forall k | 0 <= k < |a[1..]| ensures a[1..][k] != sep {
          assert a[1..][k] == a[k + 1];
        }
      }
      JavaSplitFirstAt(a[1..], b, sep);
      assert [a[0]] + a[1..] == a;
    }
  }

  /** JavaScript `s.split(sep)[0]`: the text before the first separator. */
  function BeforeFirst(s: string, sep: char): (r: string)
    ensures sep !in r
    ensures r <= s
    ensures |r| < |s| ==> s[|r|] == sep
  {
    if |s| == 0 || s[0] == sep then "" else [s[0]] + BeforeFirst(s[1..], sep)
  }

  const IntMin: int := -0x8000_0000
  const IntMax: int := 0x7FFF_FFFF

  /** Java's `(int)` cast of a finite double: rounds toward zero, then
      saturates at the 32-bit bounds. */
  function IntCast(x: real): (r: int)
    ensures IntMin <= r <= IntMax
    ensures 0.0 <= x < (IntMax + 1) as real ==> r as real <= x < r as real + 1.0
    ensures (IntMin - 1) as real < x <= 0.0 ==> r as real - 1.0 < x <= r as real
    ensures 0.0 <= x ==> 0 <= r
    ensures x <= 0.0 ==> r <= 0
    ensures x >= (IntMax + 1) as real ==> r == IntMax
    ensures x <= (IntMin - 1) as real ==> r == IntMin
  {
    var t := if x >= 0.0 then x.Floor else -((-x).Floor);
    if t < IntMin then IntMin else if t > IntMax then IntMax else t
  }

  /** The cast leaves a 32-bit integer as it is. */
  lemma IntCastOfInt(n: int)
    requires IntMin <= n <= IntMax
    ensures IntCast(n as real) == n
  {
  }

  /** The cast never reverses an order: it rounds toward zero and saturates,
      both of which keep larger values at least as large. */
  lemma IntCastMonotone(x: real, y: real)
    requires x <= y
    ensures IntCast(x) <= IntCast(y)
  {
    if 0.0 <= x {
      assert x.Floor <= y.Floor;
    } else if y <= 0.0 {
      assert (-y).Floor <= (-x).Floor;
    }
  }
}
