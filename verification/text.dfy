/** String helpers mirroring the Python `str` methods the generator uses:
    ASCII `upper`/`lower`, `split` on one character, `join`, `replace` of one
    character, and `str()` of an integer. */
module Text {

  /** `c.upper()` for an ASCII character; any other character is left alone. */
  function ToUpper(c: char): char {
    if 'a' <= c <= 'z' then (c as int - 32) as char else c
  }

  /** `c.lower()` for an ASCII character; any other character is left alone. */
  function ToLower(c: char): char {
    if 'A' <= c <= 'Z' then (c as int + 32) as char else c
  }

  /** No character of `s` is an upper-case ASCII letter. */
  predicate NoUpper(s: string) {
    forall i :: 0 <= i < |s| ==> !('A' <= s[i] <= 'Z')
  }

  /** `s.lower()`: every character lower-cased, the length kept. */
  function LowerAll(s: string): (r: string)
    ensures |r| == |s|
    ensures forall i :: 0 <= i < |s| ==> r[i] == ToLower(s[i])
  {
    seq(|s|, i requires 0 <= i < |s| => ToLower(s[i]))
  }

  /** What lower-casing promises: no upper-case letter is left, the result
      agrees with the input up to case at every position, and every
      character that is not an upper-case letter is kept. */
  lemma LowerAllMeaning(s: string)
    ensures NoUpper(LowerAll(s))
    ensures forall i :: 0 <= i < |s| ==> ToUpper(LowerAll(s)[i]) == ToUpper(s[i])
    ensures forall i :: 0 <= i < |s| && !('A' <= s[i] <= 'Z') ==> LowerAll(s)[i] == s[i]
  {
  }

  /** A string without upper-case letters is its own lower-cased form. */
  lemma LowerAllOfNoUpper(s: string)
    requires NoUpper(s)
    ensures LowerAll(s) == s
  {
  }

  /** Lower-casing twice is lower-casing once. */
  lemma LowerAllIdempotent(s: string)
    ensures LowerAll(LowerAll(s)) == LowerAll(s)
  {
    LowerAllMeaning(s);
    LowerAllOfNoUpper(LowerAll(s));
  }

  /** Number of occurrences of `c` in `s`. */
  function Count(s: string, c: char): nat {
    if s == [] then 0 else (if s[0] == c then 1 else 0) + Count(s[1..], c)
  }

  /** `s.split(sep)` for a one-character separator: the maximal runs of
      characters between separators, empty runs included. There is always
      one more part than there are separators, and no part holds `sep`. */
  function Split(s: string, sep: char): (parts: seq<string>)
    ensures |parts| == Count(s, sep) + 1
    ensures forall i :: 0 <= i < |parts| ==> sep !in parts[i]
  {
    if s == [] then [[]]
    else
      var rest := Split(s[1..], sep);
      if s[0] == sep then [[]] + rest
      else [[s[0]] + rest[0]] + rest[1..]
  }

  /** `sep.join(parts)`; the empty list joins to the empty string, and a
      non-empty list joins to every part plus one separator between each two. */
  function Join(parts: seq<string>, sep: string): (r: string)
    ensures parts == [] ==> r == []
    ensures parts != [] ==> |r| + |sep| == Offset(parts, sep, |parts|)
  {
    if |parts| == 0 then []
    else if |parts| == 1 then parts[0]
    else parts[0] + sep + Join(parts[1..], sep)
  }

  /** Where part `i` of a join starts: the lengths of the parts before it,
      each followed by a separator. */
  function Offset(parts: seq<string>, sep: string, i: nat): nat
    requires i <= |parts|
  {
    if i == 0 then 0 else |parts[0]| + |sep| + Offset(parts[1..], sep, i - 1)
  }

  /** `x` occurs in `out` starting at position `k`. */
  predicate PieceAt(out: string, k: nat, x: string) {
    k + |x| <= |out| && out[k..k + |x|] == x
  }

  /** Every part sits in `out` at its offset, and each part but the last is
      followed by the separator. */
  predicate PiecesAt(out: string, parts: seq<string>, sep: string) {
    forall i :: 0 <= i < |parts| ==>
      && PieceAt(out, Offset(parts, sep, i), parts[i])
      && (i + 1 < |parts| ==> PieceAt(out, Offset(parts, sep, i) + |parts[i]|, sep))
  }

  lemma PieceAtAfter(a: string, b: string, k: nat, x: string)
    requires PieceAt(b, k, x)
    ensures PieceAt(a + b, |a| + k, x)
  {
    assert (a + b)[|a| + k..|a| + k + |x|] == b[k..k + |x|];
  }

  lemma PieceAtBefore(a: string, b: string, k: nat, x: string)
    requires PieceAt(a, k, x)
    ensures PieceAt(a + b, k, x)
  {
    assert (a + b)[k..k + |x|] == a[k..k + |x|];
  }

  /** The first part of a join starts it, followed by the separator when
      more parts come. */
  lemma JoinFirstPiece(parts: seq<string>, sep: string)
    requires parts != []
    ensures PieceAt(Join(parts, sep), 0, parts[0])
    ensures 1 < |parts| ==> PieceAt(Join(parts, sep), |parts[0]|, sep)
  {
    if |parts| == 1 {
      assert Join(parts, sep)[0..|parts[0]|] == parts[0];
    } else {
      var head := parts[0] + sep;
      assert Join(parts, sep) == head + Join(parts[1..], sep);
      assert head[0..|parts[0]|] == parts[0];
      assert head[|parts[0]|..|parts[0]| + |sep|] == sep;
      PieceAtBefore(head, Join(parts[1..], sep), 0, parts[0]);
      PieceAtBefore(head, Join(parts[1..], sep), |parts[0]|, sep);
    }
  }

  /** A piece of the join of the later parts is a piece of the whole join,
      shifted by the first part and its separator. */
  lemma JoinLaterPiece(parts: seq<string>, sep: string, k: nat, x: string)
    requires |parts| > 1
    requires PieceAt(Join(parts[1..], sep), k, x)
    ensures PieceAt(Join(parts, sep), |parts[0]| + |sep| + k, x)
  {
    var head := parts[0] + sep;
    assert Join(parts, sep) == head + Join(parts[1..], sep);
    PieceAtAfter(head, Join(parts[1..], sep), k, x);
  }

  /** Part `i` of a join is found at its offset, followed by the separator
      unless it is the last part. */
  lemma {:induction false} JoinPiece(parts: seq<string>, sep: string, i: nat)
    requires i < |parts|
    ensures PieceAt(Join(parts, sep), Offset(parts, sep, i), parts[i])
    ensures i + 1 < |parts| ==> PieceAt(Join(parts, sep), Offset(parts, sep, i) + |parts[i]|, sep)
  {
    if i == 0 {
      JoinFirstPiece(parts, sep);
    } else {
      JoinPiece(parts[1..], sep, i - 1);
      assert parts[1..][i - 1] == parts[i];
      var k := Offset(parts[1..], sep, i - 1);
      JoinLaterPiece(parts, sep, k, parts[i]);
      if i + 1 < |parts| {
        JoinLaterPiece(parts, sep, k + |parts[i]|, sep);
      }
    }
  }

  /** A join of several parts starts with the first. */
  lemma JoinStartsWith(xs: seq<string>, sep: string)
    requires xs != []
    ensures |Join(xs, sep)| >= |xs[0]|
    ensures Join(xs, sep)[..|xs[0]|] == xs[0]
  {
    if |xs| > 1 {
      assert Join(xs, sep) == xs[0] + (sep + Join(xs[1..], sep));
    }
  }

  /** The pieces of a join followed by a final newline: every part at its
      offset, the separators between, and nothing more than the newline. */
  lemma JoinPieces(parts: seq<string>, sep: string, out: string)
    requires parts != [] && out == Join(parts, sep) + "\n"
    ensures |out| + |sep| == Offset(parts, sep, |parts|) + 1
    ensures out[|out| - 1] == '\n'
    ensures PiecesAt(out, parts, sep)
  {
    var joined := Join(parts, sep);
    forall i | 0 <= i < |parts|
      ensures PieceAt(out, Offset(parts, sep, i), parts[i])
      ensures i + 1 < |parts| ==> PieceAt(out, Offset(parts, sep, i) + |parts[i]|, sep)
    {
      JoinPiece(parts, sep, i);
      PieceAtBefore(joined, "\n", Offset(parts, sep, i), parts[i]);
      if i + 1 < |parts| {
        PieceAtBefore(joined, "\n", Offset(parts, sep, i) + |parts[i]|, sep);
      }
    }
  }

  /** Joining the parts of a split with the same separator gives back the input. */
  lemma {:induction false} JoinSplit(s: string, sep: char)
    ensures Join(Split(s, sep), [sep]) == s
  {
    if s != [] {
      var rest := Split(s[1..], sep);
      JoinSplit(s[1..], sep);
      if s[0] == sep {
        assert Split(s, sep) == [[]] + rest;
        assert Join([[]] + rest, [sep]) == [] + [sep] + Join(rest, [sep]);
      } else {
        var parts := Split(s, sep);
        assert parts == [[s[0]] + rest[0]] + rest[1..];
        if |rest| == 1 {
          assert Join(parts, [sep]) == [s[0]] + rest[0];
        } else {
          assert Join(rest, [sep]) == rest[0] + [sep] + Join(rest[1..], [sep]);
          assert parts[1..] == rest[1..];
          assert Join(parts, [sep]) == [s[0]] + rest[0] + [sep] + Join(rest[1..], [sep]);
        }
      }
    }
  }

  /** A string without the separator splits into itself alone. */
  lemma {:induction false} SplitWithoutSeparator(s: string, sep: char)
    requires sep !in s
    ensures Split(s, sep) == [s]
  {
    if s != [] {
      assert sep !in s[1..] by {
        forall i | 0 <= i < |s[1..]|
          ensures s[1..][i] != sep
        {
          assert s[1..][i] == s[i + 1];
        }
      }
      SplitWithoutSeparator(s[1..], sep);
      assert [s[0]] + s[1..] == s;
    }
  }

  /** Splitting at the first separator: the part before it, then the split
      of the rest. */
  lemma {:induction false} SplitAtFirst(x: string, sep: char, y: string)
    requires sep !in x
    ensures Split(x + [sep] + y, sep) == [x] + Split(y, sep)
  {
    if x != [] {
      assert sep !in x[1..] by {
        forall i | 0 <= i < |x[1..]|
          ensures x[1..][i] != sep
        {
          assert x[1..][i] == x[i + 1];
        }
      }
      SplitAtFirst(x[1..], sep, y);
      var s := x + [sep] + y;
      assert s[0] == x[0] && s[1..] == x[1..] + [sep] + y;
      var rest := Split(s[1..], sep);
      assert rest == [x[1..]] + Split(y, sep);
      assert [x[0]] + x[1..] == x;
      assert Split(s, sep) == [[x[0]] + rest[0]] + rest[1..];
    } else {
      assert (x + [sep] + y)[1..] == y;
    }
  }

  /** `s.replace(a, b)` for single characters `a` and `b`. */
  function Replace(s: string, a: char, b: char): (r: string)
    ensures |r| == |s|
    ensures forall i :: 0 <= i < |s| ==> r[i] == (if s[i] == a then b else s[i])
  {
    if s == [] then [] else [if s[0] == a then b else s[0]] + Replace(s[1..], a, b)
  }

  /** `str(n)` for a natural number: its decimal digits, most significant first. */
  function NatToString(n: nat): (r: string)
    ensures |r| >= 1
    ensures forall i :: 0 <= i < |r| ==> '0' <= r[i] <= '9'
  {
    var d := ['0' + (n % 10) as char];
    if n < 10 then d else NatToString(n / 10) + d
  }

  /** `str(i)` for any integer, with a leading `-` when negative. */
  function IntToString(i: int): string {
    if i < 0 then "-" + NatToString(-i) else NatToString(i)
  }
}
