/**
 * The JavaScript string operations the scraper relies on, stated over
 * `seq<char>`: `split` on a one-character separator, `join`, `includes`,
 * `substring(start)` and an ASCII `toLowerCase`.
 */
module Strings {

  predicate IsPrefix(p: string, s: string)
  {
    |p| <= |s| && s[..|p|] == p
  }

  predicate EndsWith(s: string, suffix: string)
  {
    |suffix| <= |s| && s[|s| - |suffix|..] == suffix
  }

  /** Number of occurrences of `c` in `s`. */
  function Count(s: string, c: char): nat
  {
    if |s| == 0 then 0 else (if s[0] == c then 1 else 0) + Count(s[1..], c)
  }

  lemma {:induction false} CountAppend(a: string, b: string, c: char)
    ensures Count(a + b, c) == Count(a, c) + Count(b, c)
    decreases |a|
  {
    if |a| == 0 {
      assert a + b == b;
    } else {
      assert (a + b)[1..] == a[1..] + b;
      CountAppend(a[1..], b, c);
    }
  }

  lemma {:induction false} CountAbsent(s: string, c: char)
    requires c !in s
    ensures Count(s, c) == 0
    decreases |s|
  {
    if |s| > 0 {
      assert c !in s[1..] by {
        forall i | 0 <= i < |s[1..]| ensures s[1..][i] != c {
          assert s[1..][i] == s[i + 1];
        }
      }
      CountAbsent(s[1..], c);
    }
  }

  /** `k` occurs in `s` starting at index `i`. */
  predicate OccursAt(s: string, k: string, i: int)
  {
    0 <= i && i + |k| <= |s| && s[i..i + |k|] == k
  }

  /** JavaScript `s.includes(k)`: `k` is a substring of `s`. */
  predicate Contains(s: string, k: string)
    ensures Contains(s, k) ==> |k| <= |s|
    ensures IsPrefix(k, s) ==> Contains(s, k)
  {
    assert IsPrefix(k, s) ==> OccursAt(s, k, 0);
    exists i :: 0 <= i <= |s| - |k| && OccursAt(s, k, i)
  }

  /** A string that contains `k` contains every character of `k`. */
  lemma ContainsChar(s: string, k: string, j: nat)
    requires Contains(s, k)
    requires j < |k|
    ensures k[j] in s
  {
    var i :| 0 <= i <= |s| - |k| && OccursAt(s, k, i);
    assert s[i..i + |k|][j] == s[i + j];
  }

  function LowerChar(c: char): char
  {
    if 'A' <= c <= 'Z' then (c as int + 32) as char else c
  }

  /** `toLowerCase` restricted to ASCII letters. */
  function Lower(s: string): (r: string)
    ensures |r| == |s|
    ensures forall i :: 0 <= i < |s| ==> r[i] == LowerChar(s[i])
  {
    seq(|s|, i requires 0 <= i < |s| => LowerChar(s[i]))
  }

  /** A lower-cased string holds no upper-case ASCII letter. */
  lemma LowerHasNoUpper(s: string, c: char)
    requires 'A' <= c <= 'Z'
    ensures c !in Lower(s)
  {
    var r := Lower(s);
    forall i | 0 <= i < |r| ensures r[i] != c {
      assert r[i] == LowerChar(s[i]);
    }
  }

  /** JavaScript `s.substring(start)`: a start past the end yields "". */
  function Drop(s: string, start: nat): (r: string)
    ensures start <= |s| ==> s == s[..start] + r
    ensures start >= |s| ==> r == ""
  {
    if start <= |s| then s[start..] else ""
  }

  /**
   * JavaScript `s.split(sep)` for a one-character separator: the pieces
   * between consecutive separators, so an empty string yields one empty
   * piece and there is always one piece more than there are separators.
   */
  function Split(s: string, sep: char): (r: seq<string>)
    ensures |r| == Count(s, sep) + 1
    ensures forall i :: 0 <= i < |r| ==> sep !in r[i]
    ensures IsPrefix(r[0], s)
    ensures r[0] == s || s[|r[0]|] == sep
    decreases |s|
  {
    if |s| == 0 then [""]
    else
      var rest := Split(s[1..], sep);
      if s[0] == sep then [""] + rest
      else [[s[0]] + rest[0]] + rest[1..]
  }

  /** JavaScript `xs.join(sep)`. */
  function Join(xs: seq<string>, sep: char): (r: string)
    ensures |xs| >= 1 ==> IsPrefix(xs[0], r)
    decreases |xs|
  {
    if |xs| == 0 then ""
    else if |xs| == 1 then xs[0]
    else xs[0] + [sep] + Join(xs[1..], sep)
  }

  /** Joining the pieces of a split gives back the original string. */
  lemma {:induction false} JoinSplit(s: string, sep: char)
    ensures Join(Split(s, sep), sep) == s
    decreases |s|
  {
    if |s| > 0 {
      var rest := Split(s[1..], sep);
      JoinSplit(s[1..], sep);
      if s[0] == sep {
        assert ([""] + rest)[1..] == rest;
        assert s == [sep] + s[1..];
      } else {
        var r := [[s[0]] + rest[0]] + rest[1..];
        if |rest| == 1 {
          assert s == [s[0]] + s[1..];
        } else {
          assert r[1..] == rest[1..];
          assert Join(rest, sep) == rest[0] + [sep] + Join(rest[1..], sep);
          assert s == [s[0]] + s[1..];
        }
      }
    }
  }

  /** Splitting a string whose first piece `a` holds no separator. */
  lemma {:induction false} SplitAfterPiece(a: string, t: string, sep: char)
    requires sep !in a
    ensures Split(a + t, sep) == [a + Split(t, sep)[0]] + Split(t, sep)[1..]
    decreases |a|
  {
    if |a| == 0 {
      assert a + t == t;
      var T := Split(t, sep);
      assert T == [T[0]] + T[1..];
      assert a + T[0] == T[0];
    } else {
      var s := a + t;
      assert s[1..] == a[1..] + t;
      assert sep !in a[1..] by {
        forall i | 0 <= i < |a[1..]| ensures a[1..][i] != sep {
          assert a[1..][i] == a[i + 1];
        }
      }
      var T := Split(t, sep);
      var R := Split(s[1..], sep);
      SplitAfterPiece(a[1..], t, sep);
      assert R == [a[1..] + T[0]] + T[1..];
      assert R[0] == a[1..] + T[0];
      assert R[1..] == T[1..];
      assert s[0] == a[0] && a[0] != sep;
      assert Split(s, sep) == [[s[0]] + R[0]] + R[1..];
      assert [a[0]] + (a[1..] + T[0]) == a + T[0];
    }
  }

  /** Splitting a join of separator-free pieces gives back the pieces. */
  lemma {:induction false} SplitJoin(xs: seq<string>, sep: char)
    requires |xs| >= 1
    requires forall i :: 0 <= i < |xs| ==> sep !in xs[i]
    ensures Split(Join(xs, sep), sep) == xs
    decreases |xs|
  {
    if |xs| == 1 {
      SplitAfterPiece(xs[0], "", sep);
      assert xs[0] + "" == xs[0];
    } else {
      var tail := Join(xs[1..], sep);
      SplitJoin(xs[1..], sep);
      assert xs[0] + [sep] + tail == xs[0] + ([sep] + tail);
      SplitAfterPiece(xs[0], [sep] + tail, sep);
      assert ([sep] + tail)[1..] == tail;
      assert Split([sep] + tail, sep) == [""] + xs[1..];
      assert xs[0] + "" == xs[0];
    }
  }

  /** The first `k` pieces of a join form a prefix of it; when `k` is short of
      all of them, the rest follows after one more separator. */
  lemma {:induction false} JoinPrefix(xs: seq<string>, k: nat, sep: char)
    requires 1 <= k <= |xs|
    ensures k < |xs| ==> Join(xs, sep) == Join(xs[..k], sep) + [sep] + Join(xs[k..], sep)
    ensures IsPrefix(Join(xs[..k], sep), Join(xs, sep))
    decreases k
  {
    if k == |xs| {
      assert xs[..k] == xs;
    } else if k == 1 {
      assert xs[..1] == [xs[0]];
      assert xs[1..] == xs[k..];
    } else {
      JoinPrefix(xs[1..], k - 1, sep);
      assert xs[..k][1..] == xs[1..][..k - 1];
      assert xs[1..][k - 1..] == xs[k..];
      assert Join(xs[..k], sep) == xs[0] + [sep] + Join(xs[1..][..k - 1], sep);
    }
    var whole := Join(xs, sep);
    var front := Join(xs[..k], sep);
    if k < |xs| {
      assert whole[..|front|] == front;
    }
  }

  /** A join of separator-free pieces holds one separator between each pair. */
  lemma {:induction false} JoinCount(xs: seq<string>, sep: char)
    requires |xs| >= 1
    requires forall i :: 0 <= i < |xs| ==> sep !in xs[i]
    ensures Count(Join(xs, sep), sep) == |xs| - 1
    decreases |xs|
  {
    CountAbsent(xs[0], sep);
    if |xs| > 1 {
      JoinCount(xs[1..], sep);
      CountAppend(xs[0] + [sep], Join(xs[1..], sep), sep);
      CountAppend(xs[0], [sep], sep);
      assert [sep][1..] == [];
    }
  }

  /** A character absent from `s` (other than the separator) is absent from
      every piece of its split. */
  lemma {:induction false} SplitPieceChars(s: string, sep: char, c: char)
    requires c !in s
    ensures forall i :: 0 <= i < |Split(s, sep)| ==> c !in Split(s, sep)[i]
    decreases |s|
  {
    if |s| > 0 {
      assert c !in s[1..] by {
        forall i | 0 <= i < |s[1..]| ensures s[1..][i] != c {
          assert s[1..][i] == s[i + 1];
        }
      }
      SplitPieceChars(s[1..], sep, c);
      var rest := Split(s[1..], sep);
      if s[0] != sep {
        assert c !in [s[0]] + rest[0];
        var r := [[s[0]] + rest[0]] + rest[1..];
        forall i | 0 <= i < |r| ensures c !in r[i] {
          if i > 0 {
            assert r[i] == rest[i];
          }
        }
      } else {
        var r := [""] + rest;
        forall i | 0 <= i < |r| ensures c !in r[i] {
          if i > 0 {
            assert r[i] == rest[i - 1];
          }
        }
      }
    }
  }
}
