/** The pieces of the JavaScript runtime that the engagement core relies on,
    stated over Dafny values: Array.prototype.filter and find,
    String.prototype.split and toLowerCase, and Math.round / Math.min applied
    to a ratio of non-negative integers. */
module Js {

  datatype Option<+T> = None | Some(value: T)

  /** A JavaScript number as the aggregators can produce it: a non-negative
      integer, or the NaN that a division 0 / 0 yields. */
  datatype Ratio = Finite(value: nat) | NaN

  /** `s.filter(p)`: the elements of `s` that satisfy `p`, in order. */
  function Filter<T(!new)>(s: seq<T>, p: T -> bool): (r: seq<T>)
    ensures |r| <= |s|
  {
    if s == [] then []
    else
      (if p(s[0]) then [s[0]] else []) + Filter(s[1..], p)
  }

  /** The elements of the filter are exactly the elements of `s` that pass `p`. */
  lemma {:induction false} FilterMembers<T(!new)>(s: seq<T>, p: T -> bool)
    ensures forall x :: x in Filter(s, p) <==> x in s && p(x)
  {
    if s != [] {
      FilterMembers(s[1..], p);
      assert s == [s[0]] + s[1..];
    }
  }

  /** `s.filter(p).length` */
  function Count<T(!new)>(s: seq<T>, p: T -> bool): (r: nat)
    ensures r <= |s|
  {
    |Filter(s, p)|
  }

  /** Filtering distributes over concatenation, so it keeps the order of `s`. */
  lemma {:induction false} FilterConcat<T(!new)>(a: seq<T>, b: seq<T>, p: T -> bool)
    ensures Filter(a + b, p) == Filter(a, p) + Filter(b, p)
  {
    if a == [] {
      assert a + b == b;
    } else {
      var h := if p(a[0]) then [a[0]] else [];
      assert (a + b)[0] == a[0];
      assert (a + b)[1..] == a[1..] + b;
      assert Filter(a + b, p) == h + Filter(a[1..] + b, p);
      FilterConcat(a[1..], b, p);
      assert h + (Filter(a[1..], p) + Filter(b, p)) == (h + Filter(a[1..], p)) + Filter(b, p);
    }
  }

  /** Appending one element grows the filter by that element exactly when it passes. */
  lemma {:induction false} FilterSnoc<T(!new)>(s: seq<T>, x: T, p: T -> bool)
    ensures p(x) ==> Filter(s + [x], p) == Filter(s, p) + [x]
    ensures !p(x) ==> Filter(s + [x], p) == Filter(s, p)
  {
    FilterConcat(s, [x], p);
    assert [x][1..] == [];
    assert Filter(s, p) + [] == Filter(s, p);
  }

  /** Two predicates that agree on every element of `s` filter it alike. */
  lemma {:induction false} FilterCongruent<T(!new)>(s: seq<T>, p: T -> bool, q: T -> bool)
    requires forall i :: 0 <= i < |s| ==> p(s[i]) == q(s[i])
    ensures Filter(s, p) == Filter(s, q)
  {
    if s != [] {
      FilterCongruent(s[1..], p, q);
    }
  }

  /** A filter that every element passes gives back the whole sequence. */
  lemma {:induction false} FilterAll<T(!new)>(s: seq<T>, p: T -> bool)
    requires forall i :: 0 <= i < |s| ==> p(s[i])
    ensures Filter(s, p) == s
  {
    if s != [] {
      FilterAll(s[1..], p);
    }
  }

  /** A filter that lets through every element but the one at index i
      removes just that element. */
  lemma {:induction false} FilterRemoveAt<T(!new)>(s: seq<T>, i: nat, p: T -> bool)
    requires i < |s| && !p(s[i])
    requires forall j :: 0 <= j < |s| && j != i ==> p(s[j])
    ensures Filter(s, p) == s[..i] + s[i + 1..]
  {
    var t := s[1..];
    forall j | 0 <= j < |t| && j + 1 != i ensures p(t[j]) {
      assert t[j] == s[j + 1];
    }
    if i == 0 {
      assert Filter(s, p) == Filter(t, p);
      FilterAll(t, p);
      assert s[..0] + s[1..] == t;
    } else {
      assert Filter(s, p) == [s[0]] + Filter(t, p);
      FilterRemoveAt(t, i - 1, p);
      assert t[..i - 1] == s[1..i] && t[i..] == s[i + 1..];
      assert [s[0]] + s[1..i] == s[..i];
      assert [s[0]] + (s[1..i] + s[i + 1..]) == ([s[0]] + s[1..i]) + s[i + 1..];
    }
  }

  /** A filter that no element passes is empty. */
  lemma {:induction false} FilterNone<T(!new)>(s: seq<T>, p: T -> bool)
    requires forall x :: x in s ==> !p(x)
    ensures Filter(s, p) == []
  {
    if s != [] {
      FilterNone(s[1..], p);
    }
  }

  /** Two predicates that no element satisfies together count at most |s| between them. */
  lemma {:induction false} DisjointCounts<T(!new)>(s: seq<T>, p: T -> bool, q: T -> bool)
    requires forall i :: 0 <= i < |s| ==> !(p(s[i]) && q(s[i]))
    ensures Count(s, p) + Count(s, q) <= |s|
  {
    if s != [] {
      DisjointCounts(s[1..], p, q);
    }
  }

  /** `s.find(p)`: the first element of `s` that satisfies `p`, if any. */
  function Find<T>(s: seq<T>, p: T -> bool): (r: Option<T>)
    ensures r.None? <==> forall i :: 0 <= i < |s| ==> !p(s[i])
    ensures r.Some? ==>
      exists i :: 0 <= i < |s| && s[i] == r.value && p(s[i]) && (
        forall j :: 0 <= j < i ==> !p(s[j]))
  {
    if s == [] then None
    else if p(s[0]) then Some(s[0])
    else
      var r := Find(s[1..], p);
      assert r.Some? ==>
        (exists i :: 1 <= i < |s| && s[i] == r.value && p(s[i]) && forall j :: 0 <= j < i ==> !p(s[j])) by {
        if r.Some? {
          var i :| 0 <= i < |s[1..]| && s[1..][i] == r.value && p(s[1..][i]) && (
            forall j :: 0 <= j < i ==> !p(s[1..][j]));
          forall j | 0 <= j < i + 1 ensures !p(s[j]) {
            if j > 0 { assert s[j] == s[1..][j - 1]; }
          }
          assert s[i + 1] == r.value;
        }
      }
      r
  }

  /** `c.toLowerCase()` on the ASCII letters. */
  function LowerChar(c: char): (r: char)
    ensures !('A' <= r <= 'Z')
    ensures ('a' <= r <= 'z') <==> ('a' <= c <= 'z' || 'A' <= c <= 'Z')
    ensures !('A' <= c <= 'Z') ==> r == c
  {
    if 'A' <= c <= 'Z' then (c as int - 'A' as int + 'a' as int) as char else c
  }

  /** `s.toLowerCase()`, character by character. */
  function ToLowerCase(s: string): (r: string)
    ensures |r| == |s|
    ensures forall i :: 0 <= i < |s| ==> r[i] == LowerChar(s[i])
    ensures forall i :: 0 <= i < |s| ==> (r[i] == ' ' <==> s[i] == ' ')
  {
    seq(|s|, i requires 0 <= i < |s| => LowerChar(s[i]))
  }

  /** `s.split(sep)` for a one-character separator: the pieces between
      consecutive separators; an empty string gives one empty piece, and two
      adjacent separators give an empty piece between them. */
  function Split(s: string, sep: char): (r: seq<string>)
    ensures |r| >= 1
    ensures forall i :: 0 <= i < |r| ==> sep !in r[i]
    decreases |s|
  {
    if s == [] then [""]
    else if s[0] == sep then [""] + Split(s[1..], sep)
    else
      var rest := Split(s[1..], sep);
      [[s[0]] + rest[0]] + rest[1..]
  }

  /** `parts.join(sep)`: the inverse of Split. */
  function Join(parts: seq<string>, sep: char): string
  {
    if parts == [] then ""
    else if |parts| == 1 then parts[0]
    else parts[0] + [sep] + Join(parts[1..], sep)
  }

  /** Joining the pieces of a split gives back the original string. */
  lemma {:induction false} JoinSplit(s: string, sep: char)
    ensures Join(Split(s, sep), sep) == s
    decreases |s|
  {
    if s == [] {
    } else if s[0] == sep {
      JoinSplit(s[1..], sep);
      var rest := Split(s[1..], sep);
      assert Split(s, sep) == [""] + rest;
      assert ([""] + rest)[1..] == rest;
      assert s == [sep] + s[1..];
    } else {
      JoinSplit(s[1..], sep);
      var rest := Split(s[1..], sep);
      var parts := [[s[0]] + rest[0]] + rest[1..];
      assert Split(s, sep) == parts;
      if |rest| == 1 {
        assert s == [s[0]] + s[1..];
      } else {
        assert parts[1..] == rest[1..];
        assert Join(rest, sep) == rest[0] + [sep] + Join(rest[1..], sep);
        assert s == [s[0]] + s[1..];
      }
    }
  }

  /** Splitting a join of separator-free pieces gives back the pieces. */
  lemma {:induction false} SplitJoin(parts: seq<string>, sep: char)
    requires |parts| >= 1
    requires forall i :: 0 <= i < |parts| ==> sep !in parts[i]
    ensures Split(Join(parts, sep), sep) == parts
    decreases |parts|, |parts[0]|
  {
    var p := parts[0];
    if |parts| == 1 {
      SplitPiece(p, sep);
      assert p + "" == p;
    } else {
      SplitJoin(parts[1..], sep);
      assert Join(parts, sep) == p + ([sep] + Join(parts[1..], sep));
      SplitPiece(p, sep);
      assert ([sep] + Join(parts[1..], sep))[1..] == Join(parts[1..], sep);
      assert Split([sep] + Join(parts[1..], sep), sep) == [""] + parts[1..];
      assert [p] + parts[1..] == parts;
    }
  }

  /** A separator-free prefix `p` glues onto the first piece of what follows. */
  lemma {:induction false} SplitPiece(p: string, sep: char)
    requires sep !in p
    ensures forall t :: Split(t, sep)[0] == "" ==> Split(p + t, sep) == [p] + Split(t, sep)[1..]
    decreases |p|
  {
    forall t | Split(t, sep)[0] == ""
      ensures Split(p + t, sep) == [p] + Split(t, sep)[1..]
    {
      if p == [] {
        assert p + t == t;
        assert Split(t, sep) == [""] + Split(t, sep)[1..];
      } else {
        SplitPiece(p[1..], sep);
        assert (p + t)[1..] == p[1..] + t;
        assert (p + t)[0] == p[0];
        assert [p[0]] + p[1..] == p;
      }
    }
  }

  /** `Math.round(n / d)` for non-negative integers n and d > 0: JavaScript
      rounds half way cases up, so the result is the integer r with
      r - 1/2 <= n/d < r + 1/2. */
  function RoundHalfUp(n: nat, d: nat): (r: nat)
    requires d > 0
    ensures 2 * d * r <= 2 * n + d < 2 * d * (r + 1)
  {
    var q := (2 * n + d) / (2 * d);
    assert (2 * d) * q + (2 * n + d) % (2 * d) == 2 * n + d;
    q
  }

  /** A ratio of at most k rounds to at most k. */
  lemma RoundHalfUpAtMost(n: nat, d: nat, k: nat)
    requires d > 0
    requires n <= k * d
    ensures RoundHalfUp(n, d) <= k
  {
    var r := RoundHalfUp(n, d);
    assert 2 * d * r <= 2 * n + d;
    assert 2 * n + d <= 2 * d * k + d;
    assert 2 * d * r < 2 * d * (k + 1);
  }

  /** `Math.min(a, b)` */
  function Min(a: int, b: int): (r: int)
    ensures r <= a && r <= b
    ensures r == a || r == b
  {
    if a <= b then a else b
  }
}
