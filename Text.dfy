/**
 * The Python `str` operations the podcast core relies on, over code points
 * (Python's `len` and slicing count code points, as Dafny's `string` does).
 * Splitting, joining, stripping and replacing are defined here once, with the
 * facts about them that the chunker, the parsers and the intro builders use.
 */
module Text {

  /** Python's `str.isspace` for one code point (the characters `str.strip()` and `str.split()` skip). */
  predicate IsSpace(c: char) {
    || c == ' ' || ('\t' <= c <= '\r') || ('\U{1C}' <= c <= '\U{1F}')
    || c == '\U{85}' || c == '\U{A0}' || c == '\U{1680}'
    || ('\U{2000}' <= c <= '\U{200A}') || c == '\U{2028}' || c == '\U{2029}'
    || c == '\U{202F}' || c == '\U{205F}' || c == '\U{3000}'
  }

  predicate AllSpace(s: string) {
    forall i :: 0 <= i < |s| ==> IsSpace(s[i])
  }

  /** No whitespace at either end: the shape of anything `str.strip()` returns. */
  predicate IsStripped(s: string) {
    s == [] || (!IsSpace(s[0]) && !IsSpace(s[|s| - 1]))
  }

  /** `str.lstrip()`: the suffix left after dropping leading whitespace. */
  function TrimLeft(s: string): (r: string)
    ensures |r| <= |s|
  {
    if |s| > 0 && IsSpace(s[0]) then TrimLeft(s[1..]) else s
  }

  /** What `str.lstrip()` drops is whitespace, and what it keeps starts with none. */
  lemma {:induction false} TrimLeftShape(s: string)
    ensures TrimLeft(s) == s[|s| - |TrimLeft(s)|..]
    ensures AllSpace(s[..|s| - |TrimLeft(s)|])
    ensures TrimLeft(s) == [] || !IsSpace(TrimLeft(s)[0])
  {
    if |s| > 0 && IsSpace(s[0]) {
      var r := TrimLeft(s[1..]);
      TrimLeftShape(s[1..]);
      assert s[..|s| - |r|] == [s[0]] + s[1..][..|s| - 1 - |r|];
    }
  }

  /** `str.rstrip()`: the prefix left after dropping trailing whitespace. */
  function TrimRight(s: string): (r: string)
    ensures |r| <= |s|
  {
    if |s| > 0 && IsSpace(s[|s| - 1]) then TrimRight(s[..|s| - 1]) else s
  }

  /** What `str.rstrip()` drops is whitespace, and what it keeps ends with none. */
  lemma {:induction false} TrimRightShape(s: string)
    ensures TrimRight(s) == s[..|TrimRight(s)|]
    ensures AllSpace(s[|TrimRight(s)|..])
    ensures TrimRight(s) == [] || !IsSpace(TrimRight(s)[|TrimRight(s)| - 1])
  {
    if |s| > 0 && IsSpace(s[|s| - 1]) {
      var r := TrimRight(s[..|s| - 1]);
      TrimRightShape(s[..|s| - 1]);
      assert s[|r|..] == s[..|s| - 1][|r|..] + [s[|s| - 1]];
    }
  }

  /** `str.strip()` */
  function Strip(s: string): (r: string)
    ensures IsStripped(r) && |r| <= |s|
  {
    var l := TrimLeft(s);
    TrimLeftShape(s);
    TrimRightShape(l);
    StrippedShape(l, TrimRight(l));
    TrimRight(l)
  }

  lemma StrippedShape(l: string, r: string)
    requires l == [] || !IsSpace(l[0])
    requires |r| <= |l| && r == l[..|r|] && (r == [] || !IsSpace(r[|r| - 1]))
    ensures IsStripped(r)
  {
    if r != [] {
      assert r[0] == l[0];
    }
  }

  /** The non-whitespace characters of `s`, in order. */
  function NonSpace(s: string): (r: string)
    ensures |r| <= |s|
    ensures forall i :: 0 <= i < |r| ==> !IsSpace(r[i])
  {
    if s == [] then [] else (if IsSpace(s[0]) then [] else [s[0]]) + NonSpace(s[1..])
  }

  lemma {:induction false} NonSpaceAppend(a: string, b: string)
    ensures NonSpace(a + b) == NonSpace(a) + NonSpace(b)
  {
    if a == [] {
      assert a + b == b;
    } else {
      assert (a + b)[0] == a[0] && (a + b)[1..] == a[1..] + b;
      NonSpaceAppend(a[1..], b);
    }
  }

  lemma {:induction false} NonSpaceOfSpace(w: string)
    requires AllSpace(w)
    ensures NonSpace(w) == []
  {
    if w != [] {
      NonSpaceOfSpace(w[1..]);
    }
  }

  lemma NonSpaceTrimLeft(s: string)
    ensures NonSpace(TrimLeft(s)) == NonSpace(s)
  {
    var l := TrimLeft(s);
    var w := s[..|s| - |l|];
    TrimLeftShape(s);
    assert s == w + l;
    NonSpaceAppend(w, l);
    NonSpaceOfSpace(w);
  }

  lemma NonSpaceTrimRight(s: string)
    ensures NonSpace(TrimRight(s)) == NonSpace(s)
  {
    var r := TrimRight(s);
    var w := s[|r|..];
    TrimRightShape(s);
    assert s == r + w;
    NonSpaceAppend(r, w);
    NonSpaceOfSpace(w);
  }

  /** Stripping removes whitespace only. */
  lemma NonSpaceStrip(s: string)
    ensures NonSpace(Strip(s)) == NonSpace(s)
  {
    NonSpaceTrimLeft(s);
    NonSpaceTrimRight(TrimLeft(s));
  }

  /** `str.lstrip()` keeps a non-whitespace character at position `i`. */
  lemma TrimLeftKeeps(s: string, i: int)
    requires 0 <= i < |s| && !IsSpace(s[i])
    ensures |s| - |TrimLeft(s)| <= i
  {
    var w := s[..|s| - |TrimLeft(s)|];
    TrimLeftShape(s);
    assert forall j :: 0 <= j < |w| ==> w[j] == s[j];
  }

  /** `str.rstrip()` keeps a non-whitespace character at position `i`. */
  lemma TrimRightKeeps(s: string, i: int)
    requires 0 <= i < |s| && !IsSpace(s[i])
    ensures i < |TrimRight(s)|
  {
    var r := TrimRight(s);
    var v := s[|r|..];
    TrimRightShape(s);
    assert forall j :: |r| <= j < |s| ==> v[j - |r|] == s[j];
  }

  /** Stripping keeps every non-whitespace character. */
  lemma StripKeeps(s: string, c: char)
    requires c in s && !IsSpace(c)
    ensures c in Strip(s)
  {
    TrimLeftKeepsChar(s, c);
    TrimRightKeepsChar(TrimLeft(s), c);
  }

  lemma TrimLeftKeepsChar(s: string, c: char)
    requires c in s && !IsSpace(c)
    ensures c in TrimLeft(s)
  {
    var i :| 0 <= i < |s| && s[i] == c;
    var l := TrimLeft(s);
    TrimLeftKeeps(s, i);
    TrimLeftShape(s);
    assert l[i - (|s| - |l|)] == c;
  }

  lemma TrimRightKeepsChar(s: string, c: char)
    requires c in s && !IsSpace(c)
    ensures c in TrimRight(s)
  {
    var i :| 0 <= i < |s| && s[i] == c;
    TrimRightKeeps(s, i);
    TrimRightShape(s);
    assert TrimRight(s)[i] == c;
  }

  lemma {:induction false} TrimLeftSpacePrefix(w: string, s: string)
    requires AllSpace(w)
    ensures TrimLeft(w + s) == TrimLeft(s)
  {
    if w != [] {
      assert (w + s)[0] == w[0] && (w + s)[1..] == w[1..] + s;
      TrimLeftSpacePrefix(w[1..], s);
    } else {
      assert w + s == s;
    }
  }

  /** Whitespace in front of a string does not survive `strip()`. */
  lemma StripSpacePrefix(w: string, s: string)
    requires AllSpace(w)
    ensures Strip(w + s) == Strip(s)
  {
    TrimLeftSpacePrefix(w, s);
  }

  /** A string strips to nothing exactly when it is all whitespace. */
  lemma StripEmpty(s: string)
    ensures Strip(s) == [] <==> AllSpace(s)
  {
    var l := TrimLeft(s);
    TrimLeftShape(s);
    TrimRightShape(l);
    assert s[..|s|] == s;
    assert l[0..] == l;
  }

  lemma StripStripped(s: string)
    requires IsStripped(s)
    ensures Strip(s) == s
  {
  }

  /** Concatenation of a list of strings (`"".join(parts)`). */
  function Concat(parts: seq<string>): string {
    if parts == [] then [] else parts[0] + Concat(parts[1..])
  }

  lemma {:induction false} ConcatAppend(a: seq<string>, b: seq<string>)
    ensures Concat(a + b) == Concat(a) + Concat(b)
  {
    if a == [] {
      assert a + b == b;
    } else {
      assert (a + b)[0] == a[0] && (a + b)[1..] == a[1..] + b;
      ConcatAppend(a[1..], b);
    }
  }

  /** `sep.join(parts)` */
  function Join(parts: seq<string>, sep: string): string {
    if parts == [] then []
    else if |parts| == 1 then parts[0]
    else parts[0] + sep + Join(parts[1..], sep)
  }

  lemma {:induction false} JoinSnoc(parts: seq<string>, x: string, sep: string)
    requires parts != []
    ensures Join(parts + [x], sep) == Join(parts, sep) + sep + x
  {
    if |parts| == 1 {
      assert (parts + [x])[1..] == [x];
    } else {
      assert (parts + [x])[1..] == parts[1..] + [x];
      JoinSnoc(parts[1..], x, sep);
    }
  }

  /** A join opens with its first part. */
  lemma JoinFirst(parts: seq<string>, sep: string)
    requires parts != []
    ensures StartsWith(Join(parts, sep), parts[0])
  {
    if |parts| > 1 {
      assert Join(parts, sep) == parts[0] + (sep + Join(parts[1..], sep));
    }
  }

  /** A join closes with its last part. */
  lemma {:induction false} JoinLast(parts: seq<string>, sep: string)
    requires parts != []
    ensures EndsWith(Join(parts, sep), parts[|parts| - 1])
  {
    if |parts| > 1 {
      JoinLast(parts[1..], sep);
      var j := Join(parts, sep);
      var t := Join(parts[1..], sep);
      assert j == (parts[0] + sep) + t;
      assert j[|j| - |t|..] == t;
    }
  }

  /** Taking one more element of a sequence appends that element. */
  lemma TakeSnoc<T>(s: seq<T>, i: int)
    requires 0 <= i < |s|
    ensures s[..i + 1] == s[..i] + [s[i]]
  {
  }

  /** Two sequences of one length that agree at every index are equal. */
  lemma SeqExt<T>(a: seq<T>, b: seq<T>)
    requires |a| == |b| && forall t :: 0 <= t < |a| ==> a[t] == b[t]
    ensures a == b
  {
  }

  lemma SeqAssoc<T>(x: seq<T>, y: seq<T>, z: seq<T>)
    ensures (x + y) + z == x + (y + z)
  {
  }

  lemma SeqAssoc4<T>(a: seq<T>, b: seq<T>, c: seq<T>, d: seq<T>)
    ensures ((a + b) + c) + d == a + ((b + c) + d)
  {
  }

  /** A sequence is what comes before position `i`, the element there, and what comes after. */
  lemma Around<T>(s: seq<T>, i: int)
    requires 0 <= i < |s|
    ensures s == (s[..i] + [s[i]]) + s[i + 1..]
  {
  }

  /** A non-empty sequence is its first element followed by the rest. */
  lemma DropFirst<T>(s: seq<T>)
    requires s != []
    ensures s == [s[0]] + s[1..]
  {
  }

  /** A non-empty sequence is its front followed by its last element. */
  lemma DropLast<T>(s: seq<T>)
    requires s != []
    ensures s == s[..|s| - 1] + [s[|s| - 1]]
  {
  }

  /** `t in s` for strings: `t` occurs in `s` at some position. */
  predicate Contains(s: string, t: string) {
    exists i :: 0 <= i <= |s| && OccursAt(s, t, i)
  }

  /** `t` occurs in `s` starting at position `i`. */
  predicate OccursAt(s: string, t: string, i: int) {
    0 <= i && i + |t| <= |s| && s[i..i + |t|] == t
  }

  lemma OccursInMiddle(a: string, b: string, c: string)
    ensures OccursAt(a + b + c, b, |a|)
  {
    assert (a + b + c)[|a|..|a| + |b|] == b;
  }

  predicate StartsWith(s: string, p: string) {
    |p| <= |s| && s[..|p|] == p
  }

  predicate EndsWith(s: string, p: string) {
    |p| <= |s| && s[|s| - |p|..] == p
  }

  lemma StartsWithAppend(s: string, t: string, p: string)
    requires StartsWith(s, p)
    ensures StartsWith(s + t, p)
  {
    assert (s + t)[..|p|] == s[..|p|];
  }

  lemma StartsWithTrans(s: string, p: string, q: string)
    requires StartsWith(s, p) && StartsWith(p, q)
    ensures StartsWith(s, q)
  {
    assert s[..|q|] == s[..|p|][..|q|];
  }

  /**
   * `s.split(sep)` for a non-empty `sep`: the pieces between the occurrences
   * of `sep` found by scanning from the left, without overlaps.
   */
  function Split(s: string, sep: string): (parts: seq<string>)
    requires |sep| > 0
    ensures |parts| >= 1
    decreases |s|
  {
    if |s| < |sep| then [s]
    else if s[..|sep|] == sep then [[]] + Split(s[|sep|..], sep)
    else
      var rest := Split(s[1..], sep);
      [[s[0]] + rest[0]] + rest[1..]
  }

  lemma JoinCons(x: string, y: string, tail: seq<string>, sep: string)
    ensures Join([x + y] + tail, sep) == x + Join([y] + tail, sep)
  {
    assert ([x + y] + tail)[1..] == tail == ([y] + tail)[1..];
  }

  /** Splitting and joining with the same separator gives the string back. */
  lemma {:induction false} JoinSplit(s: string, sep: string)
    requires |sep| > 0
    ensures Join(Split(s, sep), sep) == s
    decreases |s|
  {
    if |s| < |sep| {
    } else if s[..|sep|] == sep {
      JoinSplit(s[|sep|..], sep);
      JoinSplitAtSep(s, sep);
    } else {
      JoinSplit(s[1..], sep);
      JoinSplitPast(s, sep);
    }
  }

  lemma JoinSplitAtSep(s: string, sep: string)
    requires |sep| > 0 && |s| >= |sep| && s[..|sep|] == sep
    requires Join(Split(s[|sep|..], sep), sep) == s[|sep|..]
    ensures Join(Split(s, sep), sep) == s
  {
    var rest := Split(s[|sep|..], sep);
    assert Split(s, sep) == [[]] + rest;
    JoinConsSep([], rest, sep);
    SliceSplit(s, |sep|);
    assert [] + sep == sep;
  }

  /** A sequence is its prefix up to `k` followed by the rest. */
  lemma SliceSplit<T>(s: seq<T>, k: int)
    requires 0 <= k <= |s|
    ensures s == s[..k] + s[k..]
  {
  }

  lemma JoinConsSep(x: string, tail: seq<string>, sep: string)
    requires tail != []
    ensures Join([x] + tail, sep) == x + sep + Join(tail, sep)
  {
    assert ([x] + tail)[1..] == tail;
  }

  lemma JoinSplitPast(s: string, sep: string)
    requires |sep| > 0 && |s| >= |sep| && s[..|sep|] != sep
    requires Join(Split(s[1..], sep), sep) == s[1..]
    ensures Join(Split(s, sep), sep) == s
  {
    var rest := Split(s[1..], sep);
    DropFirst(rest);
    JoinCons([s[0]], rest[0], rest[1..], sep);
    DropFirst(s);
  }

  /** The first piece of a split is a prefix of the string. */
  lemma FirstPieceIsPrefix(s: string, sep: string)
    requires |sep| > 0
    ensures StartsWith(s, Split(s, sep)[0])
  {
    var parts := Split(s, sep);
    JoinSplit(s, sep);
    if |parts| > 1 {
      assert Join(parts, sep) == parts[0] + sep + Join(parts[1..], sep);
    }
  }

  /** No piece of a split contains the separator. */
  lemma {:induction false} SplitPiecesFree(s: string, sep: string)
    requires |sep| > 0
    ensures forall k :: 0 <= k < |Split(s, sep)| ==> !Contains(Split(s, sep)[k], sep)
    decreases |s|
  {
    if |s| < |sep| {
    } else if s[..|sep|] == sep {
      SplitPiecesFree(s[|sep|..], sep);
      SplitFreeAtSep(s, sep);
    } else {
      SplitPiecesFree(s[1..], sep);
      SplitFreePast(s, sep);
    }
  }

  lemma SplitFreeAtSep(s: string, sep: string)
    requires |sep| > 0 && |s| >= |sep| && s[..|sep|] == sep
    requires forall k :: 0 <= k < |Split(s[|sep|..], sep)| ==> !Contains(Split(s[|sep|..], sep)[k], sep)
    ensures forall k :: 0 <= k < |Split(s, sep)| ==> !Contains(Split(s, sep)[k], sep)
  {
    var parts, rest := Split(s, sep), Split(s[|sep|..], sep);
    assert parts == [[]] + rest;
    forall k | 0 <= k < |parts| ensures !Contains(parts[k], sep) {
      if k > 0 {
        assert parts[k] == rest[k - 1];
      }
    }
  }

  lemma SplitFreePast(s: string, sep: string)
    requires |sep| > 0 && |s| >= |sep| && s[..|sep|] != sep
    requires forall k :: 0 <= k < |Split(s[1..], sep)| ==> !Contains(Split(s[1..], sep)[k], sep)
    ensures forall k :: 0 <= k < |Split(s, sep)| ==> !Contains(Split(s, sep)[k], sep)
  {
    var parts, rest := Split(s, sep), Split(s[1..], sep);
    FirstPieceFree(s, sep);
    forall k | 0 <= k < |parts| ensures !Contains(parts[k], sep) {
      if k > 0 {
        assert parts[k] == rest[k];
      }
    }
  }

  /** The first piece, grown by the character in front, still holds no separator. */
  lemma FirstPieceFree(s: string, sep: string)
    requires |sep| > 0 && |s| >= |sep| && s[..|sep|] != sep
    requires !Contains(Split(s[1..], sep)[0], sep)
    ensures !Contains([s[0]] + Split(s[1..], sep)[0], sep)
  {
    FirstPieceIsPrefix(s[1..], sep);
    ConsPrefix(s, Split(s[1..], sep)[0]);
    ConsFree(s[0], Split(s[1..], sep)[0], s, sep);
  }

  lemma ConsPrefix(s: string, p: string)
    requires |s| > 0 && StartsWith(s[1..], p)
    ensures StartsWith(s, [s[0]] + p)
  {
    assert s[..|p| + 1] == [s[0]] + s[1..][..|p|];
  }

  /** A separator-free string grown by one character in front, where `s` does not open with the separator. */
  lemma ConsFree(c: char, r: string, s: string, sep: string)
    requires |sep| > 0 && |s| >= |sep| && StartsWith(s, [c] + r) && s[..|sep|] != sep && !Contains(r, sep)
    ensures !Contains([c] + r, sep)
  {
    var first := [c] + r;
    forall i | 0 <= i <= |first| ensures !OccursAt(first, sep, i) {
      if i == 0 {
        if |sep| <= |first| {
          assert s[..|sep|] == first[..|sep|];
        }
      } else if i + |sep| <= |first| {
        assert r[i - 1..i - 1 + |sep|] == first[i..i + |sep|];
        assert !OccursAt(r, sep, i - 1);
      }
    }
  }

  /** A one-character separator occurs exactly when the character does. */
  lemma ContainsChar(s: string, c: char)
    ensures Contains(s, [c]) <==> c in s
  {
    forall i | 0 <= i < |s|
      ensures OccursAt(s, [c], i) <==> s[i] == c
    {
      assert s[i..i + 1] == [s[i]];
    }
    if c in s {
      var i :| 0 <= i < |s| && s[i] == c;
      assert OccursAt(s, [c], i);
    }
  }

  /** A string without the separator is its own single piece. */
  lemma {:induction false} SplitWithout(s: string, sep: string)
    requires |sep| > 0
    requires !Contains(s, sep)
    ensures Split(s, sep) == [s]
    decreases |s|
  {
    if |s| >= |sep| {
      assert !OccursAt(s, sep, 0);
      assert s[..|sep|] != sep;
      assert !Contains(s[1..], sep) by {
        forall i | OccursAt(s[1..], sep, i) ensures OccursAt(s, sep, i + 1) {
          assert s[1..][i..i + |sep|] == s[i + 1..i + 1 + |sep|];
        }
      }
      SplitWithout(s[1..], sep);
      assert s == [s[0]] + s[1..];
    }
  }

  /** A string that contains the separator splits into at least two pieces. */
  lemma SplitWith(s: string, sep: string)
    requires |sep| > 0
    requires Contains(s, sep)
    ensures |Split(s, sep)| >= 2
  {
    JoinSplit(s, sep);
    SplitPiecesFree(s, sep);
  }

  /** Splitting on one character splits each side of an occurrence of it independently. */
  lemma {:induction false} SplitAtChar(a: string, c: char, b: string)
    ensures Split(a + [c] + b, [c]) == Split(a, [c]) + Split(b, [c])
    decreases |a|
  {
    var s := a + [c] + b;
    if a == [] {
      assert s == [c] + b && s[1..] == b;
    } else if a[0] == c {
      assert s[..1] == [c] && s[1..] == a[1..] + [c] + b;
      SplitAtChar(a[1..], c, b);
    } else {
      assert s[..1] != [c] && s[1..] == a[1..] + [c] + b && s[0] == a[0];
      assert a[..1] != [c];
      SplitAtChar(a[1..], c, b);
    }
  }

  /** `s.replace(target, replacement)` for a non-empty `target` is `replacement.join(s.split(target))`. */
  function Replace(s: string, target: string, replacement: string): string
    requires |target| > 0
  {
    Join(Split(s, target), replacement)
  }

  /** Joining with separators that have the same non-whitespace characters keeps the non-whitespace characters. */
  lemma {:induction false} NonSpaceJoin(parts: seq<string>, a: string, b: string)
    requires NonSpace(a) == NonSpace(b)
    ensures NonSpace(Join(parts, a)) == NonSpace(Join(parts, b))
  {
    if |parts| > 1 {
      NonSpaceJoin(parts[1..], a, b);
      NonSpaceAppend(parts[0] + a, Join(parts[1..], a));
      NonSpaceAppend(parts[0], a);
      NonSpaceAppend(parts[0] + b, Join(parts[1..], b));
      NonSpaceAppend(parts[0], b);
    }
  }

  /** Joining with a whitespace separator keeps exactly the parts' non-whitespace characters. */
  lemma {:induction false} NonSpaceJoinConcat(parts: seq<string>, sep: string)
    requires AllSpace(sep)
    ensures NonSpace(Join(parts, sep)) == NonSpace(Concat(parts))
  {
    if |parts| == 1 {
      assert Concat(parts) == parts[0] + Concat([]);
      assert parts[0] + [] == parts[0];
    } else if |parts| > 1 {
      NonSpaceJoinConcat(parts[1..], sep);
      NonSpaceOfSpace(sep);
      NonSpaceAppend(parts[0] + sep, Join(parts[1..], sep));
      NonSpaceAppend(parts[0], sep);
      NonSpaceAppend(parts[0], Concat(parts[1..]));
    }
  }

  /** Replacing a separator by one with the same non-whitespace characters keeps the non-whitespace characters. */
  lemma NonSpaceReplace(s: string, target: string, replacement: string)
    requires |target| > 0 && NonSpace(target) == NonSpace(replacement)
    ensures NonSpace(Replace(s, target, replacement)) == NonSpace(s)
  {
    JoinSplit(s, target);
    NonSpaceJoin(Split(s, target), replacement, target);
  }

  /** ASCII `str.lower()` on one character. */
  function LowerChar(c: char): char {
    if 'A' <= c <= 'Z' then (c as int + 32) as char else c
  }

  function Lower(s: string): (r: string)
    ensures |r| == |s|
  {
    seq(|s|, i requires 0 <= i < |s| => LowerChar(s[i]))
  }

  /** `len(s.split())`: the number of maximal runs of non-whitespace characters. */
  function WordCount(s: string): nat {
    if s == [] then 0
    else (if !IsSpace(s[0]) && (|s| == 1 || IsSpace(s[1])) then 1 else 0) + WordCount(s[1..])
  }
}
