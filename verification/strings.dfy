/** Python `str` operations used by the modelled code, over `seq<char>`.

    Each function follows CPython's semantics for the argument shapes the
    system uses: `replace` and `split` scan left to right for non-overlapping
    occurrences, `rstrip(c)` drops a run of trailing `c`, `strip()` drops
    leading and trailing whitespace as `str.isspace` defines it. */
module Strings {
  import opened Wrappers

  /** `str.isspace` / the `\s` class of `re` on `str` patterns: the ASCII
      controls 9-13 and 28-31, space, and the Unicode whitespace code points. */
  predicate IsSpace(c: char) {
    || ('\t' <= c <= '\r')
    || ('\U{1C}' <= c <= '\U{1F}')
    || c == ' '
    || c == '\U{85}'
    || c == '\U{A0}'
    || c == '\U{1680}'
    || ('\U{2000}' <= c <= '\U{200A}')
    || c == '\U{2028}'
    || c == '\U{2029}'
    || c == '\U{202F}'
    || c == '\U{205F}'
    || c == '\U{3000}'
  }

  predicate IsDigit(c: char) {
    '0' <= c <= '9'
  }

  predicate NoSpace(s: string) {
    forall k :: 0 <= k < |s| ==> !IsSpace(s[k])
  }

  predicate AllDigits(s: string) {
    forall k :: 0 <= k < |s| ==> IsDigit(s[k])
  }

  predicate IsPrefix(p: string, s: string) {
    |p| <= |s| && s[..|p|] == p
  }

  predicate IsSuffix(p: string, s: string) {
    |p| <= |s| && s[|s| - |p|..] == p
  }

  /** `pat` occurs in `s` starting at index `i`. */
  predicate OccursAt(s: string, pat: string, i: int) {
    0 <= i && i + |pat| <= |s| && s[i..i + |pat|] == pat
  }

  lemma OccursShift(s: string, pat: string, i: int)
    requires |s| > 0 && i >= 0
    ensures OccursAt(s[1..], pat, i) <==> OccursAt(s, pat, i + 1)
  {
    if 0 <= i && i + |pat| <= |s| - 1 {
      assert s[1..][i..i + |pat|] == s[i + 1..i + 1 + |pat|];
    }
  }

  lemma OccursInPrefix(s: string, n: int, pat: string, j: int)
    requires 0 <= n <= |s|
    ensures OccursAt(s[..n], pat, j) ==> OccursAt(s, pat, j)
  {
    if OccursAt(s[..n], pat, j) {
      assert s[..n][j..j + |pat|] == s[j..j + |pat|];
    }
  }

  /** Python's `pat in s`. */
  predicate Contains(s: string, pat: string) {
    exists i | 0 <= i <= |s| - |pat| :: OccursAt(s, pat, i)
  }

  /** Whatever contains `x + y` contains `x`. */
  lemma ContainsHead(s: string, x: string, y: string)
    requires Contains(s, x + y)
    ensures Contains(s, x)
  {
    var i :| 0 <= i <= |s| - |x + y| && OccursAt(s, x + y, i);
    assert s[i..i + |x|] == (x + y)[..|x|];
    assert OccursAt(s, x, i);
  }

  /** `s.removesuffix(suf)`. */
  function RemoveSuffix(s: string, suf: string): (r: string)
    ensures IsSuffix(suf, s) ==> r + suf == s
    ensures !IsSuffix(suf, s) ==> r == s
  {
    if IsSuffix(suf, s) then s[..|s| - |suf|] else s
  }

  /** `s.rstrip(c)` for a single character `c`. */
  function RStripChar(s: string, c: char): (r: string)
    ensures IsPrefix(r, s)
    ensures |r| == 0 || r[|r| - 1] != c
    ensures forall k :: |r| <= k < |s| ==> s[k] == c
  {
    if |s| > 0 && s[|s| - 1] == c then RStripChar(s[..|s| - 1], c) else s
  }

  /** Drops trailing whitespace (`str.rstrip()`). */
  function RStripSpace(s: string): (r: string)
    ensures IsPrefix(r, s)
    ensures |r| == 0 || !IsSpace(r[|r| - 1])
    ensures forall k :: |r| <= k < |s| ==> IsSpace(s[k])
  {
    if |s| > 0 && IsSpace(s[|s| - 1]) then RStripSpace(s[..|s| - 1]) else s
  }

  /** Drops leading whitespace (`str.lstrip()`). */
  function LStripSpace(s: string): (r: string)
    ensures IsSuffix(r, s)
    ensures |r| == 0 || !IsSpace(r[0])
    ensures forall k :: 0 <= k < |s| - |r| ==> IsSpace(s[k])
  {
    if |s| > 0 && IsSpace(s[0]) then LStripSpace(s[1..]) else s
  }

  /** `s.strip()`. */
  function Strip(s: string): (r: string)
    ensures |r| == 0 || (!IsSpace(r[0]) && !IsSpace(r[|r| - 1]))
  {
    RStripSpace(LStripSpace(s))
  }

  /** Trailing whitespace is stripped only from the part after the last
      non-space character. */
  lemma {:induction false} RStripAppend(a: string, b: string)
    requires |a| > 0 && !IsSpace(a[|a| - 1])
    ensures RStripSpace(a + b) == a + RStripSpace(b)
    decreases |b|
  {
    if |b| == 0 {
      assert a + b == a;
    } else if IsSpace(b[|b| - 1]) {
      assert (a + b)[..|a + b| - 1] == a + b[..|b| - 1];
      RStripAppend(a, b[..|b| - 1]);
    }
  }

  /** A text that starts and ends with non-space characters is its own
      strip. */
  lemma StripTrimmed(s: string)
    requires |s| > 0 && !IsSpace(s[0]) && !IsSpace(s[|s| - 1])
    ensures Strip(s) == s
  {
  }

  /** `s.replace(pat, rep)`: every leftmost non-overlapping occurrence of
      `pat` is replaced by `rep`. */
  function ReplaceAll(s: string, pat: string, rep: string): (r: string)
    requires |pat| > 0
    ensures !Contains(s, pat) ==> r == s
    ensures |rep| <= |pat| ==> |r| <= |s|
    decreases |s|
  {
    if |s| == 0 then s
    else if IsPrefix(pat, s) then
      assert OccursAt(s, pat, 0);
      rep + ReplaceAll(s[|pat|..], pat, rep)
    else
      var rest := ReplaceAll(s[1..], pat, rep);
      assert !Contains(s, pat) ==> !Contains(s[1..], pat) by {
        if Contains(s[1..], pat) {
          var i :| 0 <= i <= |s[1..]| - |pat| && OccursAt(s[1..], pat, i);
          OccursShift(s, pat, i);
        }
      }
      [s[0]] + rest
  }

  /** Index of the leftmost occurrence of `pat` in `s`, as `str.find`. */
  function FirstIndex(s: string, pat: string): (r: Option<nat>)
    ensures r.Some? ==> OccursAt(s, pat, r.value)
    ensures r.Some? ==> forall j :: 0 <= j < r.value ==> !OccursAt(s, pat, j)
    ensures r.None? <==> !Contains(s, pat)
    decreases |s|
  {
    if |pat| > |s| then None
    else if s[..|pat|] == pat then
      assert OccursAt(s, pat, 0);
      Some(0)
    else
      var rest := FirstIndex(s[1..], pat);
      if rest.None? then
        assert !Contains(s, pat) by {
          if Contains(s, pat) {
            var i :| 0 <= i <= |s| - |pat| && OccursAt(s, pat, i);
            assert i != 0;
            OccursShift(s, pat, i - 1);
          }
        }
        None
      else
        assert forall j :: 1 <= j < rest.value + 1 ==> !OccursAt(s, pat, j) by {
          forall j | 1 <= j < rest.value + 1
            ensures !OccursAt(s, pat, j)
          {
            OccursShift(s, pat, j - 1);
          }
        }
        OccursShift(s, pat, rest.value);
        Some(rest.value + 1)
  }

  /** `sep.join(xs)`. */
  function Join(xs: seq<string>, sep: string): (r: string)
    decreases |xs|
  {
    if |xs| == 0 then ""
    else if |xs| == 1 then xs[0]
    else xs[0] + sep + Join(xs[1..], sep)
  }

  /** `s.split(sep)` for a non-empty separator. */
  function Split(s: string, sep: string): (r: seq<string>)
    requires |sep| > 0
    ensures |r| >= 1
    decreases |s|
  {
    match FirstIndex(s, sep)
    case None => [s]
    case Some(i) => [s[..i]] + Split(s[i + |sep|..], sep)
  }

  /** No piece of a split contains the separator. */
  lemma {:induction false} SplitPiecesFree(s: string, sep: string)
    requires |sep| > 0
    ensures forall k :: 0 <= k < |Split(s, sep)| ==> !Contains(Split(s, sep)[k], sep)
    decreases |s|
  {
    var fi := FirstIndex(s, sep);
    if fi.Some? {
      var i := fi.value;
      assert !Contains(s[..i], sep) by {
        if Contains(s[..i], sep) {
          var j :| 0 <= j <= |s[..i]| - |sep| && OccursAt(s[..i], sep, j);
          OccursInPrefix(s, i, sep, j);
        }
      }
      SplitPiecesFree(s[i + |sep|..], sep);
    }
  }

  /** Splitting and re-joining with the same separator gives back the text. */
  lemma {:induction false} SplitJoin(s: string, sep: string)
    requires |sep| > 0
    ensures Join(Split(s, sep), sep) == s
    decreases |s|
  {
    var fi := FirstIndex(s, sep);
    if fi.Some? {
      var i := fi.value;
      var head, tail := s[..i], s[i + |sep|..];
      SplitJoin(tail, sep);
      JoinCons(head, Split(tail, sep), sep);
      CutAt(s, sep, i);
    }
  }

  /** A text is what precedes an occurrence, the occurrence, and what
      follows. */
  lemma CutAt(s: string, pat: string, i: nat)
    requires OccursAt(s, pat, i)
    ensures s == s[..i] + pat + s[i + |pat|..]
  {
    assert s == s[..i] + s[i..i + |pat|] + s[i + |pat|..];
  }

  lemma JoinCons(x: string, xs: seq<string>, sep: string)
    requires |xs| > 0
    ensures Join([x] + xs, sep) == x + sep + Join(xs, sep)
  {
    assert ([x] + xs)[1..] == xs;
  }

  /** `s.split(sep)[-1]`: the text after the last occurrence of `sep`. */
  function LastPiece(s: string, sep: string): (r: string)
    requires |sep| > 0
    ensures !Contains(r, sep)
  {
    var ps := Split(s, sep);
    SplitPiecesFree(s, sep);
    ps[|ps| - 1]
  }

  lemma {:induction false} JoinLast(xs: seq<string>, sep: string)
    requires |xs| >= 2
    ensures Join(xs, sep) == Join(xs[..|xs| - 1], sep) + sep + xs[|xs| - 1]
    decreases |xs|
  {
    if |xs| > 2 {
      JoinLast(xs[1..], sep);
      assert xs[1..][..|xs| - 2] == xs[..|xs| - 1][1..];
    }
  }

  /** The last piece is a suffix of the text; when `sep` occurs it is
      exactly what follows the last occurrence. */
  lemma LastPieceShape(s: string, sep: string)
    requires |sep| > 0
    ensures IsSuffix(LastPiece(s, sep), s)
    ensures !Contains(s, sep) ==> LastPiece(s, sep) == s
    ensures Contains(s, sep) ==>
      exists pre :: s == pre + sep + LastPiece(s, sep)
  {
    var ps := Split(s, sep);
    SplitJoin(s, sep);
    if |ps| >= 2 {
      JoinLast(ps, sep);
      var pre := Join(ps[..|ps| - 1], sep);
      assert s == pre + sep + LastPiece(s, sep);
    } else {
      assert s == ps[0];
    }
  }

  /** An occurrence starts with the pattern's first character. */
  lemma OccursAtHead(s: string, pat: string, j: int)
    requires |pat| > 0 && OccursAt(s, pat, j)
    ensures s[j] == pat[0]
  {
    assert s[j..j + |pat|][0] == s[j];
  }

  /** No occurrence starts at a character other than the pattern's first. */
  lemma NotOccursAtHead(s: string, pat: string, j: int)
    requires |pat| > 0 && 0 <= j < |s| && s[j] != pat[0]
    ensures !OccursAt(s, pat, j)
  {
    if j + |pat| <= |s| {
      assert s[j..j + |pat|][0] == s[j];
    }
  }

  /** A one-character pattern occurs exactly where that character is. */
  lemma OccursAtChar(s: string, c: char, j: int)
    ensures OccursAt(s, [c], j) <==> 0 <= j < |s| && s[j] == c
  {
    if 0 <= j < |s| {
      assert s[j..j + 1] == [s[j]];
    }
  }

  /** Characterises `FirstIndex` by its two defining facts. */
  lemma FirstIndexIs(s: string, pat: string, i: nat)
    requires OccursAt(s, pat, i)
    requires forall j :: 0 <= j < i ==> !OccursAt(s, pat, j)
    ensures FirstIndex(s, pat) == Some(i)
  {
    assert Contains(s, pat);
  }

  /** Occurrences of a pattern whose first character does not recur in it
      never overlap. */
  lemma NoOverlap(s: string, sep: string, a: int, b: int)
    requires |sep| > 0 && sep[0] !in sep[1..]
    requires OccursAt(s, sep, a) && OccursAt(s, sep, b) && a < b
    ensures a + |sep| <= b
  {
    if b < a + |sep| {
      OccursAtHead(s, sep, b);
      assert false;
    }
  }

  lemma OccursInSuffix(s: string, sep: string, k: int, b: int)
    requires 0 <= k <= b && OccursAt(s, sep, b)
    ensures OccursAt(s[k..], sep, b - k)
  {
    assert s[k..][b - k..b - k + |sep|] == s[b..b + |sep|];
  }

  /** When the separator's first character does not recur in it, the text
      after the last separator of `pre + sep + tail` is `tail` whenever `tail`
      holds no separator. */
  lemma LastPieceIsTail(pre: string, sep: string, tail: string)
    requires |sep| > 0 && sep[0] !in sep[1..]
    requires !Contains(tail, sep)
    ensures LastPiece(pre + sep + tail, sep) == tail
  {
    var s := pre + sep + tail;
    var last := LastPiece(s, sep);
    LastPieceShape(s, sep);
    assert s[|pre|..|pre| + |sep|] == sep;
    assert OccursAt(s, sep, |pre|);
    var p :| s == p + sep + last;
    assert s[|p|..|p| + |sep|] == sep;
    assert OccursAt(s, sep, |p|);
    assert s[|pre| + |sep|..] == tail;
    assert s[|p| + |sep|..] == last;
    if |p| < |pre| {
      NoOverlap(s, sep, |p|, |pre|);
      OccursInSuffix(s, sep, |p| + |sep|, |pre|);
      assert false;
    } else if |pre| < |p| {
      NoOverlap(s, sep, |pre|, |p|);
      OccursInSuffix(s, sep, |pre| + |sep|, |p|);
      assert false;
    }
  }

  /** A suffix no longer than `b` is a suffix of `a + b` exactly when it is a
      suffix of `b`. */
  lemma SuffixOfConcat(x: string, a: string, b: string)
    requires |x| <= |b|
    ensures IsSuffix(x, a + b) <==> IsSuffix(x, b)
  {
    assert (a + b)[|a + b| - |x|..] == b[|b| - |x|..];
  }

  /** `sep.join(xs + ys)` joins the two joins with one more separator. */
  lemma {:induction false} JoinAppend(xs: seq<string>, ys: seq<string>, sep: string)
    requires |xs| > 0 && |ys| > 0
    ensures Join(xs + ys, sep) == Join(xs, sep) + sep + Join(ys, sep)
    decreases |xs|
  {
    if |xs| == 1 {
      JoinCons(xs[0], ys, sep);
      assert xs + ys == [xs[0]] + ys;
    } else {
      JoinAppend(xs[1..], ys, sep);
      assert (xs + ys)[1..] == xs[1..] + ys;
    }
  }

  /** A text contains whatever sits between a prefix and a suffix of it. */
  lemma ContainsInfix(a: string, x: string, b: string)
    ensures Contains(a + x + b, x)
  {
    assert (a + x + b)[|a|..|a| + |x|] == x;
    assert OccursAt(a + x + b, x, |a|);
  }

  /** A pattern holding a character the text lacks does not occur in it. */
  lemma CharWitness(s: string, pat: string, c: char)
    requires c in pat && c !in s
    ensures !Contains(s, pat)
  {
  }

  /** A pattern free of `c` that occurs in neither side of a `c` does not
      occur across it. */
  lemma NoStraddle(x: string, c: char, y: string, pat: string)
    requires c !in pat && !Contains(x, pat) && !Contains(y, pat)
    ensures !Contains(x + [c] + y, pat)
  {
    var s := x + [c] + y;
    forall i | 0 <= i <= |s| - |pat| ensures !OccursAt(s, pat, i) {
      if i + |pat| <= |x| {
        assert s[i..i + |pat|] == x[i..i + |pat|];
        assert !OccursAt(x, pat, i);
      } else if i > |x| {
        var j := i - |x| - 1;
        assert s[i..i + |pat|] == y[j..j + |pat|];
        assert !OccursAt(y, pat, j);
      } else {
        assert s[i..i + |pat|][|x| - i] == c;
      }
    }
  }

  /** A pattern free of `c` occurs in the `c`-join of lines only if it occurs
      in one of the lines. */
  lemma {:induction false} JoinFree(lines: seq<string>, c: char, pat: string)
    requires |pat| > 0 && c !in pat
    requires forall k :: 0 <= k < |lines| ==> !Contains(lines[k], pat)
    ensures !Contains(Join(lines, [c]), pat)
    decreases |lines|
  {
    if |lines| > 1 {
      JoinFree(lines[1..], c, pat);
      NoStraddle(lines[0], c, Join(lines[1..], [c]), pat);
    }
  }

  /** A text contains every run of consecutive lines of a join, joined. */
  lemma JoinContainsRun(lines: seq<string>, k: nat, n: nat, sep: string)
    requires n >= 1 && k + n <= |lines|
    ensures Contains(Join(lines, sep), Join(lines[k..k + n], sep))
  {
    var mid := lines[k..k + n];
    var rest := lines[k..];
    var post: string := if k + n == |lines| then "" else sep + Join(lines[k + n..], sep);
    assert Join(rest, sep) == Join(mid, sep) + post by {
      if k + n < |lines| {
        assert rest == mid + lines[k + n..];
        JoinAppend(mid, lines[k + n..], sep);
      } else {
        assert rest == mid;
      }
    }
    var pre: string := if k == 0 then "" else Join(lines[..k], sep) + sep;
    assert Join(lines, sep) == pre + Join(rest, sep) by {
      if k > 0 {
        assert lines == lines[..k] + rest;
        JoinAppend(lines[..k], rest, sep);
      } else {
        assert lines == rest;
      }
    }
    ContainsInfix(pre, Join(mid, sep), post);
    assert pre + Join(rest, sep) == pre + Join(mid, sep) + post;
  }

  /** The blocks of lines, one after another. */
  function Flatten(blocks: seq<seq<string>>): seq<string>
    decreases |blocks|
  {
    if |blocks| == 0 then [] else Flatten(blocks[..|blocks| - 1]) + blocks[|blocks| - 1]
  }

  /** Blocks of `w` lines each flatten to `w` lines per block. */
  lemma {:induction false} FlattenLength(blocks: seq<seq<string>>, w: nat)
    requires forall k :: 0 <= k < |blocks| ==> |blocks[k]| == w
    ensures |Flatten(blocks)| == w * |blocks|
    decreases |blocks|
  {
    if |blocks| > 0 {
      var n := |blocks| - 1;
      FlattenLength(blocks[..n], w);
      assert w * (n + 1) == w * n + w;
    }
  }

  /** Block `i` sits at lines `w * i` to `w * i + w - 1`. */
  lemma {:induction false} FlattenAt(blocks: seq<seq<string>>, w: nat, i: nat)
    requires forall k :: 0 <= k < |blocks| ==> |blocks[k]| == w
    requires i < |blocks|
    ensures |Flatten(blocks)| == w * |blocks|
    ensures w * i + w <= w * |blocks|
    ensures Flatten(blocks)[w * i..w * i + w] == blocks[i]
    decreases |blocks|
  {
    FlattenLength(blocks, w);
    assert w * (i + 1) == w * i + w;
    MulMono(w, i + 1, |blocks|);
    var n := |blocks| - 1;
    var front := Flatten(blocks[..n]);
    FlattenLength(blocks[..n], w);
    assert Flatten(blocks) == front + blocks[n];
    if i < n {
      FlattenAt(blocks[..n], w, i);
      assert w * (i + 1) == w * i + w;
      MulMono(w, i + 1, n);
      assert Flatten(blocks)[w * i..w * i + w] == front[w * i..w * i + w];
    } else {
      assert Flatten(blocks)[w * i..w * i + w] == blocks[n];
    }
  }

  lemma MulMono(w: nat, a: nat, b: nat)
    requires a <= b
    ensures w * a <= w * b
  {
  }

  /** Splitting a join on a one-character separator no line holds gives
      the lines back. */
  lemma {:induction false} JoinSplitChar(xs: seq<string>, c: char)
    requires |xs| > 0
    requires forall k :: 0 <= k < |xs| ==> c !in xs[k]
    ensures Split(Join(xs, [c]), [c]) == xs
    decreases |xs|
  {
    var s := Join(xs, [c]);
    if |xs| == 1 {
      CharWitness(xs[0], [c], c);
    } else {
      var x := xs[0];
      var rest := Join(xs[1..], [c]);
      assert s == x + [c] + rest;
      SplitFirstChar(x, c, rest);
      JoinSplitChar(xs[1..], c);
      assert xs == [x] + xs[1..];
    }
  }

  /** Splitting on a character the first piece lacks cuts at the first
      occurrence. */
  lemma SplitFirstChar(x: string, c: char, rest: string)
    requires c !in x
    ensures Split(x + [c] + rest, [c]) == [x] + Split(rest, [c])
  {
    var s := x + [c] + rest;
    OccursAtChar(s, c, |x|);
    forall j | 0 <= j < |x| ensures !OccursAt(s, [c], j) {
      OccursAtChar(s, c, j);
      assert s[j] == x[j];
    }
    FirstIndexIs(s, [c], |x|);
    assert s[..|x|] == x;
    assert s[|x| + 1..] == rest;
  }

  /** A line that starts with the separator is the same as an empty line
      before the rest of it. */
  lemma JoinLeadingSep(a: seq<string>, h: string, b: seq<string>, sep: string)
    requires |a| > 0
    ensures Join(a + [sep + h] + b, sep) == Join(a + ["", h] + b, sep)
  {
    var x := sep + h;
    var t1 := [x] + b;
    var t2 := ["", h] + b;
    assert a + [x] + b == a + t1;
    assert a + ["", h] + b == a + t2;
    JoinAppend(a, t1, sep);
    JoinAppend(a, t2, sep);
    assert t2[1..] == [h] + b;
    if |b| > 0 {
      JoinCons(x, b, sep);
      JoinCons(h, b, sep);
      assert Join(t2, sep) == "" + sep + Join([h] + b, sep);
    } else {
      assert Join(t2, sep) == "" + sep + Join([h], sep);
    }
  }

  /** The concatenation of a list of pieces (`"".join(ps)`). */
  function Concat(ps: seq<string>): string
    decreases |ps|
  {
    if |ps| == 0 then "" else ps[0] + Concat(ps[1..])
  }

  /** A character absent from every piece is absent from their
      concatenation. */
  lemma {:induction false} ConcatFree(ps: seq<string>, c: char)
    requires forall k :: 0 <= k < |ps| ==> c !in ps[k]
    ensures c !in Concat(ps)
    decreases |ps|
  {
    if |ps| > 0 {
      ConcatFree(ps[1..], c);
      assert c !in ps[0];
    }
  }

  /** Decimal rendering of a natural number (`str(n)`). */
  function NatToString(n: nat): (r: string)
    ensures |r| > 0 && AllDigits(r)
    decreases n
  {
    var d := ['0' + (n % 10) as char];
    if n < 10 then d else NatToString(n / 10) + d
  }

  /** `str(i)` for a Python `int`. */
  function IntToString(i: int): (r: string)
    ensures |r| > 0
  {
    if i < 0 then "-" + NatToString(-i) else NatToString(i)
  }

  /** Value of a string of decimal digits. */
  function DigitsValue(s: string): (v: nat)
    requires AllDigits(s)
    decreases |s|
  {
    if |s| == 0 then 0
    else DigitsValue(s[..|s| - 1]) * 10 + (s[|s| - 1] - '0') as nat
  }

  /** `int(s)` on digit text with single `_` separators between digits and
      optional surrounding whitespace and sign; `None` where Python raises
      ValueError. */
  function ParseInt(s: string): (r: Option<int>)
    ensures |s| > 0 && AllDigits(s) ==> r == Some(DigitsValue(s))
  {
    if |s| > 0 && AllDigits(s) then
      StripDigits(s);
      ParseDigits(s);
      ParseStripped(Strip(s))
    else ParseStripped(Strip(s))
  }

  /** `int` on text already stripped of surrounding whitespace. */
  function ParseStripped(t: string): Option<int> {
    var neg := |t| > 0 && t[0] == '-';
    var body := if |t| > 0 && (t[0] == '-' || t[0] == '+') then t[1..] else t;
    if !WellGrouped(body) then None
    else
      var v := DigitsValue(DropUnderscores(body));
      var n: int := if neg then -(v as int) else v;
      Some(n)
  }

  /** Plain digit text reads as its value. */
  lemma ParseDigits(t: string)
    requires |t| > 0 && AllDigits(t)
    ensures ParseStripped(t) == Some(DigitsValue(t))
  {
    assert IsDigit(t[0]) && IsDigit(t[|t| - 1]);
    assert WellGrouped(t);
  }

  /** Digits, with single underscores allowed only between two digits. */
  predicate WellGrouped(s: string) {
    && |s| > 0
    && IsDigit(s[0]) && IsDigit(s[|s| - 1])
    && (forall k :: 0 <= k < |s| ==> IsDigit(s[k]) || s[k] == '_')
    && (forall k :: 0 <= k < |s| - 1 ==> !(s[k] == '_' && s[k + 1] == '_'))
  }

  function DropUnderscores(s: string): (r: string)
    requires forall k :: 0 <= k < |s| ==> IsDigit(s[k]) || s[k] == '_'
    ensures AllDigits(r)
    ensures AllDigits(s) ==> r == s
    decreases |s|
  {
    if |s| == 0 then s
    else if s[0] == '_' then DropUnderscores(s[1..])
    else [s[0]] + DropUnderscores(s[1..])
  }

  /** Stripping leaves digit text untouched. */
  lemma StripDigits(s: string)
    ensures AllDigits(s) ==> Strip(s) == s
  {
    if AllDigits(s) && |s| > 0 {
      assert !IsSpace(s[0]);
      assert LStripSpace(s) == s;
      assert !IsSpace(s[|s| - 1]);
    }
  }
}
