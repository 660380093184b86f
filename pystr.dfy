/**
 * The Python `str` operations the service relies on, over `seq<char>`:
 * `p in s`, `find`, `rfind`, slicing with Python's index clamping,
 * `split` with an explicit separator, `join`, `replace` and `endswith`.
 */
module PyStr {

  /** `p` occurs in `s` starting at index `i`. */
  predicate OccursAt(s: string, p: string, i: int) {
    0 <= i && i + |p| <= |s| && s[i..i + |p|] == p
  }

  /** Python's `p in s`; the empty string is in every string, and nothing longer than `s` is. */
  predicate Contains(s: string, p: string)
    ensures Contains(s, p) ==> |p| <= |s|
    ensures p == [] ==> Contains(s, p)
  {
    assert p == [] ==> OccursAt(s, p, 0);
    exists i | 0 <= i <= |s| - |p| :: OccursAt(s, p, i)
  }

  /** `t` is a contiguous piece of `s`. */
  ghost predicate IsSubstring(t: string, s: string) {
    exists a, b | 0 <= a <= b <= |s| :: t == s[a..b]
  }

  /** First occurrence of `p` in `s` at an index `>= i`, or -1. */
  function FindFrom(s: string, p: string, i: nat): (r: int)
    decreases |s| - i
    ensures r == -1 || (i <= r && OccursAt(s, p, r))
    ensures r == -1 ==> forall j | i <= j :: !OccursAt(s, p, j)
    ensures r >= 0 ==> forall j | i <= j < r :: !OccursAt(s, p, j)
  {
    if i + |p| > |s| then -1
    else if s[i..i + |p|] == p then i
    else FindFrom(s, p, i + 1)
  }

  /** Python's `s.find(p)`: the lowest index where `p` occurs, or -1. */
  function Find(s: string, p: string): (r: int)
    ensures r == -1 <==> !Contains(s, p)
    ensures r != -1 ==> 0 <= r && OccursAt(s, p, r) && forall j | 0 <= j < r :: !OccursAt(s, p, j)
  {
    FindFrom(s, p, 0)
  }

  /** Last occurrence of `p` in `s` at an index `<= i`, or -1. */
  function RFindDownFrom(s: string, p: string, i: int): (r: int)
    decreases i + 1
    ensures r == -1 || (0 <= r <= i && OccursAt(s, p, r))
    ensures forall j | r < j <= i :: !OccursAt(s, p, j)
  {
    if i < 0 then -1
    else if OccursAt(s, p, i) then i
    else RFindDownFrom(s, p, i - 1)
  }

  /** Python's `s.rfind(p)`: the highest index where `p` occurs, or -1. */
  function RFind(s: string, p: string): (r: int)
    ensures r == -1 <==> !Contains(s, p)
    ensures r != -1 ==> 0 <= r && OccursAt(s, p, r) && forall j | r < j :: !OccursAt(s, p, j)
  {
    RFindDownFrom(s, p, |s| - |p|)
  }

  /** Text of `s` before the first `sep`, or all of `s` when there is none. */
  function Before(s: string, sep: string): (r: string)
    ensures |r| <= |s| && r == s[..|r|]
    ensures Contains(s, sep) ==> OccursAt(s, sep, |r|)
    ensures forall i | 0 <= i < |r| :: !OccursAt(s, sep, i)
    ensures sep != [] ==> !Contains(r, sep)
  {
    var k := Find(s, sep);
    if k < 0 then s
    else
      assert sep != [] ==> forall i | 0 <= i <= k - |sep| :: !OccursAt(s[..k], sep, i) by {
        forall i | 0 <= i <= k - |sep| && sep != [] ensures !OccursAt(s[..k], sep, i) {
          OccursInPrefix(s, sep, k, i);
        }
      }
      s[..k]
  }

  /** Without a separator the whole text comes back. */
  lemma BeforeWhole(s: string, sep: string)
    requires !Contains(s, sep)
    ensures Before(s, sep) == s
  {
  }

  /** An occurrence inside a prefix of `s` is one in `s` that ends within the prefix. */
  lemma OccursInPrefix(s: string, p: string, n: nat, i: int)
    requires n <= |s|
    ensures OccursAt(s[..n], p, i) <==> OccursAt(s, p, i) && i + |p| <= n
  {
    if 0 <= i && i + |p| <= n {
      assert s[..n][i..i + |p|] == s[i..i + |p|];
    }
  }

  /** Cutting `s` to a prefix of length `n` keeps the first `p` exactly when it ends within the prefix. */
  lemma FindInPrefix(s: string, p: string, n: nat)
    requires n <= |s|
    ensures Find(s, p) >= 0 && Find(s, p) + |p| <= n ==> Find(s[..n], p) == Find(s, p)
    ensures Find(s, p) < 0 || Find(s, p) + |p| > n ==> Find(s[..n], p) == -1
  {
    var k := Find(s, p);
    forall i ensures OccursAt(s[..n], p, i) <==> OccursAt(s, p, i) && i + |p| <= n {
      OccursInPrefix(s, p, n, i);
    }
    if k >= 0 && k + |p| <= n {
      assert OccursAt(s[..n], p, k);
    }
  }

  /** A mismatch at offset `t` rules out an occurrence at `i`. */
  lemma MismatchAt(s: string, p: string, i: int, t: nat)
    requires t < |p| && 0 <= i && i + t < |s| && s[i + t] != p[t]
    ensures !OccursAt(s, p, i)
  {
    if i + |p| <= |s| {
      assert s[i..i + |p|][t] == s[i + t];
    }
  }

  /** Appending text keeps an occurrence where it was. */
  lemma OccursExtend(x: string, y: string, b: string, i: int)
    requires OccursAt(x, b, i)
    ensures OccursAt(x + y, b, i)
  {
    assert (x + y)[i..i + |b|] == x[i..i + |b|];
  }

  /** `b` occurs right after `a` in a string that starts with `a + b`. */
  lemma OccursAfter(s: string, a: string, b: string)
    requires |a| + |b| <= |s| && s[..|a| + |b|] == a + b
    ensures OccursAt(s, b, |a|) && Contains(s, b)
  {
    assert s[|a|..|a| + |b|] == s[..|a| + |b|][|a|..];
    assert (a + b)[|a|..] == b;
    assert OccursAt(s, b, |a|);
  }

  /** A single character occurs as a one-letter string exactly where it is an element. */
  lemma ContainsChar(s: string, c: char)
    ensures Contains(s, [c]) <==> c in s
    ensures forall i | 0 <= i < |s| :: OccursAt(s, [c], i) <==> s[i] == c
  {
    forall i | 0 <= i < |s| ensures OccursAt(s, [c], i) <==> s[i] == c {
      assert s[i..i + 1] == [s[i]];
    }
    if c in s {
      var i :| 0 <= i < |s| && s[i] == c;
      assert OccursAt(s, [c], i);
    }
  }

  /** Python's index normalisation for a slice bound over a string of length `n`. */
  function SliceIndex(i: int, n: nat): (r: nat)
    ensures r <= n
    ensures 0 <= i <= n ==> r == i
    ensures i > n ==> r == n
    ensures i < 0 ==> r == if i + n < 0 then 0 else i + n
  {
    if i < 0 then (if i + n < 0 then 0 else i + n)
    else if i > n then n
    else i
  }

  /** Python's `s[i:j]`: the characters from the normalised start up to the normalised end, empty when the end comes first. */
  function Slice(s: string, i: int, j: int): (r: string)
    ensures var a, b := SliceIndex(i, |s|), SliceIndex(j, |s|);
      |r| == (if a < b then b - a else 0) &&
      forall t | 0 <= t < |r| :: r[t] == s[a + t]
  {
    var a, b := SliceIndex(i, |s|), SliceIndex(j, |s|);
    if a < b then s[a..b] else []
  }

  /** Python's `s.split(sep)` for a non-empty separator. */
  function Split(s: string, sep: string): (r: seq<string>)
    requires sep != []
    decreases |s|
    ensures |r| >= 1 && r[0] == Before(s, sep)
    ensures |r| >= 2 <==> Contains(s, sep)
    ensures forall k | 0 <= k < |r| :: !Contains(r[k], sep)
  {
    var k := Find(s, sep);
    if k < 0 then [s] else [s[..k]] + Split(s[k + |sep|..], sep)
  }

  /** The piece after the first separator is the text between the first and the second separator. */
  lemma SplitSecond(s: string, sep: string)
    requires sep != [] && Contains(s, sep)
    ensures |Split(s, sep)| >= 2
    ensures Split(s, sep)[1] == Before(s[Find(s, sep) + |sep|..], sep)
  {
  }

  /** Python's `sep.join(pieces)`: the first piece, then the separator when more pieces follow. */
  function Join(pieces: seq<string>, sep: string): (r: string)
    ensures pieces == [] ==> r == []
    ensures |pieces| >= 1 ==> |pieces[0]| <= |r| && r[..|pieces[0]|] == pieces[0]
    ensures |pieces| >= 2 ==> OccursAt(r, sep, |pieces[0]|)
  {
    if |pieces| == 0 then []
    else if |pieces| == 1 then pieces[0]
    else pieces[0] + sep + Join(pieces[1..], sep)
  }

  /** Joining a single piece gives that piece, with no separator. */
  lemma JoinOne(x: string, sep: string)
    ensures Join([x], sep) == x
  {
  }

  /** One step of a split: the text before the first separator, then the split of the rest. */
  lemma SplitUnfold(s: string, sep: string)
    requires sep != [] && Contains(s, sep)
    ensures var k := Find(s, sep);
      var tail := Split(s[k + |sep|..], sep);
      Split(s, sep) == [s[..k]] + tail && |tail| >= 1 && ([s[..k]] + tail)[1..] == tail
  {
  }

  /** Pieces made of the text before an occurrence and pieces that join to the text after it join to the whole text. */
  lemma JoinAround(s: string, sep: string, k: int, pieces: seq<string>, tail: seq<string>)
    requires OccursAt(s, sep, k) && |tail| >= 1 && pieces == [s[..k]] + tail
    ensures Join(tail, sep) == s[k + |sep|..] ==> Join(pieces, sep) == s
  {
    JoinCons(s[..k], tail, sep);
    AroundOccurrence(s, sep, k);
  }

  /** A text is what comes before an occurrence, the occurrence, and what comes after it. */
  lemma AroundOccurrence(s: string, p: string, k: int)
    requires OccursAt(s, p, k)
    ensures s == s[..k] + p + s[k + |p|..]
  {
    assert s == s[..k] + s[k..k + |p|] + s[k + |p|..];
  }

  /** Joining the pieces of a split with the same separator gives back the string. */
  lemma {:induction false} SplitJoin(s: string, sep: string)
    requires sep != []
    ensures Join(Split(s, sep), sep) == s
    decreases |s|
  {
    if Contains(s, sep) {
      var k := Find(s, sep);
      var rest := s[k + |sep|..];
      SplitUnfold(s, sep);
      SplitJoin(rest, sep);
      JoinAround(s, sep, k, Split(s, sep), Split(rest, sep));
    }
  }

  /** Joining a first piece in front of at least one more. */
  lemma JoinCons(head: string, tail: seq<string>, sep: string)
    requires |tail| >= 1
    ensures Join([head] + tail, sep) == head + sep + Join(tail, sep)
  {
    assert ([head] + tail)[1..] == tail;
  }

  /**
   * Python's `s.replace(target, replacement)` for a non-empty target, computed as
   * `replacement.join(s.split(target))`: a text without the target is kept; otherwise the text
   * before the first target, the replacement, then the rest replaced in the same way.
   */
  function Replace(s: string, target: string, replacement: string): (r: string)
    requires target != []
    ensures !Contains(s, target) ==> r == s
    ensures Contains(s, target) ==> var k := Find(s, target);
      r == s[..k] + replacement + Join(Split(s[k + |target|..], target), replacement)
  {
    if Contains(s, target) then
      var k := Find(s, target);
      SplitUnfold(s, target);
      JoinCons(s[..k], Split(s[k + |target|..], target), replacement);
      Join(Split(s, target), replacement)
    else
      Join(Split(s, target), replacement)
  }

  /** `find` of a one-letter string: the index of the first such element, or -1 when there is none. */
  lemma FindChar(s: string, a: char)
    ensures var k := Find(s, [a]);
      (k < 0 ==> a !in s) && (k >= 0 ==> k < |s| && s[k] == a && forall i | 0 <= i < k :: s[i] != a)
  {
    ContainsChar(s, a);
  }

  /** The letter-by-letter rewrite of every `a` in `s` into `b`. */
  function MapChar(s: string, a: char, b: char): string
  {
    seq(|s|, i requires 0 <= i < |s| => if s[i] == a then b else s[i])
  }

  /** Splitting the letter-by-letter rewrite at the first `a`. */
  lemma MapCharStep(s: string, a: char, b: char, k: nat)
    requires k < |s| && s[k] == a && forall i | 0 <= i < k :: s[i] != a
    ensures MapChar(s, a, b) == s[..k] + [b] + MapChar(s[k + 1..], a, b)
  {
    var r, rr := MapChar(s, a, b), MapChar(s[k + 1..], a, b);
    forall i | 0 <= i < |s| ensures r[i] == (s[..k] + [b] + rr)[i] {
      if i > k {
        assert rr[i - k - 1] == (if s[i] == a then b else s[i]);
      }
    }
  }

  /** One step of replacing a character that occurs: the text before it, the new character, then the rest replaced. */
  lemma ReplaceCharHit(s: string, a: char, b: char)
    requires Find(s, [a]) >= 0
    ensures var k := Find(s, [a]);
      k < |s| && Replace(s, [a], [b]) == s[..k] + [b] + Replace(s[k + 1..], [a], [b])
  {
    var k := Find(s, [a]);
    assert Replace(s[k + 1..], [a], [b]) == Join(Split(s[k + 1..], [a]), [b]);
  }

  /** Replacing a character that does not occur changes nothing. */
  lemma ReplaceCharMiss(s: string, a: char, b: char)
    requires a !in s
    ensures Replace(s, [a], [b]) == MapChar(s, a, b)
  {
    ContainsChar(s, a);
    assert MapChar(s, a, b) == s;
  }

  /** For a text holding the character, the rewrite law follows from the law for the text after its first occurrence. */
  lemma ReplaceCharHitMap(s: string, a: char, b: char)
    requires a in s
    ensures var k := Find(s, [a]);
      0 <= k < |s| && (Replace(s[k + 1..], [a], [b]) == MapChar(s[k + 1..], a, b) ==> Replace(s, [a], [b]) == MapChar(s, a, b))
  {
    FindChar(s, a);
    var k := Find(s, [a]);
    ReplaceCharHit(s, a, b);
    MapCharStep(s, a, b, k);
  }

  /** Replacing one character by another is the letter-by-letter rewrite. */
  lemma {:induction false} ReplaceCharIsMap(s: string, a: char, b: char)
    ensures Replace(s, [a], [b]) == MapChar(s, a, b)
    decreases |s|
  {
    if a in s {
      ReplaceCharHitMap(s, a, b);
      ReplaceCharIsMap(s[Find(s, [a]) + 1..], a, b);
    } else {
      ReplaceCharMiss(s, a, b);
    }
  }

  /** Replacing one character by another acts letter by letter and keeps the length. */
  lemma ReplaceChar(s: string, a: char, b: char)
    ensures |Replace(s, [a], [b])| == |s|
    ensures forall i | 0 <= i < |s| :: Replace(s, [a], [b])[i] == if s[i] == a then b else s[i]
  {
    ReplaceCharIsMap(s, a, b);
  }

  /** Python's `s.endswith(suffix)`: the last `|suffix|` characters of `s` are those of `suffix`. */
  predicate EndsWith(s: string, suffix: string)
    ensures EndsWith(s, suffix) <==>
      |suffix| <= |s| && forall i | 0 <= i < |suffix| :: s[|s| - |suffix| + i] == suffix[i]
  {
    |suffix| <= |s| && s[|s| - |suffix|..] == suffix
  }
}
