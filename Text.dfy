/**
 * The JavaScript string operations the games rely on, over `string` (= seq<char>):
 * `includes`, `endsWith`, `trim`, `toLowerCase` and `split` with a non-empty separator.
 */
module Text {

  // ---------------------------------------------------------------------------
  // includes / indexOf
  // ---------------------------------------------------------------------------

  /** `p` occurs in `s` starting at index `i`. */
  predicate OccursAt(s: string, p: string, i: int) {
    0 <= i && i + |p| <= |s| && s[i..i + |p|] == p
  }

  /** JavaScript `s.includes(p)`. */
  predicate Contains(s: string, p: string) {
    exists i | 0 <= i <= |s| - |p| :: OccursAt(s, p, i)
  }

  /** JavaScript `s.indexOf(p, from)`: the first occurrence at or after `from`, or -1. */
  function IndexOfFrom(s: string, p: string, from: nat): (r: int)
    ensures r == -1 || (from <= r && OccursAt(s, p, r))
    ensures forall j :: from <= j && (r == -1 || j < r) ==> !OccursAt(s, p, j)
    decreases |s| - from
  {
    if from + |p| > |s| then -1
    else if s[from..from + |p|] == p then from
    else IndexOfFrom(s, p, from + 1)
  }

  /** JavaScript `s.indexOf(p)`. */
  function IndexOf(s: string, p: string): (r: int)
    ensures r == -1 <==> !Contains(s, p)
    ensures r != -1 ==> OccursAt(s, p, r) && forall j :: 0 <= j < r ==> !OccursAt(s, p, j)
  {
    IndexOfFrom(s, p, 0)
  }

  lemma ContainsAt(s: string, p: string, i: int)
    requires OccursAt(s, p, i)
    ensures Contains(s, p)
  {
  }

  /** Every string contains itself (so a correct option always passes an `includes` check). */
  lemma ContainsSelf(s: string)
    ensures Contains(s, s)
  {
    ContainsAt(s, s, 0);
  }

  /** A string containing `p` contains the first character of `p`. */
  lemma ContainsHead(s: string, p: string)
    requires Contains(s, p) && |p| > 0
    ensures p[0] in s
  {
    var i :| 0 <= i <= |s| - |p| && OccursAt(s, p, i);
    assert s[i..i + |p|][0] == s[i];
  }

  /** JavaScript `s.endsWith(suffix)`. */
  predicate EndsWith(s: string, suffix: string) {
    |suffix| <= |s| && s[|s| - |suffix|..] == suffix
  }

  // ---------------------------------------------------------------------------
  // trim
  // ---------------------------------------------------------------------------

  /** The characters JavaScript `trim` removes: WhiteSpace and LineTerminator of ECMA-262. */
  predicate IsWhitespace(c: char) {
    c == '\t' || c == '\n' || c == '\U{000B}' || c == '\U{000C}' || c == '\r' || c == ' '
    || c == '\U{00A0}' || c == '\U{1680}' || ('\U{2000}' <= c <= '\U{200A}')
    || c == '\U{2028}' || c == '\U{2029}' || c == '\U{202F}' || c == '\U{205F}'
    || c == '\U{3000}' || c == '\U{FEFF}'
  }

  predicate AllWhitespace(s: string) {
    forall i :: 0 <= i < |s| ==> IsWhitespace(s[i])
  }

  /** The number of whitespace characters `s` starts with. */
  function LeadingSpace(s: string): (n: nat)
    ensures n <= |s|
    ensures forall i :: 0 <= i < n ==> IsWhitespace(s[i])
    ensures n == |s| || !IsWhitespace(s[n])
    decreases |s|
  {
    if |s| > 0 && IsWhitespace(s[0]) then 1 + LeadingSpace(s[1..]) else 0
  }

  /** The number of whitespace characters `s` ends with. */
  function TrailingSpace(s: string): (n: nat)
    ensures n <= |s|
    ensures forall i :: |s| - n <= i < |s| ==> IsWhitespace(s[i])
    ensures n == |s| || !IsWhitespace(s[|s| - n - 1])
    decreases |s|
  {
    if |s| > 0 && IsWhitespace(s[|s| - 1]) then 1 + TrailingSpace(s[..|s| - 1]) else 0
  }

  /** JavaScript `trimStart`: drops the leading whitespace and nothing else. */
  function TrimStart(s: string): string {
    s[LeadingSpace(s)..]
  }

  /** JavaScript `trimEnd`: drops the trailing whitespace and nothing else. */
  function TrimEnd(s: string): string {
    s[..|s| - TrailingSpace(s)]
  }

  /** JavaScript `trim`. */
  function Trim(s: string): string {
    TrimEnd(TrimStart(s))
  }

  /** Whitespace in front adds to the leading whitespace. */
  lemma {:induction false} LeadingSpacePadded(w: string, s: string)
    requires AllWhitespace(w)
    ensures LeadingSpace(w + s) == |w| + LeadingSpace(s)
    decreases |w|
  {
    if |w| > 0 {
      assert (w + s)[0] == w[0];
      assert (w + s)[1..] == w[1..] + s;
      LeadingSpacePadded(w[1..], s);
    } else {
      assert w + s == s;
    }
  }

  /** Whitespace behind adds to the trailing whitespace. */
  lemma {:induction false} TrailingSpacePadded(s: string, w: string)
    requires AllWhitespace(w)
    ensures TrailingSpace(s + w) == TrailingSpace(s) + |w|
    decreases |w|
  {
    if |w| > 0 {
      assert (s + w)[|s + w| - 1] == w[|w| - 1];
      assert (s + w)[..|s + w| - 1] == s + w[..|w| - 1];
      TrailingSpacePadded(s, w[..|w| - 1]);
    } else {
      assert s + w == s;
    }
  }

  /** Appending never changes the leading whitespace of a string that is not all whitespace. */
  lemma {:induction false} LeadingSpaceAppend(s: string, w: string)
    requires LeadingSpace(s) < |s|
    ensures LeadingSpace(s + w) == LeadingSpace(s)
    decreases |s|
  {
    if IsWhitespace(s[0]) {
      assert (s + w)[1..] == s[1..] + w;
      LeadingSpaceAppend(s[1..], w);
    }
  }

  lemma TrimStartPadded(w: string, s: string)
    requires AllWhitespace(w)
    ensures TrimStart(w + s) == TrimStart(s)
  {
    LeadingSpacePadded(w, s);
    assert (w + s)[|w| + LeadingSpace(s)..] == s[LeadingSpace(s)..];
  }

  lemma TrimEndPadded(s: string, w: string)
    requires AllWhitespace(w)
    ensures TrimEnd(s + w) == TrimEnd(s)
  {
    TrailingSpacePadded(s, w);
    assert (s + w)[..|s| - TrailingSpace(s)] == s[..|s| - TrailingSpace(s)];
  }

  /** TrimStart of a string whose first character is not whitespace is the identity. */
  lemma TrimEndKeepsStart(s: string)
    requires s == [] || !IsWhitespace(s[0])
    ensures TrimStart(TrimEnd(s)) == TrimEnd(s)
  {
    var r := TrimEnd(s);
    if r != [] {
      assert r[0] == s[0];
    }
  }

  /** Surrounding whitespace never matters to `trim`. */
  lemma TrimPadded(w1: string, s: string, w2: string)
    requires AllWhitespace(w1) && AllWhitespace(w2)
    ensures Trim(w1 + s + w2) == Trim(s)
  {
    assert w1 + s + w2 == w1 + (s + w2);
    TrimStartPadded(w1, s + w2);
    if LeadingSpace(s) < |s| {
      LeadingSpaceAppend(s, w2);
      assert TrimStart(s + w2) == TrimStart(s) + w2;
      TrimEndPadded(TrimStart(s), w2);
    } else {
      assert AllWhitespace(s);
      TrimStartPadded(s, w2);
      AllWhitespaceTrimsAway(w2);
      assert TrimStart(s) == [];
    }
  }

  lemma AllWhitespaceTrimsAway(w: string)
    requires AllWhitespace(w)
    ensures TrimStart(w) == []
  {
    LeadingSpacePadded(w, []);
    assert w + [] == w;
  }

  lemma TrimStartAppend(s: string, w: string)
    ensures |TrimStart(s)| > 0 ==> TrimStart(s + w) == TrimStart(s) + w
    ensures |TrimStart(s)| == 0 ==> AllWhitespace(s)
  {
    if LeadingSpace(s) < |s| {
      LeadingSpaceAppend(s, w);
      assert (s + w)[LeadingSpace(s)..] == s[LeadingSpace(s)..] + w;
    }
  }

  /** `trim` is idempotent. */
  lemma TrimIdempotent(s: string)
    ensures Trim(Trim(s)) == Trim(s)
  {
    var t := TrimStart(s);
    assert t == [] || !IsWhitespace(t[0]);
    TrimEndKeepsStart(t);
    TrimEndDone(t);
    calc {
      Trim(Trim(s));
      TrimEnd(TrimStart(TrimEnd(t)));
      TrimEnd(TrimEnd(t));
      TrimEnd(t);
    }
  }

  /** The result of `trimEnd` has no trailing whitespace left. */
  lemma TrimEndDone(t: string)
    ensures TrimEnd(TrimEnd(t)) == TrimEnd(t)
  {
    var r := TrimEnd(t);
    if r != [] {
      assert r[|r| - 1] == t[|t| - TrailingSpace(t) - 1];
    }
    assert TrailingSpace(r) == 0;
  }

  // ---------------------------------------------------------------------------
  // toLowerCase
  // ---------------------------------------------------------------------------

  predicate IsUpper(c: char) {
    'A' <= c <= 'Z'
  }

  function LowerChar(c: char): (d: char)
    ensures !IsUpper(d)
    ensures IsWhitespace(d) <==> IsWhitespace(c)
  {
    if IsUpper(c) then (c as int + 32) as char else c
  }

  /** JavaScript `toLowerCase`, on the ASCII letters. */
  function Lower(s: string): (r: string)
    ensures |r| == |s|
    ensures forall i :: 0 <= i < |s| ==> r[i] == LowerChar(s[i])
  {
    seq(|s|, i requires 0 <= i < |s| => LowerChar(s[i]))
  }

  lemma LowerIdempotent(s: string)
    ensures Lower(Lower(s)) == Lower(s)
  {
  }

  lemma LowerAppend(a: string, b: string)
    ensures Lower(a + b) == Lower(a) + Lower(b)
  {
  }

  lemma {:induction false} LowerTrimStart(s: string)
    ensures Lower(TrimStart(s)) == TrimStart(Lower(s))
    decreases |s|
  {
    if |s| > 0 && IsWhitespace(s[0]) {
      assert Lower(s)[1..] == Lower(s[1..]);
      LowerTrimStart(s[1..]);
    } else if |s| > 0 {
      assert Lower(s)[0] == LowerChar(s[0]);
    }
  }

  lemma {:induction false} LowerTrimEnd(s: string)
    ensures Lower(TrimEnd(s)) == TrimEnd(Lower(s))
    decreases |s|
  {
    if |s| > 0 && IsWhitespace(s[|s| - 1]) {
      assert Lower(s)[..|s| - 1] == Lower(s[..|s| - 1]);
      LowerTrimEnd(s[..|s| - 1]);
    } else if |s| > 0 {
      assert Lower(s)[|s| - 1] == LowerChar(s[|s| - 1]);
    }
  }

  /**
   * `s.trim().toLowerCase()` (the Quest spelling check) and `s.toLowerCase().trim()`
   * (the Quiz `clean`) are the same function.
   */
  lemma LowerTrimCommute(s: string)
    ensures Lower(Trim(s)) == Trim(Lower(s))
  {
    LowerTrimStart(s);
    LowerTrimEnd(TrimStart(s));
  }

  predicate NoUpper(s: string) {
    forall i :: 0 <= i < |s| ==> !IsUpper(s[i])
  }

  /** Normalised form used by every free-text answer check: lower case, no surrounding whitespace. */
  function Normalize(s: string): (r: string)
    ensures r == [] || (!IsWhitespace(r[0]) && !IsWhitespace(r[|r| - 1]))
    ensures NoUpper(r)
  {
    TrimmedEnds(Lower(s));
    TrimmedNoUpper(Lower(s));
    Trim(Lower(s))
  }

  /** `trim` leaves no whitespace at either end. */
  lemma TrimmedEnds(l: string)
    ensures Trim(l) == [] || (!IsWhitespace(Trim(l)[0]) && !IsWhitespace(Trim(l)[|Trim(l)| - 1]))
  {
    var t := TrimStart(l);
    assert t == [] || !IsWhitespace(t[0]);
    var r := TrimEnd(t);
    if r != [] {
      assert r[0] == t[0];
      assert r[|r| - 1] == t[|t| - TrailingSpace(t) - 1];
    }
  }

  /** `trim` adds no upper-case letter. */
  lemma TrimmedNoUpper(l: string)
    requires NoUpper(l)
    ensures NoUpper(Trim(l))
  {
    var t := TrimStart(l);
    NoUpperSlice(l, LeadingSpace(l), |l|);
    NoUpperSlice(t, 0, |t| - TrailingSpace(t));
  }

  /** A piece of a string without upper-case letters has none either. */
  lemma NoUpperSlice(l: string, i: int, j: int)
    requires NoUpper(l) && 0 <= i <= j <= |l|
    ensures NoUpper(l[i..j])
  {
    forall k | 0 <= k < j - i ensures !IsUpper(l[i..j][k]) {
      assert l[i..j][k] == l[i + k];
    }
  }

  /** Case and surrounding whitespace never change the normalised form. */
  lemma NormalizeIgnoresCaseAndPadding(w1: string, s: string, w2: string)
    requires AllWhitespace(w1) && AllWhitespace(w2)
    ensures Normalize(w1 + s + w2) == Normalize(s)
    ensures Normalize(Lower(s)) == Normalize(s)
  {
    LowerAppend(w1 + s, w2);
    LowerAppend(w1, s);
    assert AllWhitespace(Lower(w1)) && AllWhitespace(Lower(w2));
    TrimPadded(Lower(w1), Lower(s), Lower(w2));
    LowerIdempotent(s);
  }

  /** Normalising twice is normalising once. */
  lemma NormalizeIdempotent(s: string)
    ensures Normalize(Normalize(s)) == Normalize(s)
  {
    var t := Trim(Lower(s));
    LowerTrimCommute(Lower(s));
    LowerIdempotent(s);
    // Lower(t) == Trim(Lower(Lower(s))) == t
    assert Lower(t) == t;
    TrimIdempotent(Lower(s));
  }

  // ---------------------------------------------------------------------------
  // split / join
  // ---------------------------------------------------------------------------

  /**
   * JavaScript `s.split(sep)` for a non-empty separator: cut at each leftmost,
   * non-overlapping occurrence of `sep`.
   */
  function Split(s: string, sep: string): (parts: seq<string>)
    requires |sep| > 0
    ensures |parts| >= 1
    decreases |s|
  {
    var i := IndexOf(s, sep);
    if i < 0 then [s] else [s[..i]] + Split(s[i + |sep|..], sep)
  }

  /** Array `join(sep)`. */
  function Join(parts: seq<string>, sep: string): string
    requires |parts| >= 1
  {
    if |parts| == 1 then parts[0] else parts[0] + sep + Join(parts[1..], sep)
  }

  /** Splitting loses nothing: joining the pieces back gives the original string. */
  lemma {:induction false} JoinSplit(s: string, sep: string)
    requires |sep| > 0
    ensures Join(Split(s, sep), sep) == s
    decreases |s|
  {
    var i := IndexOf(s, sep);
    if i >= 0 {
      var rest := s[i + |sep|..];
      var tail := Split(rest, sep);
      JoinSplit(rest, sep);
      assert Split(s, sep) == [s[..i]] + tail;
      JoinCons(s[..i], tail, sep);
      SplitAround(s, sep, i);
    }
  }

  lemma JoinCons(head: string, tail: seq<string>, sep: string)
    requires |tail| >= 1
    ensures Join([head] + tail, sep) == head + sep + Join(tail, sep)
  {
    assert ([head] + tail)[1..] == tail;
  }

  lemma SplitAround(s: string, sep: string, i: int)
    requires OccursAt(s, sep, i)
    ensures s == s[..i] + sep + s[i + |sep|..]
  {
    assert s == s[..i] + s[i..i + |sep|] + s[i + |sep|..];
  }

  /** No piece of a split contains the separator. */
  lemma {:induction false} SplitPiecesFree(s: string, sep: string)
    requires |sep| > 0
    ensures forall k :: 0 <= k < |Split(s, sep)| ==> !Contains(Split(s, sep)[k], sep)
    decreases |s|
  {
    var i := IndexOf(s, sep);
    if i >= 0 {
      var rest := s[i + |sep|..];
      SplitPiecesFree(rest, sep);
      forall j | 0 <= j <= i - |sep| && OccursAt(s[..i], sep, j)
        ensures false
      {
        assert s[..i][j..j + |sep|] == s[j..j + |sep|];
        assert OccursAt(s, sep, j);
      }
      var parts := Split(s, sep);
      forall k | 0 <= k < |parts|
        ensures !Contains(parts[k], sep)
      {
        if k > 0 {
          assert parts[k] == Split(rest, sep)[k - 1];
        }
      }
    }
  }

  /** A string without the separator splits into itself alone. */
  lemma SplitWithoutSeparator(s: string, sep: string)
    requires |sep| > 0 && !Contains(s, sep)
    ensures Split(s, sep) == [s]
  {
  }
}
