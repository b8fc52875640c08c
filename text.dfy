/** The string operations the bid parser is built from, with the meaning
    Python gives them: `str.strip()`, `sub in s`, `s.split(sep)`,
    `sep.join(parts)` and `s.replace(c, "")`. */
module Text {

  import opened Wrappers

  /** The characters for which Python's `str.isspace()` holds, which are
      exactly the characters `str.strip()` removes. */
  predicate IsSpace(c: char) {
    c in {' ', '\t', '\n', '\r', '\U{000B}', '\U{000C}',
          '\U{001C}', '\U{001D}', '\U{001E}', '\U{001F}',
          '\U{0085}', '\U{00A0}', '\U{1680}',
          '\U{2000}', '\U{2001}', '\U{2002}', '\U{2003}', '\U{2004}', '\U{2005}',
          '\U{2006}', '\U{2007}', '\U{2008}', '\U{2009}', '\U{200A}',
          '\U{2028}', '\U{2029}', '\U{202F}', '\U{205F}', '\U{3000}'}
  }

  predicate AllSpace(s: string) {
    forall i :: 0 <= i < |s| ==> IsSpace(s[i])
  }

  /** `s` with its leading whitespace removed: a suffix of `s` that does not
      start with whitespace, and what was dropped is all whitespace. */
  function TrimStart(s: string): (r: string)
    ensures |r| <= |s| && r == s[|s| - |r|..]
    ensures AllSpace(s[..|s| - |r|])
    ensures r == [] || !IsSpace(r[0])
  {
    if s != [] && IsSpace(s[0]) then TrimStart(s[1..]) else s
  }

  /** `s` with its trailing whitespace removed. */
  function TrimEnd(s: string): (r: string)
    ensures |r| <= |s| && r == s[..|r|]
    ensures AllSpace(s[|r|..])
    ensures r == [] || !IsSpace(r[|r| - 1])
  {
    if s != [] && IsSpace(s[|s| - 1]) then TrimEnd(s[..|s| - 1]) else s
  }

  /** Python's `s.strip()`: the infix of `s` that remains once whitespace is
      removed from both ends. */
  function Strip(s: string): (r: string)
    ensures |r| <= |s|
    ensures r == [] || (!IsSpace(r[0]) && !IsSpace(r[|r| - 1]))
    ensures AllSpace(s) ==> r == []
  {
    var t := TrimStart(s);
    var r := TrimEnd(t);
    assert t != [] ==> t[0] == s[|s| - |t|];
    assert r != [] ==> r[0] == t[0];
    r
  }

  /** Text with no whitespace at either end is left as it is. */
  lemma StripUnpadded(s: string)
    requires s == [] || (!IsSpace(s[0]) && !IsSpace(s[|s| - 1]))
    ensures Strip(s) == s
  {
  }

  /** The index at which `Strip(s)` starts inside `s`. */
  function StripOffset(s: string): nat
    ensures StripOffset(s) + |Strip(s)| <= |s|
  {
    |s| - |TrimStart(s)|
  }

  /** `Strip` returns the infix of `s` at `StripOffset(s)`, and everything
      around it is whitespace. */
  lemma StripInfix(s: string)
    ensures var i, r := StripOffset(s), Strip(s);
      && r == s[i..i + |r|]
      && AllSpace(s[..i]) && AllSpace(s[i + |r|..])
  {
    var t := TrimStart(s);
    var i, r := StripOffset(s), Strip(s);
    assert t == s[i..];
    assert r == t[..|r|];
    assert s[i + |r|..] == t[|r|..];
  }

  /** Python's `not s.strip()`: stripping leaves nothing exactly when `s` is
      all whitespace. */
  lemma StripEmptyIff(s: string)
    ensures Strip(s) == [] <==> AllSpace(s)
  {
    var t := TrimStart(s);
    assert t[0..] == t;
    assert s[..|s|] == s;
    assert t != [] ==> TrimEnd(t) != [];
  }

  /** Whitespace around a text with no whitespace at its ends is exactly what
      `strip()` removes. */
  lemma StripPadded(p: string, x: string, q: string)
    requires AllSpace(p) && AllSpace(q)
    requires x == [] || (!IsSpace(x[0]) && !IsSpace(x[|x| - 1]))
    ensures Strip(p + x + q) == x
  {
    if x == [] {
      assert AllSpace(p + x + q) by {
        assert forall k :: 0 <= k < |p + x + q| ==> (p + x + q)[k] == if k < |p| then p[k] else q[k - |p|];
      }
    } else {
      assert p + x + q == p + (x + q);
      TrimStartSpace(p, x + q);
      TrimEndSpace(x, q);
    }
  }

  lemma {:induction false} TrimStartSpace(p: string, y: string)
    requires AllSpace(p) && y != [] && !IsSpace(y[0])
    ensures TrimStart(p + y) == y
  {
    if p != [] {
      assert (p + y)[1..] == p[1..] + y;
      TrimStartSpace(p[1..], y);
    } else {
      assert p + y == y;
    }
  }

  lemma {:induction false} TrimEndSpace(y: string, q: string)
    requires AllSpace(q) && y != [] && !IsSpace(y[|y| - 1])
    ensures TrimEnd(y + q) == y
    decreases |q|
  {
    if q != [] {
      assert (y + q)[..|y + q| - 1] == y + q[..|q| - 1];
      TrimEndSpace(y, q[..|q| - 1]);
    } else {
      assert y + q == y;
    }
  }

  /** Stripping twice is stripping once. */
  lemma StripIdempotent(s: string)
    ensures Strip(Strip(s)) == Strip(s)
  {
    var r := Strip(s);
    if r != [] {
      assert TrimStart(r) == r;
      assert TrimEnd(r) == r;
    }
  }

  /** `pat` occurs in `s` starting at index `i`. */
  predicate OccursAt(s: string, pat: string, i: nat) {
    i + |pat| <= |s| && s[i..i + |pat|] == pat
  }

  /** The first index at or after `from` at which `pat` occurs in `s`. */
  function IndexFrom(s: string, pat: string, from: nat): (r: Option<nat>)
    requires from <= |s|
    ensures r.Some? ==> from <= r.value <= |s| && OccursAt(s, pat, r.value)
    ensures r.Some? ==> forall j :: from <= j < r.value ==> !OccursAt(s, pat, j)
    ensures r.None? ==> forall j :: from <= j <= |s| ==> !OccursAt(s, pat, j)
    decreases |s| - from
  {
    if OccursAt(s, pat, from) then Some(from)
    else if from == |s| then None
    else IndexFrom(s, pat, from + 1)
  }

  /** Python's `s.find(pat)`, with `None` for -1: the first occurrence. */
  function IndexOf(s: string, pat: string): (r: Option<nat>)
    ensures r.Some? ==> OccursAt(s, pat, r.value)
    ensures r.Some? ==> forall j :: 0 <= j < r.value ==> !OccursAt(s, pat, j)
    ensures r.None? ==> forall j :: 0 <= j <= |s| ==> !OccursAt(s, pat, j)
  {
    IndexFrom(s, pat, 0)
  }

  /** Python's `pat in s`. */
  predicate Contains(s: string, pat: string) {
    IndexOf(s, pat).Some?
  }

  /** `pat in s` holds exactly when `pat` occurs somewhere in `s`. */
  lemma ContainsIff(s: string, pat: string)
    ensures Contains(s, pat) <==> exists j :: 0 <= j <= |s| && OccursAt(s, pat, j)
  {
  }

  /** For a one-character pattern, `[c] in s` is membership of `c`. */
  lemma ContainsChar(s: string, c: char)
    ensures Contains(s, [c]) <==> c in s
  {
    if c in s {
      var j :| 0 <= j < |s| && s[j] == c;
      assert OccursAt(s, [c], j);
    }
    if Contains(s, [c]) {
      var j := IndexOf(s, [c]).value;
      assert s[j..j + 1][0] == s[j];
    }
  }

  /** A text lacking the first character of `pat` does not contain `pat`. */
  lemma MissingFirstChar(s: string, pat: string)
    requires |pat| > 0 && pat[0] !in s
    ensures !Contains(s, pat)
  {
    forall j | 0 <= j <= |s| ensures !OccursAt(s, pat, j) {
      if j + |pat| <= |s| { assert s[j..j + |pat|][0] == s[j]; }
    }
  }

  /** `pat` cannot start in a prefix that lacks its first character, nor lie
      inside a rest that lacks its `m`-th character. */
  lemma MissingAfterPrefix(p: string, s: string, pat: string, m: nat)
    requires |pat| > 0 && pat[0] !in p
    requires m < |pat| && pat[m] !in s
    ensures !Contains(p + s, pat)
  {
    var t := p + s;
    forall j | 0 <= j <= |t| ensures !OccursAt(t, pat, j) {
      if j + |pat| <= |t| {
        if j < |p| {
          assert t[j..j + |pat|][0] == p[j];
        } else {
          assert t[j..j + |pat|][m] == s[j - |p| + m];
        }
      }
    }
  }

  /** When neither `p` nor `q` holds any character of `pat`, an occurrence of
      `pat` in `p + s + q` lies inside `s`. */
  lemma MissingInside(p: string, s: string, q: string, pat: string)
    requires |pat| > 0 && !Contains(s, pat)
    requires forall k :: 0 <= k < |pat| ==> pat[k] !in p && pat[k] !in q
    ensures !Contains(p + s + q, pat)
  {
    var t := p + s + q;
    forall j | 0 <= j <= |t| ensures !OccursAt(t, pat, j) {
      if j + |pat| <= |t| {
        var w := t[j..j + |pat|];
        if j < |p| {
          assert w[0] == p[j];
        } else if j + |pat| > |p| + |s| {
          assert w[|pat| - 1] == q[j + |pat| - 1 - |p| - |s|];
        } else {
          assert w == s[j - |p|..j - |p| + |pat|];
          assert !OccursAt(s, pat, j - |p|);
        }
      }
    }
  }

  /** `sep.join(parts)`. */
  function Join(parts: seq<string>, sep: string): string {
    if |parts| == 0 then []
    else if |parts| == 1 then parts[0]
    else parts[0] + sep + Join(parts[1..], sep)
  }

  /** Python's `s.split(sep)`: cut `s` at every occurrence of `sep`, taken
      left to right without overlaps. Python refuses an empty separator. */
  function Split(s: string, sep: string): (r: seq<string>)
    requires |sep| > 0
    ensures |r| >= 1
    ensures Join(r, sep) == s
    ensures forall k :: 0 <= k < |r| ==> !Contains(r[k], sep)
    decreases |s|
  {
    match IndexOf(s, sep)
    case None => [s]
    case Some(i) =>
      var head, rest := s[..i], Split(s[i + |sep|..], sep);
      BeforeFirst(s, sep, i);
      CutAt(s, sep, i);
      ConsPieces(head, rest, sep);
      [head] + rest
  }

  /** The text before the first occurrence does not contain the pattern. */
  lemma BeforeFirst(s: string, pat: string, i: nat)
    requires |pat| > 0 && IndexOf(s, pat) == Some(i)
    ensures i + |pat| <= |s| && !Contains(s[..i], pat)
  {
    var head := s[..i];
    forall j | 0 <= j <= |head| ensures !OccursAt(head, pat, j) {
      if j + |pat| <= |head| {
        assert s[j..j + |pat|] == head[j..j + |pat|];
        assert !OccursAt(s, pat, j);
      }
    }
  }

  lemma CutAt(s: string, pat: string, i: nat)
    requires i + |pat| <= |s| && OccursAt(s, pat, i)
    ensures s == s[..i] + pat + s[i + |pat|..]
  {
  }

  lemma ConsPieces(head: string, rest: seq<string>, sep: string)
    requires |rest| >= 1 && !Contains(head, sep)
    requires forall k :: 0 <= k < |rest| ==> !Contains(rest[k], sep)
    ensures Join([head] + rest, sep) == head + sep + Join(rest, sep)
    ensures forall k :: 0 <= k < |[head] + rest| ==> !Contains(([head] + rest)[k], sep)
  {
    assert ([head] + rest)[1..] == rest;
  }

  /** A separator none of whose proper prefixes is also a suffix of it
      ("Bid", for one), so that two of its occurrences never overlap. */
  predicate BorderFree(sep: string) {
    forall m :: 0 < m < |sep| ==> sep[..m] != sep[|sep| - m..]
  }

  lemma BidIsBorderFree()
    ensures BorderFree("Bid")
  {
    assert "Bid"[..1] != "Bid"[2..] by { assert "Bid"[..1][0] == 'B' && "Bid"[2..][0] == 'd'; }
    assert "Bid"[..2] != "Bid"[1..] by { assert "Bid"[..2][0] == 'B' && "Bid"[1..][0] == 'i'; }
  }

  lemma OneCharIsBorderFree(c: char)
    ensures BorderFree([c])
  {
  }

  /** In `p + sep + t`, where `p` does not contain a border-free `sep`, the
      first occurrence of `sep` is the one right after `p`. */
  lemma FirstOccurrenceAfter(p: string, sep: string, t: string)
    requires |sep| > 0 && BorderFree(sep) && !Contains(p, sep)
    ensures IndexOf(p + sep + t, sep) == Some(|p|)
  {
    var s := p + sep + t;
    assert s[|p|..|p| + |sep|] == sep;
    assert OccursAt(s, sep, |p|);
    forall j | 0 <= j < |p| ensures !OccursAt(s, sep, j) {
      if j + |sep| <= |p| {
        assert s[j..j + |sep|] == p[j..j + |sep|];
        assert !OccursAt(p, sep, j);
      } else if j + |sep| <= |s| {
        var m := j + |sep| - |p|;
        assert 0 < m < |sep|;
        assert s[j..j + |sep|][|sep| - m..] == s[|p|..|p| + m];
        assert s[|p|..|p| + m] == sep[..m];
        assert sep[|sep| - m..] != sep[..m];
      }
    }
  }

  /** Splitting on a border-free separator is the only way to cut `s` into
      pieces free of `sep` that join back to `s`: every occurrence of the
      separator splits. */
  lemma {:induction false} SplitUnique(s: string, sep: string, parts: seq<string>)
    requires |sep| > 0 && BorderFree(sep) && |parts| >= 1
    requires Join(parts, sep) == s
    requires forall k :: 0 <= k < |parts| ==> !Contains(parts[k], sep)
    ensures Split(s, sep) == parts
    decreases |parts|
  {
    if |parts| == 1 {
      assert s == parts[0];
    } else {
      var p, t := parts[0], Join(parts[1..], sep);
      assert s == p + sep + t;
      FirstOccurrenceAfter(p, sep, t);
      assert s[..|p|] == p;
      assert s[|p| + |sep|..] == t;
      SplitUnique(t, sep, parts[1..]);
      assert parts == [p] + parts[1..];
    }
  }

  /** A string without the separator splits into itself alone. */
  lemma SplitWithout(s: string, sep: string)
    requires |sep| > 0 && !Contains(s, sep)
    ensures Split(s, sep) == [s]
  {
  }

  /** The first piece of a split runs up to the first occurrence. */
  lemma SplitHead(s: string, sep: string)
    requires |sep| > 0
    ensures Split(s, sep)[0] == match IndexOf(s, sep) case None => s case Some(i) => s[..i]
  {
  }

  /** The least index at or after `from` holding `c`, or `|s|` if none does. */
  function Find(s: string, c: char, from: nat): (r: nat)
    requires from <= |s|
    ensures from <= r <= |s|
    ensures r < |s| ==> s[r] == c
    ensures forall k :: from <= k < r ==> s[k] != c
    decreases |s| - from
  {
    if from == |s| || s[from] == c then from else Find(s, c, from + 1)
  }

  /** The text between the first and the second `c` of `s` (or the end of
      `s` when there is no second one). */
  function SecondField(s: string, c: char): string
    requires c in s
  {
    var i := Find(s, c, 0);
    s[i + 1..Find(s, c, i + 1)]
  }

  lemma FindIsIndexOf(s: string, c: char, from: nat)
    requires from <= |s|
    ensures var i := Find(s, c, from);
      if i < |s| then IndexFrom(s, [c], from) == Some(i) else IndexFrom(s, [c], from).None?
  {
    var i := Find(s, c, from);
    forall j | from <= j < i ensures !OccursAt(s, [c], j) {
      if j + 1 <= |s| { assert s[j..j + 1] == [s[j]]; }
    }
    if i < |s| {
      assert OccursAt(s, [c], i);
    } else {
      assert !OccursAt(s, [c], |s|);
    }
  }

  /** Python's `s.split(c)[1]`: it exists whenever `c` occurs in `s`, and is
      the text between the first and second `c`. */
  lemma SplitSecondField(s: string, c: char)
    requires c in s
    ensures |Split(s, [c])| >= 2
    ensures Split(s, [c])[1] == SecondField(s, c)
  {
    var i := Find(s, c, 0);
    CharIndex(s, c);
    SplitSecondPiece(s, c, i);
    SplitHeadChar(s[i + 1..], c);
    FindSlice(s, c, i);
  }

  lemma CharIndex(s: string, c: char)
    requires c in s
    ensures Find(s, c, 0) < |s| && IndexOf(s, [c]) == Some(Find(s, c, 0))
  {
    FindIsIndexOf(s, c, 0);
  }

  /** `s.split(c)[0]` runs up to the first `c`. */
  lemma SplitHeadChar(t: string, c: char)
    ensures Split(t, [c])[0] == t[..Find(t, c, 0)]
  {
    FindIsIndexOf(t, c, 0);
    SplitHead(t, [c]);
  }

  lemma SplitSecondPiece(s: string, c: char, i: nat)
    requires i < |s| && IndexOf(s, [c]) == Some(i)
    ensures |Split(s, [c])| >= 2 && Split(s, [c])[1] == Split(s[i + 1..], [c])[0]
  {
    SplitAt(s, [c], i);
  }

  lemma FindSlice(s: string, c: char, i: nat)
    requires i < |s|
    ensures s[i + 1..][..Find(s[i + 1..], c, 0)] == s[i + 1..Find(s, c, i + 1)]
  {
    FindShift(s, c, i + 1);
  }

  /** Where the first occurrence is known, the split cuts there. */
  lemma SplitAt(s: string, sep: string, i: nat)
    requires |sep| > 0 && IndexOf(s, sep) == Some(i)
    ensures Split(s, sep) == [s[..i]] + Split(s[i + |sep|..], sep)
  {
  }

  /** `Find` is the only index with the properties its contract states. */
  lemma FindUnique(s: string, c: char, from: nat, k: nat)
    requires from <= k <= |s|
    requires k < |s| ==> s[k] == c
    requires forall x :: from <= x < k ==> s[x] != c
    ensures Find(s, c, from) == k
  {
  }

  /** Searching from `from` in `s` is searching from 0 in `s[from..]`. */
  lemma {:induction false} FindShift(s: string, c: char, from: nat)
    requires from <= |s|
    ensures Find(s, c, from) == from + Find(s[from..], c, 0)
  {
    var t := s[from..];
    var j := Find(t, c, 0);
    assert forall k :: 0 <= k < |t| ==> t[k] == s[from + k];
    FindUnique(s, c, from, from + j);
  }

  /** Python's `s.replace(c, "")` for one character `c`. */
  function Without(s: string, c: char): (r: string)
    ensures forall i :: 0 <= i < |r| ==> r[i] != c
    ensures (forall i :: 0 <= i < |s| ==> s[i] != c) ==> r == s
  {
    if s == [] then []
    else (if s[0] == c then [] else [s[0]]) + Without(s[1..], c)
  }

  /** `replace(c, "")` deletes every `c`: the text shrinks by exactly the
      number of times `c` occurs in it. */
  lemma {:induction false} WithoutCount(s: string, c: char)
    ensures |Without(s, c)| + multiset(s)[c] == |s|
  {
    if s != [] {
      WithoutCount(s[1..], c);
      assert s == [s[0]] + s[1..];
      assert multiset(s) == multiset{s[0]} + multiset(s[1..]);
    }
  }

  /** Removing a character distributes over concatenation. */
  lemma {:induction false} WithoutConcat(a: string, b: string, c: char)
    ensures Without(a + b, c) == Without(a, c) + Without(b, c)
  {
    if a == [] {
      assert a + b == b;
    } else {
      WithoutConcat(a[1..], b, c);
      WithoutConsConcat(a, b, c);
    }
  }

  lemma WithoutConsConcat(a: string, b: string, c: char)
    requires a != []
    ensures var h := if a[0] == c then [] else [a[0]];
      Without(a + b, c) == h + Without(a[1..] + b, c) && Without(a, c) == h + Without(a[1..], c)
  {
    assert (a + b)[0] == a[0];
    assert (a + b)[1..] == a[1..] + b;
  }

  /** Python's `[line for line in lines if pat in line]`. */
  function LinesWith(lines: seq<string>, pat: string): (r: seq<string>)
    ensures |r| <= |lines|
    ensures forall l :: l in r ==> l in lines && Contains(l, pat)
    ensures forall l :: l in lines && Contains(l, pat) ==> l in r
  {
    if lines == [] then []
    else (if Contains(lines[0], pat) then [lines[0]] else []) + LinesWith(lines[1..], pat)
  }

  /** The index of the first line containing `pat`, or `|lines|`. */
  function FirstLineIndex(lines: seq<string>, pat: string, from: nat): (r: nat)
    requires from <= |lines|
    ensures from <= r <= |lines|
    ensures r < |lines| ==> Contains(lines[r], pat)
    ensures forall k :: from <= k < r ==> !Contains(lines[k], pat)
    decreases |lines| - from
  {
    if from == |lines| || Contains(lines[from], pat) then from
    else FirstLineIndex(lines, pat, from + 1)
  }

  /** `[line for line in lines if pat in line][0]` is the first line of
      `lines` that contains `pat`, and the list is empty exactly when no
      line does. */
  lemma {:induction false} LinesWithFirst(lines: seq<string>, pat: string)
    ensures var k := FirstLineIndex(lines, pat, 0);
      && (LinesWith(lines, pat) == [] <==> k == |lines|)
      && (k < |lines| ==> LinesWith(lines, pat)[0] == lines[k])
  {
    if lines != [] {
      LinesWithFirst(lines[1..], pat);
      if !Contains(lines[0], pat) {
        FirstLineShift(lines, pat);
      }
    }
  }

  /** `FirstLineIndex` is the only index with the properties its contract states. */
  lemma FirstLineUnique(lines: seq<string>, pat: string, k: nat)
    requires k <= |lines|
    requires k < |lines| ==> Contains(lines[k], pat)
    requires forall x :: 0 <= x < k ==> !Contains(lines[x], pat)
    ensures FirstLineIndex(lines, pat, 0) == k
  {
  }

  lemma FirstLineShift(lines: seq<string>, pat: string)
    requires lines != [] && !Contains(lines[0], pat)
    ensures FirstLineIndex(lines, pat, 0) == 1 + FirstLineIndex(lines[1..], pat, 0)
  {
    var j := FirstLineIndex(lines[1..], pat, 0);
    assert forall x :: 0 <= x < |lines[1..]| ==> lines[1..][x] == lines[x + 1];
    FirstLineUnique(lines, pat, 1 + j);
  }
}
