/** The few JavaScript string built-ins the release script relies on:
    String.prototype.trim, toLowerCase, includes and split. */
module Text {

  /** The code points ECMAScript's WhiteSpace and LineTerminator productions
      name, apart from the range U+2000..U+200A. */
  const SpaceChars: set<char> :=
    {'\t', '\n', '\U{B}', '\U{C}', '\r', ' ', '\U{A0}', '\U{1680}',
     '\U{2028}', '\U{2029}', '\U{202F}', '\U{205F}', '\U{3000}', '\U{FEFF}'}

  /** Exactly what `trim` removes from both ends of a string. */
  predicate IsSpace(c: char) {
    c in SpaceChars || ('\U{2000}' <= c <= '\U{200A}')
  }

  predicate AllSpace(s: string) {
    forall i :: 0 <= i < |s| ==> IsSpace(s[i])
  }

  /** Neither end of `s` is white space (so `trim` leaves it alone). */
  predicate Unpadded(s: string) {
    s == [] || (!IsSpace(s[0]) && !IsSpace(s[|s| - 1]))
  }

  /** The characters of `s` from `lo` up to `hi` are all white space. */
  predicate SpaceBetween(s: string, lo: int, hi: int) {
    forall i :: lo <= i < hi && 0 <= i < |s| ==> IsSpace(s[i])
  }

  /** Drops the leading white space: what is left is a suffix of `s`. */
  function TrimStart(s: string): (r: string)
    ensures |r| <= |s| && r == s[|s| - |r|..]
    ensures SpaceBetween(s, 0, |s| - |r|)
    ensures r != [] ==> !IsSpace(r[0])
  {
    if s != [] && IsSpace(s[0]) then
      var r := TrimStart(s[1..]);
      assert s[1..][|s| - 1 - |r|..] == s[|s| - |r|..];
      r
    else s
  }

  /** Drops the trailing white space: what is left is a prefix of `s`. */
  function TrimEnd(s: string): (r: string)
    ensures |r| <= |s| && r == s[..|r|]
    ensures SpaceBetween(s, |r|, |s|)
    ensures r != [] ==> !IsSpace(r[|r| - 1])
  {
    if s != [] && IsSpace(s[|s| - 1]) then
      var r := TrimEnd(s[..|s| - 1]);
      assert s[..|s| - 1][..|r|] == s[..|r|];
      r
    else s
  }

  /** Number of white-space characters `trim` removes from the front of `s`. */
  function Lead(s: string): nat {
    |s| - |TrimStart(s)|
  }

  /** `s.trim()`: the unpadded middle of `s`, everything around it white space. */
  function Trim(s: string): (r: string)
    ensures Lead(s) + |r| <= |s| && r == s[Lead(s)..Lead(s) + |r|]
    ensures SpaceBetween(s, 0, Lead(s)) && SpaceBetween(s, Lead(s) + |r|, |s|)
    ensures Unpadded(r)
  {
    TrimEndOfSuffix(s, TrimStart(s), TrimEnd(TrimStart(s)));
    TrimEnd(TrimStart(s))
  }

  /** Trimming the end (leaving `r`) of a suffix `t` of `s` whose front is
      not white space. */
  lemma TrimEndOfSuffix(s: string, t: string, r: string)
    requires |t| <= |s| && t == s[|s| - |t|..] && (t != [] ==> !IsSpace(t[0]))
    requires |r| <= |t| && r == t[..|r|] && SpaceBetween(t, |r|, |t|)
    requires r != [] ==> !IsSpace(r[|r| - 1])
    ensures var k := |s| - |t|;
      && r == s[k..k + |r|]
      && SpaceBetween(s, k + |r|, |s|)
      && Unpadded(r)
  {
    var k := |s| - |t|;
    forall i | k + |r| <= i < |s|
      ensures IsSpace(s[i])
    {
      assert s[i] == t[i - k];
    }
    assert r == s[k..][..|r|];
  }


  lemma {:induction false} TrimStartPadded(pre: string, w: string)
    requires AllSpace(pre) && (w == [] || !IsSpace(w[0]))
    ensures TrimStart(pre + w) == w
  {
    if pre != [] {
      assert (pre + w)[1..] == pre[1..] + w;
      TrimStartPadded(pre[1..], w);
    } else {
      assert pre + w == w;
    }
  }

  lemma {:induction false} TrimEndPadded(w: string, suf: string)
    requires AllSpace(suf) && (w == [] || !IsSpace(w[|w| - 1]))
    ensures TrimEnd(w + suf) == w
  {
    if suf != [] {
      assert (w + suf)[..|w + suf| - 1] == w + suf[..|suf| - 1];
      TrimEndPadded(w, suf[..|suf| - 1]);
    } else {
      assert w + suf == w;
    }
  }

  /** Trimming strips exactly the white-space padding and nothing else. */
  lemma TrimPadded(pre: string, w: string, suf: string)
    requires AllSpace(pre) && AllSpace(suf) && Unpadded(w)
    ensures Trim(pre + w + suf) == w
  {
    if w == [] {
      assert pre + w + suf == pre + suf;
      assert AllSpace(pre + suf);
      TrimStartPadded(pre + suf, []);
      assert pre + suf + [] == pre + suf;
      TrimEndPadded([], []);
    } else {
      assert pre + w + suf == pre + (w + suf);
      TrimStartPadded(pre, w + suf);
      TrimEndPadded(w, suf);
    }
  }

  /** `toLowerCase` on one character, for the ASCII letters. */
  function LowerChar(c: char): char {
    if 'A' <= c <= 'Z' then (c as int - 'A' as int + 'a' as int) as char else c
  }

  /** `s.toLowerCase()` on ASCII: no capital letter is left, every other
      character is kept, and each capital becomes its own small letter. */
  function ToLower(s: string): (r: string)
    ensures |r| == |s|
    ensures forall i :: 0 <= i < |r| ==> !('A' <= r[i] <= 'Z')
    ensures forall i :: 0 <= i < |s| && !('A' <= s[i] <= 'Z') ==> r[i] == s[i]
    ensures forall i :: 0 <= i < |s| && 'A' <= s[i] <= 'Z' ==>
      'a' <= r[i] <= 'z' && r[i] as int - 'a' as int == s[i] as int - 'A' as int
  {
    seq(|s|, i requires 0 <= i < |s| => LowerChar(s[i]))
  }

  /** Lower-casing twice is lower-casing once. */
  lemma ToLowerIdempotent(s: string)
    ensures ToLower(ToLower(s)) == ToLower(s)
  {
  }

  predicate StartsWith(s: string, p: string) {
    |p| <= |s| && s[..|p|] == p
  }

  /** `s.includes(t)`: `t` occurs in `s` at some position. */
  predicate Contains(s: string, t: string)
    decreases |s|
  {
    StartsWith(s, t) || (s != [] && Contains(s[1..], t))
  }

  /** An occurrence at any position makes `includes` true. */
  lemma {:induction false} ContainsAt(s: string, t: string, i: nat)
    requires i + |t| <= |s| && s[i..i + |t|] == t
    ensures Contains(s, t)
  {
    if i > 0 {
      assert s[1..][i - 1..i - 1 + |t|] == s[i..i + |t|];
      ContainsAt(s[1..], t, i - 1);
    }
  }

  /** And `includes` is true only when there is an occurrence. */
  lemma {:induction false} ContainsWitness(s: string, t: string) returns (i: nat)
    requires Contains(s, t)
    ensures i + |t| <= |s| && s[i..i + |t|] == t
    decreases |s|
  {
    if StartsWith(s, t) {
      i := 0;
    } else {
      var j := ContainsWitness(s[1..], t);
      assert s[1..][j..j + |t|] == s[j + 1..j + 1 + |t|];
      i := j + 1;
    }
  }

  /** An occurrence in a window `u` of `s` is an occurrence in `s`. */
  lemma ContainsInWindow(s: string, t: string, lo: nat, u: string)
    requires lo + |u| <= |s| && u == s[lo..lo + |u|] && Contains(u, t)
    ensures Contains(s, t)
  {
    var i := ContainsWitness(u, t);
    SliceOfSlice(s, lo, lo + |u|, i, i + |t|);
    ContainsAt(s, t, lo + i);
  }

  lemma ContainsInTrim(s: string, t: string)
    requires Contains(Trim(s), t)
    ensures Contains(s, t)
  {
    ContainsInWindow(s, t, Lead(s), Trim(s));
  }

  /** A character that is not white space lies inside the trimmed part. */
  lemma InsideTrim(s: string, i: nat)
    requires i < |s| && !IsSpace(s[i])
    ensures Lead(s) <= i < Lead(s) + |Trim(s)|
  {
    var r, k := Trim(s), Lead(s);
  }

  lemma SliceOfSlice(s: string, lo: nat, hi: nat, a: nat, b: nat)
    requires lo <= hi <= |s| && a <= b <= hi - lo
    ensures s[lo..hi][a..b] == s[lo + a..lo + b]
  {
    forall j | 0 <= j < b - a
      ensures s[lo..hi][a..b][j] == s[lo + a..lo + b][j]
    {
    }
  }

  /** An occurrence of an unpadded string lies inside the trimmed part. */
  lemma OccurrenceInsideTrim(s: string, t: string, i: nat)
    requires t != [] && Unpadded(t)
    requires i + |t| <= |s| && s[i..i + |t|] == t
    ensures Lead(s) <= i && i + |t| <= Lead(s) + |Trim(s)|
  {
    var n := |t|;
    assert s[i..i + n][0] == s[i] && s[i..i + n][n - 1] == s[i + n - 1];
    InsideTrim(s, i);
    InsideTrim(s, i + n - 1);
  }

  /** An occurrence inside a slice `u` of `s` is an occurrence in `u`. */
  lemma ContainsInSlice(s: string, t: string, lo: nat, hi: nat, i: nat, u: string)
    requires lo <= i && i + |t| <= hi <= |s| && s[i..i + |t|] == t
    requires u == s[lo..hi]
    ensures Contains(u, t)
  {
    SliceOfSlice(s, lo, hi, i - lo, i - lo + |t|);
    ContainsAt(u, t, i - lo);
  }

  lemma OccurrenceInTrim(s: string, t: string, i: nat)
    requires t != [] && Unpadded(t)
    requires i + |t| <= |s| && s[i..i + |t|] == t
    ensures Contains(Trim(s), t)
  {
    var r, k := Trim(s), Lead(s);
    OccurrenceInsideTrim(s, t, i);
    ContainsInSlice(s, t, k, k + |r|, i, r);
  }

  /** Trimming the text searched does not change whether an unpadded,
      non-empty string occurs in it. */
  lemma TrimKeepsContains(s: string, t: string)
    requires t != [] && Unpadded(t)
    ensures Contains(Trim(s), t) <==> Contains(s, t)
  {
    if Contains(Trim(s), t) {
      ContainsInTrim(s, t);
    }
    if Contains(s, t) {
      var i := ContainsWitness(s, t);
      OccurrenceInTrim(s, t, i);
    }
  }

  /** `parts.join(sep)`. */
  function Join(parts: seq<string>, sep: char): string {
    if parts == [] then []
    else if |parts| == 1 then parts[0]
    else parts[0] + [sep] + Join(parts[1..], sep)
  }

  lemma JoinThree(a: string, b: string, c: string, sep: char)
    ensures Join([a, b, c], sep) == a + [sep] + b + [sep] + c
  {
    assert [a, b, c][1..] == [b, c];
    assert [b, c][1..] == [c];
    assert Join([b, c], sep) == b + [sep] + c;
  }

  /** `s.split(sep)` for a one-character separator: the pieces between
      separators, in order (never none, even for the empty string). */
  function Split(s: string, sep: char): (parts: seq<string>)
    ensures |parts| >= 1
  {
    if s == [] then [[]]
    else
      var rest := Split(s[1..], sep);
      if s[0] == sep then [[]] + rest
      else [[s[0]] + rest[0]] + rest[1..]
  }

  /** No piece of a split holds the separator, and joining the pieces with
      it gives the string back. */
  lemma {:induction false} JoinSplit(s: string, sep: char)
    ensures var parts := Split(s, sep);
      && Join(parts, sep) == s
      && forall i :: 0 <= i < |parts| ==> sep !in parts[i]
    decreases |s|
  {
    if s != [] {
      JoinSplit(s[1..], sep);
      var rest := Split(s[1..], sep);
      var parts := Split(s, sep);
      if s[0] == sep {
        assert parts[1..] == rest;
        assert parts[0] == [];
      } else {
        assert parts[1..] == rest[1..];
        if |rest| == 1 {
          assert Join(parts, sep) == [s[0]] + rest[0];
        } else {
          assert Join(rest, sep) == rest[0] + [sep] + Join(rest[1..], sep);
        }
        assert forall i :: 1 <= i < |parts| ==> parts[i] == rest[i];
      }
    }
  }

  lemma {:induction false} SplitWhole(a: string, sep: char)
    requires sep !in a
    ensures Split(a, sep) == [a]
  {
    if a != [] {
      SplitWhole(a[1..], sep);
      assert [a[0]] + a[1..] == a;
    }
  }

  lemma {:induction false} SplitCons(a: string, b: string, sep: char)
    requires sep !in a
    ensures Split(a + [sep] + b, sep) == [a] + Split(b, sep)
  {
    var s := a + [sep] + b;
    if a == [] {
      assert s[0] == sep && s[1..] == b;
    } else {
      assert s[0] == a[0] && s[1..] == a[1..] + [sep] + b;
      SplitCons(a[1..], b, sep);
      assert [a[0]] + a[1..] == a;
    }
  }

  /** Splitting undoes joining pieces that do not hold the separator. */
  lemma {:induction false} SplitJoin(parts: seq<string>, sep: char)
    requires |parts| >= 1
    requires forall i :: 0 <= i < |parts| ==> sep !in parts[i]
    ensures Split(Join(parts, sep), sep) == parts
  {
    if |parts| == 1 {
      SplitWhole(parts[0], sep);
    } else {
      SplitJoin(parts[1..], sep);
      SplitCons(parts[0], Join(parts[1..], sep), sep);
      assert [parts[0]] + parts[1..] == parts;
    }
  }
}
