/** The string operations the rule engine and the bearer header use. Characters are
    abstract: lower-casing, case folding and white space are whatever the library says. */
module Text {
  import opened Common

  /** The library functions the program calls but does not define. */
  datatype Lib = Lib(
    lower: char -> char,                   // unicode.ToLower
    fold: char -> char,                    // the class representative used by strings.EqualFold
    space: char -> bool,                   // unicode.IsSpace
    parseAddress: string -> Option<string> // net/mail.ParseAddress, address part
  ) {
    /** The lower-case letters and '_' used in the program's own constants. */
    ghost predicate Sane() {
      forall c {:trigger lower(c)} {:trigger space(c)} :: Plain(c) ==> lower(c) == c && !space(c)
    }
  }

  predicate Plain(c: char) { 'a' <= c <= 'z' || c == '_' }

  function Each(f: char -> char, s: string): (r: string)
    ensures |r| == |s| && forall i :: 0 <= i < |s| ==> r[i] == f(s[i])
  {
    if s == [] then [] else [f(s[0])] + Each(f, s[1..])
  }

  function TrimLeft(lib: Lib, s: string): string {
    if s != [] && lib.space(s[0]) then TrimLeft(lib, s[1..]) else s
  }

  function TrimRight(lib: Lib, s: string): string {
    if s != [] && lib.space(s[|s| - 1]) then TrimRight(lib, s[..|s| - 1]) else s
  }

  /** strings.TrimSpace */
  function Trim(lib: Lib, s: string): string {
    TrimRight(lib, TrimLeft(lib, s))
  }

  function Normalize(lib: Lib, s: string): string {
    Each(lib.lower, Trim(lib, s))
  }

  function Fold(lib: Lib, s: string): string {
    Each(lib.fold, s)
  }

  predicate EqualFold(lib: Lib, a: string, b: string) {
    Fold(lib, a) == Fold(lib, b)
  }

  predicate OccursAt(s: string, needle: string, i: int) {
    0 <= i <= |s| - |needle| && s[i..i + |needle|] == needle
  }

  /** strings.Contains */
  predicate Contains(s: string, needle: string) {
    exists i | 0 <= i <= |s| - |needle| :: OccursAt(s, needle, i)
  }

  /** strings.Split on a one-character separator */
  function Split(s: string, sep: char): (r: seq<string>)
    ensures |r| >= 1
  {
    if s == [] then [[]]
    else
      var rest := Split(s[1..], sep);
      if s[0] == sep then [[]] + rest else [[s[0]] + rest[0]] + rest[1..]
  }

  /** The last part of a split ends the text. */
  lemma {:induction false} SplitLast(s: string, sep: char) returns (i: nat)
    ensures var parts := Split(s, sep); i <= |s| && parts[|parts| - 1] == s[i..]
  {
    if s == [] {
      i := 0;
    } else {
      var k := SplitLast(s[1..], sep);
      if s[0] != sep && |Split(s[1..], sep)| == 1 {
        i := 0;
        SplitSingle(s[1..], sep);
        assert s == [s[0]] + s[1..];
      } else {
        i := k + 1;
      }
    }
  }

  lemma {:induction false} SplitSingle(s: string, sep: char)
    requires |Split(s, sep)| == 1
    ensures Split(s, sep) == [s]
  {
    if s != [] {
      SplitSingle(s[1..], sep);
      assert s == [s[0]] + s[1..];
    }
  }

  /** A separator-free head is the first part of the split. */
  lemma {:induction false} SplitHead(a: string, sep: char, b: string)
    requires sep !in a
    ensures Split(a + [sep] + b, sep) == [a] + Split(b, sep)
  {
    var s := a + [sep] + b;
    if a == [] {
      assert s[1..] == b;
    } else {
      SplitHead(a[1..], sep, b);
      assert s[1..] == a[1..] + [sep] + b;
      assert [a[0]] + a[1..] == a;
    }
  }

  lemma {:induction false} SplitWhole(a: string, sep: char)
    requires sep !in a
    ensures Split(a, sep) == [a]
  {
    if a != [] {
      SplitWhole(a[1..], sep);
      assert [a[0]] + a[1..] == a;
    }
  }

  /** The parts of a split hold no separator. */
  lemma {:induction false} SplitPlain(s: string, sep: char, part: string)
    requires part in Split(s, sep)
    ensures sep !in part
  {
    if s != [] {
      var rest := Split(s[1..], sep);
      if part in rest { SplitPlain(s[1..], sep, part); }
      if s[0] != sep && part == [s[0]] + rest[0] { SplitPlain(s[1..], sep, rest[0]); }
    }
  }

  /** The first part of a split, a separator, and the text that the other parts come from. */
  lemma {:induction false} SplitFirst(s: string, sep: char) returns (rest: string)
    requires |Split(s, sep)| > 1
    ensures s == Split(s, sep)[0] + [sep] + rest && Split(rest, sep) == Split(s, sep)[1..]
  {
    assert s == [s[0]] + s[1..];
    if s[0] == sep {
      rest := s[1..];
    } else {
      rest := SplitFirst(s[1..], sep);
    }
  }

  /** Left trimming drops a prefix of spaces and stops at a non-space. */
  lemma {:induction false} TrimLeftShape(lib: Lib, s: string) returns (i: nat)
    ensures i <= |s| && TrimLeft(lib, s) == s[i..]
    ensures forall k :: 0 <= k < i ==> lib.space(s[k])
    ensures i < |s| ==> !lib.space(s[i])
  {
    i := 0;
    if s != [] && lib.space(s[0]) {
      var k := TrimLeftShape(lib, s[1..]);
      i := k + 1;
    }
  }

  /** Right trimming drops a suffix of spaces and stops at a non-space. */
  lemma {:induction false} TrimRightShape(lib: Lib, s: string) returns (j: nat)
    ensures j <= |s| && TrimRight(lib, s) == s[..j]
    ensures forall k :: j <= k < |s| ==> lib.space(s[k])
    ensures j > 0 ==> !lib.space(s[j - 1])
  {
    j := |s|;
    if s != [] && lib.space(s[|s| - 1]) {
      j := TrimRightShape(lib, s[..|s| - 1]);
      assert s[..|s| - 1][..j] == s[..j];
    }
  }

  /** Trimming keeps one stretch; everything outside it is space, and its ends are not. */
  lemma TrimShape(lib: Lib, s: string) returns (i: nat, j: nat)
    ensures i <= j <= |s| && Trim(lib, s) == s[i..j]
    ensures forall k :: 0 <= k < |s| && !(i <= k < j) ==> lib.space(s[k])
    ensures i < j ==> !lib.space(s[i]) && !lib.space(s[j - 1])
  {
    var a := TrimLeftShape(lib, s);
    var t := s[a..];
    var b := TrimRightShape(lib, t);
    i, j := a, a + b;
    assert s[a..][..b] == s[a..a + b];
    forall k | 0 <= k < |s| && !(i <= k < j)
      ensures lib.space(s[k])
    {
      if k >= j { assert s[k] == t[k - a]; }
    }
    if i < j { assert t[..b][0] == t[0]; assert s[j - 1] == t[b - 1]; }
  }

  predicate Blank(lib: Lib, s: string) {
    forall c :: c in s ==> lib.space(c)
  }

  /** Nothing is left of a blank text, and something of every other. */
  lemma TrimBlank(lib: Lib, s: string)
    ensures Trim(lib, s) == [] <==> Blank(lib, s)
  {
    var i, j := TrimShape(lib, s);
    if i < j { assert s[i] in s; }
  }

  /** A stretch with spaces around it, and none at its ends, is what trimming leaves. */
  lemma TrimStretch(lib: Lib, before: string, s: string, after: string)
    requires Blank(lib, before) && Blank(lib, after)
    requires s != [] && !lib.space(s[0]) && !lib.space(s[|s| - 1])
    ensures Trim(lib, before + s + after) == s
  {
    var whole := before + s + after;
    var p, q := |before|, |before| + |s|;
    var i, j := TrimShape(lib, whole);
    assert whole[p] == s[0] && whole[q - 1] == s[|s| - 1];
    forall k | 0 <= k < p ensures lib.space(whole[k]) { assert whole[k] in before; }
    forall k | q <= k < |whole| ensures lib.space(whole[k]) { assert whole[k] == after[k - q]; }
    assert whole[p..q] == s;
  }

  /** Trimming what was trimmed changes nothing. */
  lemma TrimTwice(lib: Lib, s: string)
    ensures Trim(lib, Trim(lib, s)) == Trim(lib, s)
  {
    var i, j := TrimShape(lib, s);
    if i < j {
      TrimStretch(lib, [], s[i..j], []);
      assert [] + s[i..j] + [] == s[i..j];
    }
  }

  /** The normal form is the text without the spaces around it, in lower case. */
  lemma NormalForm(lib: Lib, s: string) returns (before: string, middle: string, after: string)
    ensures s == before + middle + after && Blank(lib, before) && Blank(lib, after) && middle == Trim(lib, s)
    ensures middle != [] ==> !lib.space(middle[0]) && !lib.space(middle[|middle| - 1])
    ensures |Normalize(lib, s)| == |middle|
    ensures forall i :: 0 <= i < |middle| ==> Normalize(lib, s)[i] == lib.lower(middle[i])
  {
    var i, j := TrimShape(lib, s);
    before, middle, after := s[..i], s[i..j], s[j..];
    forall c | c in before ensures lib.space(c) { var k :| 0 <= k < i && s[k] == c; }
    forall c | c in after ensures lib.space(c) { var k :| j <= k < |s| && s[k] == c; }
  }

  /** Two texts are equal under folding when they are so letter by letter. */
  lemma EqualFoldEach(lib: Lib, a: string, b: string)
    ensures EqualFold(lib, a, b) <==> |a| == |b| && forall i :: 0 <= i < |a| ==> lib.fold(a[i]) == lib.fold(b[i])
  {
    var x, y := Fold(lib, a), Fold(lib, b);
    if EqualFold(lib, a, b) {
      assert |x| == |y| && forall i :: 0 <= i < |a| ==> x[i] == y[i];
    }
  }

  /** A needle is contained in what stands around it. */
  lemma ContainsMiddle(s: string, needle: string)
    ensures Contains(s, needle) <==> exists before, after :: s == before + needle + after
  {
    if Contains(s, needle) {
      var i :| 0 <= i <= |s| - |needle| && OccursAt(s, needle, i);
      assert s == s[..i] + needle + s[i + |needle|..];
    }
    if before, after :| s == before + needle + after {
      assert OccursAt(s, needle, |before|);
    }
  }

  /** A text that no space touches is left alone by trimming. */
  lemma TrimIdentity(lib: Lib, s: string)
    requires forall c :: c in s ==> !lib.space(c)
    ensures Trim(lib, s) == s
  {
    var i, j := TrimShape(lib, s);
    assert forall k :: 0 <= k < |s| ==> s[k] in s;
  }

  lemma PartOfWhole(before: string, part: string, after: string, i: nat, j: nat)
    requires i <= j <= |part|
    ensures (before + part + after)[|before| + i..|before| + j] == part[i..j]
  {
  }

  lemma SliceOccurs(s: string, a: nat, b: nat, p: nat, q: nat)
    requires a <= p <= q <= b <= |s|
    ensures Contains(s[a..b], s[p..q])
  {
    var t := s[a..b];
    forall k | 0 <= k < q - p ensures t[p - a..q - a][k] == s[p..q][k] {
      assert t[p - a + k] == s[p + k];
    }
    assert t[p - a..q - a] == s[p..q];
    assert OccursAt(s[a..b], s[p..q], p - a);
  }

  /** The trimmed text of a part survives, whole, in the trimmed text of a context around it. */
  lemma TrimInContext(lib: Lib, before: string, part: string, after: string)
    requires Trim(lib, part) != []
    ensures Contains(Trim(lib, before + part + after), Trim(lib, part))
  {
    var whole := before + part + after;
    var i, j := TrimShape(lib, part);
    var a, b := TrimShape(lib, whole);
    var p := |before| + i;
    var q := |before| + j;
    assert whole[p] == part[i] && whole[q - 1] == part[j - 1];
    assert a <= p && q <= b;
    PartOfWhole(before, part, after, i, j);
    SliceOccurs(whole, a, b, p, q);
  }

  lemma ContainsEach(f: char -> char, s: string, needle: string)
    requires Contains(s, needle)
    ensures Contains(Each(f, s), Each(f, needle))
  {
    var i :| 0 <= i <= |s| - |needle| && OccursAt(s, needle, i);
    forall k | 0 <= k < |needle|
      ensures Each(f, s)[i..i + |needle|][k] == Each(f, needle)[k]
    {
      assert s[i..i + |needle|][k] == needle[k];
    }
    assert OccursAt(Each(f, s), Each(f, needle), i);
  }

  lemma ContainsTransitive(a: string, b: string, c: string)
    requires Contains(a, b) && Contains(b, c)
    ensures Contains(a, c)
  {
    var i :| 0 <= i <= |a| - |b| && OccursAt(a, b, i);
    var j :| 0 <= j <= |b| - |c| && OccursAt(b, c, j);
    assert a[i..i + |b|] == b;
    forall k | 0 <= k < |c| ensures a[i + j..i + j + |c|][k] == c[k] {
      assert b[j..j + |c|][k] == a[i..i + |b|][j + k];
    }
    assert OccursAt(a, c, i + j);
  }

  /** Words made of plain letters are their own normal form. */
  lemma NormalizePlain(lib: Lib, s: string)
    requires lib.Sane() && forall c :: c in s ==> Plain(c)
    ensures Normalize(lib, s) == s
  {
    forall c | c in s ensures !lib.space(c) { assert Plain(c); }
    TrimIdentity(lib, s);
    forall k | 0 <= k < |s| ensures Each(lib.lower, s)[k] == s[k] { assert Plain(s[k]); }
  }
}
