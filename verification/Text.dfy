/** Python's str.strip, str.lower and sorted on ASCII text. */
module Text {
  predicate IsSpace(c: char) {
    c == ' ' || '\t' <= c <= '\r' || '\U{1C}' <= c <= '\U{1F}'
  }

  function LowerChar(c: char): char {
    if 'A' <= c <= 'Z' then (c as int + 32) as char else c
  }

  function Lower(s: string): (r: string)
    ensures |r| == |s|
  {
    if s == "" then "" else [LowerChar(s[0])] + Lower(s[1..])
  }

  predicate IsDigit(c: char) {
    '0' <= c <= '9'
  }

  predicate IsDecimal(c: char) {
    c in "0123456789"
  }

  lemma DigitsExactly(c: char)
    ensures IsDigit(c) <==> IsDecimal(c)
  {
    var digits := "0123456789";
    if IsDigit(c) {
      assert digits[c as int - '0' as int] == c;
    }
  }

  lemma {:induction false} LowerAt(s: string, i: nat)
    requires i < |s|
    ensures Lower(s)[i] == LowerChar(s[i])
  {
    if i > 0 {
      LowerAt(s[1..], i - 1);
    }
  }

  function StripLeft(s: string): string {
    if s != "" && IsSpace(s[0]) then StripLeft(s[1..]) else s
  }

  function StripRight(s: string): string {
    if s != "" && IsSpace(s[|s| - 1]) then StripRight(s[..|s| - 1]) else s
  }

  function Strip(s: string): string {
    StripRight(StripLeft(s))
  }

  predicate Stripped(s: string) {
    s != "" ==> !IsSpace(s[0]) && !IsSpace(s[|s| - 1])
  }

  lemma {:induction false} StripLeftDone(s: string)
    ensures StripLeft(s) != "" ==> !IsSpace(StripLeft(s)[0])
  {
    if s != "" && IsSpace(s[0]) {
      StripLeftDone(s[1..]);
    }
  }

  lemma {:induction false} StripRightDone(s: string)
    requires s != "" ==> !IsSpace(s[0])
    ensures Stripped(StripRight(s))
  {
    if s != "" && IsSpace(s[|s| - 1]) {
      StripRightDone(s[..|s| - 1]);
    }
  }

  /** What strip returns has no space at either end, and such text is left alone. */
  lemma StripIsStripped(s: string)
    ensures Stripped(Strip(s))
    ensures Stripped(s) ==> Strip(s) == s
  {
    StripLeftDone(s);
    StripRightDone(StripLeft(s));
  }

  predicate AllSpace(s: string) {
    forall i :: 0 <= i < |s| ==> IsSpace(s[i])
  }

  /** The ASCII characters that Python regards as space. */
  lemma SpacesExactly(c: char)
    ensures IsSpace(c) <==> c in [' ', '\t', '\n', '\U{0B}', '\U{0C}', '\r', '\U{1C}', '\U{1D}', '\U{1E}', '\U{1F}']
  {
  }

  lemma {:induction false} StripLeftExactly(s: string)
    ensures exists left :: AllSpace(left) && s == left + StripLeft(s)
  {
    if s != "" && IsSpace(s[0]) {
      StripLeftExactly(s[1..]);
      var left :| AllSpace(left) && s[1..] == left + StripLeft(s[1..]);
      assert AllSpace([s[0]] + left) && s == ([s[0]] + left) + StripLeft(s);
    } else {
      assert AllSpace("") && s == "" + s;
    }
  }

  lemma {:induction false} StripRightExactly(s: string)
    ensures exists right :: AllSpace(right) && s == StripRight(s) + right
  {
    if s != "" && IsSpace(s[|s| - 1]) {
      var front, last := s[..|s| - 1], [s[|s| - 1]];
      StripRightExactly(front);
      var right :| AllSpace(right) && front == StripRight(front) + right;
      assert AllSpace(right + last) && s == StripRight(s) + (right + last);
    } else {
      assert AllSpace("") && s == s + "";
    }
  }

  /** Strip takes spaces off both ends, all of them and nothing else. */
  lemma StripExactly(s: string)
    ensures Stripped(Strip(s))
    ensures exists left, right :: AllSpace(left) && AllSpace(right) && s == left + Strip(s) + right
  {
    StripIsStripped(s);
    StripLeftExactly(s);
    StripRightExactly(StripLeft(s));
    var left :| AllSpace(left) && s == left + StripLeft(s);
    var right :| AllSpace(right) && StripLeft(s) == Strip(s) + right;
    assert s == left + Strip(s) + right;
  }

  const UPPER := "ABCDEFGHIJKLMNOPQRSTUVWXYZ"
  const LOWER := "abcdefghijklmnopqrstuvwxyz"

  /** Lowering replaces the capital letters one by one, and nothing else. */
  lemma LowerExactly(s: string, i: nat, l: nat)
    requires i < |s| && l < 26
    ensures |Lower(s)| == |s|
    ensures s[i] == UPPER[l] ==> Lower(s)[i] == LOWER[l]
    ensures !('A' <= s[i] <= 'Z') ==> Lower(s)[i] == s[i]
  {
    LowerAt(s, i);
  }

  lemma {:induction false} LowerTwice(s: string)
    ensures Lower(Lower(s)) == Lower(s)
  {
    if s != "" {
      LowerTwice(s[1..]);
      assert Lower(s)[1..] == Lower(s[1..]);
    }
  }

  lemma LowerKeepsStripped(s: string)
    requires Stripped(s)
    ensures Stripped(Lower(s))
  {
    if s != "" {
      LowerAt(s, 0);
      LowerAt(s, |s| - 1);
    }
  }

  /** Normal forms survive being normalised again. */
  lemma NormalFormsAreStable(s: string)
    ensures Strip(Strip(s)) == Strip(s)
    ensures Lower(Lower(s)) == Lower(s)
    ensures Strip(Lower(Strip(s))) == Lower(Strip(s))
  {
    LowerTwice(s);
    StripIsStripped(s);
    StripIsStripped(Strip(s));
    LowerKeepsStripped(Strip(s));
    StripIsStripped(Lower(Strip(s)));
  }

  // ---------- Sorting by code point ----------

  predicate Leq(a: string, b: string) {
    a == "" || (b != "" && (a[0] < b[0] || (a[0] == b[0] && Leq(a[1..], b[1..]))))
  }

  /** The texts agree before position `i` and the first is lower there. */
  predicate LowerFrom(a: string, b: string, i: nat) {
    i < |a| && i < |b| && a[..i] == b[..i] && a[i] as int < b[i] as int
  }

  lemma LowerInRest(a: string, b: string, i: nat)
    requires a != "" && b != "" && a[0] == b[0]
    ensures LowerFrom(a, b, i + 1) <==> LowerFrom(a[1..], b[1..], i)
  {
    if i + 1 <= |a| && i + 1 <= |b| {
      assert a[..i + 1] == [a[0]] + a[1..][..i] && b[..i + 1] == [b[0]] + b[1..][..i];
      assert a[..i + 1][1..] == a[1..][..i] && b[..i + 1][1..] == b[1..][..i];
    }
  }

  /** The order of a dictionary: a prefix comes first, else the first different character decides by its code. */
  lemma {:induction false} LeqExactly(a: string, b: string)
    ensures Leq(a, b) <==> a <= b || exists i: nat :: LowerFrom(a, b, i)
  {
    if a != "" && b != "" {
      assert a == [a[0]] + a[1..] && b == [b[0]] + b[1..];
      if a[0] == b[0] {
        LeqExactly(a[1..], b[1..]);
        if i: nat :| LowerFrom(a[1..], b[1..], i) {
          LowerInRest(a, b, i);
          assert LowerFrom(a, b, i + 1);
        }
        if i: nat :| LowerFrom(a, b, i) {
          LowerInRest(a, b, i - 1);
        }
      } else {
        assert LowerFrom(a, b, 0) <==> a[0] < b[0];
        assert forall i: nat :: 0 < i && i < |a| && i < |b| ==> a[..i][0] != b[..i][0];
      }
    }
  }

  lemma {:induction false} LeqTotal(a: string, b: string)
    ensures Leq(a, b) || Leq(b, a)
  {
    if a != "" && b != "" && a[0] == b[0] {
      LeqTotal(a[1..], b[1..]);
    }
  }

  lemma {:induction false} LeqAntisymmetric(a: string, b: string)
    requires Leq(a, b) && Leq(b, a)
    ensures a == b
  {
    if a != "" {
      LeqAntisymmetric(a[1..], b[1..]);
      assert a == [a[0]] + a[1..] && b == [b[0]] + b[1..];
    }
  }

  lemma {:induction false} LeqTransitive(a: string, b: string, c: string)
    requires Leq(a, b) && Leq(b, c)
    ensures Leq(a, c)
  {
    if a != "" && a[0] == b[0] && b[0] == c[0] {
      LeqTransitive(a[1..], b[1..], c[1..]);
    }
  }

  predicate Sorted(xs: seq<string>) {
    forall i, j :: 0 <= i < j < |xs| ==> Leq(xs[i], xs[j])
  }

  function Insert(x: string, xs: seq<string>): seq<string> {
    if xs == [] || Leq(x, xs[0]) then [x] + xs else [xs[0]] + Insert(x, xs[1..])
  }

  function Sort(xs: seq<string>): seq<string> {
    if xs == [] then [] else Insert(xs[0], Sort(xs[1..]))
  }

  lemma {:induction false} InsertSorted(x: string, xs: seq<string>)
    requires Sorted(xs)
    ensures Sorted(Insert(x, xs)) && multiset(Insert(x, xs)) == multiset{x} + multiset(xs)
  {
    if xs == [] {
    } else if Leq(x, xs[0]) {
      forall j | 0 <= j < |xs|
        ensures Leq(x, xs[j])
      {
        if j > 0 {
          LeqTransitive(x, xs[0], xs[j]);
        }
      }
    } else {
      LeqTotal(x, xs[0]);
      InsertSorted(x, xs[1..]);
      assert xs == [xs[0]] + xs[1..];
      var rest := Insert(x, xs[1..]);
      forall j | 0 <= j < |rest|
        ensures Leq(xs[0], rest[j])
      {
        assert rest[j] in multiset(rest);
        if rest[j] != x {
          assert rest[j] in multiset(xs[1..]);
        }
      }
    }
  }

  lemma {:induction false} SortSorts(xs: seq<string>)
    ensures Sorted(Sort(xs)) && multiset(Sort(xs)) == multiset(xs)
  {
    if xs != [] {
      SortSorts(xs[1..]);
      InsertSorted(xs[0], Sort(xs[1..]));
      assert xs == [xs[0]] + xs[1..];
    }
  }

  lemma LeastIsFirst(xs: seq<string>, ys: seq<string>)
    requires Sorted(xs) && Sorted(ys) && xs != [] && ys != [] && ys[0] in xs && xs[0] in ys
    ensures xs[0] == ys[0]
  {
    var i :| 0 <= i < |xs| && xs[i] == ys[0];
    var j :| 0 <= j < |ys| && ys[j] == xs[0];
    if i > 0 && j > 0 {
      LeqAntisymmetric(xs[0], ys[0]);
    }
  }

  lemma {:induction false} SortedIsUnique(xs: seq<string>, ys: seq<string>)
    requires Sorted(xs) && Sorted(ys) && multiset(xs) == multiset(ys)
    ensures xs == ys
  {
    assert |multiset(xs)| == |xs| && |multiset(ys)| == |ys|;
    if xs != [] {
      assert xs[0] in multiset(ys) && ys[0] in multiset(xs);
      LeastIsFirst(xs, ys);
      assert xs == [xs[0]] + xs[1..] && ys == [ys[0]] + ys[1..];
      assert multiset(xs[1..]) == multiset(xs) - multiset{xs[0]};
      assert multiset(ys[1..]) == multiset(ys) - multiset{ys[0]};
      SortedIsUnique(xs[1..], ys[1..]);
    }
  }

  /** sorted() is a canonical form: it depends on the values alone, not on their order. */
  lemma SortIsCanonical(xs: seq<string>, ys: seq<string>)
    ensures Sort(xs) == Sort(ys) <==> multiset(xs) == multiset(ys)
    ensures Sort(Sort(xs)) == Sort(xs)
  {
    SortSorts(xs);
    SortSorts(ys);
    SortSorts(Sort(xs));
    SortedIsUnique(Sort(Sort(xs)), Sort(xs));
    if multiset(xs) == multiset(ys) {
      SortedIsUnique(Sort(xs), Sort(ys));
    }
  }

  lemma SortMembers(xs: seq<string>)
    ensures |Sort(xs)| == |xs|
    ensures forall x :: x in Sort(xs) <==> x in xs
  {
    SortSorts(xs);
    assert |multiset(Sort(xs))| == |Sort(xs)| && |multiset(xs)| == |xs|;
    forall x
      ensures x in Sort(xs) <==> x in xs
    {
      assert x in Sort(xs) <==> x in multiset(Sort(xs));
    }
  }

  // ---------- Case-insensitive duplicates ----------

  predicate Holds(xs: seq<string>, lowered: string) {
    exists i :: 0 <= i < |xs| && Lower(xs[i]) == lowered
  }

  /** No two values are equal up to letter case. */
  predicate CaseDistinct(xs: seq<string>) {
    forall i, j :: 0 <= i < j < |xs| ==> Lower(xs[i]) != Lower(xs[j])
  }

  function StripAll(xs: seq<string>): (r: seq<string>)
    ensures |r| == |xs| && forall i :: 0 <= i < |xs| ==> r[i] == Strip(xs[i])
  {
    if xs == [] then [] else StripAll(xs[..|xs| - 1]) + [Strip(xs[|xs| - 1])]
  }

  function LowerAll(xs: seq<string>): (r: seq<string>)
    ensures |r| == |xs| && forall i :: 0 <= i < |xs| ==> r[i] == Lower(xs[i])
  {
    if xs == [] then [] else LowerAll(xs[..|xs| - 1]) + [Lower(xs[|xs| - 1])]
  }

  predicate NoBlank(xs: seq<string>) {
    forall i :: 0 <= i < |xs| ==> Strip(xs[i]) != ""
  }
}
