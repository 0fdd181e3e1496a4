/** The list of survey files each merger walks through:
    `sorted([f for f in listing if re.match(r'\d{4}Q[1-4]\.csv', f)], reverse=True)`. */
module FileSelector {
  import opened Wrappers
  import opened Decimal

  /** `re.match(r'\d{4}Q[1-4]\.csv', name)`: the pattern is anchored at the
      start of the name only, so anything may follow ".csv". */
  predicate MatchesVintage(name: string) {
    |name| >= 10 && IsDigit(name[0]) && IsDigit(name[1]) && IsDigit(name[2]) && IsDigit(name[3])
    && name[4] == 'Q' && '1' <= name[5] <= '4'
    && name[6] == '.' && name[7] == 'c' && name[8] == 's' && name[9] == 'v'
  }

  /** Python's `a <= b` on strings: code point by code point, a proper prefix
      first. */
  predicate LexLe(a: string, b: string)
    decreases |a|
  {
    |a| == 0 || (|b| > 0 && (a[0] < b[0] || (a[0] == b[0] && LexLe(a[1..], b[1..]))))
  }

  lemma {:induction false} LexLeReflexive(a: string)
    ensures LexLe(a, a)
    decreases |a|
  {
    if |a| > 0 {
      LexLeReflexive(a[1..]);
    }
  }

  lemma {:induction false} LexLeTotal(a: string, b: string)
    ensures LexLe(a, b) || LexLe(b, a)
    decreases |a|
  {
    if |a| > 0 && |b| > 0 && a[0] == b[0] {
      LexLeTotal(a[1..], b[1..]);
    }
  }

  lemma {:induction false} LexLeAntisymmetric(a: string, b: string)
    requires LexLe(a, b) && LexLe(b, a)
    ensures a == b
    decreases |a|
  {
    if |a| > 0 {
      LexLeAntisymmetric(a[1..], b[1..]);
      assert a == [a[0]] + a[1..] && b == [b[0]] + b[1..];
    }
  }

  lemma {:induction false} LexLeTransitive(a: string, b: string, c: string)
    requires LexLe(a, b) && LexLe(b, c)
    ensures LexLe(a, c)
    decreases |a|
  {
    if |a| > 0 && a[0] == b[0] && b[0] == c[0] {
      LexLeTransitive(a[1..], b[1..], c[1..]);
    }
  }

  /** `s` is in the order `sorted(..., reverse=True)` leaves it: every name is
      at least as large as every name after it. */
  predicate Descending(s: seq<string>) {
    forall i, j :: 0 <= i < j < |s| ==> LexLe(s[j], s[i])
  }

  /** The list comprehension: the names that match the pattern, in listing order. */
  function Matching(names: seq<string>): (r: seq<string>)
    ensures forall x :: x in r <==> x in names && MatchesVintage(x)
    ensures |r| <= |names|
  {
    if names == [] then []
    else (if MatchesVintage(names[0]) then [names[0]] else []) + Matching(names[1..])
  }

  /** Each matching name is kept once for each time it is listed, and the
      other names are dropped. */
  lemma {:induction false} MatchingMultiset(names: seq<string>, x: string)
    ensures multiset(Matching(names))[x] == if MatchesVintage(x) then multiset(names)[x] else 0
  {
    if names != [] {
      MatchingMultiset(names[1..], x);
      assert names == [names[0]] + names[1..];
    }
  }

  /** A name not smaller than the head of a descending list may go first. */
  lemma InsertFirst(x: string, s: seq<string>)
    requires Descending(s) && s != [] && LexLe(s[0], x)
    ensures Descending([x] + s)
  {
    forall j | 0 <= j < |s| ensures LexLe(s[j], x) {
      if j > 0 { LexLeTransitive(s[j], s[0], x); } else { LexLeReflexive(s[0]); }
    }
  }

  /** A name smaller than the head goes into the tail. */
  lemma InsertLater(x: string, s: seq<string>, rest: seq<string>)
    requires Descending(s) && s != [] && !LexLe(s[0], x)
    requires Descending(rest) && multiset(rest) == multiset(s[1..]) + multiset{x}
    ensures Descending([s[0]] + rest)
    ensures multiset([s[0]] + rest) == multiset(s) + multiset{x}
  {
    LexLeTotal(s[0], x);
    assert s == [s[0]] + s[1..];
    forall y | y in rest ensures LexLe(y, s[0]) {
      assert y in multiset(rest);
      if y != x {
        assert y in multiset(s[1..]);
        var j :| 0 <= j < |s[1..]| && s[1..][j] == y;
        assert s[j + 1] == y;
      }
    }
    var r := [s[0]] + rest;
    forall i, j | 0 <= i < j < |r| ensures LexLe(r[j], r[i]) {
      if i == 0 { assert r[j] in rest; } else { assert r[i] == rest[i - 1] && r[j] == rest[j - 1]; }
    }
  }

  /** One step of sorting: `x` placed before the first name it is not smaller than. */
  function Insert(x: string, s: seq<string>): (r: seq<string>)
    requires Descending(s)
    ensures multiset(r) == multiset(s) + multiset{x}
    ensures Descending(r)
  {
    if s == [] then [x]
    else if LexLe(s[0], x) then
      InsertFirst(x, s);
      [x] + s
    else
      InsertLater(x, s, Insert(x, s[1..]));
      [s[0]] + Insert(x, s[1..])
  }

  /** `sorted(names, reverse=True)`: the same names, largest first. */
  function SortDescending(names: seq<string>): (r: seq<string>)
    ensures multiset(r) == multiset(names)
    ensures Descending(r)
  {
    if names == [] then []
    else
      assert names == [names[0]] + names[1..];
      Insert(names[0], SortDescending(names[1..]))
  }

  /** The files a merger processes, in the order it processes them. */
  function SelectFiles(names: seq<string>): (r: seq<string>)
    ensures multiset(r) == multiset(Matching(names))
    ensures forall x :: x in r <==> x in names && MatchesVintage(x)
    ensures Descending(r)
  {
    var r := SortDescending(Matching(names));
    assert forall x :: x in r <==> x in multiset(r);
    r
  }

  /** The processed files list each matching name as often as the listing
      does, and no other name. */
  lemma SelectFilesMultiset(names: seq<string>, x: string)
    ensures multiset(SelectFiles(names))[x] == if MatchesVintage(x) then multiset(names)[x] else 0
  {
    MatchingMultiset(names, x);
  }

  /** Every file of the list has a vintage name. */
  predicate AllVintages(files: seq<string>) {
    forall k :: 0 <= k < |files| ==> MatchesVintage(files[k])
  }

  /** The selected files all have vintage names. */
  lemma SelectedVintages(names: seq<string>)
    ensures AllVintages(SelectFiles(names))
  {
    var files := SelectFiles(names);
    forall k | 0 <= k < |files| ensures MatchesVintage(files[k]) {
      assert files[k] in files;
    }
  }

  lemma DescendingTail(a: seq<string>)
    requires Descending(a) && a != []
    ensures Descending(a[1..])
  {
    forall i, j | 0 <= i < j < |a| - 1 ensures LexLe(a[1..][j], a[1..][i]) {
      assert a[1..][j] == a[j + 1] && a[1..][i] == a[i + 1];
    }
  }

  /** The first name of a descending list is the largest. */
  lemma HeadIsLargest(a: seq<string>, x: string)
    requires Descending(a) && x in a
    ensures LexLe(x, a[0])
  {
    var i :| 0 <= i < |a| && a[i] == x;
    if i == 0 {
      LexLeReflexive(x);
    }
  }

  lemma TailMultiset(a: seq<string>, b: seq<string>)
    requires a != [] && b != [] && a[0] == b[0] && multiset(a) == multiset(b)
    ensures multiset(a[1..]) == multiset(b[1..])
  {
    assert a == [a[0]] + a[1..] && b == [b[0]] + b[1..];
    assert multiset(a[1..]) == multiset(a) - multiset([a[0]]);
    assert multiset(b[1..]) == multiset(b) - multiset([a[0]]);
  }

  /** Sorting is determined by its result's two properties: two descending
      arrangements of the same names are the same list. */
  lemma {:induction false} DescendingUnique(a: seq<string>, b: seq<string>)
    requires Descending(a) && Descending(b) && multiset(a) == multiset(b)
    ensures a == b
    decreases |a|
  {
    if a != [] {
      assert a[0] in multiset(b);
      assert b != [] && b[0] in multiset(a);
      HeadIsLargest(b, a[0]);
      HeadIsLargest(a, b[0]);
      LexLeAntisymmetric(a[0], b[0]);
      TailMultiset(a, b);
      DescendingTail(a);
      DescendingTail(b);
      DescendingUnique(a[1..], b[1..]);
    }
  }

  // ----- Lexicographic order of vintage names is chronological order -----

  /** The position of a vintage on the calendar, counted in quarters. */
  function VintageOrdinal(name: string): nat
    requires MatchesVintage(name)
  {
    assert AllDigits(name[..4]);
    Value(name[..4]) * 4 + (name[5] as int - '1' as int)
  }

  /** Strings agreeing before position `k` and smaller at `k` are ordered. */
  lemma {:induction false} FirstDifferenceOrders(s: string, t: string, k: nat)
    requires k < |s| && k < |t| && s[k] < t[k]
    requires forall i :: 0 <= i < k ==> s[i] == t[i]
    ensures LexLe(s, t) && s != t
  {
    if k > 0 {
      FirstDifferenceOrders(s[1..], t[1..], k - 1);
    }
  }

  /** Numerals of one length with equal values are equal. */
  lemma {:induction false} ValueInjectiveSameLength(s: string, t: string)
    requires |s| == |t| && AllDigits(s) && AllDigits(t) && Value(s) == Value(t)
    ensures s == t
    decreases |s|
  {
    if s != [] {
      var n := |s| - 1;
      DivModTen(Value(s[..n]), DigitValue(s[n]));
      DivModTen(Value(t[..n]), DigitValue(t[n]));
      ValueInjectiveSameLength(s[..n], t[..n]);
      assert s == s[..n] + [s[n]] && t == t[..n] + [t[n]];
    }
  }

  /** Numerals of one length compare as their values do: the smaller one
      differs first at some position `k` by a smaller digit. */
  lemma {:induction false} DigitsOrder(s: string, t: string) returns (k: nat)
    requires |s| == |t| && AllDigits(s) && AllDigits(t) && Value(s) < Value(t)
    ensures k < |s| && s[k] < t[k]
    ensures forall i :: 0 <= i < k ==> s[i] == t[i]
    decreases |s|
  {
    var n := |s| - 1;
    var vs, vt := Value(s[..n]), Value(t[..n]);
    var ds, dt := DigitValue(s[n]), DigitValue(t[n]);
    assert vs * 10 + ds < vt * 10 + dt;
    if vs < vt {
      k := DigitsOrder(s[..n], t[..n]);
    } else {
      assert vs == vt;
      ValueInjectiveSameLength(s[..n], t[..n]);
      k := n;
    }
  }

  /** An earlier vintage's file name sorts strictly below a later one's. */
  lemma VintageOrder(a: string, b: string)
    requires MatchesVintage(a) && MatchesVintage(b) && VintageOrdinal(a) < VintageOrdinal(b)
    ensures LexLe(a, b) && a != b
  {
    var ya, yb := a[..4], b[..4];
    if Value(ya) < Value(yb) {
      var k := DigitsOrder(ya, yb);
      FirstDifferenceOrders(a, b, k);
    } else {
      assert Value(ya) == Value(yb);
      ValueInjectiveSameLength(ya, yb);
      assert forall i :: 0 <= i < 4 ==> a[i] == ya[i] == yb[i] == b[i];
      FirstDifferenceOrders(a, b, 5);
    }
  }

  /** "sorted from latest to earliest": a later vintage is processed before an
      earlier one. */
  lemma LaterVintageFirst(names: seq<string>, i: nat, j: nat)
    requires i < |SelectFiles(names)| && j < |SelectFiles(names)|
    requires VintageOrdinal(SelectFiles(names)[i]) > VintageOrdinal(SelectFiles(names)[j])
    ensures i < j
  {
    var r := SelectFiles(names);
    VintageOrder(r[j], r[i]);
    if j < i {
      LexLeAntisymmetric(r[i], r[j]);
    }
  }

  // ----- `filename.split('Q')` -----

  /** The index of the first 'Q' of the name, or its length when it has none. */
  function FirstQ(name: string): (i: nat)
    ensures i <= |name|
    ensures i < |name| ==> name[i] == 'Q'
    ensures forall k :: 0 <= k < i ==> name[k] != 'Q'
  {
    if name == [] || name[0] == 'Q' then 0 else FirstQ(name[1..]) + 1
  }

  /** `year, rest = filename.split('Q')`: the two pieces around the only 'Q';
      None where Python raises ValueError because the split does not give
      exactly two pieces. */
  function SplitOnQ(name: string): (r: Option<(string, string)>)
    ensures r.None? <==> multiset(name)['Q'] != 1
    ensures r.Some? ==> name == r.value.0 + "Q" + r.value.1
    ensures r.Some? ==> 'Q' !in r.value.0 && 'Q' !in r.value.1
  {
    if multiset(name)['Q'] != 1 then None
    else
      var i := FirstQ(name);
      assert name[i] == 'Q';
      var a, b := name[..i], name[i + 1..];
      assert name == a + "Q" + b;
      assert multiset(name) == multiset(a) + multiset{'Q'} + multiset(b);
      assert 'Q' !in a;
      Some((a, b))
  }

  /** A vintage name with nothing after ".csv" holds exactly one 'Q', so the
      split succeeds. */
  lemma ShortVintageSplits(name: string)
    requires MatchesVintage(name)
    ensures |name| == 10 ==> SplitOnQ(name).Some?
  {
    if |name| == 10 {
      var year, rest := name[..4], name[5..];
      assert name == year + [name[4]] + rest;
      assert 'Q' !in year by {
        forall i | 0 <= i < 4 ensures year[i] != 'Q' {
          assert year[i] == name[i];
        }
      }
      assert 'Q' !in rest by {
        forall i | 0 <= i < 5 ensures rest[i] != 'Q' {
          assert rest[i] == name[i + 5];
        }
      }
      assert multiset(name) == multiset(year) + multiset{'Q'} + multiset(rest);
    }
  }

  /** For a vintage file name with no second 'Q', the split gives the four year
      digits and what follows the quarter's Q. */
  lemma SplitVintage(name: string)
    requires MatchesVintage(name) && SplitOnQ(name).Some?
    ensures SplitOnQ(name).value == (name[..4], name[5..])
  {
    var (a, b) := SplitOnQ(name).value;
    var i := |a|;
    assert name[i] == 'Q';
    assert forall k :: 0 <= k < i ==> name[k] == a[k];
    assert i == 4;
  }
}
