/** Input selection: `files.filter(file => file.endsWith('.svg')).sort()`. */
module Selection {
  import opened Text

  predicate IsSvg(file: string) { EndsWith(file, ".svg") }

  // ---------------------------------------------------------------------
  // The order of `Array.prototype.sort` without a comparator: strings are
  // compared character by character, and a proper prefix comes first.
  // ---------------------------------------------------------------------

  predicate NameLe(a: string, b: string)
    decreases |a|
  {
    a == [] || (b != [] && (a[0] < b[0] || (a[0] == b[0] && NameLe(a[1..], b[1..]))))
  }

  lemma {:induction false} NameLeTotal(a: string, b: string)
    ensures NameLe(a, b) || NameLe(b, a)
    decreases |a|
  {
    if a != [] && b != [] && a[0] == b[0] {
      NameLeTotal(a[1..], b[1..]);
    }
  }

  lemma {:induction false} NameLeTransitive(a: string, b: string, c: string)
    requires NameLe(a, b) && NameLe(b, c)
    ensures NameLe(a, c)
    decreases |a|
  {
    if a != [] && a[0] == b[0] && b[0] == c[0] {
      NameLeTransitive(a[1..], b[1..], c[1..]);
    }
  }

  lemma {:induction false} NameLeAntisymmetric(a: string, b: string)
    requires NameLe(a, b) && NameLe(b, a)
    ensures a == b
    decreases |a|
  {
    if a != [] {
      NameLeAntisymmetric(a[1..], b[1..]);
      assert a == [a[0]] + a[1..] && b == [b[0]] + b[1..];
    }
  }

  predicate Sorted(s: seq<string>) {
    forall i, j :: 0 <= i < j < |s| ==> NameLe(s[i], s[j])
  }

  // ---------------------------------------------------------------------
  // Filtering
  // ---------------------------------------------------------------------

  /** Keeps, in their order, exactly the names that end in `.svg`. */
  function FilterSvg(files: seq<string>): (r: seq<string>)
    ensures forall f :: multiset(r)[f] == if IsSvg(f) then multiset(files)[f] else 0
    ensures forall k :: 0 <= k < |r| ==> IsSvg(r[k])
  {
    if files == [] then []
    else
      assert files == [files[0]] + files[1..];
      (if IsSvg(files[0]) then [files[0]] else []) + FilterSvg(files[1..])
  }

  // ---------------------------------------------------------------------
  // Sorting
  // ---------------------------------------------------------------------

  /** A name that comes before every name of an ascending sequence can be
      put in front of it. */
  lemma ConsSorted(x: string, s: seq<string>)
    requires Sorted(s) && forall y :: y in s ==> NameLe(x, y)
    ensures Sorted([x] + s)
  {
    forall i, j | 0 <= i < j < |[x] + s| ensures NameLe(([x] + s)[i], ([x] + s)[j]) {
      assert ([x] + s)[j] == s[j - 1];
      if i > 0 { assert ([x] + s)[i] == s[i - 1]; }
    }
  }

  /** The first name of an ascending sequence comes before all the others. */
  lemma HeadLeAll(s: seq<string>)
    requires Sorted(s) && s != []
    ensures forall y :: y in s[1..] ==> NameLe(s[0], y)
  {
    forall y | y in s[1..] ensures NameLe(s[0], y) {
      var j :| 0 <= j < |s[1..]| && s[1..][j] == y;
      assert s[j + 1] == y;
    }
  }

  /** A name before the first name of an ascending sequence is before all. */
  lemma LeAllOfSorted(x: string, s: seq<string>)
    requires Sorted(s) && s != [] && NameLe(x, s[0])
    ensures forall y :: y in s ==> NameLe(x, y)
  {
    forall y | y in s ensures NameLe(x, y) {
      var j :| 0 <= j < |s| && s[j] == y;
      if j > 0 { NameLeTransitive(x, s[0], s[j]); }
    }
  }

  /** Inserting a name that does not come before `h` into names that all come
      after `h` gives names that all come after `h`. */
  lemma LeAllOfInsert(h: string, x: string, rest: seq<string>, r: seq<string>)
    requires !NameLe(x, h) && (forall y :: y in rest ==> NameLe(h, y))
    requires multiset(r) == multiset(rest) + multiset{x}
    ensures forall y :: y in r ==> NameLe(h, y)
  {
    forall y | y in r ensures NameLe(h, y) {
      assert y in multiset(r);
      if y == x { NameLeTotal(x, h); }
      else { assert y in multiset(rest); }
    }
  }

  function Insert(x: string, s: seq<string>): (r: seq<string>)
    requires Sorted(s)
    ensures Sorted(r)
    ensures multiset(r) == multiset(s) + multiset{x}
  {
    if s == [] then [x]
    else if NameLe(x, s[0]) then
      LeAllOfSorted(x, s);
      ConsSorted(x, s);
      [x] + s
    else
      TailOf(s);
      HeadLeAll(s);
      var tail := Insert(x, s[1..]);
      LeAllOfInsert(s[0], x, s[1..], tail);
      ConsSorted(s[0], tail);
      [s[0]] + tail
  }

  /** Sorts the names into ascending order. */
  function SortNames(s: seq<string>): (r: seq<string>)
    ensures Sorted(r)
    ensures multiset(r) == multiset(s)
  {
    if s == [] then []
    else
      assert s == [s[0]] + s[1..];
      Insert(s[0], SortNames(s[1..]))
  }

  /** The first name of an ascending sequence comes before every name of
      any other arrangement of the same names. */
  lemma SortedHeadLe(a: seq<string>, b: seq<string>)
    requires Sorted(b) && a != [] && multiset(a) == multiset(b)
    ensures b != [] && NameLe(b[0], a[0])
  {
    assert a[0] in multiset(b);
    var i :| 0 <= i < |b| && b[i] == a[0];
    if i == 0 { NameLeTotal(a[0], a[0]); }
  }

  lemma TailOf(s: seq<string>)
    requires s != []
    ensures s == [s[0]] + s[1..]
    ensures multiset(s[1..]) == multiset(s) - multiset{s[0]}
    ensures Sorted(s) ==> Sorted(s[1..])
  {
    assert s == [s[0]] + s[1..];
  }

  /** There is only one ascending arrangement of a collection of names, so
      the selection does not depend on how the sort is carried out. */
  lemma {:induction false} SortedUnique(a: seq<string>, b: seq<string>)
    requires Sorted(a) && Sorted(b) && multiset(a) == multiset(b)
    ensures a == b
    decreases |a|
  {
    if a != [] {
      SortedHeadLe(a, b);
      SortedHeadLe(b, a);
      NameLeAntisymmetric(a[0], b[0]);
      TailOf(a);
      TailOf(b);
      SortedUnique(a[1..], b[1..]);
    }
  }

  /** The names the generator works on, in the order it works on them. */
  function SvgFiles(files: seq<string>): (r: seq<string>)
  {
    SortNames(FilterSvg(files))
  }

  /** The selection holds every `.svg` name of the input exactly as often as
      the input does, nothing else, in ascending order; and it is the only
      sequence that does. */
  lemma SvgFilesSpec(files: seq<string>, other: seq<string>)
    ensures Sorted(SvgFiles(files))
    ensures forall f :: multiset(SvgFiles(files))[f] == if IsSvg(f) then multiset(files)[f] else 0
    ensures forall f :: f in SvgFiles(files) <==> f in files && IsSvg(f)
    ensures Sorted(other) && multiset(other) == multiset(SvgFiles(files)) ==> other == SvgFiles(files)
  {
    var r := SvgFiles(files);
    forall f ensures f in r <==> f in files && IsSvg(f) {
      assert f in r <==> f in multiset(r);
      assert f in files <==> f in multiset(files);
    }
    if Sorted(other) && multiset(other) == multiset(r) {
      SortedUnique(other, r);
    }
  }
}
