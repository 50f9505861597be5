/** Strings as the order service uses them: a Go string holding valid UTF-8 is a
    sequence of Unicode scalar values, and `strings.Compare` orders such strings
    by their first differing scalar value. */
module Text {
  datatype Option<+T> = None | Some(value: T)

  /** The code points `unicode.IsSpace` accepts. */
  predicate IsSpace(c: char) {
    || '\t' <= c <= '\r'
    || c in {' ', '\U{0085}', '\U{00A0}', '\U{1680}', '\U{2028}', '\U{2029}', '\U{202F}', '\U{205F}', '\U{3000}'}
    || '\U{2000}' <= c <= '\U{200A}'
  }

  /** `strings.TrimSpace(s) == ""`. */
  predicate IsBlank(s: string) {
    forall i | 0 <= i < |s| :: IsSpace(s[i])
  }

  /** What `unicode.IsSpace` accepts, by number. */
  lemma SpaceCodePoints(c: char)
    ensures IsSpace(c) <==>
            c as int in {0x09, 0x0A, 0x0B, 0x0C, 0x0D, 0x20, 0x85, 0xA0, 0x1680, 0x2028, 0x2029, 0x202F, 0x205F, 0x3000}
            || 0x2000 <= c as int <= 0x200A
  {
  }

  /** `strings.TrimSpace`: spaces are cut off at both ends. */
  function TrimLeft(s: string): string { if s != "" && IsSpace(s[0]) then TrimLeft(s[1..]) else s }

  function TrimRight(s: string): string { if s != "" && IsSpace(s[|s| - 1]) then TrimRight(s[..|s| - 1]) else s }

  function TrimSpace(s: string): string { TrimRight(TrimLeft(s)) }

  lemma {:induction false} TrimLeftStops(s: string)
    ensures TrimLeft(s) == "" <==> IsBlank(s)
    ensures TrimLeft(s) != "" ==> !IsSpace(TrimLeft(s)[0])
  {
    if s != "" && IsSpace(s[0]) {
      TrimLeftStops(s[1..]);
      if IsBlank(s[1..]) {
        forall i | 0 <= i < |s| ensures IsSpace(s[i]) { assert i > 0 ==> s[i] == s[1..][i - 1]; }
      }
    }
  }

  lemma {:induction false} TrimRightKeeps(s: string)
    requires s != "" && !IsSpace(s[0])
    ensures TrimRight(s) != ""
  {
    if IsSpace(s[|s| - 1]) { TrimRightKeeps(s[..|s| - 1]); }
  }

  /** A text is blank exactly if nothing of it is left when it is trimmed. */
  lemma BlankIsTrimmedAway(s: string)
    ensures IsBlank(s) <==> TrimSpace(s) == ""
  {
    TrimLeftStops(s);
    if !IsBlank(s) { TrimRightKeeps(TrimLeft(s)); }
  }

  /** `strings.Compare(a, b) <= 0`. */
  predicate Before(a: string, b: string) {
    || a == ""
    || (b != "" && (a[0] < b[0] || (a[0] == b[0] && Before(a[1..], b[1..]))))
  }

  /** One text comes before the other at the first place where they differ, or is the beginning of it. */
  ghost predicate Ascending(a: string, b: string) {
    a <= b || exists i :: 0 <= i < |a| && i < |b| && a[..i] == b[..i] && a[i] < b[i]
  }

  lemma AscendingByFirst(a: string, b: string)
    requires a != "" && b != "" && a[0] != b[0]
    ensures Ascending(a, b) <==> a[0] < b[0]
  {
    assert a[..0] == b[..0];
    forall i | 0 < i <= |a| && i <= |b| ensures a[..i] != b[..i] { assert a[..i][0] != b[..i][0]; }
  }

  lemma AscendingByRest(a: string, b: string)
    requires a != "" && b != "" && a[0] == b[0]
    ensures Ascending(a, b) ==> Ascending(a[1..], b[1..])
  {
    if a <= b {
      assert a[1..] <= b[1..];
    } else if Ascending(a, b) {
      var i :| 0 <= i < |a| && i < |b| && a[..i] == b[..i] && a[i] < b[i];
      assert a[1..][..i - 1] == a[..i][1..] && b[1..][..i - 1] == b[..i][1..];
      assert a[1..][i - 1] < b[1..][i - 1];
    }
  }

  lemma AscendingFromRest(a: string, b: string)
    requires a != "" && b != "" && a[0] == b[0] && Ascending(a[1..], b[1..])
    ensures Ascending(a, b)
  {
    assert a == [a[0]] + a[1..] && b == [a[0]] + b[1..];
    if !(a[1..] <= b[1..]) {
      var i :| 0 <= i < |a| - 1 && i < |b| - 1 && a[1..][..i] == b[1..][..i] && a[1..][i] < b[1..][i];
      assert a[..i + 1] == [a[0]] + a[1..][..i] && b[..i + 1] == [a[0]] + b[1..][..i];
      assert a[i + 1] < b[i + 1];
    }
  }

  /** The recursive comparison is the lexicographic order, ascending. */
  lemma {:induction false} BeforeExactly(a: string, b: string)
    ensures Before(a, b) <==> Ascending(a, b)
  {
    if a == "" || b == "" {
    } else if a[0] != b[0] {
      AscendingByFirst(a, b);
    } else {
      BeforeExactly(a[1..], b[1..]);
      hide Ascending;
      if Ascending(a, b) { AscendingByRest(a, b); }
      if Ascending(a[1..], b[1..]) { AscendingFromRest(a, b); }
    }
  }

  lemma {:induction false} BeforeTotal(a: string, b: string)
    ensures Before(a, b) || Before(b, a)
  {
    if a != "" && b != "" {
      BeforeTotal(a[1..], b[1..]);
    }
  }

  lemma {:induction false} BeforeAntisymmetric(a: string, b: string)
    requires Before(a, b) && Before(b, a)
    ensures a == b
  {
    if a != "" && b != "" {
      BeforeAntisymmetric(a[1..], b[1..]);
    }
  }

  lemma {:induction false} BeforeTransitive(a: string, b: string, c: string)
    requires Before(a, b) && Before(b, c)
    ensures Before(a, c)
  {
    if a != "" && a[0] == b[0] == c[0] {
      BeforeTransitive(a[1..], b[1..], c[1..]);
    }
  }

  /** The result of `slices.SortFunc` by a string key is some sequence with this property. */
  ghost predicate SortedBy<T>(key: T -> string, xs: seq<T>) {
    forall i, j | 0 <= i < j < |xs| :: Before(key(xs[i]), key(xs[j]))
  }

  /** The same without the recursive comparison. */
  ghost predicate KeysAscend<T>(key: T -> string, xs: seq<T>) {
    forall i, j | 0 <= i < j < |xs| :: Ascending(key(xs[i]), key(xs[j]))
  }

  lemma SortedAscends<T>(key: T -> string, xs: seq<T>)
    ensures SortedBy(key, xs) <==> KeysAscend(key, xs)
  {
    forall i, j | 0 <= i < j < |xs| ensures Before(key(xs[i]), key(xs[j])) <==> Ascending(key(xs[i]), key(xs[j])) {
      BeforeExactly(key(xs[i]), key(xs[j]));
    }
    hide Before, Ascending;
  }

  function Insert<T>(key: T -> string, x: T, xs: seq<T>): seq<T> {
    if xs == [] || Before(key(x), key(xs[0])) then [x] + xs
    else [xs[0]] + Insert(key, x, xs[1..])
  }

  lemma {:induction false} InsertKeeps<T>(key: T -> string, x: T, xs: seq<T>)
    requires SortedBy(key, xs)
    ensures multiset(Insert(key, x, xs)) == multiset{x} + multiset(xs)
    ensures SortedBy(key, Insert(key, x, xs))
  {
    if xs == [] {
    } else if Before(key(x), key(xs[0])) {
      forall i | 0 <= i < |xs| ensures Before(key(x), key(xs[i])) {
        if i > 0 { BeforeTransitive(key(x), key(xs[0]), key(xs[i])); }
      }
    } else {
      BeforeTotal(key(x), key(xs[0]));
      var rest := Insert(key, x, xs[1..]);
      InsertKeeps(key, x, xs[1..]);
      assert xs == [xs[0]] + xs[1..];
      forall i | 0 <= i < |rest| ensures Before(key(xs[0]), key(rest[i])) {
        assert rest[i] in multiset(rest);
        if rest[i] != x { assert rest[i] in xs[1..]; }
      }
    }
  }

  /** Sorting by a string key: insertion sort, one of the sorts that meet `SortedBy`. */
  function SortBy<T>(key: T -> string, xs: seq<T>): (r: seq<T>)
    ensures multiset(r) == multiset(xs)
    ensures SortedBy(key, r)
  {
    if xs == [] then []
    else
      assert xs == [xs[0]] + xs[1..];
      var rest := SortBy(key, xs[1..]);
      InsertKeeps(key, xs[0], rest);
      Insert(key, xs[0], rest)
  }

  lemma HeadIsFirst<T>(key: T -> string, xs: seq<T>, y: T)
    requires SortedBy(key, xs) && y in xs
    ensures Before(key(xs[0]), key(y))
  {
    var j :| 0 <= j < |xs| && xs[j] == y;
    if j == 0 { BeforeTotal(key(y), key(y)); }
  }

  lemma DropHead<T>(xs: seq<T>, ys: seq<T>)
    requires multiset(xs) == multiset(ys) && |xs| == |ys| > 0 && xs[0] == ys[0]
    ensures multiset(xs[1..]) == multiset(ys[1..])
  {
    assert xs == [xs[0]] + xs[1..] && ys == [ys[0]] + ys[1..];
    assert multiset(xs[1..]) == multiset(xs) - multiset{xs[0]};
  }

  /** Where equal keys mean equal elements there is only one sorted arrangement, so which
      sorting algorithm runs, and in which order the elements arrived, cannot be observed. */
  lemma {:induction false} SortedArrangementUnique<T>(key: T -> string, xs: seq<T>, ys: seq<T>)
    requires multiset(xs) == multiset(ys)
    requires SortedBy(key, xs) && SortedBy(key, ys)
    requires forall x, y | x in xs && y in xs && key(x) == key(y) :: x == y
    ensures xs == ys
  {
    assert |xs| == |multiset(xs)| == |multiset(ys)| == |ys|;
    if xs != [] {
      assert ys[0] in multiset(xs) && xs[0] in multiset(ys);
      HeadIsFirst(key, xs, ys[0]);
      HeadIsFirst(key, ys, xs[0]);
      BeforeAntisymmetric(key(xs[0]), key(ys[0]));
      DropHead(xs, ys);
      SortedArrangementUnique(key, xs[1..], ys[1..]);
    }
  }
}
