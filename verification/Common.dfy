/** Small pieces shared by the other modules: optional values, filtered, distinct and sorted sequences. */
module Common {
  datatype Option<+T> = None | Some(value: T)

  /** The elements of s that satisfy p, in order. */
  function Filter<T>(p: T -> bool, s: seq<T>): (r: seq<T>)
    ensures |r| <= |s|
  {
    if s == [] then []
    else Filter(p, s[..|s| - 1]) + if p(s[|s| - 1]) then [s[|s| - 1]] else []
  }

  lemma {:induction false} FilterSound<T>(p: T -> bool, s: seq<T>, i: nat)
    requires i < |Filter(p, s)|
    ensures Filter(p, s)[i] in s && p(Filter(p, s)[i])
  {
    if i < |Filter(p, s[..|s| - 1])| {
      FilterSound(p, s[..|s| - 1], i);
    }
  }

  lemma FilterSnoc<T>(p: T -> bool, s: seq<T>, x: T)
    ensures Filter(p, s + [x]) == Filter(p, s) + if p(x) then [x] else []
  {
    assert (s + [x])[..|s|] == s;
  }

  lemma FilterOne<T>(p: T -> bool, x: T)
    ensures Filter(p, [x]) == if p(x) then [x] else []
  {
    assert [x][..0] == [];
  }

  lemma Assoc<T>(a: seq<T>, b: seq<T>, c: seq<T>)
    ensures (a + b) + c == a + (b + c)
  {
  }

  lemma {:induction false} FilterConcat<T>(p: T -> bool, s: seq<T>, t: seq<T>)
    ensures Filter(p, s + t) == Filter(p, s) + Filter(p, t)
  {
    if t == [] {
      assert s + t == s;
    } else {
      var t', x := t[..|t| - 1], t[|t| - 1];
      var kept := if p(x) then [x] else [];
      assert t == t' + [x];
      calc {
        Filter(p, s + t);
        { Assoc(s, t', [x]); }
        Filter(p, (s + t') + [x]);
        { FilterSnoc(p, s + t', x); }
        Filter(p, s + t') + kept;
        { FilterConcat(p, s, t'); }
        (Filter(p, s) + Filter(p, t')) + kept;
        { Assoc(Filter(p, s), Filter(p, t'), kept); FilterSnoc(p, t', x); }
        Filter(p, s) + Filter(p, t);
      }
    }
  }

  lemma {:induction false} FilterNone<T>(p: T -> bool, s: seq<T>)
    requires forall x <- s :: !p(x)
    ensures Filter(p, s) == []
  {
    if s == [] {
    } else {
      FilterNone(p, s[..|s| - 1]);
    }
  }

  /** If some element satisfies p then the filter keeps something. */
  lemma {:induction false} FilterKeeps<T>(p: T -> bool, s: seq<T>, i: nat)
    requires i < |s| && p(s[i])
    ensures s[i] in Filter(p, s)
  {
    if i < |s| - 1 {
      FilterKeeps(p, s[..|s| - 1], i);
    }
  }

  /** Filtering by a weaker condition first makes no difference. */
  lemma {:induction false} FilterWithin<T>(p: T -> bool, q: T -> bool, s: seq<T>)
    requires forall x <- s :: p(x) ==> q(x)
    ensures Filter(p, Filter(q, s)) == Filter(p, s)
  {
    if s == [] {
    } else {
      var most, last := s[..|s| - 1], s[|s| - 1];
      FilterWithin(p, q, most);
      FilterSnoc(p, Filter(q, most), last);
      assert last in s;
      assert Filter(p, most) + [] == Filter(p, most) && Filter(q, most) + [] == Filter(q, most);
    }
  }

  /** Filtering by the opposite condition first leaves nothing. */
  lemma FilterOutside<T>(p: T -> bool, q: T -> bool, s: seq<T>)
    requires forall x <- s :: p(x) ==> !q(x)
    ensures Filter(p, Filter(q, s)) == []
  {
    forall x | x in Filter(q, s) ensures !p(x) {
      var i :| 0 <= i < |Filter(q, s)| && Filter(q, s)[i] == x;
      FilterSound(q, s, i);
    }
    FilterNone(p, Filter(q, s));
  }

  ghost predicate NoDup<T>(s: seq<T>) {
    forall i, j :: 0 <= i < j < |s| ==> s[i] != s[j]
  }

  predicate Sorted(times: seq<int>) {
    forall i, j :: 0 <= i <= j < |times| ==> times[i] <= times[j]
  }
}
