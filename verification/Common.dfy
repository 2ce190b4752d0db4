/** Failure-carrying values and the two orders the client relies on. */
module Common {

  datatype Option<+T> = None | Some(value: T)

  datatype Result<+T, +E> = Success(value: T) | Failure(error: E)

  /** Python's ordering of strings: code point by code point, prefixes first. */
  predicate StrLe(a: string, b: string) {
    a == [] || (b != [] && (a[0] < b[0] || (a[0] == b[0] && StrLe(a[1..], b[1..]))))
  }

  lemma {:induction false} StrLeTotal(a: string, b: string)
    ensures StrLe(a, b) || StrLe(b, a)
  {
    if a != [] && b != [] && a[0] == b[0] {
      StrLeTotal(a[1..], b[1..]);
    }
  }

  lemma {:induction false} StrLeAntisymmetric(a: string, b: string)
    requires StrLe(a, b) && StrLe(b, a)
    ensures a == b
  {
    if a == [] {
    } else {
      StrLeAntisymmetric(a[1..], b[1..]);
      assert a == [a[0]] + a[1..] && b == [b[0]] + b[1..];
    }
  }

  lemma {:induction false} StrLeTransitive(a: string, b: string, c: string)
    requires StrLe(a, b) && StrLe(b, c)
    ensures StrLe(a, c)
  {
    if a != [] && a[0] == b[0] == c[0] {
      StrLeTransitive(a[1..], b[1..], c[1..]);
    }
  }

  lemma {:induction false} StrLePrefix(p: string, a: string, b: string)
    requires StrLe(a, b)
    ensures StrLe(p + a, p + b)
  {
    if p == [] {
      assert p + a == a && p + b == b;
    } else {
      StrLePrefix(p[1..], a, b);
      assert (p + a)[1..] == p[1..] + a && (p + b)[1..] == p[1..] + b;
    }
  }

  predicate IsFirst(m: string, s: set<string>) {
    m in s && forall y :: y in s ==> StrLe(m, y)
  }

  lemma {:induction false} FirstExists(s: set<string>)
    requires s != {}
    ensures exists m :: IsFirst(m, s)
  {
    var x :| x in s;
    StrLeTotal(x, x);
    var rest := s - {x};
    if rest == {} {
      assert s == {x};
      assert IsFirst(x, s);
    } else {
      FirstExists(rest);
      var m :| IsFirst(m, rest);
      StrLeTotal(x, m);
      if StrLe(x, m) {
        forall y | y in s ensures StrLe(x, y) {
          if y != x {
            assert y in rest;
            StrLeTransitive(x, m, y);
          }
        }
        assert IsFirst(x, s);
      } else {
        assert forall y :: y in s ==> y == x || y in rest;
        assert IsFirst(m, s);
      }
    }
  }

  lemma FirstUnique(s: set<string>)
    ensures forall m, n :: IsFirst(m, s) && IsFirst(n, s) ==> m == n
  {
    forall m, n | IsFirst(m, s) && IsFirst(n, s) ensures m == n {
      StrLeAntisymmetric(m, n);
    }
  }

  predicate Distinct<T(==)>(s: seq<T>) {
    forall i, j :: 0 <= i < j < |s| ==> s[i] != s[j]
  }

  /** Python's `part in text` on strings. */
  predicate Contains(text: string, part: string) {
    exists i | 0 <= i <= |text| - |part| :: part <= text[i..]
  }

  /** The part stands somewhere in the text. */
  ghost predicate Occurs(part: string, text: string) {
    exists before, after :: text == before + part + after
  }

  lemma ContainsOccurs(text: string, part: string)
    ensures Contains(text, part) <==> Occurs(part, text)
  {
    if i :| 0 <= i <= |text| - |part| && part <= text[i..] {
      assert text == text[..i] + part + text[i + |part|..];
    }
    if before, after :| text == before + part + after {
      assert part <= text[|before|..];
    }
  }

  lemma DistinctConcat<T>(a: seq<T>, b: seq<T>)
    requires Distinct(a) && Distinct(b) && forall x :: x in a ==> x !in b
    ensures Distinct(a + b)
  {
    forall i, j | 0 <= i < j < |a + b| ensures (a + b)[i] != (a + b)[j] {
      if i < |a| <= j {
        assert a[i] in a && b[j - |a|] in b;
      }
    }
  }

  lemma {:induction false} DistinctLength<T>(s: seq<T>, t: set<T>)
    requires Distinct(s) && forall x :: x in s ==> x in t
    ensures |s| <= |t|
  {
    if s == [] {
    } else {
      DistinctLength(s[1..], t - {s[0]});
    }
  }

  lemma ConcatMembers<T>(a: seq<T>, b: seq<T>, c: seq<T>)
    ensures forall x :: x in a + b + c <==> x in a || x in b || x in c
  {
  }

  lemma FirstMember<T>(s: seq<T>)
    ensures s == [] || s[0] in s
  {
  }

  lemma TakeOneMore<T>(s: seq<T>, i: nat)
    requires i < |s|
    ensures s[..i + 1] == s[..i] + [s[i]]
  {
  }

  /** The keys of a dict in the order of Python's sorted(). */
  function SortedKeys(s: set<string>): (r: seq<string>)
    ensures Distinct(r)
    ensures forall x :: x in r <==> x in s
    ensures |r| == |s|
  {
    if s == {} then []
    else
      FirstExists(s);
      FirstUnique(s);
      var m :| IsFirst(m, s);
      [m] + SortedKeys(s - {m})
  }

  ghost predicate Ascends(r: seq<string>) {
    forall i, j :: 0 <= i < j < |r| ==> StrLe(r[i], r[j])
  }

  lemma AscendBehind(m: string, rest: seq<string>, s: set<string>)
    requires IsFirst(m, s) && Ascends(rest) && forall x :: x in rest ==> x in s
    ensures Ascends([m] + rest)
  {
    forall i, j | 0 <= i < j < |[m] + rest| ensures StrLe(([m] + rest)[i], ([m] + rest)[j]) {
      assert rest[j - 1] in rest;
    }
  }

  lemma {:induction false} SortedKeysAscend(s: set<string>)
    ensures Ascends(SortedKeys(s))
  {
    if s == {} {
    } else {
      var m := SortedKeys(s)[0];
      assert IsFirst(m, s) by {
        FirstExists(s);
        FirstUnique(s);
      }
      SortedKeysAscend(s - {m});
      var rest := SortedKeys(s - {m});
      assert SortedKeys(s) == [m] + rest;
      AscendBehind(m, rest, s);
    }
  }

  ghost predicate IsTotalPreorder<T(!new)>(le: (T, T) -> bool) {
    && (forall a, b :: le(a, b) || le(b, a))
    && (forall a, b, c :: le(a, b) && le(b, c) ==> le(a, c))
  }

  /** What is assumed of `dpkg --compare-versions a le b`. */
  type VersionOrder = le: (string, string) -> bool | IsTotalPreorder(le) witness (a: string, b: string) => true

  /** The index kept by a left-to-right scan that replaces the held version only by one that is not `le` it. */
  ghost function Kept(le: VersionOrder, versions: seq<Option<string>>): (k: Option<nat>)
    ensures k.Some? ==> k.value < |versions| && versions[k.value].Some?
  {
    if versions == [] then None
    else
      var held := Kept(le, versions[..|versions| - 1]);
      var offer := versions[|versions| - 1];
      if offer.Some? && (held.None? || !le(offer.value, versions[held.value].value)) then Some(|versions| - 1) else held
  }

  /** Entry i is the first with a version at least as great as every other one. */
  ghost predicate FirstGreatest(le: VersionOrder, versions: seq<Option<string>>, i: nat) {
    && i < |versions| && versions[i].Some?
    && forall j :: 0 <= j < |versions| && versions[j].Some? ==>
         && le(versions[j].value, versions[i].value)
         && (j < i ==> !le(versions[i].value, versions[j].value))
  }

  lemma {:induction false} KeptIsFirstGreatest(le: VersionOrder, versions: seq<Option<string>>)
    ensures Kept(le, versions).None? <==> forall i :: 0 <= i < |versions| ==> versions[i].None?
    ensures Kept(le, versions).Some? ==> FirstGreatest(le, versions, Kept(le, versions).value)
  {
    if versions == [] {
    } else {
      var front, n := versions[..|versions| - 1], |versions| - 1;
      KeptIsFirstGreatest(le, front);
      assert forall j :: 0 <= j < n ==> versions[j] == front[j];
      assert versions[n].Some? ==> le(versions[n].value, versions[n].value);
    }
  }

  /** The reverse order is again an order. */
  ghost function Reversed(le: VersionOrder): VersionOrder {
    (a: string, b: string) => le(b, a)
  }
}
