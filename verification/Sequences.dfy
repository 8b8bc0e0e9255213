/** Strings in which nothing comes twice. */
module Sequences {

  ghost predicate NoTwice<T>(s: seq<T>) {
    forall i, j :: 0 <= i < j < |s| ==> s[i] != s[j]
  }

  lemma NoTwicePrefix<T>(a: seq<T>, b: seq<T>)
    requires NoTwice(a + b)
    ensures NoTwice(a)
  {
    var all := a + b;
    forall i, j | 0 <= i < j < |a| ensures a[i] != a[j] { assert all[i] != all[j]; }
  }

  /** What comes in position `i` has not come before. */
  lemma NextIsNew<T>(s: seq<T>, i: nat)
    requires NoTwice(s) && i < |s|
    ensures s[i] !in s[..i]
  {
  }

  lemma NoTwiceInsert<T>(s: seq<T>, i: nat, x: T)
    requires NoTwice(s) && x !in s && i <= |s|
    ensures NoTwice(s[..i] + [x] + s[i..])
  {
    var t := s[..i] + [x] + s[i..];
    assert forall j :: 0 <= j < i ==> t[j] == s[j];
    assert forall j :: i < j < |t| ==> t[j] == s[j - 1];
  }

  lemma NoTwiceWithout<T>(s: seq<T>, i: nat)
    requires NoTwice(s) && i < |s|
    ensures NoTwice(s[..i] + s[i + 1..])
  {
    var t := s[..i] + s[i + 1..];
    assert forall j :: 0 <= j < |t| ==> t[j] == s[if j < i then j else j + 1];
  }

  lemma NotLeft<T>(s: seq<T>, i: nat)
    requires NoTwice(s) && i < |s|
    ensures s[i] !in s[..i] + s[i + 1..]
  {
    var t := s[..i] + s[i + 1..];
    assert forall j :: 0 <= j < |t| ==> t[j] == s[if j < i then j else j + 1];
  }

  lemma NoTwiceSnoc<T>(s: seq<T>, x: T)
    ensures NoTwice(s + [x]) <==> NoTwice(s) && x !in s
  {
    var all := s + [x];
    if NoTwice(all) {
      NoTwicePrefix(s, [x]);
      forall i | 0 <= i < |s| ensures s[i] != x { assert all[i] != all[|s|]; }
    }
  }
}
