/** Taking one element out of a sequence, seen as a multiset. */
module Sequences {

  lemma SplitAt<T>(s: seq<T>, i: nat)
    requires i < |s|
    ensures multiset(s) == multiset(s[..i] + s[i + 1..]) + multiset{s[i]}
  {
    assert s == s[..i] + [s[i]] + s[i + 1..];
  }

  lemma RemoveOne<T>(a: seq<T>, i: nat, b: seq<T>)
    requires multiset(a) == multiset(b)
    requires i < |a| && b != [] && a[i] == b[|b| - 1]
    ensures multiset(a[..i] + a[i + 1..]) == multiset(b[..|b| - 1])
  {
    var x := multiset{a[i]};
    SplitAt(a, i);
    SplitAt(b, |b| - 1);
    assert b[..|b| - 1] + b[|b|..] == b[..|b| - 1];
    var rest, most := multiset(a[..i] + a[i + 1..]), multiset(b[..|b| - 1]);
    assert rest + x == most + x;
    assert rest == rest + x - x && most == most + x - x;
  }
}
