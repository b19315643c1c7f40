/** Slash-separated paths, shared by the OPC-UA client and server models. */
module Paths {

  predicate Plain(name: string) {
    '/' !in name
  }

  /** A base followed by segments, each introduced by a slash. */
  function Extend(base: string, segments: seq<string>): string
    decreases |segments|
  {
    if segments == [] then base else Extend(base, segments[..|segments| - 1]) + "/" + segments[|segments| - 1]
  }

  lemma {:induction false} SlashesLineUp(a: string, x: string, b: string, y: string)
    requires Plain(y) && a + "/" + x == b + "/" + y
    ensures |x| >= |y|
  {
    var s := b + "/" + y;
    assert s[|a|] == '/';
    assert forall i :: |b| < i < |s| ==> s[i] == y[i - |b| - 1];
  }

  lemma {:induction false} LastSlash(a: string, x: string, b: string, y: string)
    requires Plain(x) && Plain(y) && a + "/" + x == b + "/" + y
    ensures a == b && x == y
  {
    SlashesLineUp(a, x, b, y);
    SlashesLineUp(b, y, a, x);
    var s := a + "/" + x;
    assert a == s[..|a|] && b == s[..|a|] && x == s[|a| + 1..] && y == s[|a| + 1..];
  }

  lemma {:induction false} ExtendHasSlash(base: string, segments: seq<string>)
    requires Plain(base)
    ensures Plain(Extend(base, segments)) <==> segments == []
  {
    if segments != [] {
      var front := Extend(base, segments[..|segments| - 1]);
      assert Extend(base, segments)[|front|] == '/';
    }
  }

  /** With slash-free bases and segments, a path determines its base and its segments. */
  lemma {:induction false} ExtendInjective(a: string, xs: seq<string>, b: string, ys: seq<string>)
    requires Plain(a) && Plain(b) && (forall x :: x in xs ==> Plain(x)) && (forall y :: y in ys ==> Plain(y))
    requires Extend(a, xs) == Extend(b, ys)
    ensures a == b && xs == ys
    decreases |xs| + |ys|
  {
    ExtendHasSlash(a, xs);
    ExtendHasSlash(b, ys);
    if xs != [] && ys != [] {
      var p, q := xs[..|xs| - 1], ys[..|ys| - 1];
      LastSlash(Extend(a, p), xs[|xs| - 1], Extend(b, q), ys[|ys| - 1]);
      ExtendInjective(a, p, b, q);
      assert xs == p + [xs[|xs| - 1]] && ys == q + [ys[|ys| - 1]];
    }
  }

  lemma {:induction false} ExtendStep(base: string, segments: seq<string>, name: string)
    ensures Extend(base, segments + [name]) == Extend(base, segments) + "/" + name
  {
    assert (segments + [name])[..|segments|] == segments;
  }

  /** A path can be extended in two stages. */
  lemma {:induction false} ExtendTwice(base: string, xs: seq<string>, ys: seq<string>)
    ensures Extend(base, xs + ys) == Extend(Extend(base, xs), ys)
    decreases |ys|
  {
    if ys == [] {
      assert xs + ys == xs;
    } else {
      var front, last := ys[..|ys| - 1], ys[|ys| - 1];
      ExtendTwice(base, xs, front);
      assert ys == front + [last] && xs + ys == (xs + front) + [last];
      ExtendStep(base, xs + front, last);
    }
  }

  lemma {:induction false} ExtendGrows(base: string, segments: seq<string>)
    ensures |Extend(base, segments)| >= |base| + |segments|
    decreases |segments|
  {
    if segments != [] {
      ExtendGrows(base, segments[..|segments| - 1]);
    }
  }

  /**
   For any bases, slashes in them included: two paths are equal exactly when the segments of one end with those of
   the other, and the base of the other is the base of the one extended by the rest.
   */
  lemma {:induction false} ExtendEqualIff(a: string, xs: seq<string>, b: string, ys: seq<string>)
    requires (forall x :: x in xs ==> Plain(x)) && (forall y :: y in ys ==> Plain(y)) && |xs| <= |ys|
    ensures Extend(a, xs) == Extend(b, ys) <==> xs == ys[|ys| - |xs|..] && a == Extend(b, ys[..|ys| - |xs|])
    decreases |xs|
  {
    var d := |ys| - |xs|;
    if xs == [] {
      assert ys[..d] == ys;
    } else {
      var p, q := xs[..|xs| - 1], ys[..|ys| - 1];
      ExtendEqualIff(a, p, b, q);
      assert q[..d] == ys[..d] && q[d..] == ys[d..][..|xs| - 1];
      assert xs == p + [xs[|xs| - 1]] && ys[d..] == q[d..] + [ys[|ys| - 1]];
      if Extend(a, xs) == Extend(b, ys) {
        LastSlash(Extend(a, p), xs[|xs| - 1], Extend(b, q), ys[|ys| - 1]);
      }
    }
  }
}
