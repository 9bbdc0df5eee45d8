/** Paths as texts and as sequences of components. */
module Paths {

  // The number of characters before the first slash.
  function RunLen(s: string): (n: nat)
    ensures n <= |s| && (forall i :: 0 <= i < n ==> s[i] != '/') && (n < |s| ==> s[n] == '/')
  {
    if s == "" || s[0] == '/' then 0 else 1 + RunLen(s[1..])
  }

  // The components of a path: its maximal runs of characters other than slashes.
  function Comps(s: string): seq<string>
    decreases |s|
  {
    if s == "" then []
    else if s[0] == '/' then Comps(s[1..])
    else
      var n := RunLen(s);
      [s[..n]] + Comps(s[n..])
  }

  lemma {:induction false} CompsRun(s: string, k: nat)
    requires 0 < k <= |s| && (forall i :: 0 <= i < k ==> s[i] != '/') && (k < |s| ==> s[k] == '/')
    ensures Comps(s) == [s[..k]] + Comps(s[k..])
  {
    assert RunLen(s) == k;
  }

  lemma {:induction false} CompsSkip(s: string, k: nat)
    requires k <= |s| && forall i :: 0 <= i < k ==> s[i] == '/'
    ensures Comps(s) == Comps(s[k..])
    decreases k
  {
    if k == 0 {
      assert s[0..] == s;
    } else {
      CompsSkip(s[1..], k - 1);
      assert s[1..][k - 1..] == s[k..];
    }
  }

  lemma CompsEnd(p: string)
    ensures Comps(p[|p|..]) == []
  {
  }

  lemma NoComps()
    ensures Comps("") == []
  {
  }

  // A component in front of a path.
  lemma {:induction false} CompsCons(x: string, rest: string)
    requires x != "" && (forall i :: 0 <= i < |x| ==> x[i] != '/') && (rest == "" || rest[0] == '/')
    ensures Comps("/" + x + rest) == [x] + Comps(rest)
  {
    hide Comps;
    var s := "/" + x + rest;
    CompsSkip(s, 1);
    assert s[1..] == x + rest;
    CompsRun(x + rest, |x|);
    assert (x + rest)[..|x|] == x && (x + rest)[|x|..] == rest;
  }

  // A name as it stands in a directory.
  predicate Proper(x: string) {
    x != "" && forall i :: 0 <= i < |x| ==> x[i] != '/'
  }

  // Each component with a slash in front.
  function Slashed(comps: seq<string>): string {
    if comps == [] then "" else "/" + comps[0] + Slashed(comps[1..])
  }

  // The absolute path of the components.
  function Absolute(comps: seq<string>): string {
    if comps == [] then "/" else Slashed(comps)
  }

  lemma {:induction false} SlashedStarts(comps: seq<string>)
    ensures Slashed(comps) == "" <==> comps == []
    ensures comps != [] ==> Slashed(comps)[0] == '/'
  {
  }

  // The components of a text are names, and names written one after the other are the components of the text.
  lemma {:induction false} CompsSlashed(comps: seq<string>)
    requires forall i :: 0 <= i < |comps| ==> Proper(comps[i])
    ensures Comps(Slashed(comps)) == comps && Comps(Absolute(comps)) == comps
    decreases |comps|
  {
    if comps == [] {
      NoComps();
      assert Comps("/") == Comps("") by { CompsSkip("/", 1); assert "/"[1..] == ""; }
    } else {
      hide Comps;
      CompsSlashed(comps[1..]);
      SlashedStarts(comps[1..]);
      CompsCons(comps[0], Slashed(comps[1..]));
    }
  }

  lemma {:induction false} CompsProper(s: string)
    ensures forall i :: 0 <= i < |Comps(s)| ==> Proper(Comps(s)[i])
    decreases |s|
  {
    if s != "" {
      if s[0] == '/' {
        CompsProper(s[1..]);
      } else {
        CompsProper(s[RunLen(s)..]);
      }
    }
  }

  lemma {:induction false} SlashedConcat(a: seq<string>, b: seq<string>)
    ensures Slashed(a + b) == Slashed(a) + Slashed(b)
    decreases |a|
  {
    if a == [] {
      assert a + b == b;
    } else {
      SlashedConcat(a[1..], b);
      assert (a + b)[1..] == a[1..] + b;
    }
  }
}
