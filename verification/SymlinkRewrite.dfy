/** The subdir module's rewriting of absolute symbolic links into relative ones (`transform_symlink`).
    A C string is a sequence of characters; its terminating NUL stands just past its end. */
module SymlinkRewrite {
  import opened Common
  import opened Paths

  // ------------------------------------------------------------------ walking over a path

  // `count_components`
  method CountComponents(p: string) returns (ctr: nat)
    ensures ctr == |Comps(p)|
  {
    hide Comps;
    var i := SkipSlashes(p, 0);
    assert p[0..] == p;
    ctr := 0;
    while i < |p|
      invariant i <= |p| && (i < |p| ==> p[i] != '/')
      invariant |Comps(p)| == ctr + |Comps(p[i..])|
    {
      var k := i;
      while k < |p| && p[k] != '/'
        invariant i <= k <= |p| && (k == i ==> p[k] != '/') && forall j :: i <= j < k ==> p[j] != '/'
      {
        k := k + 1;
      }
      CompsRun(p[i..], k - i);
      assert p[i..][k - i..] == p[k..];
      i := SkipSlashes(p, k);
      ctr := ctr + 1;
    }
    CompsEnd(p);
    assert p[i..] == p[|p|..];
  }

  function Slashes(s: string): (n: nat)
    ensures n <= |s| && (forall i :: 0 <= i < n ==> s[i] == '/') && (n < |s| ==> s[n] != '/')
  {
    if s == "" || s[0] != '/' then 0 else 1 + Slashes(s[1..])
  }

  function Skip(s: string): string {
    s[Slashes(s)..]
  }

  lemma {:induction false} SlashesAre(s: string, k: nat)
    requires k <= |s| && (forall i :: 0 <= i < k ==> s[i] == '/') && (k < |s| ==> s[k] != '/')
    ensures Slashes(s) == k
  {
  }

  method SkipSlashes(p: string, i0: nat) returns (i: nat)
    requires i0 <= |p|
    ensures i0 <= i <= |p| && (i < |p| ==> p[i] != '/') && Comps(p[i..]) == Comps(p[i0..]) && p[i..] == Skip(p[i0..])
  {
    i := i0;
    while i < |p| && p[i] == '/'
      invariant i0 <= i <= |p| && forall j :: i0 <= j < i ==> p[j] == '/'
    {
      i := i + 1;
    }
    CompsSkip(p[i0..], i - i0);
    SlashesAre(p[i0..], i - i0);
    assert p[i0..][i - i0..] == p[i..];
  }

  // ------------------------------------------------------------------ the common prefix

  // What is left of `s` after its first `k` components and the slashes behind them.
  function Left(s: string, k: nat): string
    decreases k
  {
    if k == 0 then Skip(s) else Left(Past(Skip(s)), k - 1)
  }

  // What follows the first component of `u`.
  function Past(u: string): string {
    u[RunLen(u)..]
  }

  lemma {:induction false} LeftStep(s: string, k: nat)
    ensures Left(s, k + 1) == Skip(Past(Left(s, k)))
    decreases k
  {
    hide Skip, Past;
    if k > 0 {
      LeftStep(Past(Skip(s)), k - 1);
    }
  }

  // The number of components that `a` and `b` begin with in common.
  function Agree(a: seq<string>, b: seq<string>): (n: nat)
    ensures n <= |a| && n <= |b| && a[..n] == b[..n] && (n < |a| && n < |b| ==> a[n] != b[n])
  {
    if a == [] || b == [] || a[0] != b[0] then 0
    else
      assert a == [a[0]] + a[1..] && b == [b[0]] + b[1..];
      1 + Agree(a[1..], b[1..])
  }

  // `s` ends with its `k`th component, without a slash behind it.
  predicate EndsIn(s: string, k: nat) {
    k == |Comps(s)| && s != "" && s[|s| - 1] != '/'
  }

  // How many components `strip_common` takes off: all common ones, but for a last one that ends both strings.
  function Shared(s: string, t: string): (k: nat)
    ensures k <= |Comps(s)| && k <= |Comps(t)|
  {
    var k := Agree(Comps(s), Comps(t));
    if k > 0 && EndsIn(s, k) && EndsIn(t, k) then k - 1 else k
  }

  // `c` has been stripped off `s`, of which `u` is left, standing at the start of a component.
  ghost predicate Stripped(s: string, u: string, c: seq<string>) {
    u == Left(s, |c|) && (u != "" ==> u[0] != '/') && Comps(s) == c + Comps(u)
  }

  // The stripped prefix is as long as possible, but for a last component that ends both strings.
  ghost predicate Maximal(s: string, t: string) {
    var l, r := Comps(s), Comps(t);
    l == [] || r == [] || l[0] != r[0] || (s == t && l == [s])
  }

  // `strip_common`
  method StripCommon(s: string, t: string) returns (i: nat, j: nat)
    ensures i <= |s| && s[i..] == Left(s, Shared(s, t)) && Comps(s[i..]) == Comps(s)[Shared(s, t)..]
    ensures j <= |t| && t[j..] == Left(t, Shared(s, t)) && Comps(t[j..]) == Comps(t)[Shared(s, t)..]
  {
    hide Comps, Maximal, Skip, Left, Shared, Slashes, RunLen, Stripped, Going, EndsIn;
    var a: nat, b: nat := 0, 0;
    ghost var c: seq<string> := [];
    assert s[0..] == s && t[0..] == t;
    AtStart(s);
    AtStart(t);
    i, j := 0, 0;
    var go := true;
    while go
      invariant a <= |s| && b <= |t| && i <= |s| && j <= |t|
      invariant go ==> Going(s, s[a..], c) && Going(t, t[b..], c)
      invariant !go ==> Stripped(s, s[i..], c) && Stripped(t, t[j..], c) && Maximal(s[i..], t[j..])
      invariant |c| > 0 ==> !(EndsIn(s, |c|) && EndsIn(t, |c|))
      decreases go, |s| - a + |t| - b
    {
      i := SkipSlashes(s, a);
      j := SkipSlashes(t, b);
      var u, v := s[i..], t[j..];
      AtComponent(s, s[a..], u, c);
      AtComponent(t, t[b..], v, c);
      var k := CommonRun(u, v);
      a, b := i + k, j + k;
      assert u[k..] == s[a..] && v[k..] == t[b..];
      assert (a < |s| ==> s[a] == u[k]) && (b < |t| ==> t[b] == v[k]);
      go := || (a < |s| && b < |t| && s[a] == t[b])
            || (a == |s| && b < |t| && t[b] == '/')
            || (a < |s| && s[a] == '/' && b == |t|);
      if go {
        ComponentMatched(u, v, k);
        PastComponent(s, i, u, k, c);
        assert v[..k] == u[..k];
        PastComponent(t, j, v, k, c);
        c := c + [u[..k]];
      } else {
        ComponentDiffers(u, v, k);
      }
    }
    SharedIs(s, t, s[i..], t[j..], c);
  }

  // `c` has been passed, and `r` is still to come.
  ghost predicate Going(s: string, r: string, c: seq<string>) {
    Comps(s) == c + Comps(r) && Left(s, |c|) == Skip(r)
  }

  lemma AtStart(s: string)
    ensures Going(s, s, [])
  {
    assert [] + Comps(s) == Comps(s);
  }

  lemma {:induction false} AtComponent(s: string, r: string, u: string, c: seq<string>)
    requires Going(s, r, c) && u == Skip(r) && Comps(u) == Comps(r) && (u != "" ==> u[0] != '/')
    ensures Stripped(s, u, c)
  {
  }

  lemma {:induction false} PastComponent(s: string, i: nat, u: string, k: nat, c: seq<string>)
    requires i <= |s| && u == s[i..] && Stripped(s, u, c) && 0 < k <= |u| && Over(u, k)
    requires (forall m :: 0 <= m < k ==> u[m] != '/') && Comps(u) == [u[..k]] + Comps(u[k..])
    ensures Going(s, u[k..], c + [u[..k]])
    ensures k < |u| ==> !EndsIn(s, |c| + 1)
  {
    hide Comps, Left, Skip, Past, RunLen, EndsIn;
    assert c + ([u[..k]] + Comps(u[k..])) == c + [u[..k]] + Comps(u[k..]);
    PastIs(u, k);
    assert s[i + k..] == u[k..];
    LeftStep(s, |c|);
    if k < |u| {
      SlashBehind(s, i + k, |c| + 1);
    }
  }

  lemma {:induction false} PastIs(u: string, k: nat)
    requires k <= |u| && Over(u, k) && forall m :: 0 <= m < k ==> u[m] != '/'
    ensures Past(u) == u[k..]
  {
    assert RunLen(u) == k;
  }

  // A text that goes on with a slash behind its last component does not end in it.
  lemma {:induction false} SlashBehind(s: string, j: nat, n: nat)
    requires j < |s| && |Comps(s)| == n + |Comps(s[j..])|
    ensures !EndsIn(s, n)
  {
    hide Comps;
    if Comps(s[j..]) == [] {
      OnlySlashes(s[j..]);
      assert s[j..][|s[j..]| - 1] == s[|s| - 1];
    }
  }

  lemma {:induction false} OnlySlashes(s: string)
    requires Comps(s) == [] && s != ""
    ensures s[|s| - 1] == '/'
    decreases |s|
  {
    if |s| > 1 {
      OnlySlashes(s[1..]);
    }
  }

  lemma {:induction false} SharedIs(s: string, t: string, u: string, v: string, c: seq<string>)
    requires Stripped(s, u, c) && Stripped(t, v, c) && Maximal(u, v)
    requires |c| > 0 ==> !(EndsIn(s, |c|) && EndsIn(t, |c|))
    requires Suffix(s, u) && Suffix(t, v)
    ensures Shared(s, t) == |c| && u == Left(s, |c|) && v == Left(t, |c|)
    ensures Comps(u) == Comps(s)[|c|..] && Comps(v) == Comps(t)[|c|..]
  {
    hide Left, Comps, Agree, EndsIn, Shared, Suffix;
    Tail(c, Comps(u));
    Tail(c, Comps(v));
    AgreeIs(c, Comps(u), Comps(v));
    if Agree(Comps(s), Comps(t)) == |c| {
      SharedDiffers(s, t, |c|);
    } else {
      EndsBoth(s, u, |c|);
      EndsBoth(t, v, |c|);
      SharedSame(s, t, |c|);
    }
  }

  predicate Suffix(s: string, u: string) {
    |u| <= |s| && s[|s| - |u|..] == u
  }

  lemma Tail(c: seq<string>, a: seq<string>)
    ensures (c + a)[|c|..] == a
  {
  }

  lemma {:induction false} SharedDiffers(s: string, t: string, n: nat)
    requires Agree(Comps(s), Comps(t)) == n && (n > 0 ==> !(EndsIn(s, n) && EndsIn(t, n)))
    ensures Shared(s, t) == n
  {
  }

  lemma {:induction false} SharedSame(s: string, t: string, n: nat)
    requires Agree(Comps(s), Comps(t)) == n + 1 && EndsIn(s, n + 1) && EndsIn(t, n + 1)
    ensures Shared(s, t) == n
  {
  }

  // A text whose last component is all that is left of it.
  lemma {:induction false} EndsBoth(s: string, u: string, n: nat)
    requires Suffix(s, u) && Comps(u) == [u] && |Comps(s)| == n + 1
    ensures EndsIn(s, n + 1)
  {
    NoComps();
    hide Comps;
    assert u != "";
    WholeComponent(u);
    assert s[|s| - |u|..][|u| - 1] == s[|s| - 1];
  }

  lemma {:induction false} WholeComponent(u: string)
    requires u != "" && Comps(u) == [u]
    ensures u[|u| - 1] != '/'
  {
    if u[0] == '/' {
      CompsShorter(u[1..], 0);
    } else {
      assert u[..RunLen(u)] == Comps(u)[0] == u;
      assert RunLen(u) == |u|;
    }
  }

  lemma {:induction false} CompsShorter(s: string, k: nat)
    ensures k < |Comps(s)| ==> |Comps(s)[k]| <= |s|
    decreases |s|
  {
    if s != "" {
      if s[0] == '/' {
        CompsShorter(s[1..], k);
      } else if k > 0 {
        CompsShorter(s[RunLen(s)..], k - 1);
      }
    }
  }

  lemma {:induction false} AgreeIs(c: seq<string>, a: seq<string>, b: seq<string>)
    ensures a == [] || b == [] || a[0] != b[0] ==> Agree(c + a, c + b) == |c|
    ensures a != [] && b != [] && a[0] == b[0] && a == [a[0]] && b == [b[0]] ==> Agree(c + a, c + b) == |c| + 1
    decreases |c|
  {
    if c == [] {
      assert c + a == a && c + b == b;
    } else {
      AgreeIs(c[1..], a, b);
      assert (c + a)[1..] == c[1..] + a && (c + b)[1..] == c[1..] + b;
    }
  }

  // `u` and `v` share the first `k` characters, none of them a slash.
  ghost predicate SharedRun(u: string, v: string, k: nat) {
    k <= |u| && k <= |v| && u[..k] == v[..k] && forall m :: 0 <= m < k ==> u[m] != '/'
  }

  // The inner loop of `strip_common`.
  method CommonRun(u: string, v: string) returns (k: nat)
    ensures SharedRun(u, v, k)
    ensures k < |u| && k < |v| && u[k] == v[k] ==> u[k] == '/'
  {
    k := 0;
    while k < |u| && k < |v| && u[k] == v[k] && u[k] != '/'
      invariant SharedRun(u, v, k)
    {
      assert u[..k + 1] == u[..k] + [u[k]] && v[..k + 1] == v[..k] + [v[k]];
      k := k + 1;
    }
  }

  predicate Over(u: string, k: nat)
    requires k <= |u|
  {
    k == |u| || u[k] == '/'
  }

  // A shared run that is over in both strings is a whole component of both.
  lemma {:induction false} ComponentMatched(u: string, v: string, k: nat)
    requires SharedRun(u, v, k) && (u != "" ==> u[0] != '/') && (v != "" ==> v[0] != '/')
    requires Over(u, k) && Over(v, k) && (k < |u| || k < |v|)
    ensures k > 0
    ensures Comps(u) == [u[..k]] + Comps(u[k..]) && Comps(v) == [u[..k]] + Comps(v[k..])
  {
    hide Comps;
    assert forall m :: 0 <= m < k ==> v[m] == v[..k][m] == u[m];
    CompsRun(u, k);
    CompsRun(v, k);
  }

  // Otherwise the next components differ, or one is missing, or both strings end in the same component.
  lemma ComponentDiffers(u: string, v: string, k: nat)
    requires SharedRun(u, v, k) && (u != "" ==> u[0] != '/') && (v != "" ==> v[0] != '/')
    requires k < |u| && k < |v| ==> u[k] != v[k]
    requires !(k == |u| && k < |v| && v[k] == '/') && !(k < |u| && u[k] == '/' && k == |v|)
    ensures Maximal(u, v)
  {
    hide Comps, Maximal;
    if u == "" || v == "" {
      NoComps();
      MaximalEmpty(u, v);
    } else {
      var m, n := RunLen(u), RunLen(v);
      CompsHead(u);
      CompsHead(v);
      if u[..m] == v[..n] {
        assert m == |u[..m]| == |v[..n]| == n;
        assert m <= k;
        assert m == k == |u| == |v|;
        assert u[..m] == u && v[..m] == v && u[m..] == "";
        NoComps();
      }
      MaximalHeads(u, v);
    }
  }

  lemma {:induction false} CompsHead(u: string)
    requires u != "" && u[0] != '/'
    ensures RunLen(u) > 0 && Comps(u) == [u[..RunLen(u)]] + Comps(u[RunLen(u)..])
  {
  }

  lemma {:induction false} MaximalEmpty(u: string, v: string)
    requires (u == "" || v == "") && Comps("") == []
    ensures Maximal(u, v)
  {
    hide Comps;
  }

  lemma {:induction false} MaximalHeads(u: string, v: string)
    requires Comps(u) != [] && Comps(v) != [] && (Comps(u)[0] == Comps(v)[0] ==> u == v && Comps(u) == [u])
    ensures Maximal(u, v)
  {
    hide Comps;
  }

  // ------------------------------------------------------------------ the rewriting

  function Dots(k: nat): (r: string)
    ensures |r| == 3 * k
  {
    if k == 0 then "" else "../" + Dots(k - 1)
  }

  // The relative link: up `up` directories, then down the rest of the target.
  function Relative(up: nat, rest: string): string {
    Dots(up) + if rest != "" then rest else if up == 0 then "." else ""
  }

  predicate CText(buf: seq<char>, s: string) {
    |s| < |buf| && buf[..|s|] == s && buf[|s|] == NUL && forall i :: 0 <= i < |s| ==> s[i] != NUL
  }

  method StrLen(buf: array<char>) returns (n: nat)
    requires exists s :: CText(buf[..], s)
    ensures n < buf.Length && CText(buf[..], buf[..n])
  {
    ghost var s :| CText(buf[..], s);
    assert forall i :: 0 <= i < |s| ==> buf[i] == buf[..][..|s|][i];
    n := 0;
    while buf[n] != NUL
      invariant n <= |s| && forall i :: 0 <= i < n ==> buf[i] != NUL
      decreases |s| - n
    {
      n := n + 1;
    }
  }

  // memmove within the buffer
  method MoveWithin(buf: array<char>, to: nat, from: nat, len: nat)
    requires to + len <= buf.Length && from + len <= buf.Length
    modifies buf
    ensures buf[to..to + len] == old(buf[from..from + len]) && buf[..to] == old(buf[..to])
  {
    var bytes := buf[from..from + len];
    for i := 0 to len
      invariant buf[..to] == old(buf[..to])
      invariant forall j :: 0 <= j < i ==> buf[to + j] == bytes[j]
    {
      buf[to + i] := bytes[i];
    }
  }

  // The last loop of `transform_symlink`.
  method WriteDots(buf: array<char>, k: nat)
    requires 3 * k <= buf.Length
    modifies buf
    ensures buf[..3 * k] == Dots(k) && buf[3 * k..] == old(buf[3 * k..])
  {
    for i := 0 to k
      invariant buf[..3 * i] == Dots(i)
      invariant buf[3 * k..] == old(buf[3 * k..])
    {
      buf[3 * i], buf[3 * i + 1], buf[3 * i + 2] := '.', '.', '/';
      DotsSnoc(i);
      assert buf[..3 * (i + 1)] == buf[..3 * i] + "../";
    }
  }

  lemma {:induction false} DotsSnoc(k: nat)
    ensures Dots(k + 1) == Dots(k) + "../"
  {
    if k > 0 {
      DotsSnoc(k - 1);
      assert "../" + (Dots(k - 1) + "../") == ("../" + Dots(k - 1)) + "../";
    } else {
      assert Dots(1) == "../" + Dots(0) == Dots(0) + "../";
    }
  }

  // When `transform_symlink` rewrites: both are absolute, the stripped part of the link is as long as the base, the
  // path goes on below the common directory, and the result fits.
  predicate Rewrites(base: string, path: string, link: string, size: nat) {
    var k := Shared(link, path);
    var l := Left(link, k);
    && link != "" && link[0] == '/' && base != "" && base[0] == '/'
    && |link| - |l| >= |base| && k < |Comps(path)|
    && 3 * (|Comps(path)| - k - 1) + |l| + 2 <= size
  }

  // What it writes.
  function Rewritten(path: string, link: string): string {
    var k := Shared(link, path);
    Relative(if k < |Comps(path)| then |Comps(path)| - k - 1 else 0, Left(link, k))
  }

  // `transform_symlink`.  The last clauses say what the new link means: it is the original target if no dot
  // component of the path lies below the common directory, and, for a target without dot components of its own,
  // only then.
  method TransformSymlink(base: string, path: string, buf: array<char>, ghost link: string) returns (changed: bool)
    requires CText(buf[..], link)
    modifies buf
    ensures changed <==> Rewrites(base, path, link, buf.Length)
    ensures Tidy(link) && Tidy(path) && base != "" && base[0] == '/' && base[|base| - 1] == '/' && base <= path ==>
      (changed <==> base <= link && Leaves(path, link) && Room(path, link, buf.Length))
    ensures !changed ==> buf[..] == old(buf[..])
    ensures changed ==> CText(buf[..], Rewritten(path, link))
    ensures changed && Straight(path, link) ==> SameTarget(path, link, Rewritten(path, link))
    ensures changed && Undotted(link, path) ==>
      (SameTarget(path, link, Rewritten(path, link)) <==> Straight(path, link))
    ensures changed ==> (SameTarget(path, link, Rewritten(path, link)) <==> Agreeing(path, link))
  {
    hide Comps, Dots, Left, Shared, Straight, SameTarget, Undotted, Relative, Agreeing, Tidy, Leaves, Room;
    if Tidy(link) && Tidy(path) && base != "" && base[0] == '/' && base[|base| - 1] == '/' && base <= path {
      RewritesIff(base, path, link, buf.Length);
    }
    var n := StrLen(buf);
    CTextUnique(buf[..], link, buf[..n]);
    changed := false;
    if n == 0 || buf[0] != '/' || base == "" || base[0] != '/' {
      return;
    }
    var i, j := StripCommon(buf[..n], path);
    if i < |base| {
      return;
    }
    var dotdots := CountComponents(path[j..]);
    if dotdots == 0 {
      return;
    }
    dotdots := dotdots - 1;
    var llen := n - i;
    if dotdots * 3 + llen + 2 > buf.Length {
      return;
    }
    Rewrite(buf, dotdots, i, llen, link);
    TargetKept(path, link);
    changed := true;
  }

  // ------------------------------------------------------------------ when a link is rewritten

  // No two slashes in a row.
  predicate Tidy(s: string) {
    forall i :: 0 <= i < |s| - 1 ==> !(s[i] == '/' && s[i + 1] == '/')
  }

  lemma {:induction false} LeftShorter(s: string, j: nat, k: nat)
    requires j <= k
    ensures |Left(s, k)| <= |Left(s, j)|
    decreases k - j
  {
    hide Left;
    if j < k {
      LeftShorter(s, j, k - 1);
      LeftStep(s, k - 1);
    }
  }

  lemma {:induction false} LeftLength(s: string, k: nat)
    ensures |Left(s, k)| <= |s|
  {
    LeftShorter(s, 0, k);
  }

  // What lies before the rest: the components with a slash in front of each, and one more slash unless the text ends.
  lemma {:induction false} TidyStripped(s: string, k: nat)
    requires Tidy(s) && (s == "" || s[0] == '/') && k <= |Comps(s)|
    ensures |Left(s, k)| <= |s|
    ensures var pre, c := s[..|s| - |Left(s, k)|], Slashed(Comps(s)[..k]);
            if c == s then pre == c else pre == c + "/"
    decreases k
  {
    hide Comps, Left, Skip, Past, Slashed;
    LeftLength(s, k);
    if s == "" {
      NoComps();
      TidyNothing(k);
    } else if k == 0 {
      TidyStart(s);
    } else {
      TidyNext(s, k);
      var x, r := Comps(s)[0], Past(Skip(s));
      TidyStripped(r, k - 1);
      assert s == "/" + x + r;
    }
  }

  lemma TidyNothing(k: nat)
    requires Comps("") == [] && k == 0
    ensures Left("", k) == "" && Slashed(Comps("")[..k]) == ""
  {
  }

  lemma {:induction false} TidyStart(s: string)
    requires Tidy(s) && s != "" && s[0] == '/'
    ensures Left(s, 0) == s[1..] && Slashed(Comps(s)[..0]) == ""
  {
    SlashesAre(s, 1);
  }

  // One component on.
  lemma {:induction false} TidyNext(s: string, k: nat)
    requires Tidy(s) && s != "" && s[0] == '/' && 0 < k <= |Comps(s)|
    ensures var x, r := Comps(s)[0], Past(Skip(s));
            && Proper(x) && s == "/" + x + r && Tidy(r) && (r == "" || r[0] == '/') && |r| < |s|
            && Comps(r) == Comps(s)[1..] && Left(s, k) == Left(r, k - 1)
            && Slashed(Comps(s)[..k]) == "/" + x + Slashed(Comps(r)[..k - 1])
  {
    hide Comps, Left, Skip, Past, Slashed, Tidy, RunLen;
    var u := s[1..];
    TidySkip(s);
    SkipComps(s);
    CompsProper(s);
    NoComps();
    CompsHead(u);
    TidyPast(s, u);
    LeftIs(s, k);
    var c := Comps(s)[..k];
    assert c[0] == Comps(s)[0] && c[1..] == Comps(s)[1..][..k - 1];
    SlashedIs(c);
  }

  lemma {:induction false} TidySkip(s: string)
    requires Tidy(s) && s != "" && s[0] == '/'
    ensures Skip(s) == s[1..] && (s[1..] != "" ==> s[1..][0] != '/')
  {
    SlashesAre(s, 1);
  }

  lemma {:induction false} TidyPast(s: string, u: string)
    requires Tidy(s) && s != "" && s[0] == '/' && u == s[1..]
    ensures Past(u) == u[RunLen(u)..] && Tidy(Past(u)) && (Past(u) == "" || Past(u)[0] == '/') && |Past(u)| < |s|
    ensures s == "/" + u[..RunLen(u)] + Past(u)
  {
    var r := Past(u);
    assert forall i :: 0 <= i < |r| ==> r[i] == s[1 + RunLen(u) + i];
  }

  lemma {:induction false} LeftIs(s: string, k: nat)
    requires k > 0
    ensures Left(s, k) == Left(Past(Skip(s)), k - 1)
  {
  }

  lemma {:induction false} SlashedIs(c: seq<string>)
    requires c != []
    ensures Slashed(c) == "/" + c[0] + Slashed(c[1..])
  {
  }

  // The first components of both texts are the same, so both begin with the same text.
  lemma {:induction false} BaseInBoth(base: string, path: string, link: string)
    requires Tidy(link) && Tidy(path) && base != "" && base[|base| - 1] == '/' && base <= path
    requires link != "" && link[0] == '/' && path[0] == '/'
    requires |link| - |Left(link, Shared(link, path))| >= |base|
    ensures base <= link
  {
    hide Comps, Left, Shared, Slashed, Tidy;
    var k := Shared(link, path);
    SharedSplit(link, path);
    TidyStripped(link, k);
    TidyStripped(path, k);
    var c := Slashed(Comps(link)[..k]);
    assert c <= link && c <= path by {
      StrippedPrefix(link, c, |link| - |Left(link, k)|);
      StrippedPrefix(path, c, |path| - |Left(path, k)|);
    }
    if |base| <= |c| {
      assert base == path[..|base|] == c[..|base|] == link[..|base|];
    } else {
      assert base == path[..|base|] && path[..|c|] == c;
      assert base == c + [base[|base| - 1]] == c + "/";
      assert link[..|base|] == c + "/";
    }
  }

  lemma {:induction false} StrippedPrefix(s: string, c: string, n: nat)
    requires n <= |s| && (s[..n] == c || s[..n] == c + "/")
    ensures c <= s
  {
    assert c == s[..n][..|c|] == s[..|c|];
  }

  // A text below a directory has the components of the directory in front.
  lemma {:induction false} CompsBelow(base: string, rest: string)
    requires base != "" && base[|base| - 1] == '/'
    ensures Comps(base + rest) == Comps(base) + Comps(rest)
    decreases |base|
  {
    if base[0] == '/' {
      assert (base + rest)[1..] == base[1..] + rest;
      if |base| == 1 {
        assert base[1..] + rest == rest && base[1..] == "";
      } else {
        CompsBelow(base[1..], rest);
      }
    } else {
      var n := RunLen(base);
      assert n < |base|;
      CompsRun(base + rest, n);
      CompsBelow(base[n..], rest);
      assert (base + rest)[..n] == base[..n] && (base + rest)[n..] == base[n..] + rest;
      assert [base[..n]] + (Comps(base[n..]) + Comps(rest)) == [base[..n]] + Comps(base[n..]) + Comps(rest);
    }
  }

  // A link below the base is stripped at least as far.
  lemma {:induction false} BaseStripped(base: string, path: string, link: string)
    requires Tidy(link) && base != "" && base[0] == '/' && base[|base| - 1] == '/' && base <= path && base <= link
    ensures |link| - |Left(link, Shared(link, path))| >= |base|
  {
    hide Comps, Left, Shared, Slashed, Agree, EndsIn;
    var a, b, c := link[|base|..], path[|base|..], Comps(base);
    assert link == base + a && path == base + b;
    CompsBelow(base, a);
    CompsBelow(base, b);
    SharedAtLeast(link, path, c, Comps(a), Comps(b), a);
    LeftShorter(link, |c|, Shared(link, path));
    assert Tidy(base) by { assert forall i :: 0 <= i < |base| ==> base[i] == link[i]; }
    TidyStripped(link, |c|);
    TidyStripped(base, |c|);
    assert Comps(link)[..|c|] == c && Comps(base)[..|c|] == c;
    WholeBase(base);
  }

  // A directory text is its components and a last slash.
  lemma {:induction false} WholeBase(base: string)
    requires Tidy(base) && base != "" && base[0] == '/' && base[|base| - 1] == '/'
    ensures |Slashed(Comps(base))| + 1 == |base|
  {
    hide Comps, Left, Slashed;
    var k := |Comps(base)|;
    TidyStripped(base, k);
    assert Comps(base)[..k] == Comps(base);
    LeftComps(base, k);
    NothingLeft(base, k);
    assert base[..|base|] == base;
    CompsProper(base);
    SlashedEnds(Comps(base));
    NoSlashed();
  }

  lemma NoSlashed()
    ensures Slashed([]) == ""
  {
  }

  lemma {:induction false} LeftStarts(s: string, k: nat)
    ensures Left(s, k) != "" ==> Left(s, k)[0] != '/'
    decreases k
  {
    if k > 0 {
      LeftStarts(Past(Skip(s)), k - 1);
    }
  }

  // If no component is left, nothing is: what is left does not start with a slash.
  lemma {:induction false} NothingLeft(s: string, k: nat)
    ensures Comps(Left(s, k)) == [] ==> Left(s, k) == ""
  {
    hide Left;
    LeftStarts(s, k);
    if Left(s, k) != "" {
      CompsHead(Left(s, k));
    }
  }

  lemma {:induction false} SlashedEnds(comps: seq<string>)
    requires forall i :: 0 <= i < |comps| ==> Proper(comps[i])
    ensures comps != [] ==> Slashed(comps) != "" && Slashed(comps)[|Slashed(comps)| - 1] != '/'
    decreases |comps|
  {
    if comps != [] {
      SlashedEnds(comps[1..]);
    }
  }

  lemma {:induction false} SharedAtLeast(link: string, path: string, c: seq<string>, a: seq<string>, b: seq<string>,
      r: string)
    requires Comps(link) == c + a && Comps(path) == c + b && a == Comps(r)
    requires r == "" ==> link != "" && link[|link| - 1] == '/'
    requires r != "" ==> |r| <= |link| && link[|link| - 1] == r[|r| - 1]
    ensures Shared(link, path) >= |c|
  {
    hide Comps, Agree;
    AgreeMore(c, a, b);
    if Agree(Comps(link), Comps(path)) == |c| && EndsIn(link, |c|) {
      assert a == [];
      OnlySlashes(r);
    }
  }

  lemma {:induction false} AgreeMore(c: seq<string>, a: seq<string>, b: seq<string>)
    ensures Agree(c + a, c + b) >= |c|
    decreases |c|
  {
    if c != [] {
      AgreeMore(c[1..], a, b);
      assert (c + a)[1..] == c[1..] + a && (c + b)[1..] == c[1..] + b;
    }
  }

  // The path goes on where it leaves the link, or they are the same file.
  predicate Leaves(path: string, link: string) {
    && Comps(path) != []
    && (!(Comps(path) <= Comps(link)) || (link == path && path[|path| - 1] != '/'))
  }

  lemma {:induction false} AgreeAll(a: seq<string>, b: seq<string>)
    ensures b <= a <==> Agree(a, b) == |b|
  {
    hide Agree;
    if Agree(a, b) == |b| {
      assert b == b[..|b|] == a[..|b|];
    }
  }

  lemma {:induction false} LeavesIff(path: string, link: string)
    requires Tidy(link) && Tidy(path) && link != "" && link[0] == '/' && path != "" && path[0] == '/'
    ensures Shared(link, path) < |Comps(path)| <==> Leaves(path, link)
  {
    hide Comps, Agree, Tidy;
    var a, b := Comps(link), Comps(path);
    AgreeAll(a, b);
    if b <= a && b != [] {
      if EndsIn(link, |b|) && EndsIn(path, |b|) {
        assert a == b;
        EndsWhole(link);
        EndsWhole(path);
      }
    }
  }

  // A tidy text that does not end in a slash is its components.
  lemma {:induction false} EndsWhole(s: string)
    requires Tidy(s) && s != "" && s[0] == '/' && s[|s| - 1] != '/'
    ensures s == Slashed(Comps(s))
  {
    hide Comps, Left, Slashed, Tidy;
    var k := |Comps(s)|;
    TidyStripped(s, k);
    assert Comps(s)[..k] == Comps(s);
    LeftComps(s, k);
    NothingLeft(s, k);
    assert s[..|s|] == s;
  }

  // The text and its NUL fit, with a byte to spare unless it is the single dot for the directory of the link itself.
  predicate Room(path: string, link: string, size: nat)
    requires Comps(path) != []
  {
    || |Rewritten(path, link)| + 2 <= size
    || (size == 2 && Comps(link) == Comps(path)[..|Comps(path)| - 1])
  }

  lemma {:induction false} RoomIff(path: string, link: string, size: nat)
    requires Shared(link, path) < |Comps(path)|
    ensures var k := Shared(link, path);
            3 * (|Comps(path)| - k - 1) + |Left(link, k)| + 2 <= size <==> Room(path, link, size)
  {
    hide Comps, Left, Shared;
    var k, a, b := Shared(link, path), Comps(link), Comps(path);
    SharedSplit(link, path);
    LeftComps(link, k);
    NothingLeft(link, k);
    NoComps();
    if a == b[..|b| - 1] {
      SharedShort(link, path);
    }
    if Left(link, k) == "" && k == |b| - 1 {
      assert a == a[..k] == b[..k];
    }
  }

  lemma {:induction false} SharedShort(link: string, path: string)
    requires Comps(path) != [] && Comps(link) == Comps(path)[..|Comps(path)| - 1]
    ensures Shared(link, path) == |Comps(link)|
  {
    hide Comps, Agree;
    var a, b := Comps(link), Comps(path);
    AgreeIs(a, [], [b[|b| - 1]]);
    assert a + [] == a && a + [b[|b| - 1]] == b;
  }

  /** For tidy texts and a base directory that the path lies in: a link is rewritten iff it points into the base, the
      path leaves it, and the new text fits.  A link that points elsewhere is never touched. */
  lemma {:induction false} RewritesIff(base: string, path: string, link: string, size: nat)
    requires Tidy(link) && Tidy(path) && base != "" && base[0] == '/' && base[|base| - 1] == '/' && base <= path
    ensures Rewrites(base, path, link, size) <==> base <= link && Leaves(path, link) && Room(path, link, size)
  {
    hide Comps, Left, Shared, Tidy, Leaves, Room;
    if link != "" && link[0] == '/' {
      LeavesIff(path, link);
      if base <= link {
        BaseStripped(base, path, link);
      } else if |link| - |Left(link, Shared(link, path))| >= |base| {
        BaseInBoth(base, path, link);
      }
      if Shared(link, path) < |Comps(path)| {
        RoomIff(path, link, size);
      }
    }
  }

  // Its writes: the rest of the link is moved, then the dots are put in front.
  method Rewrite(buf: array<char>, up: nat, from: nat, llen: nat, ghost link: string)
    requires CText(buf[..], link) && from + llen == |link| && 3 * up + llen + 2 <= buf.Length
    modifies buf
    ensures CText(buf[..], Relative(up, link[from..]))
  {
    hide Dots, CText;
    ghost var l := link[from..];
    ghost var tail := if l != "" then l else if up == 0 then "." else "";
    LinkTail(buf[..], link, from);
    assert buf[..][from..|link| + 1] == buf[from..|link| + 1];
    var s := 3 * up;
    if llen > 0 {
      MoveWithin(buf, s, from, llen + 1);
    } else if up == 0 {
      buf[s], buf[s + 1] := '.', NUL;
      assert buf[s..s + 2] == "." + [NUL];
    } else {
      buf[s] := NUL;
      assert buf[s..s + 1] == "" + [NUL];
    }
    assert buf[s..][..|tail| + 1] == buf[s..s + |tail| + 1];
    WriteDots(buf, up);
    assert buf[..] == buf[..s] + buf[s..];
    DotsNoNul(up);
    CTextJoin(buf[..s], buf[s..], tail);
  }

  lemma LinkTail(buf: seq<char>, link: string, from: nat)
    requires CText(buf, link) && from <= |link|
    ensures |link| + 1 <= |buf| && buf[from..|link| + 1] == link[from..] + [NUL]
    ensures forall i :: 0 <= i < |link[from..]| ==> link[from..][i] != NUL
  {
    assert forall i :: 0 <= i < |link| ==> buf[i] == buf[..|link|][i] == link[i];
  }

  lemma CTextJoin(a: seq<char>, b: seq<char>, t: string)
    requires |t| + 1 <= |b| && b[..|t| + 1] == t + [NUL]
    requires (forall i :: 0 <= i < |a| ==> a[i] != NUL) && (forall i :: 0 <= i < |t| ==> t[i] != NUL)
    ensures CText(a + b, a + t)
  {
    assert forall i :: 0 <= i <= |t| ==> b[i] == b[..|t| + 1][i] == (t + [NUL])[i];
    assert (a + b)[..|a + t|] == a + t;
  }

  lemma CTextUnique(buf: seq<char>, s: string, t: string)
    requires CText(buf, s) && CText(buf, t)
    ensures s == t
  {
    assert forall i :: 0 <= i < |s| ==> buf[i] == buf[..|s|][i] == s[i];
    assert forall i :: 0 <= i < |t| ==> buf[i] == buf[..|t|][i] == t[i];
  }

  lemma {:induction false} DotsNoNul(k: nat)
    ensures forall i :: 0 <= i < |Dots(k)| ==> Dots(k)[i] != NUL
  {
    if k > 0 {
      DotsNoNul(k - 1);
    }
  }

  // ------------------------------------------------------------------ meaning

  predicate Dotted(x: string) {
    x == "." || x == ".."
  }

  function Move(stack: seq<string>, x: string): seq<string> {
    if x == "." then stack
    else if x == ".." then (if stack == [] then [] else stack[..|stack| - 1])
    else stack + [x]
  }

  // Lexical resolution of a path from a directory.
  function Resolve(stack: seq<string>, comps: seq<string>): seq<string>
    decreases |comps|
  {
    if comps == [] then stack else Resolve(Move(stack, comps[0]), comps[1..])
  }

  function Ups(k: nat): (r: seq<string>)
    ensures |r| == k
  {
    if k == 0 then [] else [".."] + Ups(k - 1)
  }

  lemma {:induction false} CompsUp(t: string)
    ensures Comps("../" + t) == [".."] + Comps(t)
  {
    var u := "../" + t;
    CompsRun(u, 2);
    assert u[..2] == ".." && u[2..] == "/" + t;
    assert Comps(u[2..]) == Comps(t) by { CompsSkip(u[2..], 1); assert u[2..][1..] == t; }
  }

  lemma {:induction false} CompsDots(k: nat, s: string)
    ensures Comps(Dots(k) + s) == Ups(k) + Comps(s)
  {
    hide Comps;
    if k == 0 {
      assert Dots(k) + s == s && Ups(k) + Comps(s) == Comps(s);
    } else {
      CompsDots(k - 1, s);
      var t := Dots(k - 1) + s;
      CompsUp(t);
      assert Dots(k) + s == "../" + t;
      assert [".."] + (Ups(k - 1) + Comps(s)) == ([".."] + Ups(k - 1)) + Comps(s);
    }
  }

  // The components of the rewritten link.
  lemma {:induction false} CompsRelative(up: nat, rest: string)
    ensures Comps(Relative(up, rest)) == if rest == "" && up == 0 then ["."] else Ups(up) + Comps(rest)
  {
    if rest != "" {
      CompsDots(up, rest);
    } else if up == 0 {
      assert Dots(0) + "." == ".";
      CompsRun(".", 1);
      assert "."[..1] == "." && "."[1..] == "";
    } else {
      CompsDots(up, "");
    }
  }

  lemma {:induction false} ResolveConcat(stack: seq<string>, a: seq<string>, b: seq<string>)
    ensures Resolve(stack, a + b) == Resolve(Resolve(stack, a), b)
    decreases |a|
  {
    if a == [] {
      assert a + b == b;
    } else {
      ResolveConcat(Move(stack, a[0]), a[1..], b);
      assert (a + b)[1..] == a[1..] + b;
    }
  }

  lemma {:induction false} ResolveUps(stack: seq<string>, k: nat)
    ensures Resolve(stack, Ups(k)) == if k <= |stack| then stack[..|stack| - k] else []
    decreases k
  {
    if k > 0 {
      var t := Move(stack, "..");
      ResolveUps(t, k - 1);
      assert Ups(k)[1..] == Ups(k - 1);
      if k <= |stack| {
        assert t[..|t| - (k - 1)] == stack[..|stack| - k];
      }
    } else {
      assert stack[..|stack|] == stack;
    }
  }

  // Each component adds at most one directory, and exactly one unless it is a dot or a dot-dot.
  lemma {:induction false} ResolveDepth(stack: seq<string>, d: seq<string>)
    ensures |Resolve(stack, d)| <= |stack| + |d|
    ensures (forall i :: 0 <= i < |d| ==> !Dotted(d[i])) ==> Resolve(stack, d) == stack + d
    ensures (exists i :: 0 <= i < |d| && Dotted(d[i])) ==> |Resolve(stack, d)| < |stack| + |d|
    decreases |d|
  {
    if d != [] {
      var t := Move(stack, d[0]);
      ResolveDepth(t, d[1..]);
      if forall i :: 0 <= i < |d| ==> !Dotted(d[i]) {
        assert !Dotted(d[0]);
        assert stack + [d[0]] + d[1..] == stack + d;
      }
      if i :| 0 <= i < |d| && Dotted(d[i]) {
        if i > 0 { assert Dotted(d[1..][i - 1]); }
      }
    } else {
      assert stack + d == stack;
    }
  }

  // The rewritten link, resolved from the link's own directory.
  function FromLink(c: seq<string>, r: seq<string>, l: seq<string>): seq<string>
    requires r != []
  {
    Resolve(Resolve([], c + r[..|r| - 1]), Ups(|r| - 1) + l)
  }

  // Going back up from the link's directory ends in the common directory exactly if no dot components lie
  // between the two, or the common directory is the root.
  lemma {:induction false} UpsReturn(c: seq<string>, r: seq<string>)
    requires r != []
    ensures FromLink(c, r, []) == Resolve([], c) <==>
            Resolve([], c) == [] || forall i :: 0 <= i < |r| - 1 ==> !Dotted(r[i])
  {
    var d, st, k := r[..|r| - 1], Resolve([], c), |r| - 1;
    ResolveConcat([], c, d);
    assert Ups(k) + [] == Ups(k);
    ResolveUps(Resolve(st, d), k);
    ResolveDepth(st, d);
    if forall i :: 0 <= i < k ==> !Dotted(r[i]) {
      assert forall i :: 0 <= i < |d| ==> !Dotted(d[i]);
      assert (st + d)[..|st|] == st;
    } else {
      var i :| 0 <= i < k && Dotted(r[i]);
      assert Dotted(d[i]);
    }
  }

  // Rewriting preserves the meaning of every link below `c` exactly under that condition.
  lemma {:induction false} MeaningPreserved(c: seq<string>, r: seq<string>)
    requires r != []
    ensures (forall l :: FromLink(c, r, l) == Resolve([], c + l)) <==>
            Resolve([], c) == [] || forall i :: 0 <= i < |r| - 1 ==> !Dotted(r[i])
  {
    UpsReturn(c, r);
    var dir := Resolve([], c + r[..|r| - 1]);
    var back := Resolve(dir, Ups(|r| - 1));
    assert Ups(|r| - 1) + [] == Ups(|r| - 1) && c + [] == c;
    if back == Resolve([], c) {
      forall l
        ensures FromLink(c, r, l) == Resolve([], c + l)
      {
        ResolveConcat(dir, Ups(|r| - 1), l);
        ResolveConcat([], c, l);
      }
    } else {
      assert FromLink(c, r, []) != Resolve([], c + []);
    }
  }

  // The new link, resolved from the directory of the link, is what the old one is.
  predicate SameTarget(path: string, link: string, text: string) {
    var full := Comps(path);
    full != [] && Resolve(Resolve([], full[..|full| - 1]), Comps(text)) == Resolve([], Comps(link))
  }

  // No dot component of the path lies between the common directory and that of the link, or the common directory is
  // the root.
  predicate Straight(path: string, link: string) {
    var full, k := Comps(path), Shared(link, path);
    k <= |full| && (Resolve([], full[..k]) == [] || forall i :: k <= i < |full| - 1 ==> !Dotted(full[i]))
  }

  // A relative path taken together: so many directories up, then down these names.
  datatype Way = Way(up: nat, down: seq<string>)

  function Further(w: Way, x: string): Way {
    if x == "." then w
    else if x != ".." then w.(down := w.down + [x])
    else if w.down == [] then w.(up := w.up + 1)
    else w.(down := w.down[..|w.down| - 1])
  }

  function Together(w: Way, comps: seq<string>): Way
    decreases |comps|
  {
    if comps == [] then w else Together(Further(w, comps[0]), comps[1..])
  }

  // A directory some levels up; the root is its own parent.
  function Above(stack: seq<string>, n: nat): seq<string> {
    if n <= |stack| then stack[..|stack| - n] else []
  }

  function Walk(stack: seq<string>, w: Way): seq<string> {
    Above(stack, w.up) + w.down
  }

  lemma WalkStep(stack: seq<string>, w: Way, x: string)
    ensures Walk(stack, Further(w, x)) == Move(Walk(stack, w), x)
  {
    var s := Walk(stack, w);
    if x == ".." {
      if w.down == [] {
        assert s == Above(stack, w.up);
        assert Walk(stack, Further(w, x)) == Above(stack, w.up + 1);
      } else {
        assert s[..|s| - 1] == Above(stack, w.up) + w.down[..|w.down| - 1];
      }
    } else if x != "." {
      assert Above(stack, w.up) + (w.down + [x]) == s + [x];
    }
  }

  // From any directory, a relative path leads where its ups and downs taken together lead.
  lemma {:induction false} ResolveTogether(stack: seq<string>, w: Way, comps: seq<string>)
    ensures Resolve(Walk(stack, w), comps) == Walk(stack, Together(w, comps))
    decreases |comps|
  {
    hide Walk;
    if comps != [] {
      WalkStep(stack, w, comps[0]);
      ResolveTogether(stack, Further(w, comps[0]), comps[1..]);
    }
  }

  lemma ResolveIs(stack: seq<string>, comps: seq<string>)
    ensures Resolve(stack, comps) == Walk(stack, Together(Way(0, []), comps))
  {
    assert Walk(stack, Way(0, [])) == stack;
    ResolveTogether(stack, Way(0, []), comps);
  }

  // How far up the rest of the target goes before it goes down.
  function Climb(link: string, path: string): nat {
    Together(Way(0, []), Comps(link)[Shared(link, path)..]).up
  }

  // The directory of the link and the common directory agree, as far up as the rest of the target starts from.
  predicate Agreeing(path: string, link: string) {
    var full, k := Comps(path), Shared(link, path);
    k < |full| && Above(Above(Resolve([], full[..|full| - 1]), |full| - 1 - k), Climb(link, path))
               == Above(Resolve([], full[..k]), Climb(link, path))
  }

  // The rest of the target has no dot components.
  predicate Undotted(link: string, path: string) {
    forall i :: Shared(link, path) <= i < |Comps(link)| ==> !Dotted(Comps(link)[i])
  }

  lemma {:induction false} SharedSplit(link: string, path: string)
    ensures var k := Shared(link, path);
            k <= |Comps(link)| && k <= |Comps(path)| && Comps(link)[..k] == Comps(path)[..k]
  {
    hide Comps;
    var a, b := Comps(link), Comps(path);
    var n := Agree(a, b);
    if n > 0 {
      assert a[..n - 1] == a[..n][..n - 1] && b[..n - 1] == b[..n][..n - 1];
    }
  }

  lemma {:induction false} LeftComps(s: string, k: nat)
    requires k <= |Comps(s)|
    ensures Comps(Left(s, k)) == Comps(s)[k..]
    decreases k
  {
    SkipComps(s);
    hide Skip, Past, Comps;
    if k > 0 {
      PastComps(Skip(s));
      LeftComps(Past(Skip(s)), k - 1);
    }
  }

  lemma {:induction false} SkipComps(s: string)
    ensures Comps(Skip(s)) == Comps(s) && (Skip(s) != "" ==> Skip(s)[0] != '/')
  {
    CompsSkip(s, Slashes(s));
  }

  lemma {:induction false} PastComps(u: string)
    requires u != "" ==> u[0] != '/'
    ensures Comps(u) != [] ==> Comps(Past(u)) == Comps(u)[1..]
  {
  }

  lemma {:induction false} TargetKept(path: string, link: string)
    requires Shared(link, path) < |Comps(path)|
    ensures Straight(path, link) ==> SameTarget(path, link, Rewritten(path, link))
    ensures Undotted(link, path) ==> (SameTarget(path, link, Rewritten(path, link)) <==> Straight(path, link))
    ensures SameTarget(path, link, Rewritten(path, link)) <==> Agreeing(path, link)
  {
    hide Comps, Left, Shared, Resolve, Relative, Above, Together;
    var k := Shared(link, path);
    SharedSplit(link, path);
    LeftComps(link, k);
    var full, c, r, l := Comps(path), Comps(path)[..k], Comps(path)[k..], Left(link, k);
    assert Comps(link) == c + Comps(l) && full == c + r;
    RelativeFromLink(c, r, l);
    assert full[..|full| - 1] == c + r[..|r| - 1];
    FromLinkIff(c, r, Comps(l));
    MeaningPreserved(c, r);
    assert (forall i :: 0 <= i < |r| - 1 ==> !Dotted(r[i])) <==>
      (forall i :: k <= i < |full| - 1 ==> !Dotted(full[i])) by {
      assert forall i :: 0 <= i < |r| ==> r[i] == full[k + i];
      assert forall i :: k <= i < |full| ==> full[i] == r[i - k];
    }
    if Undotted(link, path) {
      assert forall i :: 0 <= i < |Comps(l)| ==> Comps(l)[i] == Comps(link)[k + i];
      UndottedInjective(c, r, Comps(l));
    }
  }

  lemma UpsAbove(stack: seq<string>, k: nat)
    ensures Resolve(stack, Ups(k)) == Above(stack, k)
  {
    ResolveUps(stack, k);
  }

  // Rewriting preserves the meaning of a link iff both directories agree as far up as the link starts from.
  lemma {:induction false} FromLinkIff(c: seq<string>, r: seq<string>, l: seq<string>)
    requires r != []
    ensures var up := Together(Way(0, []), l).up;
            FromLink(c, r, l) == Resolve([], c + l) <==>
            Above(Above(Resolve([], c + r[..|r| - 1]), |r| - 1), up) == Above(Resolve([], c), up)
  {
    hide Resolve, Together, Above, Ups;
    var dir, st, w := Resolve([], c + r[..|r| - 1]), Resolve([], c), Together(Way(0, []), l);
    var back := Above(dir, |r| - 1);
    ResolveConcat(dir, Ups(|r| - 1), l);
    UpsAbove(dir, |r| - 1);
    ResolveConcat([], c, l);
    ResolveIs(back, l);
    ResolveIs(st, l);
    SamePrefix(Above(back, w.up), Above(st, w.up), w.down);
  }

  // The text of the new link means its components.
  lemma {:induction false} RelativeFromLink(c: seq<string>, r: seq<string>, l: string)
    requires r != []
    ensures Resolve(Resolve([], c + r[..|r| - 1]), Comps(Relative(|r| - 1, l))) == FromLink(c, r, Comps(l))
  {
    CompsRelative(|r| - 1, l);
    if l == "" && |r| == 1 {
      var dir := Resolve([], c + r[..|r| - 1]);
      assert Comps("") == [] && Ups(0) + [] == [];
      assert ["."][1..] == [] && Resolve(dir, ["."]) == Resolve(dir, []);
    }
  }

  // For a target without dot components, the meaning tells whether the way back up led to the common directory.
  lemma {:induction false} UndottedInjective(c: seq<string>, r: seq<string>, l: seq<string>)
    requires r != [] && forall i :: 0 <= i < |l| ==> !Dotted(l[i])
    ensures FromLink(c, r, l) == Resolve([], c + l) <==>
            Resolve([], c) == [] || forall i :: 0 <= i < |r| - 1 ==> !Dotted(r[i])
  {
    UpsReturn(c, r);
    var dir := Resolve([], c + r[..|r| - 1]);
    var back := Resolve(dir, Ups(|r| - 1));
    assert Ups(|r| - 1) + [] == Ups(|r| - 1);
    ResolveConcat(dir, Ups(|r| - 1), l);
    ResolveConcat([], c, l);
    ResolveDepth(back, l);
    ResolveDepth(Resolve([], c), l);
    assert back + l == Resolve([], c) + l ==> back == Resolve([], c) by {
      SamePrefix(back, Resolve([], c), l);
    }
  }

  lemma SamePrefix(a: seq<string>, b: seq<string>, l: seq<string>)
    ensures a + l == b + l ==> a == b
  {
    if a + l == b + l {
      assert |a| == |b|;
      assert a == (a + l)[..|a|] && b == (b + l)[..|b|];
    }
  }

  // A loss: with the base /x/./d/, the link /x//////t found at /x/./d/link is rewritten to ../../t, which is /t.
  lemma DotsInPathLose(size: nat)
    requires size >= 9
    ensures var base, path, link := "/x/./d/", "/x/./d/link", "/x//////t";
            && Rewrites(base, path, link, size) && Rewritten(path, link) == "../../t"
            && !SameTarget(path, link, Rewritten(path, link))
  {
    LosePath();
    LoseLink();
    LoseLeft();
    LoseShared("/x/./d/link", "/x//////t");
    TwoDots();
    hide Comps, Left, Shared, Relative, SameTarget, Straight, Undotted;
    TargetKept("/x/./d/link", "/x//////t");
  }

  lemma TwoDots()
    ensures Relative(2, "t") == "../../t"
  {
    assert Dots(1) == "../" + Dots(0) && Dots(2) == "../" + Dots(1);
  }

  lemma {:induction false} LoseShared(path: string, link: string)
    requires Comps(path) == ["x", ".", "d", "link"] && Comps(link) == ["x", "t"]
    ensures Shared(link, path) == 1 && !Straight(path, link) && Undotted(link, path)
  {
    hide Comps;
    var full, target := Comps(path), Comps(link);
    assert target[1..] == ["t"] && full[1..] == [".", "d", "link"];
    assert Agree(target, full) == 1 + Agree(target[1..], full[1..]);
    assert Agree(target[1..], full[1..]) == 0;
    assert Dotted(full[1]);
    assert full[..1] == ["x"] && ["x"][1..] == [];
    assert Resolve([], ["x"]) == Resolve(["x"], []);
  }

  lemma LoseLeft()
    ensures Left("/x//////t", 1) == "t"
  {
    var s, u, v := "/x//////t", "x//////t", "//////t";
    SlashesAre(s, 1);
    assert s[1..] == u;
    assert RunLen(u) == 1;
    assert u[1..] == v;
    SlashesAre(v, 6);
    assert v[6..] == "t";
    assert Left(v, 0) == "t";
  }

  lemma LosePath()
    ensures Comps("/x/./d/link") == ["x", ".", "d", "link"]
  {
    hide Comps;
    var d, c, b, a := "/link", "/d/link", "/./d/link", "/x/./d/link";
    NoComps();
    PutInFront(d, "link", "");
    PutInFront(c, "d", d);
    PutInFront(b, ".", c);
    PutInFront(a, "x", b);
  }

  lemma LoseLink()
    ensures Comps("/x//////t") == ["x", "t"]
  {
    hide Comps;
    var c, b, a := "/t", "//////t", "/x//////t";
    NoComps();
    PutInFront(c, "t", "");
    CompsSkip(b, 5);
    assert b[5..] == c;
    PutInFront(a, "x", b);
  }

  lemma {:induction false} PutInFront(s: string, x: string, rest: string)
    requires x != "" && (forall i :: 0 <= i < |x| ==> x[i] != '/') && (rest == "" || rest[0] == '/')
    requires s == "/" + x + rest
    ensures Comps(s) == [x] + Comps(rest)
  {
    CompsCons(x, rest);
  }
}
