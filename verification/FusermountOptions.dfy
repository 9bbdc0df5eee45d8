/** How fusermount splits the option string it is given and reads an option's value (`do_mount`,
    `get_string_opt`), and that it reads back what libfuse's escaper wrote. */
module FusermountOptions {
  import opened Common
  import opened OptionStrings

  // The length of the first option: up to the first comma that is not escaped.
  function OptLen(s: string): (n: nat)
    ensures n <= |s|
    ensures n < |s| ==> s[n] == ','
    decreases |s|
  {
    if s == "" || s[0] == ',' then 0
    else if s[0] == '\\' && |s| > 1 then 2 + OptLen(s[2..])
    else 1 + OptLen(s[1..])
  }

  lemma {:induction false} OptLenStep(s: string)
    requires s != ""
    ensures s[0] == ',' ==> OptLen(s) == 0
    ensures s[0] == '\\' && |s| > 1 ==> OptLen(s) == 2 + OptLen(s[2..])
    ensures s[0] != ',' && !(s[0] == '\\' && |s| > 1) ==> OptLen(s) == 1 + OptLen(s[1..])
  {
  }

  function Unescape(s: string): (r: string)
    ensures |r| <= |s|
    decreases |s|
  {
    if s == "" then ""
    else if s[0] == '\\' && |s| > 1 then [s[1]] + Unescape(s[2..])
    else [s[0]] + Unescape(s[1..])
  }

  // The scanning loop of `do_mount`, from `s`.
  method ScanOption(opts: string, s: nat) returns (len: nat)
    requires s <= |opts|
    ensures len == OptLen(opts[s..])
  {
    hide OptLen;
    len := 0;
    while s + len < |opts|
      invariant s + len <= |opts|
      invariant OptLen(opts[s..]) == len + OptLen(opts[s + len..])
    {
      ghost var t := opts[s + len..];
      OptLenStep(t);
      if opts[s + len] == '\\' && s + len + 1 < |opts| {
        assert t[2..] == opts[s + len + 2..];
        len := len + 1;
      } else if opts[s + len] == ',' {
        break;
      } else {
        assert t[1..] == opts[s + len + 1..];
      }
      len := len + 1;
    }
    OptLenEnd(opts, s + len);
  }

  lemma OptLenEnd(opts: string, i: nat)
    requires i == |opts| || (i < |opts| && opts[i] == ',')
    ensures OptLen(opts[i..]) == 0
  {
  }

  // `get_string_opt`: the value after the `skip` characters of the option's name.
  method GetStringOpt(opt: string, skip: nat) returns (val: string)
    requires skip <= |opt|
    ensures val == Unescape(opt[skip..])
  {
    hide Unescape;
    var s := opt[skip..];
    val := "";
    var i := 0;
    assert s[0..] == s && val + Unescape(s) == Unescape(s);
    while i < |s|
      invariant i <= |s|
      invariant Unescape(s) == val + Unescape(s[i..])
    {
      UnescapeStep(s, i);
      if s[i] == '\\' && i + 1 < |s| {
        i := i + 1;
      }
      val := val + [s[i]];
      i := i + 1;
    }
    UnescapeEnd(s);
    assert s[i..] == s[|s|..] && val + "" == val;
  }

  lemma UnescapeStep(s: string, i: nat)
    requires i < |s|
    ensures Unescape(s[i..]) == if s[i] == '\\' &&
      i + 1 < |s| then [s[i + 1]] + Unescape(s[i + 2..]) else [s[i]] + Unescape(s[i + 1..])
  {
    assert s[i..][1..] == s[i + 1..];
    if i + 1 < |s| { assert s[i..][2..] == s[i + 2..]; }
  }

  lemma UnescapeEnd(s: string)
    ensures Unescape(s[|s|..]) == ""
  {
  }

  // The value the string gives to the option called `name` (which ends in '='): the last one counts.
  function Value(opts: string, name: string, cur: Option<string>): Option<string>
    decreases |opts|
  {
    if opts == "" then cur
    else
      var len := OptLen(opts);
      var cur' := if name <= opts && |name| <= len then Some(Unescape(opts[|name|..len])) else cur;
      if len < |opts| then Value(opts[len + 1..], name, cur') else cur'
  }

  // A plain name has nothing to escape, so it cannot reach past the end of an option.
  predicate Plain(name: string) {
    forall i :: 0 <= i < |name| ==> !Special(name[i])
  }

  lemma {:induction false} NameWithinOption(s: string, name: string)
    requires Plain(name) && name <= s
    ensures |name| <= OptLen(s)
    decreases |name|
  {
    if name != "" {
      NameWithinOption(s[1..], name[1..]);
    }
  }

  // The loop of `do_mount` as far as it concerns one `name=value` option, such as `fsname=`.
  method ReadValue(opts: string, name: string) returns (val: Option<string>)
    requires Plain(name)
    ensures val == Value(opts, name, None)
  {
    hide Value, OptLen, Unescape;
    val := None;
    var s := 0;
    assert opts[0..] == opts;
    while s < |opts|
      invariant s <= |opts|
      invariant Value(opts, name, None) == Value(opts[s..], name, val)
    {
      var len := ScanOption(opts, s);
      ValueStep(opts, s, name, val);
      if name <= opts[s..] {
        var v := GetStringOpt(opts[s..s + len], |name|);
        val := Some(v);
      }
      s := s + len;
      if s < |opts| {
        s := s + 1;
      }
    }
    ValueEnd(opts, name, val);
  }

  // One turn of that loop.
  lemma {:induction false} ValueStep(opts: string, s: nat, name: string, cur: Option<string>)
    requires Plain(name) && s < |opts|
    ensures var len := OptLen(opts[s..]);
            s + len <= |opts| && (name <= opts[s..] ==> |name| <= len)
            && var cur' := if name <= opts[s..] then Some(Unescape(opts[s..s + len][|name|..])) else cur;
               Value(opts[s..], name, cur) ==
                 Value(opts[if s + len < |opts| then s + len + 1 else |opts|..], name, cur')
  {
    hide OptLen, Unescape;
    var t := opts[s..];
    var len := OptLen(t);
    if name <= t {
      NameWithinOption(t, name);
      assert opts[s..s + len] == t[..len];
      assert t[..len][|name|..] == t[|name|..len];
    }
    if len < |t| {
      assert t[len + 1..] == opts[s + len + 1..];
    }
  }

  lemma {:induction false} ValueEnd(opts: string, name: string, cur: Option<string>)
    ensures Value(opts[|opts|..], name, cur) == cur
  {
  }

  // ------------------------------------------------------------------ what is escaped, told from the text

  // The number of backslashes right before position `i`; a character is escaped if it is odd.
  function Slashes(s: string, i: nat): nat
    requires i <= |s|
  {
    if i == 0 || s[i - 1] != '\\' then 0 else 1 + Slashes(s, i - 1)
  }

  // In any text an option ends at the first comma with an even number of backslashes before it, or at the end.
  lemma {:induction false} OptLenFirst(s: string, k: nat)
    requires k <= |s| && Slashes(s, k) % 2 == 0
    ensures var n := k + OptLen(s[k..]);
            && n <= |s| && (n < |s| ==> s[n] == ',' && Slashes(s, n) % 2 == 0)
            && forall i :: k <= i < n && s[i] == ',' ==> Slashes(s, i) % 2 == 1
    decreases |s| - k
  {
    hide OptLen;
    if k < |s| {
      OptLenStep(s[k..]);
      if s[k] == '\\' && k + 1 < |s| {
        assert s[k..][2..] == s[k + 2..] && Slashes(s, k + 1) == 1 + Slashes(s, k);
        OptLenFirst(s, k + 2);
      } else if s[k] == '\\' {
        assert s[k..][1..] == s[|s|..];
        OptLenEnd(s, |s|);
      } else if s[k] != ',' {
        assert s[k..][1..] == s[k + 1..];
        OptLenFirst(s, k + 1);
      }
    } else {
      OptLenEnd(s, k);
    }
  }

  // What is left from `k` on without the backslashes that escape something.
  function Bared(s: string, k: nat): string
    requires k <= |s|
    decreases |s| - k
  {
    if k == |s| then ""
    else (if s[k] == '\\' && Slashes(s, k) % 2 == 0 && k + 1 < |s| then "" else [s[k]]) + Bared(s, k + 1)
  }

  lemma {:induction false} BaredStep(s: string, k: nat)
    requires k < |s| && Slashes(s, k) % 2 == 0
    ensures s[k] != '\\' ==> Slashes(s, k + 1) == 0 && Bared(s, k) == [s[k]] + Bared(s, k + 1)
    ensures s[k] == '\\' && k + 1 == |s| ==> Bared(s, k) == [s[k]]
    ensures s[k] == '\\' && k + 1 < |s| ==> Slashes(s, k + 2) % 2 == 0 && Bared(s, k) == [s[k + 1]] + Bared(s, k + 2)
  {
    if s[k] == '\\' && k + 1 < |s| {
      assert Slashes(s, k + 1) == 1 + Slashes(s, k);
      assert Bared(s, k) == Bared(s, k + 1) == [s[k + 1]] + Bared(s, k + 2);
    } else if s[k] == '\\' {
      assert Bared(s, k + 1) == "";
    }
  }

  // In any text unescaping takes away the backslashes that escape something, and nothing else.
  lemma {:induction false} UnescapeBares(s: string, k: nat)
    requires k <= |s| && Slashes(s, k) % 2 == 0
    ensures Unescape(s[k..]) == Bared(s, k)
    decreases |s| - k
  {
    if k == |s| {
      UnescapeEnd(s);
    } else {
      hide Unescape, Bared, Slashes;
      UnescapeStep(s, k);
      BaredStep(s, k);
      if s[k] == '\\' && k + 1 < |s| {
        UnescapeBares(s, k + 2);
      } else if s[k] == '\\' {
        UnescapeEnd(s);
      } else {
        UnescapeBares(s, k + 1);
      }
    }
  }

  // ------------------------------------------------------------------ reading what the escaper wrote

  lemma {:induction false} UnescapeEscape(x: string)
    ensures Unescape(Escape(x)) == x
  {
    if x != "" {
      UnescapeEscape(x[1..]);
      var s, t := Escape(x), Escape(x[1..]);
      assert if Special(x[0]) then s[1] == x[0] && s[2..] == t else s[1..] == t;
      assert x == [x[0]] + x[1..];
    }
  }

  // An escaped option ends where the escaper put its comma, or at the end.
  lemma {:induction false} OptLenEscaped(x: string, rest: string)
    requires rest == "" || rest[0] == ','
    ensures OptLen(Escape(x) + rest) == |Escape(x)|
    decreases |x|
  {
    hide OptLen;
    var s := Escape(x) + rest;
    if x == "" {
      assert s == rest && rest[0..] == rest;
      OptLenEnd(rest, 0);
    } else {
      var t := Escape(x[1..]) + rest;
      OptLenEscaped(x[1..], rest);
      OptLenStep(s);
      assert if Special(x[0]) then s[0] == '\\' && s[2..] == t else s[0] == x[0] && s[1..] == t;
    }
  }

  lemma {:induction false} EscapePrefix(x: string, name: string, rest: string)
    requires Plain(name) && (rest == "" || rest[0] == ',')
    ensures name <= Escape(x) + rest && |name| <= |Escape(x)| <==> name <= x
    ensures name <= x ==> Escape(x)[|name|..] == Escape(x[|name|..])
    decreases |name|
  {
    var e := Escape(x);
    if name == "" {
      assert e[0..] == e && x[0..] == x;
    } else if x != "" {
      EscapePrefix(x[1..], name[1..], rest);
      if x[0] == name[0] {
        assert e == [x[0]] + Escape(x[1..]);
        hide Escape;
        assert e[1..] == Escape(x[1..]);
        PrefixTail(name, e + rest);
        PrefixTail(name, x);
        assert (e + rest)[1..] == e[1..] + rest;
        if name <= x {
          assert x[1..][|name[1..]|..] == x[|name|..];
          assert e[1..][|name[1..]|..] == e[|name|..];
        }
      }
    }
  }

  lemma PrefixTail(a: string, b: string)
    requires a != "" && b != "" && a[0] == b[0]
    ensures a <= b <==> a[1..] <= b[1..]
  {
    if a[1..] <= b[1..] {
      assert forall i :: 0 < i < |a| ==> a[i] == a[1..][i - 1] && b[i] == b[1..][i - 1];
    }
  }

  // The value that the last option called `name` of a list carries.
  function LastValue(l: seq<string>, name: string, cur: Option<string>): Option<string> {
    if l == [] then cur
    else LastValue(l[1..], name, if name <= l[0] then Some(l[0][|name|..]) else cur)
  }

  lemma {:induction false} ValueHead(x: string, rest: string, name: string, cur: Option<string>)
    requires Plain(name) && name != "" && (rest == "" || rest[0] == ',')
    ensures var cur' := if name <= x then Some(x[|name|..]) else cur;
            Value(Escape(x) + rest, name, cur) == if rest == "" then cur' else Value(rest[1..], name, cur')
  {
    hide Escape, Unescape, OptLen;
    var e := Escape(x);
    OptLenEscaped(x, rest);
    EscapePrefix(x, name, rest);
    if name <= x {
      assert (e + rest)[|name|..|e|] == e[|name|..];
      UnescapeEscape(x[|name|..]);
    }
    assert rest != "" ==> (e + rest)[|e| + 1..] == rest[1..];
    EscapeEmpty(x);
  }

  lemma {:induction false} ValueJoin(l: seq<string>, name: string, cur: Option<string>)
    requires l != [] && Plain(name) && name != ""
    ensures Value(Join(l), name, cur) == LastValue(l, name, cur)
    decreases |l|
  {
    hide Escape, Value;
    var cur' := if name <= l[0] then Some(l[0][|name|..]) else cur;
    if |l| == 1 {
      ValueHead(l[0], "", name, cur);
      assert Escape(l[0]) + "" == Join(l) && l[1..] == [];
    } else {
      var rest := "," + Join(l[1..]);
      ValueHead(l[0], rest, name, cur);
      assert Escape(l[0]) + rest == Join(l) && rest[1..] == Join(l[1..]);
      ValueJoin(l[1..], name, cur');
    }
  }

  lemma {:induction false} LastValueTrim(l: seq<string>, name: string, cur: Option<string>)
    requires name != ""
    ensures LastValue(Trim(l), name, cur) == LastValue(l, name, cur)
  {
    if |l| > 1 && l[0] == "" {
      LastValueTrim(l[1..], name, cur);
    }
  }

  // Whatever options libfuse's escaper has strung together, fusermount reads for `fsname=` (or any other plain
  // name) the value of the last such option, with its commas and backslashes.
  lemma {:induction false} CrossProgram(l: seq<string>, name: string)
    requires Plain(name) && name != ""
    ensures Value(Encode(l), name, None) == LastValue(l, name, None)
  {
    if l != [] {
      EncodeIsJoin(l);
      ValueJoin(Trim(l), name, None);
      LastValueTrim(l, name, None);
    }
  }

  // Such an option comes back with its value if no later option sets it again.
  lemma {:induction false} ValueSurvives(before: seq<string>, name: string, v: string, after: seq<string>)
    requires Plain(name) && name != "" && forall i :: 0 <= i < |after| ==> !(name <= after[i])
    ensures Value(Encode(before + [name + v] + after), name, None) == Some(v)
  {
    hide Value, Encode, LastValue;
    CrossProgram(before + [name + v] + after, name);
    LastValueAt(before, name + v, after, name, None);
    assert (name + v)[|name|..] == v;
  }

  // The two options that `do_mount` reads this way.
  lemma {:induction false} MountValuesSurvive(before: seq<string>, v: string, after: seq<string>)
    ensures (forall i :: 0 <= i < |after| ==> !("fsname=" <= after[i])) ==>
      Value(Encode(before + ["fsname=" + v] + after), "fsname=", None) == Some(v)
    ensures (forall i :: 0 <= i < |after| ==> !("subtype=" <= after[i])) ==>
      Value(Encode(before + ["subtype=" + v] + after), "subtype=", None) == Some(v)
  {
    hide Value, Encode;
    if forall i :: 0 <= i < |after| ==> !("fsname=" <= after[i]) {
      ValueSurvives(before, "fsname=", v, after);
    }
    if forall i :: 0 <= i < |after| ==> !("subtype=" <= after[i]) {
      ValueSurvives(before, "subtype=", v, after);
    }
  }

  lemma {:induction false} LastValueAt(a: seq<string>, x: string, b: seq<string>, name: string, cur: Option<string>)
    requires name <= x && forall i :: 0 <= i < |b| ==> !(name <= b[i])
    ensures LastValue(a + [x] + b, name, cur) == Some(x[|name|..])
    decreases |a|
  {
    var l := a + [x] + b;
    if a == [] {
      assert l[0] == x && l[1..] == b;
      LastValueNone(b, name, Some(x[|name|..]));
    } else {
      assert l[1..] == a[1..] + [x] + b;
      LastValueAt(a[1..], x, b, name, if name <= l[0] then Some(l[0][|name|..]) else cur);
    }
  }

  lemma {:induction false} LastValueNone(b: seq<string>, name: string, cur: Option<string>)
    requires forall i :: 0 <= i < |b| ==> !(name <= b[i])
    ensures LastValue(b, name, cur) == cur
  {
    if b != [] {
      LastValueNone(b[1..], name, cur);
    }
  }
}
