/** Mount option strings: the escaper of libfuse (`add_opt_common`) and its decoder
    (`process_real_option_group`), which unescapes and splits in place.  A C string is a sequence of
    characters without NUL. */
module OptionStrings {
  import opened Common

  predicate CString(s: string) {
    forall i :: 0 <= i < |s| ==> s[i] != NUL
  }

  predicate CStrings(l: seq<string>) {
    forall i :: 0 <= i < |l| ==> CString(l[i])
  }

  // What a C function sees of a buffer: the part before the first NUL.
  function Visible(s: string): string {
    if s == "" || s[0] == NUL then "" else [s[0]] + Visible(s[1..])
  }

  lemma {:induction false} VisibleWhole(s: string)
    requires CString(s)
    ensures Visible(s) == s
  {
    if s != "" {
      VisibleWhole(s[1..]);
    }
  }

  // ------------------------------------------------------------------ escaping

  predicate Special(c: char) {
    c == ',' || c == '\\'
  }

  function EscapeChar(c: char): string {
    if Special(c) then ['\\', c] else [c]
  }

  function Escape(s: string): (r: string)
    ensures |r| <= 2 * |s|
  {
    if s == "" then "" else EscapeChar(s[0]) + Escape(s[1..])
  }

  function AddOpt(opts: string, opt: string, esc: bool): string {
    (if opts == "" then "" else opts + ",") + (if esc then Escape(opt) else opt)
  }

  lemma {:induction false} EscapeSnoc(s: string, c: char)
    ensures Escape(s + [c]) == Escape(s) + EscapeChar(c)
  {
    hide EscapeChar;
    if s == "" {
      assert s + [c] == [c] && [c][1..] == "";
      assert Escape([c]) == EscapeChar(c) + "";
    } else {
      EscapeSnoc(s[1..], c);
      assert (s + [c])[1..] == s[1..] + [c];
      assert EscapeChar(s[0]) + (Escape(s[1..]) + EscapeChar(c)) == EscapeChar(s[0]) + Escape(s[1..]) + EscapeChar(c);
    }
  }

  // Writing one character at the cursor.
  method Put(buf: array<char>, n: nat, c: char)
    requires n < buf.Length
    modifies buf
    ensures buf[..n + 1] == old(buf[..n]) + [c] && buf[n + 1..] == old(buf[n + 1..])
  {
    buf[n] := c;
  }

  // `add_opt_common`: the new option is appended in a buffer of `oldlen + 1 + 2 * strlen(opt) + 1` characters.
  method AddOptCommon(opts: string, opt: string, esc: bool) returns (buf: array<char>, n: nat)
    ensures fresh(buf) && buf.Length == |opts| + 1 + 2 * |opt| + 1
    ensures n < buf.Length && buf[..n] == AddOpt(opts, opt, esc) && buf[n] == NUL
  {
    hide Escape, EscapeChar;
    buf := new char[|opts| + 1 + 2 * |opt| + 1](_ => NUL);
    n := 0;
    while n < |opts|
      invariant n <= |opts| && buf[..n] == opts[..n]
    {
      Put(buf, n, opts[n]);
      n := n + 1;
    }
    assert opts[..n] == opts;
    if n > 0 {
      Put(buf, n, ',');
      n := n + 1;
    }
    n := AppendOpt(buf, n, opt, esc);
    buf[n] := NUL;
  }

  // The copying loop of `add_opt_common`.
  method AppendOpt(buf: array<char>, n0: nat, opt: string, esc: bool) returns (n: nat)
    requires n0 + 2 * |opt| < buf.Length
    modifies buf
    ensures n < buf.Length && buf[..n] == old(buf[..n0]) + if esc then Escape(opt) else opt
  {
    hide Escape, EscapeChar;
    ghost var head := buf[..n0];
    n := n0;
    EscapeNothing();
    assert head + "" == head;
    for i := 0 to |opt|
      invariant n <= n0 + 2 * i
      invariant buf[..n] == head + if esc then Escape(opt[..i]) else opt[..i]
    {
      ghost var done := if esc then Escape(opt[..i]) else opt[..i];
      assert opt[..i + 1] == opt[..i] + [opt[i]];
      EscapeSnoc(opt[..i], opt[i]);
      EscapeCharIs(opt[i]);
      if esc && (opt[i] == ',' || opt[i] == '\\') {
        Put(buf, n, '\\');
        n := n + 1;
        assert head + done + ['\\'] + [opt[i]] == head + (done + ['\\', opt[i]]);
      }
      assert head + done + [opt[i]] == head + (done + [opt[i]]);
      Put(buf, n, opt[i]);
      n := n + 1;
    }
    assert opt[..|opt|] == opt;
  }

  lemma EscapeNothing()
    ensures Escape("") == ""
  {
  }

  lemma EscapeCharIs(c: char)
    ensures EscapeChar(c) == if c == ',' || c == '\\' then ['\\', c] else [c]
  {
  }

  // ------------------------------------------------------------------ decoding

  predicate Octal(s: string) {
    |s| >= 3 && '0' <= s[0] <= '3' && '0' <= s[1] <= '7' && '0' <= s[2] <= '7'
  }

  function OctalChar(s: string): char
    requires Octal(s)
  {
    ((s[0] - '0') as int * 64 + (s[1] - '0') as int * 8 + (s[2] - '0') as int) as char
  }

  // The options in `s`, when `cur` has been decoded of the first of them.
  function Decode(s: string, cur: string): (r: seq<string>)
    ensures r != []
    decreases |s|
  {
    if s == "" then [Visible(cur)]
    else if s[0] == ',' then [Visible(cur)] + Decode(s[1..], "")
    else if s[0] == '\\' && |s| > 1 then
      if Octal(s[1..]) then Decode(s[4..], cur + [OctalChar(s[1..])])
      else Decode(s[2..], cur + [s[1]])
    else Decode(s[1..], cur + [s[0]])
  }

  // The three octal digits of a code.
  function OctalDigits(code: nat): string
    requires code < 256
  {
    ["01234567"[code / 64], "01234567"[code / 8 % 8], "01234567"[code % 8]]
  }

  // A backslash and three octal digits stand for the character with that code, whatever follows.
  lemma {:induction false} DecodeOctal(code: nat, rest: string, cur: string)
    requires code < 256
    ensures Decode("\\" + OctalDigits(code) + rest, cur) == Decode(rest, cur + [code as char])
  {
    hide Visible, Octal, OctalChar, OctalDigits;
    var s := "\\" + OctalDigits(code) + rest;
    OctalAt(code, rest);
    assert s[1..] == OctalDigits(code) + rest && s[4..] == rest && s[0] == '\\';
  }

  lemma OctalAt(code: nat, rest: string)
    requires code < 256
    ensures |OctalDigits(code)| == 3
    ensures Octal(OctalDigits(code) + rest) && OctalChar(OctalDigits(code) + rest) == code as char
  {
    ByDigits(code);
    DigitIs(code / 64);
    DigitIs(code / 8 % 8);
    DigitIs(code % 8);
  }

  lemma ByDigits(code: nat)
    requires code < 256
    ensures code / 64 < 4 && code == code / 64 * 64 + code / 8 % 8 * 8 + code % 8
  {
  }

  lemma DigitIs(k: nat)
    requires k < 8
    ensures '0' <= "01234567"[k] <= '7' && ("01234567"[k] - '0') as int == k && (k < 4 ==> "01234567"[k] <= '3')
  {
  }

  // A backslash takes any other character as it is; at the end of the string it stands for itself.
  lemma {:induction false} DecodeBackslash(c: char, rest: string, cur: string)
    ensures !Octal([c] + rest) ==> Decode("\\" + [c] + rest, cur) == Decode(rest, cur + [c])
    ensures Decode("\\", cur) == [Visible(cur + "\\")]
  {
    hide Visible;
    var s := "\\" + [c] + rest;
    assert s[1..] == [c] + rest && s[2..] == rest && s[1] == c;
    assert "\\"[1..] == "" && cur + ['\\'] == cur + "\\";
    assert Decode("", cur + "\\") == [Visible(cur + "\\")];
  }

  // A comma ends an option; any other character stands for itself.
  lemma {:induction false} DecodePlain(c: char, rest: string, cur: string)
    ensures c == ',' ==> Decode([c] + rest, cur) == [Visible(cur)] + Decode(rest, "")
    ensures c != ',' && c != '\\' ==> Decode([c] + rest, cur) == Decode(rest, cur + [c])
  {
    hide Visible;
    assert ([c] + rest)[1..] == rest;
  }

  // The options handed over until one is refused.
  function Accepted(l: seq<string>, accept: string -> bool): seq<string> {
    if l == [] then [] else if accept(l[0]) then [l[0]] + Accepted(l[1..], accept) else [l[0]]
  }

  lemma {:induction false} AcceptedConcat(a: seq<string>, b: seq<string>, accept: string -> bool)
    requires forall i :: 0 <= i < |a| ==> accept(a[i])
    ensures Accepted(a + b, accept) == a + Accepted(b, accept)
  {
    if a == [] {
      assert a + b == b;
    } else {
      AcceptedConcat(a[1..], b, accept);
      assert (a + b)[1..] == a[1..] + b;
    }
  }

  lemma {:induction false} AcceptedStop(a: seq<string>, x: string, b: seq<string>, accept: string -> bool)
    requires (forall i :: 0 <= i < |a| ==> accept(a[i])) && !accept(x)
    ensures Accepted(a + [x] + b, accept) == a + [x]
    ensures exists i :: 0 <= i < |a + [x] + b| && !accept((a + [x] + b)[i])
  {
    AcceptedConcat(a, [x] + b, accept);
    assert a + [x] + b == a + ([x] + b);
    assert (a + [x] + b)[|a|] == x;
  }

  // The text still to be read is intact in the buffer.
  ghost predicate Intact(buf: seq<char>, text: string, s: nat) {
    |buf| == |text| + 1 && buf[|text|] == NUL && CString(text)
    && forall i :: s <= i < |text| ==> buf[i] == text[i]
  }

  // Decoding one character: `s` is left on the last character read.
  method ReadChar(opts: array<char>, s0: nat, ghost text: string, ghost cur: string) returns (s: nat, c: char)
    requires Intact(opts[..], text, s0) && s0 < |text| && text[s0] != ','
    ensures s0 <= s < |text|
    ensures Decode(text[s0..], cur) == Decode(text[s + 1..], cur + [c])
  {
    hide Visible;
    ghost var todo := text[s0..];
    assert opts[..][s0] == text[s0];
    s := s0;
    if opts[s] == '\\' && opts[s + 1] != NUL {
      assert s + 1 < |text| && opts[..][s + 1] == text[s + 1];
      assert todo[1..] == text[s0 + 1..] && todo[2..] == text[s0 + 2..];
      s := s + 1;
      assert s + 1 < |text| ==> opts[..][s + 1] == text[s + 1] == todo[1..][1];
      assert s + 1 == |text| ==> opts[s + 1] == NUL;
      if '0' <= opts[s] <= '3' && '0' <= opts[s + 1] <= '7' && '0' <= opts[s + 2] <= '7' {
        assert s + 2 < |text| && opts[..][s + 2] == text[s + 2] == todo[1..][2];
        assert todo[4..] == text[s0 + 4..];
        c := ((opts[s] - '0') as int * 64 + (opts[s + 1] - '0') as int * 8 + (opts[s + 2] - '0') as int) as char;
        s := s + 2;
      } else {
        assert s + 2 < |text| ==> opts[..][s + 2] == text[s + 2] == todo[1..][2];
        c := opts[s];
      }
    } else {
      assert s + 1 < |text| ==> opts[..][s + 1] == text[s + 1];
      assert todo[1..] == text[s0 + 1..];
      c := opts[s];
    }
  }

  // Moving one decoded character down.
  method CopyChar(opts: array<char>, d: nat, s0: nat, ghost text: string, ghost cur: string) returns (s: nat, c: char)
    requires Intact(opts[..], text, s0) && d <= s0 < |text| && text[s0] != ',' && opts[..d] == cur
    modifies opts
    ensures s0 <= s < |text| && Intact(opts[..], text, s + 1) && opts[..d + 1] == cur + [c]
    ensures Decode(text[s0..], cur) == Decode(text[s + 1..], cur + [c])
  {
    hide Decode;
    s, c := ReadChar(opts, s0, text, cur);
    Put(opts, d, c);
    assert forall i :: d + 1 <= i < opts.Length ==> opts[i] == opts[d + 1..][i - (d + 1)];
  }

  // Ending an option: what `process_gopt` is given.
  method Finish(opts: array<char>, d: nat, s: nat, ghost text: string, ghost cur: string) returns (opt: string)
    requires Intact(opts[..], text, s) && d <= s <= |text| && opts[..d] == cur
    modifies opts
    ensures opt == Visible(cur) && (s < |text| ==> Intact(opts[..], text, s + 1))
  {
    hide Visible;
    opts[d] := NUL;
    assert opts[..d] == cur;
    opt := Visible(opts[..d]);
  }

  // `process_real_option_group`: decodes in place; the write cursor never passes the read cursor, so what is
  // still to be read is intact.  `out` are the options handed to `process_gopt`, `ok` whether all were accepted.
  method ProcessOptionGroup(opts: array<char>, accept: string -> bool) returns (ok: bool, out: seq<string>)
    requires opts.Length > 0 && CString(opts[..opts.Length - 1]) && opts[opts.Length - 1] == NUL
    modifies opts
    ensures var l := Decode(old(opts[..opts.Length - 1]), "");
            out == Accepted(l, accept) && (ok <==> forall i :: 0 <= i < |l| ==> accept(l[i]))
  {
    ghost var text := opts[..opts.Length - 1];
    ghost var all := Decode(text, "");
    hide Visible, Accepted, Decode, Intact;
    IntactStart(opts[..], text);
    var n := opts.Length - 1;
    var s, d := 0, 0;
    var end := false;
    out := [];
    assert text[0..] == text && opts[..0] == "";
    ghost var cur := "";
    while !end
      invariant d <= s && (!end ==> s <= n) && d == |cur|
      invariant !end ==> Intact(opts[..], text, s) && opts[..d] == cur
      invariant end ==> out == all
      invariant !end ==> all == out + Decode(text[s..], cur)
      invariant forall i :: 0 <= i < |out| ==> accept(out[i])
      decreases !end, n - s
    {
      IntactAt(opts[..], text, s);
      if opts[s] == NUL {
        end := true;
      }
      if opts[s] == ',' || end {
        ghost var rest := if end then [] else Decode(text[s + 1..], "");
        DecodeBreak(text, s, cur);
        var opt := Finish(opts, d, s, text, cur);
        assert all == out + [opt] + rest;
        if !accept(opt) {
          AcceptedStop(out, opt, rest, accept);
          return false, out + [opt];
        }
        out := out + [opt];
        d, cur := 0, "";
      } else {
        var c;
        s, c := CopyChar(opts, d, s, text, cur);
        cur := cur + [c];
        d := d + 1;
      }
      s := s + 1;
    }
    AcceptedConcat(out, [], accept);
    assert out + [] == out;
    AcceptedEmpty(accept);
    ok := true;
  }

  lemma IntactStart(buf: seq<char>, text: string)
    requires |buf| > 0 && text == buf[..|buf| - 1] && CString(text) && buf[|buf| - 1] == NUL
    ensures Intact(buf, text, 0)
  {
  }

  lemma IntactAt(buf: seq<char>, text: string, s: nat)
    requires Intact(buf, text, s) && s <= |text|
    ensures |buf| == |text| + 1
    ensures s < |text| ==> buf[s] == text[s] != NUL
    ensures s == |text| ==> buf[s] == NUL
  {
  }

  lemma AcceptedEmpty(accept: string -> bool)
    ensures Accepted([], accept) == []
  {
  }

  lemma {:induction false} DecodeBreak(text: string, s: nat, cur: string)
    requires s <= |text| && (s < |text| ==> text[s] == ',')
    ensures Decode(text[s..], cur) == [Visible(cur)] + if s == |text| then [] else Decode(text[s + 1..], "")
  {
    if s < |text| {
      assert text[s..][1..] == text[s + 1..];
    }
  }

  // ------------------------------------------------------------------ round trip

  // A list of options as the escaper strings them together, one call each, starting from nothing.
  function Encode(l: seq<string>): string {
    if l == [] then "" else AddOpt(Encode(l[..|l| - 1]), l[|l| - 1], true)
  }

  // Escaped options separated by commas.
  function Join(l: seq<string>): string
    requires l != []
  {
    if |l| == 1 then Escape(l[0]) else Escape(l[0]) + "," + Join(l[1..])
  }

  // Empty options in front are lost: the escaper puts a comma only after a non-empty string.
  function Trim(l: seq<string>): (r: seq<string>)
    ensures l != [] ==> r != [] && |r| <= |l| && (r == l <==> |l| == 1 || l[0] != "")
  {
    if |l| > 1 && l[0] == "" then Trim(l[1..]) else l
  }

  lemma {:induction false} JoinSnoc(l: seq<string>, x: string)
    requires l != []
    ensures Join(l + [x]) == Join(l) + "," + Escape(x)
  {
    hide Escape;
    if |l| == 1 {
      assert (l + [x])[1..] == [x];
    } else {
      JoinSnoc(l[1..], x);
      assert (l + [x])[1..] == l[1..] + [x];
      assert Escape(l[0]) + "," + (Join(l[1..]) + "," + Escape(x)) ==
        (Escape(l[0]) + "," + Join(l[1..])) + "," + Escape(x);
    }
  }

  lemma {:induction false} EscapeEmpty(s: string)
    ensures Escape(s) == "" <==> s == ""
  {
  }

  lemma {:induction false} TrimSnoc(l: seq<string>, x: string)
    requires l != []
    ensures Trim(l + [x]) == if Trim(l) == [""] then [x] else Trim(l) + [x]
  {
    if l[0] == "" {
      assert (l + [x])[1..] == l[1..] + [x];
      if |l| > 1 {
        TrimSnoc(l[1..], x);
      } else {
        assert l == [""] && l[1..] + [x] == [x];
      }
    }
  }

  lemma {:induction false} EncodeIsJoin(l: seq<string>)
    requires l != []
    ensures Encode(l) == Join(Trim(l))
  {
    var x := l[|l| - 1];
    var p := l[..|l| - 1];
    assert l == p + [x];
    if p == [] {
      assert Encode(p) == "";
      assert AddOpt("", x, true) == "" + Escape(x) == Escape(x);
    } else {
      EncodeIsJoin(p);
      TrimSnoc(p, x);
      JoinEmpty(Trim(p));
      if Trim(p) == [""] {
        assert AddOpt("", x, true) == "" + Escape(x) == Escape(x);
      } else {
        JoinSnoc(Trim(p), x);
      }
    }
  }

  lemma {:induction false} JoinEmpty(l: seq<string>)
    requires l != []
    ensures Join(l) == "" <==> l == [""]
  {
    EscapeEmpty(l[0]);
  }

  // Whatever follows it, an escaped option decodes to itself.
  lemma {:induction false} DecodeEscaped(x: string, rest: string, cur: string)
    ensures Decode(Escape(x) + rest, cur) == Decode(rest, cur + x)
    decreases |x|
  {
    hide Decode, EscapeChar;
    if x == "" {
      assert Escape(x) + rest == rest && cur + x == cur;
    } else {
      var t := Escape(x[1..]) + rest;
      assert Escape(x) + rest == EscapeChar(x[0]) + t;
      DecodeOne(x[0], t, cur);
      DecodeEscaped(x[1..], rest, cur + [x[0]]);
      assert cur + [x[0]] + x[1..] == cur + x;
    }
  }

  lemma {:induction false} DecodeOne(c: char, t: string, cur: string)
    ensures Decode(EscapeChar(c) + t, cur) == Decode(t, cur + [c])
  {
    hide Visible;
    var s := EscapeChar(c) + t;
    if Special(c) {
      assert s[0] == '\\' && s[1..][0] == c && s[2..] == t;
    } else {
      assert s[0] == c && s[1..] == t;
    }
  }

  lemma {:induction false} DecodeJoin(l: seq<string>)
    requires l != [] && CStrings(l)
    ensures Decode(Join(l), "") == l
  {
    hide Escape, Visible;
    VisibleWhole(l[0]);
    if |l| == 1 {
      DecodeEscaped(l[0], "", "");
      assert Escape(l[0]) + "" == Join(l) && "" + l[0] == l[0];
    } else {
      var rest := "," + Join(l[1..]);
      DecodeEscaped(l[0], rest, "");
      assert Escape(l[0]) + rest == Join(l) && "" + l[0] == l[0] && rest[1..] == Join(l[1..]);
      DecodeJoin(l[1..]);
    }
  }

  // Escaping then decoding gives the list back, except for empty options in front of others.
  lemma {:induction false} RoundTrip(l: seq<string>)
    requires CStrings(l)
    ensures Decode(Encode(l), "") == (if l == [] then [""] else Trim(l))
    ensures Decode(Encode(l), "") == l <==> l != [] && (|l| == 1 || l[0] != "")
  {
    if l != [] {
      EncodeIsJoin(l);
      TrimCStrings(l);
      DecodeJoin(Trim(l));
    }
  }

  // A loss: the empty option in front of "a" is gone.
  lemma EmptyOptionLost()
    ensures Decode(Encode(["", "a"]), "") == ["a"]
  {
    hide Decode, Encode;
    RoundTrip(["", "a"]);
    assert Trim(["", "a"]) == Trim(["", "a"][1..]) && ["", "a"][1..] == ["a"];
  }

  lemma {:induction false} TrimCStrings(l: seq<string>)
    requires CStrings(l)
    ensures CStrings(Trim(l))
  {
    if |l| > 1 && l[0] == "" {
      TrimCStrings(l[1..]);
    }
  }
}
